/** The handlers, over the queues of the connectors and the messages of the ports. */
module Handlers {
  import opened Basics
  import opened Collections
  import opened Protocol
  import opened Bitmask
  import opened PriorityQueue
  import opened MapQueue

  /** A `cache__ctrl__req` without its id; the mask is a 32-bit word. */
  datatype CacheReq = CacheReq(lbn: nat, len: nat, bitmask: bv32)

  datatype CacheMsg = CacheMsg(id: nat, req: CacheReq)

  ghost function AsReq(r: CacheReq): Req {
    Req(r.lbn, r.len, Bits(r.bitmask))
  }

  ghost function AsReqs(q: map<nat, CacheReq>): map<nat, Req> {
    map id | id in q :: AsReq(q[id])
  }

  /** The open requests a queue holds, as the protocol sees them. */
  ghost function Open(q: Queue<CacheReq>): map<nat, Req>
    reads q
  {
    AsReqs(Data(q))
  }

  lemma EnqueuedReqs(q: map<nat, CacheReq>, id: nat, r: CacheReq)
    ensures AsReqs(PutIfAbsent(q, id, r)) == PutIfAbsent(AsReqs(q), id, AsReq(r))
  {
  }

  lemma DroppedReqs(q: map<nat, CacheReq>, id: nat)
    ensures AsReqs(Drop(q, id)) == Drop(AsReqs(q), id)
  {
  }

  lemma BlocksMissing(r: CacheReq)
    ensures r.bitmask > 0 <==> AsReq(r).mask != {}
  {
    ZeroBits(r.bitmask);
  }

  /** `bit = 1 << (lbn - req->lbn); bitmask &= ~bit` */
  function Cleared(r: CacheReq, lbn: nat): CacheReq
    requires r.lbn <= lbn < r.lbn + SHIFT_LIMIT
  {
    r.(bitmask := Clear(r.bitmask, lbn - r.lbn))
  }

  lemma ClearedMask(r: CacheReq, lbn: nat)
    requires r.lbn <= lbn < r.lbn + SHIFT_LIMIT
    ensures AsReq(Cleared(r, lbn)) == AsReq(r).(mask := AsReq(r).mask - {lbn - r.lbn})
  {
    ClearBits(r.bitmask, lbn - r.lbn);
  }

  /** The block leaves the mask in the client's map, and in the dispatcher's unless the mask is used up. */
  lemma ClearedReqs(q: map<nat, CacheReq>, id: nat, lbn: nat)
    requires id in q && ShiftDefined(AsReqs(q), id, lbn)
    ensures AsReqs(q[id := Cleared(q[id], lbn)]) == Fill(AsReqs(q), id, lbn)
  {
    ClearedMask(q[id], lbn);
  }

  lemma TickedOffReqs(q: map<nat, CacheReq>, id: nat, lbn: nat)
    requires id in q && ShiftDefined(AsReqs(q), id, lbn)
    ensures var r := Cleared(q[id], lbn);
            && (r.bitmask == 0 <==> AnswerIfDone(AsReqs(q), id, lbn, None).Some?)
            && TickOff(AsReqs(q), id, lbn) == AsReqs(if r.bitmask == 0 then Drop(q[id := r], id) else q[id := r])
  {
    var r := Cleared(q[id], lbn);
    ClearedMask(q[id], lbn);
    ZeroBits(r.bitmask);
    DroppedReqs(q, id);
    ClearedReqs(q, id, lbn);
    assert Drop(q[id := r], id) == Drop(q, id);
  }

  // ---- the client ----

  method ScheduleReference(outport: Queue<CacheReq>, baseLbn: nat, len: nat, now: int) returns (msg: CacheMsg)
    requires outport.Valid() && 1 <= len <= MAX_LEN
    modifies outport.Repr
    ensures outport.Valid() && fresh(outport.Repr - old(outport.Repr))
    ensures msg.id == old(outport.nextEventId) && AsReq(msg.req) == Req(baseLbn, len, Full(len))
    ensures outport.nextEventId == (old(outport.nextEventId) + 1) % UINT32
    ensures Open(outport) == PutIfAbsent(old(Open(outport)), msg.id, AsReq(msg.req))
  {
    var id := NextId(outport);
    var mask := FullMask(len);
    var req := CacheReq(baseLbn, len, mask);
    EnqueuedReqs(Data(outport), id, req);
    Enqueue(outport, id, req, now);
    msg := CacheMsg(id, req);
  }

  /** The client's copy loses the block of the response. */
  method ClientInterimResponse(outport: Queue<CacheReq>, rsp: InterimMsg)
    requires outport.Valid()
    requires rsp.id in Data(outport) && ShiftDefined(Open(outport), rsp.id, rsp.lbn)
    modifies outport.Repr
    ensures outport.Valid() && outport.Repr == old(outport.Repr)
    ensures outport.nextEventId == old(outport.nextEventId)
    ensures Open(outport) == Fill(old(Open(outport)), rsp.id, rsp.lbn)
  {
    var node, p := outport.PeekById(rsp.id);
    ClearedReqs(Data(outport), rsp.id, rsp.lbn);
    Assign(outport, node, p, Cleared(node.body, rsp.lbn));
  }

  /** Drops a finished request; `complaint` says that "BITMASK not ZERO" was logged. */
  method ClientResponse(outport: Queue<CacheReq>, id: nat, now: int) returns (found: bool, complaint: bool)
    requires outport.Valid()
    modifies outport.Repr
    ensures outport.Valid() && outport.Repr == old(outport.Repr)
    ensures outport.nextEventId == old(outport.nextEventId)
    ensures found <==> id in old(Open(outport))
    ensures Open(outport) == if found then Drop(old(Open(outport)), id) else old(Open(outport))
    ensures complaint <==> found && old(Open(outport))[id].mask != {}
  {
    hide Queue.Valid, Drop, AsReq;
    DroppedReqs(Data(outport), id);
    var req := TakeById(outport, id, now);
    found, complaint := req.Some?, false;
    if found {
      BlocksMissing(req.value);
      complaint := req.value.bitmask > 0;
    }
  }

  // ---- the dispatcher ----

  /** Queues the request and one sub-request for each set bit of its mask. */
  method ProcessBatchRequest(inport: Queue<CacheReq>, sched: Queue<Sub>, msg: CacheMsg, now: int, ghost made: seq<Sub>)
    returns (ghost created: seq<Sub>)
    requires inport.Valid() && sched.Valid() && inport.Repr !! sched.Repr
    modifies inport.Repr, sched.Repr
    ensures inport.Valid() && fresh(inport.Repr - old(inport.Repr)) && inport.nextEventId == old(inport.nextEventId)
    ensures sched.Valid() && fresh(sched.Repr - old(sched.Repr))
    ensures inport.Repr !! sched.Repr
    ensures Open(inport) == PutIfAbsent(old(Open(inport)), msg.id, AsReq(msg.req))
    ensures Splitting(sched, created)
            == SplitMask(old(Splitting(sched, made)), msg.id, msg.req.lbn, Bits(msg.req.bitmask))
  {
    hide Queue.Valid, Drop;
    EnqueuedReqs(Data(inport), msg.id, msg.req);
    Enqueue(inport, msg.id, msg.req, now);
    created := SplitWord(sched, msg, now, made);
  }

  /** The scheduler queue and the history of what went into it. */
  ghost function Splitting(sched: Queue<Sub>, created: seq<Sub>): Split
    reads sched
  {
    Split(Data(sched), sched.nextEventId, created)
  }

  /** One turn of the shift loop. */
  lemma SplitTurn(p: Split, id: nat, lbn: nat, rest: set<nat>, bm: bv32, i: nat)
    requires Shifted(rest, bm, i)
    ensures SplitMask(p, id, lbn, rest)
         == SplitMask(if bm & 1 != 0 then SplitBit(p, Sub(id, lbn + i)) else p, id, lbn, rest - {i})
    ensures Shifted(rest - {i}, bm >> 1, i + 1)
  {
    ShiftDown(rest, bm, i);
    if bm & 1 != 0 {
      assert Min(rest) == i;
    } else {
      assert rest - {i} == rest;
    }
  }

  lemma SplitEnd(p: Split, id: nat, lbn: nat, rest: set<nat>, i: nat)
    requires Shifted(rest, 0, i)
    ensures SplitMask(p, id, lbn, rest) == p
  {
    ShiftedZero(rest, 0, i);
  }

  /** The shift loop. */
  method SplitWord(sched: Queue<Sub>, msg: CacheMsg, now: int, ghost made: seq<Sub>) returns (ghost created: seq<Sub>)
    requires sched.Valid()
    modifies sched.Repr
    ensures sched.Valid() && fresh(sched.Repr - old(sched.Repr))
    ensures Splitting(sched, created)
            == SplitMask(old(Splitting(sched, made)), msg.id, msg.req.lbn, Bits(msg.req.bitmask))
  {
    hide Queue.Valid, Drop;
    var CacheMsg(id, CacheReq(lbn, _, bm)) := msg;
    created := made;
    var i := 0;
    ghost var rest := Bits(bm);
    ghost var goal := SplitMask(Splitting(sched, made), id, lbn, rest);
    BitsShifted(bm);
    while bm > 0
      invariant sched.Valid() && fresh(sched.Repr - old(sched.Repr))
      invariant Shifted(rest, bm, i)
      invariant SplitMask(Splitting(sched, created), id, lbn, rest) == goal
      decreases bm
    {
      SplitTurn(Splitting(sched, created), id, lbn, rest, bm, i);
      if bm & 1 != 0 {
        created := QueueBlock(sched, Sub(id, lbn + i), now, created);
      }
      bm := bm >> 1;
      rest := rest - {i};
      i := i + 1;
    }
    SplitEnd(Splitting(sched, created), id, lbn, rest, i);
  }

  /** A sub-request is queued under the next id. */
  method QueueBlock(sched: Queue<Sub>, sub: Sub, now: int, ghost made: seq<Sub>) returns (ghost created: seq<Sub>)
    requires sched.Valid()
    modifies sched.Repr
    ensures sched.Valid() && fresh(sched.Repr - old(sched.Repr))
    ensures Splitting(sched, created) == SplitBit(old(Splitting(sched, made)), sub)
  {
    hide Queue.Valid, Drop;
    var id := NextId(sched);
    Enqueue(sched, id, sub, now);
    created := made + [sub];
  }

  /** Moves the sub-request with the least id to the output queue and hands it to the port. */
  method ScheduleDiskRequest(sched: Queue<Sub>, outport: Queue<Sub>, now: int) returns (req: Option<(nat, Sub)>)
    requires sched.Valid() && outport.Valid() && sched.Repr !! outport.Repr
    modifies sched.Repr, outport.Repr
    ensures sched.Valid() && sched.Repr == old(sched.Repr) && sched.nextEventId == old(sched.nextEventId)
    ensures outport.Valid() && fresh(outport.Repr - old(outport.Repr))
            && outport.nextEventId == old(outport.nextEventId)
    ensures req.None? <==> old(Data(sched)) == map[]
    ensures req.None? ==> Data(sched) == old(Data(sched)) && Data(outport) == old(Data(outport))
    ensures req.Some? ==>
              var id := Min(old(Data(sched)).Keys);
              && req.value == (id, old(Data(sched))[id])
              && Data(sched) == Drop(old(Data(sched)), id)
              && Data(outport) == PutIfAbsent(old(Data(outport)), id, req.value.1)
  {
    hide Queue.Valid, Drop;
    var empty := IsEmpty(sched);
    if empty {
      return None;
    }
    var id, sub := TakeFirst(sched, now);
    Enqueue(outport, id, sub, now);
    return Some((id, sub));
  }

  /** What `process_disk_response` puts on the ports. */
  datatype Reply = Reply(interim: InterimMsg, batch: Option<nat>)

  /** Drops the sub-request and clears its bit; a request without bits left is dropped and answered. */
  method ProcessDiskResponse(outport: Queue<Sub>, other: Queue<CacheReq>, id: nat, now: int)
    returns (reply: Option<Reply>)
    requires outport.Valid() && other.Valid() && outport.Repr !! other.Repr
    requires Data(outport) == map[] ||
             (id in Data(outport) && Data(outport)[id].parent in Data(other)
              && ShiftDefined(Open(other), Data(outport)[id].parent, Data(outport)[id].lbn))
    modifies outport.Repr, other.Repr
    ensures outport.Valid() && outport.Repr == old(outport.Repr) && outport.nextEventId == old(outport.nextEventId)
    ensures other.Valid() && other.Repr == old(other.Repr) && other.nextEventId == old(other.nextEventId)
    ensures reply.None? <==> old(Data(outport)) == map[]
    ensures reply.None? ==> Data(outport) == old(Data(outport)) && Data(other) == old(Data(other))
    ensures reply.Some? ==>
              var sub := old(Data(outport))[id];
              && Data(outport) == Drop(old(Data(outport)), id)
              && Open(other) == TickOff(old(Open(other)), sub.parent, sub.lbn)
              && reply.value.interim == InterimMsg(sub.parent, sub.lbn)
              && reply.value.batch == AnswerIfDone(old(Open(other)), sub.parent, sub.lbn, None)
  {
    hide Queue.Valid, Drop;
    var empty := IsEmpty(outport);
    if empty {
      return None;
    }
    var r := TakeById(outport, id, now);
    var Sub(parent, lbn) := r.value;
    var batch := ClearBlock(other, parent, lbn, now);
    return Some(Reply(InterimMsg(parent, lbn), batch));
  }

  method ClearBlock(other: Queue<CacheReq>, id: nat, lbn: nat, now: int) returns (batch: Option<nat>)
    requires other.Valid() && id in Data(other) && ShiftDefined(Open(other), id, lbn)
    modifies other.Repr
    ensures other.Valid() && other.Repr == old(other.Repr) && other.nextEventId == old(other.nextEventId)
    ensures Open(other) == TickOff(old(Open(other)), id, lbn)
    ensures batch == AnswerIfDone(old(Open(other)), id, lbn, None)
  {
    ghost var q := Data(other);
    TickedOffReqs(q, id, lbn);
    var node, p := other.PeekById(id);
    var req := Cleared(node.body, lbn);
    Assign(other, node, p, req);
    batch := None;
    if req.bitmask == 0 {
      var dropped := TakeById(other, id, now);
      batch := Some(id);
    }
  }

  // ---- the worker ----

  method EnqueueTask(inport: Queue<nat>, task: TaskMsg, now: int)
    requires inport.Valid()
    modifies inport.Repr
    ensures inport.Valid() && fresh(inport.Repr - old(inport.Repr)) && inport.nextEventId == old(inport.nextEventId)
    ensures Data(inport) == PutIfAbsent(old(Data(inport)), task.id, task.lbn)
  {
    Enqueue(inport, task.id, task.lbn, now);
  }

  method EmulateDelay(inport: Queue<nat>, id: nat, now: int) returns (found: bool)
    requires inport.Valid()
    modifies inport.Repr
    ensures inport.Valid() && inport.Repr == old(inport.Repr) && inport.nextEventId == old(inport.nextEventId)
    ensures found <==> id in old(Data(inport))
    ensures Data(inport) == if found then Drop(old(Data(inport)), id) else old(Data(inport))
  {
    var req := TakeById(inport, id, now);
    found := req.Some?;
  }
}
