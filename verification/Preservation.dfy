/** Every step of the protocol keeps the invariant, and none faults. */
module Preservation {
  import opened Basics
  import opened Collections
  import opened Protocol
  import opened Invariant

  lemma TaskPlaced(outIds: set<nat>, workIds: set<nat>, fetch: multiset<nat>, task: TaskMsg, result: Option<nat>)
    requires Placed(outIds, workIds, fetch, Some(task), result)
    ensures task.id !in workIds
    ensures Placed(outIds, workIds + {task.id}, fetch + multiset{task.id}, None, result)
  {
    assert task.id in SlotIds(Some(task), result);
    assert multiset(workIds + {task.id}) == multiset(workIds) + multiset{task.id};
  }

  lemma WorkerTakes(outQ: map<nat, Sub>, workQ: map<nat, nat>, fetch: multiset<nat>, task: TaskMsg, result: Option<nat>)
    requires WorkerSide(outQ, workQ, fetch, Some(task), result)
    ensures WorkerSide(outQ, PutIfAbsent(workQ, task.id, task.lbn), fetch + multiset{task.id}, None, result)
  {
    hide Placed;
    TaskPlaced(outQ.Keys, workQ.Keys, fetch, task, result);
    assert PutIfAbsent(workQ, task.id, task.lbn).Keys == workQ.Keys + {task.id};
  }

  lemma TaskKeeps(s: State)
    requires Inv(s) && Enabled(s, Task)
    ensures Inv(EnqueueTask(s))
  {
    WorkerTakes(s.outQ, s.workQ, s.fetch, s.task.value, s.result);
  }

  lemma WorkerFinishes(outQ: map<nat, Sub>, workQ: map<nat, nat>, fetch: multiset<nat>, task: Option<TaskMsg>, id: nat)
    requires WorkerSide(outQ, workQ, fetch, task, None) && id in fetch
    ensures id in workQ
    ensures WorkerSide(outQ, workQ - {id}, fetch - multiset{id}, task, Some(id))
  {
    assert (workQ - {id}).Keys == workQ.Keys - {id};
    assert multiset(workQ.Keys - {id}) == multiset(workQ.Keys) - multiset{id};
  }

  lemma FetchPageKeeps(s: State, id: nat)
    requires Inv(s) && Enabled(s, FetchPage(id))
    ensures Inv(EmulateDelay(s, id))
  {
    WorkerFinishes(s.outQ, s.workQ, s.fetch, s.task, id);
  }

  // ---- the dispatcher's trigger ----

  lemma MinIsNext(schedQ: map<nat, Sub>, created: seq<Sub>, sent: seq<Sub>)
    requires Queued(schedQ, created, sent) && schedQ != map[]
    ensures Min(schedQ.Keys) == |sent| < |created|
  {
    var k :| k in schedQ;
    assert k in schedQ.Keys;
    assert |sent| in schedQ.Keys;
  }

  lemma DispatchKeeps(schedQ: map<nat, Sub>, outQ: map<nat, Sub>, created: seq<Sub>, sent: seq<Sub>, inQ: map<nat, Req>)
    requires Queued(schedQ, created, sent) && Sent(outQ, created, sent)
    requires InFlightOpen(schedQ, outQ, created, inQ) && OpenInFlight(schedQ, outQ, created, inQ)
    requires |sent| in schedQ
    ensures |sent| < |created| && |sent| !in outQ
    ensures var id := |sent|; var sub := schedQ[id]; var rest := schedQ - {id}; var outQ' := PutIfAbsent(outQ, id, sub);
            && Queued(rest, created, sent + [sub]) && Sent(outQ', created, sent + [sub])
            && InFlightOpen(rest, outQ', created, inQ) && OpenInFlight(rest, outQ', created, inQ)
  {
    var id := |sent|;
    var sub := schedQ[id];
    var rest := schedQ - {id};
    var outQ' := PutIfAbsent(outQ, id, sub);
    assert id in schedQ.Keys;
    assert rest.Keys == schedQ.Keys - {id};
    forall k: nat ensures InFlight(rest, outQ', k) == InFlight(schedQ, outQ, k) {}
    forall b | OpenBlock(b, inQ) ensures exists k :: 0 <= k < |created| && InFlight(rest, outQ', k) && created[k] == b {
      var k :| 0 <= k < |created| && InFlight(schedQ, outQ, k) && created[k] == b;
      assert InFlight(rest, outQ', k);
    }
  }

  lemma WorkerGets(outQ: map<nat, Sub>, workQ: map<nat, nat>, fetch: multiset<nat>, result: Option<nat>, id: nat,
                   sub: Sub)
    requires WorkerSide(outQ, workQ, fetch, None, result) && id !in outQ
    ensures WorkerSide(outQ[id := sub], workQ, fetch, Some(TaskMsg(id, sub.lbn)), result)
  {
  }

  lemma TriggerKeeps(s: State)
    requires Inv(s) && Enabled(s, StorageReqTrigger)
    ensures Inv(ScheduleDiskRequest(s))
  {
    MinIsNext(s.schedQ, s.created, s.sent);
    DispatchKeeps(s.schedQ, s.outQ, s.created, s.sent, s.inQ);
    WorkerGets(s.outQ, s.workQ, s.fetch, s.result, |s.sent|, s.schedQ[|s.sent|]);
  }

  // ---- the dispatcher splits a request ----

  /** The blocks of the set bits, in ascending order. */
  ghost function MaskBlocks(id: nat, lbn: nat, bits: set<nat>): (blocks: seq<Sub>)
    ensures |blocks| == |bits|
  {
    if bits == {} then [] else var bit := Min(bits); [Sub(id, lbn + bit)] + MaskBlocks(id, lbn, bits - {bit})
  }

  lemma SplitBitCreates(p: Split, sub: Sub, sent: seq<Sub>)
    requires Queued(p.schedQ, p.created, sent) && p.subNext == |p.created| && |p.created| + 1 < UINT32
    ensures var q := SplitBit(p, sub);
            q.created == p.created + [sub] && q.subNext == |q.created| && Queued(q.schedQ, q.created, sent)
  {
    assert p.subNext !in p.schedQ;
  }

  /** The shift loop's first turn, and the block it makes. */
  lemma SplitTurn(p: Split, id: nat, lbn: nat, bits: set<nat>)
    ensures bits == {} ==> SplitMask(p, id, lbn, bits) == p && MaskBlocks(id, lbn, bits) == []
    ensures bits != {} ==>
              && SplitMask(p, id, lbn, bits)
                 == SplitMask(SplitBit(p, Sub(id, lbn + Min(bits))), id, lbn, bits - {Min(bits)})
              && MaskBlocks(id, lbn, bits) == [Sub(id, lbn + Min(bits))] + MaskBlocks(id, lbn, bits - {Min(bits)})
  {
  }

  /** One sub-request per set bit, in ascending order, under consecutive ids. */
  lemma {:induction false} SplitMaskCreates(p: Split, id: nat, lbn: nat, bits: set<nat>, sent: seq<Sub>)
    requires Queued(p.schedQ, p.created, sent) && p.subNext == |p.created|
    requires |p.created| + |bits| < UINT32
    ensures var p' := SplitMask(p, id, lbn, bits);
            && p'.created == p.created + MaskBlocks(id, lbn, bits)
            && Queued(p'.schedQ, p'.created, sent) && p'.subNext == |p'.created|
    decreases bits
  {
    hide SplitMask, MaskBlocks, SplitBit, Queued;
    SplitTurn(p, id, lbn, bits);
    if bits != {} {
      var bit := Min(bits);
      var sub := Sub(id, lbn + bit);
      SplitBitCreates(p, sub, sent);
      SplitMaskCreates(SplitBit(p, sub), id, lbn, bits - {bit}, sent);
    }
  }

  lemma MinOfInterval(lo: nat, hi: nat)
    requires lo < hi
    ensures Interval(lo, hi) != {} && Min(Interval(lo, hi)) == lo && Interval(lo, hi) - {lo} == Interval(lo + 1, hi)
  {
    assert lo in Interval(lo, hi);
  }

  lemma BlocksFrom(id: nat, req: Req, lo: nat)
    requires lo < req.len
    ensures Blocks(id, req)[lo..] == [Sub(id, req.lbn + lo)] + Blocks(id, req)[lo + 1..]
  {
  }

  lemma {:induction false} IntervalBlocks(id: nat, req: Req, lo: nat)
    requires lo <= req.len
    ensures MaskBlocks(id, req.lbn, Interval(lo, req.len)) == Blocks(id, req)[lo..]
    decreases req.len - lo
  {
    if lo < req.len {
      MinOfInterval(lo, req.len);
      BlocksFrom(id, req, lo);
      hide Interval, Blocks, Min;
      IntervalBlocks(id, req, lo + 1);
    }
  }

  /** New blocks queued under the next ids are open blocks of the new request. */
  lemma NewBlocksOpen(schedQ: map<nat, Sub>, schedQ': map<nat, Sub>, outQ: map<nat, Sub>, created: seq<Sub>,
                      sent: seq<Sub>, inQ: map<nat, Req>, id: nat, req: Req)
    requires req.mask == Full(req.len) && id !in inQ
    requires Queued(schedQ, created, sent) && Queued(schedQ', created + Blocks(id, req), sent)
             && Sent(outQ, created, sent)
    requires InFlightOpen(schedQ, outQ, created, inQ)
    ensures InFlightOpen(schedQ', outQ, created + Blocks(id, req), inQ[id := req])
  {
    var created' := created + Blocks(id, req);
    var n := |created|;
    forall k | 0 <= k < |created'| && InFlight(schedQ', outQ, k) ensures OpenBlock(created'[k], inQ[id := req]) {
      if k < n {
        assert InFlight(schedQ, outQ, k) && created'[k] == created[k];
      } else {
        assert created'[k] == Sub(id, req.lbn + (k - n));
      }
    }
  }

  /** And they are all of them. */
  lemma NewBlocksQueued(schedQ: map<nat, Sub>, schedQ': map<nat, Sub>, outQ: map<nat, Sub>, created: seq<Sub>,
                        sent: seq<Sub>, inQ: map<nat, Req>, id: nat, req: Req)
    requires req.mask == Full(req.len) && id !in inQ
    requires Queued(schedQ, created, sent) && Queued(schedQ', created + Blocks(id, req), sent)
             && Sent(outQ, created, sent)
    requires OpenInFlight(schedQ, outQ, created, inQ)
    ensures OpenInFlight(schedQ', outQ, created + Blocks(id, req), inQ[id := req])
  {
    var created', inQ' := created + Blocks(id, req), inQ[id := req];
    var n := |created|;
    forall sub | OpenBlock(sub, inQ')
      ensures exists k :: 0 <= k < |created'| && InFlight(schedQ', outQ, k) && created'[k] == sub
    {
      if sub.parent == id {
        var bit := sub.lbn - req.lbn;
        assert created'[n + bit] == sub && InFlight(schedQ', outQ, n + bit);
      } else {
        assert OpenBlock(sub, inQ);
        var k :| 0 <= k < n && InFlight(schedQ, outQ, k) && created[k] == sub;
        assert InFlight(schedQ', outQ, k) && created'[k] == sub;
      }
    }
  }

  lemma SplitCreates(p: Split, id: nat, req: Req, sent: seq<Sub>)
    requires req.mask == Full(req.len) && |p.created| + req.len < UINT32
    requires Queued(p.schedQ, p.created, sent) && p.subNext == |p.created|
    ensures var p' := SplitMask(p, id, req.lbn, req.mask);
            && p'.created == p.created + Blocks(id, req) && p'.subNext == |p'.created|
            && Queued(p'.schedQ, p'.created, sent)
  {
    IntervalBlocks(id, req, 0);
    SplitMaskCreates(p, id, req.lbn, req.mask, sent);
  }

  lemma SplitWakes(schedQ: map<nat, Sub>, schedQ': map<nat, Sub>, created: seq<Sub>, created': seq<Sub>,
                   sent: seq<Sub>, trigger: nat)
    requires Queued(schedQ, created, sent) && Queued(schedQ', created', sent) && |created| < |created'|
    requires WakeUp(schedQ, trigger)
    ensures WakeUp(schedQ', WakeIfIdle(schedQ, trigger))
  {
    assert |created| in schedQ';
  }

  lemma SplitKeeps(p: Split, id: nat, req: Req, sent: seq<Sub>, outQ: map<nat, Sub>, inQ: map<nat, Req>, trigger: nat)
    requires req.mask == Full(req.len) && 0 < req.len && id !in inQ
    requires Queued(p.schedQ, p.created, sent) && p.subNext == |p.created| && |p.created| + req.len < UINT32
    requires Sent(outQ, p.created, sent) && WakeUp(p.schedQ, trigger)
    requires InFlightOpen(p.schedQ, outQ, p.created, inQ) && OpenInFlight(p.schedQ, outQ, p.created, inQ)
    ensures var p' := SplitMask(p, id, req.lbn, req.mask);
            && p'.created == p.created + Blocks(id, req) && p'.subNext == |p'.created|
            && Queued(p'.schedQ, p'.created, sent) && Sent(outQ, p'.created, sent)
            && WakeUp(p'.schedQ, WakeIfIdle(p.schedQ, trigger))
            && InFlightOpen(p'.schedQ, outQ, p'.created, inQ[id := req])
            && OpenInFlight(p'.schedQ, outQ, p'.created, inQ[id := req])
  {
    var p' := SplitMask(p, id, req.lbn, req.mask);
    SplitCreates(p, id, req, sent);
    SplitWakes(p.schedQ, p'.schedQ, p.created, p'.created, sent, trigger);
    NewBlocksOpen(p.schedQ, p'.schedQ, outQ, p.created, sent, inQ, id, req);
    NewBlocksQueued(p.schedQ, p'.schedQ, outQ, p.created, sent, inQ, id, req);
  }

  lemma BlocksTaken(issued: seq<Req>, created: seq<Sub>, batchReq: Option<BatchMsg>, req: Req)
    requires batchReq.Some? && issued != [] && req == issued[|issued| - 1] && req.len <= MAX_LEN
    requires created == AllBlocks(issued[..Taken(issued, batchReq)])
    requires |created| <= MAX_LEN * Taken(issued, batchReq)
    ensures created + Blocks(|issued| - 1, req) == AllBlocks(issued[..Taken(issued, None)])
    ensures |created| + req.len <= MAX_LEN * Taken(issued, None) <= MAX_LEN * |issued|
  {
    assert issued[..|issued|] == issued;
  }

  lemma BatchRequestKeeps(s: State)
    requires Inv(s) && Enabled(s, BatchRequest)
    ensures Inv(ProcessBatchRequest(s))
  {
    hide Copies, OpenAtDispatcher, BatchRspOk, InterimOk, Agreement, NoneForgotten, Queued, Sent, InFlightOpen;
    hide OpenInFlight;
    hide WorkerSide, WakeUp, LogSound, LogComplete, LogOnce, LogOrder, SplitMask, AllBlocks;
    var BatchMsg(id, req) := s.batchReq.value;
    assert 0 in Full(req.len);
    BlocksTaken(s.issued, s.created, s.batchReq, req);
    SplitKeeps(Split(s.schedQ, s.subNext, s.created), id, req, s.sent, s.outQ, s.inQ, s.trigger);
    DoorOpens(s.clientQ, s.inQ, id, req, s.interim, s.batchRsp, s.issued);
    DoorOpensAgreement(s.clientQ, s.inQ, id, req, s.interim, s.issued);
  }

  lemma DoorOpens(clientQ: map<nat, Req>, inQ: map<nat, Req>, id: nat, req: Req,
                  interim: Option<InterimMsg>, batchRsp: Option<nat>, issued: seq<Req>)
    requires var door := Some(BatchMsg(id, req));
             && DoorOk(door, clientQ, inQ, issued) && Copies(inQ, issued) && req.mask != {}
             && OpenAtDispatcher(inQ, clientQ)
             && BatchRspOk(batchRsp, door, clientQ, inQ) && InterimOk(interim, door, clientQ, inQ, issued)
             && NoneForgotten(clientQ, inQ, door, batchRsp)
    ensures var inQ' := inQ[id := req];
            && Copies(inQ', issued) && OpenAtDispatcher(inQ', clientQ)
            && BatchRspOk(batchRsp, None, clientQ, inQ') && InterimOk(interim, None, clientQ, inQ', issued)
            && NoneForgotten(clientQ, inQ', None, batchRsp)
  {
  }

  lemma DoorOpensAgreement(clientQ: map<nat, Req>, inQ: map<nat, Req>, id: nat, req: Req,
                           interim: Option<InterimMsg>, issued: seq<Req>)
    requires DoorOk(Some(BatchMsg(id, req)), clientQ, inQ, issued)
    requires Agreement(clientQ, inQ, Some(BatchMsg(id, req)), interim, issued)
    ensures Agreement(clientQ, inQ[id := req], None, interim, issued)
  {
    forall i, bit: nat | i in clientQ && i < |issued|
      ensures Missing(i, bit, inQ[id := req], None, interim, issued)
         <==> Missing(i, bit, inQ, Some(BatchMsg(id, req)), interim, issued)
    {
    }
  }

  // ---- the client issues a request ----

  lemma IssueKeeps(clientQ: map<nat, Req>, inQ: map<nat, Req>, interim: Option<InterimMsg>, batchRsp: Option<nat>,
                   issued: seq<Req>, req: Req)
    requires Copies(clientQ, issued) && Copies(inQ, issued) && OpenAtDispatcher(inQ, clientQ)
    requires BatchRspOk(batchRsp, None, clientQ, inQ) && InterimOk(interim, None, clientQ, inQ, issued)
    requires NoneForgotten(clientQ, inQ, None, batchRsp)
    ensures |issued| !in clientQ
    ensures var issued', clientQ' := issued + [req], clientQ[|issued| := req];
            var door := Some(BatchMsg(|issued|, req));
            && Copies(clientQ', issued') && Copies(inQ, issued') && OpenAtDispatcher(inQ, clientQ')
            && DoorOk(door, clientQ', inQ, issued') && BatchRspOk(batchRsp, door, clientQ', inQ)
            && InterimOk(interim, door, clientQ', inQ, issued') && NoneForgotten(clientQ', inQ, door, batchRsp)
  {
  }

  lemma IssueFormed(issued: seq<Req>, req: Req)
    requires Lengths(issued) && FullMasks(issued)
    requires 1 <= req.len <= MAX_LEN && req.mask == Full(req.len)
    ensures Lengths(issued + [req]) && FullMasks(issued + [req])
  {
  }

  lemma IssueAgreement(clientQ: map<nat, Req>, inQ: map<nat, Req>, interim: Option<InterimMsg>, issued: seq<Req>,
                       req: Req)
    requires Copies(clientQ, issued) && OpenAtDispatcher(inQ, clientQ) && InterimOk(interim, None, clientQ, inQ, issued)
    requires Agreement(clientQ, inQ, None, interim, issued)
    ensures Agreement(clientQ[|issued| := req], inQ, Some(BatchMsg(|issued|, req)), interim, issued + [req])
  {
    var door := Some(BatchMsg(|issued|, req));
    forall id, bit: nat | id in clientQ && id < |issued|
      ensures Missing(id, bit, inQ, door, interim, issued + [req]) <==> Missing(id, bit, inQ, None, interim, issued)
    {
    }
    forall bit: nat ensures Missing(|issued|, bit, inQ, door, interim, issued + [req]) <==> bit in req.mask {}
  }

  lemma IssueLog(log: seq<Event>, clientQ: map<nat, Req>, issued: seq<Req>, req: Req)
    requires LogSound(log, clientQ, issued) && LogComplete(log, clientQ, issued) && LogOrder(log, issued)
    requires req.mask == Full(req.len)
    ensures var issued' := issued + [req]; var clientQ' := clientQ[|issued| := req];
            LogSound(log, clientQ', issued') && LogComplete(log, clientQ', issued') && LogOrder(log, issued')
  {
    var issued' := issued + [req];
    var clientQ' := clientQ[|issued| := req];
    forall id, bit | 0 <= id < |issued'| && 0 <= bit < issued'[id].len && Delivered(clientQ', id, bit)
      ensures FilledIn(log, id, issued'[id], bit)
    {
      assert id < |issued| && Delivered(clientQ, id, bit);
      assert FilledIn(log, id, issued[id], bit);
    }
    forall i | 0 <= i < |log| && log[i].Finished? ensures FinishedLast(log, i, issued') {
      assert FinishedLast(log, i, issued);
      var id := log[i].id;
      forall bit | 0 <= bit < issued'[id].len ensures FilledIn(log[..i], id, issued'[id], bit) {
        assert FilledIn(log[..i], id, issued[id], bit);
      }
    }
  }

  lemma IssueCounts(s: State, len: nat)
    requires Counters(s) && Enabled(s, SchRef(len))
    ensures Counters(ScheduleReference(s, len))
  {
    assert |s.issued| < s.totalRefs + 1 < UINT32;
  }

  lemma SchRefKeeps(s: State, len: nat)
    requires Inv(s) && Enabled(s, SchRef(len))
    ensures Inv(ScheduleReference(s, len))
  {
    var req := Req(s.baseLbn, len, Full(len));
    IssueCounts(s, len);
    IssueFormed(s.issued, req);
    IssueKeeps(s.clientQ, s.inQ, s.interim, s.batchRsp, s.issued, req);
    IssueAgreement(s.clientQ, s.inQ, s.interim, s.issued, req);
    IssueLog(s.log, s.clientQ, s.issued, req);
    assert (s.issued + [req])[..|s.issued|] == s.issued[..|s.issued|];
  }

  // ---- the dispatcher hears from the worker ----

  ghost predicate Before(a: Sub, b: Sub) {
    a.parent < b.parent || (a.parent == b.parent && a.lbn < b.lbn)
  }

  /** Blocks are created in ascending order of request, then block. */
  lemma {:induction false} AllBlocksAscend(reqs: seq<Req>)
    ensures forall i, j | 0 <= i < j < |AllBlocks(reqs)| :: Before(AllBlocks(reqs)[i], AllBlocks(reqs)[j])
    ensures forall i | 0 <= i < |AllBlocks(reqs)| :: AllBlocks(reqs)[i].parent < |reqs|
  {
    if reqs != [] {
      AllBlocksAscend(reqs[..|reqs| - 1]);
    }
  }

  /** No block is created twice. */
  lemma CreatedOnce(created: seq<Sub>, taken: seq<Req>)
    requires created == AllBlocks(taken)
    ensures forall j, k | 0 <= j < k < |created| :: created[j] != created[k]
  {
    AllBlocksAscend(taken);
    forall j, k | 0 <= j < k < |created| ensures created[j] != created[k] {
      assert Before(created[j], created[k]);
    }
  }

  /** Ticking off a block closes that block and no other. */
  lemma TickedOffBlocks(inQ: map<nat, Req>, sub: Sub)
    requires OpenBlock(sub, inQ)
    ensures var inQ' := TickOff(inQ, sub.parent, sub.lbn);
            forall b :: OpenBlock(b, inQ') <==> OpenBlock(b, inQ) && b != sub
  {
    var inQ' := TickOff(inQ, sub.parent, sub.lbn);
    forall b ensures OpenBlock(b, inQ') <==> OpenBlock(b, inQ) && b != sub {
      if b.parent == sub.parent && OpenBlock(b, inQ) && b != sub {
        assert b.lbn - inQ[sub.parent].lbn in inQ[sub.parent].mask - {sub.lbn - inQ[sub.parent].lbn};
      }
    }
  }

  lemma ReplyInFlight(schedQ: map<nat, Sub>, outQ: map<nat, Sub>, created: seq<Sub>, sent: seq<Sub>, taken: seq<Req>,
                      inQ: map<nat, Req>, id: nat)
    requires Queued(schedQ, created, sent) && Sent(outQ, created, sent) && created == AllBlocks(taken)
    requires InFlightOpen(schedQ, outQ, created, inQ) && OpenInFlight(schedQ, outQ, created, inQ)
    requires id in outQ
    ensures var sub := outQ[id];
            && OpenBlock(sub, inQ)
            && var inQ' := TickOff(inQ, sub.parent, sub.lbn); var outQ' := outQ - {id};
               && Sent(outQ', created, sent)
               && InFlightOpen(schedQ, outQ', created, inQ') && OpenInFlight(schedQ, outQ', created, inQ')
  {
    var sub := outQ[id];
    assert InFlight(schedQ, outQ, id);
    CreatedOnce(created, taken);
    TickedOffBlocks(inQ, sub);
    hide AllBlocks, OpenBlock, TickOff;
    var inQ' := TickOff(inQ, sub.parent, sub.lbn);
    var outQ' := outQ - {id};
    forall k: nat ensures InFlight(schedQ, outQ', k) <==> InFlight(schedQ, outQ, k) && k != id {}
    forall b | OpenBlock(b, inQ')
      ensures exists k :: 0 <= k < |created| && InFlight(schedQ, outQ', k) && created[k] == b
    {
      var k :| 0 <= k < |created| && InFlight(schedQ, outQ, k) && created[k] == b;
      assert InFlight(schedQ, outQ', k);
    }
  }

  lemma WorkerAnswered(outQ: map<nat, Sub>, workQ: map<nat, nat>, fetch: multiset<nat>, task: Option<TaskMsg>, id: nat)
    requires WorkerSide(outQ, workQ, fetch, task, Some(id))
    ensures id in outQ && outQ != map[] && WorkerSide(outQ - {id}, workQ, fetch, task, None)
  {
    assert id in SlotIds(task, Some(id));
    assert (outQ - {id}).Keys == outQ.Keys - {id};
  }

  lemma OpenBlockInRange(inQ: map<nat, Req>, issued: seq<Req>, sub: Sub)
    requires Lengths(issued) && FullMasks(issued) && Copies(inQ, issued) && OpenBlock(sub, inQ)
    ensures sub.lbn < inQ[sub.parent].lbn + inQ[sub.parent].len <= inQ[sub.parent].lbn + MAX_LEN
  {
    var id := sub.parent;
    assert sub.lbn - inQ[id].lbn in issued[id].mask;
    assert issued[id].mask == Full(issued[id].len);
  }

  lemma ReplyPorts(clientQ: map<nat, Req>, inQ: map<nat, Req>, batchReq: Option<BatchMsg>, issued: seq<Req>, sub: Sub)
    requires Copies(inQ, issued) && OpenAtDispatcher(inQ, clientQ)
    requires DoorOk(batchReq, clientQ, inQ, issued) && NoneForgotten(clientQ, inQ, batchReq, None)
    requires OpenBlock(sub, inQ) && sub.lbn < inQ[sub.parent].lbn + inQ[sub.parent].len
    ensures var inQ' := TickOff(inQ, sub.parent, sub.lbn); var batchRsp := AnswerIfDone(inQ, sub.parent, sub.lbn, None);
            && Copies(inQ', issued) && OpenAtDispatcher(inQ', clientQ)
            && DoorOk(batchReq, clientQ, inQ', issued) && BatchRspOk(batchRsp, batchReq, clientQ, inQ')
            && InterimOk(Some(InterimMsg(sub.parent, sub.lbn)), batchReq, clientQ, inQ', issued)
            && NoneForgotten(clientQ, inQ', batchReq, batchRsp)
  {
  }

  lemma ReplyAgreement(clientQ: map<nat, Req>, inQ: map<nat, Req>, batchReq: Option<BatchMsg>, issued: seq<Req>,
                       sub: Sub)
    requires Copies(inQ, issued) && DoorOk(batchReq, clientQ, inQ, issued) && OpenBlock(sub, inQ)
    requires Agreement(clientQ, inQ, batchReq, None, issued)
    ensures Agreement(clientQ, TickOff(inQ, sub.parent, sub.lbn), batchReq,
                      Some(InterimMsg(sub.parent, sub.lbn)), issued)
  {
    var inQ' := TickOff(inQ, sub.parent, sub.lbn);
    forall id, bit: nat | id in clientQ && id < |issued|
      ensures Missing(id, bit, inQ', batchReq, Some(InterimMsg(sub.parent, sub.lbn)), issued)
         <==> Missing(id, bit, inQ, batchReq, None, issued)
    {
    }
  }

  lemma ReplyKeeps(clientQ: map<nat, Req>, inQ: map<nat, Req>, batchReq: Option<BatchMsg>, issued: seq<Req>, sub: Sub)
    requires Lengths(issued) && FullMasks(issued) && Copies(inQ, issued) && OpenAtDispatcher(inQ, clientQ)
    requires DoorOk(batchReq, clientQ, inQ, issued) && NoneForgotten(clientQ, inQ, batchReq, None)
    requires Agreement(clientQ, inQ, batchReq, None, issued)
    requires OpenBlock(sub, inQ)
    ensures var inQ' := TickOff(inQ, sub.parent, sub.lbn);
            var batchRsp := AnswerIfDone(inQ, sub.parent, sub.lbn, None);
            var interim := Some(InterimMsg(sub.parent, sub.lbn));
            && ShiftDefined(inQ, sub.parent, sub.lbn)
            && Copies(inQ', issued) && OpenAtDispatcher(inQ', clientQ)
            && DoorOk(batchReq, clientQ, inQ', issued) && BatchRspOk(batchRsp, batchReq, clientQ, inQ')
            && InterimOk(interim, batchReq, clientQ, inQ', issued) && NoneForgotten(clientQ, inQ', batchReq, batchRsp)
            && Agreement(clientQ, inQ', batchReq, interim, issued)
  {
    OpenBlockInRange(inQ, issued, sub);
    ReplyPorts(clientQ, inQ, batchReq, issued, sub);
    ReplyAgreement(clientQ, inQ, batchReq, issued, sub);
  }

  lemma WorkstreamRspKeeps(s: State)
    requires Inv(s) && Enabled(s, WorkstreamRsp)
    ensures ProcessDiskResponse(s).Ran? && Inv(ProcessDiskResponse(s).s)
  {
    var id := s.result.value;
    WorkerAnswered(s.outQ, s.workQ, s.fetch, s.task, id);
    var sub := s.outQ[id];
    ReplyInFlight(s.schedQ, s.outQ, s.created, s.sent, s.issued[..Taken(s.issued, s.batchReq)], s.inQ, id);
    ReplyKeeps(s.clientQ, s.inQ, s.batchReq, s.issued, sub);
  }

  // ---- the client hears from the dispatcher ----

  lemma FillKeeps(clientQ: map<nat, Req>, inQ: map<nat, Req>, batchReq: Option<BatchMsg>, batchRsp: Option<nat>,
                  issued: seq<Req>, id: nat, lbn: nat)
    requires Copies(clientQ, issued) && OpenAtDispatcher(inQ, clientQ) && DoorOk(batchReq, clientQ, inQ, issued)
    requires BatchRspOk(batchRsp, batchReq, clientQ, inQ) && NoneForgotten(clientQ, inQ, batchReq, batchRsp)
    requires InterimOk(Some(InterimMsg(id, lbn)), batchReq, clientQ, inQ, issued)
    ensures id in clientQ && clientQ[id].lbn <= lbn
    ensures var clientQ' := Fill(clientQ, id, lbn);
            && Copies(clientQ', issued) && OpenAtDispatcher(inQ, clientQ') && DoorOk(batchReq, clientQ', inQ, issued)
            && BatchRspOk(batchRsp, batchReq, clientQ', inQ) && NoneForgotten(clientQ', inQ, batchReq, batchRsp)
  {
  }

  lemma FillAgreement(clientQ: map<nat, Req>, inQ: map<nat, Req>, batchReq: Option<BatchMsg>, issued: seq<Req>,
                      id: nat, lbn: nat)
    requires Copies(clientQ, issued) && DoorOk(batchReq, clientQ, inQ, issued)
    requires InterimOk(Some(InterimMsg(id, lbn)), batchReq, clientQ, inQ, issued)
    requires Agreement(clientQ, inQ, batchReq, Some(InterimMsg(id, lbn)), issued)
    ensures id in clientQ && lbn >= clientQ[id].lbn
    ensures lbn - clientQ[id].lbn in clientQ[id].mask
    ensures Agreement(Fill(clientQ, id, lbn), inQ, batchReq, None, issued)
  {
    var interim := Some(InterimMsg(id, lbn));
    assert Undelivered(interim, id, issued[id], lbn - clientQ[id].lbn);
    assert Missing(id, lbn - clientQ[id].lbn, inQ, batchReq, interim, issued);
    forall i, bit: nat | i in clientQ && i < |issued|
      ensures Missing(i, bit, inQ, batchReq, None, issued)
         <==> Missing(i, bit, inQ, batchReq, interim, issued) && !(i == id && bit == lbn - clientQ[id].lbn)
    {
    }
  }

  lemma FillLog(log: seq<Event>, clientQ: map<nat, Req>, issued: seq<Req>, id: nat, lbn: nat)
    requires LogSound(log, clientQ, issued) && LogComplete(log, clientQ, issued) && LogOnce(log)
             && LogOrder(log, issued)
    requires Copies(clientQ, issued) && id in clientQ
    requires clientQ[id].lbn <= lbn < clientQ[id].lbn + clientQ[id].len && lbn - clientQ[id].lbn in clientQ[id].mask
    ensures var clientQ' := Fill(clientQ, id, lbn);
            var log' := log + [Filled(id, lbn)];
            LogSound(log', clientQ', issued) && LogComplete(log', clientQ', issued) && LogOnce(log')
              && LogOrder(log', issued)
  {
    var gone := lbn - clientQ[id].lbn;
    var clientQ' := Fill(clientQ, id, lbn);
    var log' := log + [Filled(id, lbn)];
    forall i: nat, bit: nat ensures Delivered(clientQ', i, bit)
      <==> Delivered(clientQ, i, bit) || (i == id && bit == gone) {}
    forall i, bit | 0 <= i < |issued| && 0 <= bit < issued[i].len && Delivered(clientQ', i, bit)
      ensures FilledIn(log', i, issued[i], bit)
    {
      assert Delivered(clientQ, i, bit) ==> FilledIn(log, i, issued[i], bit);
    }
    OrderExtends(log, Filled(id, lbn), issued);
  }

  /** An event about a request not finished yet keeps the order of the log. */
  lemma OrderExtends(log: seq<Event>, e: Event, issued: seq<Req>)
    requires LogOrder(log, issued) && Finished(e.id) !in log
    requires e.Finished? ==>
               e.id < |issued| && forall bit | 0 <= bit < issued[e.id].len :: FilledIn(log, e.id, issued[e.id], bit)
    ensures LogOrder(log + [e], issued)
  {
    var log' := log + [e];
    forall i | 0 <= i < |log'| && log'[i].Finished? ensures FinishedLast(log', i, issued) {
      assert log'[..i] == log[..i];
      if i == |log| {
        assert log[..i] == log;
      } else {
        assert FinishedLast(log, i, issued);
        assert log[i] == Finished(log[i].id);
      }
    }
  }

  lemma FillClient(log: seq<Event>, clientQ: map<nat, Req>, inQ: map<nat, Req>, batchReq: Option<BatchMsg>,
                   issued: seq<Req>, id: nat, lbn: nat)
    requires Lengths(issued) && Copies(clientQ, issued) && DoorOk(batchReq, clientQ, inQ, issued)
    requires InterimOk(Some(InterimMsg(id, lbn)), batchReq, clientQ, inQ, issued)
    requires Agreement(clientQ, inQ, batchReq, Some(InterimMsg(id, lbn)), issued)
    requires LogSound(log, clientQ, issued) && LogComplete(log, clientQ, issued) && LogOnce(log)
             && LogOrder(log, issued)
    ensures id in clientQ && ShiftDefined(clientQ, id, lbn)
    ensures var clientQ' := Fill(clientQ, id, lbn); var log' := log + [Filled(id, lbn)];
            && Agreement(clientQ', inQ, batchReq, None, issued)
            && LogSound(log', clientQ', issued) && LogComplete(log', clientQ', issued) && LogOnce(log')
               && LogOrder(log', issued)
  {
    FillAgreement(clientQ, inQ, batchReq, issued, id, lbn);
    FillLog(log, clientQ, issued, id, lbn);
  }

  lemma InterimRspKeeps(s: State)
    requires Inv(s) && Enabled(s, InterimRsp)
    ensures ClientInterimResponse(s).Ran? && Inv(ClientInterimResponse(s).s)
  {
    hide Queued, Sent, InFlightOpen, OpenInFlight, WorkerSide, WakeUp, AllBlocks, Fill, ShiftDefined;
    hide Copies, OpenAtDispatcher, DoorOk, BatchRspOk, NoneForgotten, Agreement, LogSound, LogComplete, LogOnce;
    hide LogOrder;
    hide StopDue, Counters, Lengths, FullMasks;
    var InterimMsg(id, lbn) := s.interim.value;
    FillKeeps(s.clientQ, s.inQ, s.batchReq, s.batchRsp, s.issued, id, lbn);
    FillClient(s.log, s.clientQ, s.inQ, s.batchReq, s.issued, id, lbn);
    FillStopDue(s.terminate, s.stopRequested, s.clientQ, s.issued, id, lbn);
    InterimCounts(s);
  }

  lemma FillStopDue(terminate: bool, stopRequested: bool, clientQ: map<nat, Req>, issued: seq<Req>, id: nat, lbn: nat)
    requires StopDue(terminate, stopRequested, clientQ, issued) && id in clientQ && clientQ[id].lbn <= lbn
    ensures StopDue(terminate, stopRequested, Fill(clientQ, id, lbn), issued)
  {
  }

  lemma InterimCounts(s: State)
    requires Counters(s) && Enabled(s, InterimRsp) && ClientInterimResponse(s).Ran?
    ensures Counters(ClientInterimResponse(s).s)
  {
  }

  lemma FinishKeeps(clientQ: map<nat, Req>, inQ: map<nat, Req>, batchReq: Option<BatchMsg>, issued: seq<Req>, id: nat)
    requires Copies(clientQ, issued) && OpenAtDispatcher(inQ, clientQ) && DoorOk(batchReq, clientQ, inQ, issued)
    requires BatchRspOk(Some(id), batchReq, clientQ, inQ) && NoneForgotten(clientQ, inQ, batchReq, Some(id))
    requires Agreement(clientQ, inQ, batchReq, None, issued)
    ensures id in clientQ && clientQ[id].mask == {} && Complaints(clientQ[id]) == 0
    ensures var clientQ' := clientQ - {id};
            && Copies(clientQ', issued) && OpenAtDispatcher(inQ, clientQ') && DoorOk(batchReq, clientQ', inQ, issued)
            && NoneForgotten(clientQ', inQ, batchReq, None) && Agreement(clientQ', inQ, batchReq, None, issued)
  {
    forall bit: nat ensures bit !in clientQ[id].mask {
      assert !Missing(id, bit, inQ, batchReq, None, issued);
    }
  }

  lemma FinishLog(log: seq<Event>, clientQ: map<nat, Req>, issued: seq<Req>, id: nat)
    requires LogSound(log, clientQ, issued) && LogComplete(log, clientQ, issued) && LogOnce(log)
             && LogOrder(log, issued)
    requires Copies(clientQ, issued) && id in clientQ && clientQ[id].mask == {}
    ensures var log' := log + [Finished(id)]; var clientQ' := clientQ - {id};
            LogSound(log', clientQ', issued) && LogComplete(log', clientQ', issued) && LogOnce(log')
              && LogOrder(log', issued)
  {
    var log' := log + [Finished(id)];
    forall i: nat, bit: nat ensures Delivered(clientQ - {id}, i, bit) <==> Delivered(clientQ, i, bit) {}
    forall i, bit | 0 <= i < |issued| && 0 <= bit < issued[i].len && Delivered(clientQ, i, bit)
      ensures FilledIn(log', i, issued[i], bit)
    {
      assert FilledIn(log, i, issued[i], bit);
    }
    OrderExtends(log, Finished(id), issued);
  }

  lemma BatchRspKeeps(s: State)
    requires Inv(s) && Enabled(s, BatchRsp)
    ensures Inv(ClientResponse(s))
  {
    var id := s.batchRsp.value;
    FinishKeeps(s.clientQ, s.inQ, s.batchReq, s.issued, id);
    FinishLog(s.log, s.clientQ, s.issued, id);
  }

  /** No enabled step faults, and every enabled step keeps the invariant. */
  lemma StepKeeps(s: State, l: Label)
    requires Inv(s) && Enabled(s, l)
    ensures Step(s, l).Ran? && Inv(Step(s, l).s)
  {
    hide Inv;
    match l
    case SchRef(len) => SchRefKeeps(s, len);
    case BatchRequest => BatchRequestKeeps(s);
    case StorageReqTrigger => TriggerKeeps(s);
    case Task => TaskKeeps(s);
    case FetchPage(id) => FetchPageKeeps(s, id);
    case WorkstreamRsp => WorkstreamRspKeeps(s);
    case InterimRsp => InterimRspKeeps(s);
    case BatchRsp => BatchRspKeeps(s);
  }
}
