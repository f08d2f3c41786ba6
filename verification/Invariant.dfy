/**
 The global invariant of the protocol. Each conjunct names only the parts of the state it is
 about, so that a step has to re-establish only the conjuncts it touches.
 */
module Invariant {
  import opened Basics
  import opened Protocol

  ghost predicate Inv(s: State) {
    && s.errors == 0
    && Counters(s)
    && Lengths(s.issued)
    && FullMasks(s.issued)
    && StopDue(s.terminate, s.stopRequested, s.clientQ, s.issued)
    && Copies(s.clientQ, s.issued)
    && Copies(s.inQ, s.issued)
    && OpenAtDispatcher(s.inQ, s.clientQ)
    && DoorOk(s.batchReq, s.clientQ, s.inQ, s.issued)
    && BatchRspOk(s.batchRsp, s.batchReq, s.clientQ, s.inQ)
    && InterimOk(s.interim, s.batchReq, s.clientQ, s.inQ, s.issued)
    && Agreement(s.clientQ, s.inQ, s.batchReq, s.interim, s.issued)
    && NoneForgotten(s.clientQ, s.inQ, s.batchReq, s.batchRsp)
    && s.created == AllBlocks(s.issued[..Taken(s.issued, s.batchReq)])
    && Queued(s.schedQ, s.created, s.sent)
    && Sent(s.outQ, s.created, s.sent)
    && InFlightOpen(s.schedQ, s.outQ, s.created, s.inQ)
    && OpenInFlight(s.schedQ, s.outQ, s.created, s.inQ)
    && WorkerSide(s.outQ, s.workQ, s.fetch, s.task, s.result)
    && WakeUp(s.schedQ, s.trigger)
    && LogSound(s.log, s.clientQ, s.issued)
    && LogComplete(s.log, s.clientQ, s.issued)
    && LogOnce(s.log)
    && LogOrder(s.log, s.issued)
  }

  /** Counters never wrap, and `sch_ref` is pending exactly while requests remain to be issued. */
  ghost predicate Counters(s: State) {
    && MAX_LEN * (s.totalRefs + 1) < UINT32
    && s.clientNext == s.refCounter == |s.issued| <= Requests(s.totalRefs)
    && s.subNext == |s.created| <= MAX_LEN * Taken(s.issued, s.batchReq)
    && (s.schRef == if s.terminate then 0 else 1)
    && (s.terminate <==> s.refCounter > 0 && s.refCounter >= s.totalRefs)
    && (s.stopRequested ==> s.terminate)
  }

  /** After the last request was issued and until the client requests the stop, that request is open. */
  ghost predicate StopDue(terminate: bool, stopRequested: bool, clientQ: map<nat, Req>, issued: seq<Req>) {
    terminate && !stopRequested ==> issued != [] && |issued| - 1 in clientQ
  }

  // ---- requests and their copies ----

  ghost predicate Lengths(issued: seq<Req>) {
    forall id | 0 <= id < |issued| :: 1 <= issued[id].len <= MAX_LEN
  }

  ghost predicate FullMasks(issued: seq<Req>) {
    forall id | 0 <= id < |issued| :: issued[id].mask == Full(issued[id].len)
  }

  /** A queue of requests holds copies of issued requests that differ from them in the mask alone. */
  ghost predicate Copies(q: map<nat, Req>, issued: seq<Req>) {
    forall id | id in q ::
      id < |issued| && q[id].lbn == issued[id].lbn && q[id].len == issued[id].len && q[id].mask <= issued[id].mask
  }

  ghost predicate OpenAtDispatcher(inQ: map<nat, Req>, clientQ: map<nat, Req>) {
    forall id | id in inQ :: id in clientQ && inQ[id].mask != {}
  }

  /** The request in the `batch_request` port is the last one issued; the dispatcher does not know it yet. */
  ghost predicate DoorOk(batchReq: Option<BatchMsg>, clientQ: map<nat, Req>, inQ: map<nat, Req>, issued: seq<Req>) {
    batchReq.Some? ==>
      var BatchMsg(id, req) := batchReq.value;
      id == |issued| - 1 && id in clientQ && id !in inQ && req == issued[id]
  }

  ghost predicate AtDoor(batchReq: Option<BatchMsg>, id: nat) {
    batchReq.Some? && batchReq.value.id == id
  }

  /** A batch response is about an open request the dispatcher has dropped. */
  ghost predicate BatchRspOk(batchRsp: Option<nat>, batchReq: Option<BatchMsg>, clientQ: map<nat, Req>,
                             inQ: map<nat, Req>) {
    batchRsp.Some? ==> batchRsp.value in clientQ && batchRsp.value !in inQ && !AtDoor(batchReq, batchRsp.value)
  }

  /** An interim response is about a block of an open request, which the dispatcher has ticked off. */
  ghost predicate InterimOk(interim: Option<InterimMsg>, batchReq: Option<BatchMsg>,
                            clientQ: map<nat, Req>, inQ: map<nat, Req>, issued: seq<Req>) {
    interim.Some? ==>
      var InterimMsg(id, lbn) := interim.value;
      && id in clientQ && !AtDoor(batchReq, id) && id < |issued|
      && issued[id].lbn <= lbn < issued[id].lbn + issued[id].len
      && (id in inQ ==> lbn - issued[id].lbn !in inQ[id].mask)
  }

  // ---- the two copies of a mask ----

  ghost predicate Undelivered(interim: Option<InterimMsg>, id: nat, req: Req, bit: nat) {
    interim == Some(InterimMsg(id, req.lbn + bit))
  }

  /** Whether the client must still be missing a block, told from everything but its own copy. */
  ghost predicate Missing(id: nat, bit: nat, inQ: map<nat, Req>, batchReq: Option<BatchMsg>,
                          interim: Option<InterimMsg>, issued: seq<Req>)
    requires id < |issued|
  {
    || (AtDoor(batchReq, id) && bit in issued[id].mask)
    || (id in inQ && bit in inQ[id].mask)
    || Undelivered(interim, id, issued[id], bit)
  }

  /** The client's mask is the dispatcher's plus what is on its way between them. */
  ghost predicate Agreement(clientQ: map<nat, Req>, inQ: map<nat, Req>, batchReq: Option<BatchMsg>,
                            interim: Option<InterimMsg>, issued: seq<Req>) {
    forall id, bit: nat | id in clientQ && id < |issued| ::
      bit in clientQ[id].mask <==> Missing(id, bit, inQ, batchReq, interim, issued)
  }

  ghost predicate NoneForgotten(clientQ: map<nat, Req>, inQ: map<nat, Req>, batchReq: Option<BatchMsg>,
                                batchRsp: Option<nat>) {
    forall id | id in clientQ :: AtDoor(batchReq, id) || id in inQ || batchRsp == Some(id)
  }

  // ---- sub-requests ----

  /** The blocks of a request, in ascending order. */
  ghost function Blocks(id: nat, req: Req): (blocks: seq<Sub>)
    ensures |blocks| == req.len && forall i | 0 <= i < req.len :: blocks[i] == Sub(id, req.lbn + i)
  {
    seq(req.len, i requires 0 <= i < req.len => Sub(id, req.lbn + i))
  }

  /** The blocks of all requests, request after request. */
  ghost function AllBlocks(reqs: seq<Req>): seq<Sub> {
    if reqs == [] then []
    else AllBlocks(reqs[..|reqs| - 1]) + Blocks(|reqs| - 1, reqs[|reqs| - 1])
  }

  /** How many requests the dispatcher has taken. */
  ghost function Taken(issued: seq<Req>, batchReq: Option<BatchMsg>): nat {
    if batchReq.Some? && issued != [] then |issued| - 1 else |issued|
  }

  /**
   Sub-requests are sent in creation order, and the scheduler queue holds exactly those not sent yet, by creation
   number.
   */
  ghost predicate Queued(schedQ: map<nat, Sub>, created: seq<Sub>, sent: seq<Sub>) {
    && sent <= created
    && (forall k: nat :: k in schedQ <==> |sent| <= k < |created|)
    && (forall k | k in schedQ :: schedQ[k] == created[k])
  }

  ghost predicate Sent(outQ: map<nat, Sub>, created: seq<Sub>, sent: seq<Sub>) {
    && |sent| <= |created|
    && forall k | k in outQ :: k < |sent| && outQ[k] == created[k]
  }

  /** A sub-request is in flight while it waits in the scheduler queue or is at the worker. */
  ghost predicate InFlight(schedQ: map<nat, Sub>, outQ: map<nat, Sub>, k: nat) {
    k in schedQ || k in outQ
  }

  ghost predicate OpenBlock(sub: Sub, inQ: map<nat, Req>) {
    && sub.parent in inQ
    && sub.lbn >= inQ[sub.parent].lbn
    && sub.lbn - inQ[sub.parent].lbn in inQ[sub.parent].mask
  }

  ghost predicate InFlightOpen(schedQ: map<nat, Sub>, outQ: map<nat, Sub>, created: seq<Sub>, inQ: map<nat, Req>) {
    forall k | 0 <= k < |created| && InFlight(schedQ, outQ, k) :: OpenBlock(created[k], inQ)
  }

  ghost predicate OpenInFlight(schedQ: map<nat, Sub>, outQ: map<nat, Sub>, created: seq<Sub>, inQ: map<nat, Req>) {
    forall sub | OpenBlock(sub, inQ) ::
      exists k :: 0 <= k < |created| && InFlight(schedQ, outQ, k) && created[k] == sub
  }

  // ---- the worker ----

  ghost function SlotIds(task: Option<TaskMsg>, result: Option<nat>): set<nat> {
    (if task.Some? then {task.value.id} else {}) + (if result.Some? then {result.value} else {})
  }

  /**
   Each sub-request sent to the worker is in exactly one of the `workstream_req` port, the worker's
   queue and the `task_result` port; the pending `fetch_page` events are the ids of that queue.
   */
  ghost predicate Placed(outIds: set<nat>, workIds: set<nat>, fetch: multiset<nat>, task: Option<TaskMsg>,
                         result: Option<nat>) {
    && outIds == workIds + SlotIds(task, result)
    && workIds !! SlotIds(task, result)
    && (task.Some? && result.Some? ==> task.value.id != result.value)
    && fetch == multiset(workIds)
  }

  /** The worker reads the blocks it was sent. */
  ghost predicate SameBlocks(outQ: map<nat, Sub>, workQ: map<nat, nat>, task: Option<TaskMsg>) {
    && (task.Some? ==> task.value.id in outQ && task.value.lbn == outQ[task.value.id].lbn)
    && (forall k | k in workQ :: k in outQ && workQ[k] == outQ[k].lbn)
  }

  ghost predicate WorkerSide(outQ: map<nat, Sub>, workQ: map<nat, nat>, fetch: multiset<nat>,
                             task: Option<TaskMsg>, result: Option<nat>) {
    Placed(outQ.Keys, workQ.Keys, fetch, task, result) && SameBlocks(outQ, workQ, task)
  }

  /** The dispatcher's trigger is pending exactly once when work is queued, and never otherwise. */
  ghost predicate WakeUp(schedQ: map<nat, Sub>, trigger: nat) {
    trigger == if schedQ == map[] then 0 else 1
  }

  // ---- the client's log ----

  ghost predicate Delivered(clientQ: map<nat, Req>, id: nat, bit: nat) {
    !(id in clientQ && bit in clientQ[id].mask)
  }

  ghost predicate FilledIn(log: seq<Event>, id: nat, req: Req, bit: nat) {
    Filled(id, req.lbn + bit) in log
  }

  /** What the log reports was asked for, and is no longer missing. */
  ghost predicate LogSound(log: seq<Event>, clientQ: map<nat, Req>, issued: seq<Req>) {
    forall e | e in log ::
      && e.id < |issued|
      && match e
         case Filled(id, lbn) =>
           && issued[id].lbn <= lbn < issued[id].lbn + issued[id].len
           && !(id in clientQ && lbn - issued[id].lbn in clientQ[id].mask)
         case Finished(id) => id !in clientQ
  }

  /** What is no longer missing was reported. */
  ghost predicate LogComplete(log: seq<Event>, clientQ: map<nat, Req>, issued: seq<Req>) {
    && (forall id, bit | 0 <= id < |issued| && 0 <= bit < issued[id].len && Delivered(clientQ, id, bit) ::
          FilledIn(log, id, issued[id], bit))
    && (forall id: nat | id < |issued| && id !in clientQ :: Finished(id) in log)
  }

  ghost predicate LogOnce(log: seq<Event>) {
    forall i, j | 0 <= i < j < |log| :: log[i] != log[j]
  }

  /** Entry `i` finishes a request: all its blocks come before, nothing about it comes after. */
  ghost predicate FinishedLast(log: seq<Event>, i: nat, issued: seq<Req>)
    requires i < |log| && log[i].Finished?
  {
    var id := log[i].id;
    && id < |issued|
    && (forall bit | 0 <= bit < issued[id].len :: FilledIn(log[..i], id, issued[id], bit))
    && (forall j | i < j < |log| :: log[j].id != id)
  }

  ghost predicate LogOrder(log: seq<Event>, issued: seq<Req>) {
    forall i | 0 <= i < |log| && log[i].Finished? :: FinishedLast(log, i, issued)
  }

  lemma InitEstablishes(s: State)
    requires Init(s)
    ensures Inv(s)
  {
  }
}
