/** What the invariant says about every run of the protocol. */
module Theorems {
  import opened Basics
  import opened Collections
  import opened Protocol
  import opened Invariant
  import opened Preservation

  ghost predicate Run(tr: seq<State>) {
    && tr != [] && Init(tr[0])
    && forall i | 0 <= i < |tr| - 1 :: Next(tr[i], tr[i + 1])
  }

  ghost predicate Reachable(s: State) {
    exists tr :: Run(tr) && tr[|tr| - 1] == s
  }

  lemma {:induction false} RunKeeps(tr: seq<State>, i: nat)
    requires Run(tr) && i < |tr|
    ensures Inv(tr[i])
  {
    if i == 0 {
      InitEstablishes(tr[0]);
    } else {
      RunKeeps(tr, i - 1);
      assert Next(tr[i - 1], tr[i - 1 + 1]);
      var l :| Enabled(tr[i - 1], l) && Step(tr[i - 1], l) == Ran(tr[i]);
      StepKeeps(tr[i - 1], l);
    }
  }

  lemma ReachableKeeps(s: State)
    requires Reachable(s)
    ensures Inv(s)
  {
    var tr :| Run(tr) && tr[|tr| - 1] == s;
    RunKeeps(tr, |tr| - 1);
  }

  lemma InitReachable(s: State)
    requires Init(s)
    ensures Reachable(s)
  {
    assert Run([s]);
  }

  /** An enabled step does not fault, takes no error path, and leads to a reachable state. */
  lemma ReachableStep(s: State, l: Label)
    requires Reachable(s) && Enabled(s, l)
    ensures Step(s, l).Ran? && Step(s, l).s.errors == 0 && Reachable(Step(s, l).s)
  {
    NoErrorPath(s, l);
    var tr :| Run(tr) && tr[|tr| - 1] == s;
    var tr' := tr + [Step(s, l).s];
    forall i | 0 <= i < |tr'| - 1 ensures Next(tr'[i], tr'[i + 1]) {
      if i < |tr| - 1 {
        assert Next(tr[i], tr[i + 1]);
      }
    }
    assert Run(tr');
  }

  // ---- what is issued, and when the client stops ----

  lemma IssuesOne(s: State, len: nat)
    requires Enabled(s, SchRef(len))
    ensures Step(s, SchRef(len)).Ran?
    ensures var t := Step(s, SchRef(len)).s;
            var req := Req(s.baseLbn, len, Interval(0, len));
            && t.issued == s.issued + [req]
            && t.batchReq == Some(BatchMsg(s.clientNext, req))
            && (s.clientNext !in s.clientQ ==> t.clientQ == s.clientQ[s.clientNext := req])
            && t.baseLbn == s.baseLbn
  {
  }

  /**
   A draw of `len` issues exactly one request, for the `len` blocks from the client's first block on.
   The same request goes on the port and into the client's queue, under the number of its issue.
   */
  lemma IssuesWhatWasDrawn(s: State, len: nat)
    requires Reachable(s) && Enabled(s, SchRef(len))
    ensures Step(s, SchRef(len)).Ran?
    ensures var t := Step(s, SchRef(len)).s;
            var req := Req(s.baseLbn, len, Interval(0, len));
            && t.issued == s.issued + [req]
            && |s.issued| !in s.clientQ
            && t.clientQ == s.clientQ[|s.issued| := req]
            && t.batchReq == Some(BatchMsg(|s.issued|, req))
            && t.baseLbn == s.baseLbn
  {
    ReachableKeeps(s);
    IssuesOne(s, len);
  }

  lemma NothingElseIssued(s: State, l: Label)
    requires Enabled(s, l) && !l.SchRef? && Step(s, l).Ran?
    ensures Step(s, l).s.issued == s.issued && Step(s, l).s.baseLbn == s.baseLbn
  {
  }

  lemma StopAtAnswer(s: State)
    requires Enabled(s, BatchRsp)
    ensures Step(s, BatchRsp).s.stopRequested == s.terminate
  {
  }

  lemma StopUnchanged(s: State, l: Label)
    requires Enabled(s, l) && Step(s, l).Ran? && !l.BatchRsp?
    ensures Step(s, l).s.stopRequested == s.stopRequested
  {
  }

  /**
   The client requests the stop at a batch response, and at every one once all requests were issued; never otherwise.
   */
  lemma StopsAfterTheLast(s: State, l: Label)
    requires Reachable(s) && Enabled(s, l)
    ensures Step(s, l).Ran?
    ensures Step(s, l).s.stopRequested <==>
              s.stopRequested || (l.BatchRsp? && |s.issued| == Requests(s.totalRefs))
  {
    ReachableStep(s, l);
    ReachableKeeps(s);
    if l.BatchRsp? {
      StopAtAnswer(s);
    } else {
      StopUnchanged(s, l);
    }
    hide Step, Reachable;
  }

  // ---- exactly once ----

  /**
   Every reported block belongs to an issued request; no block and no finish is reported twice;
   a finish comes after all blocks of its request, and nothing about the request comes after it.
   */
  lemma ExactlyOnce(s: State)
    requires Reachable(s)
    ensures forall e | e in s.log :: e.id < |s.issued|
    ensures forall e | e in s.log && e.Filled? ::
              s.issued[e.id].lbn <= e.lbn < s.issued[e.id].lbn + s.issued[e.id].len
    ensures forall i, j | 0 <= i < j < |s.log| :: s.log[i] != s.log[j]
    ensures forall i, j | 0 <= i < j < |s.log| && s.log[i].Finished? :: s.log[j].id != s.log[i].id
    ensures forall i, bit | 0 <= i < |s.log| && s.log[i].Finished? && 0 <= bit < s.issued[s.log[i].id].len ::
              FilledIn(s.log[..i], s.log[i].id, s.issued[s.log[i].id], bit)
  {
    ReachableKeeps(s);
    forall i | 0 <= i < |s.log| && s.log[i].Finished? ensures FinishedLast(s.log, i, s.issued) {}
  }

  lemma StepExtends(s: State, l: Label)
    requires Enabled(s, l) && Step(s, l).Ran?
    ensures s.log <= Step(s, l).s.log && s.issued <= Step(s, l).s.issued
  {
  }

  /** Once reported, always reported: the log and the issue history only grow along a run. */
  lemma {:induction false} LogGrows(tr: seq<State>, i: nat, j: nat)
    requires Run(tr) && i <= j < |tr|
    ensures tr[i].log <= tr[j].log && tr[i].issued <= tr[j].issued
  {
    if i < j {
      LogGrows(tr, i, j - 1);
      assert Next(tr[j - 1], tr[j - 1 + 1]);
      var l :| Enabled(tr[j - 1], l) && Step(tr[j - 1], l) == Ran(tr[j]);
      StepExtends(tr[j - 1], l);
    }
  }

  // ---- no lookup fails ----

  /** No enabled step faults or takes an error path. */
  lemma NoErrorPath(s: State, l: Label)
    requires Reachable(s) && Enabled(s, l)
    ensures Step(s, l).Ran? && Step(s, l).s.errors == 0
  {
    ReachableKeeps(s);
    StepKeeps(s, l);
  }

  /**
   Every lookup by id finds its entry, every shift amount is below the request's length, and a finished request has an
   empty mask.
   */
  lemma LookupsSucceed(s: State)
    requires Reachable(s)
    ensures forall id | id in s.fetch :: id in s.workQ
    ensures s.result.Some? ==>
              && s.result.value in s.outQ
              && var sub := s.outQ[s.result.value];
                 && sub.parent in s.inQ
                 && s.inQ[sub.parent].lbn <= sub.lbn < s.inQ[sub.parent].lbn + s.inQ[sub.parent].len
                 && s.inQ[sub.parent].len <= MAX_LEN
    ensures s.interim.Some? ==>
              && var InterimMsg(id, lbn) := s.interim.value;
                 && id in s.clientQ
                 && s.clientQ[id].lbn <= lbn < s.clientQ[id].lbn + s.clientQ[id].len && s.clientQ[id].len <= MAX_LEN
    ensures s.batchRsp.Some? ==>
              && s.batchRsp.value in s.clientQ
              && (s.interim.None? ==> s.clientQ[s.batchRsp.value].mask == {})
  {
    hide LogSound, LogComplete, LogOrder, Agreement, NoneForgotten, OpenInFlight, AllBlocks;
    ReachableKeeps(s);
    if s.result.Some? {
      WorkerAnswered(s.outQ, s.workQ, s.fetch, s.task, s.result.value);
      var sub := s.outQ[s.result.value];
      assert InFlight(s.schedQ, s.outQ, s.result.value);
      OpenBlockInRange(s.inQ, s.issued, sub);
    }
    if s.batchRsp.Some? && s.interim.None? {
      FinishKeeps(s.clientQ, s.inQ, s.batchReq, s.issued, s.batchRsp.value);
    }
  }

  // ---- two-copy agreement ----

  ghost function AtDispatcher(inQ: map<nat, Req>, id: nat): set<nat> {
    if id in inQ then inQ[id].mask else {}
  }

  ghost function OnItsWay(interim: Option<InterimMsg>, id: nat, lbn: nat): set<int> {
    if interim.Some? && interim.value.id == id then {interim.value.lbn - lbn} else {}
  }

  lemma AgreementAsSets(clientQ: map<nat, Req>, inQ: map<nat, Req>, batchReq: Option<BatchMsg>,
                        interim: Option<InterimMsg>, issued: seq<Req>, id: nat)
    requires Copies(clientQ, issued) && Copies(inQ, issued) && DoorOk(batchReq, clientQ, inQ, issued)
    requires InterimOk(interim, batchReq, clientQ, inQ, issued) && Agreement(clientQ, inQ, batchReq, interim, issued)
    requires id in clientQ
    ensures AtDoor(batchReq, id) ==> clientQ[id].mask == issued[id].mask
    ensures !AtDoor(batchReq, id) ==>
              && clientQ[id].mask == AtDispatcher(inQ, id) + OnItsWay(interim, id, clientQ[id].lbn)
              && AtDispatcher(inQ, id) !! OnItsWay(interim, id, clientQ[id].lbn)
  {
    if AtDoor(batchReq, id) {
      forall bit: nat ensures bit in clientQ[id].mask <==> bit in issued[id].mask {
        assert Missing(id, bit, inQ, batchReq, interim, issued) <==> bit in issued[id].mask;
      }
    } else {
      var there := AtDispatcher(inQ, id) + OnItsWay(interim, id, clientQ[id].lbn);
      forall bit: nat ensures bit in clientQ[id].mask <==> bit in there {
        assert Missing(id, bit, inQ, batchReq, interim, issued) <==> bit in there;
      }
    }
  }

  /**
   For every request the client holds: before the dispatcher takes it both masks are full; afterwards the
   client's mask is the dispatcher's (empty once the dispatcher dropped it) plus the bit of an undelivered
   interim response.
   */
  lemma TwoCopies(s: State, id: nat)
    requires Reachable(s) && id in s.clientQ
    ensures id < |s.issued|
    ensures AtDoor(s.batchReq, id) ==> id !in s.inQ && s.clientQ[id] == s.batchReq.value.req == s.issued[id]
    ensures !AtDoor(s.batchReq, id) ==>
              && s.clientQ[id].mask == AtDispatcher(s.inQ, id) + OnItsWay(s.interim, id, s.clientQ[id].lbn)
              && AtDispatcher(s.inQ, id) !! OnItsWay(s.interim, id, s.clientQ[id].lbn)
    ensures !AtDoor(s.batchReq, id) ==> (id in s.inQ <==> s.batchRsp != Some(id))
  {
    ReachableKeeps(s);
    AgreementAsSets(s.clientQ, s.inQ, s.batchReq, s.interim, s.issued, id);
  }

  // ---- ownership and conservation ----

  ghost predicate InFlightAs(schedQ: map<nat, Sub>, outQ: map<nat, Sub>, k: nat, sub: Sub) {
    (k in schedQ && schedQ[k] == sub) || (k in outQ && outQ[k] == sub)
  }

  /** Bit by bit: a bit of an open mask is set if and only if exactly one sub-request for its block is in flight. */
  lemma OwnershipExact(s: State, sub: Sub)
    requires Reachable(s)
    ensures OpenBlock(sub, s.inQ) <==> exists k: nat :: InFlightAs(s.schedQ, s.outQ, k, sub)
    ensures forall j: nat, k: nat ::
              InFlightAs(s.schedQ, s.outQ, j, sub) && InFlightAs(s.schedQ, s.outQ, k, sub) ==> j == k
    ensures s.schedQ.Keys !! s.outQ.Keys
  {
    ReachableKeeps(s);
    OwnerExact(s.schedQ, s.outQ, s.created, s.sent, s.inQ, s.issued[..Taken(s.issued, s.batchReq)], sub);
  }

  lemma OwnerExact(schedQ: map<nat, Sub>, outQ: map<nat, Sub>, created: seq<Sub>, sent: seq<Sub>,
                   inQ: map<nat, Req>, taken: seq<Req>, sub: Sub)
    requires Queued(schedQ, created, sent) && Sent(outQ, created, sent) && created == AllBlocks(taken)
    requires InFlightOpen(schedQ, outQ, created, inQ) && OpenInFlight(schedQ, outQ, created, inQ)
    ensures OpenBlock(sub, inQ) <==> exists k: nat :: InFlightAs(schedQ, outQ, k, sub)
    ensures forall j: nat, k: nat :: InFlightAs(schedQ, outQ, j, sub) && InFlightAs(schedQ, outQ, k, sub) ==> j == k
    ensures schedQ.Keys !! outQ.Keys
  {
    OwnerUnique(schedQ, outQ, created, sent, taken);
    hide AllBlocks, OpenBlock;
    forall k: nat ensures InFlightAs(schedQ, outQ, k, sub) <==> InFlight(schedQ, outQ, k) && created[k] == sub {}
    hide Queued, Sent, InFlightAs;
  }

  lemma OwnerUnique(schedQ: map<nat, Sub>, outQ: map<nat, Sub>, created: seq<Sub>, sent: seq<Sub>, taken: seq<Req>)
    requires Queued(schedQ, created, sent) && Sent(outQ, created, sent) && created == AllBlocks(taken)
    ensures forall k: nat | InFlight(schedQ, outQ, k) :: k < |created|
    ensures forall j, k | 0 <= j < k < |created| :: created[j] != created[k]
    ensures schedQ.Keys !! outQ.Keys
  {
    CreatedOnce(created, taken);
  }

  /**
   Each sub-request at the worker is in one place only: in the `workstream_req` port, in the worker's
   queue with exactly one pending `fetch_page` event, or in the `task_result` port. Nothing else is.
   */
  lemma WorkerHoldsSent(s: State, id: nat)
    requires Reachable(s)
    ensures id in s.outQ <==> InTask(s.task, id) || id in s.workQ || s.result == Some(id)
    ensures !(InTask(s.task, id) && id in s.workQ) && !(InTask(s.task, id) && s.result == Some(id))
            && !(id in s.workQ && s.result == Some(id))
    ensures s.fetch[id] == if id in s.workQ then 1 else 0
    ensures id in s.workQ ==> s.workQ[id] == s.outQ[id].lbn
  {
    ReachableKeeps(s);
    PlacedOnce(s.outQ.Keys, s.workQ.Keys, s.fetch, s.task, s.result, id);
  }

  ghost predicate InTask(task: Option<TaskMsg>, id: nat) {
    task.Some? && task.value.id == id
  }

  lemma PlacedOnce(outIds: set<nat>, workIds: set<nat>, fetch: multiset<nat>, task: Option<TaskMsg>,
                   result: Option<nat>, id: nat)
    requires Placed(outIds, workIds, fetch, task, result)
    ensures id in outIds <==> InTask(task, id) || id in workIds || result == Some(id)
    ensures !(InTask(task, id) && id in workIds) && !(InTask(task, id) && result == Some(id))
            && !(id in workIds && result == Some(id))
    ensures fetch[id] == if id in workIds then 1 else 0
  {
    assert id in SlotIds(task, result) <==> InTask(task, id) || result == Some(id);
  }

  /** The blocks of the set bits of a mask. */
  ghost function SubsOf(id: nat, lbn: nat, bits: set<nat>): set<Sub> {
    set bit | bit in bits :: Sub(id, lbn + bit)
  }

  lemma {:induction false} SubsOfSize(id: nat, lbn: nat, bits: set<nat>)
    ensures |SubsOf(id, lbn, bits)| == |bits|
    decreases bits
  {
    if bits != {} {
      var bit :| bit in bits;
      SubsOfSize(id, lbn, bits - {bit});
      forall sub ensures sub in SubsOf(id, lbn, bits) <==> sub in SubsOf(id, lbn, bits - {bit}) + {Sub(id, lbn + bit)} {
        SubsOfMeaning(id, lbn, bits, sub);
        SubsOfMeaning(id, lbn, bits - {bit}, sub);
      }
      assert SubsOf(id, lbn, bits) == SubsOf(id, lbn, bits - {bit}) + {Sub(id, lbn + bit)};
      SubsOfMeaning(id, lbn, bits - {bit}, Sub(id, lbn + bit));
    }
  }

  lemma SubsOfMeaning(id: nat, lbn: nat, bits: set<nat>, sub: Sub)
    ensures sub in SubsOf(id, lbn, bits) <==> sub.parent == id && sub.lbn >= lbn && sub.lbn - lbn in bits
  {
    if sub.parent == id && sub.lbn >= lbn {
      assert sub == Sub(id, lbn + (sub.lbn - lbn));
    }
  }

  /** The blocks of request `id` that are still open. */
  ghost function OpenOf(inQ: map<nat, Req>, id: nat): set<Sub> {
    if id in inQ then SubsOf(id, inQ[id].lbn, inQ[id].mask) else {}
  }

  ghost function PopCount(inQ: map<nat, Req>, id: nat): nat {
    if id in inQ then |inQ[id].mask| else 0
  }

  /** The sum of the popcounts of the open masks of the requests below `n`. */
  ghost function PopCounts(inQ: map<nat, Req>, n: nat): nat {
    if n == 0 then 0 else PopCounts(inQ, n - 1) + PopCount(inQ, n - 1)
  }

  ghost function OpenBelow(inQ: map<nat, Req>, n: nat): set<Sub> {
    if n == 0 then {} else OpenBelow(inQ, n - 1) + OpenOf(inQ, n - 1)
  }

  /** The sub-requests with the given ids. */
  ghost function Created(created: seq<Sub>, ids: set<nat>): set<Sub> {
    set k | k in ids && k < |created| :: created[k]
  }

  lemma {:induction false} CreatedSize(created: seq<Sub>, ids: set<nat>)
    requires forall k | k in ids :: k < |created|
    requires forall j, k | 0 <= j < k < |created| :: created[j] != created[k]
    ensures |Created(created, ids)| == |ids|
    decreases ids
  {
    if ids != {} {
      var k :| k in ids;
      CreatedSize(created, ids - {k});
      assert Created(created, ids) == Created(created, ids - {k}) + {created[k]};
    }
  }

  lemma OpenOfMeaning(inQ: map<nat, Req>, id: nat, sub: Sub)
    ensures sub in OpenOf(inQ, id) <==> sub.parent == id && OpenBlock(sub, inQ)
  {
    if id in inQ {
      SubsOfMeaning(id, inQ[id].lbn, inQ[id].mask, sub);
    }
  }

  lemma {:induction false} OpenBelowMeaning(inQ: map<nat, Req>, n: nat, sub: Sub)
    ensures sub in OpenBelow(inQ, n) <==> sub.parent < n && OpenBlock(sub, inQ)
  {
    if n > 0 {
      OpenBelowMeaning(inQ, n - 1, sub);
      OpenOfMeaning(inQ, n - 1, sub);
    }
  }

  lemma OpenDisjoint(inQ: map<nat, Req>, n: nat)
    ensures OpenBelow(inQ, n) !! OpenOf(inQ, n)
  {
    forall sub | sub in OpenBelow(inQ, n) ensures sub !in OpenOf(inQ, n) {
      OpenBelowMeaning(inQ, n, sub);
      OpenOfMeaning(inQ, n, sub);
    }
  }

  lemma OpenOfSize(inQ: map<nat, Req>, id: nat)
    ensures |OpenOf(inQ, id)| == PopCount(inQ, id)
  {
    if id in inQ {
      SubsOfSize(id, inQ[id].lbn, inQ[id].mask);
    }
  }

  lemma {:induction false} OpenBelowSize(inQ: map<nat, Req>, n: nat)
    ensures |OpenBelow(inQ, n)| == PopCounts(inQ, n)
  {
    if n > 0 {
      var m := n - 1;
      OpenBelowSize(inQ, m);
      OpenDisjoint(inQ, m);
      OpenOfSize(inQ, m);
      assert |OpenBelow(inQ, m) + OpenOf(inQ, m)| == |OpenBelow(inQ, m)| + |OpenOf(inQ, m)|;
    }
  }

  /**
   The set bits of all open masks number the entries of the scheduler queue and the worker-side output queue together.
   */
  lemma BitsConserved(s: State)
    requires Reachable(s)
    ensures PopCounts(s.inQ, |s.issued|) == |s.schedQ| + |s.outQ|
    ensures |s.outQ| == |s.workQ| + (if s.task.Some? then 1 else 0) + (if s.result.Some? then 1 else 0)
    ensures |s.fetch| == |s.workQ|
  {
    ReachableKeeps(s);
    OwnerUnique(s.schedQ, s.outQ, s.created, s.sent, s.issued[..Taken(s.issued, s.batchReq)]);
    InFlightSize(s.schedQ, s.outQ, s.created, s.inQ, |s.issued|);
    WorkerSize(s.outQ, s.workQ, s.fetch, s.task, s.result);
  }

  lemma InFlightSize(schedQ: map<nat, Sub>, outQ: map<nat, Sub>, created: seq<Sub>, inQ: map<nat, Req>, n: nat)
    requires InFlightOpen(schedQ, outQ, created, inQ) && OpenInFlight(schedQ, outQ, created, inQ)
    requires forall k: nat | InFlight(schedQ, outQ, k) :: k < |created|
    requires forall j, k | 0 <= j < k < |created| :: created[j] != created[k]
    requires schedQ.Keys !! outQ.Keys
    requires forall id | id in inQ :: id < n
    ensures PopCounts(inQ, n) == |schedQ| + |outQ|
  {
    var ids: set<nat> := schedQ.Keys + outQ.Keys;
    forall k | k in ids ensures k < |created| {
      assert InFlight(schedQ, outQ, k);
    }
    forall sub ensures sub in Created(created, ids) <==> sub in OpenBelow(inQ, n) {
      OpenBelowMeaning(inQ, n, sub);
      CreatedMeaning(schedQ, outQ, created, inQ, sub, ids);
    }
    assert Created(created, ids) == OpenBelow(inQ, n);
    CreatedSize(created, ids);
    OpenBelowSize(inQ, n);
    assert |ids| == |schedQ.Keys| + |outQ.Keys|;
  }

  lemma CreatedMeaning(schedQ: map<nat, Sub>, outQ: map<nat, Sub>, created: seq<Sub>, inQ: map<nat, Req>, sub: Sub,
                       ids: set<nat>)
    requires InFlightOpen(schedQ, outQ, created, inQ) && OpenInFlight(schedQ, outQ, created, inQ)
    requires ids == schedQ.Keys + outQ.Keys
    ensures sub in Created(created, ids) <==> OpenBlock(sub, inQ)
  {
    if sub in Created(created, ids) {
      var k :| k in ids && k < |created| && created[k] == sub;
      assert InFlight(schedQ, outQ, k);
    }
    if OpenBlock(sub, inQ) {
      var k :| 0 <= k < |created| && InFlight(schedQ, outQ, k) && created[k] == sub;
      assert k in ids;
    }
  }

  lemma WorkerSize(outQ: map<nat, Sub>, workQ: map<nat, nat>, fetch: multiset<nat>, task: Option<TaskMsg>,
                   result: Option<nat>)
    requires WorkerSide(outQ, workQ, fetch, task, result)
    ensures |outQ| == |workQ| + (if task.Some? then 1 else 0) + (if result.Some? then 1 else 0)
    ensures |fetch| == |workQ|
  {
    assert |outQ.Keys| == |workQ.Keys| + |SlotIds(task, result)|;
    assert |multiset(workQ.Keys)| == |workQ.Keys|;
  }

  // ---- order and wake-up ----

  /**
   Blocks leave for the worker in the order request after request, block after block, none skipped or
   repeated; those not sent yet wait in the scheduler queue.
   */
  lemma DispatchOrder(s: State)
    requires Reachable(s)
    ensures s.sent <= AllBlocks(s.issued[..Taken(s.issued, s.batchReq)])
    ensures |AllBlocks(s.issued[..Taken(s.issued, s.batchReq)])| == |s.sent| + |s.schedQ|
    ensures forall i, j | 0 <= i < j < |s.sent| :: Before(s.sent[i], s.sent[j])
    ensures forall i, k | 0 <= i < |s.sent| && k in s.schedQ :: Before(s.sent[i], s.schedQ[k])
  {
    ReachableKeeps(s);
    QueuedOrder(s.schedQ, s.created, s.sent, s.issued[..Taken(s.issued, s.batchReq)]);
  }

  lemma QueuedOrder(schedQ: map<nat, Sub>, created: seq<Sub>, sent: seq<Sub>, taken: seq<Req>)
    requires Queued(schedQ, created, sent) && created == AllBlocks(taken)
    ensures |schedQ| == |created| - |sent|
    ensures forall i, j | 0 <= i < j < |sent| :: Before(sent[i], sent[j])
    ensures forall i, k | 0 <= i < |sent| && k in schedQ :: Before(sent[i], schedQ[k])
  {
    AllBlocksAscend(taken);
    forall i | 0 <= i < |sent| ensures sent[i] == created[i] {}
    assert schedQ.Keys == Interval(|sent|, |created|);
  }

  /** The trigger is pending exactly once while the scheduler queue holds work, and not at all otherwise. */
  lemma NoLostWakeUp(s: State)
    requires Reachable(s)
    ensures s.trigger == if s.schedQ == map[] then 0 else 1
  {
    ReachableKeeps(s);
  }

  /**
   Taking a request keeps that rule, from any state that meets it, if and only if the request's mask
   has a bit or work was queued already: the trigger is scheduled without looking at the mask.
   */
  lemma WakeUpNeedsABit(s: State)
    requires Enabled(s, BatchRequest) && WakeUp(s.schedQ, s.trigger)
    ensures WakeUp(ProcessBatchRequest(s).schedQ, ProcessBatchRequest(s).trigger)
       <==> s.batchReq.value.req.mask != {} || s.schedQ != map[]
  {
    var BatchMsg(id, req) := s.batchReq.value;
    SplitMaskFills(Split(s.schedQ, s.subNext, s.created), id, req.lbn, req.mask);
  }

  lemma {:induction false} SplitMaskFills(p: Split, id: nat, lbn: nat, bits: set<nat>)
    ensures SplitMask(p, id, lbn, bits).schedQ == map[] <==> bits == {} && p.schedQ == map[]
    decreases bits
  {
    if bits != {} {
      var q := SplitBit(p, Sub(id, lbn + Min(bits)));
      assert p.subNext in q.schedQ;
      SplitMaskFills(q, id, lbn, bits - {Min(bits)});
    }
  }
}
