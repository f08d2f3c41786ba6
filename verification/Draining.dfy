/**
 With no further request, every run ends, and it ends with everything answered. The whole
 simulation ends too, and not before the client has requested the stop.
 */
module Draining {
  import opened Basics
  import opened Protocol
  import opened Invariant
  import opened Preservation
  import opened Theorems

  ghost predicate DrainLabel(l: Label) {
    !l.SchRef?
  }

  function Count<T>(slot: Option<T>): nat {
    if slot.Some? then 1 else 0
  }

  function Unsent(created: seq<Sub>, sent: seq<Sub>): nat {
    if |sent| <= |created| then |created| - |sent| else 0
  }

  const BATCH_WEIGHT: nat := 6 * MAX_LEN + 1

  /**
   The work left: each sub-request weighs the steps it has still to make, a request not yet split more than all its
   blocks.
   */
  ghost function Work(s: State): nat {
    BATCH_WEIGHT * Count(s.batchReq) + 6 * Unsent(s.created, s.sent) + 5 * Count(s.task) + 4 * |s.fetch|
    + 3 * Count(s.result) + Count(s.interim) + Count(s.batchRsp)
  }

  lemma BatchRequestDrains(s: State)
    requires Enabled(s, BatchRequest) && |s.sent| <= |s.created|
    requires |ProcessBatchRequest(s).created| <= |s.created| + MAX_LEN
    requires |s.sent| <= |ProcessBatchRequest(s).created|
    ensures Work(ProcessBatchRequest(s)) < Work(s)
  {
  }

  lemma SplitAtMost(s: State)
    requires Inv(s) && Enabled(s, BatchRequest) && Inv(ProcessBatchRequest(s))
    ensures |ProcessBatchRequest(s).created| <= |s.created| + MAX_LEN
  {
    BlocksTaken(s.issued, s.created, s.batchReq, s.batchReq.value.req);
  }

  lemma InterimRspDrains(s: State)
    requires Enabled(s, InterimRsp) && ClientInterimResponse(s).Ran? && |s.sent| <= |s.created|
    ensures Work(ClientInterimResponse(s).s) < Work(s)
  {
  }

  lemma BatchRspDrains(s: State)
    requires Enabled(s, BatchRsp) && |s.sent| <= |s.created|
    ensures Work(ClientResponse(s)) < Work(s)
  {
    var t := ClientResponse(s);
    assert t == s.(batchRsp := None, stopRequested := t.stopRequested, clientQ := t.clientQ, log := t.log,
                    errors := t.errors);
  }

  lemma TriggerDrains(s: State)
    requires WakeUp(s.schedQ, s.trigger) && Enabled(s, StorageReqTrigger)
    requires |ScheduleDiskRequest(s).sent| <= |ScheduleDiskRequest(s).created|
    ensures Work(ScheduleDiskRequest(s)) < Work(s)
  {
    assert s.schedQ != map[];
  }

  lemma FetchPageDrains(s: State, id: nat)
    requires WorkerSide(s.outQ, s.workQ, s.fetch, s.task, None) && Enabled(s, FetchPage(id))
    requires |EmulateDelay(s, id).sent| <= |EmulateDelay(s, id).created|
    ensures Work(EmulateDelay(s, id)) < Work(s)
  {
    WorkerFinishes(s.outQ, s.workQ, s.fetch, s.task, id);
    assert |s.fetch - multiset{id}| == |s.fetch| - 1;
  }

  lemma TaskDrains(s: State)
    requires Enabled(s, Task) && |s.sent| <= |s.created|
    ensures Work(EnqueueTask(s)) < Work(s)
  {
    assert |s.fetch + multiset{s.task.value.id}| == |s.fetch| + 1;
  }

  lemma WorkstreamRspDrains(s: State)
    requires Enabled(s, WorkstreamRsp) && ProcessDiskResponse(s).Ran? && |s.sent| <= |s.created|
    ensures Work(ProcessDiskResponse(s).s) < Work(s)
  {
  }

  lemma SentIsCreated(s: State)
    requires Inv(s)
    ensures |s.sent| <= |s.created|
  {
  }

  lemma StepLessens(s: State, l: Label)
    requires Enabled(s, l) && DrainLabel(l) && Step(s, l).Ran?
    requires |s.sent| <= |s.created| && |Step(s, l).s.sent| <= |Step(s, l).s.created|
    requires WakeUp(s.schedQ, s.trigger) && WorkerSide(s.outQ, s.workQ, s.fetch, s.task, s.result)
    requires l.BatchRequest? ==> |Step(s, l).s.created| <= |s.created| + MAX_LEN
    ensures Work(Step(s, l).s) < Work(s)
  {
    hide Work, WakeUp, WorkerSide;
    match l
    case BatchRequest => BatchRequestDrains(s);
    case StorageReqTrigger => TriggerDrains(s);
    case Task => TaskDrains(s);
    case FetchPage(id) => FetchPageDrains(s, id);
    case WorkstreamRsp => WorkstreamRspDrains(s);
    case InterimRsp => InterimRspDrains(s);
    case BatchRsp => BatchRspDrains(s);
  }

  /** Every step but issuing a request leaves less work. */
  lemma StepDrains(s: State, l: Label)
    requires Reachable(s) && Enabled(s, l) && DrainLabel(l)
    ensures Step(s, l).Ran? && Reachable(Step(s, l).s) && Work(Step(s, l).s) < Work(s)
  {
    ReachableStep(s, l);
    ReachableKeeps(s);
    ReachableKeeps(Step(s, l).s);
    SentIsCreated(s);
    SentIsCreated(Step(s, l).s);
    if l.BatchRequest? {
      SplitAtMost(s);
    }
    assert WakeUp(s.schedQ, s.trigger) && WorkerSide(s.outQ, s.workQ, s.fetch, s.task, s.result);
    hide Reachable, Inv, Work, WakeUp, WorkerSide;
    StepLessens(s, l);
  }

  /** All five queues, all ports and all pending events of the dispatcher and the worker are empty. */
  ghost predicate Quiet(s: State) {
    && s.clientQ == map[] && s.inQ == map[] && s.schedQ == map[] && s.outQ == map[] && s.workQ == map[]
    && s.batchReq.None? && s.task.None? && s.result.None? && s.interim.None? && s.batchRsp.None?
    && s.trigger == 0 && s.fetch == multiset{}
  }

  /**
   When no step but issuing a request is enabled, everything is empty and every issued request was answered in full.
   */
  lemma DrainedIsQuiet(s: State)
    requires Reachable(s)
    requires forall l | DrainLabel(l) :: !Enabled(s, l)
    ensures Quiet(s)
    ensures forall id | 0 <= id < |s.issued| :: Finished(id) in s.log
    ensures forall id, bit | 0 <= id < |s.issued| && 0 <= bit < s.issued[id].len ::
              FilledIn(s.log, id, s.issued[id], bit)
  {
    ReachableKeeps(s);
    PortsIdle(s);
    NothingOpen(s.schedQ, s.outQ, s.created, s.inQ, s.clientQ);
    NobodyWaits(s.clientQ, s.inQ);
    AllDelivered(s.log, s.clientQ, s.issued);
  }

  lemma PortsIdle(s: State)
    requires WakeUp(s.schedQ, s.trigger) && WorkerSide(s.outQ, s.workQ, s.fetch, s.task, s.result)
    requires forall l | DrainLabel(l) :: !Enabled(s, l)
    ensures s.batchReq.None? && s.task.None? && s.result.None? && s.interim.None? && s.batchRsp.None?
    ensures s.trigger == 0 && s.schedQ == map[] && s.fetch == multiset{}
    ensures s.workQ == map[] && s.outQ == map[]
  {
    hide Placed, SameBlocks;
    assert !Enabled(s, BatchRequest);
    assert !Enabled(s, Task);
    assert !Enabled(s, InterimRsp);
    assert !Enabled(s, BatchRsp);
    assert !Enabled(s, WorkstreamRsp);
    assert !Enabled(s, StorageReqTrigger);
    forall id ensures id !in s.fetch {
      assert !Enabled(s, FetchPage(id));
    }
    NothingPlaced(s.outQ.Keys, s.workQ.Keys, s.fetch);
  }

  lemma NothingPlaced(outIds: set<nat>, workIds: set<nat>, fetch: multiset<nat>)
    requires Placed(outIds, workIds, fetch, None, None) && forall id :: id !in fetch
    ensures outIds == workIds == {}
  {
    assert forall id :: id in workIds ==> id in multiset(workIds);
  }

  lemma NobodyWaits(clientQ: map<nat, Req>, inQ: map<nat, Req>)
    requires NoneForgotten(clientQ, inQ, None, None) && inQ == map[]
    ensures clientQ == map[]
  {
    assert forall id: nat :: id !in clientQ;
  }

  lemma NothingOpen(schedQ: map<nat, Sub>, outQ: map<nat, Sub>, created: seq<Sub>, inQ: map<nat, Req>,
                    clientQ: map<nat, Req>)
    requires OpenInFlight(schedQ, outQ, created, inQ) && OpenAtDispatcher(inQ, clientQ)
    requires schedQ == map[] && outQ == map[]
    ensures inQ == map[]
  {
    if id :| id in inQ {
      var bit :| bit in inQ[id].mask;
      assert OpenBlock(Sub(id, inQ[id].lbn + bit), inQ);
    }
  }

  lemma AllDelivered(log: seq<Event>, clientQ: map<nat, Req>, issued: seq<Req>)
    requires LogComplete(log, clientQ, issued) && clientQ == map[]
    ensures forall id | 0 <= id < |issued| :: Finished(id) in log
    ensures forall id, bit | 0 <= id < |issued| && 0 <= bit < issued[id].len :: FilledIn(log, id, issued[id], bit)
  {
    forall id, bit | 0 <= id < |issued| && 0 <= bit < issued[id].len ensures FilledIn(log, id, issued[id], bit) {
      assert Delivered(clientQ, id, bit);
    }
  }

  /** A run from `s` that issues no request. */
  ghost predicate DrainRun(s: State, labels: seq<Label>, t: State)
    decreases |labels|
  {
    if labels == [] then t == s
    else
      && DrainLabel(labels[0]) && Enabled(s, labels[0]) && Step(s, labels[0]).Ran?
      && DrainRun(Step(s, labels[0]).s, labels[1..], t)
  }

  /** No such run is longer than the work left at its start. */
  lemma {:induction false} DrainBounded(s: State, labels: seq<Label>, t: State)
    requires Reachable(s) && DrainRun(s, labels, t)
    ensures Reachable(t) && |labels| <= Work(s)
    decreases |labels|
  {
    ReachableKeeps(s);
    if labels != [] {
      StepDrains(s, labels[0]);
      DrainBounded(Step(s, labels[0]).s, labels[1..], t);
    }
  }

  /** From every reachable state there is such a run to a state that is quiet, or in which the stop is requested. */
  lemma {:induction false} DrainCompletes(s: State) returns (labels: seq<Label>, t: State)
    requires Reachable(s)
    ensures DrainRun(s, labels, t) && Reachable(t)
    ensures t.stopRequested || Quiet(t)
    decreases Work(s)
  {
    if l :| !s.stopRequested && DrainLabel(l) && Enabled(s, l) {
      StepDrains(s, l);
      labels, t := DrainCompletes(Step(s, l).s);
      labels := [l] + labels;
    } else {
      labels, t := [], s;
      if !s.stopRequested {
        DrainedIsQuiet(s);
      }
    }
  }

  // ---- whole runs, issuing included ----

  /** The requests that the client has still to issue. */
  function ToIssue(s: State): nat {
    if s.refCounter < Requests(s.totalRefs) then Requests(s.totalRefs) - s.refCounter else 0
  }

  const STEPS_PER_REQUEST: nat := BATCH_WEIGHT + 1

  ghost function TotalWork(s: State): nat {
    Work(s) + STEPS_PER_REQUEST * ToIssue(s)
  }

  lemma IssueAddsWork(s: State, len: nat)
    requires Enabled(s, SchRef(len))
    ensures Work(ScheduleReference(s, len)) == Work(s) + BATCH_WEIGHT
  {
    hide Unsent, Full;
  }

  lemma IssueIsLess(s: State, len: nat)
    requires Counters(s) && Enabled(s, SchRef(len))
    ensures ToIssue(ScheduleReference(s, len)) + 1 == ToIssue(s) && ScheduleReference(s, len).totalRefs == s.totalRefs
  {
  }

  lemma IssueWorks(s: State, len: nat)
    requires Counters(s) && Enabled(s, SchRef(len))
    ensures TotalWork(ScheduleReference(s, len)) < TotalWork(s) && ScheduleReference(s, len).totalRefs == s.totalRefs
  {
    IssueAddsWork(s, len);
    IssueIsLess(s, len);
    hide ToIssue, Work, ScheduleReference, Counters;
    var t := ScheduleReference(s, len);
    Exchange(Work(s), Work(t), ToIssue(s), ToIssue(t));
  }

  lemma Exchange(w: nat, w': nat, n: nat, n': nat)
    requires w' == w + BATCH_WEIGHT && n == n' + 1
    ensures w' + STEPS_PER_REQUEST * n' < w + STEPS_PER_REQUEST * n
  {
  }

  lemma StepKeepsIssues(s: State, l: Label)
    requires Enabled(s, l) && DrainLabel(l) && Step(s, l).Ran?
    ensures Step(s, l).s.refCounter == s.refCounter && Step(s, l).s.totalRefs == s.totalRefs
  {
  }

  /** Every step of a run, issuing included, leaves less work in total. */
  lemma StepWorks(s: State, l: Label)
    requires Reachable(s) && Enabled(s, l)
    ensures Step(s, l).Ran? && TotalWork(Step(s, l).s) < TotalWork(s) && Step(s, l).s.totalRefs == s.totalRefs
  {
    if l.SchRef? {
      ReachableKeeps(s);
      IssueWorks(s, l.len);
    } else {
      StepDrains(s, l);
      StepKeepsIssues(s, l);
    }
  }

  lemma {:induction false} RunWorks(tr: seq<State>, i: nat)
    requires Run(tr) && i < |tr|
    ensures i + TotalWork(tr[i]) <= TotalWork(tr[0]) && tr[i].totalRefs == tr[0].totalRefs
  {
    if i > 0 {
      RunWorks(tr, i - 1);
      assert Next(tr[i - 1], tr[i - 1 + 1]);
      var l :| Enabled(tr[i - 1], l) && Step(tr[i - 1], l) == Ran(tr[i]);
      PrefixReachable(tr, i - 1);
      StepWorks(tr[i - 1], l);
    }
  }

  lemma PrefixReachable(tr: seq<State>, i: nat)
    requires Run(tr) && i < |tr|
    ensures Reachable(tr[i])
  {
    var front := tr[..i + 1];
    forall j | 0 <= j < |front| - 1 ensures Next(front[j], front[j + 1]) {
      assert Next(tr[j], tr[j + 1]);
    }
    assert Run(front);
  }

  /** No run of the simulation is longer than 62 steps for each request that is to be issued. */
  lemma RunBounded(tr: seq<State>)
    requires Run(tr)
    ensures |tr| - 1 <= 62 * Requests(tr[0].totalRefs)
  {
    RunWorks(tr, |tr| - 1);
  }

  /** A run can end only after the client has requested the stop, and then with every request answered in full. */
  lemma EndsByStop(s: State)
    requires Reachable(s)
    requires forall l :: !Enabled(s, l)
    ensures s.stopRequested && Quiet(s)
    ensures |s.issued| == Requests(s.totalRefs)
    ensures forall id | 0 <= id < |s.issued| :: Finished(id) in s.log
    ensures forall id, bit | 0 <= id < |s.issued| && 0 <= bit < s.issued[id].len ::
              FilledIn(s.log, id, s.issued[id], bit)
  {
    ReachableKeeps(s);
    DrainedIsQuiet(s);
    assert !Enabled(s, SchRef(1));
  }
}
