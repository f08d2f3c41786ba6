/**
 The program: the three reactors, the ports between them and the pending events. Each of its
 reactions is one step of `Protocol`, so whatever holds of the protocol's runs holds of it.
 */
module Base {
  import opened Basics
  import opened Collections
  import opened Protocol
  import opened Handlers
  import opened MapQueue
  import opened Reactors
  import Bitmask
  import Theorems
  import Invariant
  import Schedule

  /** Where the actions, ports and connectors of the three reactors are. */
  datatype Layout = Layout(
    schRef: nat, clientWorkstreamRsp: nat, batchResponse: nat, client: nat,
    batchRequest: nat, workstreamRsp: nat, storageReqTrigger: nat, towardsClient: nat, towardsWorker: nat,
    task: nat, fetchPage: nat, worker: nat)

  /** No two things a reactor registers share an address, and no connector is at NULL. */
  predicate Placed(a: Layout) {
    && a.schRef != a.clientWorkstreamRsp && a.schRef != a.batchResponse && a.clientWorkstreamRsp != a.batchResponse
    && a.batchRequest != a.workstreamRsp && a.batchRequest != a.storageReqTrigger
       && a.workstreamRsp != a.storageReqTrigger
    && a.task != a.fetchPage
    && a.towardsClient != a.towardsWorker
    && a.client != 0 && a.towardsClient != 0 && a.towardsWorker != 0 && a.worker != 0
  }

  class Program {
    const client: Client
    const dispatcher: Dispatcher
    const worker: Worker
    // pending events
    var schRef: nat
    var trigger: nat
    var fetch: multiset<nat>
    var stopRequested: bool
    // ports
    var batchReq: Option<CacheMsg>
    var task: Option<TaskMsg>
    var result: Option<nat>
    var interim: Option<InterimMsg>
    var batchRsp: Option<nat>
    var errors: nat
    // history
    ghost var issued: seq<Req>
    ghost var created: seq<Sub>
    ghost var sent: seq<Sub>
    ghost var log: seq<Event>

    ghost predicate Valid()
      reads this, client, client.Repr, dispatcher, dispatcher.Repr, worker, worker.Repr
    {
      && client.Valid() && dispatcher.Valid() && worker.Valid()
      && client.Repr !! dispatcher.Repr && client.Repr !! worker.Repr && dispatcher.Repr !! worker.Repr
      && this !in client.Repr && this !in dispatcher.Repr && this !in worker.Repr
    }

    ghost function Footprint(): set<object>
      reads this, client, dispatcher, worker
    {
      {this} + client.Repr + dispatcher.Repr + worker.Repr
    }

    ghost function Door(): Option<BatchMsg>
      reads this
    {
      if batchReq.Some? then Some(BatchMsg(batchReq.value.id, AsReq(batchReq.value.req))) else None
    }

    ghost function View(): State
      requires Valid()
      reads this, client, client.Repr, dispatcher, dispatcher.Repr, worker, worker.Repr
    {
      var ClientView(refCounter, terminate, next, clientQ) := client.View();
      var DispatcherView(inQ, subNext, schedQ, outQ) := dispatcher.View();
      State(client.totalRefs, client.baseLbn, refCounter, terminate, stopRequested, schRef, next, clientQ,
            inQ, subNext, schedQ, outQ, trigger,
            worker.View(), fetch,
            Door(), task, result, interim, batchRsp,
            errors, issued, created, sent, log)
    }

    constructor (totalRefs: nat, baseLbn: nat, a: Layout)
      requires Placed(a) && MAX_LEN * (totalRefs + 1) < UINT32
      ensures Valid() && Init(View()) && Theorems.Reachable(View())
      ensures View().totalRefs == totalRefs && View().baseLbn == baseLbn
    {
      hide Client.Valid, Dispatcher.Valid, Worker.Valid, Client.View, Dispatcher.View, Worker.View, Drop;
      var c := new Client(totalRefs, baseLbn, a.schRef, a.clientWorkstreamRsp, a.batchResponse, a.client);
      client := c;
      var d := new Dispatcher(a.batchRequest, a.workstreamRsp, a.storageReqTrigger, a.towardsClient, a.towardsWorker);
      dispatcher := d;
      var w := new Worker(a.task, a.fetchPage, a.worker);
      worker := w;
      schRef, trigger, fetch, stopRequested := 1, 0, multiset{}, false;
      batchReq, task, result, interim, batchRsp := None, None, None, None, None;
      errors := 0;
      issued, created, sent, log := [], [], [], [];
      new;
      Theorems.InitReachable(View());
    }

    // ---- single effects, as changes of the state ----

    /** The dispatcher's trigger is scheduled. */
    method Arm()
      requires Valid()
      modifies this`trigger
      ensures Valid() && View() == old(View()).(trigger := old(View()).trigger + 1)
    {
      hide Client.Valid, Dispatcher.Valid, Worker.Valid, Client.View, Dispatcher.View, Worker.View, Drop;
      trigger := trigger + 1;
    }

    method CountError()
      requires Valid()
      modifies this`errors
      ensures Valid() && View() == old(View()).(errors := old(View()).errors + 1)
    {
      hide Client.Valid, Dispatcher.Valid, Worker.Valid, Client.View, Dispatcher.View, Worker.View, Drop;
      errors := errors + 1;
    }

    method PutTask(id: nat, sub: Sub)
      requires Valid()
      modifies this`task, this`sent
      ensures Valid() && View() == old(View()).(task := Some(TaskMsg(id, sub.lbn)), sent := old(View()).sent + [sub])
    {
      hide Client.Valid, Dispatcher.Valid, Worker.Valid, Client.View, Dispatcher.View, Worker.View, Drop;
      task := Some(TaskMsg(id, sub.lbn));
      sent := sent + [sub];
    }

    method PutResult(id: nat)
      requires Valid()
      modifies this`result
      ensures Valid() && View() == old(View()).(result := Some(id))
    {
      hide Client.Valid, Dispatcher.Valid, Worker.Valid, Client.View, Dispatcher.View, Worker.View, Drop;
      result := Some(id);
    }

    method PutReply(reply: Reply)
      requires Valid()
      modifies this`interim, this`batchRsp
      ensures Valid()
      ensures View() == old(View()).(interim := Some(reply.interim),
                                     batchRsp := if reply.batch.Some? then reply.batch else old(View()).batchRsp)
    {
      hide Client.Valid, Dispatcher.Valid, Worker.Valid, Client.View, Dispatcher.View, Worker.View, Drop;
      interim := Some(reply.interim);
      if reply.batch.Some? {
        batchRsp := reply.batch;
      }
    }

    method LogFinish(id: nat)
      requires Valid()
      modifies this`log
      ensures Valid() && View() == old(View()).(log := old(View()).log + [Finished(id)])
    {
      hide Client.Valid, Dispatcher.Valid, Worker.Valid, Client.View, Dispatcher.View, Worker.View, Drop;
      log := log + [Finished(id)];
    }

    lemma Shown()
      requires Valid()
      ensures View().stopRequested == stopRequested && View().batchReq.Some? == batchReq.Some?
      ensures View().task == task && View().result == result && View().interim == interim && View().batchRsp == batchRsp
      ensures View().fetch == fetch && View().trigger == trigger
    {
    }

    // ---- the reactions ----

    method SchRef(len: nat, now: int)
      requires Valid() && Enabled(View(), Label.SchRef(len))
      modifies this, client.Repr
      ensures fresh(client.Repr - old(client.Repr))
      ensures Valid() && View() == Protocol.ScheduleReference(old(View()), len)
      ensures var req := Req(client.baseLbn, len, Interval(0, len));
              && View().issued == old(View()).issued + [req]
              && View().batchReq == Some(BatchMsg(old(View()).clientNext, req))
    {
      ghost var s := View();
      assert s.baseLbn == client.baseLbn;
      Theorems.IssuesOne(s, len);
      hide Client.Valid, Dispatcher.Valid, Worker.Valid, Client.View, Dispatcher.View, Worker.View, Program.View;
      hide Protocol.ScheduleReference, Interval;
      Issue(len, now);
    }

    /** The client issues, and the request goes on the port. */
    method Issue(len: nat, now: int)
      requires Valid() && Enabled(View(), Label.SchRef(len))
      modifies this, client.Repr
      ensures fresh(client.Repr - old(client.Repr))
      ensures Valid() && View() == Protocol.ScheduleReference(old(View()), len)
    {
      hide Client.Valid, Dispatcher.Valid, Worker.Valid, Client.View, Dispatcher.View, Worker.View, Drop, PutIfAbsent;
      hide Full, AsReq;
      schRef := schRef - 1;
      var msg, again := client.SchRef(len, now);
      batchReq := msg;
      schRef := if again then schRef + 1 else schRef;
      issued := issued + [AsReq(msg.value.req)];
    }

    method BatchRequest(now: int)
      requires Valid() && Enabled(View(), Label.BatchRequest)
      modifies this, dispatcher.Repr
      ensures fresh(dispatcher.Repr - old(dispatcher.Repr))
      ensures Valid() && View() == Protocol.ProcessBatchRequest(old(View()))
    {
      hide Client.Valid, Dispatcher.Valid, Worker.Valid, Client.View, Dispatcher.View, Worker.View, Drop, PutIfAbsent;
      hide SplitMask;
      Shown();
      hide Program.View;
      var wake := TakeBatch(now);
      if wake {
        Arm();
      }
    }

    /** The dispatcher takes the request on the port. */
    method TakeBatch(now: int) returns (wake: bool)
      requires Valid() && batchReq.Some?
      modifies this`batchReq, this`created, dispatcher.Repr
      ensures fresh(dispatcher.Repr - old(dispatcher.Repr))
      ensures Valid() && (wake <==> old(View()).schedQ == map[])
      ensures var s := old(View());
              var BatchMsg(id, req) := s.batchReq.value;
              var p := SplitMask(Split(s.schedQ, s.subNext, s.created), id, req.lbn, req.mask);
              View() == s.(batchReq := None, inQ := PutIfAbsent(s.inQ, id, req),
                           schedQ := p.schedQ, subNext := p.subNext, created := p.created)
    {
      hide Client.Valid, Dispatcher.Valid, Worker.Valid, Client.View, Dispatcher.View, Worker.View, Drop, PutIfAbsent;
      hide SplitMask, Bitmask.Bits;
      wake, created := dispatcher.BatchRequest(batchReq.value, now, created);
      batchReq := None;
    }

    method StorageReqTrigger(now: int)
      requires Valid() && Enabled(View(), Label.StorageReqTrigger)
      modifies this, dispatcher.Repr
      ensures fresh(dispatcher.Repr - old(dispatcher.Repr))
      ensures Valid() && View() == Protocol.ScheduleDiskRequest(old(View()))
    {
      hide Client.Valid, Dispatcher.Valid, Worker.Valid, Client.View, Dispatcher.View, Worker.View, Drop, PutIfAbsent;
      Shown();
      hide Program.View;
      var req, again := SendNext(now);
      if req.Some? {
        PutTask(req.value.0, req.value.1);
      }
      if again {
        Arm();
      }
    }

    /** The event is taken, and the dispatcher looks for a sub-request to send. */
    method SendNext(now: int) returns (req: Option<(nat, Sub)>, again: bool)
      requires Valid() && trigger > 0
      modifies this`trigger, dispatcher.Repr
      ensures fresh(dispatcher.Repr - old(dispatcher.Repr))
      ensures Valid() && (req.None? <==> old(View()).schedQ == map[]) && (again <==> View().schedQ != map[])
      ensures req.None? ==> View() == old(View()).(trigger := old(View()).trigger - 1)
      ensures req.Some? ==>
                var id := Min(old(View()).schedQ.Keys);
                && req.value == (id, old(View()).schedQ[id])
                && View() == old(View()).(trigger := old(View()).trigger - 1,
                                          schedQ := Drop(old(View()).schedQ, id),
                                          outQ := PutIfAbsent(old(View()).outQ, id, req.value.1))
    {
      hide Client.Valid, Dispatcher.Valid, Worker.Valid, Client.View, Dispatcher.View, Worker.View, Drop, PutIfAbsent;
      trigger := trigger - 1;
      req, again := dispatcher.StorageReqTrigger(now);
    }

    method Task(now: int)
      requires Valid() && Enabled(View(), Label.Task)
      modifies this, worker.Repr
      ensures fresh(worker.Repr - old(worker.Repr))
      ensures Valid() && View() == Protocol.EnqueueTask(old(View()))
    {
      hide Client.Valid, Dispatcher.Valid, Worker.Valid, Client.View, Dispatcher.View, Worker.View, Drop, PutIfAbsent;
      var event := worker.Task(task.value, now);
      task := None;
      if event.Some? {
        fetch := fetch + multiset{event.value};
      }
    }

    method FetchPage(id: nat, now: int)
      requires Valid() && Enabled(View(), Label.FetchPage(id))
      modifies this, worker.Repr
      ensures worker.Repr == old(worker.Repr)
      ensures Valid() && View() == Protocol.EmulateDelay(old(View()), id)
    {
      hide Client.Valid, Dispatcher.Valid, Worker.Valid, Client.View, Dispatcher.View, Worker.View, Drop, Program.View;
      Shown();
      var answer := ServeEvent(id, now);
      if answer.Some? {
        PutResult(answer.value);
      } else {
        CountError();
      }
    }

    /** The event is taken, and the worker looks for its block. */
    method ServeEvent(id: nat, now: int) returns (answer: Option<nat>)
      requires Valid() && id in fetch
      modifies this`fetch, worker.Repr
      ensures worker.Repr == old(worker.Repr)
      ensures Valid() && answer == if id in old(View()).workQ then Some(id) else None
      ensures View() == old(View()).(
                          fetch := old(fetch) - multiset{id},
                          workQ := if answer.Some? then Drop(old(View()).workQ, id) else old(View()).workQ)
    {
      hide Client.Valid, Dispatcher.Valid, Worker.Valid, Client.View, Dispatcher.View, Worker.View, Drop;
      fetch := fetch - multiset{id};
      answer := worker.FetchPage(id, now);
    }

    method WorkstreamRsp(now: int)
      requires Valid() && Enabled(View(), Label.WorkstreamRsp) && Protocol.ProcessDiskResponse(View()).Ran?
      modifies this, dispatcher.Repr
      ensures dispatcher.Repr == old(dispatcher.Repr)
      ensures Valid() && Protocol.ProcessDiskResponse(old(View())) == Ran(View())
    {
      hide Client.Valid, Dispatcher.Valid, Worker.Valid, Client.View, Dispatcher.View, Worker.View, Drop, TickOff;
      Shown();
      hide Program.View;
      var reply := TakeResult(result.value, now);
      if reply.Some? {
        PutReply(reply.value);
      } else {
        CountError();
      }
    }

    /** The dispatcher takes the worker's answer on the port. */
    method TakeResult(id: nat, now: int) returns (reply: Option<Reply>)
      requires Valid()
      requires View().outQ == map[] ||
               (id in View().outQ && View().outQ[id].parent in View().inQ
                && ShiftDefined(View().inQ, View().outQ[id].parent, View().outQ[id].lbn))
      modifies this`result, dispatcher.Repr
      ensures dispatcher.Repr == old(dispatcher.Repr)
      ensures Valid() && (reply.None? <==> old(View()).outQ == map[])
      ensures reply.None? ==> View() == old(View()).(result := None)
      ensures reply.Some? ==>
                var s := old(View());
                var sub := s.outQ[id];
                && reply.value == Reply(InterimMsg(sub.parent, sub.lbn), AnswerIfDone(s.inQ, sub.parent, sub.lbn, None))
                && View() == s.(result := None, outQ := Drop(s.outQ, id), inQ := TickOff(s.inQ, sub.parent, sub.lbn))
    {
      hide Client.Valid, Dispatcher.Valid, Worker.Valid, Client.View, Dispatcher.View, Worker.View, Drop, TickOff;
      hide AnswerIfDone;
      reply := dispatcher.WorkstreamRsp(id, now);
      result := None;
    }

    method InterimRsp()
      requires Valid() && Enabled(View(), Label.InterimRsp) && Protocol.ClientInterimResponse(View()).Ran?
      modifies this, client.Repr
      ensures client.Repr == old(client.Repr)
      ensures Valid() && Protocol.ClientInterimResponse(old(View())) == Ran(View())
    {
      hide Client.Valid, Dispatcher.Valid, Worker.Valid, Client.View, Dispatcher.View, Worker.View, Drop, Fill;
      var ok := client.WorkstreamRsp(interim.value);
      log := log + [Filled(interim.value.id, interim.value.lbn)];
      interim := None;
    }

    method BatchRsp(now: int)
      requires Valid() && Enabled(View(), Label.BatchRsp)
      modifies this, client.Repr
      ensures client.Repr == old(client.Repr)
      ensures Valid() && View() == Protocol.ClientResponse(old(View()))
    {
      hide Client.Valid, Dispatcher.Valid, Worker.Valid, Client.View, Dispatcher.View, Worker.View, Drop;
      Shown();
      hide Program.View;
      var id := batchRsp.value;
      var found, complaint := Finish(id, now);
      if found {
        LogFinish(id);
      }
      if !found || complaint {
        CountError();
      }
    }

    /** The client takes the batch response on the port. */
    method Finish(id: nat, now: int) returns (found: bool, complaint: bool)
      requires Valid()
      modifies this`batchRsp, this`stopRequested, client.Repr
      ensures client.Repr == old(client.Repr)
      ensures Valid() && (found <==> id in old(View()).clientQ)
      ensures complaint <==> found && old(View()).clientQ[id].mask != {}
      ensures var s := old(View());
              View() == s.(batchRsp := None, stopRequested := s.terminate,
                           clientQ := if found then Drop(s.clientQ, id) else s.clientQ)
    {
      hide Client.Valid, Dispatcher.Valid, Worker.Valid, Client.View, Dispatcher.View, Worker.View, Drop;
      var stop;
      found, complaint, stop := client.BatchResponse(id, now);
      batchRsp := None;
      stopRequested := stop;
    }

    /**
     In a state that the program can get to, any enabled reaction runs, without an error, and is the protocol's step.
     */
    method React(l: Label, now: int)
      requires Valid() && Theorems.Reachable(View()) && Enabled(View(), l)
      modifies Footprint()
      ensures Valid() && forall o | o in Footprint() :: o in old(Footprint()) || fresh(o)
      ensures Step(old(View()), l) == Ran(View()) && View().errors == 0
      ensures Theorems.Reachable(View())
    {
      hide Client.Valid, Dispatcher.Valid, Worker.Valid, Client.View, Dispatcher.View, Worker.View, Program.View;
      Theorems.ReachableStep(View(), l);
      match l
      case SchRef(len) => SchRef(len, now);
      case BatchRequest => BatchRequest(now);
      case StorageReqTrigger => StorageReqTrigger(now);
      case Task => Task(now);
      case FetchPage(id) => FetchPage(id, now);
      case WorkstreamRsp => WorkstreamRsp(now);
      case InterimRsp => InterimRsp();
      case BatchRsp => BatchRsp(now);
    }

    /** A reaction that runs if its trigger is present. */
    method Fire(present: bool, l: Label, now: int, ghost s: State, ghost p: bool, ghost t: State)
      requires Valid() && Theorems.Reachable(View()) && View() == s && (present <==> p) && Schedule.Fires(s, p, l, t)
      modifies Footprint()
      ensures Valid() && forall o | o in Footprint() :: o in old(Footprint()) || fresh(o)
      ensures Theorems.Reachable(View()) && View() == t
    {
      hide Client.Valid, Dispatcher.Valid, Worker.Valid, Program.View, Program.Footprint, Step;
      if present {
        React(l, now);
      }
    }

    method IssueAndSplit(tag: Schedule.Tag, now: int, ghost s: State, ghost s1: State, ghost s2: State)
      requires Valid() && Theorems.Reachable(View()) && View() == s
      requires Schedule.Fires(s, tag.schRef.Some?, Schedule.Issue(tag), s1)
      requires Schedule.Fires(s1, s1.batchReq.Some?, Label.BatchRequest, s2)
      modifies Footprint()
      ensures Valid() && forall o | o in Footprint() :: o in old(Footprint()) || fresh(o)
      ensures Theorems.Reachable(View()) && View() == s2
    {
      hide Client.Valid, Dispatcher.Valid, Worker.Valid, Program.View, Program.Valid, Program.Footprint, Program.Door;
      hide Schedule.Fires, Schedule.Pending, Schedule.OnlyFull, Theorems.Reachable, Step, Enabled, Invariant.Inv;
      Fire(tag.schRef.Some?, Schedule.Issue(tag), now, s, tag.schRef.Some?, s1);
      Shown();
      Fire(batchReq.Some?, Label.BatchRequest, now, s1, s1.batchReq.Some?, s2);
    }

    method SendAndAccept(tag: Schedule.Tag, now: int, ghost s: State, ghost s1: State, ghost s2: State)
      requires Valid() && Theorems.Reachable(View()) && View() == s
      requires Schedule.Fires(s, tag.trigger, Label.StorageReqTrigger, s1)
      requires Schedule.Fires(s1, s1.task.Some?, Label.Task, s2)
      modifies Footprint()
      ensures Valid() && forall o | o in Footprint() :: o in old(Footprint()) || fresh(o)
      ensures Theorems.Reachable(View()) && View() == s2
    {
      hide Client.Valid, Dispatcher.Valid, Worker.Valid, Program.View, Program.Valid, Program.Footprint, Program.Door;
      hide Schedule.Fires, Schedule.Pending, Schedule.OnlyFull, Theorems.Reachable, Step, Enabled, Invariant.Inv;
      Fire(tag.trigger, Label.StorageReqTrigger, now, s, tag.trigger, s1);
      Shown();
      Fire(task.Some?, Label.Task, now, s1, s1.task.Some?, s2);
    }

    method ServeAndReply(tag: Schedule.Tag, now: int, ghost s: State, ghost s1: State, ghost s2: State)
      requires Valid() && Theorems.Reachable(View()) && View() == s
      requires Schedule.Fires(s, tag.fetch.Some?, Schedule.Serve(tag), s1)
      requires Schedule.Fires(s1, s1.result.Some?, Label.WorkstreamRsp, s2)
      modifies Footprint()
      ensures Valid() && forall o | o in Footprint() :: o in old(Footprint()) || fresh(o)
      ensures Theorems.Reachable(View()) && View() == s2
    {
      hide Client.Valid, Dispatcher.Valid, Worker.Valid, Program.View, Program.Valid, Program.Footprint, Program.Door;
      hide Schedule.Fires, Schedule.Pending, Schedule.OnlyFull, Theorems.Reachable, Step, Enabled, Invariant.Inv;
      Fire(tag.fetch.Some?, Schedule.Serve(tag), now, s, tag.fetch.Some?, s1);
      Shown();
      Fire(result.Some?, Label.WorkstreamRsp, now, s1, s1.result.Some?, s2);
    }

    method FillAndFinish(now: int, ghost s: State, ghost s1: State, ghost s2: State)
      requires Valid() && Theorems.Reachable(View()) && View() == s
      requires Schedule.Fires(s, s.interim.Some?, Label.InterimRsp, s1)
      requires Schedule.Fires(s1, s1.batchRsp.Some?, Label.BatchRsp, s2)
      modifies Footprint()
      ensures Valid() && forall o | o in Footprint() :: o in old(Footprint()) || fresh(o)
      ensures Theorems.Reachable(View()) && View() == s2
    {
      hide Client.Valid, Dispatcher.Valid, Worker.Valid, Program.View, Program.Valid, Program.Footprint, Program.Door;
      hide Schedule.Fires, Schedule.Pending, Schedule.OnlyFull, Theorems.Reachable, Step, Enabled, Invariant.Inv;
      Shown();
      Fire(interim.Some?, Label.InterimRsp, now, s, s.interim.Some?, s1);
      Shown();
      Fire(batchRsp.Some?, Label.BatchRsp, now, s1, s1.batchRsp.Some?, s2);
    }

    /** One tag of the runtime: the eight reactions run in order, each exactly if its trigger is present. */
    method RunTag(tag: Schedule.Tag, now: int)
      returns (ghost s1: State, ghost s2: State, ghost s3: State, ghost s4: State,
               ghost s5: State, ghost s6: State, ghost s7: State, ghost s8: State)
      requires Valid() && Theorems.Reachable(View())
      requires Schedule.PortsEmpty(View()) && Schedule.Pending(View(), tag)
      modifies Footprint()
      ensures Valid() && forall o | o in Footprint() :: o in old(Footprint()) || fresh(o)
      ensures Schedule.Fires(old(View()), tag.schRef.Some?, Schedule.Issue(tag), s1)
      ensures Schedule.Fires(s1, s1.batchReq.Some?, Label.BatchRequest, s2)
      ensures Schedule.Fires(s2, tag.trigger, Label.StorageReqTrigger, s3)
      ensures Schedule.Fires(s3, s3.task.Some?, Label.Task, s4)
      ensures Schedule.Fires(s4, tag.fetch.Some?, Schedule.Serve(tag), s5)
      ensures Schedule.Fires(s5, s5.result.Some?, Label.WorkstreamRsp, s6)
      ensures Schedule.Fires(s6, s6.interim.Some?, Label.InterimRsp, s7)
      ensures Schedule.Fires(s7, s7.batchRsp.Some?, Label.BatchRsp, s8)
      ensures View() == s8 && Theorems.Reachable(s8) && Schedule.PortsEmpty(s8)
    {
      hide Client.Valid, Dispatcher.Valid, Worker.Valid, Program.View, Program.Valid, Program.Footprint, Program.Door;
      hide Schedule.Fires, Schedule.Pending, Schedule.OnlyFull, Theorems.Reachable, Step, Enabled, Invariant.Inv;
      ghost var s := View();
      s1, s2, s3, s4, s5, s6, s7, s8 := Schedule.TagIsRun(s, tag);
      IssueAndSplit(tag, now, s, s1, s2);
      SendAndAccept(tag, now, s2, s3, s4);
      ServeAndReply(tag, now, s4, s5, s6);
      FillAndFinish(now, s6, s7, s8);
    }
  }
}
