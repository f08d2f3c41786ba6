/** The three reactors, with their queues and connector maps. */
module Reactors {
  import opened Basics
  import opened Collections
  import Protocol
  import opened Bitmask
  import opened Handlers
  import opened MapQueue
  import opened PriorityQueue
  import opened TombstoneMap

  const DEF_MAP_SIZE: nat := 5
  const DEF_RESIZE_THRESHOLD: real := 0.85

  /** The map leads from a port or action to the connector it was registered with. */
  ghost predicate Wired(m: map<nat, nat>, port: nat, connector: nat) {
    connector != NULL && port in m && m[port] == connector
  }

  /** A connector map shares no memory with a queue. */
  ghost predicate Apart(m: Map, footprint: set<object>)
    reads m
  {
    m !in footprint && m.elements !in footprint
  }

  /** The handlers, by what they do; the type of a container in the C code says how its handler is called. */
  datatype Processor =
    | Unset
    | IssueReference      // schedule_reference
    | FillBlock           // client_interim_response
    | FinishRequest       // client_response
    | SplitBatch          // process_batch_request
    | SendToDisk          // schedule_disk_request
    | TakeDiskResponse    // process_disk_response
    | QueueTask           // enqueue_task
    | FinishDelay         // emulate_delay

  datatype Input = Input(port: nat, processor: Processor)

  /** What a startup reaction sets up on a connector, and the connector it links it to. */
  datatype Connector = Connector(scheduler: Processor, input: Input, interimInput: Input, linked: nat)

  const NO_INPUT: Input := Input(NULL, Unset)

  function InputOf(c: Connector, port: nat): Input {
    if c.input.port == port then c.input else c.interimInput
  }

  /** `connector_process_input` finds the connector of a port, and on it the input or the interim input. */
  method FindInput(connectors: Map, setup: map<nat, Connector>, port: nat)
    returns (con: nat, processor: Processor, linked: nat)
    requires connectors.Valid()
    ensures forall c: nat | c in setup && Wired(connectors.contents, port, c) ::
              && con == c && linked == setup[c].linked
              && processor == InputOf(setup[c], port).processor
  {
    hide Map.Valid;
    con := connectors.Find(port);
    processor, linked := Unset, NULL;
    if con != NULL && con in setup {
      var c := setup[con];
      processor, linked := InputOf(c, port).processor, c.linked;
    }
  }

  /** `connector_process_scheduler` finds the connector of an action, and on it the scheduler. */
  method FindScheduler(connectors: Map, setup: map<nat, Connector>, action: nat)
    returns (con: nat, processor: Processor)
    requires connectors.Valid()
    ensures forall c: nat | c in setup && Wired(connectors.contents, action, c) ::
              con == c && processor == setup[c].scheduler
  {
    hide Map.Valid;
    con := connectors.Find(action);
    processor := Unset;
    if con != NULL && con in setup {
      processor := setup[con].scheduler;
    }
  }

  /** A startup reaction fills its connector map. */
  method Connect(port: nat, target: nat, port': nat, target': nat) returns (m: Map)
    requires port != port' && target != NULL && target' != NULL
    ensures m.Valid() && fresh(m) && fresh(m.elements) && m.initialSize == 5 && m.loadThreshold == 0.85
    ensures Wired(m.contents, port, target) && Wired(m.contents, port', target')
    ensures m.contents.Keys == {port, port'}
  {
    hide Map.Valid;
    m := new Map(DEF_MAP_SIZE, DEF_RESIZE_THRESHOLD);
    var ok := m.Insert(port, target);
    ok := m.Insert(port', target');
  }

  method ConnectThree(p: nat, c: nat, p': nat, c': nat, p'': nat, c'': nat) returns (m: Map)
    requires p != p' && p != p'' && p' != p'' && c != NULL && c' != NULL && c'' != NULL
    ensures m.Valid() && fresh(m) && fresh(m.elements) && m.initialSize == 5 && m.loadThreshold == 0.85
    ensures Wired(m.contents, p, c) && Wired(m.contents, p', c') && Wired(m.contents, p'', c'')
  {
    hide Map.Valid;
    m := Connect(p, c, p', c');
    var ok := m.Insert(p'', c'');
  }

  // ---- client ----

  datatype ClientView = ClientView(refCounter: nat, terminate: bool, next: nat, queue: map<nat, Protocol.Req>)

  class Client {
    const totalRefs: nat
    const baseLbn: nat
    const schRef: nat                // addresses: the action, the two inputs, the connector
    const workstreamRsp: nat
    const batchResponse: nat
    const connector: nat
    const connectors: Map
    const outport: Queue<CacheReq>
    var refCounter: nat
    var terminate: bool
    ghost var Repr: set<object>

    function Setup(): map<nat, Connector> {
      map[connector := Connector(IssueReference, Input(batchResponse, FinishRequest), Input(workstreamRsp, FillBlock),
                                 NULL)]
    }

    ghost function View(): ClientView
      requires Valid()
      reads this, Repr
    {
      ClientView(refCounter, terminate, outport.nextEventId, Open(outport))
    }

    ghost predicate Valid()
      reads this, Repr
      ensures Valid() ==> this in Repr
    {
      && this in Repr && connectors in Repr && connectors.elements in Repr && outport in Repr && outport.Repr <= Repr
      && outport.Valid() && connectors.Valid()
      && this !in outport.Repr && Apart(connectors, outport.Repr)
      && batchResponse != workstreamRsp
      && Wired(connectors.contents, schRef, connector)
      && Wired(connectors.contents, workstreamRsp, connector)
      && Wired(connectors.contents, batchResponse, connector)
    }

    constructor (totalRefs: nat, baseLbn: nat, schRef: nat, workstreamRsp: nat, batchResponse: nat, connector: nat)
      requires schRef != workstreamRsp && schRef != batchResponse && workstreamRsp != batchResponse
      requires connector != NULL
      ensures Valid() && fresh(Repr)
      ensures this.totalRefs == totalRefs && this.baseLbn == baseLbn
      ensures View() == ClientView(0, false, 0, map[])
    {
      hide Map.Valid;
      this.totalRefs, this.baseLbn := totalRefs, baseLbn;
      this.schRef, this.workstreamRsp, this.batchResponse := schRef, workstreamRsp, batchResponse;
      this.connector := connector;
      var table := ConnectThree(schRef, connector, workstreamRsp, connector, batchResponse, connector);
      connectors := table;
      var q := NewQueue();
      outport := q;
      refCounter, terminate := 0, false;
      Repr := {this, table, table.elements} + q.Repr;
    }

    /** Issues a request; `again` says that `sch_ref` is scheduled once more. */
    method SchRef(len: nat, now: int) returns (msg: Option<CacheMsg>, again: bool)
      requires Valid() && 1 <= len <= Protocol.MAX_LEN
      modifies Repr
      ensures Valid() && fresh(Repr - old(Repr))
      ensures msg.Some? && msg.value.id == old(View().next)
      ensures AsReq(msg.value.req) == Protocol.Req(baseLbn, len, Protocol.Full(len))
      ensures again <==> View().refCounter < totalRefs
      ensures View() == ClientView(old(View().refCounter) + 1, old(View().terminate) || !again,
                                   (old(View().next) + 1) % UINT32,
                                   PutIfAbsent(old(View().queue), msg.value.id, AsReq(msg.value.req)))
    {
      hide Queue.Valid, Map.Valid, Drop, PutIfAbsent, Protocol.Full, AsReqs, AsReq;
      msg := ProcessScheduler(len, now);
      refCounter := refCounter + 1;
      again := refCounter < totalRefs;
      if !again {
        terminate := true;
      }
    }

    method ProcessScheduler(len: nat, now: int) returns (msg: Option<CacheMsg>)
      requires Valid() && 1 <= len <= Protocol.MAX_LEN
      modifies this`Repr, outport.Repr
      ensures Valid() && fresh(Repr - old(Repr))
      ensures msg.Some? && msg.value.id == old(outport.nextEventId)
      ensures AsReq(msg.value.req) == Protocol.Req(baseLbn, len, Protocol.Full(len))
      ensures outport.nextEventId == (old(outport.nextEventId) + 1) % UINT32
      ensures Open(outport) == PutIfAbsent(old(Open(outport)), msg.value.id, AsReq(msg.value.req))
    {
      hide Queue.Valid, Map.Valid, Drop, PutIfAbsent, Protocol.Full, AsReqs, AsReq;
      msg := None;
      var con, processor := FindScheduler(connectors, Setup(), schRef);
      if processor == IssueReference && con == connector {
        var m := ScheduleReference(outport, baseLbn, len, now);
        msg := Some(m);
        Repr := Repr + outport.Repr;
      }
    }

    /** Fills in a block. */
    method WorkstreamRsp(rsp: Protocol.InterimMsg) returns (ok: bool)
      requires Valid()
      requires rsp.id in View().queue && Protocol.ShiftDefined(View().queue, rsp.id, rsp.lbn)
      modifies Repr
      ensures Valid() && Repr == old(Repr) && ok
      ensures View() == old(View()).(queue := Protocol.Fill(old(View().queue), rsp.id, rsp.lbn))
    {
      hide Queue.Valid, Map.Valid, Drop, Protocol.Fill, Protocol.ShiftDefined;
      var con, processor, _ := FindInput(connectors, Setup(), workstreamRsp);
      ok := processor == FillBlock && con == connector;
      if ok {
        ClientInterimResponse(outport, rsp);
      }
    }

    /** Drops a finished request; `stop` says that the simulation is to end. */
    method BatchResponse(id: nat, now: int) returns (found: bool, complaint: bool, stop: bool)
      requires Valid()
      modifies Repr
      ensures Valid() && Repr == old(Repr)
      ensures found <==> id in old(View().queue)
      ensures View() == if found then old(View()).(queue := Drop(old(View().queue), id)) else old(View())
      ensures complaint <==> found && old(View().queue)[id].mask != {}
      ensures stop == View().terminate
    {
      hide Queue.Valid, Map.Valid, Drop;
      found, complaint := false, false;
      var con, processor, _ := FindInput(connectors, Setup(), batchResponse);
      if processor == FinishRequest && con == connector {
        found, complaint := ClientResponse(outport, id, now);
      }
      stop := terminate;
    }
  }

  // ---- dispatcher ----

  datatype DispatcherView =
    DispatcherView(queue: map<nat, Protocol.Req>, subNext: nat,
                   sched: map<nat, Protocol.Sub>, out: map<nat, Protocol.Sub>)

  class Dispatcher {
    const batchRequest: nat
    const workstreamRsp: nat
    const storageReqTrigger: nat
    const clientCon: nat
    const workerCon: nat
    const connectors: Map
    const inport: Queue<CacheReq>      // of the connector towards the client
    const sched: Queue<Protocol.Sub>   // scheduler queue and
    const outport: Queue<Protocol.Sub> // output queue of the connector towards the worker

    ghost var Repr: set<object>

    function Setup(): map<nat, Connector> {
      map[clientCon := Connector(Unset, Input(batchRequest, SplitBatch), NO_INPUT, workerCon),
          workerCon := Connector(SendToDisk, Input(workstreamRsp, TakeDiskResponse), NO_INPUT, clientCon)]
    }

    ghost predicate Queues()
      reads inport, inport.Repr, sched, sched.Repr, outport, outport.Repr
    {
      && inport.Valid() && sched.Valid() && outport.Valid()
      && inport.Repr !! sched.Repr && inport.Repr !! outport.Repr && sched.Repr !! outport.Repr
    }

    ghost predicate Connected()
      reads this, connectors, connectors.elements
    {
      && connectors.Valid() && clientCon != workerCon
      && Wired(connectors.contents, batchRequest, clientCon)
      && Wired(connectors.contents, workstreamRsp, workerCon)
      && Wired(connectors.contents, storageReqTrigger, workerCon)
    }

    ghost predicate Valid()
      reads this, Repr
      ensures Valid() ==> this in Repr
    {
      && this in Repr && connectors in Repr && connectors.elements in Repr
      && inport in Repr && sched in Repr && outport in Repr
      && inport.Repr <= Repr && sched.Repr <= Repr && outport.Repr <= Repr
      && Queues() && Connected()
      && Apart(connectors, inport.Repr) && Apart(connectors, sched.Repr) && Apart(connectors, outport.Repr)
      && this !in inport.Repr && this !in sched.Repr && this !in outport.Repr
    }

    ghost function View(): DispatcherView
      requires Valid()
      reads this, Repr
    {
      DispatcherView(Open(inport), sched.nextEventId, Data(sched), Data(outport))
    }

    constructor (batchRequest: nat, workstreamRsp: nat, storageReqTrigger: nat, clientCon: nat, workerCon: nat)
      requires batchRequest != workstreamRsp && batchRequest != storageReqTrigger && workstreamRsp != storageReqTrigger
      requires clientCon != NULL && workerCon != NULL && clientCon != workerCon
      ensures Valid() && fresh(Repr)
      ensures View() == DispatcherView(map[], 0, map[], map[])
    {
      hide Map.Valid, Queue.Valid;
      this.batchRequest, this.workstreamRsp, this.storageReqTrigger := batchRequest, workstreamRsp, storageReqTrigger;
      this.clientCon, this.workerCon := clientCon, workerCon;
      var table := ConnectThree(batchRequest, clientCon, workstreamRsp, workerCon, storageReqTrigger, workerCon);
      connectors := table;
      var inp := NewQueue();
      inport := inp;
      var sch := NewQueue();
      sched := sch;
      var out := NewQueue();
      outport := out;
      Repr := {this, table, table.elements} + inp.Repr + sch.Repr + out.Repr;
    }

    /** Takes a request; `wake` says that the trigger is scheduled. */
    method BatchRequest(msg: CacheMsg, now: int, ghost made: seq<Protocol.Sub>)
      returns (wake: bool, ghost created: seq<Protocol.Sub>)
      requires Valid()
      modifies Repr
      ensures Valid() && fresh(Repr - old(Repr))
      ensures wake <==> old(View().sched) == map[]
      ensures var p := Protocol.SplitMask(old(Protocol.Split(View().sched, View().subNext, made)),
                                          msg.id, msg.req.lbn, Bits(msg.req.bitmask));
              && created == p.created
              && View() == DispatcherView(PutIfAbsent(old(View().queue), msg.id, AsReq(msg.req)),
                                          p.subNext, p.schedQ, old(View().out))
    {
      hide Queue.Valid, Map.Valid, Drop, PutIfAbsent, Protocol.SplitMask, AsReq, AsReqs, Bits;
      wake, created := false, made;
      var con, processor, linked := FindInput(connectors, Setup(), batchRequest);
      if processor == SplitBatch && con == clientCon && linked == workerCon {
        wake, created := ProcessRequest(msg, now, made);
        Repr := Repr + inport.Repr + sched.Repr;
      }
    }

    method ProcessRequest(msg: CacheMsg, now: int, ghost made: seq<Protocol.Sub>)
      returns (wake: bool, ghost created: seq<Protocol.Sub>)
      requires Queues()
      modifies inport.Repr, sched.Repr
      ensures Queues() && fresh(inport.Repr - old(inport.Repr)) && fresh(sched.Repr - old(sched.Repr))
      ensures outport.Repr == old(outport.Repr) && Data(outport) == old(Data(outport))
      ensures wake <==> old(Data(sched)) == map[]
      ensures Open(inport) == PutIfAbsent(old(Open(inport)), msg.id, AsReq(msg.req))
      ensures Splitting(sched, created)
           == Protocol.SplitMask(old(Splitting(sched, made)), msg.id, msg.req.lbn, Bits(msg.req.bitmask))
    {
      hide Queue.Valid, Drop, PutIfAbsent, Protocol.SplitMask, AsReq, AsReqs, Bits;
      wake := IsEmpty(sched);
      created := ProcessBatchRequest(inport, sched, msg, now, made);
    }

    /** Sends one sub-request; `again` says that the trigger is scheduled once more. */
    method StorageReqTrigger(now: int) returns (req: Option<(nat, Protocol.Sub)>, again: bool)
      requires Valid()
      modifies Repr
      ensures Valid() && fresh(Repr - old(Repr))
      ensures req.None? <==> old(View().sched) == map[]
      ensures req.None? ==> View() == old(View())
      ensures req.Some? ==>
                var id := Min(old(View().sched).Keys);
                && req.value == (id, old(View().sched)[id])
                && View() == old(View()).(sched := Drop(old(View().sched), id),
                                          out := PutIfAbsent(old(View().out), id, req.value.1))
      ensures again <==> View().sched != map[]
    {
      hide Queue.Valid, Map.Valid, Drop, PutIfAbsent;
      req, again := None, false;
      var con, processor := FindScheduler(connectors, Setup(), storageReqTrigger);
      if processor == SendToDisk && con == workerCon {
        req := ScheduleDiskRequest(sched, outport, now);
        Repr := Repr + outport.Repr;
        var empty := IsEmpty(sched);
        again := !empty;
      }
    }

    /** Takes the worker's answer to a sub-request. */
    method WorkstreamRsp(id: nat, now: int) returns (reply: Option<Reply>)
      requires Valid()
      requires View().out == map[] ||
               (id in View().out && View().out[id].parent in View().queue
                && Protocol.ShiftDefined(View().queue, View().out[id].parent, View().out[id].lbn))
      modifies Repr
      ensures Valid() && Repr == old(Repr)
      ensures reply.None? <==> old(View().out) == map[]
      ensures reply.None? ==> View() == old(View())
      ensures reply.Some? ==>
                var sub := old(View().out)[id];
                && View() == old(View()).(out := Drop(old(View().out), id),
                                          queue := Protocol.TickOff(old(View().queue), sub.parent, sub.lbn))
                && reply.value.interim == Protocol.InterimMsg(sub.parent, sub.lbn)
                && reply.value.batch == Protocol.AnswerIfDone(old(View().queue), sub.parent, sub.lbn, None)
    {
      hide Queue.Valid, Map.Valid, Drop, Protocol.TickOff, Protocol.AnswerIfDone;
      reply := None;
      var con, processor, linked := FindInput(connectors, Setup(), workstreamRsp);
      if processor == TakeDiskResponse && con == workerCon && linked == clientCon {
        reply := ProcessDiskResponse(outport, inport, id, now);
      }
    }
  }

  // ---- worker ----

  class Worker {
    const task: nat
    const fetchPage: nat
    const connector: nat
    const connectors: Map
    const inport: Queue<nat>
    ghost var Repr: set<object>

    function Setup(): map<nat, Connector> {
      map[connector := Connector(FinishDelay, Input(task, QueueTask), NO_INPUT, NULL)]
    }

    ghost predicate Valid()
      reads this, Repr
      ensures Valid() ==> this in Repr
    {
      && this in Repr && connectors in Repr && connectors.elements in Repr && inport in Repr && inport.Repr <= Repr
      && inport.Valid() && connectors.Valid()
      && this !in inport.Repr && Apart(connectors, inport.Repr)
      && Wired(connectors.contents, task, connector)
      && Wired(connectors.contents, fetchPage, connector)
    }

    ghost function View(): map<nat, nat>
      requires Valid()
      reads this, Repr
    {
      Data(inport)
    }

    constructor (task: nat, fetchPage: nat, connector: nat)
      requires task != fetchPage && connector != NULL
      ensures Valid() && fresh(Repr)
      ensures View() == map[]
    {
      hide Map.Valid;
      this.task, this.fetchPage, this.connector := task, fetchPage, connector;
      var table := Connect(task, connector, fetchPage, connector);
      connectors := table;
      var q := NewQueue();
      inport := q;
      Repr := {this, table, table.elements} + q.Repr;
    }

    /** Queues a block to read; its `fetch_page` event is the returned id. */
    method Task(msg: Protocol.TaskMsg, now: int) returns (event: Option<nat>)
      requires Valid()
      modifies Repr
      ensures Valid() && fresh(Repr - old(Repr))
      ensures event == Some(msg.id)
      ensures View() == PutIfAbsent(old(View()), msg.id, msg.lbn)
    {
      hide Queue.Valid, Map.Valid, Drop, PutIfAbsent;
      event := None;
      var con, processor, _ := FindInput(connectors, Setup(), task);
      if processor == QueueTask && con == connector {
        EnqueueTask(inport, msg, now);
        event := Some(msg.id);
        Repr := Repr + inport.Repr;
      }
    }

    /** The read has taken its time: answers it. */
    method FetchPage(id: nat, now: int) returns (result: Option<nat>)
      requires Valid()
      modifies Repr
      ensures Valid() && Repr == old(Repr)
      ensures result == if id in old(View()) then Some(id) else None
      ensures View() == if result.Some? then Drop(old(View()), id) else old(View())
    {
      hide Queue.Valid, Map.Valid, Drop;
      result := None;
      var con, processor := FindScheduler(connectors, Setup(), fetchPage);
      if processor == FinishDelay && con == connector {
        var found := EmulateDelay(inport, id, now);
        result := if found then Some(id) else None;
      }
    }
  }
}
