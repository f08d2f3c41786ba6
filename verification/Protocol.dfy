/**
 The batched request/response protocol as a state machine, one step per reaction.

 A step is one reaction of `client`, `dispatcher` or `worker` together with the handler it
 dispatches to. Ports are optional slots; pending `fetch_page` events are a multiset from which
 any event may be delivered; the pending events of the two argument-less actions are counters.
 A reaction fires only when the ports it writes are free, which every schedule of the reactor
 runtime satisfies (`Schedule.TagIsRun`).

 Queues are finite maps from id to data here; `PriorityQueue.Queue` is the linked list behind them.
 Masks are sets of bit positions; `Bitmask` ties them to the 32-bit words.
 */
module Protocol {
  import opened Basics
  import opened Collections

  // A shift `1 << n` of a C int is defined for n below 31 only.
  const SHIFT_LIMIT: nat := 31

  const MAX_LEN: nat := 10

  /** A `cache__ctrl__req` without its id: first block, block count, blocks still missing. */
  datatype Req = Req(lbn: nat, len: nat, mask: set<nat>)

  /** A `ctrl__storage__q_ent` without its id: the request it belongs to and its block. */
  datatype Sub = Sub(parent: nat, lbn: nat)

  datatype BatchMsg = BatchMsg(id: nat, req: Req)
  datatype TaskMsg = TaskMsg(id: nat, lbn: nat)
  datatype InterimMsg = InterimMsg(id: nat, lbn: nat)

  /** What the client has seen, in order: a block filled in, or a request finished. */
  datatype Event = Filled(id: nat, lbn: nat) | Finished(id: nat)

  datatype State = State(
    // client
    totalRefs: nat,
    baseLbn: nat,
    refCounter: nat,
    terminate: bool,
    stopRequested: bool,
    schRef: nat,                  // pending sch_ref events
    clientNext: nat,              // next id of the client's output queue
    clientQ: map<nat, Req>,       // the client's output queue
    // dispatcher
    inQ: map<nat, Req>,           // input queue of the connector towards the client
    subNext: nat,                 // next id of the scheduler queue
    schedQ: map<nat, Sub>,        // scheduler queue
    outQ: map<nat, Sub>,          // output queue of the connector towards the worker
    trigger: nat,                 // pending storage_req_trigger events
    // worker
    workQ: map<nat, nat>,         // input queue: task id to block
    fetch: multiset<nat>,         // pending fetch_page events
    // ports
    batchReq: Option<BatchMsg>,
    task: Option<TaskMsg>,
    result: Option<nat>,
    interim: Option<InterimMsg>,
    batchRsp: Option<nat>,
    // error paths taken: a handler returned a negative value, or "BITMASK not ZERO" was logged
    errors: nat,
    // history, read by no step
    issued: seq<Req>,             // requests in issue order
    created: seq<Sub>,            // sub-requests in creation order
    sent: seq<Sub>,               // sub-requests in the order they went to the worker
    log: seq<Event>)

  datatype Label =
    | SchRef(len: nat)
    | BatchRequest
    | StorageReqTrigger
    | Task
    | FetchPage(id: nat)
    | WorkstreamRsp
    | InterimRsp
    | BatchRsp

  /** `Fault` stands for a NULL dereference or an undefined shift in the C code. */
  datatype Outcome = Ran(s: State) | Fault

  /** How many requests a client issues: one even if asked for none. */
  function Requests(totalRefs: nat): nat {
    if totalRefs == 0 then 1 else totalRefs
  }

  predicate Init(s: State) {
    && s == State(s.totalRefs, s.baseLbn, 0, false, false, 1, 0, map[],
                  map[], 0, map[], map[], 0,
                  map[], multiset{},
                  None, None, None, None, None,
                  0, [], [], [], [])
    && MAX_LEN * (s.totalRefs + 1) < UINT32
  }

  /** A stop request disables nothing: the runtime still executes the rest of the tag and the next microstep. */
  predicate Enabled(s: State, l: Label) {
    match l
    case SchRef(len) => s.schRef > 0 && 1 <= len <= MAX_LEN && s.batchReq.None?
    case BatchRequest => s.batchReq.Some?
    case StorageReqTrigger => s.trigger > 0 && s.task.None?
    case Task => s.task.Some?
    case FetchPage(id) => id in s.fetch && s.result.None?
    case WorkstreamRsp => s.result.Some? && s.interim.None? && s.batchRsp.None?
    case InterimRsp => s.interim.Some?
    case BatchRsp => s.batchRsp.Some? && s.interim.None?
  }

  ghost function Step(s: State, l: Label): Outcome
    requires Enabled(s, l)
  {
    match l
    case SchRef(len) => Ran(ScheduleReference(s, len))
    case BatchRequest => Ran(ProcessBatchRequest(s))
    case StorageReqTrigger => Ran(ScheduleDiskRequest(s))
    case Task => Ran(EnqueueTask(s))
    case FetchPage(id) => Ran(EmulateDelay(s, id))
    case WorkstreamRsp => ProcessDiskResponse(s)
    case InterimRsp => ClientInterimResponse(s)
    case BatchRsp => Ran(ClientResponse(s))
  }

  ghost predicate Next(s: State, s': State) {
    exists l :: Enabled(s, l) && Step(s, l) == Ran(s')
  }

  /** The mask of a request none of whose `len` blocks has arrived. */
  function Full(len: nat): set<nat> {
    Interval(0, len)
  }

  // ---- handlers ----

  function ScheduleReference(s: State, len: nat): State
    requires Enabled(s, SchRef(len))
  {
    var req := Req(s.baseLbn, len, Full(len));
    var last := s.refCounter + 1 >= s.totalRefs;
    s.(clientNext := (s.clientNext + 1) % UINT32,
       clientQ := PutIfAbsent(s.clientQ, s.clientNext, req),
       batchReq := Some(BatchMsg(s.clientNext, req)),
       refCounter := s.refCounter + 1,
       terminate := s.terminate || last,
       schRef := if last then s.schRef - 1 else s.schRef,
       issued := s.issued + [req])
  }

  /** The scheduler queue, its id counter and the history of created sub-requests. */
  datatype Split = Split(schedQ: map<nat, Sub>, subNext: nat, created: seq<Sub>)

  function SplitBit(p: Split, sub: Sub): Split {
    Split(PutIfAbsent(p.schedQ, p.subNext, sub), (p.subNext + 1) % UINT32, p.created + [sub])
  }

  /** The shift loop of `process_batch_request`: one sub-request per set bit, lowest first. */
  ghost function SplitMask(p: Split, id: nat, lbn: nat, bits: set<nat>): Split
    decreases bits
  {
    if bits == {} then p
    else
      var bit := Min(bits);
      SplitMask(SplitBit(p, Sub(id, lbn + bit)), id, lbn, bits - {bit})
  }

  /** The trigger is scheduled for a new batch if the scheduler queue was empty before it. */
  function WakeIfIdle(schedQ: map<nat, Sub>, trigger: nat): nat {
    if schedQ == map[] then trigger + 1 else trigger
  }

  /** After firing, the trigger is scheduled again if the scheduler queue is not empty. */
  function RearmIfWork(schedQ: map<nat, Sub>, trigger: nat): nat {
    if schedQ == map[] then trigger else trigger + 1
  }

  ghost function ProcessBatchRequest(s: State): State
    requires Enabled(s, BatchRequest)
  {
    var BatchMsg(id, req) := s.batchReq.value;
    var p := SplitMask(Split(s.schedQ, s.subNext, s.created), id, req.lbn, req.mask);
    s.(batchReq := None,
       inQ := PutIfAbsent(s.inQ, id, req),
       schedQ := p.schedQ,
       subNext := p.subNext,
       created := p.created,
       trigger := WakeIfIdle(s.schedQ, s.trigger))
  }

  ghost function ScheduleDiskRequest(s: State): State
    requires Enabled(s, StorageReqTrigger)
  {
    if s.schedQ == map[] then
      s.(trigger := s.trigger - 1)
    else
      var id := Min(s.schedQ.Keys);
      var sub := s.schedQ[id];
      var rest := Drop(s.schedQ, id);
      s.(schedQ := rest,
         outQ := PutIfAbsent(s.outQ, id, sub),
         task := Some(TaskMsg(id, sub.lbn)),
         sent := s.sent + [sub],
         trigger := RearmIfWork(rest, s.trigger - 1))
  }

  function EnqueueTask(s: State): State
    requires Enabled(s, Task)
  {
    var TaskMsg(id, lbn) := s.task.value;
    s.(task := None,
       workQ := PutIfAbsent(s.workQ, id, lbn),
       fetch := s.fetch + multiset{id})
  }

  function EmulateDelay(s: State, id: nat): State
    requires Enabled(s, FetchPage(id))
  {
    var fetch := s.fetch - multiset{id};
    if id in s.workQ then
      s.(fetch := fetch, workQ := Drop(s.workQ, id), result := Some(id))
    else
      s.(fetch := fetch, errors := s.errors + 1)
  }

  /** Block `lbn` leaves the mask of request `id`; a request with an empty mask leaves the queue. */
  function TickOff(inQ: map<nat, Req>, id: nat, lbn: nat): map<nat, Req>
    requires id in inQ && lbn >= inQ[id].lbn
  {
    var mask := inQ[id].mask - {lbn - inQ[id].lbn};
    if mask == {} then Drop(inQ, id) else inQ[id := inQ[id].(mask := mask)]
  }

  /** The `batch_response` port after that. */
  function AnswerIfDone(inQ: map<nat, Req>, id: nat, lbn: nat, batchRsp: Option<nat>): Option<nat>
    requires id in inQ && lbn >= inQ[id].lbn
  {
    if inQ[id].mask - {lbn - inQ[id].lbn} == {} then Some(id) else batchRsp
  }

  function ProcessDiskResponse(s: State): Outcome
    requires Enabled(s, WorkstreamRsp)
  {
    var id := s.result.value;
    if s.outQ == map[] then Ran(s.(result := None, errors := s.errors + 1))
    else if id !in s.outQ || s.outQ[id].parent !in s.inQ then Fault
    else
      var sub := s.outQ[id];
      if !ShiftDefined(s.inQ, sub.parent, sub.lbn) then Fault
      else
        Ran(s.(result := None,
               outQ := Drop(s.outQ, id),
               interim := Some(InterimMsg(sub.parent, sub.lbn)),
               batchRsp := AnswerIfDone(s.inQ, sub.parent, sub.lbn, s.batchRsp),
               inQ := TickOff(s.inQ, sub.parent, sub.lbn)))
  }

  /** Whether `1 << (lbn - req->lbn)` is a defined shift. */
  predicate ShiftDefined(q: map<nat, Req>, id: nat, lbn: nat)
    requires id in q
  {
    q[id].lbn <= lbn < q[id].lbn + SHIFT_LIMIT
  }

  /** Block `lbn` leaves the client's mask of request `id`, which stays queued whatever is left. */
  function Fill(clientQ: map<nat, Req>, id: nat, lbn: nat): map<nat, Req>
    requires id in clientQ && lbn >= clientQ[id].lbn
  {
    clientQ[id := clientQ[id].(mask := clientQ[id].mask - {lbn - clientQ[id].lbn})]
  }

  function ClientInterimResponse(s: State): Outcome
    requires Enabled(s, InterimRsp)
  {
    var InterimMsg(id, lbn) := s.interim.value;
    // the request is printed before it is compared with NULL
    if id !in s.clientQ || !ShiftDefined(s.clientQ, id, lbn) then Fault
    else
      Ran(s.(interim := None,
             clientQ := Fill(s.clientQ, id, lbn),
             log := s.log + [Filled(id, lbn)]))
  }

  /** "BITMASK not ZERO" is logged for a request finished with blocks missing; the request is dropped all the same. */
  function Complaints(req: Req): nat {
    if req.mask == {} then 0 else 1
  }

  function ClientResponse(s: State): State
    requires Enabled(s, BatchRsp)
  {
    var id := s.batchRsp.value;
    if id !in s.clientQ then s.(batchRsp := None, stopRequested := s.terminate, errors := s.errors + 1)
    else
      s.(batchRsp := None,
         stopRequested := s.terminate,
         clientQ := Drop(s.clientQ, id),
         log := s.log + [Finished(id)],
         errors := s.errors + Complaints(s.clientQ[id]))
  }
}
