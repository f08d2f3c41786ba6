/**
 Multiply-accumulate through two services that answer late, in any order, or not at all: requests
 carry uids from a counter per request type, and context managers recall by uid what was asked.
 */
module Mac {
  import opened Basics
  import opened Collections

  datatype MacData = MacData(factor1: int, factor2: int, summand: int)

  datatype Request<T> = Request(uid: nat, data: T)

  datatype Response = Response(uid: nat, data: int)

  type MacReq = Request<MacData>
  type PairReq = Request<(int, int)>

  /** A message with its context. */
  datatype With<M, C> = With(msg: M, ctx: C)

  datatype Service = Multiply | Add

  function Result(k: Service, pair: (int, int)): int {
    match k
    case Multiply => pair.0 * pair.1
    case Add => pair.0 + pair.1
  }

  function MakeResponse<T>(r: Request<T>, data: int): Response {
    Response(r.uid, data)
  }

  /** What a default-constructed `Request<MACData>` is. */
  const DEFAULT: MacReq := Request(0, MacData(0, 0, 0))

  // ---- one service with the context manager in front of it ----

  /** The context buffer, the ports around the manager, and the service's pending events. */
  datatype Stage = Stage(
    buffer: map<nat, MacReq>,
    requestIn: Option<With<PairReq, MacReq>>,
    request: Option<PairReq>,
    events: seq<PairReq>,
    response: Option<Response>,
    responseOut: Option<With<Response, MacReq>>)

  datatype StageLabel = Store | Queue | Serve(i: nat) | Lose(i: nat) | Recall

  predicate StageEnabled(st: Stage, l: StageLabel) {
    match l
    case Store => st.requestIn.Some? && st.request.None?
    case Queue => st.request.Some?
    case Serve(i) => i < |st.events| && st.response.None?
    case Lose(i) => i < |st.events|
    case Recall => st.response.Some? && st.responseOut.None?
  }

  function StageStep(k: Service, st: Stage, l: StageLabel): Stage
    requires StageEnabled(st, l)
  {
    match l
    case Store =>
      var With(req, ctx) := st.requestIn.value;
      st.(requestIn := None, buffer := st.buffer[req.uid := ctx], request := Some(req))
    case Queue => st.(request := None, events := st.events + [st.request.value])
    case Serve(i) =>
      var req := st.events[i];
      st.(events := Without(st.events, i), response := Some(MakeResponse(req, Result(k, req.data))))
    case Lose(i) => st.(events := Without(st.events, i))
    case Recall =>
      // a uid that is not in the buffer is entered with a default context
      var resp := st.response.value;
      var ctx := Lookup(st.buffer, resp.uid, DEFAULT);
      st.(response := None, buffer := st.buffer[resp.uid := ctx], responseOut := Some(With(resp, ctx)))
  }

  function Lookup<C>(buffer: map<nat, C>, uid: nat, default: C): C {
    if uid in buffer then buffer[uid] else default
  }

  // ---- the system ----

  datatype State = State(
    counter: int,
    macNext: nat,                                  // next uid of a Request<MACData>
    pairNext: nat,                                 // next uid of a Request<pair<int, int>>
    buffer: map<nat, MacData>,                     // the client's context manager
    requestIn: Option<With<MacReq, MacData>>,
    request: Option<MacReq>,
    mul: Stage,
    add: Stage,
    response: Option<Response>,
    responseOut: Option<With<Response, MacData>>,
    // history
    issued: seq<MacData>,
    results: seq<With<Response, MacData>>,
    lost: seq<nat>)                                // uids of the requests whose event was lost

  datatype Label =
    | Timer
    | ClientStore
    | Split
    | MulStage(l: StageLabel)
    | MulDone
    | AddStage(l: StageLabel)
    | AddDone
    | ClientRecall
    | Print

  const EMPTY: Stage := Stage(map[], None, None, [], None, None)

  const INIT: State := State(0, 1, 1, map[], None, None, EMPTY, EMPTY, None, None, [], [], [])

  /** A reaction fires when its trigger is present and the port it writes is free, and uids have not run out. */
  predicate Enabled(s: State, l: Label) {
    match l
    case Timer => s.requestIn.None? && s.macNext + 1 < UINT64
    case ClientStore => s.requestIn.Some? && s.request.None?
    case Split => s.request.Some? && s.mul.requestIn.None? && s.pairNext + 1 < UINT64
    case MulStage(l) => StageEnabled(s.mul, l)
    case MulDone => s.mul.responseOut.Some? && s.add.requestIn.None? && s.pairNext + 1 < UINT64
    case AddStage(l) => StageEnabled(s.add, l)
    case AddDone => s.add.responseOut.Some? && s.response.None?
    case ClientRecall => s.response.Some? && s.responseOut.None?
    case Print => s.responseOut.Some?
  }

  function TimerStep(s: State): State {
    var data := MacData(s.counter, s.counter + 1, s.counter + 2);
    s.(counter := s.counter + 1,
       macNext := (s.macNext + 1) % UINT64,
       requestIn := Some(With(Request(s.macNext, data), data)),
       issued := s.issued + [data])
  }

  function ClientStoreStep(s: State): State
    requires s.requestIn.Some?
  {
    var With(req, ctx) := s.requestIn.value;
    s.(requestIn := None, buffer := s.buffer[req.uid := ctx], request := Some(req))
  }

  function SplitStep(s: State): State
    requires s.request.Some?
  {
    var original := s.request.value;
    var multiply := Request(s.pairNext, (original.data.factor1, original.data.factor2));
    s.(request := None,
       pairNext := (s.pairNext + 1) % UINT64,
       mul := s.mul.(requestIn := Some(With(multiply, original))))
  }

  function MulDoneStep(s: State): State
    requires s.mul.responseOut.Some?
  {
    var With(resp, original) := s.mul.responseOut.value;
    var add := Request(s.pairNext, (resp.data, original.data.summand));
    s.(mul := s.mul.(responseOut := None),
       pairNext := (s.pairNext + 1) % UINT64,
       add := s.add.(requestIn := Some(With(add, original))))
  }

  function AddDoneStep(s: State): State
    requires s.add.responseOut.Some?
  {
    var With(resp, original) := s.add.responseOut.value;
    s.(add := s.add.(responseOut := None), response := Some(MakeResponse(original, resp.data)))
  }

  function ClientRecallStep(s: State): State
    requires s.response.Some?
  {
    var resp := s.response.value;
    var ctx := Lookup(s.buffer, resp.uid, DEFAULT.data);
    s.(response := None, buffer := s.buffer[resp.uid := ctx], responseOut := Some(With(resp, ctx)))
  }

  function PrintStep(s: State): State
    requires s.responseOut.Some?
  {
    s.(responseOut := None, results := s.results + [s.responseOut.value])
  }

  /** The history notes whose event is lost. */
  function Losses(st: Stage, l: StageLabel, lost: seq<nat>): seq<nat>
    requires StageEnabled(st, l)
  {
    if l.Lose? then lost + [Origin(st.buffer, st.events[l.i].uid)] else lost
  }

  function Step(s: State, l: Label): State
    requires Enabled(s, l)
  {
    match l
    case Timer => TimerStep(s)
    case ClientStore => ClientStoreStep(s)
    case Split => SplitStep(s)
    case MulStage(l) => s.(mul := StageStep(Multiply, s.mul, l), lost := Losses(s.mul, l, s.lost))
    case MulDone => MulDoneStep(s)
    case AddStage(l) => s.(add := StageStep(Add, s.add, l), lost := Losses(s.add, l, s.lost))
    case AddDone => AddDoneStep(s)
    case ClientRecall => ClientRecallStep(s)
    case Print => PrintStep(s)
  }

  ghost predicate ReachableIn(s: State, n: nat)
    decreases n
  {
    if n == 0 then s == INIT
    else exists s0, l :: ReachableIn(s0, n - 1) && Enabled(s0, l) && s == Step(s0, l)
  }

  ghost predicate Reachable(s: State) {
    exists n :: ReachableIn(s, n)
  }

  lemma Extend(s: State, l: Label)
    requires Reachable(s) && Enabled(s, l)
    ensures Reachable(Step(s, l))
  {
    var n: nat :| ReachableIn(s, n);
    var m: nat := n + 1;
    assert ReachableIn(Step(s, l), m);
  }

  /** Uids are handed out one by one: a pair request is made at exactly two places, each time under the next uid. */
  lemma PairUids(s: State, l: Label)
    requires Enabled(s, l)
    ensures Step(s, l).pairNext == if l.Split? || l.MulDone? then s.pairNext + 1 else s.pairNext
    ensures l.Split? ==> Step(s, l).mul.requestIn.Some? && Step(s, l).mul.requestIn.value.msg.uid == s.pairNext
    ensures l.MulDone? ==> Step(s, l).add.requestIn.Some? && Step(s, l).add.requestIn.value.msg.uid == s.pairNext
  {
  }

  // ---- the invariant: every message is about a request that was issued ----

  /** The request is in the client's buffer, as it was issued. */
  ghost predicate Known(o: MacReq, buffer: map<nat, MacData>) {
    o.uid in buffer && buffer[o.uid] == o.data
  }

  /** What a service is asked on behalf of a request, and what it must answer. */
  function Asked(k: Service, d: MacData): (int, int) {
    match k
    case Multiply => (d.factor1, d.factor2)
    case Add => (d.factor1 * d.factor2, d.summand)
  }

  function Answered(k: Service, d: MacData): int {
    match k
    case Multiply => d.factor1 * d.factor2
    case Add => d.factor1 * d.factor2 + d.summand
  }

  ghost predicate AsksRight(k: Service, r: PairReq, buffer: map<nat, MacReq>) {
    r.uid in buffer && r.data == Asked(k, buffer[r.uid].data)
  }

  ghost predicate StageOk(k: Service, st: Stage, buffer: map<nat, MacData>, pairNext: nat) {
    && (forall v | v in st.buffer :: v < pairNext && Known(st.buffer[v], buffer))
    && (st.requestIn.Some? ==>
          var With(req, o) := st.requestIn.value;
          req.uid < pairNext && req.uid !in st.buffer && Known(o, buffer) && req.data == Asked(k, o.data))
    && (st.request.Some? ==> AsksRight(k, st.request.value, st.buffer))
    && (forall i | 0 <= i < |st.events| :: AsksRight(k, st.events[i], st.buffer))
    && (st.response.Some? ==>
          && st.response.value.uid in st.buffer
          && st.response.value.data == Answered(k, st.buffer[st.response.value.uid].data))
    && (st.responseOut.Some? ==>
          var With(resp, o) := st.responseOut.value;
          Known(o, buffer) && resp.data == Answered(k, o.data))
  }

  ghost predicate Issued(uid: nat, data: MacData, issued: seq<MacData>) {
    1 <= uid <= |issued| && data == issued[uid - 1]
  }

  /** The n-th question the client asks is n * (n + 1) + (n + 2). */
  ghost predicate Asks(counter: int, issued: seq<MacData>) {
    counter == |issued| && forall i | 0 <= i < |issued| :: issued[i] == MacData(i, i + 1, i + 2)
  }

  ghost predicate ClientOk(s: State) {
    && s.macNext == |s.issued| + 1
    && Asks(s.counter, s.issued)
    && (forall u | u in s.buffer :: Issued(u, s.buffer[u], s.issued))
    && (s.requestIn.Some? ==>
          var With(req, ctx) := s.requestIn.value;
          Issued(req.uid, req.data, s.issued) && ctx == req.data)
    && (s.request.Some? ==> Known(s.request.value, s.buffer))
    && (s.response.Some? ==>
          && s.response.value.uid in s.buffer
          && s.response.value.data == Answered(Add, s.buffer[s.response.value.uid]))
    && (s.responseOut.Some? ==> ResultOk(s.responseOut.value, s.issued))
    && (forall i | 0 <= i < |s.results| :: ResultOk(s.results[i], s.issued))
  }

  /** A result is about an issued request, under its uid, with its data as the context, and right. */
  ghost predicate ResultOk(r: With<Response, MacData>, issued: seq<MacData>) {
    && Issued(r.msg.uid, r.ctx, issued)
    && r.msg.data == r.ctx.factor1 * r.ctx.factor2 + r.ctx.summand
  }

  // ---- conservation: every issued request is in one place ----

  /** The uid of the request that a pair request with uid `v` was made for. */
  function Origin(buffer: map<nat, MacReq>, v: nat): nat {
    Lookup(buffer, v, DEFAULT).uid
  }

  function OriginsOf(events: seq<PairReq>, buffer: map<nat, MacReq>): seq<nat> {
    seq(|events|, i requires 0 <= i < |events| => Origin(buffer, events[i].uid))
  }

  function UidsOf(results: seq<With<Response, MacData>>): seq<nat> {
    seq(|results|, i requires 0 <= i < |results| => results[i].msg.uid)
  }

  function Has(present: bool): nat {
    if present then 1 else 0
  }

  ghost function EventPlaces(events: seq<PairReq>, buffer: map<nat, MacReq>, u: nat): nat {
    multiset(OriginsOf(events, buffer))[u]
  }

  /** How often a stage holds a message made for request `u`. */
  ghost function StagePlaces(st: Stage, u: nat): nat {
    Has(st.requestIn.Some? && st.requestIn.value.ctx.uid == u)
    + Has(st.request.Some? && Origin(st.buffer, st.request.value.uid) == u)
    + EventPlaces(st.events, st.buffer, u)
    + Has(st.response.Some? && Origin(st.buffer, st.response.value.uid) == u)
    + Has(st.responseOut.Some? && st.responseOut.value.ctx.uid == u)
  }

  /** How often the client's side holds or held one. */
  ghost function ClientPlaces(s: State, u: nat): nat {
    Has(s.requestIn.Some? && s.requestIn.value.msg.uid == u)
    + Has(s.request.Some? && s.request.value.uid == u)
    + Has(s.response.Some? && s.response.value.uid == u)
    + Has(s.responseOut.Some? && s.responseOut.value.msg.uid == u)
    + multiset(UidsOf(s.results))[u]
  }

  ghost function Places(s: State, u: nat): nat {
    ClientPlaces(s, u) + StagePlaces(s.mul, u) + StagePlaces(s.add, u) + multiset(s.lost)[u]
  }

  ghost predicate Conserved(s: State) {
    forall u: nat :: Places(s, u) == Has(1 <= u <= |s.issued|)
  }

  ghost predicate Inv(s: State) {
    && ClientOk(s)
    && StageOk(Multiply, s.mul, s.buffer, s.pairNext)
    && StageOk(Add, s.add, s.buffer, s.pairNext)
    && Conserved(s)
  }

  lemma InitOk()
    ensures Inv(INIT)
  {
    forall u: nat ensures Places(INIT, u) == 0 {
      assert OriginsOf([], map[]) == [] && UidsOf([]) == [];
    }
  }

  // ---- the steps of a stage ----

  /** Buffers only grow. */
  ghost predicate Grows<C>(before: map<nat, C>, after: map<nat, C>) {
    forall u | u in before :: u in after && after[u] == before[u]
  }

  lemma StageStepOk(k: Service, st: Stage, buffer: map<nat, MacData>, pairNext: nat, l: StageLabel)
    requires StageOk(k, st, buffer, pairNext) && StageEnabled(st, l)
    ensures StageOk(k, StageStep(k, st, l), buffer, pairNext)
  {
  }

  lemma StageGrows(k: Service, st: Stage, buffer: map<nat, MacData>, buffer': map<nat, MacData>, pairNext: nat,
                   pairNext': nat)
    requires StageOk(k, st, buffer, pairNext) && Grows(buffer, buffer') && pairNext <= pairNext'
    ensures StageOk(k, st, buffer', pairNext')
  {
  }

  lemma EventAdded(events: seq<PairReq>, r: PairReq, buffer: map<nat, MacReq>, u: nat)
    ensures EventPlaces(events + [r], buffer, u) == EventPlaces(events, buffer, u) + Has(Origin(buffer, r.uid) == u)
  {
    assert OriginsOf(events + [r], buffer) == OriginsOf(events, buffer) + [Origin(buffer, r.uid)];
  }

  lemma EventRemoved(events: seq<PairReq>, i: nat, buffer: map<nat, MacReq>, u: nat)
    requires i < |events|
    ensures EventPlaces(events, buffer, u)
            == EventPlaces(Without(events, i), buffer, u) + Has(Origin(buffer, events[i].uid) == u)
  {
    assert OriginsOf(Without(events, i), buffer) == Without(OriginsOf(events, buffer), i);
    WithoutOne(OriginsOf(events, buffer), i);
  }

  /** Entering a new uid makes no event about another request. */
  lemma EventsStay(events: seq<PairReq>, buffer: map<nat, MacReq>, v: nat, o: MacReq, u: nat)
    requires v !in buffer && forall i | 0 <= i < |events| :: events[i].uid in buffer
    ensures EventPlaces(events, buffer[v := o], u) == EventPlaces(events, buffer, u)
  {
    assert OriginsOf(events, buffer[v := o]) == OriginsOf(events, buffer);
  }

  /** A message moves on within the stage, or is lost. */
  lemma StageMoves(k: Service, st: Stage, buffer: map<nat, MacData>, pairNext: nat, l: StageLabel, lost: seq<nat>,
                   u: nat)
    requires StageOk(k, st, buffer, pairNext) && StageEnabled(st, l)
    ensures StagePlaces(StageStep(k, st, l), u) + multiset(Losses(st, l, lost))[u]
            == StagePlaces(st, u) + multiset(lost)[u]
  {
    hide EventPlaces;
    match l
    case Store =>
      EventsStay(st.events, st.buffer, st.requestIn.value.msg.uid, st.requestIn.value.ctx, u);
    case Queue =>
      EventAdded(st.events, st.request.value, st.buffer, u);
    case Serve(i) =>
      EventRemoved(st.events, i, st.buffer, u);
    case Lose(i) =>
      EventRemoved(st.events, i, st.buffer, u);
    case Recall =>
      assert StageStep(k, st, l).buffer == st.buffer;
  }

  // ---- every step keeps the invariant ----

  lemma TimerKeeps(s: State)
    requires Inv(s) && Enabled(s, Timer)
    ensures Inv(TimerStep(s))
  {
    hide StageOk, StagePlaces;
    var s' := TimerStep(s);
    forall u: nat ensures Places(s', u) == Has(1 <= u <= |s'.issued|) {
      assert Places(s, u) == Has(1 <= u <= |s.issued|);
    }
  }

  lemma ClientStoreConserves(s: State)
    requires Conserved(s) && Enabled(s, ClientStore)
    ensures Conserved(ClientStoreStep(s))
  {
    hide StagePlaces;
    var s' := ClientStoreStep(s);
    forall u: nat ensures Places(s', u) == Has(1 <= u <= |s'.issued|) {
      assert Places(s, u) == Has(1 <= u <= |s.issued|);
    }
  }

  lemma ClientStoreKeeps(s: State)
    requires Inv(s) && Enabled(s, ClientStore)
    ensures Inv(ClientStoreStep(s))
  {
    var s' := ClientStoreStep(s);
    assert Grows(s.buffer, s'.buffer);
    ClientStoreConserves(s);
    StageGrows(Multiply, s.mul, s.buffer, s'.buffer, s.pairNext, s.pairNext);
    StageGrows(Add, s.add, s.buffer, s'.buffer, s.pairNext, s.pairNext);
    hide StageOk, Conserved;
  }

  lemma StageAsked(k: Service, st: Stage, buffer: map<nat, MacData>, pairNext: nat, o: MacReq, r: PairReq)
    requires StageOk(k, st, buffer, pairNext) && st.requestIn.None? && Known(o, buffer)
    requires r.uid == pairNext && r.data == Asked(k, o.data)
    ensures StageOk(k, st.(requestIn := Some(With(r, o))), buffer, pairNext + 1)
    ensures forall u: nat :: StagePlaces(st.(requestIn := Some(With(r, o))), u) == StagePlaces(st, u) + Has(o.uid == u)
  {
    hide EventPlaces;
  }

  lemma StageAnswered(k: Service, st: Stage, buffer: map<nat, MacData>, pairNext: nat)
    requires StageOk(k, st, buffer, pairNext) && st.responseOut.Some?
    ensures StageOk(k, st.(responseOut := None), buffer, pairNext)
    ensures var With(resp, o) := st.responseOut.value;
            && Known(o, buffer) && resp.data == Answered(k, o.data)
            && forall u: nat :: StagePlaces(st.(responseOut := None), u) == StagePlaces(st, u) - Has(o.uid == u)
  {
    hide EventPlaces;
  }

  lemma SplitConserves(s: State)
    requires Conserved(s) && Enabled(s, Split)
    requires forall u: nat :: StagePlaces(SplitStep(s).mul, u) == StagePlaces(s.mul, u) + Has(s.request.value.uid == u)
    ensures Conserved(SplitStep(s))
  {
    hide StagePlaces;
    var s' := SplitStep(s);
    forall u: nat ensures Places(s', u) == Has(1 <= u <= |s'.issued|) {
      assert Places(s, u) == Has(1 <= u <= |s.issued|);
    }
  }

  lemma SplitKeeps(s: State)
    requires Inv(s) && Enabled(s, Split)
    ensures Inv(SplitStep(s))
  {
    var o := s.request.value;
    StageAsked(Multiply, s.mul, s.buffer, s.pairNext, o, Request(s.pairNext, Asked(Multiply, o.data)));
    StageGrows(Add, s.add, s.buffer, s.buffer, s.pairNext, s.pairNext + 1);
    hide StageOk, StagePlaces, Conserved;
    SplitConserves(s);
  }

  lemma MulDoneConserves(s: State)
    requires Conserved(s) && Enabled(s, MulDone)
    requires forall u: nat ::
               && StagePlaces(MulDoneStep(s).mul, u)
                  == StagePlaces(s.mul, u) - Has(s.mul.responseOut.value.ctx.uid == u)
               && StagePlaces(MulDoneStep(s).add, u)
                  == StagePlaces(s.add, u) + Has(s.mul.responseOut.value.ctx.uid == u)
    ensures Conserved(MulDoneStep(s))
  {
    hide StagePlaces;
    var s' := MulDoneStep(s);
    forall u: nat ensures Places(s', u) == Has(1 <= u <= |s'.issued|) {
      assert Places(s, u) == Has(1 <= u <= |s.issued|);
    }
  }

  lemma MulDoneKeeps(s: State)
    requires Inv(s) && Enabled(s, MulDone)
    ensures Inv(MulDoneStep(s))
  {
    var o := s.mul.responseOut.value.ctx;
    StageAnswered(Multiply, s.mul, s.buffer, s.pairNext);
    StageGrows(Multiply, s.mul.(responseOut := None), s.buffer, s.buffer, s.pairNext, s.pairNext + 1);
    StageAsked(Add, s.add, s.buffer, s.pairNext, o, Request(s.pairNext, Asked(Add, o.data)));
    hide StageOk, StagePlaces, Conserved;
    MulDoneConserves(s);
  }

  lemma AddDoneKeeps(s: State)
    requires Inv(s) && Enabled(s, AddDone)
    ensures Inv(AddDoneStep(s))
  {
    StageAnswered(Add, s.add, s.buffer, s.pairNext);
    hide StageOk, StagePlaces;
    var s' := AddDoneStep(s);
    forall u: nat ensures Places(s', u) == Has(1 <= u <= |s'.issued|) {
      assert Places(s, u) == Has(1 <= u <= |s.issued|);
    }
  }

  lemma ClientRecallKeeps(s: State)
    requires Inv(s) && Enabled(s, ClientRecall)
    ensures Inv(ClientRecallStep(s))
  {
    hide StageOk, StagePlaces;
    var s' := ClientRecallStep(s);
    assert s'.buffer == s.buffer;
    forall u: nat ensures Places(s', u) == Has(1 <= u <= |s'.issued|) {
      assert Places(s, u) == Has(1 <= u <= |s.issued|);
    }
  }

  lemma PrintKeeps(s: State)
    requires Inv(s) && Enabled(s, Print)
    ensures Inv(PrintStep(s))
  {
    hide StageOk, StagePlaces;
    var s' := PrintStep(s);
    assert UidsOf(s'.results) == UidsOf(s.results) + [s.responseOut.value.msg.uid];
    forall u: nat ensures Places(s', u) == Has(1 <= u <= |s'.issued|) {
      assert Places(s, u) == Has(1 <= u <= |s.issued|);
    }
  }

  ghost predicate Moved(st: Stage, lost: seq<nat>, st': Stage, lost': seq<nat>) {
    forall u: nat :: StagePlaces(st', u) + multiset(lost')[u] == StagePlaces(st, u) + multiset(lost)[u]
  }

  lemma StageKeeps(s: State, s': State)
    requires Inv(s) && s' == s.(mul := s'.mul, add := s'.add, lost := s'.lost)
    requires StageOk(Multiply, s'.mul, s.buffer, s.pairNext) && StageOk(Add, s'.add, s.buffer, s.pairNext)
    requires (s'.add == s.add && Moved(s.mul, s.lost, s'.mul, s'.lost))
             || (s'.mul == s.mul && Moved(s.add, s.lost, s'.add, s'.lost))
    ensures Inv(s')
  {
    hide StageOk, StagePlaces;
    forall u: nat ensures Places(s', u) == Has(1 <= u <= |s'.issued|) {
      assert Places(s, u) == Has(1 <= u <= |s.issued|);
    }
  }

  lemma MulStageKeeps(s: State, l: StageLabel)
    requires Inv(s) && Enabled(s, MulStage(l))
    ensures Inv(Step(s, MulStage(l)))
  {
    StageStepOk(Multiply, s.mul, s.buffer, s.pairNext, l);
    var s' := Step(s, MulStage(l));
    forall u: nat ensures StagePlaces(s'.mul, u) + multiset(s'.lost)[u] == StagePlaces(s.mul, u) + multiset(s.lost)[u] {
      StageMoves(Multiply, s.mul, s.buffer, s.pairNext, l, s.lost, u);
    }
    hide StageOk, StagePlaces, StageStep, Losses, Conserved, ClientOk;
    StageKeeps(s, s');
  }

  lemma AddStageKeeps(s: State, l: StageLabel)
    requires Inv(s) && Enabled(s, AddStage(l))
    ensures Inv(Step(s, AddStage(l)))
  {
    StageStepOk(Add, s.add, s.buffer, s.pairNext, l);
    var s' := Step(s, AddStage(l));
    forall u: nat ensures StagePlaces(s'.add, u) + multiset(s'.lost)[u] == StagePlaces(s.add, u) + multiset(s.lost)[u] {
      StageMoves(Add, s.add, s.buffer, s.pairNext, l, s.lost, u);
    }
    hide StageOk, StagePlaces, StageStep, Losses, Conserved, ClientOk;
    StageKeeps(s, s');
  }

  lemma {:induction false} ReachableKeeps(s: State, n: nat)
    requires ReachableIn(s, n)
    ensures Inv(s)
    decreases n
  {
    if n == 0 {
      InitOk();
    } else {
      var s0, l :| ReachableIn(s0, n - 1) && Enabled(s0, l) && s == Step(s0, l);
      ReachableKeeps(s0, n - 1);
      hide Inv;
      match l
      case Timer => TimerKeeps(s0);
      case ClientStore => ClientStoreKeeps(s0);
      case Split => SplitKeeps(s0);
      case MulStage(l) => MulStageKeeps(s0, l);
      case MulDone => MulDoneKeeps(s0);
      case AddStage(l) => AddStageKeeps(s0, l);
      case AddDone => AddDoneKeeps(s0);
      case ClientRecall => ClientRecallKeeps(s0);
      case Print => PrintKeeps(s0);
    }
  }

  // ---- what holds in every reachable state ----

  lemma NoneTwice(uids: seq<nat>)
    requires forall u: nat :: multiset(uids)[u] <= 1
    ensures forall i, j | 0 <= i < j < |uids| :: uids[i] != uids[j]
  {
    forall i, j | 0 <= i < j < |uids| ensures uids[i] != uids[j] {
      assert uids == uids[..i] + [uids[i]] + uids[i + 1..j] + [uids[j]] + uids[j + 1..];
      assert multiset(uids)[uids[i]] <= 1;
    }
  }

  /** Every result is the one asked for under its uid, comes with the data it was asked with, and no uid has two. */
  lemma ResultsRight(s: State)
    requires Reachable(s)
    ensures forall i | 0 <= i < |s.results| ::
              var With(resp, data) := s.results[i];
              && 1 <= resp.uid <= |s.issued| && data == s.issued[resp.uid - 1]
              && resp.data == data.factor1 * data.factor2 + data.summand
    ensures forall i, j | 0 <= i < j < |s.results| :: s.results[i].msg.uid != s.results[j].msg.uid
  {
    var n :| ReachableIn(s, n);
    ReachableKeeps(s, n);
    var uids := UidsOf(s.results);
    forall u: nat ensures multiset(uids)[u] <= 1 {
      assert Places(s, u) == Has(1 <= u <= |s.issued|);
    }
    NoneTwice(uids);
    assert forall i | 0 <= i < |s.results| :: s.results[i].msg.uid == uids[i];
  }

  /** What the client asks, and so what it is told: under uid u the value (u - 1) * u + (u + 1). */
  lemma ResultsAre(s: State)
    requires Reachable(s)
    ensures s.counter == |s.issued|
    ensures forall i | 0 <= i < |s.issued| :: s.issued[i] == MacData(i, i + 1, i + 2)
    ensures forall i | 0 <= i < |s.results| ::
              var u := s.results[i].msg.uid;
              1 <= u <= |s.issued| && s.results[i].msg.data == (u - 1) * u + (u + 1)
  {
    var n :| ReachableIn(s, n);
    ReachableKeeps(s, n);
    ResultsRight(s);
    hide Inv, Reachable, ReachableIn;
    forall i | 0 <= i < |s.results|
      ensures var u := s.results[i].msg.uid;
              1 <= u <= |s.issued| && s.results[i].msg.data == (u - 1) * u + (u + 1)
    {
      var With(resp, data) := s.results[i];
      assert data == MacData(resp.uid - 1, resp.uid, resp.uid + 1);
    }
  }

  /** Every response that reaches a context manager finds its context. */
  lemma LookupsSucceed(s: State)
    requires Reachable(s)
    ensures s.mul.response.Some? ==> s.mul.response.value.uid in s.mul.buffer
    ensures s.add.response.Some? ==> s.add.response.value.uid in s.add.buffer
    ensures s.response.Some? ==> s.response.value.uid in s.buffer
  {
    var n :| ReachableIn(s, n);
    ReachableKeeps(s, n);
  }

  /** Every request issued is in exactly one place: on its way, answered, or lost; nothing else is anywhere. */
  lemma EachInOnePlace(s: State, u: nat)
    requires Reachable(s)
    ensures Places(s, u) == if 1 <= u <= |s.issued| then 1 else 0
  {
    var n :| ReachableIn(s, n);
    ReachableKeeps(s, n);
  }

  ghost predicate StageIdle(st: Stage) {
    st.requestIn.None? && st.request.None? && st.events == [] && st.response.None? && st.responseOut.None?
  }

  /** When nothing is on its way, every request was answered, or its event was lost, and not both. */
  lemma AllAccountedFor(s: State, u: nat)
    requires Reachable(s) && 1 <= u <= |s.issued|
    requires StageIdle(s.mul) && StageIdle(s.add)
    requires s.requestIn.None? && s.request.None? && s.response.None? && s.responseOut.None?
    ensures u in s.lost <==> forall i | 0 <= i < |s.results| :: s.results[i].msg.uid != u
  {
    EachInOnePlace(s, u);
    assert OriginsOf(s.mul.events, s.mul.buffer) == [] && OriginsOf(s.add.events, s.add.buffer) == [];
    assert multiset(UidsOf(s.results))[u] + multiset(s.lost)[u] == 1;
    var uids := UidsOf(s.results);
    assert multiset(uids)[u] == 0 <==> u !in uids;
    assert multiset(s.lost)[u] == 0 <==> u !in s.lost;
    assert forall i | 0 <= i < |s.results| :: s.results[i].msg.uid == uids[i];
  }

  // ---- every request gets somewhere ----

  /** The steps that a stage's messages have still to make, from `after` more steps on behind the stage. */
  function StageWork(st: Stage, after: nat): nat {
    (after + 5) * Has(st.requestIn.Some?) + (after + 4) * Has(st.request.Some?) + (after + 3) * |st.events|
    + (after + 2) * Has(st.response.Some?) + (after + 1) * Has(st.responseOut.Some?)
  }

  /** The steps that all requests under way have still to make. */
  function Work(s: State): nat {
    14 * Has(s.requestIn.Some?) + 13 * Has(s.request.Some?) + StageWork(s.mul, 7) + StageWork(s.add, 2)
    + 2 * Has(s.response.Some?) + Has(s.responseOut.Some?)
  }

  lemma StageDrains(k: Service, st: Stage, l: StageLabel, after: nat)
    requires StageEnabled(st, l)
    ensures StageWork(StageStep(k, st, l), after) < StageWork(st, after)
  {
    if l.Serve? || l.Lose? {
      assert (after + 3) * |st.events| == (after + 3) * (|st.events| - 1) + (after + 3);
    } else if l.Queue? {
      assert (after + 3) * (|st.events| + 1) == (after + 3) * |st.events| + (after + 3);
    }
  }

  /** Every step but the client's timer moves some request on. */
  lemma StepDrains(s: State, l: Label)
    requires Enabled(s, l) && !l.Timer?
    ensures Work(Step(s, l)) < Work(s)
  {
    match l
    case MulStage(m) => StageDrains(Multiply, s.mul, m, 7);
    case AddStage(m) => StageDrains(Add, s.add, m, 2);
    case _ =>
  }

  /** Neither the timer nor the loss of an event. */
  predicate Drains(l: Label) {
    !l.Timer? && !(l.MulStage? && l.l.Lose?) && !(l.AddStage? && l.l.Lose?)
  }

  ghost predicate Idle(s: State) {
    && StageIdle(s.mul) && StageIdle(s.add)
    && s.requestIn.None? && s.request.None? && s.response.None? && s.responseOut.None?
  }

  /** While uids are left, something can move on unless nothing is under way. */
  lemma StuckIsIdle(s: State)
    requires s.pairNext + 1 < UINT64
    requires forall l | Drains(l) :: !Enabled(s, l)
    ensures Idle(s)
  {
    assert !Enabled(s, Print);
    assert !Enabled(s, ClientRecall);
    assert !Enabled(s, AddDone);
    assert !Enabled(s, AddStage(Recall)) && !Enabled(s, AddStage(Serve(0))) && !Enabled(s, AddStage(Queue));
    assert !Enabled(s, AddStage(Store));
    assert !Enabled(s, MulDone);
    assert !Enabled(s, MulStage(Recall)) && !Enabled(s, MulStage(Serve(0))) && !Enabled(s, MulStage(Queue));
    assert !Enabled(s, MulStage(Store));
    assert !Enabled(s, Split);
    assert !Enabled(s, ClientStore);
  }

  /** When nothing can move on, every request whose event was not lost has its result, the right one. */
  lemma DrainedIsAnswered(s: State, u: nat)
    requires Reachable(s) && s.pairNext + 1 < UINT64
    requires forall l | Drains(l) :: !Enabled(s, l)
    requires 1 <= u <= |s.issued| && u !in s.lost
    ensures exists i :: 0 <= i < |s.results| && s.results[i].msg == Response(u, (u - 1) * u + (u + 1))
  {
    StuckIsIdle(s);
    AllAccountedFor(s, u);
    ResultsAre(s);
    var i :| 0 <= i < |s.results| && s.results[i].msg.uid == u;
    assert s.results[i].msg == Response(u, (u - 1) * u + (u + 1));
  }

  ghost predicate DrainRun(s: State, labels: seq<Label>, t: State)
    decreases |labels|
  {
    if labels == [] then t == s
    else Enabled(s, labels[0]) && !labels[0].Timer? && DrainRun(Step(s, labels[0]), labels[1..], t)
  }

  /** A run without the timer is no longer than the work at its start. */
  lemma {:induction false} DrainBounded(s: State, labels: seq<Label>, t: State)
    requires DrainRun(s, labels, t)
    ensures |labels| + Work(t) <= Work(s)
    decreases |labels|
  {
    if labels != [] {
      StepDrains(s, labels[0]);
      DrainBounded(Step(s, labels[0]), labels[1..], t);
    }
  }

  lemma DrainLosesNone(s: State, l: Label)
    requires Drains(l) && Enabled(s, l)
    ensures Step(s, l).lost == s.lost && Step(s, l).issued == s.issued
  {
  }

  /**
   From every reachable state there is such a run, without a loss, until nothing is under way or the uids are used up.
   */
  lemma {:induction false} DrainCompletes(s: State) returns (labels: seq<Label>, t: State)
    requires Reachable(s)
    ensures DrainRun(s, labels, t) && Reachable(t) && t.lost == s.lost && t.issued == s.issued
    ensures Idle(t) || t.pairNext + 1 >= UINT64
    decreases Work(s)
  {
    if l :| Drains(l) && Enabled(s, l) {
      StepDrains(s, l);
      Extend(s, l);
      DrainLosesNone(s, l);
      hide Step, Reachable, Work, Enabled, Idle;
      labels, t := DrainCompletes(Step(s, l));
      labels := [l] + labels;
    } else {
      labels, t := [], s;
      if s.pairNext + 1 < UINT64 {
        StuckIsIdle(s);
      }
    }
  }
}
