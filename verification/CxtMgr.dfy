/**
 A client that asks every period, a manager that keeps the calls in flight in a fixed table of slots
 keyed by tag, and a service that answers each call after a delay within given limits.
 */
module CxtMgr {
  import opened Basics
  import opened Collections

  datatype Tag = Never | At(time: nat, microstep: nat)

  datatype Request = Request(first: int, second: int, context: nat)

  /** A `tagged_request_t`. */
  datatype Call = Call(request: Request, tag: Tag)

  datatype Response = Response(data: int, context: nat)

  /** A tagged response. */
  datatype Reply = Reply(response: Response, tag: Tag)

  // ---- the table ----

  /** The first slot with the tag, or the number of slots if there is none. */
  ghost function Find(pending: seq<Call>, tag: Tag): (i: nat)
    ensures i <= |pending|
    ensures i < |pending| ==> pending[i].tag == tag
    ensures forall j | 0 <= j < i :: pending[j].tag != tag
  {
    if pending == [] || pending[0].tag == tag then 0 else 1 + Find(pending[1..], tag)
  }

  ghost predicate Full(pending: seq<Call>) {
    Find(pending, Never) == |pending|
  }

  ghost function Store(pending: seq<Call>, call: Call): seq<Call> {
    if Full(pending) then pending else pending[Find(pending, Never) := call]
  }

  ghost function Release(pending: seq<Call>, tag: Tag): seq<Call> {
    var i := Find(pending, tag);
    if i < |pending| then pending[i := pending[i].(tag := Never)] else pending
  }

  class Manager {
    const pending: array<Call>

    constructor (slots: nat)
      ensures fresh(pending) && pending.Length == slots
      ensures forall i | 0 <= i < slots :: pending[i].tag == Never
    {
      pending := new Call[slots](_ => Call(Request(0, 0, 0), At(0, 0)));
      new;
      for i := 0 to slots
        invariant forall j | 0 <= j < i :: pending[j].tag == Never
      {
        pending[i] := pending[i].(tag := Never);
      }
    }

    /** Takes a slot for the request and passes it on; without a free slot the request is dropped. */
    method OnRequest(request: Request, now: Tag) returns (call: Option<Call>)
      modifies pending
      ensures pending[..] == Store(old(pending[..]), Call(request, now))
      ensures call == if Full(old(pending[..])) then None else Some(Call(request, now))
    {
      for i := 0 to pending.Length
        invariant forall j | 0 <= j < i :: pending[j].tag != Never
        invariant pending[..] == old(pending[..])
      {
        if pending[i].tag == Never {
          assert i == Find(pending[..], Never);
          pending[i] := Call(request, now);
          return Some(pending[i]);
        }
      }
      return None;
    }

    /** Frees the slot of the call that is answered and passes the answer on. */
    method OnResponse(reply: Reply) returns (response: Option<Response>)
      modifies pending
      ensures pending[..] == Release(old(pending[..]), reply.tag)
      ensures response == if Find(old(pending[..]), reply.tag) < pending.Length then Some(reply.response) else None
    {
      for i := 0 to pending.Length
        invariant forall j | 0 <= j < i :: pending[j].tag != reply.tag
        invariant pending[..] == old(pending[..])
      {
        if pending[i].tag == reply.tag {
          assert i == Find(pending[..], reply.tag);
          pending[i] := pending[i].(tag := Never);
          return Some(reply.response);
        }
      }
      return None;
    }
  }

  // ---- the system ----

  /** The number of slots, the client's period, and the limits of the service's delay. */
  datatype Config = Config(slots: nat, period: nat, minDelay: nat, maxDelay: nat)

  /** A scheduled event of the service. */
  datatype Flight = Flight(due: nat, call: Call)

  datatype State = State(
    now: nat,
    counter: nat,
    pending: seq<Call>,
    flights: set<Flight>,
    answers: seq<Response>,
    dropped: nat,        // "Maximum number of pending requests exceeded."
    missing: nat)        // "Pending requests not found."

  datatype Label = Ask(delay: nat) | Answer(f: Flight) | Tick(t: nat)

  /** When the client's timer ticks for the `k`-th time. */
  function TickOf(c: Config, k: nat): nat {
    k * c.period
  }

  ghost predicate Init(c: Config, s: State) {
    && s == State(0, 0, s.pending, {}, [], 0, 0)
    && |s.pending| == c.slots && forall i | 0 <= i < c.slots :: s.pending[i].tag == Never
  }

  /** Time never passes the next tick of the client's timer or an event that is due. */
  predicate Enabled(c: Config, s: State, l: Label) {
    match l
    case Ask(delay) => s.now == TickOf(c, s.counter) && c.minDelay <= delay <= c.maxDelay
    case Answer(f) => f in s.flights && f.due == s.now
    case Tick(t) => s.now < t <= TickOf(c, s.counter) && forall f | f in s.flights :: t <= f.due
  }

  function CallAt(now: nat, counter: nat): Call {
    Call(Request(counter, 42, counter), At(now, 0))
  }

  function Add(call: Call): Reply {
    Reply(Response(call.request.first + call.request.second, call.request.context), call.tag)
  }

  ghost function AskStep(s: State, delay: nat): State {
    var call := CallAt(s.now, s.counter);
    if Full(s.pending) then s.(counter := s.counter + 1, dropped := s.dropped + 1)
    else s.(counter := s.counter + 1,
            pending := Store(s.pending, call),
            flights := s.flights + {Flight(s.now + delay, call)})
  }

  ghost function AnswerStep(s: State, f: Flight): State {
    var reply := Add(f.call);
    var s := s.(flights := s.flights - {f});
    if Find(s.pending, reply.tag) == |s.pending| then s.(missing := s.missing + 1)
    else s.(pending := Release(s.pending, reply.tag), answers := s.answers + [reply.response])
  }

  ghost function Step(s: State, l: Label): State {
    match l
    case Ask(delay) => AskStep(s, delay)
    case Answer(f) => AnswerStep(s, f)
    case Tick(t) => s.(now := t)
  }

  ghost predicate ReachableIn(c: Config, s: State, n: nat)
    decreases n
  {
    if n == 0 then Init(c, s)
    else exists s0, l :: ReachableIn(c, s0, n - 1) && Enabled(c, s0, l) && s == Step(s0, l)
  }

  ghost predicate Reachable(c: Config, s: State) {
    exists n :: ReachableIn(c, s, n)
  }

  lemma Extend(c: Config, s: State, n: nat, l: Label)
    requires ReachableIn(c, s, n) && Enabled(c, s, l)
    ensures ReachableIn(c, Step(s, l), n + 1)
  {
  }

  /** The client, its manager and the service, reaction by reaction. */
  class Program {
    const manager: Manager
    var now: nat
    var counter: nat
    var flights: set<Flight>
    var answers: seq<Response>       // what the client was told
    var dropped: nat
    var missing: nat

    ghost function View(): State
      reads this, manager.pending
    {
      State.State(now, counter, manager.pending[..], flights, answers, dropped, missing)
    }

    constructor (c: Config)
      ensures Init(c, View()) && fresh(manager.pending)
    {
      manager := new Manager(c.slots);
      now, counter, flights, answers, dropped, missing := 0, 0, {}, [], 0, 0;
    }

    /** The timer: the client asks, the manager takes a slot and the service schedules its event. */
    method Ask(delay: nat)
      modifies this, manager.pending
      ensures View() == AskStep(old(View()), delay)
      ensures var f := Flight(now + delay, Call(Request(old(counter), 42, old(counter)), At(now, 0)));
              flights == old(flights) + if HasFree(old(manager.pending[..])) then {f} else {}
    {
      StoreTakes(manager.pending[..], CallAt(now, counter));
      var call := manager.OnRequest(Request(counter, 42, counter), At(now, 0));
      counter := counter + 1;
      if call.Some? {
        flights := flights + {Flight(now + delay, call.value)};
      } else {
        dropped := dropped + 1;
      }
    }

    /** The service's event: it answers, the manager frees the slot and the client is told. */
    method Answer(f: Flight)
      requires f in flights
      modifies this, manager.pending
      ensures View() == AnswerStep(old(View()), f)
    {
      flights := flights - {f};
      var response := manager.OnResponse(Add(f.call));
      if response.Some? {
        answers := answers + [response.value];
      } else {
        missing := missing + 1;
      }
    }

    method React(c: Config, l: Label)
      requires Reachable(c, View()) && Enabled(c, View(), l)
      modifies this, manager.pending
      ensures View() == Step(old(View()), l) && Reachable(c, View())
    {
      ghost var n: nat :| ReachableIn(c, View(), n);
      Extend(c, View(), n, l);
      match l
      case Ask(delay) => Ask(delay);
      case Answer(f) => Answer(f);
      case Tick(t) => now := t;
    }
  }

  // ---- the invariant ----

  /** The call of the client's `k`-th request, not yet due and within the delay limits. */
  ghost predicate FlightOk(c: Config, now: nat, counter: nat, f: Flight) {
    var k := f.call.request.context;
    && k < counter
    && f.call == Call(Request(k, 42, k), At(k * c.period, 0))
    && now <= f.due && k * c.period + c.minDelay <= f.due <= k * c.period + c.maxDelay
  }

  ghost predicate FlightsOk(c: Config, now: nat, counter: nat, flights: set<Flight>) {
    && (forall f | f in flights :: FlightOk(c, now, counter, f))
    && (forall f, g | f in flights && g in flights && f.call.request.context == g.call.request.context :: f == g)
  }

  ghost predicate Holds(pending: seq<Call>, call: Call) {
    exists i :: 0 <= i < |pending| && pending[i] == call
  }

  /** The slots in use hold the calls in flight, one slot each. */
  ghost predicate Matched(pending: seq<Call>, flights: set<Flight>) {
    && (forall f | f in flights :: Holds(pending, f.call))
    && (forall i | 0 <= i < |pending| && pending[i].tag != Never :: exists f :: f in flights && f.call == pending[i])
    && (forall i, j | 0 <= i < j < |pending| && pending[i].tag != Never :: pending[i].tag != pending[j].tag)
  }

  ghost predicate AnswersOk(answers: seq<Response>, counter: nat, flights: set<Flight>) {
    && (forall i | 0 <= i < |answers| :: answers[i].data == answers[i].context + 42 && answers[i].context < counter)
    && (forall i, j | 0 <= i < j < |answers| :: answers[i].context != answers[j].context)
    && (forall i, f | 0 <= i < |answers| && f in flights :: answers[i].context != f.call.request.context)
  }

  /** All ticks of the timer so far have fired. */
  ghost predicate OnTime(now: nat, counter: nat, period: nat) {
    (counter > 0 ==> (counter - 1) * period <= now) && now <= counter * period
  }

  ghost predicate Inv(c: Config, s: State) {
    && |s.pending| == c.slots && s.missing == 0
    && OnTime(s.now, s.counter, c.period)
    && FlightsOk(c, s.now, s.counter, s.flights)
    && Matched(s.pending, s.flights)
    && AnswersOk(s.answers, s.counter, s.flights)
    && s.counter == |s.answers| + |s.flights| + s.dropped
    && (s.dropped > 0 ==> c.slots * c.period <= c.maxDelay)
  }

  // ---- occupancy ----

  ghost function InUse(pending: seq<Call>): set<nat> {
    set i | 0 <= i < |pending| && pending[i].tag != Never
  }

  /** As many slots are in use as calls are in flight. */
  lemma {:induction false} MatchedSize(pending: seq<Call>, flights: set<Flight>)
    requires Matched(pending, flights)
    requires forall f | f in flights :: f.call.tag != Never
    requires forall f, g | f in flights && g in flights && f.call == g.call :: f == g
    ensures |InUse(pending)| == |flights|
    decreases flights
  {
    hide Matched;
    if flights == {} {
      NoneInUse(pending);
    } else {
      var f :| f in flights;
      var i := SlotOf(pending, flights, f);
      ReleaseMatched(pending, flights, f, i);
      MatchedSize(pending[i := pending[i].(tag := Never)], flights - {f});
      ReleaseInUse(pending, i);
    }
  }

  lemma SlotOf(pending: seq<Call>, flights: set<Flight>, f: Flight) returns (i: nat)
    requires Matched(pending, flights) && f in flights
    ensures i < |pending| && pending[i] == f.call
  {
    assert Holds(pending, f.call);
    i :| 0 <= i < |pending| && pending[i] == f.call;
  }

  lemma NoneInUse(pending: seq<Call>)
    requires Matched(pending, {})
    ensures InUse(pending) == {}
  {
  }

  lemma ReleaseInUse(pending: seq<Call>, i: nat)
    requires i < |pending| && pending[i].tag != Never
    ensures |InUse(pending)| == |InUse(pending[i := pending[i].(tag := Never)])| + 1
  {
    var rest := pending[i := pending[i].(tag := Never)];
    assert InUse(pending) == InUse(rest) + {i};
  }

  lemma ReleaseMatched(pending: seq<Call>, flights: set<Flight>, f: Flight, i: nat)
    requires Matched(pending, flights) && f in flights && i < |pending| && pending[i] == f.call
    requires forall g | g in flights :: g.call.tag != Never
    requires forall g, h | g in flights && h in flights && g.call == h.call :: g == h
    ensures Matched(pending[i := pending[i].(tag := Never)], flights - {f})
  {
    var rest := pending[i := pending[i].(tag := Never)];
    forall g | g in flights - {f} ensures Holds(rest, g.call) {
      var j :| 0 <= j < |pending| && pending[j] == g.call;
      assert rest[j] == g.call;
    }
    forall j | 0 <= j < |rest| && rest[j].tag != Never ensures exists g :: g in flights - {f} && g.call == rest[j] {
      var g :| g in flights && g.call == pending[j];
      assert g != f;
    }
  }

  ghost function Contexts(flights: set<Flight>): set<nat> {
    set f | f in flights :: f.call.request.context
  }

  lemma {:induction false} ContextsSize(flights: set<Flight>)
    requires forall f, g | f in flights && g in flights && f.call.request.context == g.call.request.context :: f == g
    ensures |Contexts(flights)| == |flights|
    decreases flights
  {
    if flights != {} {
      var f :| f in flights;
      ContextsSize(flights - {f});
      assert Contexts(flights) == Contexts(flights - {f}) + {f.call.request.context};
    }
  }

  /** `k` periods fit into `d` exactly if `k` is at most d / period. */
  lemma Fits(k: nat, period: nat, d: nat)
    requires period > 0
    ensures k * period <= d <==> k <= d / period
  {
    var q := d / period;
    assert q * period <= d < (q + 1) * period;
    if k <= q {
      assert k * period <= q * period;
    } else {
      assert (q + 1) * period <= k * period;
    }
  }

  /** If nothing asked before request `from` can still be in flight, at most `counter - from` calls are. */
  lemma FlightsAtMost(c: Config, now: nat, counter: nat, flights: set<Flight>, from: nat)
    requires FlightsOk(c, now, counter, flights) && from <= counter
    requires forall f | f in flights :: f.call.request.context >= from
    ensures |flights| <= counter - from
  {
    ContextsSize(flights);
    SubsetSize(Contexts(flights), Interval(from, counter));
  }

  // ---- every step keeps the invariant ----

  lemma InitKeeps(c: Config, s: State)
    requires Init(c, s)
    ensures Inv(c, s)
  {
  }

  /** When a request finds no free slot, one call of each of the last `slots` requests is in flight. */
  lemma OverflowMeans(c: Config, s: State)
    requires c.period > 0 && Inv(c, s) && s.now == s.counter * c.period && Full(s.pending)
    ensures c.slots * c.period <= c.maxDelay
  {
    var q := c.maxDelay / c.period;
    MatchedSize(s.pending, s.flights);
    assert InUse(s.pending) == Interval(0, c.slots);
    var from := if s.counter >= q then s.counter - q else 0;
    forall f | f in s.flights ensures f.call.request.context >= from {
      Recent(c, s.counter, s.counter, f.call.request.context);
    }
    FlightsAtMost(c, s.now, s.counter, s.flights, from);
    Fits(c.slots, c.period, c.maxDelay);
  }

  /** A request `k` whose call can be in flight at the tick of request `n` is among the last ones. */
  lemma Recent(c: Config, counter: nat, n: nat, k: nat)
    requires c.period > 0 && k <= n && n * c.period <= k * c.period + c.maxDelay
    ensures n - k <= c.maxDelay / c.period
  {
    assert (n - k) * c.period == n * c.period - k * c.period;
    Fits(n - k, c.period, c.maxDelay);
  }

  lemma StoreMatched(pending: seq<Call>, flights: set<Flight>, f: Flight)
    requires Matched(pending, flights) && !Full(pending) && f.call.tag != Never
    requires forall g | g in flights :: g.call.tag != Never && g.call.tag != f.call.tag
    ensures Matched(Store(pending, f.call), flights + {f})
  {
    var at := Find(pending, Never);
    var r := Store(pending, f.call);
    forall g | g in flights + {f} ensures Holds(r, g.call) {
      if g == f {
        assert r[at] == f.call;
      } else {
        var j :| 0 <= j < |pending| && pending[j] == g.call;
        assert r[j] == g.call;
      }
    }
    forall j | 0 <= j < |r| && r[j].tag != Never ensures exists g :: g in flights + {f} && g.call == r[j] {
      if j == at {
        assert f.call == r[j];
      } else {
        var g :| g in flights && g.call == pending[j];
        assert g in flights + {f};
      }
    }
    forall i, j | 0 <= i < j < |r| && r[i].tag != Never ensures r[i].tag != r[j].tag {
      if i != at && j != at {
        assert pending[i].tag != pending[j].tag;
      } else {
        var k := if i == at then j else i;
        if pending[k].tag != Never {
          var g :| g in flights && g.call == pending[k];
        }
      }
    }
  }

  lemma AskFlights(c: Config, now: nat, counter: nat, flights: set<Flight>, f: Flight)
    requires c.period > 0 && FlightsOk(c, now, counter, flights)
    requires f.call == CallAt(now, counter) && now == counter * c.period
    requires now + c.minDelay <= f.due <= now + c.maxDelay
    ensures OnTime(now, counter + 1, c.period) && FlightsOk(c, now, counter + 1, flights + {f})
    ensures forall g | g in flights :: g.call.tag != Never && g.call.tag != f.call.tag
    ensures f !in flights
  {
    assert (counter + 1) * c.period == counter * c.period + c.period;
    forall g | g in flights
      ensures FlightOk(c, now, counter + 1, g) && g.call.tag != Never && g.call.tag != f.call.tag
    {
      var k := g.call.request.context;
      assert k * c.period < counter * c.period;
    }
  }

  lemma AskKeeps(c: Config, s: State, delay: nat)
    requires c.period > 0 && Inv(c, s) && Enabled(c, s, Ask(delay))
    ensures Inv(c, AskStep(s, delay))
  {
    hide Matched, FlightsOk, OnTime;
    var f := Flight(s.now + delay, CallAt(s.now, s.counter));
    AskFlights(c, s.now, s.counter, s.flights, f);
    if Full(s.pending) {
      OverflowMeans(c, s);
      FlightsLater(c, s.now, s.counter, s.flights);
    } else {
      StoreMatched(s.pending, s.flights, f);
    }
  }

  lemma FlightsLater(c: Config, now: nat, counter: nat, flights: set<Flight>)
    requires FlightsOk(c, now, counter, flights)
    ensures FlightsOk(c, now, counter + 1, flights)
  {
  }

  lemma AnswerRecorded(c: Config, now: nat, counter: nat, flights: set<Flight>, answers: seq<Response>, f: Flight)
    requires FlightsOk(c, now, counter, flights) && AnswersOk(answers, counter, flights) && f in flights
    ensures FlightsOk(c, now, counter, flights - {f})
    ensures AnswersOk(answers + [Add(f.call).response], counter, flights - {f})
  {
    assert FlightOk(c, now, counter, f);
  }

  /** The table's side of an answer: the search finds the call's slot, and freeing it keeps the rest matched. */
  lemma AnswerReleases(pending: seq<Call>, flights: set<Flight>, f: Flight)
    requires Matched(pending, flights) && f in flights
    requires forall g | g in flights :: g.call.tag != Never
    requires forall g, h | g in flights && h in flights && g.call == h.call :: g == h
    ensures Find(pending, f.call.tag) < |pending| == |Release(pending, f.call.tag)|
    ensures Matched(Release(pending, f.call.tag), flights - {f})
    ensures |flights - {f}| == |flights| - 1
  {
    var i := SlotOf(pending, flights, f);
    assert i == Find(pending, f.call.tag);
    ReleaseMatched(pending, flights, f, i);
  }

  lemma AnswerKeeps(c: Config, s: State, f: Flight)
    requires Inv(c, s) && Enabled(c, s, Answer(f))
    ensures Inv(c, AnswerStep(s, f))
  {
    FlightsApart(c, s.now, s.counter, s.flights);
    AnswerRecorded(c, s.now, s.counter, s.flights, s.answers, f);
    AnswerReleases(s.pending, s.flights, f);
  }

  /** Calls in flight have real tags, and no two of them are equal. */
  lemma FlightsApart(c: Config, now: nat, counter: nat, flights: set<Flight>)
    requires FlightsOk(c, now, counter, flights)
    ensures forall g | g in flights :: g.call.tag != Never
    ensures forall g, h | g in flights && h in flights && g.call == h.call :: g == h
  {
  }

  lemma TickKeeps(c: Config, s: State, t: nat)
    requires Inv(c, s) && Enabled(c, s, Tick(t))
    ensures Inv(c, s.(now := t))
  {
  }

  lemma {:induction false} ReachableKeeps(c: Config, s: State, n: nat)
    requires c.period > 0 && ReachableIn(c, s, n)
    ensures Inv(c, s)
    decreases n
  {
    if n == 0 {
      InitKeeps(c, s);
    } else {
      var s0, l :| ReachableIn(c, s0, n - 1) && Enabled(c, s0, l) && s == Step(s0, l);
      ReachableKeeps(c, s0, n - 1);
      hide Inv;
      match l
      case Ask(delay) => AskKeeps(c, s0, delay);
      case Answer(f) => AnswerKeeps(c, s0, f);
      case Tick(t) => TickKeeps(c, s0, t);
    }
  }

  // ---- what holds in every reachable state ----

  /** The slots in use and the calls in flight correspond one to one. */
  lemma SlotsMatchFlights(c: Config, s: State)
    requires c.period > 0 && Reachable(c, s)
    ensures forall f | f in s.flights :: exists i :: 0 <= i < |s.pending| && s.pending[i] == f.call
    ensures forall i | 0 <= i < |s.pending| && s.pending[i].tag != Never ::
              exists f :: f in s.flights && f.call == s.pending[i]
    ensures forall i, j | 0 <= i < j < |s.pending| && s.pending[i].tag != Never :: s.pending[i].tag != s.pending[j].tag
    ensures forall f, g | f in s.flights && g in s.flights && f.call.tag == g.call.tag :: f == g
    ensures |InUse(s.pending)| == |s.flights|
  {
    var n :| ReachableIn(c, s, n);
    ReachableKeeps(c, s, n);
    FlightsApart(c, s.now, s.counter, s.flights);
    forall f | f in s.flights ensures exists i :: 0 <= i < |s.pending| && s.pending[i] == f.call {
      assert Holds(s.pending, f.call);
    }
    forall f, g | f in s.flights && g in s.flights && f.call.tag == g.call.tag ensures f == g {
      var (j, k) := (f.call.request.context, g.call.request.context);
      if j < k {
        TagsAscend(c.period, j, k);
      } else if k < j {
        TagsAscend(c.period, k, j);
      }
    }
    MatchedSize(s.pending, s.flights);
  }

  lemma TagsAscend(period: nat, j: nat, k: nat)
    requires period > 0 && j < k
    ensures j * period < k * period
  {
    assert k * period == j * period + (k - j) * period;
  }

  /**
   No answer misses its slot; each answer is its context plus 42 and no request is answered twice;
   every request was answered, is in flight, or was dropped.
   */
  lemma AnswersRight(c: Config, s: State)
    requires c.period > 0 && Reachable(c, s)
    ensures s.missing == 0
    ensures forall i | 0 <= i < |s.answers| ::
              s.answers[i].data == s.answers[i].context + 42 && s.answers[i].context < s.counter
    ensures forall i, j | 0 <= i < j < |s.answers| :: s.answers[i].context != s.answers[j].context
    ensures s.counter == |s.answers| + |s.flights| + s.dropped
  {
    var n :| ReachableIn(c, s, n);
    ReachableKeeps(c, s, n);
  }

  // ---- one request, one answer, in time ----

  /** `after` is `before` with the call in a slot that was free. */
  ghost predicate Took(before: seq<Call>, after: seq<Call>, call: Call) {
    exists i :: 0 <= i < |before| && before[i].tag == Never && after == before[i := call]
  }

  /** `after` is `before` with the tag of the call's slot reset. */
  ghost predicate Freed(before: seq<Call>, after: seq<Call>, call: Call) {
    exists i :: 0 <= i < |before| && before[i] == call && after == before[i := call.(tag := Never)]
  }

  ghost predicate HasFree(pending: seq<Call>) {
    exists i :: 0 <= i < |pending| && pending[i].tag == Never
  }

  lemma StoreTakes(pending: seq<Call>, call: Call)
    ensures HasFree(pending) <==> !Full(pending)
    ensures HasFree(pending) ==> Took(pending, Store(pending, call), call)
  {
    if !Full(pending) {
      assert pending[Find(pending, Never)].tag == Never;
    }
  }

  lemma ReleaseFrees(pending: seq<Call>, flights: set<Flight>, f: Flight)
    requires Matched(pending, flights) && f in flights && f.call.tag != Never
    ensures Find(pending, f.call.tag) < |pending| && Freed(pending, Release(pending, f.call.tag), f.call)
  {
    var i := SlotOf(pending, flights, f);
    assert i == Find(pending, f.call.tag);
  }

  lemma AskEffect(s: State, delay: nat)
    ensures var t := AskStep(s, delay);
            var call := Call(Request(s.counter, 42, s.counter), At(s.now, 0));
            if HasFree(s.pending) then
              && t == s.(counter := s.counter + 1, pending := t.pending,
                         flights := s.flights + {Flight(s.now + delay, call)})
              && Took(s.pending, t.pending, call)
            else t == s.(counter := s.counter + 1, dropped := s.dropped + 1)
  {
    hide Full, Store, HasFree, Took;
    StoreTakes(s.pending, CallAt(s.now, s.counter));
  }

  lemma AnswerEffect(s: State, f: Flight, k: nat)
    requires Matched(s.pending, s.flights) && f in s.flights && f.call.tag != Never
    requires f.call.request == Request(k, 42, k)
    ensures var t := AnswerStep(s, f);
            && t == s.(pending := t.pending, flights := s.flights - {f}, answers := s.answers + [Response(k + 42, k)])
            && Freed(s.pending, t.pending, f.call)
  {
    ReleaseFrees(s.pending, s.flights, f);
    hide Matched, Release, Freed, Find;
  }

  /** A request that finds a free slot takes it and is due after the drawn delay; another one is dropped. */
  lemma AskTakesASlot(c: Config, s: State, delay: nat)
    requires c.period > 0 && Reachable(c, s) && Enabled(c, s, Ask(delay))
    ensures s.now == s.counter * c.period
    ensures var t := Step(s, Ask(delay));
            var call := Call(Request(s.counter, 42, s.counter), At(s.now, 0));
            var f := Flight(s.now + delay, call);
            if HasFree(s.pending) then
              && t == s.(counter := s.counter + 1, pending := t.pending, flights := s.flights + {f})
              && f !in s.flights && Took(s.pending, t.pending, call)
            else t == s.(counter := s.counter + 1, dropped := s.dropped + 1)
  {
    var n :| ReachableIn(c, s, n);
    ReachableKeeps(c, s, n);
    AskFlights(c, s.now, s.counter, s.flights, Flight(s.now + delay, CallAt(s.now, s.counter)));
    AskEffect(s, delay);
    hide Inv, FlightsOk, Reachable, ReachableIn, AskStep, HasFree, Took, OnTime;
  }

  lemma CallShape(c: Config, now: nat, counter: nat, flights: set<Flight>, f: Flight)
    requires FlightsOk(c, now, counter, flights) && f in flights
    ensures var k := f.call.request.context; f.call.request == Request(k, 42, k) && f.call.tag != Never
  {
    assert FlightOk(c, now, counter, f);
  }

  /** The answer to request k ends its one flight, frees its one slot, and is k + 42. */
  lemma AnswerEndsOneFlight(c: Config, s: State, f: Flight)
    requires c.period > 0 && Reachable(c, s) && Enabled(c, s, Answer(f))
    ensures var t := Step(s, Answer(f));
            var k := f.call.request.context;
            && t == s.(pending := t.pending, flights := s.flights - {f}, answers := s.answers + [Response(k + 42, k)])
            && Freed(s.pending, t.pending, f.call)
  {
    var n :| ReachableIn(c, s, n);
    ReachableKeeps(c, s, n);
    CallShape(c, s.now, s.counter, s.flights, f);
    AnswerEffect(s, f, f.call.request.context);
  }

  /** Every call in flight is due within the delay limits of its request. */
  lemma DueInTime(c: Config, s: State, f: Flight)
    requires c.period > 0 && Reachable(c, s) && f in s.flights
    ensures var k := f.call.request.context;
            k < s.counter && s.now <= f.due && k * c.period + c.minDelay <= f.due <= k * c.period + c.maxDelay
  {
    var n :| ReachableIn(c, s, n);
    ReachableKeeps(c, s, n);
    assert FlightOk(c, s.now, s.counter, f);
  }

  /** An answer comes within the delay limits of its request. */
  lemma AnswerIsInTime(c: Config, s: State, f: Flight)
    requires c.period > 0 && Reachable(c, s) && Enabled(c, s, Answer(f))
    ensures var k := f.call.request.context;
            k < s.counter && k * c.period + c.minDelay <= s.now <= k * c.period + c.maxDelay
  {
    DueInTime(c, s, f);
  }

  /** The requests that were answered. */
  ghost function Answered(answers: seq<Response>): set<nat> {
    set i | 0 <= i < |answers| :: answers[i].context
  }

  lemma {:induction false} AnsweredSize(answers: seq<Response>)
    requires forall i, j | 0 <= i < j < |answers| :: answers[i].context != answers[j].context
    ensures |Answered(answers)| == |answers|
    decreases |answers|
  {
    if answers != [] {
      var n := |answers| - 1;
      AnsweredSize(answers[..n]);
      assert Answered(answers) == Answered(answers[..n]) + {answers[n].context};
    }
  }

  /** With nothing dropped, every request was answered or is in flight. */
  lemma AnsweredOrInFlight(c: Config, s: State, k: nat)
    requires Inv(c, s) && s.dropped == 0 && k < s.counter
    ensures k in Answered(s.answers) || k in Contexts(s.flights)
  {
    AnsweredSize(s.answers);
    ContextsSize(s.flights);
    var both, all := Answered(s.answers) + Contexts(s.flights), Interval(0, s.counter);
    assert Answered(s.answers) !! Contexts(s.flights);
    assert |both| == |all|;
    assert both <= all;
    if k !in both {
      SubsetSize(both, all - {k});
    }
  }

  /**
   If the delay cannot span as many periods as there are slots, every request has its answer once the longest delay is
   over.
   */
  lemma AnsweredInTime(c: Config, s: State, k: nat)
    requires c.period > 0 && Reachable(c, s) && c.slots * c.period > c.maxDelay
    requires k < s.counter && k * c.period + c.maxDelay < s.now
    ensures Response(k + 42, k) in s.answers
  {
    var n :| ReachableIn(c, s, n);
    ReachableKeeps(c, s, n);
    AnsweredOrInFlight(c, s, k);
    forall f | f in s.flights ensures f.call.request.context != k {
      assert FlightOk(c, s.now, s.counter, f);
    }
    var i :| 0 <= i < |s.answers| && s.answers[i].context == k;
    assert s.answers[i] == Response(k + 42, k);
  }

  /** What has still to happen at this time. */
  ghost function Momentum(c: Config, s: State): nat {
    |s.flights| + if s.now == TickOf(c, s.counter) then 2 else 0
  }

  /** Every step lets time pass, or leaves less to happen before it can pass: no run stays at one time for ever. */
  lemma TimeProgresses(c: Config, s: State, l: Label)
    requires c.period > 0 && Reachable(c, s) && Enabled(c, s, l)
    ensures var t := Step(s, l); t.now > s.now || (t.now == s.now && Momentum(c, t) < Momentum(c, s))
  {
    match l
    case Ask(delay) =>
      AskTakesASlot(c, s, delay);
      TagsAscend(c.period, s.counter, s.counter + 1);
      AskAddsOne(s, delay);
    case Answer(f) =>
      AnswerEndsOneFlight(c, s, f);
      assert |s.flights - {f}| == |s.flights| - 1;
    case Tick(t) =>
  }

  lemma AskAddsOne(s: State, delay: nat)
    ensures |AskStep(s, delay).flights| <= |s.flights| + 1
  {
  }

  /** In every reachable state something can happen. */
  lemma NeverStuck(c: Config, s: State)
    requires c.period > 0 && c.minDelay <= c.maxDelay && Reachable(c, s)
    ensures exists l :: Enabled(c, s, l)
  {
    var n :| ReachableIn(c, s, n);
    ReachableKeeps(c, s, n);
    if s.now == TickOf(c, s.counter) {
      assert Enabled(c, s, Ask(c.minDelay));
    } else if f :| f in s.flights && f.due == s.now {
      assert Enabled(c, s, Answer(f));
    } else {
      forall f | f in s.flights ensures s.now + 1 <= f.due {
        assert FlightOk(c, s.now, s.counter, f);
      }
      assert Enabled(c, s, Tick(s.now + 1));
    }
  }

  // ---- how full the table gets ----

  /** At most maxDelay / period + 1 slots are ever in use. */
  lemma OccupancyBound(c: Config, s: State)
    requires c.period > 0 && Reachable(c, s)
    ensures |InUse(s.pending)| <= c.maxDelay / c.period + 1
  {
    var n :| ReachableIn(c, s, n);
    ReachableKeeps(c, s, n);
    SlotsMatchFlights(c, s);
    hide Matched, AnswersOk;
    RecentFlights(c, s.now, s.counter, s.flights);
  }

  lemma RecentFlights(c: Config, now: nat, counter: nat, flights: set<Flight>)
    requires c.period > 0 && FlightsOk(c, now, counter, flights)
    requires OnTime(now, counter, c.period)
    ensures |flights| <= c.maxDelay / c.period + 1
  {
    var q := c.maxDelay / c.period + 1;
    var from := if counter >= q then counter - q else 0;
    forall f | f in flights ensures f.call.request.context >= from {
      Recent(c, counter, counter - 1, f.call.request.context);
    }
    FlightsAtMost(c, now, counter, flights, from);
  }

  lemma NextTick(c: Config, k: nat)
    requires k < c.slots && c.period > 0 && TickOf(c, c.slots) <= c.maxDelay
    ensures TickOf(c, k) < TickOf(c, k + 1) <= c.maxDelay
  {
    TagsAscend(c.period, k, k + 1);
    if k + 1 < c.slots {
      TagsAscend(c.period, k + 1, c.slots);
    }
  }

  lemma EmptySystem(c: Config) returns (s: State)
    ensures ReachableIn(c, s, 0)
    ensures s.now == TickOf(c, 0) && s.counter == |s.answers| == s.dropped == 0 && Late(c, s.flights)
  {
    s := State.State(0, 0, seq(c.slots, _ => Call(Request(0, 0, 0), Never)), {}, [], 0, 0);
  }

  /** A run in which every answer is as late as it can be fills `k` slots. */
  lemma {:induction false} FillUp(c: Config, k: nat) returns (s: State, n: nat)
    requires c.period > 0 && c.minDelay <= c.maxDelay && TickOf(c, c.slots) <= c.maxDelay && k <= c.slots
    ensures ReachableIn(c, s, n)
    ensures s.now == TickOf(c, k) && s.counter == k && |s.answers| == s.dropped == 0
    ensures Late(c, s.flights)
  {
    hide TickOf, ReachableIn, Late;
    if k == 0 {
      s := EmptySystem(c);
      n := 0;
    } else {
      NextTick(c, k - 1);
      s, n := FillUp(c, k - 1);
      s := FillStep(c, s, n);
      n := n + 2;
    }
  }

  ghost predicate Late(c: Config, flights: set<Flight>) {
    forall f | f in flights :: f.due >= c.maxDelay
  }

  /** One more request, whose answer is as late as it can be, and on to the next tick. */
  lemma FillStep(c: Config, s0: State, n: nat) returns (s: State)
    requires c.period > 0 && c.minDelay <= c.maxDelay && s0.counter < c.slots && ReachableIn(c, s0, n)
    requires s0.now == TickOf(c, s0.counter) < TickOf(c, s0.counter + 1) <= c.maxDelay
             && |s0.answers| == s0.dropped == 0
    requires Late(c, s0.flights)
    ensures ReachableIn(c, s, n + 2)
    ensures s.now == TickOf(c, s.counter) && s.counter == s0.counter + 1 && |s.answers| == s.dropped == 0
    ensures Late(c, s.flights)
  {
    ReachableKeeps(c, s0, n);
    NotFullYet(c, s0);
    AskLate(c, s0);
    hide Inv, ReachableIn, TickOf, Late, Full, AskStep;
    Extend(c, s0, n, Ask(c.maxDelay));
    s := WaitForTick(c, AskStep(s0, c.maxDelay), n + 1);
  }

  lemma AskLate(c: Config, s0: State)
    requires !Full(s0.pending) && Late(c, s0.flights)
    ensures var s := AskStep(s0, c.maxDelay);
            Late(c, s.flights) && s.(pending := s0.pending, flights := s0.flights) == s0.(counter := s0.counter + 1)
  {
  }

  lemma WaitForTick(c: Config, s1: State, n: nat) returns (s: State)
    requires ReachableIn(c, s1, n) && Late(c, s1.flights) && s1.now < TickOf(c, s1.counter) <= c.maxDelay
    ensures ReachableIn(c, s, n + 1) && s == s1.(now := TickOf(c, s1.counter))
  {
    hide ReachableIn, TickOf;
    var t := TickOf(c, s1.counter);
    Extend(c, s1, n, Tick(t));
    s := Step(s1, Tick(t));
  }

  lemma NotFullYet(c: Config, s: State)
    requires Inv(c, s) && s.counter < c.slots && |s.answers| == s.dropped == 0
    ensures !Full(s.pending)
  {
    FlightsApart(c, s.now, s.counter, s.flights);
    MatchedSize(s.pending, s.flights);
    assert Full(s.pending) ==> InUse(s.pending) == Interval(0, c.slots);
  }

  /** Some run drops a request if and only if the delay can span as many periods as there are slots. */
  lemma OverflowExactly(c: Config)
    requires c.period > 0 && c.minDelay <= c.maxDelay
    ensures (exists s :: Reachable(c, s) && s.dropped > 0) <==> c.slots * c.period <= c.maxDelay
  {
    if s :| Reachable(c, s) && s.dropped > 0 {
      var n :| ReachableIn(c, s, n);
      ReachableKeeps(c, s, n);
    }
    if c.slots * c.period <= c.maxDelay {
      var s, n := FillUp(c, c.slots);
      ReachableKeeps(c, s, n);
      AllTaken(c, s);
      Extend(c, s, n, Ask(c.maxDelay));
      var s1 := Step(s, Ask(c.maxDelay));
      assert Reachable(c, s1) && s1.dropped > 0;
    }
  }

  lemma AllTaken(c: Config, s: State)
    requires Inv(c, s) && s.counter == c.slots && |s.answers| == s.dropped == 0
    ensures Full(s.pending)
  {
    FlightsApart(c, s.now, s.counter, s.flights);
    MatchedSize(s.pending, s.flights);
    if !Full(s.pending) {
      var i := Find(s.pending, Never);
      assert InUse(s.pending) <= Interval(0, c.slots) - {i};
      SubsetSize(InUse(s.pending), Interval(0, c.slots) - {i});
    }
  }

  /** Ten slots, a request every 100 ms, delays from 100 to 499 ms. */
  const AS_SHIPPED: Config := Config(10, 100, 100, 499)

  lemma NeverOverflows(s: State)
    requires Reachable(AS_SHIPPED, s)
    ensures s.dropped == 0 && |InUse(s.pending)| <= 5
  {
    OccupancyBound(AS_SHIPPED, s);
    OverflowExactly(AS_SHIPPED);
  }
}
