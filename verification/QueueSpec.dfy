/**
 What a queue fed only by `p_enqueue` is: a list of entries sorted by id, without duplicates, with
 service-time totals and the extreme sizes seen. `PriorityQueue.Queue` is its linked-list form.
 */
module QueueSpec {
  import opened Basics
  import opened Collections

  /** A node's data (its first word is the id) and the time it was queued. */
  datatype Entry<D> = Entry(id: nat, body: D, ts: int)

  /** An extreme size, and the id and time of the operation that reached it. */
  datatype Stat = Stat(size: nat, id: nat, ts: int)

  datatype QState<D> = QState(
    entries: seq<Entry<D>>,
    minima: Stat,
    maxima: Stat,
    serviceRtt: int,
    served: nat,
    nextEventId: nat)

  function InitQueue<D>(): QState<D> {
    QState([], Stat(UINT32 - 1, 0, 0), Stat(0, 0, 0), 0, 0, 0)
  }

  ghost predicate Sorted<D>(es: seq<Entry<D>>) {
    forall i, j | 0 <= i < j < |es| :: es[i].id < es[j].id
  }

  ghost predicate Has<D>(es: seq<Entry<D>>, id: nat) {
    exists i :: 0 <= i < |es| && es[i].id == id
  }

  /** The position at which `id` is, or belongs. */
  ghost function Position<D>(es: seq<Entry<D>>, id: nat): (p: nat)
    ensures p <= |es|
    ensures forall i | 0 <= i < p :: es[i].id < id
    ensures p < |es| ==> es[p].id >= id
  {
    if es == [] || es[0].id >= id then 0 else 1 + Position(es[1..], id)
  }

  function UpdateMax(m: Stat, size: nat, id: nat, ts: int): Stat {
    if size > m.size then Stat(size, id, ts) else m
  }

  function UpdateMin(m: Stat, size: nat, id: nat, ts: int): Stat {
    if size < m.size then Stat(size, id, ts) else m
  }

  ghost function Enqueued<D>(q: QState<D>, id: nat, body: D, now: int): QState<D> {
    if Has(q.entries, id) then q
    else
      var n := |q.entries| + 1;
      q.(entries := Insert(q.entries, Position(q.entries, id), Entry(id, body, now)),
         maxima := UpdateMax(q.maxima, n, id, now),
         minima := UpdateMin(q.minima, n, id, now))
  }

  ghost function RemovedAt<D>(q: QState<D>, p: nat, now: int): QState<D>
    requires p < |q.entries|
  {
    var e := q.entries[p];
    var n := |q.entries| - 1;
    q.(entries := Without(q.entries, p),
       serviceRtt := q.serviceRtt + (now - e.ts),
       served := q.served + 1,
       maxima := UpdateMax(q.maxima, n, e.id, now),
       minima := UpdateMin(q.minima, n, e.id, now))
  }

  ghost function Popped<D>(q: QState<D>, now: int): QState<D> {
    if q.entries == [] then q else RemovedAt(q, 0, now)
  }

  ghost function PoppedById<D>(q: QState<D>, id: nat, now: int): QState<D> {
    if Has(q.entries, id) then
      PositionOfPresent(q.entries, id);
      RemovedAt(q, IndexOf(q.entries, id), now)
    else q
  }

  /** The first entry with the id. */
  ghost function IndexOf<D>(es: seq<Entry<D>>, id: nat): (p: nat)
    ensures p <= |es|
    ensures p < |es| ==> es[p].id == id
    ensures forall i | 0 <= i < p :: es[i].id != id
  {
    if es == [] || es[0].id == id then 0 else 1 + IndexOf(es[1..], id)
  }

  lemma PositionOfPresent<D>(es: seq<Entry<D>>, id: nat)
    requires Has(es, id)
    ensures IndexOf(es, id) < |es|
  {
  }

  // ---- the list is sorted, and it is a finite map ----

  /** The early break of the duplicate test is sound: in a sorted list an id that is present is where it belongs. */
  lemma PresentWhereItBelongs<D>(es: seq<Entry<D>>, id: nat)
    requires Sorted(es)
    ensures Has(es, id) <==> Position(es, id) < |es| && es[Position(es, id)].id == id
    ensures Has(es, id) ==> Position(es, id) == IndexOf(es, id)
  {
    var p := Position(es, id);
    if i :| 0 <= i < |es| && es[i].id == id {
      assert p <= i;
      assert p < i ==> es[p].id < es[i].id;
    }
  }

  lemma InsertSorted<D>(es: seq<Entry<D>>, e: Entry<D>)
    requires Sorted(es) && !Has(es, e.id)
    ensures Sorted(Insert(es, Position(es, e.id), e))
  {
    var p := Position(es, e.id);
    var r := Insert(es, p, e);
    assert p < |es| ==> es[p].id > e.id;
    forall i, j | 0 <= i < j < |r| ensures r[i].id < r[j].id {
      if i < p && j == p {
        assert r[i] == es[i];
      } else if i == p {
        assert r[j] == es[j - 1];
        assert p < j - 1 ==> es[p].id < es[j - 1].id;
      }
    }
  }

  lemma RemoveSorted<D>(es: seq<Entry<D>>, p: nat)
    requires Sorted(es) && p < |es|
    ensures Sorted(Without(es, p))
  {
  }

  ghost function Ids<D>(es: seq<Entry<D>>): set<nat> {
    set i | 0 <= i < |es| :: es[i].id
  }

  /** The finite map a sorted list stands for. */
  ghost function AsMap<D>(es: seq<Entry<D>>): (m: map<nat, D>)
    ensures forall id :: id in m <==> Has(es, id)
  {
    map id | id in Ids(es) :: es[IndexOf(es, id)].body
  }

  lemma AsMapAt<D>(es: seq<Entry<D>>, i: nat)
    requires Sorted(es) && i < |es|
    ensures es[i].id in AsMap(es) && AsMap(es)[es[i].id] == es[i].body
  {
    var p := IndexOf(es, es[i].id);
    assert p <= i;
    assert p == i;
  }

  lemma AsMapIs<D>(es: seq<Entry<D>>, m: map<nat, D>)
    requires Sorted(es)
    requires forall i | 0 <= i < |es| :: es[i].id in m && m[es[i].id] == es[i].body
    requires forall id | id in m :: Has(es, id)
    ensures AsMap(es) == m
  {
    forall id | id in m ensures AsMap(es)[id] == m[id] {
      var i :| 0 <= i < |es| && es[i].id == id;
      AsMapAt(es, i);
    }
  }

  lemma InsertHas<D>(es: seq<Entry<D>>, p: nat, e: Entry<D>, id: nat)
    requires p <= |es|
    ensures Has(es, id) || id == e.id ==> Has(Insert(es, p, e), id)
  {
    if id == e.id {
      InsertAt(es, p, e, p);
    } else if Has(es, id) {
      var i :| 0 <= i < |es| && es[i].id == id;
      InsertAt(es, p, e, if i < p then i else i + 1);
    }
  }

  lemma InsertAsMap<D>(es: seq<Entry<D>>, p: nat, e: Entry<D>)
    requires Sorted(es) && p <= |es| && !Has(es, e.id) && Sorted(Insert(es, p, e))
    ensures AsMap(Insert(es, p, e)) == AsMap(es)[e.id := e.body]
  {
    var r := Insert(es, p, e);
    var m := AsMap(es)[e.id := e.body];
    hide Insert;
    forall i | 0 <= i < |r| ensures r[i].id in m && m[r[i].id] == r[i].body {
      InsertAt(es, p, e, i);
      if i != p {
        AsMapAt(es, if i < p then i else i - 1);
      }
    }
    forall id | id in m ensures Has(r, id) {
      InsertHas(es, p, e, id);
    }
    AsMapIs(r, m);
  }

  lemma RemovedIsAbsent<D>(es: seq<Entry<D>>, p: nat)
    requires Sorted(es) && p < |es|
    ensures !Has(Without(es, p), es[p].id)
  {
  }

  lemma RemoveAsMap<D>(es: seq<Entry<D>>, p: nat)
    requires Sorted(es) && p < |es|
    ensures AsMap(Without(es, p)) == AsMap(es) - {es[p].id}
  {
    var r := Without(es, p);
    RemoveSorted(es, p);
    assert Insert(r, p, es[p]) == es;
    RemovedIsAbsent(es, p);
    hide AsMap, Insert, Without, Sorted;
    InsertAsMap(r, p, es[p]);
    assert AsMap(es) - {es[p].id} == AsMap(r);
  }

  lemma UpdateAsMap<D>(es: seq<Entry<D>>, p: nat, body: D)
    requires Sorted(es) && p < |es|
    ensures Sorted(es[p := es[p].(body := body)])
    ensures AsMap(es[p := es[p].(body := body)]) == AsMap(es)[es[p].id := body]
  {
    var r := es[p := es[p].(body := body)];
    var m := AsMap(es)[es[p].id := body];
    assert Sorted(r);
    hide AsMap, Sorted;
    forall i | 0 <= i < |r| ensures r[i].id in m && m[r[i].id] == r[i].body {
      AsMapAt(es, i);
    }
    forall id | id in m ensures Has(r, id) {
      var j :| 0 <= j < |es| && es[j].id == id;
      assert r[j].id == id;
    }
    AsMapIs(r, m);
  }

  // ---- runs: Little's law and the extreme sizes ----

  datatype Op<D> = PEnqueue(id: nat, body: D) | Pop | PopById(id: nat)

  /** An operation and the clock reading at which it runs. */
  datatype Timed<D> = Timed(op: Op<D>, now: int)

  ghost function Apply<D>(q: QState<D>, t: Timed<D>): QState<D> {
    match t.op
    case PEnqueue(id, body) => Enqueued(q, id, body, t.now)
    case Pop => Popped(q, t.now)
    case PopById(id) => PoppedById(q, id, t.now)
  }

  ghost function ApplyAll<D>(q: QState<D>, ops: seq<Timed<D>>): QState<D>
    decreases |ops|
  {
    if ops == [] then q else ApplyAll(Apply(q, ops[0]), ops[1..])
  }

  ghost function End<D>(from: int, ops: seq<Timed<D>>): int
    decreases |ops|
  {
    if ops == [] then from else End(ops[0].now, ops[1..])
  }

  /** The integral of the queue's size over time. */
  ghost function Area<D>(q: QState<D>, from: int, ops: seq<Timed<D>>): int
    decreases |ops|
  {
    if ops == [] then 0
    else (ops[0].now - from) * |q.entries| + Area(Apply(q, ops[0]), ops[0].now, ops[1..])
  }

  /** How many of the operations added an entry. */
  ghost function Added<D>(q: QState<D>, ops: seq<Timed<D>>): nat
    decreases |ops|
  {
    if ops == [] then 0
    else (if |Apply(q, ops[0]).entries| > |q.entries| then 1 else 0) + Added(Apply(q, ops[0]), ops[1..])
  }

  /** How long the queued entries have waited, in total. */
  ghost function Ages<D>(es: seq<Entry<D>>, now: int): int {
    if es == [] then 0 else (now - es[0].ts) + Ages(es[1..], now)
  }

  lemma {:induction false} AgesAppend<D>(a: seq<Entry<D>>, b: seq<Entry<D>>, now: int)
    ensures Ages(a + b, now) == Ages(a, now) + Ages(b, now)
  {
    if a == [] {
      assert a + b == b;
    } else {
      assert (a + b)[1..] == a[1..] + b;
      AgesAppend(a[1..], b, now);
    }
  }

  lemma AgesInsert<D>(es: seq<Entry<D>>, p: nat, e: Entry<D>, now: int)
    requires p <= |es|
    ensures Ages(Insert(es, p, e), now) == Ages(es, now) + (now - e.ts)
  {
    AgesAppend(es[..p] + [e], es[p..], now);
    AgesAppend(es[..p], [e], now);
    AgesAppend(es[..p], es[p..], now);
    assert es[..p] + es[p..] == es;
    assert [e][1..] == [];
  }

  lemma AgesRemove<D>(es: seq<Entry<D>>, p: nat, now: int)
    requires p < |es|
    ensures Ages(Without(es, p), now) == Ages(es, now) - (now - es[p].ts)
  {
    AgesInsert(Without(es, p), p, es[p], now);
    assert Insert(Without(es, p), p, es[p]) == es;
  }

  lemma {:induction false} AgesLater<D>(es: seq<Entry<D>>, from: int, to: int)
    ensures Ages(es, to) == Ages(es, from) + (to - from) * |es|
  {
    if es != [] {
      AgesLater(es[1..], from, to);
      assert (to - from) * |es| == (to - from) * |es[1..]| + (to - from);
    }
  }

  /**
   At one clock reading, an operation moves waiting time from the queue to the service total and entries to the served
   count.
   */
  lemma ApplyConserves<D>(q: QState<D>, t: Timed<D>)
    ensures var q' := Apply(q, t);
            && q'.serviceRtt + Ages(q'.entries, t.now) == q.serviceRtt + Ages(q.entries, t.now)
            && q'.served + |q'.entries| == q.served + |q.entries| + (if |q'.entries| > |q.entries| then 1 else 0)
  {
    match t.op
    case PEnqueue(id, body) =>
      AgesInsert(q.entries, Position(q.entries, id), Entry(id, body, t.now), t.now);
    case Pop =>
      if q.entries != [] {
        AgesRemove(q.entries, 0, t.now);
      }
    case PopById(id) =>
      if Has(q.entries, id) {
        PositionOfPresent(q.entries, id);
        AgesRemove(q.entries, IndexOf(q.entries, id), t.now);
      }
  }

  /**
   Little's law without the division: over any run, whatever the clock readings, the time spent in
   the queue by the entries served, plus the time so far of those still queued, is the integral of
   the queue's size; and everything added was served or is still queued.
   */
  lemma {:induction false} LittlesLaw<D>(q: QState<D>, from: int, ops: seq<Timed<D>>)
    ensures var q' := ApplyAll(q, ops);
            && q'.serviceRtt + Ages(q'.entries, End(from, ops))
               == q.serviceRtt + Ages(q.entries, from) + Area(q, from, ops)
            && q'.served + |q'.entries| == q.served + |q.entries| + Added(q, ops)
    decreases |ops|
  {
    hide Ages, Apply;
    if ops != [] {
      var q' := Apply(q, ops[0]);
      var rest := ops[1..];
      AgesLater(q.entries, from, ops[0].now);
      ApplyConserves(q, ops[0]);
      LittlesLaw(q', ops[0].now, rest);
      assert Area(q, from, ops) == (ops[0].now - from) * |q.entries| + Area(q', ops[0].now, rest);
      assert ApplyAll(q, ops) == ApplyAll(q', rest) && End(from, ops) == End(ops[0].now, rest);
    }
  }

  /** The sizes a run passes through, each with the id and time of the operation that led to it. */
  ghost function Samples<D>(q: QState<D>, ops: seq<Timed<D>>): seq<Stat>
    decreases |ops|
  {
    if ops == [] then []
    else
      var q' := Apply(q, ops[0]);
      (if q' == q then [] else [Stat(|q'.entries|, TouchedId(q, ops[0]), ops[0].now)]) + Samples(q', ops[1..])
  }

  ghost function TouchedId<D>(q: QState<D>, t: Timed<D>): nat {
    match t.op
    case PEnqueue(id, body) => id
    case Pop => if q.entries == [] then 0 else q.entries[0].id
    case PopById(id) => id
  }

  /** The id recorded for an operation is that of the entry which came or went. */
  lemma TouchedIdMoves<D>(q: QState<D>, t: Timed<D>)
    requires Sorted(q.entries) && Apply(q, t) != q
    ensures Has(Apply(q, t).entries, TouchedId(q, t)) <==> !Has(q.entries, TouchedId(q, t))
  {
    match t.op
    case PEnqueue(id, body) =>
      InsertHas(q.entries, Position(q.entries, id), Entry(id, body, t.now), id);
    case Pop =>
      assert Has(q.entries, q.entries[0].id);
      RemovedIsAbsent(q.entries, 0);
    case PopById(id) =>
      PositionOfPresent(q.entries, id);
      RemovedIsAbsent(q.entries, IndexOf(q.entries, id));
  }

  ghost predicate FirstMax(start: Stat, samples: seq<Stat>, m: Stat) {
    && m.size >= start.size && (forall i | 0 <= i < |samples| :: samples[i].size <= m.size)
    && (m == start || exists i :: 0 <= i < |samples| && samples[i] == m && m.size > start.size
                                  && forall j | 0 <= j < i :: samples[j].size < m.size)
  }

  ghost predicate FirstMin(start: Stat, samples: seq<Stat>, m: Stat) {
    && m.size <= start.size && (forall i | 0 <= i < |samples| :: samples[i].size >= m.size)
    && (m == start || exists i :: 0 <= i < |samples| && samples[i] == m && m.size < start.size
                                  && forall j | 0 <= j < i :: samples[j].size > m.size)
  }

  lemma FirstMaxCons(start: Stat, x: Stat, samples: seq<Stat>, m: Stat)
    requires FirstMax(UpdateMax(start, x.size, x.id, x.ts), samples, m)
    ensures FirstMax(start, [x] + samples, m)
  {
    var s := [x] + samples;
    forall i | 0 <= i < |s| ensures s[i].size <= m.size {
      assert i > 0 ==> s[i] == samples[i - 1];
    }
    if m != start {
      if m == UpdateMax(start, x.size, x.id, x.ts) {
        assert s[0] == m;
      } else {
        var i :| 0 <= i < |samples| && samples[i] == m && m.size > UpdateMax(start, x.size, x.id, x.ts).size
                 && forall j | 0 <= j < i :: samples[j].size < m.size;
        assert s[i + 1] == m;
        forall j | 0 <= j < i + 1 ensures s[j].size < m.size {
          assert j > 0 ==> s[j] == samples[j - 1];
        }
      }
    }
  }

  lemma FirstMinCons(start: Stat, x: Stat, samples: seq<Stat>, m: Stat)
    requires FirstMin(UpdateMin(start, x.size, x.id, x.ts), samples, m)
    ensures FirstMin(start, [x] + samples, m)
  {
    var s := [x] + samples;
    forall i | 0 <= i < |s| ensures s[i].size >= m.size {
      assert i > 0 ==> s[i] == samples[i - 1];
    }
    if m != start {
      if m == UpdateMin(start, x.size, x.id, x.ts) {
        assert s[0] == m;
      } else {
        var i :| 0 <= i < |samples| && samples[i] == m && m.size < UpdateMin(start, x.size, x.id, x.ts).size
                 && forall j | 0 <= j < i :: samples[j].size > m.size;
        assert s[i + 1] == m;
        forall j | 0 <= j < i + 1 ensures s[j].size > m.size {
          assert j > 0 ==> s[j] == samples[j - 1];
        }
      }
    }
  }

  /** After any run the extreme sizes are those of the run, each with the operation that reached it first. */
  lemma {:induction false} ExtremesRecorded<D>(q: QState<D>, ops: seq<Timed<D>>)
    ensures FirstMax(q.maxima, Samples(q, ops), ApplyAll(q, ops).maxima)
    ensures FirstMin(q.minima, Samples(q, ops), ApplyAll(q, ops).minima)
    decreases |ops|
  {
    if ops != [] {
      var t := ops[0];
      var q' := Apply(q, t);
      ExtremesRecorded(q', ops[1..]);
      if q' != q {
        var x := Stat(|q'.entries|, TouchedId(q, t), t.now);
        StatsUpdated(q, t);
        FirstMaxCons(q.maxima, x, Samples(q', ops[1..]), ApplyAll(q', ops[1..]).maxima);
        FirstMinCons(q.minima, x, Samples(q', ops[1..]), ApplyAll(q', ops[1..]).minima);
      } else {
        assert [] + Samples(q', ops[1..]) == Samples(q', ops[1..]);
      }
    }
  }

  lemma StatsUpdated<D>(q: QState<D>, t: Timed<D>)
    requires Apply(q, t) != q
    ensures var q' := Apply(q, t);
            && q'.maxima == UpdateMax(q.maxima, |q'.entries|, TouchedId(q, t), t.now)
            && q'.minima == UpdateMin(q.minima, |q'.entries|, TouchedId(q, t), t.now)
  {
  }

  // ---- runs from a new queue ----

  ghost predicate FirstLeast(samples: seq<Stat>, m: Stat) {
    && (forall i | 0 <= i < |samples| :: samples[i].size >= m.size)
    && exists i :: 0 <= i < |samples| && samples[i] == m && forall j | 0 <= j < i :: samples[j].size > m.size
  }

  ghost predicate FirstGreatest(samples: seq<Stat>, m: Stat) {
    && (forall i | 0 <= i < |samples| :: samples[i].size <= m.size)
    && exists i :: 0 <= i < |samples| && samples[i] == m && forall j | 0 <= j < i :: samples[j].size < m.size
  }

  /** The first operation that changes an empty queue adds an entry. */
  lemma {:induction false} FirstSampleIsOne<D>(q: QState<D>, ops: seq<Timed<D>>)
    requires q.entries == [] && Samples(q, ops) != []
    ensures Samples(q, ops)[0].size == 1
    decreases |ops|
  {
    var t := ops[0];
    if Apply(q, t) == q {
      assert Samples(q, ops) == Samples(q, ops[1..]);
      FirstSampleIsOne(q, ops[1..]);
    } else {
      assert t.op.PEnqueue?;
    }
  }

  /**
   After a run that changed a new queue, the extremes are sizes that the run passed through, the first of their kind.
   */
  lemma ExtremesFromNew<D>(ops: seq<Timed<D>>)
    requires Samples(InitQueue<D>(), ops) != []
    requires forall i | 0 <= i < |Samples(InitQueue<D>(), ops)| :: Samples(InitQueue<D>(), ops)[i].size < UINT32 - 1
    ensures FirstLeast(Samples(InitQueue<D>(), ops), ApplyAll(InitQueue<D>(), ops).minima)
    ensures FirstGreatest(Samples(InitQueue<D>(), ops), ApplyAll(InitQueue<D>(), ops).maxima)
  {
    var q := InitQueue<D>();
    var samples := Samples(q, ops);
    ExtremesRecorded(q, ops);
    FirstSampleIsOne(q, ops);
    assert samples[0].size == 1;
  }

  /** Of a new queue: what was added was served or is queued, and all waiting together is the integral of the size. */
  lemma LittlesLawFromNew<D>(from: int, ops: seq<Timed<D>>)
    ensures var (start, q) := (InitQueue<D>(), ApplyAll(InitQueue<D>(), ops));
            && q.serviceRtt + Ages(q.entries, End(from, ops)) == Area(start, from, ops)
            && q.served + |q.entries| == Added(start, ops)
  {
    LittlesLaw(InitQueue<D>(), from, ops);
  }
}
