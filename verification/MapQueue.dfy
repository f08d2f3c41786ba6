/** The queue operations the handlers use, as operations on finite maps. */
module MapQueue {
  import opened Basics
  import opened Collections
  import opened QueueSpec
  import opened PriorityQueue

  /** The map a queue stands for. */
  ghost function Data<D>(q: Queue<D>): map<nat, D>
    reads q
  {
    AsMap(q.entries)
  }

  lemma EnqueuedData<D>(q: QState<D>, id: nat, body: D, now: int)
    requires Sorted(q.entries)
    ensures AsMap(Enqueued(q, id, body, now).entries) == PutIfAbsent(AsMap(q.entries), id, body)
    ensures Enqueued(q, id, body, now).nextEventId == q.nextEventId
  {
    if !Has(q.entries, id) {
      InsertSorted(q.entries, Entry(id, body, now));
      InsertAsMap(q.entries, Position(q.entries, id), Entry(id, body, now));
    }
  }

  lemma PoppedByIdData<D>(q: QState<D>, id: nat, now: int)
    requires Sorted(q.entries)
    ensures AsMap(PoppedById(q, id, now).entries)
            == if Has(q.entries, id) then AsMap(q.entries) - {id} else AsMap(q.entries)
    ensures PoppedById(q, id, now).nextEventId == q.nextEventId
  {
    if Has(q.entries, id) {
      PositionOfPresent(q.entries, id);
      RemoveAsMap(q.entries, IndexOf(q.entries, id));
    }
  }

  lemma EmptyData<D>(q: QState<D>)
    ensures q.entries == [] <==> AsMap(q.entries) == map[]
  {
    if q.entries != [] {
      assert Has(q.entries, q.entries[0].id);
    }
  }

  /** `pop` takes the entry with the least id. */
  lemma PoppedData<D>(q: QState<D>, now: int)
    requires Sorted(q.entries)
    ensures q.entries == [] <==> AsMap(q.entries) == map[]
    ensures Popped(q, now).nextEventId == q.nextEventId
    ensures q.entries != [] ==>
              && Min(AsMap(q.entries).Keys) == q.entries[0].id
              && AsMap(q.entries)[q.entries[0].id] == q.entries[0].body
              && AsMap(Popped(q, now).entries) == AsMap(q.entries) - {q.entries[0].id}
  {
    EmptyData(q);
    if q.entries != [] {
      AsMapAt(q.entries, 0);
      var keys := AsMap(q.entries).Keys;
      forall id | id in keys ensures q.entries[0].id <= id {
        var i :| 0 <= i < |q.entries| && q.entries[i].id == id;
      }
      assert q.entries[0].id in keys;
      RemoveAsMap(q.entries, 0);
    }
  }

  method NewQueue<D>() returns (q: Queue<D>)
    ensures q.Valid() && fresh(q.Repr) && q.nextEventId == 0
    ensures Data(q) == map[]
  {
    q := new Queue();
  }

  method Enqueue<D>(q: Queue<D>, id: nat, body: D, now: int)
    requires q.Valid()
    modifies q.Repr
    ensures q.Valid() && fresh(q.Repr - old(q.Repr)) && q.nextEventId == old(q.nextEventId)
    ensures Data(q) == PutIfAbsent(old(Data(q)), id, body)
  {
    EnqueuedData(q.View(), id, body, now);
    var ok := q.PEnqueue(id, body, now);
  }

  method TakeById<D>(q: Queue<D>, id: nat, now: int) returns (r: Option<D>)
    requires q.Valid()
    modifies q.Repr
    ensures q.Valid() && q.Repr == old(q.Repr) && q.nextEventId == old(q.nextEventId)
    ensures Data(q) == if id in old(Data(q)) then Drop(old(Data(q)), id) else old(Data(q))
    ensures r == if id in old(Data(q)) then Some(old(Data(q))[id]) else None
  {
    PoppedByIdData(q.View(), id, now);
    r := q.PopById(id, now);
  }

  method IsEmpty<D>(q: Queue<D>) returns (empty: bool)
    requires q.Valid()
    ensures empty <==> Data(q) == map[]
  {
    EmptyData(q.View());
    empty := q.IsEmpty();
  }

  method TakeFirst<D>(q: Queue<D>, now: int) returns (id: nat, body: D)
    requires q.Valid() && Data(q) != map[]
    modifies q.Repr
    ensures q.Valid() && q.Repr == old(q.Repr) && q.nextEventId == old(q.nextEventId)
    ensures id == Min(old(Data(q)).Keys) && body == old(Data(q))[id]
    ensures Data(q) == Drop(old(Data(q)), id)
  {
    PoppedData(q.View(), now);
    var r := q.Pop(now);
    id, body := r.value.0, r.value.1;
  }

  method NextId<D>(q: Queue<D>) returns (id: nat)
    requires q.Valid()
    modifies q
    ensures q.Valid() && q.Repr == old(q.Repr)
    ensures id == old(q.nextEventId) && q.nextEventId == (old(q.nextEventId) + 1) % UINT32
    ensures Data(q) == old(Data(q))
  {
    id := q.GetIncNextEventId();
  }

  /** An assignment to the data of the node that `PeekById` found. */
  method Assign<D>(q: Queue<D>, node: Node<D>, ghost p: nat, body: D)
    requires q.Valid() && p < |q.spine| && node == q.spine[p]
    modifies q.Repr
    ensures q.Valid() && q.Repr == old(q.Repr) && q.nextEventId == old(q.nextEventId)
    ensures Data(q) == old(Data(q))[node.id := body]
  {
    q.Assign(node, p, body);
  }
}
