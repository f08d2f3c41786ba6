/** The linked list behind a queue: nodes edited through a pointer to the link that leads to them. */
module PriorityQueue {
  import opened Basics
  import opened Collections
  import opened QueueSpec

  class Node<D> {
    const id: nat        // the first word of the data
    var body: D          // the rest of the data
    const ts: int
    var next: Node?<D>

    constructor (id: nat, body: D, ts: int, next: Node?<D>)
      ensures this.id == id && this.body == body && this.ts == ts && this.next == next
    {
      this.id, this.body, this.ts, this.next := id, body, ts, next;
    }
  }

  /** The nodes hold the entries, wherever their links lead. */
  ghost predicate Hold<D>(nodes: seq<Node<D>>, entries: seq<Entry<D>>)
    reads nodes
  {
    |nodes| == |entries| && forall i | 0 <= i < |nodes| :: entries[i] == Entry(nodes[i].id, nodes[i].body, nodes[i].ts)
  }

  /** From `head`, the links lead through `nodes` to the end of the list; the nodes hold `entries`. */
  ghost predicate Chain<D>(head: Node?<D>, nodes: seq<Node<D>>, entries: seq<Entry<D>>)
    reads nodes
  {
    && Hold(nodes, entries)
    && head == (if nodes == [] then null else nodes[0])
    && (forall i | 0 <= i < |nodes| - 1 :: nodes[i].next == nodes[i + 1])
    && (nodes != [] ==> nodes[|nodes| - 1].next == null)
  }

  /** The nodes of a sorted list are distinct. */
  lemma DistinctNodes<D>(head: Node?<D>, nodes: seq<Node<D>>, entries: seq<Entry<D>>)
    requires Sorted(entries) && Chain(head, nodes, entries)
    ensures forall i, j | 0 <= i < j < |nodes| :: nodes[i] != nodes[j]
  {
    forall i, j | 0 <= i < j < |nodes| ensures nodes[i] != nodes[j] {
      assert entries[i].id < entries[j].id;
    }
  }

  /** The node that follows position `i` in the list. */
  ghost function After<D>(nodes: seq<Node<D>>, i: nat): Node?<D> {
    if i + 1 < |nodes| then nodes[i + 1] else null
  }

  /** A chain into which `node` has been linked before position `p`. */
  lemma Spliced<D>(head: Node?<D>, nodes: seq<Node<D>>, entries: seq<Entry<D>>, p: nat, node: Node<D>)
    requires Hold(nodes, entries) && p <= |nodes|
    requires head == (if p == 0 then node else nodes[0])
    requires node.next == if p < |nodes| then nodes[p] else null
    requires forall i | 0 <= i < |nodes| :: nodes[i].next == if i == p - 1 then node else After(nodes, i)
    ensures Chain(head, Insert(nodes, p, node), Insert(entries, p, Entry(node.id, node.body, node.ts)))
  {
    var r, es := Insert(nodes, p, node), Insert(entries, p, Entry(node.id, node.body, node.ts));
    hide Insert;
    forall i | 0 <= i < |r|
      ensures es[i] == Entry(r[i].id, r[i].body, r[i].ts) && r[i].next == After(r, i)
    {
      InsertAt(nodes, p, node, i);
      InsertAt(entries, p, Entry(node.id, node.body, node.ts), i);
      if i + 1 < |r| {
        InsertAt(nodes, p, node, i + 1);
      }
    }
    InsertAt(nodes, p, node, 0);
  }

  /** A chain from which the node at position `p` has been unlinked. */
  lemma Unlinked<D>(head: Node?<D>, nodes: seq<Node<D>>, entries: seq<Entry<D>>, p: nat)
    requires Hold(nodes, entries) && p < |nodes|
    requires head == (if p == 0 then After(nodes, 0) else nodes[0])
    requires forall i | 0 <= i < |nodes| :: nodes[i].next == if i == p - 1 then After(nodes, p) else After(nodes, i)
    ensures Chain(head, Without(nodes, p), Without(entries, p))
  {
    var r, es := Without(nodes, p), Without(entries, p);
    hide Without;
    forall i | 0 <= i < |r|
      ensures es[i] == Entry(r[i].id, r[i].body, r[i].ts) && r[i].next == After(r, i)
    {
      WithoutAt(nodes, p, i);
      WithoutAt(entries, p, i);
      if i + 1 < |r| {
        WithoutAt(nodes, p, i + 1);
      }
    }
    if r != [] {
      WithoutAt(nodes, p, 0);
    }
  }

  class Queue<D> {
    var head: Node?<D>
    var size: nat
    var minima: Stat
    var maxima: Stat
    var serviceRtt: int
    var served: nat
    var nextEventId: nat

    ghost var spine: seq<Node<D>>         // the nodes, in list order
    ghost var entries: seq<Entry<D>>      // what they hold
    ghost var Repr: set<object>

    ghost predicate Valid()
      reads this, Repr
      ensures Valid() ==> this in Repr
    {
      && this in Repr
      && (forall i | 0 <= i < |spine| :: spine[i] in Repr)
      && size == |spine|
      && Sorted(entries)
      && Chain(head, spine, entries)
    }

    /** The queue as a value. */
    ghost function View(): QState<D>
      reads this
    {
      QState(entries, minima, maxima, serviceRtt, served, nextEventId)
    }

    constructor ()
      ensures Valid() && fresh(Repr)
      ensures View() == InitQueue<D>()
      ensures View() == QState([], Stat(UINT32 - 1, 0, 0), Stat(0, 0, 0), 0, 0, 0)
    {
      head, size := null, 0;
      minima, maxima := Stat(UINT32 - 1, 0, 0), Stat(0, 0, 0);
      serviceRtt, served, nextEventId := 0, 0, 0;
      spine, entries, Repr := [], [], {this};
    }

    method IsEmpty() returns (empty: bool)
      requires Valid()
      ensures empty <==> entries == []
    {
      empty := size == 0;
    }

    method UpdateStats(size: nat, id: nat, ts: int)
      requires Valid()
      modifies this`maxima, this`minima
      ensures Valid()
      ensures maxima == UpdateMax(old(maxima), size, id, ts)
      ensures minima == UpdateMin(old(minima), size, id, ts)
    {
      if size > maxima.size {
        maxima := Stat(size, id, ts);
      }
      if size < minima.size {
        minima := Stat(size, id, ts);
      }
    }

    method UpdateServiceStats(rtt: int)
      requires Valid()
      modifies this`serviceRtt, this`served
      ensures Valid()
      ensures serviceRtt == old(serviceRtt) + rtt && served == old(served) + 1
    {
      serviceRtt := serviceRtt + rtt;
      served := served + 1;
    }

    /** The id counter is a 32-bit word. */
    method GetIncNextEventId() returns (id: nat)
      requires Valid()
      modifies this`nextEventId
      ensures Valid()
      ensures id == old(nextEventId) && nextEventId == (old(nextEventId) + 1) % UINT32
    {
      id := nextEventId;
      nextEventId := (nextEventId + 1) % UINT32;
    }

    /** The walk of `p_enqueue`: up to the first node whose id is not below `id`. */
    method Locate(id: nat) returns (toAdd: Node?<D>, itr: Node?<D>, ghost p: nat)
      requires Valid()
      ensures p == Position(entries, id) <= |spine|
      ensures itr == (if p < |spine| then spine[p] else null) && toAdd == (if p == 0 then null else spine[p - 1])
      ensures (itr != null && itr.id == id) <==> Has(entries, id)
      ensures !Has(entries, id) ==> forall e: Entry<D> :: e.id == id ==> Sorted(Insert(entries, p, e))
    {
      itr := head;
      toAdd := null;                  // the node whose link is to be set, or null for the list head
      p := 0;
      while itr != null && itr.id < id
        invariant 0 <= p <= |spine|
        invariant itr == (if p < |spine| then spine[p] else null) && toAdd == (if p == 0 then null else spine[p - 1])
        invariant forall i | 0 <= i < p :: entries[i].id < id
        decreases |spine| - p
      {
        toAdd := itr;
        itr := itr.next;
        p := p + 1;
      }
      assert p < |spine| ==> entries[p].id == itr.id;
      assert p == Position(entries, id);
      PresentWhereItBelongs(entries, id);
      if !Has(entries, id) {
        forall e: Entry<D> | e.id == id ensures Sorted(Insert(entries, p, e)) {
          InsertSorted(entries, e);
        }
      }
    }

    /** An id already queued is refused; a new one is linked in where it belongs. */
    method PEnqueue(id: nat, body: D, now: int) returns (ok: bool)
      requires Valid()
      modifies Repr
      ensures Valid() && fresh(Repr - old(Repr))
      ensures ok <==> !Has(old(entries), id)
      ensures View() == Enqueued(old(View()), id, body, now)
    {
      hide Sorted, Chain;
      var toAdd, itr, p := Locate(id);
      if itr != null && itr.id == id {
        return false;
      }
      AddAt(p, toAdd, itr, id, body, now);
      UpdateStats(size, id, now);
      return true;
    }

    /** Adds an entry in between `toAdd` and `itr`. */
    method AddAt(ghost p: nat, toAdd: Node?<D>, itr: Node?<D>, id: nat, body: D, now: int)
      requires Valid() && p <= |spine|
      requires itr == (if p < |spine| then spine[p] else null) && toAdd == (if p == 0 then null else spine[p - 1])
      requires Sorted(Insert(entries, p, Entry(id, body, now)))
      modifies Repr
      ensures Valid() && fresh(Repr - old(Repr))
      ensures View() == old(View()).(entries := Insert(old(entries), p, Entry(id, body, now)))
      ensures size == |entries|
    {
      hide Sorted;
      var node := Splice(p, toAdd, itr, id, body, now);
      size := size + 1;
      spine := Insert(spine, p, node);
      entries := Insert(entries, p, Entry(id, body, now));
      Repr := Repr + {node};
    }

    /** Allocates a node and links it in between `toAdd` and `itr`. */
    method Splice(ghost p: nat, toAdd: Node?<D>, itr: Node?<D>, id: nat, body: D, now: int) returns (node: Node<D>)
      requires Sorted(entries) && Chain(head, spine, entries) && p <= |spine|
      requires itr == (if p < |spine| then spine[p] else null) && toAdd == (if p == 0 then null else spine[p - 1])
      modifies `head, spine
      ensures fresh(node)
      ensures Chain(head, Insert(spine, p, node), Insert(entries, p, Entry(id, body, now)))
    {
      DistinctNodes(head, spine, entries);
      hide Insert, Sorted;
      node := new Node(id, body, now, itr);
      if toAdd == null {
        head := node;
      } else {
        toAdd.next := node;
      }
      assert forall i | 0 <= i < |spine| :: spine[i].next == if i == p - 1 then node else old(spine[i].next);
      Spliced(head, spine, entries, p, node);
    }

    /** Unlinks the node after `toPop`. */
    method Unlink(ghost p: nat, toPop: Node?<D>, itr: Node<D>)
      requires Sorted(entries) && Chain(head, spine, entries) && p < |spine|
      requires itr == spine[p] && toPop == (if p == 0 then null else spine[p - 1])
      modifies `head, spine
      ensures Chain(head, Without(spine, p), Without(entries, p))
    {
      DistinctNodes(head, spine, entries);
      hide Without, Sorted;
      if toPop == null {
        head := itr.next;
      } else {
        toPop.next := itr.next;
      }
      assert forall i | 0 <= i < |spine| :: spine[i].next == if i == p - 1 then itr.next else old(spine[i].next);
      Unlinked(head, spine, entries, p);
    }

    /** Removes an entry. */
    method DropAt(ghost p: nat, toPop: Node?<D>, itr: Node<D>)
      requires Valid() && p < |spine|
      requires itr == spine[p] && toPop == (if p == 0 then null else spine[p - 1])
      requires Sorted(Without(entries, p))
      modifies Repr
      ensures Valid() && Repr == old(Repr)
      ensures View() == old(View()).(entries := Without(old(entries), p))
    {
      hide Sorted;
      Unlink(p, toPop, itr);
      size := size - 1;
      spine := Without(spine, p);
      entries := Without(entries, p);
    }

    /** Removes an entry and counts its service. */
    method RemoveAt(ghost p: nat, toPop: Node?<D>, itr: Node<D>, now: int)
      requires Valid() && p < |spine|
      requires itr == spine[p] && toPop == (if p == 0 then null else spine[p - 1])
      modifies Repr
      ensures Valid() && Repr == old(Repr)
      ensures View() == RemovedAt(old(View()), p, now)
    {
      ghost var e := entries[p];
      assert e.id == itr.id && e.ts == itr.ts;
      RemoveSorted(entries, p);
      DropAt(p, toPop, itr);
      UpdateServiceStats(now - itr.ts);
      UpdateStats(size, itr.id, now);
    }

    method Pop(now: int) returns (r: Option<(nat, D)>)
      requires Valid()
      modifies Repr
      ensures Valid() && Repr == old(Repr)
      ensures View() == Popped(old(View()), now)
      ensures r == if old(entries) == [] then None else Some((old(entries[0].id), old(entries[0].body)))
    {
      if size == 0 {
        return None;
      }
      var ent := head;
      r := Some((ent.id, ent.body));
      RemoveAt(0, null, ent, now);
    }

    /** The walk of `pop_by_id` and `peek_by_id`: up to the node with the id. */
    method Search(id: nat) returns (toPop: Node?<D>, itr: Node?<D>, ghost p: nat)
      requires Valid()
      ensures p == IndexOf(entries, id) <= |spine|
      ensures itr == (if p < |spine| then spine[p] else null) && toPop == (if p == 0 then null else spine[p - 1])
      ensures itr != null <==> Has(entries, id)
      ensures itr != null ==> id in AsMap(entries) && AsMap(entries)[id] == itr.body
    {
      itr := head;
      toPop := null;
      p := 0;
      while itr != null && itr.id != id
        invariant 0 <= p <= |spine|
        invariant itr == (if p < |spine| then spine[p] else null) && toPop == (if p == 0 then null else spine[p - 1])
        invariant forall i | 0 <= i < p :: entries[i].id != id
        decreases |spine| - p
      {
        toPop := itr;
        itr := itr.next;
        p := p + 1;
      }
      assert p < |spine| ==> entries[p].id == id;
      assert p == IndexOf(entries, id);
      if itr != null {
        AsMapAt(entries, p);
      }
    }

    method PopById(id: nat, now: int) returns (r: Option<D>)
      requires Valid()
      modifies Repr
      ensures Valid() && Repr == old(Repr)
      ensures View() == PoppedById(old(View()), id, now)
      ensures r.Some? <==> Has(old(entries), id)
      ensures r.Some? ==> id in AsMap(old(entries)) && r.value == AsMap(old(entries))[id]
    {
      var toPop, itr, p := Search(id);
      if itr == null {
        return None;
      }
      r := Some(itr.body);
      RemoveAt(p, toPop, itr, now);
    }

    /** The node whose data the C code hands out a pointer to. */
    method PeekById(id: nat) returns (node: Node?<D>, ghost p: nat)
      requires Valid()
      ensures node != null <==> Has(entries, id)
      ensures node != null ==> p < |spine| && node == spine[p] && entries[p].id == id
      ensures node != null ==> id in AsMap(entries) && AsMap(entries)[id] == node.body
    {
      var toPop;
      toPop, node, p := Search(id);
    }

    /** An assignment through a pointer that `PeekById` handed out. */
    method Assign(node: Node<D>, ghost p: nat, body: D)
      requires Valid() && p < |spine| && node == spine[p]
      modifies node`body, this`entries
      ensures Valid()
      ensures View() == old(View()).(entries := old(entries)[p := Entry(node.id, body, node.ts)])
      ensures AsMap(entries) == AsMap(old(entries))[node.id := body]
    {
      UpdateAsMap(entries, p, body);
      node.body := body;
      entries := entries[p := Entry(node.id, body, node.ts)];
      forall i | 0 <= i < |spine| ensures entries[i] == Entry(spine[i].id, spine[i].body, spine[i].ts) {
        if i != p {
          assert old(entries)[i].id != old(entries)[p].id;
        }
      }
    }
  }
}
