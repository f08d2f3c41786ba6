/** The fixed-size hash map whose entry array ends in a guard cell, searched in two scans. */
module SentinelMap {
  import opened Basics
  import Probing

  datatype Entry<K, V> = Entry(key: K, value: V)

  // ---- what the table stands for; `nothing` marks a free cell ----

  ghost predicate At<K, V>(cells: seq<Entry<K, V>>, i: nat, key: K) {
    i < |cells| && cells[i].key == key
  }

  /** Every cell between a key's ideal cell and the cell it is in is taken. */
  ghost predicate Probed<K, V>(cells: seq<Entry<K, V>>, hash: K -> nat, nothing: K) {
    var n := |cells|;
    forall i, t: nat | 0 <= i < n && cells[i].key != nothing && t < Probing.Distance(hash(cells[i].key) % n, i, n) ::
      cells[Probing.Slot(hash(cells[i].key) % n, t, n)].key != nothing
  }

  ghost predicate UniqueKeys<K, V>(cells: seq<Entry<K, V>>, nothing: K) {
    forall i, j | 0 <= i < j < |cells| && cells[i].key != nothing :: cells[i].key != cells[j].key
  }

  ghost predicate Agree<K, V>(cells: seq<Entry<K, V>>, nothing: K, m: map<K, V>) {
    && (forall i | 0 <= i < |cells| && cells[i].key != nothing ::
         cells[i].key in m && m[cells[i].key] == cells[i].value)
    && (forall key | key in m :: key != nothing && exists i :: At(cells, i, key))
  }

  ghost predicate Represents<K, V>(cells: seq<Entry<K, V>>, hash: K -> nat, nothing: K, m: map<K, V>) {
    |cells| > 0 && Probed(cells, hash, nothing) && UniqueKeys(cells, nothing) && Agree(cells, nothing, m)
  }

  /** Neither free nor the key's. */
  ghost predicate Passable<K, V>(e: Entry<K, V>, nothing: K, key: K) {
    e.key != nothing && e.key != key
  }

  /** Where a search for the key ends: all cells before it along the key's probe sequence were passed. */
  ghost predicate EndsAt<K, V>(cells: seq<Entry<K, V>>, hash: K -> nat, nothing: K, key: K, a: nat) {
    var n := |cells|;
    && a < n && !Passable(cells[a], nothing, key)
    && forall t: nat | t < Probing.Distance(hash(key) % n, a, n) ::
         Passable(cells[Probing.Slot(hash(key) % n, t, n)], nothing, key)
  }

  /** A search ends at the key if the key is bound, and at a free cell otherwise. */
  lemma EndFindsKey<K, V>(cells: seq<Entry<K, V>>, hash: K -> nat, nothing: K, m: map<K, V>, key: K, a: nat)
    requires Represents(cells, hash, nothing, m) && key != nothing && EndsAt(cells, hash, nothing, key, a)
    ensures cells[a].key == key <==> key in m
    ensures key in m ==> cells[a].value == m[key]
  {
    var n := |cells|;
    if key in m {
      var i :| At(cells, i, key);
      var d, e := Probing.Distance(hash(key) % n, i, n), Probing.Distance(hash(key) % n, a, n);
      assert Probing.Slot(hash(key) % n, d, n) == i && Probing.Slot(hash(key) % n, e, n) == a;
      assert d >= e;
      assert d > e ==> cells[a].key != nothing;
    }
  }

  /** Writing the key where its search ended binds it. */
  lemma WriteRepresents<K, V>(cells: seq<Entry<K, V>>, hash: K -> nat, nothing: K, m: map<K, V>,
                              key: K, value: V, a: nat)
    requires Represents(cells, hash, nothing, m) && key != nothing && EndsAt(cells, hash, nothing, key, a)
    ensures Represents(cells[a := Entry(key, value)], hash, nothing, m[key := value])
  {
    var r, m' := cells[a := Entry(key, value)], m[key := value];
    EndFindsKey(cells, hash, nothing, m, key, a);
    forall i | 0 <= i < |cells| && i != a && cells[i].key != nothing ensures cells[i].key in m {}
    forall k | k in m' ensures k != nothing && exists i :: At(r, i, k) {
      if k == key {
        assert At(r, a, k);
      } else {
        var i :| At(cells, i, k);
        assert At(r, i, k);
      }
    }
  }

  lemma FreshRepresents<K, V>(cells: seq<Entry<K, V>>, hash: K -> nat, nothing: K)
    requires |cells| > 0 && forall i | 0 <= i < |cells| :: cells[i].key == nothing
    ensures Represents(cells, hash, nothing, map[])
  {
  }

  // ---- how full the table is ----

  ghost predicate Full<K, V>(cells: seq<Entry<K, V>>, nothing: K) {
    forall i | 0 <= i < |cells| :: cells[i].key != nothing
  }

  /** The keys in the cells; a free cell holds none. */
  ghost function Keys<K, V>(cells: seq<Entry<K, V>>, nothing: K): set<K> {
    set i | 0 <= i < |cells| && cells[i].key != nothing :: cells[i].key
  }

  /** The last cell adds its key. */
  lemma KeysOfFront<K, V>(cells: seq<Entry<K, V>>, nothing: K)
    requires cells != []
    ensures var (n, last) := (|cells| - 1, cells[|cells| - 1].key);
            Keys(cells, nothing) == Keys(cells[..n], nothing) + if last != nothing then {last} else {}
  {
    var n := |cells| - 1;
    var front := cells[..n];
    forall k | k in Keys(front, nothing) ensures k in Keys(cells, nothing) {
      var i :| 0 <= i < n && front[i].key == k;
      assert cells[i].key == k;
    }
    forall k | k in Keys(cells, nothing) && k != cells[n].key ensures k in Keys(front, nothing) {
      var i :| 0 <= i <= n && cells[i].key == k;
      assert front[i].key == k;
    }
  }

  lemma UniqueFront<K, V>(cells: seq<Entry<K, V>>, nothing: K)
    requires UniqueKeys(cells, nothing) && cells != []
    ensures UniqueKeys(cells[..|cells| - 1], nothing)
    ensures cells[|cells| - 1].key !in Keys(cells[..|cells| - 1], nothing)
  {
  }

  lemma FullFront<K, V>(cells: seq<Entry<K, V>>, nothing: K)
    requires cells != []
    ensures Full(cells, nothing) <==> Full(cells[..|cells| - 1], nothing) && cells[|cells| - 1].key != nothing
  {
    var front := cells[..|cells| - 1];
    assert forall i | 0 <= i < |front| :: front[i] == cells[i];
  }

  lemma {:induction false} KeysCount<K, V>(cells: seq<Entry<K, V>>, nothing: K)
    requires UniqueKeys(cells, nothing)
    ensures |Keys(cells, nothing)| <= |cells|
    ensures |Keys(cells, nothing)| == |cells| <==> Full(cells, nothing)
    decreases |cells|
  {
    if cells != [] {
      KeysOfFront(cells, nothing);
      UniqueFront(cells, nothing);
      FullFront(cells, nothing);
      hide Keys, Full, UniqueKeys;
      KeysCount(cells[..|cells| - 1], nothing);
    }
  }

  /** The table is full exactly when it has as many bindings as cells. */
  lemma FullCount<K, V>(cells: seq<Entry<K, V>>, hash: K -> nat, nothing: K, m: map<K, V>)
    requires Represents(cells, hash, nothing, m)
    ensures |m| <= |cells|
    ensures Full(cells, nothing) <==> |m| == |cells|
  {
    KeysCount(cells, nothing);
    assert m.Keys == Keys(cells, nothing);
  }

  /** What `get` does: the C code dereferences NULL for `Crash`, and reads memory never written for `Garbage`. */
  datatype Read<V> = Value(value: V) | Garbage | Crash

  class HashMap<K(==), V> {
    const hash: K -> nat
    const capacity: nat
    const nothing: K
    const entries: array<Entry<K, V>>      // `capacity` cells and the guard
    ghost var contents: map<K, V>

    ghost predicate Valid()
      reads this, entries
    {
      && entries.Length == capacity + 1
      && entries[capacity].key == nothing
      && Represents(entries[..capacity], hash, nothing, contents)
    }

    /** `junk` is what the memory held before. */
    constructor (capacity: nat, nothing: K, hash: K -> nat, junk: nat -> V)
      requires capacity > 0
      ensures Valid() && contents == map[] && fresh(entries)
      ensures this.capacity == capacity && this.nothing == nothing && this.hash == hash
    {
      this.capacity, this.nothing, this.hash := capacity, nothing, hash;
      entries := new Entry<K, V>[capacity + 1](i requires i >= 0 => Entry(nothing, junk(i)));
      contents := map[];
      new;
      FreshRepresents(entries[..capacity], hash, nothing);
    }

    function GetIdealAddress(key: K): (a: nat)
      requires capacity > 0
      ensures a < capacity
    {
      hash(key) % capacity
    }

    /** One scan: up to the first cell from `from` on that is free or the key's; the guard is free. */
    method Scan(key: K, from: nat) returns (address: nat)
      requires Valid() && from <= capacity
      ensures from <= address <= capacity
      ensures forall i | from <= i < address :: Passable(entries[i], nothing, key)
      ensures address < capacity ==> !Passable(entries[address], nothing, key)
    {
      address := from;
      while entries[address].key != nothing && entries[address].key != key
        invariant from <= address <= capacity
        invariant forall i | from <= i < address :: Passable(entries[i], nothing, key)
        decreases capacity - address
      {
        address := address + 1;
      }
    }

    /** NULL exactly when the table is full of other keys; never the guard. */
    method GetActualAddress(key: K) returns (address: Option<nat>)
      requires Valid() && key != nothing
      ensures address.None? <==> key !in contents && |contents| == capacity
      ensures address.Some? ==> EndsAt(entries[..capacity], hash, nothing, key, address.value)
    {
      ghost var cells := entries[..capacity];
      FullCount(cells, hash, nothing, contents);
      var a := Scan(key, GetIdealAddress(key));
      if a == capacity {
        a := Scan(key, 0);
        if a == capacity {
          assert forall i | 0 <= i < capacity :: Passable(cells[i], nothing, key);
          assert key !in contents;
          return None;
        }
      }
      assert EndsAt(cells, hash, nothing, key, a);
      EndFindsKey(cells, hash, nothing, contents, key, a);
      return Some(a);
    }

    /** Binds the key, or dereferences NULL, when the table is full of other keys. */
    method Put(key: K, value: V) returns (ok: bool)
      requires Valid() && key != nothing
      modifies this`contents, entries
      ensures Valid()
      ensures ok <==> key in old(contents) || |old(contents)| < capacity
      ensures contents == if ok then old(contents)[key := value] else old(contents)
    {
      FullCount(entries[..capacity], hash, nothing, contents);
      var writeTo := GetActualAddress(key);
      if writeTo.None? {
        return false;
      }
      ghost var cells := entries[..capacity];
      WriteRepresents(cells, hash, nothing, contents, key, value, writeTo.value);
      entries[writeTo.value] := Entry(key, value);
      contents := contents[key := value];
      assert entries[..capacity] == cells[writeTo.value := Entry(key, value)];
      return true;
    }

    /** The value of a key that is present. An absent key crashes the program only if the table is full. */
    method Get(key: K) returns (r: Read<V>)
      requires Valid() && key != nothing
      ensures r == if key in contents then Value(contents[key]) else if |contents| == capacity then Crash else Garbage
    {
      var readFrom := GetActualAddress(key);
      if readFrom.None? {
        return Crash;
      }
      EndFindsKey(entries[..capacity], hash, nothing, contents, key, readFrom.value);
      var e := entries[readFrom.value];
      return if e.key == key then Value(e.value) else Garbage;
    }
  }
}
