/** What keeps an open-addressing table with tombstones equal to a finite map. */
module MapSpec {
  import opened Basics
  import Probing

  const HASH_SEED: nat := 53

  datatype NodeState = Unused | Allocated | Freed

  datatype MapNode = MapNode(state: NodeState, key: nat, value: nat)

  type Slots = seq<MapNode>

  /** `(HASH_SEED * (size_t) key) % size`, the product being a 64-bit word. */
  function Hash(key: nat, size: nat): (h: nat)
    requires size > 0
    ensures h < size
  {
    ((HASH_SEED * key) % UINT64) % size
  }

  /** The hash is what the 64-bit product of key and seed leaves over when divided by the size. */
  lemma HashIs(key: nat, size: nat)
    requires size > 0
    ensures exists wraps: nat, rounds: nat ::
              && 53 * key == wraps * UINT64 + (rounds * size + Hash(key, size))
              && rounds * size + Hash(key, size) < UINT64
  {
    var product := 53 * key;
    var word := product % UINT64;
    var wraps: nat, rounds: nat := product / UINT64, word / size;
    assert product == wraps * UINT64 + word;
    assert word == rounds * size + Hash(key, size);
  }

  ghost predicate Holds(slots: Slots, i: nat, key: nat) {
    i < |slots| && slots[i].state == Allocated && slots[i].key == key
  }

  /** No slot between an entry's hash position and the entry is unused. */
  ghost predicate Probed(slots: Slots) {
    forall i, t: nat | 0 <= i < |slots| && slots[i].state == Allocated
                       && t < Probing.Distance(Hash(slots[i].key, |slots|), i, |slots|) ::
      slots[Probing.Slot(Hash(slots[i].key, |slots|), t, |slots|)].state != Unused
  }

  ghost predicate UniqueKeys(slots: Slots) {
    forall i, j | 0 <= i < j < |slots| && slots[i].state == Allocated && slots[j].state == Allocated ::
      slots[i].key != slots[j].key
  }

  /** The allocated slots hold the bindings of `m`. */
  ghost predicate Agree(slots: Slots, m: map<nat, nat>) {
    && (forall i | 0 <= i < |slots| && slots[i].state == Allocated ::
         slots[i].key in m && m[slots[i].key] == slots[i].value)
    && (forall key | key in m :: exists i :: Holds(slots, i, key))
  }

  ghost predicate Represents(slots: Slots, m: map<nat, nat>) {
    |slots| > 0 && Probed(slots) && UniqueKeys(slots) && Agree(slots, m)
  }

  ghost function Count(slots: Slots, state: NodeState): nat {
    if slots == [] then 0
    else Count(slots[..|slots| - 1], state) + if slots[|slots| - 1].state == state then 1 else 0
  }

  lemma {:induction false} CountUpdate(slots: Slots, i: nat, node: MapNode, state: NodeState)
    requires i < |slots|
    ensures Count(slots[i := node], state)
         == Count(slots, state) - (if slots[i].state == state then 1 else 0) + (if node.state == state then 1 else 0)
    decreases |slots|
  {
    var n := |slots| - 1;
    if i < n {
      CountUpdate(slots[..n], i, node, state);
      assert slots[i := node][..n] == slots[..n][i := node];
    } else {
      assert slots[i := node][..n] == slots[..n];
    }
  }

  lemma {:induction false} CountAll(slots: Slots)
    ensures Count(slots, Allocated) + Count(slots, Freed) <= |slots|
    ensures Count(slots, Allocated) + Count(slots, Freed) == |slots|
            <==> forall i | 0 <= i < |slots| :: slots[i].state != Unused
    decreases |slots|
  {
    if slots != [] {
      var n := |slots| - 1;
      CountAll(slots[..n]);
      if Count(slots[..n], Allocated) + Count(slots[..n], Freed) != n {
        var i :| 0 <= i < n && slots[..n][i].state == Unused;
        assert slots[i].state == Unused;
      }
    }
  }

  lemma {:induction false} CountNone(slots: Slots, state: NodeState)
    requires forall i | 0 <= i < |slots| :: slots[i].state != state
    ensures Count(slots, state) == 0
    decreases |slots|
  {
    if slots != [] {
      CountNone(slots[..|slots| - 1], state);
    }
  }

  lemma NoneAllocated(slots: Slots, m: map<nat, nat>)
    requires Agree(slots, m)
    ensures Count(slots, Allocated) == 0 <==> m == map[]
  {
    if i :| 0 <= i < |slots| && slots[i].state == Allocated {
      CountSome(slots, i);
      assert slots[i].key in m;
    } else {
      CountNone(slots, Allocated);
      forall key ensures key !in m {}
    }
  }

  lemma CountSome(slots: Slots, i: nat)
    requires i < |slots|
    ensures Count(slots, slots[i].state) > 0
  {
    CountUpdate(slots, i, MapNode(if slots[i].state == Unused then Freed else Unused, 0, 0), slots[i].state);
  }

  lemma AgreeUnique(slots: Slots, m: map<nat, nat>, m': map<nat, nat>)
    requires Agree(slots, m) && Agree(slots, m')
    ensures m == m'
  {
    forall key ensures key in m <==> key in m' {}
    forall key | key in m ensures m[key] == m'[key] {
      var i :| Holds(slots, i, key);
    }
  }

  /** `t` steps along the key's probe sequence, nothing unused and no entry for the key. */
  ghost predicate Passed(slots: Slots, key: nat, t: nat) {
    && 0 < |slots| && t <= |slots|
    && forall u: nat | u < t ::
         var i := Probing.Slot(Hash(key, |slots|), u, |slots|);
         slots[i].state != Unused && !Holds(slots, i, key)
  }

  /** The first `t` slots on the key's probe are allocated. */
  ghost predicate AllTaken(slots: Slots, key: nat, t: nat) {
    && 0 < |slots| && t <= |slots|
    && forall u: nat | u < t :: slots[Probing.Slot(Hash(key, |slots|), u, |slots|)].state == Allocated
  }

  /** The slot at distance `t` is the first on the key's probe that is not allocated. */
  ghost predicate OpenAt(slots: Slots, key: nat, t: nat) {
    && t < |slots| && AllTaken(slots, key, t)
    && slots[Probing.Slot(Hash(key, |slots|), t, |slots|)].state != Allocated
  }

  /** The table with a node for the key in the first slot of its probe that is not allocated. */
  ghost function Filled(slots: Slots, key: nat, value: nat): Slots {
    if t: nat :| OpenAt(slots, key, t)
    then slots[Probing.Slot(Hash(key, |slots|), t, |slots|) := MapNode(Allocated, key, value)]
    else slots
  }

  lemma FirstOpenIs(slots: Slots, key: nat, t: nat)
    requires OpenAt(slots, key, t)
    ensures forall value ::
              Filled(slots, key, value)
                == slots[Probing.Slot(Hash(key, |slots|), t, |slots|) := MapNode(Allocated, key, value)]
  {
    forall u: nat | OpenAt(slots, key, u) ensures u == t {}
  }

  /** A probe that ran into an unused slot, or all the way round, has shown the key absent. */
  lemma PassedIsAbsent(slots: Slots, m: map<nat, nat>, key: nat, t: nat)
    requires Represents(slots, m) && Passed(slots, key, t)
    requires t == |slots| || slots[Probing.Slot(Hash(key, |slots|), t, |slots|)].state == Unused
    ensures key !in m
  {
    forall i: nat ensures !Holds(slots, i, key) {
      if i < |slots| {
        var d := Probing.Distance(Hash(key, |slots|), i, |slots|);
        assert d >= t || slots[Probing.Slot(Hash(key, |slots|), d, |slots|)].state != Unused;
      }
    }
  }

  lemma HeldIsBound(slots: Slots, m: map<nat, nat>, i: nat, key: nat)
    requires Represents(slots, m) && Holds(slots, i, key)
    ensures key in m && m[key] == slots[i].value
  {
  }

  /** With an unused slot left, no probe goes all the way round. */
  lemma ProbeEnds(slots: Slots, key: nat)
    requires Count(slots, Allocated) + Count(slots, Freed) < |slots|
    ensures !Passed(slots, key, |slots|)
  {
    CountAll(slots);
    var i :| 0 <= i < |slots| && slots[i].state == Unused;
    assert Probing.Slot(Hash(key, |slots|), Probing.Distance(Hash(key, |slots|), i, |slots|), |slots|) == i;
  }

  /** Binding a fresh key in a slot its probe reaches. */
  lemma InsertRepresents(slots: Slots, m: map<nat, nat>, key: nat, value: nat, t: nat)
    requires Represents(slots, m) && key !in m && t < |slots| && Passed(slots, key, t)
    requires slots[Probing.Slot(Hash(key, |slots|), t, |slots|)].state != Allocated
    ensures Represents(slots[Probing.Slot(Hash(key, |slots|), t, |slots|) := MapNode(Allocated, key, value)],
            m[key := value])
  {
    var n := |slots|;
    var at := Probing.Slot(Hash(key, n), t, n);
    var r := slots[at := MapNode(Allocated, key, value)];
    Probing.DistanceOf(Hash(key, n), t, n);
    var m' := m[key := value];
    forall k | k in m' ensures exists i :: Holds(r, i, k) {
      if k == key {
        assert Holds(r, at, k);
      } else {
        var i :| Holds(slots, i, k);
        assert Holds(r, i, k);
      }
    }
    forall i | 0 <= i < n && slots[i].state == Allocated ensures slots[i].key != key {
      assert slots[i].key in m;
    }
  }

  /** Erasing an entry leaves a tombstone, which keeps the probes of the others. */
  lemma EraseRepresents(slots: Slots, m: map<nat, nat>, key: nat, i: nat)
    requires Represents(slots, m) && Holds(slots, i, key)
    ensures Represents(slots[i := MapNode(Freed, 0, slots[i].value)], m - {key})
  {
    var r := slots[i := MapNode(Freed, 0, slots[i].value)];
    forall k | k in m - {key} ensures exists j :: Holds(r, j, k) {
      var j :| Holds(slots, j, k);
      assert Holds(r, j, k);
    }
  }

  lemma EmptyRepresents(slots: Slots)
    requires |slots| > 0 && forall i | 0 <= i < |slots| :: slots[i].state == Unused
    ensures Represents(slots, map[])
    ensures Count(slots, Allocated) == Count(slots, Freed) == 0
  {
    CountNone(slots, Allocated);
    CountNone(slots, Freed);
  }

  /** The next allocated slot of a table being copied binds a key the copy does not have yet. */
  lemma PrefixGrows(slots: Slots, m: map<nat, nat>, i: nat)
    requires i < |slots| && UniqueKeys(slots) && Agree(slots[..i], m)
    ensures slots[i].state == Allocated ==>
              slots[i].key !in m && Agree(slots[..i + 1], m[slots[i].key := slots[i].value])
    ensures slots[i].state != Allocated ==> Agree(slots[..i + 1], m)
  {
    var r := slots[..i + 1];
    if slots[i].state == Allocated {
      var key := slots[i].key;
      forall j: nat ensures !Holds(slots[..i], j, key) {}
      var m' := m[key := slots[i].value];
      forall k | k in m' ensures exists j :: Holds(r, j, k) {
        if k == key {
          assert Holds(r, i, k);
        } else {
          var j :| Holds(slots[..i], j, k);
          assert Holds(r, j, k);
        }
      }
      forall j | 0 <= j < |r| && r[j].state == Allocated
        ensures r[j].key in m' && m'[r[j].key] == r[j].value
      {
        if j < i {
          assert slots[..i][j] == r[j];
        }
      }
    } else {
      forall k | k in m ensures exists j :: Holds(r, j, k) {
        var j :| Holds(slots[..i], j, k);
        assert Holds(r, j, k);
      }
      forall j | 0 <= j < |r| && r[j].state == Allocated ensures r[j].key in m && m[r[j].key] == r[j].value {
        assert slots[..i][j] == r[j];
      }
    }
  }
}
