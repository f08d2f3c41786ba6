/** The tombstone hash table, edited in place, and its doubling rehash. */
module TombstoneMap {
  import opened Basics
  import opened MapSpec
  import Probing

  const NULL: nat := 0

  /** The table has its first size, or its size is within 2n/threshold for n inserts. */
  ghost predicate Grown(size: nat, initialSize: nat, inserted: nat, loadThreshold: real) {
    size == initialSize || size as real * loadThreshold <= 2.0 * inserted as real
  }

  /** `a >= (double) size * threshold`. */
  predicate Loaded(used: nat, size: nat, loadThreshold: real) {
    used as real >= size as real * loadThreshold
  }

  /** The table doubles when its load factor, tombstones included, has reached the threshold. */
  lemma LoadedMeans(used: nat, size: nat, loadThreshold: real)
    requires size > 0
    ensures Loaded(used, size, loadThreshold) <==> used as real / size as real >= loadThreshold
  {
    var factor := used as real / size as real;
    assert factor * size as real == used as real;
    if factor >= loadThreshold {
      assert (factor - loadThreshold) * size as real >= 0.0;
    } else {
      assert (loadThreshold - factor) * size as real > 0.0;
    }
  }

  lemma GrownDoubles(used: nat, size: nat, initialSize: nat, inserted: nat, loadThreshold: real)
    requires Loaded(used, size, loadThreshold) && used <= inserted
    ensures Grown(2 * size, initialSize, inserted, loadThreshold)
  {
    assert (2 * size) as real * loadThreshold == 2.0 * (size as real * loadThreshold);
  }

  lemma GrownMore(size: nat, initialSize: nat, inserted: nat, loadThreshold: real)
    requires Grown(size, initialSize, inserted, loadThreshold)
    ensures Grown(size, initialSize, inserted + 1, loadThreshold)
  {
  }

  lemma NotLoaded(used: nat, size: nat, loadThreshold: real)
    requires 0.0 < loadThreshold <= 1.0 && !Loaded(used, size, loadThreshold)
    ensures used < size
  {
    assert size as real * loadThreshold <= size as real;
  }

  lemma AtMostQuotient(a: real, b: real, c: real)
    requires b > 0.0
    ensures a * b <= c ==> a <= c / b
  {
    var q := c / b;
    assert q * b == c;
    assert a > q ==> (a - q) * b > 0.0;
  }

  class Map {
    var size: nat
    var allocatedCount: nat
    var freedCount: nat
    const loadThreshold: real
    var elements: array<MapNode>

    ghost var contents: map<nat, nat>
    ghost var inserted: nat         // successful calls of Insert
    ghost var scanned: nat          // slots looked at by all rehashes together
    ghost const initialSize: nat

    /** The slots represent `contents`, and the counters count them. */
    ghost predicate Consistent()
      reads this, elements
    {
      && 0 < size == elements.Length
      && Represents(elements[..], contents)
      && allocatedCount == Count(elements[..], Allocated)
      && freedCount == Count(elements[..], Freed)
    }

    /** The table at most doubled what the inserts asked for, and the rehashes added up to less than its size. */
    ghost predicate Amortised()
      reads this
    {
      && allocatedCount + freedCount <= inserted
      && Grown(size, initialSize, inserted, loadThreshold)
      && scanned + initialSize == size
    }

    ghost predicate Valid()
      reads this, elements
    {
      0.0 < loadThreshold <= 1.0 && Consistent() && Amortised()
    }

    constructor (size: nat, loadThreshold: real)
      requires size >= 1 && 0.0 < loadThreshold <= 1.0
      ensures Valid() && fresh(elements)
      ensures contents == map[] && this.size == initialSize == size && inserted == 0
      ensures allocatedCount == freedCount == 0
      ensures this.loadThreshold == loadThreshold
    {
      this.size := size;
      this.loadThreshold := loadThreshold;
      allocatedCount, freedCount := 0, 0;
      contents, inserted, scanned, initialSize := map[], 0, 0, size;
      elements := new MapNode[size](_ => MapNode(Unused, NULL, NULL));
      new;
      EmptyRepresents(elements[..]);
    }

    /** Binds a key that is not bound yet, in the first slot of its probe that is not allocated. */
    method InsertRaw(key: nat, value: nat) returns (ok: bool)
      requires Consistent() && allocatedCount + freedCount < size
      modifies this`allocatedCount, this`freedCount, this`contents, elements
      ensures Consistent()
      ensures ok <==> key !in old(contents)
      ensures contents == if ok then old(contents)[key := value] else old(contents)
      ensures allocatedCount == old(allocatedCount) + if ok then 1 else 0
      ensures old(freedCount) - 1 <= freedCount <= old(freedCount)
      ensures elements[..] == if ok then Filled(old(elements[..]), key, value) else old(elements[..])
    {
      var present, insertIndex, t := SlotFor(key);
      if present {
        return false;
      }
      FirstOpenIs(elements[..], key, t);
      Bind(key, value, insertIndex, t);
      return true;
    }

    /** The loop of `_insert`: the key is met, or the slot to take is. */
    method SlotFor(key: nat) returns (present: bool, insertIndex: nat, ghost t: nat)
      requires Consistent() && allocatedCount + freedCount < size
      ensures present <==> key in contents
      ensures !present ==> t < size && insertIndex == Probing.Slot(Hash(key, size), t, size)
      ensures !present ==> Passed(elements[..], key, t) && OpenAt(elements[..], key, t)
    {
      hide Represents, Count;
      ghost var slots := elements[..];
      var index := Hash(key, size);
      var foundFreedSlot := false;
      insertIndex := index;
      t := 0;                       // the distance of the first tombstone met
      var itr := 0;
      while itr < size
        invariant itr <= size == |slots|
        invariant index == if itr < size then Probing.Slot(Hash(key, size), itr, size) else Hash(key, size)
        invariant Passed(slots, key, itr)
        invariant AllTaken(slots, key, if foundFreedSlot then t else itr)
        invariant foundFreedSlot ==>
                    t < itr && insertIndex == Probing.Slot(Hash(key, size), t, size)
                      && slots[insertIndex].state == Freed
      {
        if elements[index].state == Unused {
          break;
        } else if elements[index].state == Allocated {
          if elements[index].key == key {
            HeldIsBound(slots, contents, index, key);
            return true, index, itr;
          }
        } else if elements[index].state == Freed {
          if !foundFreedSlot {
            insertIndex, foundFreedSlot, t := index, true, itr;
          }
        }
        Probing.Step(Hash(key, size), itr, size);
        index := Probing.Next(index, size);
        itr := itr + 1;
      }
      ProbeEnds(slots, key);
      PassedIsAbsent(slots, contents, key, itr);
      insertIndex, t := if foundFreedSlot then insertIndex else index, if foundFreedSlot then t else itr;
      return false, insertIndex, t;
    }

    /** The end of `_insert`: the slot is taken and the counters follow. */
    method Bind(key: nat, value: nat, insertIndex: nat, ghost t: nat)
      requires Consistent() && t < size && insertIndex == Probing.Slot(Hash(key, size), t, size)
      requires key !in contents && Passed(elements[..], key, t) && elements[insertIndex].state != Allocated
      modifies this`allocatedCount, this`freedCount, this`contents, elements
      ensures Consistent()
      ensures contents == old(contents)[key := value]
      ensures allocatedCount == old(allocatedCount) + 1
      ensures freedCount == old(freedCount) - if old(elements[insertIndex].state) == Freed then 1 else 0
      ensures elements[..] == old(elements[..])[insertIndex := MapNode(Allocated, key, value)]
    {
      ghost var slots := elements[..];
      var node := MapNode(Allocated, key, value);
      InsertRepresents(slots, contents, key, value, t);
      CountUpdate(slots, insertIndex, node, Allocated);
      CountUpdate(slots, insertIndex, node, Freed);
      freedCount := if elements[insertIndex].state == Freed then freedCount - 1 else freedCount;
      elements[insertIndex] := node;
      allocatedCount := allocatedCount + 1;
      contents := contents[key := value];
      assert elements[..] == slots[insertIndex := node];
    }

    /** Doubles the table when it is loaded, copying the entries and dropping the tombstones. */
    method ResizeIfNeeded()
      requires Valid()
      modifies this`size, this`allocatedCount, this`freedCount, this`elements, this`contents, this`scanned
      ensures Valid()
      ensures elements == old(elements) || fresh(elements)
      ensures contents == old(contents) && inserted == old(inserted)
      ensures allocatedCount + freedCount < size
      ensures size == if old(Loaded(allocatedCount + freedCount, size, loadThreshold)) then 2 * old(size) else old(size)
      ensures size != old(size) ==> freedCount == 0
      ensures size == old(size) ==> allocatedCount == old(allocatedCount) && freedCount == old(freedCount)
    {
      hide Probed, Agree, Count;
      if Loaded(allocatedCount + freedCount, size, loadThreshold) {
        var currentElements, currentSize := elements, size;
        ghost var slots, was := elements[..], contents;
        CountAll(slots);
        GrownDoubles(allocatedCount + freedCount, size, initialSize, inserted, loadThreshold);
        size := 2 * size;
        elements := new MapNode[size](_ => MapNode(Unused, NULL, NULL));
        allocatedCount, freedCount, contents := 0, 0, map[];
        EmptyRepresents(elements[..]);
        CopyFrom(currentElements);
        AgreeUnique(slots, contents, was);
        scanned := scanned + currentSize;
      } else {
        NotLoaded(allocatedCount + freedCount, size, loadThreshold);
      }
    }

    /** The rehash loop: every allocated slot of the old array is inserted again. */
    method CopyFrom(old_elements: array<MapNode>)
      requires Consistent() && contents == map[] && freedCount == 0 && allocatedCount == 0
      requires old_elements != elements && size == 2 * old_elements.Length && UniqueKeys(old_elements[..])
      modifies this`allocatedCount, this`freedCount, this`contents, elements
      ensures Consistent() && Agree(old_elements[..], contents)
      ensures allocatedCount == Count(old_elements[..], Allocated) && freedCount == 0
    {
      ghost var slots := old_elements[..];
      var i := 0;
      while i < old_elements.Length
        invariant i <= old_elements.Length && old_elements[..] == slots
        invariant Consistent() && Agree(slots[..i], contents)
        invariant allocatedCount == Count(slots[..i], Allocated) <= i && freedCount == 0
      {
        PrefixGrows(slots, contents, i);
        assert slots[..i + 1][..i] == slots[..i];
        if old_elements[i].state == Allocated {
          var ok := InsertRaw(old_elements[i].key, old_elements[i].value);
        }
        i := i + 1;
      }
      assert slots[..i] == slots;
    }

    method Insert(key: nat, value: nat) returns (ok: bool)
      requires Valid()
      modifies this, elements
      ensures Valid() && (elements == old(elements) || fresh(elements))
      ensures ok <==> key !in old(contents)
      ensures contents == if ok then old(contents)[key := value] else old(contents)
      ensures inserted == old(inserted) + if ok then 1 else 0
      ensures size == if old(Loaded(allocatedCount + freedCount, size, loadThreshold)) then 2 * old(size) else old(size)
      ensures size == old(size) && old(freedCount) == 0 ==>
                freedCount == 0 && allocatedCount == old(allocatedCount) + if ok then 1 else 0
    {
      hide Represents, Count, Grown, Loaded, Filled;
      ResizeIfNeeded();
      ok := InsertRaw(key, value);
      if ok {
        GrownMore(size, initialSize, inserted, loadThreshold);
        inserted := inserted + 1;
      }
    }

    /** The loop of `erase` and `find`: the key's entry, if it has one. */
    method Probe(key: nat) returns (found: bool, index: nat)
      requires Consistent()
      ensures found <==> key in contents
      ensures found ==> Holds(elements[..], index, key)
    {
      hide Represents, Count;
      ghost var slots := elements[..];
      index := Hash(key, size);
      var itr := 0;
      while itr < size
        invariant itr <= size == |slots|
        invariant index == if itr < size then Probing.Slot(Hash(key, size), itr, size) else Hash(key, size)
        invariant Passed(slots, key, itr)
      {
        if elements[index].state == Unused {
          break;
        } else if elements[index].state == Allocated && elements[index].key == key {
          HeldIsBound(slots, contents, index, key);
          return true, index;
        }
        Probing.Step(Hash(key, size), itr, size);
        index := Probing.Next(index, size);
        itr := itr + 1;
      }
      PassedIsAbsent(slots, contents, key, itr);
      return false, index;
    }

    /** Unbinds a key and returns its value, or NULL if it has none. */
    method Erase(key: nat) returns (value: nat)
      requires Valid()
      modifies this`allocatedCount, this`freedCount, this`contents, elements
      ensures Valid()
      ensures contents == old(contents) - {key}
      ensures value == if key in old(contents) then old(contents)[key] else NULL
    {
      var found, index := Probe(key);
      value := NULL;
      if found {
        value := elements[index].value;
        Release(key, index);
      }
    }

    /** The slot becomes a tombstone and the counters follow. */
    method Release(key: nat, index: nat)
      requires Consistent() && Holds(elements[..], index, key)
      modifies this`allocatedCount, this`freedCount, this`contents, elements
      ensures Consistent() && allocatedCount + freedCount == old(allocatedCount + freedCount)
      ensures contents == old(contents) - {key} && key in old(contents)
              && old(contents)[key] == old(elements[index].value)
    {
      ghost var slots := elements[..];
      var node := MapNode(Freed, NULL, elements[index].value);
      EraseRepresents(slots, contents, key, index);
      CountUpdate(slots, index, node, Allocated);
      CountUpdate(slots, index, node, Freed);
      elements[index] := node;
      allocatedCount := allocatedCount - 1;
      freedCount := freedCount + 1;
      contents := contents - {key};
      assert elements[..] == slots[index := node];
    }

    /** The value bound to a key, or NULL if it has none. */
    method Find(key: nat) returns (value: nat)
      requires Valid()
      ensures value == if key in contents then contents[key] else NULL
    {
      var found, index := Probe(key);
      value := NULL;
      if found {
        HeldIsBound(elements[..], contents, index, key);
        value := elements[index].value;
      }
    }

    method IsMapEmpty() returns (empty: bool)
      requires Valid()
      ensures empty <==> contents == map[]
    {
      NoneAllocated(elements[..], contents);
      empty := allocatedCount == 0;
    }

    /**
     However the operations were mixed: the size and the total rehashing work are within 2n/threshold of n inserts.
     */
    lemma GrowthBound()
      requires Valid()
      ensures size == initialSize || size as real <= 2.0 * inserted as real / loadThreshold
      ensures scanned == 0 || scanned as real <= 2.0 * inserted as real / loadThreshold
    {
      AtMostQuotient(size as real, loadThreshold, 2.0 * inserted as real);
    }
  }

  lemma LoadGrows(used: nat, more: nat, size: nat, loadThreshold: real)
    requires used <= more && !Loaded(more, size, loadThreshold)
    ensures !Loaded(used, size, loadThreshold)
  {
  }

  /** Inserting as many keys as a table has slots fills it completely, unless one key less already makes it double. */
  method FillUp(keys: seq<nat>, loadThreshold: real) returns (m: Map)
    requires keys != [] && 0.0 < loadThreshold <= 1.0 && !Loaded(|keys| - 1, |keys|, loadThreshold)
    requires forall i, j | 0 <= i < j < |keys| :: keys[i] != keys[j]
    ensures fresh(m) && m.Valid() && m.initialSize == |keys|
    ensures m.allocatedCount + m.freedCount == m.size == |keys|
    ensures m.contents.Keys == set i | 0 <= i < |keys| :: keys[i]
  {
    hide Loaded, Map.Amortised, Map.Consistent;
    m := new Map(|keys|, loadThreshold);
    for k := 0 to |keys|
      invariant m.Valid() && fresh(m) && fresh(m.elements) && m.loadThreshold == loadThreshold
                && m.initialSize == |keys|
      invariant m.size == |keys| && m.freedCount == 0 && m.allocatedCount == k
      invariant m.contents.Keys == set i | 0 <= i < k :: keys[i]
    {
      LoadGrows(k, |keys| - 1, |keys|, loadThreshold);
      var ok := m.Insert(keys[k], 1);
    }
  }
}
