/** Cyclic probe sequences, shared by the two open-addressing tables. */
module Probing {
  /** `x` reduced into a table of `n` slots, for `x` less than two rounds. */
  function Wrap(x: nat, n: nat): (i: nat)
    requires x < 2 * n
    ensures i < n
  {
    if x < n then x else x - n
  }

  /** The slot reached from `h` after `t` steps. */
  function Slot(h: nat, t: nat, n: nat): (i: nat)
    requires h < n && t < n
    ensures i < n
  {
    Wrap(h + t, n)
  }

  /** The number of steps from `h` to `i`. */
  function Distance(h: nat, i: nat, n: nat): (t: nat)
    requires h < n && i < n
    ensures t < n && Slot(h, t, n) == i
  {
    if i >= h then i - h else i + n - h
  }

  /** One step of a probe loop. */
  function Next(i: nat, n: nat): (j: nat)
    requires i < n
    ensures j == if i + 1 < n then i + 1 else 0
  {
    (i + 1) % n
  }

  lemma Step(h: nat, t: nat, n: nat)
    requires h < n && t < n
    ensures Next(Slot(h, t, n), n) == if t + 1 < n then Slot(h, t + 1, n) else h
  {
  }

  /** Every slot is on every probe sequence, at exactly one distance. */
  lemma DistanceOf(h: nat, t: nat, n: nat)
    requires h < n && t < n
    ensures Distance(h, Slot(h, t, n), n) == t
  {
  }
}
