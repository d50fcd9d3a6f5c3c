/**
 * Go's rules for laying out a struct in memory: every field starts at the
 * next offset that is a multiple of its alignment, a struct is as aligned as
 * its most aligned field, and its size is rounded up to that alignment.
 *
 * One rule of Go's compiler is not modelled: a non-empty struct whose last
 * field is zero-sized gets padding after that field. The records here put
 * their zero-sized `structs.HostLayout` marker first, so the rule never
 * applies to them.
 */
module Layout {

  /** The widths Go integers come in. */
  datatype Width = W8 | W16 | W32 | W64

  function WidthBytes(w: Width): (n: nat)
    ensures PowerAlign(n)
  {
    match w
    case W8 => 1
    case W16 => 2
    case W32 => 4
    case W64 => 8
  }

  /** The shape of a field: a signed or unsigned integer, an array, or a nested struct. */
  datatype Kind =
    | Int(width: Width)
    | Uint(width: Width)
    | Array(count: nat, elem: Kind)
    | Struct(fields: seq<Kind>)

  /** A zero-sized marker field such as `structs.HostLayout`. */
  const Marker: Kind := Struct([])

  /** Every alignment Go uses for these kinds. */
  predicate PowerAlign(a: nat)
  {
    a == 1 || a == 2 || a == 4 || a == 8
  }

  /** The smallest multiple of `a` that is at least `x`. */
  function AlignUp(x: nat, a: nat): (r: nat)
    requires PowerAlign(a)
    ensures r >= x && r % a == 0 && r < x + a
  {
    if x % a == 0 then x else x + (a - x % a)
  }

  function Max(a: nat, b: nat): nat
  {
    if a >= b then a else b
  }

  function Align(k: Kind): (a: nat)
    ensures PowerAlign(a)
    decreases k, 1
  {
    match k
    case Int(w) => WidthBytes(w)
    case Uint(w) => WidthBytes(w)
    case Array(_, e) => Align(e)
    case Struct(fs) => FieldsAlign(fs)
  }

  function FieldsAlign(fs: seq<Kind>): (a: nat)
    ensures PowerAlign(a)
    ensures forall i | 0 <= i < |fs| :: Align(fs[i]) <= a
    decreases fs, 0
  {
    if fs == [] then 1 else Max(Align(fs[0]), FieldsAlign(fs[1..]))
  }

  function Size(k: Kind): nat
    decreases k, 1
  {
    match k
    case Int(w) => WidthBytes(w)
    case Uint(w) => WidthBytes(w)
    case Array(n, e) => n * Size(e)
    case Struct(fs) => AlignUp(FieldsEnd(fs, 0), FieldsAlign(fs))
  }

  /** Where the fields `fs` end when the first of them is placed at or after `start`. */
  function FieldsEnd(fs: seq<Kind>, start: nat): nat
    decreases fs, 0
  {
    if fs == [] then start
    else FieldsEnd(fs[1..], AlignUp(start, Align(fs[0])) + Size(fs[0]))
  }

  /** The offset of every field of `fs`, placed from `start` on. */
  function Offsets(fs: seq<Kind>, start: nat): (os: seq<nat>)
    ensures |os| == |fs|
  {
    if fs == [] then []
    else
      var here := AlignUp(start, Align(fs[0]));
      [here] + Offsets(fs[1..], here + Size(fs[0]))
  }

  /** Every field starts at a multiple of its alignment, after the previous field, and within the struct. */
  lemma {:induction false} OffsetsAligned(fs: seq<Kind>, start: nat)
    ensures forall i | 0 <= i < |fs| :: Offsets(fs, start)[i] % Align(fs[i]) == 0
    ensures forall i | 0 <= i < |fs| :: Offsets(fs, start)[i] >= start
    ensures forall i | 0 <= i < |fs| - 1 :: Offsets(fs, start)[i] + Size(fs[i]) <= Offsets(fs, start)[i + 1]
    ensures forall i | 0 <= i < |fs| :: Offsets(fs, start)[i] + Size(fs[i]) <= FieldsEnd(fs, start)
    decreases fs
  {
    if fs != [] {
      var here := AlignUp(start, Align(fs[0]));
      var next := here + Size(fs[0]);
      var os, tail := Offsets(fs, start), Offsets(fs[1..], next);
      OffsetsAligned(fs[1..], next);
      assert os == [here] + tail;
      assert FieldsEnd(fs, start) == FieldsEnd(fs[1..], next);
      assert forall i | 1 <= i < |fs| :: os[i] == tail[i - 1] && fs[i] == fs[1..][i - 1];
    }
  }

  /** The sum of the fields' own sizes. */
  function Widths(fs: seq<Kind>): nat
  {
    if fs == [] then 0 else Size(fs[0]) + Widths(fs[1..])
  }

  /** No field needs padding before it: each one starts where the previous one ends. */
  predicate Packed(fs: seq<Kind>, start: nat)
  {
    FieldsEnd(fs, start) == start + Widths(fs)
  }

  /** Where field `i` of `fs` starts looking for room: `start`, or the end of field `i - 1`. */
  function After(fs: seq<Kind>, start: nat, os: seq<nat>, i: nat): nat
    requires i < |fs| && |os| == |fs|
  {
    if i == 0 then start else os[i - 1] + Size(fs[i - 1])
  }

  /** `os` places every field of `fs` at the first offset of its alignment after the previous one. */
  predicate Placed(fs: seq<Kind>, start: nat, os: seq<nat>)
  {
    |os| == |fs| &&
    forall i {:trigger After(fs, start, os, i)} | 0 <= i < |fs| ::
      os[i] == AlignUp(After(fs, start, os, i), Align(fs[i]))
  }

  /** Moreover no field of `os` needed rounding up: each starts where the previous one ends. */
  predicate Adjacent(fs: seq<Kind>, start: nat, os: seq<nat>)
  {
    |os| == |fs| &&
    forall i {:trigger After(fs, start, os, i)} | 0 <= i < |fs| :: os[i] == After(fs, start, os, i)
  }

  lemma PlacedTail(fs: seq<Kind>, start: nat, os: seq<nat>)
    requires fs != [] && Placed(fs, start, os)
    ensures Placed(fs[1..], os[0] + Size(fs[0]), os[1..])
  {
    var here := os[0] + Size(fs[0]);
    forall i | 0 <= i < |fs| - 1
      ensures os[1..][i] == AlignUp(After(fs[1..], here, os[1..], i), Align(fs[1..][i]))
    {
      assert After(fs[1..], here, os[1..], i) == After(fs, start, os, i + 1);
    }
  }

  lemma AdjacentTail(fs: seq<Kind>, start: nat, os: seq<nat>)
    requires fs != [] && Adjacent(fs, start, os)
    ensures Adjacent(fs[1..], os[0] + Size(fs[0]), os[1..])
  {
    var here := os[0] + Size(fs[0]);
    forall i | 0 <= i < |fs| - 1 ensures os[1..][i] == After(fs[1..], here, os[1..], i) {
      assert After(fs[1..], here, os[1..], i) == After(fs, start, os, i + 1);
    }
  }

  /** A placement that checks out field by field is the one Go computes. */
  lemma {:induction false} PlacedIsOffsets(fs: seq<Kind>, start: nat, os: seq<nat>)
    requires Placed(fs, start, os)
    ensures os == Offsets(fs, start)
    decreases fs
  {
    if fs != [] {
      assert After(fs, start, os, 0) == start;
      var here := os[0] + Size(fs[0]);
      PlacedTail(fs, start, os);
      PlacedIsOffsets(fs[1..], here, os[1..]);
      calc {
        Offsets(fs, start);
        [AlignUp(start, Align(fs[0]))] + Offsets(fs[1..], here);
        [os[0]] + os[1..];
        os;
      }
    }
  }

  /** ... and the fields end right after the last one. */
  lemma {:induction false} PlacedEnd(fs: seq<Kind>, start: nat, os: seq<nat>)
    requires Placed(fs, start, os)
    ensures FieldsEnd(fs, start) == if fs == [] then start else os[|os| - 1] + Size(fs[|fs| - 1])
    decreases fs
  {
    if fs != [] {
      assert After(fs, start, os, 0) == start;
      PlacedTail(fs, start, os);
      PlacedEnd(fs[1..], os[0] + Size(fs[0]), os[1..]);
    }
  }

  /** A placement that never rounds up leaves no padding. */
  lemma {:induction false} AdjacentIsPacked(fs: seq<Kind>, start: nat, os: seq<nat>)
    requires Placed(fs, start, os) && Adjacent(fs, start, os)
    ensures Packed(fs, start)
    decreases fs
  {
    if fs != [] {
      assert After(fs, start, os, 0) == start;
      PlacedTail(fs, start, os);
      AdjacentTail(fs, start, os);
      AdjacentIsPacked(fs[1..], os[0] + Size(fs[0]), os[1..]);
      assert FieldsEnd(fs, start) == FieldsEnd(fs[1..], os[0] + Size(fs[0]));
    }
  }
}
