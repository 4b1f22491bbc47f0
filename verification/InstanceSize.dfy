/** The size of an instance: the fields along the superclass chain, rounded at each class. */
module InstanceSize {
  import opened Nom
  import opened Records
  import opened Recorder
  import Encoding

  type ClassTable = map<u64, ClassInfo>

  /** A class whose own fields count: defined, and not the root of its hierarchy. */
  predicate Counted(t: ClassTable, c: u64) {
    c in t && t[c].superClassObjectId != 0
  }

  // ---- superclass chains ----

  /** Following superclasses from `c` reaches a root or an undefined class within `n` links. */
  predicate EndsWithin(t: ClassTable, c: u64, n: nat)
    decreases n
  {
    Counted(t, c) ==> n > 0 && EndsWithin(t, t[c].superClassObjectId, n - 1)
  }

  /** The chain of `c` ends: it runs into no cycle, see `EndsUnlessCycle`. */
  predicate Ends(t: ClassTable, c: u64) {
    EndsWithin(t, c, |t|)
  }

  /** Counted classes on the chain, up to `n`. */
  function Walk(t: ClassTable, c: u64, n: nat): nat
    decreases n
  {
    if !Counted(t, c) || n == 0 then 0 else 1 + Walk(t, t[c].superClassObjectId, n - 1)
  }

  function Depth(t: ClassTable, c: u64): nat {
    Walk(t, c, |t|)
  }

  lemma {:induction false} WalkStable(t: ClassTable, c: u64, n: nat, m: nat)
    requires EndsWithin(t, c, n) && n <= m
    ensures EndsWithin(t, c, m) && Walk(t, c, m) == Walk(t, c, n)
    decreases n
  {
    if Counted(t, c) {
      WalkStable(t, t[c].superClassObjectId, n - 1, m - 1);
    }
  }

  lemma SuperEnds(t: ClassTable, c: u64)
    requires Ends(t, c) && Counted(t, c)
    ensures Ends(t, t[c].superClassObjectId)
    ensures Depth(t, t[c].superClassObjectId) == Depth(t, c) - 1
  {
    WalkStable(t, t[c].superClassObjectId, |t| - 1, |t|);
  }

  /** The chain ends within `n` links and not within fewer. */
  predicate Exactly(t: ClassTable, c: u64, n: nat) {
    EndsWithin(t, c, n) && (n > 0 ==> !EndsWithin(t, c, n - 1))
  }

  lemma ExactOnce(t: ClassTable, c: u64, n: nat, m: nat)
    requires Exactly(t, c, n) && Exactly(t, c, m)
    ensures n == m
  {
    if n < m {
      WalkStable(t, c, n, m - 1);
    } else if m < n {
      WalkStable(t, c, m, n - 1);
    }
  }

  /** A chain of exactly `n` links passes through `n` different defined classes. */
  lemma {:induction false} ExactClasses(t: ClassTable, c: u64, n: nat) returns (seen: set<u64>)
    requires Exactly(t, c, n)
    ensures seen <= t.Keys && |seen| == n
    ensures forall x :: x in seen ==> exists m :: 0 < m <= n && Exactly(t, x, m)
    decreases n
  {
    if n == 0 {
      seen := {};
    } else {
      var above := ExactClasses(t, t[c].superClassObjectId, n - 1);
      if c in above {
        var m :| 0 < m <= n - 1 && Exactly(t, c, m);
        ExactOnce(t, c, n, m);
      }
      seen := above + {c};
    }
  }

  /** A chain that ends at all does so within as many links as there are classes. So where `Ends` is
      false no number of nested calls is enough for the recursion, which keeps no list of visited
      classes. */
  lemma {:induction false} ChainsEndEarly(t: ClassTable, c: u64, n: nat)
    requires EndsWithin(t, c, n)
    ensures Ends(t, c)
    decreases n
  {
    if n <= |t| {
      WalkStable(t, c, n, |t|);
    } else if EndsWithin(t, c, n - 1) {
      ChainsEndEarly(t, c, n - 1);
    } else {
      var seen := ExactClasses(t, c, n);
      SubsetSize(seen, t.Keys);
      assert false;
    }
  }

  /** The `n`-th superclass that the recursion gets to. */
  function NthSuper(t: ClassTable, c: u64, n: nat): Option<u64>
    decreases n
  {
    if n == 0 then Some(c)
    else if c in t && t[c].superClassObjectId != 0 then NthSuper(t, t[c].superClassObjectId, n - 1)
    else None
  }

  /** Following superclasses from `c` comes back to `c`. */
  ghost predicate OnCycle(t: ClassTable, c: u64) {
    exists n :: n > 0 && NthSuper(t, c, n) == Some(c)
  }

  /** Following superclasses from `c` runs into a cycle. */
  ghost predicate RunsIntoCycle(t: ClassTable, c: u64) {
    exists m :: NthSuper(t, c, m).Some? && OnCycle(t, NthSuper(t, c, m).value)
  }

  lemma {:induction false} NthAdds(t: ClassTable, c: u64, m: nat, n: nat)
    requires NthSuper(t, c, m).Some?
    ensures NthSuper(t, c, m + n) == NthSuper(t, NthSuper(t, c, m).value, n)
    decreases m
  {
    if m > 0 {
      NthAdds(t, t[c].superClassObjectId, m - 1, n);
    }
  }

  lemma {:induction false} NthEnds(t: ClassTable, c: u64, n: nat)
    requires Ends(t, c) && NthSuper(t, c, n).Some?
    ensures Ends(t, NthSuper(t, c, n).value) && Depth(t, NthSuper(t, c, n).value) == Depth(t, c) - n
    decreases n
  {
    if n > 0 {
      SuperEnds(t, c);
      NthEnds(t, t[c].superClassObjectId, n - 1);
    }
  }

  /** While a chain has not ended, the next superclass is there and is a class with a definition. */
  lemma {:induction false} NthCounted(t: ClassTable, c: u64, n: nat)
    requires !EndsWithin(t, c, n)
    ensures NthSuper(t, c, n).Some? && Counted(t, NthSuper(t, c, n).value)
    decreases n
  {
    if n > 0 {
      NthCounted(t, t[c].superClassObjectId, n - 1);
    }
  }

  ghost predicate ReachedWithin(t: ClassTable, c: u64, x: u64, n: nat) {
    exists m :: 0 <= m < n && NthSuper(t, c, m) == Some(x)
  }

  /** The first classes of a chain without end, all different until one of them is on a cycle. */
  lemma {:induction false} Unroll(t: ClassTable, c: u64, n: nat) returns (seen: set<u64>)
    requires !EndsWithin(t, c, n) && !RunsIntoCycle(t, c)
    ensures seen <= t.Keys && |seen| == n
    ensures forall x :: x in seen ==> ReachedWithin(t, c, x, n)
    decreases n
  {
    if n == 0 {
      seen := {};
    } else {
      ShorterRuns(t, c, n);
      var before := Unroll(t, c, n - 1);
      NthCounted(t, c, n - 1);
      var x := NthSuper(t, c, n - 1).value;
      if x in before {
        var m :| 0 <= m < n - 1 && NthSuper(t, c, m) == Some(x);
        NthAdds(t, c, m, n - 1 - m);
        assert false;
      }
      seen := before + {x};
      assert ReachedWithin(t, c, x, n);
    }
  }

  lemma ShorterRuns(t: ClassTable, c: u64, n: nat)
    requires n > 0 && !EndsWithin(t, c, n)
    ensures !EndsWithin(t, c, n - 1)
  {
    if EndsWithin(t, c, n - 1) {
      WalkStable(t, c, n - 1, n);
    }
  }

  /** The recursion returns exactly on the classes whose superclasses do not run into a cycle. */
  lemma EndsUnlessCycle(t: ClassTable, c: u64)
    ensures Ends(t, c) <==> !RunsIntoCycle(t, c)
  {
    if Ends(t, c) && RunsIntoCycle(t, c) {
      var m :| NthSuper(t, c, m).Some? && OnCycle(t, NthSuper(t, c, m).value);
      var x := NthSuper(t, c, m).value;
      var n :| n > 0 && NthSuper(t, x, n) == Some(x);
      NthEnds(t, c, m);
      NthEnds(t, x, n);
      assert false;
    }
    if !Ends(t, c) && !RunsIntoCycle(t, c) {
      if EndsWithin(t, c, |t| + 1) {
        ChainsEndEarly(t, c, |t| + 1);
      }
      var seen := Unroll(t, c, |t| + 1);
      SubsetSize(seen, t.Keys);
      assert false;
    }
  }

  lemma {:induction false} SubsetSize(a: set<u64>, b: set<u64>)
    requires a <= b
    ensures |a| <= |b|
  {
    if a != {} {
      var x :| x in a;
      SubsetSize(a - {x}, b - {x});
    }
  }

  // ---- sizes ----

  function FieldsSize(types: seq<FieldType>, idSize: IdSize): nat {
    if types == [] then 0 else FieldSize(types[0], idSize) + FieldsSize(types[1..], idSize)
  }

  /** `calculate_instance_size_recursive` */
  function RawSize(t: ClassTable, idSize: IdSize, c: u64): nat
    requires Ends(t, c)
    decreases Depth(t, c)
  {
    if !Counted(t, c) then
      ObjectHeaderSize(idSize)
    else
      SuperEnds(t, c);
      NextMultipleOf(FieldsSize(t[c].instanceFieldTypes, idSize) + RawSize(t, idSize, t[c].superClassObjectId), idSize)
  }

  /** `calculate_instance_size` */
  function SizeOf(t: ClassTable, idSize: IdSize, c: u64): nat
    requires Ends(t, c)
  {
    NextMultipleOf(RawSize(t, idSize, c), OBJECT_ALIGN)
  }

  /** The undefined class the chain ends in, if it does not end in a root. */
  function UndefinedEnd(t: ClassTable, c: u64): set<u64>
    requires Ends(t, c)
    decreases Depth(t, c)
  {
    if c !in t then {c}
    else if t[c].superClassObjectId == 0 then {}
    else
      SuperEnds(t, c);
      UndefinedEnd(t, t[c].superClassObjectId)
  }

  /** The recursion of the program, with the set of missing classes it grows on the way. */
  method CalculateInstanceSizeRecursive(t: ClassTable, idSize: IdSize, c: u64, missing: set<u64>)
    returns (size: nat, missing': set<u64>)
    requires Ends(t, c)
    ensures size == RawSize(t, idSize, c)
    ensures missing' == missing + UndefinedEnd(t, c)
    decreases Depth(t, c)
  {
    hide NextMultipleOf, FieldsSize, EndsWithin, Walk;
    if c !in t {
      return ObjectHeaderSize(idSize), missing + {c};
    }
    var info := t[c];
    if info.superClassObjectId == 0 {
      return ObjectHeaderSize(idSize), missing;
    }
    SuperEnds(t, c);
    var fieldsSize := FieldsSize(info.instanceFieldTypes, idSize);
    var above;
    above, missing' := CalculateInstanceSizeRecursive(t, idSize, info.superClassObjectId, missing);
    size := NextMultipleOf(fieldsSize + above, idSize);
  }

  // ---- what the recursion computes ----

  predicate LeastMultiple(x: nat, m: IdSize, r: nat) {
    x <= r < x + m && if m == 4 then r % 4 == 0 else r % 8 == 0
  }

  /** A class with a definition and a superclass: the least multiple of the identifier size that
      holds its fields on top of what the superclass takes. */
  predicate SizeBelow(t: ClassTable, idSize: IdSize, x: Option<u64>, size: nat, above: nat) {
    && x.Some? && x.value in t && t[x.value].superClassObjectId != 0
    && LeastMultiple(FieldsSize(t[x.value].instanceFieldTypes, idSize) + above, idSize, size)
  }

  /** A root or an undefined class: a bare header. */
  predicate SizeOnTop(t: ClassTable, idSize: IdSize, x: Option<u64>, size: nat) {
    && x.Some? && (x.value !in t || t[x.value].superClassObjectId == 0)
    && size == if idSize == 4 then 8 else 16
  }

  /** The sizes of a class and its superclasses, from the class up. */
  ghost predicate SizesAlong(t: ClassTable, idSize: IdSize, c: u64, sizes: seq<nat>) {
    && sizes != []
    && (forall n :: 0 <= n < |sizes| - 1 ==> SizeBelow(t, idSize, NthSuper(t, c, n), sizes[n], sizes[n + 1]))
    && SizeOnTop(t, idSize, NthSuper(t, c, |sizes| - 1), sizes[|sizes| - 1])
  }

  lemma AlignedToFour(x: nat)
    ensures x <= NextMultipleOf(x, 4) <= x + 3
    ensures NextMultipleOf(x, 4) % 4 == 0
  {
  }

  lemma LeastMultipleFound(x: nat, m: IdSize)
    ensures LeastMultiple(x, m, NextMultipleOf(x, m))
  {
    hide NextMultipleOf;
    if m == 4 {
      AlignedToFour(x);
    } else {
      Aligned(x);
    }
  }

  lemma LeastMultipleUnique(x: nat, m: IdSize, a: nat, b: nat)
    requires LeastMultiple(x, m, a) && LeastMultiple(x, m, b)
    ensures a == b
  {
  }

  /** Sizes come from the top of the chain down, rounded at each class, and once more to 8 bytes. */
  lemma {:induction false} SizeFromTop(t: ClassTable, idSize: IdSize, c: u64) returns (sizes: seq<nat>)
    requires Ends(t, c)
    ensures SizesAlong(t, idSize, c, sizes) && RawSize(t, idSize, c) == sizes[0]
    ensures LeastMultiple(sizes[0], 8, SizeOf(t, idSize, c))
    decreases Depth(t, c)
  {
    hide NextMultipleOf, FieldsSize, EndsWithin, Walk;
    LeastMultipleFound(RawSize(t, idSize, c), 8);
    if c !in t || t[c].superClassObjectId == 0 {
      sizes := [RawSize(t, idSize, c)];
    } else {
      SuperEnds(t, c);
      var info := t[c];
      var above := SizeFromTop(t, idSize, info.superClassObjectId);
      sizes := [RawSize(t, idSize, c)] + above;
      LeastMultipleFound(FieldsSize(info.instanceFieldTypes, idSize) + above[0], idSize);
      forall n | 0 <= n < |sizes| - 1
        ensures SizeBelow(t, idSize, NthSuper(t, c, n), sizes[n], sizes[n + 1])
      {
        if n > 0 {
          assert SizeBelow(t, idSize, NthSuper(t, info.superClassObjectId, n - 1), above[n - 1], above[n]);
        }
      }
    }
  }

  /** There is no other way to size the chain. */
  lemma {:induction false} SizesUnique(t: ClassTable, idSize: IdSize, c: u64, a: seq<nat>, b: seq<nat>)
    requires SizesAlong(t, idSize, c, a) && SizesAlong(t, idSize, c, b)
    ensures a == b
    decreases |a|
  {
    hide FieldsSize, LeastMultiple, SizesAlong;
    if c !in t || t[c].superClassObjectId == 0 {
      TopOnly(t, idSize, c, a);
      TopOnly(t, idSize, c, b);
    } else {
      SizesAbove(t, idSize, c, a);
      SizesAbove(t, idSize, c, b);
      SizesUnique(t, idSize, t[c].superClassObjectId, a[1..], b[1..]);
      LeastMultipleUnique(FieldsSize(t[c].instanceFieldTypes, idSize) + a[1], idSize, a[0], b[0]);
      assert a == [a[0]] + a[1..] && b == [b[0]] + b[1..];
    }
  }

  lemma TopOnly(t: ClassTable, idSize: IdSize, c: u64, a: seq<nat>)
    requires SizesAlong(t, idSize, c, a) && (c !in t || t[c].superClassObjectId == 0)
    ensures |a| == 1 && a[0] == if idSize == 4 then 8 else 16
  {
    hide FieldsSize;
    assert |a| > 1 ==> SizeBelow(t, idSize, NthSuper(t, c, 0), a[0], a[1]);
  }

  lemma SizesAbove(t: ClassTable, idSize: IdSize, c: u64, a: seq<nat>)
    requires SizesAlong(t, idSize, c, a) && c in t && t[c].superClassObjectId != 0
    ensures |a| > 1 && SizesAlong(t, idSize, t[c].superClassObjectId, a[1..])
    ensures LeastMultiple(FieldsSize(t[c].instanceFieldTypes, idSize) + a[1], idSize, a[0])
  {
    hide FieldsSize;
    var super, above := t[c].superClassObjectId, a[1..];
    assert NthSuper(t, c, 0) == Some(c);
    assert SizeBelow(t, idSize, NthSuper(t, c, 0), a[0], a[1]);
    forall n | 0 <= n < |above| - 1
      ensures SizeBelow(t, idSize, NthSuper(t, super, n), above[n], above[n + 1])
    {
      assert SizeBelow(t, idSize, NthSuper(t, c, n + 1), a[n + 1], a[n + 2]);
    }
  }

  /** Following superclasses from `c` gets to `x`. */
  ghost predicate Reaches(t: ClassTable, c: u64, x: u64) {
    exists n: nat :: NthSuper(t, c, n) == Some(x)
  }

  lemma ReachesAbove(t: ClassTable, c: u64, x: u64)
    ensures Reaches(t, c, x) <==>
            x == c || (c in t && t[c].superClassObjectId != 0 && Reaches(t, t[c].superClassObjectId, x))
  {
    if Reaches(t, c, x) {
      var n: nat :| NthSuper(t, c, n) == Some(x);
      if n > 0 {
        assert NthSuper(t, t[c].superClassObjectId, n - 1) == Some(x);
      }
    }
    if x == c {
      assert NthSuper(t, c, 0) == Some(x);
    } else if c in t && t[c].superClassObjectId != 0 && Reaches(t, t[c].superClassObjectId, x) {
      var n: nat :| NthSuper(t, t[c].superClassObjectId, n) == Some(x);
      assert NthSuper(t, c, n + 1) == Some(x);
    }
  }

  /** The classes a chain runs out at: those it reaches that have no definition. */
  lemma {:induction false} UndefinedReached(t: ClassTable, c: u64, x: u64)
    requires Ends(t, c)
    ensures x in UndefinedEnd(t, c) <==> x !in t && Reaches(t, c, x)
    decreases Depth(t, c)
  {
    hide EndsWithin, Walk, Reaches;
    ReachesAbove(t, c, x);
    if c in t && t[c].superClassObjectId != 0 {
      SuperEnds(t, c);
      UndefinedReached(t, t[c].superClassObjectId, x);
    }
  }

  /** `calculate_instance_size`: the size at the bottom of the chain, rounded to 8 bytes, and the
      undefined class the chain reaches, if any, among the missing ones. */
  method CalculateInstanceSize(t: ClassTable, idSize: IdSize, c: u64, missing: set<u64>)
    returns (size: nat, missing': set<u64>)
    requires Ends(t, c)
    ensures size == SizeOf(t, idSize, c)
    ensures forall sizes :: SizesAlong(t, idSize, c, sizes) ==> LeastMultiple(sizes[0], 8, size)
    ensures missing' == missing + UndefinedEnd(t, c)
    ensures forall x: u64 :: x in missing' <==> x in missing || (x !in t && Reaches(t, c, x))
  {
    hide SizesAlong, Reaches, UndefinedEnd, RawSize, NextMultipleOf, LeastMultiple, EndsWithin;
    var raw;
    raw, missing' := CalculateInstanceSizeRecursive(t, idSize, c, missing);
    size := NextMultipleOf(raw, OBJECT_ALIGN);
    ghost var sizes := SizeFromTop(t, idSize, c);
    forall other | SizesAlong(t, idSize, c, other)
      ensures other == sizes
    {
      SizesUnique(t, idSize, c, sizes, other);
    }
    forall x: u64
      ensures x in UndefinedEnd(t, c) <==> x !in t && Reaches(t, c, x)
    {
      UndefinedReached(t, c, x);
    }
  }

  // ---- sizes on the wire ----

  /** The size of a field is the size of its value in the format. */
  lemma FieldSizeOnWire(ty: FieldType, v: FieldValue, idSize: IdSize)
    requires Encoding.ValueFits(ty, v, idSize)
    ensures FieldSize(ty, idSize) == |Encoding.EValue(v, idSize)|
  {
  }

  function ValueEncoder(idSize: IdSize): FieldValue -> Bytes {
    (v: FieldValue) => Encoding.EValue(v, idSize)
  }

  /** The size of a class's fields is the size of their values. */
  lemma {:induction false} FieldsSizeOnWire(types: seq<FieldType>, vs: seq<FieldValue>, idSize: IdSize)
    requires |vs| == |types| && forall k :: 0 <= k < |vs| ==> Encoding.ValueFits(types[k], vs[k], idSize)
    ensures FieldsSize(types, idSize) == |Encoding.EAll(ValueEncoder(idSize), vs)|
  {
    hide Encoding.EValue, FieldSize;
    if vs != [] {
      FieldSizeOnWire(types[0], vs[0], idSize);
      FieldsSizeOnWire(types[1..], vs[1..], idSize);
    }
  }

  /** Headers: 8 and 12 bytes with identifiers of 4 bytes, 16 and 16 with identifiers of 8. */
  lemma HeaderSizes()
    ensures ObjectHeaderSize(4) == 8 && ObjectHeaderSize(8) == 16
    ensures ArrayHeaderSize(4) == 12 && ArrayHeaderSize(8) == 16
  {
  }

  // ---- bounds ----

  /** The fields that count, without any rounding. */
  function ChainFields(t: ClassTable, idSize: IdSize, c: u64): nat
    requires Ends(t, c)
    decreases Depth(t, c)
  {
    if !Counted(t, c) then 0
    else
      SuperEnds(t, c);
      FieldsSize(t[c].instanceFieldTypes, idSize) + ChainFields(t, idSize, t[c].superClassObjectId)
  }

  function Padding(idSize: IdSize, classes: nat): nat {
    if idSize == 4 then 3 * classes else 7 * classes
  }

  lemma {:induction false} RawSizeBounds(t: ClassTable, idSize: IdSize, c: u64)
    requires Ends(t, c)
    ensures ObjectHeaderSize(idSize) + ChainFields(t, idSize, c) <= RawSize(t, idSize, c)
    ensures RawSize(t, idSize, c) <=
            ObjectHeaderSize(idSize) + ChainFields(t, idSize, c) + Padding(idSize, Depth(t, c))
    decreases Depth(t, c)
  {
    if Counted(t, c) {
      SuperEnds(t, c);
      RawSizeBounds(t, idSize, t[c].superClassObjectId);
    }
  }

  lemma Aligned(x: nat)
    ensures x <= NextMultipleOf(x, 8) <= x + 7
    ensures NextMultipleOf(x, 8) % 8 == 0
  {
  }

  /** The size of an array is the least multiple of 8 that holds its header and its elements. */
  lemma ArraySizesExact(idSize: IdSize, ty: PrimitiveType, n: u32)
    ensures var need := ArrayHeaderSize(idSize) + n as int * FieldSize(ty, idSize);
            PrimitiveArraySize(idSize, ty, n) % 8 == 0 && need <= PrimitiveArraySize(idSize, ty, n) < need + 8
    ensures var need := ArrayHeaderSize(idSize) + n as int * idSize as int;
            ObjectArraySize(idSize, n) % 8 == 0 && need <= ObjectArraySize(idSize, n) < need + 8
  {
    hide NextMultipleOf;
    Aligned(ArrayHeaderSize(idSize) + if idSize == 4 then n as int * 4 else n as int * 8);
    match ty
    case Bool => Aligned(ArrayHeaderSize(idSize) + n as int);
    case Byte => Aligned(ArrayHeaderSize(idSize) + n as int);
    case Char => Aligned(ArrayHeaderSize(idSize) + n as int * 2);
    case Short => Aligned(ArrayHeaderSize(idSize) + n as int * 2);
    case Float => Aligned(ArrayHeaderSize(idSize) + n as int * 4);
    case Int => Aligned(ArrayHeaderSize(idSize) + n as int * 4);
    case Double => Aligned(ArrayHeaderSize(idSize) + n as int * 8);
    case Long => Aligned(ArrayHeaderSize(idSize) + n as int * 8);
  }

  lemma AlignMonotone(x: nat, y: nat)
    requires x <= y
    ensures NextMultipleOf(x, 8) <= NextMultipleOf(y, 8)
  {
    Aligned(x);
    Aligned(y);
  }

  /** Rounding keeps the superclass's size below. */
  lemma RawSizeGrows(t: ClassTable, idSize: IdSize, c: u64)
    requires Ends(t, c) && Counted(t, c)
    ensures Ends(t, t[c].superClassObjectId) && RawSize(t, idSize, t[c].superClassObjectId) <= RawSize(t, idSize, c)
  {
    SuperEnds(t, c);
  }

  /** Instance sizes are aligned, never below the superclass's, at least the header and the fields
      that count, and above that by at most the padding of each class and of the object. */
  lemma SizeBounds(t: ClassTable, idSize: IdSize, c: u64)
    requires Ends(t, c)
    ensures SizeOf(t, idSize, c) % 8 == 0
    ensures Counted(t, c) ==>
              Ends(t, t[c].superClassObjectId) && SizeOf(t, idSize, t[c].superClassObjectId) <= SizeOf(t, idSize, c)
    ensures var least := ObjectHeaderSize(idSize) + ChainFields(t, idSize, c);
            least <= SizeOf(t, idSize, c) <= least + Padding(idSize, Depth(t, c)) + 7
  {
    hide NextMultipleOf, RawSize, EndsWithin, ChainFields, Walk;
    RawSizeBounds(t, idSize, c);
    Aligned(RawSize(t, idSize, c));
    if Counted(t, c) {
      RawSizeGrows(t, idSize, c);
      AlignMonotone(RawSize(t, idSize, t[c].superClassObjectId), RawSize(t, idSize, c));
    }
  }

  lemma {:induction false} FieldsSizeBound(types: seq<FieldType>, idSize: IdSize)
    ensures FieldsSize(types, idSize) <= 8 * |types|
  {
    if types != [] {
      FieldsSizeBound(types[1..], idSize);
    }
  }

  lemma {:induction false} ChainFieldsBound(t: ClassTable, idSize: IdSize, c: u64)
    requires Ends(t, c)
    requires forall x :: x in t ==> |t[x].instanceFieldTypes| <= 65535
    ensures ChainFields(t, idSize, c) <= 524280 * Depth(t, c)
    decreases Depth(t, c)
  {
    if Counted(t, c) {
      SuperEnds(t, c);
      FieldsSizeBound(t[c].instanceFieldTypes, idSize);
      ChainFieldsBound(t, idSize, t[c].superClassObjectId);
    }
  }

  /** The 32-bit arithmetic is exact for chains of up to 8192 classes of at most 65535 fields: no
      sum, at this class or above it, reaches 2^32. */
  lemma NoOverflow(t: ClassTable, idSize: IdSize, c: u64)
    requires Ends(t, c) && Depth(t, c) <= 8192
    requires forall x :: x in t ==> |t[x].instanceFieldTypes| <= 65535
    ensures SizeOf(t, idSize, c) < 0x1_0000_0000
    ensures Counted(t, c) ==>
              && Ends(t, t[c].superClassObjectId) && Depth(t, t[c].superClassObjectId) <= 8192
              && FieldsSize(t[c].instanceFieldTypes, idSize) + RawSize(t, idSize, t[c].superClassObjectId)
                 <= RawSize(t, idSize, c) <= SizeOf(t, idSize, c)
  {
    SizeBounds(t, idSize, c);
    ChainFieldsBound(t, idSize, c);
    if Counted(t, c) {
      SuperEnds(t, c);
    }
  }
}
