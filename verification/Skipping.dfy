/** Skipping an array of primitives against parsing it element by element. */
module Skipping {
  import opened Nom
  import opened Records
  import opened RecordParser

  /** `p` reads exactly `w` bytes and never refuses them. */
  ghost predicate FixedWidth<T(!new)>(p: Parser<T>, w: nat) {
    forall i: Bytes :: if |i| < w then p(i).Incomplete? else p(i).Ok? && p(i).rest == i[w..]
  }

  lemma MapWidth<A(!new), B(!new)>(p: Parser<A>, w: nat)
    requires FixedWidth(p, w)
    ensures forall f: A -> B {:trigger Map(p, f)} :: FixedWidth(Map(p, f), w)
  {
    forall f: A -> B, i: Bytes
      ensures if |i| < w then Map(p, f)(i).Incomplete? else Map(p, f)(i).Ok? && Map(p, f)(i).rest == i[w..]
    {
      MapAt<A, B>(p, i);
    }
  }

  lemma UnsignedWidths()
    ensures FixedWidth(U8(), 1) && FixedWidth(U16(), 2) && FixedWidth(U32(), 4) && FixedWidth(U64(), 8)
  {
    hide Be32;
  }

  lemma SignedWidths()
    ensures FixedWidth(I8(), 1) && FixedWidth(I16(), 2) && FixedWidth(I32(), 4) && FixedWidth(I64(), 8)
  {
    hide U8, U16, U32, U64, FixedWidth, Map;
    UnsignedWidths();
    MapWidth<byte, i8>(U8(), 1);
    MapWidth<u16, i16>(U16(), 2);
    MapWidth<u32, i32>(U32(), 4);
    MapWidth<u64, i64>(U64(), 8);
  }

  function Extent(n: nat, w: nat): nat {
    if n == 0 then 0 else Extent(n - 1, w) + w
  }

  lemma {:induction false} ExtentIsProduct(n: nat, w: nat)
    ensures Extent(n, w) == n * w
  {
    if n > 0 {
      ExtentIsProduct(n - 1, w);
    }
  }

  /** A counted list of fixed-width elements is there exactly when its bytes are. */
  lemma {:induction false} CountWidth<T(!new)>(p: Parser<T>, w: nat, n: nat, i: Bytes)
    requires FixedWidth(p, w)
    ensures if |i| < Extent(n, w) then CountAt(p, n, i).Incomplete?
            else CountAt(p, n, i).Ok? && CountAt(p, n, i).rest == i[Extent(n, w)..]
    decreases n
  {
    if n > 0 && |i| >= w {
      CountWidth(p, w, n - 1, i[w..]);
      if |i| >= Extent(n, w) {
        assert i[w..][Extent(n - 1, w)..] == i[Extent(n, w)..];
      }
    }
  }

  /** The same outcome, up to the value and the size of a shortfall. */
  ghost predicate SameExtent<A, B>(a: PResult<A>, b: PResult<B>) {
    match a
    case Ok(r, _) => b.Ok? && b.rest == r
    case Incomplete(_) => b.Incomplete?
    case Panic => b.Panic?
  }

  lemma CountSkips<T(!new)>(p: Parser<T>, w: nat, n: nat, i: Bytes)
    requires FixedWidth(p, w)
    ensures forall f: seq<T> -> ArrayValue {:trigger Map(Count(p, n), f)} ::
              SameExtent(Take(Extent(n, w))(i), Map(Count(p, n), f)(i))
  {
    CountWidth(p, w, n, i);
    MapAt<seq<T>, ArrayValue>(Count(p, n), i);
  }

  /** Skipping refines parsing: for every element type, count and input, both stop at the same
      byte, both run short, or both refuse (an array of objects). */
  lemma SkipRefinesParse(ty: FieldType, n: u32, i: Bytes)
    ensures SameExtent(SkipArrayValue(ty, n)(i), ParseArrayValue(ty, n)(i))
    ensures SkipArrayValue(ty, n)(i).Panic? <==> ty == Object
  {
    hide U8, U16, U32, U64, I8, I16, I32, I64, Count, Map, FixedWidth, Extent;
    UnsignedWidths();
    SignedWidths();
    match ty
    case Object =>
    case Bool => CountSkips(U8(), 1, n, i); ExtentIsProduct(n, 1);
    case Char => CountSkips(U16(), 2, n, i); ExtentIsProduct(n, 2);
    case Float => CountSkips(U32(), 4, n, i); ExtentIsProduct(n, 4);
    case Double => CountSkips(U64(), 8, n, i); ExtentIsProduct(n, 8);
    case Byte => CountSkips(I8(), 1, n, i); ExtentIsProduct(n, 1);
    case Short => CountSkips(I16(), 2, n, i); ExtentIsProduct(n, 2);
    case Int => CountSkips(I32(), 4, n, i); ExtentIsProduct(n, 4);
    case Long => CountSkips(I64(), 8, n, i); ExtentIsProduct(n, 8);
  }
}
