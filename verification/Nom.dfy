/** The part of nom the program uses, over byte sequences. A parse ends in `Ok` with the unread
    rest, in `Incomplete` with the exact number of missing bytes, or in `Panic` where the program
    panics. `Parser` is the type of the functions that react to more input as a streaming parser
    must; every combinator is shown to keep it. */
module Nom {

  type byte = x: int | 0 <= x < 0x100
  type u16 = x: int | 0 <= x < 0x1_0000
  type u32 = x: int | 0 <= x < 0x1_0000_0000
  type u64 = x: int | 0 <= x < 0x1_0000_0000_0000_0000
  type i8 = x: int | -0x80 <= x < 0x80
  type i16 = x: int | -0x8000 <= x < 0x8000
  type i32 = x: int | -0x8000_0000 <= x < 0x8000_0000
  type i64 = x: int | -0x8000_0000_0000_0000 <= x < 0x8000_0000_0000_0000

  type Bytes = seq<byte>

  /** Identifier width announced by the file header; the header reader rejects any other. */
  type IdSize = x: int | x == 4 || x == 8 witness 4

  datatype PResult<+T> = Ok(rest: Bytes, value: T) | Incomplete(needed: nat) | Panic {
    predicate IsFailure() {
      !Ok?
    }

    function PropagateFailure<U>(): PResult<U>
      requires IsFailure()
    {
      if Panic? then Panic else Incomplete(needed)
    }

    function Extract(): (Bytes, T)
      requires Ok?
    {
      (rest, value)
    }
  }

  // ---- numbers ----

  function ParseU8(i: Bytes): PResult<byte> {
    if |i| < 1 then Incomplete(1 - |i|) else Ok(i[1..], i[0])
  }

  function ParseU16(i: Bytes): PResult<u16> {
    if |i| < 2 then Incomplete(2 - |i|) else Ok(i[2..], i[0] as int * 0x100 + i[1] as int)
  }

  function ParseU32(i: Bytes): PResult<u32> {
    if |i| < 4 then Incomplete(4 - |i|) else Ok(i[4..], Be32(i))
  }

  function ParseU64(i: Bytes): PResult<u64> {
    if |i| < 8 then Incomplete(8 - |i|) else Ok(i[8..], Be32(i) as int * 0x1_0000_0000 + Be32(i[4..]) as int)
  }

  function Be32(i: Bytes): u32
    requires |i| >= 4
  {
    i[0] as int * 0x100_0000 + i[1] as int * 0x1_0000 + i[2] as int * 0x100 + i[3] as int
  }

  // ---- how a streaming parse reacts to more input ----

  /** `r` is what is left of `i` once some bytes at its front have been read. */
  ghost predicate IsTail(i: Bytes, r: Bytes) {
    |r| <= |i| && i[|i| - |r|..] == r
  }

  /** `a` is the result on some input and `b` the result on that input followed by `x`: success
      and panic are final, and an `Incomplete` counts down exactly until its shortfall is met. */
  ghost predicate Extends<T>(a: PResult<T>, b: PResult<T>, x: Bytes) {
    match a
    case Ok(r, v) => b == Ok(r + x, v)
    case Incomplete(n) => n > 0 && (|x| < n ==> b == Incomplete(n - |x|))
    case Panic => b == Panic
  }

  ghost predicate StreamsOn<T>(a: PResult<T>, b: PResult<T>, i: Bytes, x: Bytes) {
    Extends(a, b, x) && (a.Ok? ==> IsTail(i, a.rest))
  }

  ghost predicate Streams<T(!new)>(p: Bytes -> PResult<T>) {
    forall i: Bytes, x: Bytes {:trigger StreamsOn(p(i), p(i + x), i, x)} :: StreamsOn(p(i), p(i + x), i, x)
  }

  type Parser<!T(!new)> = p: Bytes -> PResult<T> | Streams(p) witness ((i: Bytes) => Panic)

  lemma DropExtends(i: Bytes, x: Bytes, n: nat)
    requires n <= |i|
    ensures (i + x)[n..] == i[n..] + x
    ensures (i + x)[..n] == i[..n]
    ensures IsTail(i, i[n..])
  {
  }

  lemma TailTransitive(a: Bytes, b: Bytes, c: Bytes)
    requires IsTail(a, b) && IsTail(b, c)
    ensures IsTail(a, c)
  {
    assert a[|a| - |b|..][|b| - |c|..] == a[|a| - |c|..];
  }

  // ---- primitives ----

  lemma NumbersStream(i: Bytes, x: Bytes)
    ensures StreamsOn(ParseU8(i), ParseU8(i + x), i, x)
    ensures StreamsOn(ParseU16(i), ParseU16(i + x), i, x)
  {
    if |i| >= 1 { DropExtends(i, x, 1); }
    if |i| >= 2 { DropExtends(i, x, 2); }
  }

  lemma WideNumbersStream(i: Bytes, x: Bytes)
    ensures StreamsOn(ParseU32(i), ParseU32(i + x), i, x)
    ensures StreamsOn(ParseU64(i), ParseU64(i + x), i, x)
  {
    if |i| >= 4 { DropExtends(i, x, 4); }
    if |i| >= 8 { DropExtends(i, x, 8); }
  }

  function U8(): Parser<byte> {
    assert Streams(ParseU8) by {
      forall i: Bytes, x: Bytes ensures StreamsOn(ParseU8(i), ParseU8(i + x), i, x) { NumbersStream(i, x); }
    }
    ParseU8
  }

  function U16(): Parser<u16> {
    assert Streams(ParseU16) by {
      forall i: Bytes, x: Bytes ensures StreamsOn(ParseU16(i), ParseU16(i + x), i, x) { NumbersStream(i, x); }
    }
    ParseU16
  }

  function U32(): Parser<u32> {
    assert Streams(ParseU32) by {
      forall i: Bytes, x: Bytes ensures StreamsOn(ParseU32(i), ParseU32(i + x), i, x) { WideNumbersStream(i, x); }
    }
    ParseU32
  }

  function U64(): Parser<u64> {
    assert Streams(ParseU64) by {
      forall i: Bytes, x: Bytes ensures StreamsOn(ParseU64(i), ParseU64(i + x), i, x) { WideNumbersStream(i, x); }
    }
    ParseU64
  }

  function TakeFrom(n: nat, i: Bytes): PResult<Bytes> {
    if |i| < n then Incomplete(n - |i|) else Ok(i[n..], i[..n])
  }

  function Take(n: nat): Parser<Bytes> {
    var p := (i: Bytes) => TakeFrom(n, i);
    assert Streams(p) by {
      forall i: Bytes, x: Bytes ensures StreamsOn(p(i), p(i + x), i, x) {
        if |i| >= n { DropExtends(i, x, n); }
      }
    }
    p
  }

  function Return<T(!new)>(v: T): Parser<T> {
    var p := (i: Bytes) => Ok(i, v);
    assert Streams(p);
    p
  }

  function Fail<T(!new)>(): Parser<T> {
    (i: Bytes) => Panic
  }

  // ---- combinators ----

  function FlatMapAt<A(!new), B(!new)>(p: Parser<A>, f: A -> Parser<B>, i: Bytes): PResult<B> {
    var (r, v) :- p(i);
    f(v)(r)
  }

  lemma FlatMapStreams<A(!new), B(!new)>(p: Parser<A>, f: A -> Parser<B>, i: Bytes, x: Bytes)
    ensures StreamsOn(FlatMapAt(p, f, i), FlatMapAt(p, f, i + x), i, x)
  {
    assert StreamsOn(p(i), p(i + x), i, x);
    if p(i).Ok? {
      var r, q := p(i).rest, f(p(i).value);
      assert StreamsOn(q(r), q(r + x), r, x);
      if q(r).Ok? {
        TailTransitive(i, r, q(r).rest);
      }
    }
  }

  function FlatMap<A(!new), B(!new)>(p: Parser<A>, f: A -> Parser<B>): Parser<B> {
    var q := (i: Bytes) => FlatMapAt(p, f, i);
    assert Streams(q) by {
      forall i: Bytes, x: Bytes ensures StreamsOn(q(i), q(i + x), i, x) { FlatMapStreams(p, f, i, x); }
    }
    q
  }

  /** Each success reads at least one byte, and one byte is what the empty input lacks. */
  ghost predicate Consuming<T(!new)>(p: Parser<T>) {
    (forall i: Bytes :: p(i).Ok? ==> |p(i).rest| < |i|) && p([]) == Incomplete(1)
  }

  type ConsumingParser<!T(!new)> = p: Parser<T> | Consuming(p)
    witness ((i: Bytes) => if i == [] then Incomplete(1) else Panic)

  /** A tag byte, then the body the tag selects. */
  function Tagged<T(!new)>(body: byte -> Parser<T>): ConsumingParser<T> {
    var p := FlatMap(U8(), body);
    assert Consuming(p) by {
      forall i: Bytes | p(i).Ok? ensures |p(i).rest| < |i| {
        var q := body(i[0]);
        assert StreamsOn(q(i[1..]), q(i[1..] + []), i[1..], []);
      }
    }
    p
  }

  function Map<A(!new), B(!new)>(p: Parser<A>, f: A -> B): Parser<B> {
    FlatMap(p, v => Return(f(v)))
  }

  lemma MapAt<A(!new), B(!new)>(p: Parser<A>, i: Bytes)
    ensures forall f: A -> B {:trigger Map(p, f)} ::
              Map(p, f)(i) == match p(i)
                              case Ok(r, v) => Ok(r, f(v))
                              case Incomplete(n) => Incomplete(n)
                              case Panic => Panic
  {
  }

  function Preceded<A(!new), B(!new)>(p: Parser<A>, q: Parser<B>): Parser<B> {
    FlatMap(p, _ => q)
  }

  function Seq2<A(!new), B(!new)>(p: Parser<A>, q: Parser<B>): Parser<(A, B)> {
    FlatMap(p, a => Map(q, b => (a, b)))
  }

  function Seq3<A(!new), B(!new), C(!new)>(p: Parser<A>, q: Parser<B>, r: Parser<C>): Parser<(A, B, C)> {
    FlatMap(p, a => Map(Seq2(q, r), (t: (B, C)) => (a, t.0, t.1)))
  }

  function Seq4<A(!new), B(!new), C(!new), D(!new)>(
    p: Parser<A>, q: Parser<B>, r: Parser<C>, s: Parser<D>): Parser<(A, B, C, D)>
  {
    FlatMap(p, a => Map(Seq3(q, r, s), (t: (B, C, D)) => (a, t.0, t.1, t.2)))
  }

  function CountAt<T(!new)>(p: Parser<T>, n: nat, i: Bytes): PResult<seq<T>>
    decreases n
  {
    if n == 0 then
      Ok(i, [])
    else
      var (r, v) :- p(i);
      var (r', vs) :- CountAt(p, n - 1, r);
      Ok(r', [v] + vs)
  }

  lemma {:induction false} CountStreams<T(!new)>(p: Parser<T>, n: nat, i: Bytes, x: Bytes)
    ensures StreamsOn(CountAt(p, n, i), CountAt(p, n, i + x), i, x)
    decreases n
  {
    if n > 0 {
      assert StreamsOn(p(i), p(i + x), i, x);
      if p(i).Ok? {
        var r := p(i).rest;
        CountStreams(p, n - 1, r, x);
        if CountAt(p, n - 1, r).Ok? {
          TailTransitive(i, r, CountAt(p, n - 1, r).rest);
        }
      }
    }
  }

  function Count<T(!new)>(p: Parser<T>, n: nat): Parser<seq<T>> {
    var q := (i: Bytes) => CountAt(p, n, i);
    assert Streams(q) by {
      forall i: Bytes, x: Bytes ensures StreamsOn(q(i), q(i + x), i, x) { CountStreams(p, n, i, x); }
    }
    q
  }

  lemma {:induction false} CountLength<T(!new)>(p: Parser<T>, n: nat, i: Bytes)
    ensures CountAt(p, n, i).Ok? ==> |CountAt(p, n, i).value| == n
    decreases n
  {
    if n > 0 && p(i).Ok? {
      CountLength(p, n - 1, p(i).rest);
    }
  }

  function I8(): Parser<i8> {
    Map<byte, i8>(U8(), (v: byte) => if v < 0x80 then v else v - 0x100)
  }

  function I16(): Parser<i16> {
    Map<u16, i16>(U16(), (v: u16) => if v < 0x8000 then v else v - 0x1_0000)
  }

  function I32(): Parser<i32> {
    Map<u32, i32>(U32(), (v: u32) => if v < 0x8000_0000 then v else v - 0x1_0000_0000)
  }

  function I64(): Parser<i64> {
    Map<u64, i64>(U64(), (v: u64) => if v < 0x8000_0000_0000_0000 then v else v - 0x1_0000_0000_0000_0000)
  }
}
