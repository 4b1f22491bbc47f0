/** Stable sorting, orders, and the order of names. */
module Sorting {
  import opened Nom
  import opened Sequences

  // ---- orders ----

  ghost predicate TotalPreorder<T(!new)>(le: (T, T) -> bool) {
    && (forall a, b :: le(a, b) || le(b, a))
    && (forall a, b, c :: le(a, b) && le(b, c) ==> le(a, c))
  }

  ghost predicate Antisymmetric<T(!new)>(le: (T, T) -> bool) {
    forall a, b :: le(a, b) && le(b, a) ==> a == b
  }

  ghost predicate SortedBy<T>(le: (T, T) -> bool, s: seq<T>) {
    forall i, j :: 0 <= i < j < |s| ==> le(s[i], s[j])
  }

  /** First by `le`, then by `next`. */
  function Lex<T>(le: (T, T) -> bool, next: (T, T) -> bool): (T, T) -> bool {
    (a, b) => le(a, b) && (le(b, a) ==> next(a, b))
  }

  /** `t` is `s` sorted by `le`, with elements that tie left in their order: what `sort_by_key`
      promises. There is exactly one such `t`, see `StableUnique`. */
  ghost predicate StablySorted<T(!new)>(le: (T, T) -> bool, s: seq<T>, t: seq<T>) {
    SortedBy(le, t) && multiset(t) == multiset(s) && forall k :: Ties(le, k, t) == Ties(le, k, s)
  }

  method SortByKey<T(!new)>(le: (T, T) -> bool, s: seq<T>) returns (t: seq<T>)
    requires TotalPreorder(le)
    ensures StablySorted(le, s, t)
  {
    SortIsStable(le, s);
    t := Sort(le, s);
  }

  /** What `sort_unstable` promises. */
  method SortUnstable<T(!new)>(le: (T, T) -> bool, s: seq<T>) returns (t: seq<T>)
    requires TotalPreorder(le)
    ensures SortedBy(le, t) && multiset(t) == multiset(s)
  {
    SortSorts(le, s);
    SortPermutes(le, s);
    t := Sort(le, s);
  }

  // ---- insertion sort ----

  function Insert<T>(le: (T, T) -> bool, x: T, s: seq<T>): seq<T> {
    if s == [] then [x] else if le(x, s[0]) then [x] + s else [s[0]] + Insert(le, x, s[1..])
  }

  function Sort<T>(le: (T, T) -> bool, s: seq<T>): seq<T> {
    if s == [] then [] else Insert(le, s[0], Sort(le, s[1..]))
  }

  lemma {:induction false} InsertPermutes<T>(le: (T, T) -> bool, x: T, s: seq<T>)
    ensures multiset(Insert(le, x, s)) == multiset{x} + multiset(s)
  {
    if s != [] {
      InsertPermutes(le, x, s[1..]);
      assert s == [s[0]] + s[1..];
    }
  }

  lemma {:induction false} SortPermutes<T>(le: (T, T) -> bool, s: seq<T>)
    ensures multiset(Sort(le, s)) == multiset(s)
  {
    if s != [] {
      SortPermutes(le, s[1..]);
      InsertPermutes(le, s[0], Sort(le, s[1..]));
      assert s == [s[0]] + s[1..];
    }
  }

  lemma SamePermuted<T>(a: seq<T>, b: seq<T>, x: T)
    requires multiset(a) == multiset(b)
    ensures x in a <==> x in b
  {
    assert x in multiset(a) <==> x in multiset(b);
  }

  lemma SortedCons<T>(le: (T, T) -> bool, x: T, s: seq<T>)
    requires SortedBy(le, s) && forall y :: y in s ==> le(x, y)
    ensures SortedBy(le, [x] + s)
  {
  }

  lemma {:induction false} InsertSorts<T(!new)>(le: (T, T) -> bool, x: T, s: seq<T>)
    requires TotalPreorder(le) && SortedBy(le, s)
    ensures SortedBy(le, Insert(le, x, s))
  {
    if s != [] {
      if le(x, s[0]) {
        SortedCons(le, x, s);
      } else {
        var later := Insert(le, x, s[1..]);
        InsertSorts(le, x, s[1..]);
        InsertPermutes(le, x, s[1..]);
        forall y | y in later
          ensures le(s[0], y)
        {
          assert y in multiset(later);
          assert y == x || y in s[1..];
        }
        SortedCons(le, s[0], later);
      }
    }
  }

  lemma {:induction false} SortSorts<T(!new)>(le: (T, T) -> bool, s: seq<T>)
    requires TotalPreorder(le)
    ensures SortedBy(le, Sort(le, s))
  {
    if s != [] {
      SortSorts(le, s[1..]);
      InsertSorts(le, s[0], Sort(le, s[1..]));
    }
  }

  /** The elements that tie with `k`, in order. */
  function Ties<T>(le: (T, T) -> bool, k: T, s: seq<T>): seq<T> {
    if s == [] then []
    else (if le(s[0], k) && le(k, s[0]) then [s[0]] else []) + Ties(le, k, s[1..])
  }

  lemma NotBothTie<T(!new)>(le: (T, T) -> bool, k: T, x: T, y: T)
    requires TotalPreorder(le) && !le(x, y)
    ensures !(le(x, k) && le(k, x) && le(y, k) && le(k, y))
  {
  }

  lemma {:induction false} InsertStable<T(!new)>(le: (T, T) -> bool, k: T, x: T, s: seq<T>)
    requires TotalPreorder(le)
    ensures Ties(le, k, Insert(le, x, s)) == (if le(x, k) && le(k, x) then [x] else []) + Ties(le, k, s)
  {
    hide TotalPreorder;
    if s != [] {
      if le(x, s[0]) {
        assert ([x] + s)[1..] == s;
      } else {
        NotBothTie(le, k, x, s[0]);
        InsertStable(le, k, x, s[1..]);
        assert ([s[0]] + Insert(le, x, s[1..]))[1..] == Insert(le, x, s[1..]);
      }
    }
  }

  /** Elements that tie keep their order. */
  lemma {:induction false} SortStable<T(!new)>(le: (T, T) -> bool, k: T, s: seq<T>)
    requires TotalPreorder(le)
    ensures Ties(le, k, Sort(le, s)) == Ties(le, k, s)
  {
    if s != [] {
      SortStable(le, k, s[1..]);
      InsertStable(le, k, s[0], Sort(le, s[1..]));
    }
  }

  lemma SortIsStable<T(!new)>(le: (T, T) -> bool, s: seq<T>)
    requires TotalPreorder(le)
    ensures StablySorted(le, s, Sort(le, s))
  {
    SortSorts(le, s);
    SortPermutes(le, s);
    forall k
      ensures Ties(le, k, Sort(le, s)) == Ties(le, k, s)
    {
      SortStable(le, k, s);
    }
  }

  // ---- a stable sort has one result ----

  lemma {:induction false} TiesTie<T(!new)>(le: (T, T) -> bool, k: T, s: seq<T>)
    ensures forall x :: x in Ties(le, k, s) <==> x in s && le(x, k) && le(k, x)
  {
    if s != [] {
      TiesTie(le, k, s[1..]);
      assert s == [s[0]] + s[1..];
    }
  }

  lemma SameHead<T(!new)>(le: (T, T) -> bool, t: seq<T>, u: seq<T>)
    requires TotalPreorder(le) && SortedBy(le, t) && SortedBy(le, u) && t != [] && u != []
    requires forall k :: Ties(le, k, t) == Ties(le, k, u)
    ensures t[0] == u[0]
  {
    TiesTie(le, t[0], t);
    TiesTie(le, t[0], u);
    TiesTie(le, u[0], t);
    TiesTie(le, u[0], u);
    assert le(u[0], t[0]) && le(t[0], u[0]);
    assert Ties(le, t[0], t)[0] == t[0] && Ties(le, t[0], u)[0] == u[0];
  }

  lemma NoTies<T(!new)>(le: (T, T) -> bool, t: seq<T>, u: seq<T>)
    requires TotalPreorder(le)
    requires forall k :: Ties(le, k, t) == Ties(le, k, u)
    ensures t == [] ==> u == []
  {
    if u != [] {
      assert Ties(le, u[0], t) == Ties(le, u[0], u);
    }
  }

  /** Sorted, with the same ties in the same order: the same sequence. */
  lemma {:induction false} StableUnique<T(!new)>(le: (T, T) -> bool, t: seq<T>, u: seq<T>)
    requires TotalPreorder(le) && SortedBy(le, t) && SortedBy(le, u)
    requires forall k :: Ties(le, k, t) == Ties(le, k, u)
    ensures t == u
  {
    NoTies(le, t, u);
    NoTies(le, u, t);
    if t != [] {
      SameHead(le, t, u);
      forall k
        ensures Ties(le, k, t[1..]) == Ties(le, k, u[1..])
      {
        TiesOfTail(le, k, t);
        TiesOfTail(le, k, u);
      }
      StableUnique(le, t[1..], u[1..]);
      assert t == [t[0]] + t[1..] && u == [u[0]] + u[1..];
    }
  }

  lemma TiesOfTail<T(!new)>(le: (T, T) -> bool, k: T, s: seq<T>)
    requires s != []
    ensures Ties(le, k, s[1..]) == if le(s[0], k) && le(k, s[0]) then Ties(le, k, s)[1..] else Ties(le, k, s)
  {
  }

  // ---- sorts in a row ----

  /** A stable sort by a new key keeps the old order among ties: two sorts in a row give the
      lexicographic order. */
  lemma StableRefines<T(!new)>(le: (T, T) -> bool, next: (T, T) -> bool, s: seq<T>, t: seq<T>)
    requires TotalPreorder(le) && TotalPreorder(next) && SortedBy(next, s) && StablySorted(le, s, t)
    ensures SortedBy(Lex(le, next), t)
  {
    SortIsStable(le, s);
    StableUnique(le, t, Sort(le, s));
    SortRefines(le, next, s);
  }

  lemma {:induction false} SortRefines<T(!new)>(le: (T, T) -> bool, next: (T, T) -> bool, s: seq<T>)
    requires TotalPreorder(le) && TotalPreorder(next) && SortedBy(next, s)
    ensures SortedBy(Lex(le, next), Sort(le, s))
  {
    if s != [] {
      SortRefines(le, next, s[1..]);
      SortPermutes(le, s[1..]);
      var rest := Sort(le, s[1..]);
      forall y | y in rest
        ensures next(s[0], y)
      {
        SamePermuted(rest, s[1..], y);
      }
      InsertRefines(le, next, s[0], rest);
    }
  }

  lemma {:induction false} InsertRefines<T(!new)>(le: (T, T) -> bool, next: (T, T) -> bool, x: T, s: seq<T>)
    requires TotalPreorder(le) && TotalPreorder(next)
    requires SortedBy(Lex(le, next), s) && forall y :: y in s ==> next(x, y)
    ensures SortedBy(Lex(le, next), Insert(le, x, s))
  {
    if s != [] {
      if le(x, s[0]) {
        forall y | y in s
          ensures Lex(le, next)(x, y)
        {
          assert le(s[0], y);
        }
        SortedCons(Lex(le, next), x, s);
      } else {
        var later := Insert(le, x, s[1..]);
        InsertRefines(le, next, x, s[1..]);
        InsertPermutes(le, x, s[1..]);
        forall y | y in later
          ensures Lex(le, next)(s[0], y)
        {
          assert y in multiset(later);
          assert y == x || y in s[1..];
        }
        SortedCons(Lex(le, next), s[0], later);
      }
    }
  }

  lemma TailsPermute<T>(a: seq<T>, b: seq<T>)
    requires multiset(a) == multiset(b) && a != [] && b != [] && a[0] == b[0]
    ensures multiset(a[1..]) == multiset(b[1..])
  {
    assert a == [a[0]] + a[1..] && b == [b[0]] + b[1..];
    assert multiset(a[1..]) == multiset(a) - multiset{a[0]};
    assert multiset(b[1..]) == multiset(b) - multiset{b[0]};
  }

  /** A permutation is sorted in at most one way by an order that tells its elements apart. */
  lemma {:induction false} SortedUnique<T(!new)>(le: (T, T) -> bool, a: seq<T>, b: seq<T>)
    requires TotalPreorder(le)
    requires forall x, y :: x in a && y in a && le(x, y) && le(y, x) ==> x == y
    requires SortedBy(le, a) && SortedBy(le, b) && multiset(a) == multiset(b)
    ensures a == b
  {
    assert |multiset(a)| == |a| && |multiset(b)| == |b|;
    if a != [] {
      SamePermuted(a, b, a[0]);
      SamePermuted(a, b, b[0]);
      assert a[0] == b[0];
      TailsPermute(a, b);
      SortedUnique(le, a[1..], b[1..]);
      assert a == [a[0]] + a[1..] && b == [b[0]] + b[1..];
    }
  }

  // ---- names ----

  /** Byte-wise lexicographic order, the order of strings in the program. */
  predicate NameLe(a: Bytes, b: Bytes) {
    a == [] || (b != [] && (a[0] < b[0] || (a[0] == b[0] && NameLe(a[1..], b[1..]))))
  }

  lemma {:induction false} NameTotal(a: Bytes, b: Bytes)
    ensures NameLe(a, b) || NameLe(b, a)
    ensures NameLe(a, b) && NameLe(b, a) ==> a == b
  {
    if a != [] && b != [] {
      NameTotal(a[1..], b[1..]);
      assert a == [a[0]] + a[1..] && b == [b[0]] + b[1..];
    }
  }

  lemma {:induction false} NameTransitive(a: Bytes, b: Bytes, c: Bytes)
    requires NameLe(a, b) && NameLe(b, c)
    ensures NameLe(a, c)
  {
    if a != [] && a[0] == b[0] && b[0] == c[0] {
      NameTransitive(a[1..], b[1..], c[1..]);
    }
  }

  /** At the first place where they differ, `a` has the smaller byte. */
  ghost predicate SmallerAtFirst(a: Bytes, b: Bytes) {
    exists k :: 0 <= k < |a| && k < |b| && a[..k] == b[..k] && a[k] < b[k]
  }

  lemma {:induction false} NameLeExactly(a: Bytes, b: Bytes)
    ensures NameLe(a, b) <==> a <= b || SmallerAtFirst(a, b)
  {
    if a != [] && b != [] && a[0] == b[0] {
      NameLeExactly(a[1..], b[1..]);
      assert a == [a[0]] + a[1..] && b == [b[0]] + b[1..];
      SmallerInTail(a, b);
    } else if a != [] && b != [] {
      assert a[..0] == b[..0];
    }
  }

  lemma SmallerInTail(a: Bytes, b: Bytes)
    requires a != [] && b != [] && a[0] == b[0]
    ensures SmallerAtFirst(a, b) <==> SmallerAtFirst(a[1..], b[1..])
  {
    hide SmallerAtFirst;
    if SmallerAtFirst(a, b) {
      SmallerToTail(a, b);
    }
    if SmallerAtFirst(a[1..], b[1..]) {
      SmallerFromTail(a, b);
    }
  }

  lemma SmallerToTail(a: Bytes, b: Bytes)
    requires a != [] && b != [] && a[0] == b[0] && SmallerAtFirst(a, b)
    ensures SmallerAtFirst(a[1..], b[1..])
  {
    var k :| 0 <= k < |a| && k < |b| && a[..k] == b[..k] && a[k] < b[k];
    assert a[1..][..k - 1] == a[..k][1..] && b[1..][..k - 1] == b[..k][1..];
    assert a[1..][k - 1] < b[1..][k - 1];
  }

  lemma SmallerFromTail(a: Bytes, b: Bytes)
    requires a != [] && b != [] && a[0] == b[0] && SmallerAtFirst(a[1..], b[1..])
    ensures SmallerAtFirst(a, b)
  {
    var k :| 0 <= k < |a[1..]| && k < |b[1..]| && a[1..][..k] == b[1..][..k] && a[1..][k] < b[1..][k];
    assert a[..k + 1] == [a[0]] + a[1..][..k] && b[..k + 1] == [b[0]] + b[1..][..k];
    assert a[k + 1] < b[k + 1];
  }

  // ---- listings of a set ----

  /** `order` lists each of the keys once: one way a hash map may be iterated. */
  ghost predicate Enumerates<K(!new)>(order: seq<K>, keys: set<K>) {
    Distinct(order) && forall k :: k in order <==> k in keys
  }

  function MapSeq<K, R>(f: K -> R, s: seq<K>): seq<R> {
    if s == [] then [] else MapSeq(f, s[..|s| - 1]) + [f(s[|s| - 1])]
  }

  lemma {:induction false} MapSeqAt<K, R>(f: K -> R, s: seq<K>)
    ensures |MapSeq(f, s)| == |s| && forall k :: 0 <= k < |s| ==> MapSeq(f, s)[k] == f(s[k])
  {
    if s != [] {
      MapSeqAt(f, s[..|s| - 1]);
    }
  }

  lemma MapPush<K, R>(f: K -> R, s: seq<K>, k: K)
    ensures MapSeq(f, s + [k]) == MapSeq(f, s) + [f(k)]
  {
    assert (s + [k])[..|s|] == s;
  }

  lemma {:induction false} MapSplit<K, R>(f: K -> R, a: seq<K>, b: seq<K>)
    ensures MapSeq(f, a + b) == MapSeq(f, a) + MapSeq(f, b)
    decreases |b|
  {
    if b == [] {
      assert a + b == a;
    } else {
      var n := |b| - 1;
      MapSplit(f, a, b[..n]);
      assert (a + b)[..|a + b| - 1] == a + b[..n];
    }
  }

  /** Where a permutation has the last element, and what is left without it. */
  lemma FindLast<T>(a: seq<T>, b: seq<T>) returns (j: nat)
    requires a != [] && multiset(a) == multiset(b)
    ensures j < |b| && b[j] == a[|a| - 1]
    ensures b == (b[..j] + [b[j]]) + b[j + 1..]
    ensures multiset(a[..|a| - 1]) == multiset(b[..j] + b[j + 1..])
  {
    var n := |a| - 1;
    SamePermuted(a, b, a[n]);
    j :| 0 <= j < |b| && b[j] == a[n];
    assert a == a[..n] + [a[n]];
    assert b == b[..j] + [b[j]] + b[j + 1..];
    assert multiset(a[..n]) == multiset(a) - multiset{a[n]};
  }

  /** Permuting the arguments permutes the results. */
  lemma {:induction false} MapPermutes<K, R>(f: K -> R, a: seq<K>, b: seq<K>)
    requires multiset(a) == multiset(b)
    ensures multiset(MapSeq(f, a)) == multiset(MapSeq(f, b))
  {
    if a == [] {
      assert |multiset(b)| == 0;
    } else {
      var j := FindLast(a, b);
      MapPermutes(f, a[..|a| - 1], b[..j] + b[j + 1..]);
      MapSplit(f, b[..j], b[j + 1..]);
      MapSplit(f, b[..j] + [b[j]], b[j + 1..]);
      MapPush(f, b[..j], b[j]);
    }
  }

  lemma {:induction false} EnumerationsPermute<K(!new)>(a: seq<K>, b: seq<K>, keys: set<K>)
    requires Enumerates(a, keys) && Enumerates(b, keys)
    ensures multiset(a) == multiset(b)
  {
    OnceEach(a, keys);
    OnceEach(b, keys);
  }

  lemma {:induction false} OnceEach<K(!new)>(a: seq<K>, keys: set<K>)
    requires Enumerates(a, keys)
    ensures multiset(a) == multiset(keys)
    decreases |a|
  {
    if a == [] {
      assert keys == {};
    } else {
      var n := |a| - 1;
      assert a == a[..n] + [a[n]];
      assert Enumerates(a[..n], keys - {a[n]});
      OnceEach(a[..n], keys - {a[n]});
    }
  }

  /** A permutation of a listing is a listing. */
  lemma {:induction false} PermutedEnumerates<K(!new)>(a: seq<K>, keys: set<K>)
    requires multiset(a) == multiset(keys)
    ensures Enumerates(a, keys)
    decreases |a|
  {
    if a == [] {
      assert |multiset(keys)| == 0;
    } else {
      var n := |a| - 1;
      assert a == a[..n] + [a[n]];
      assert a[n] in multiset(a);
      assert multiset(a[..n]) == multiset(keys) - multiset{a[n]} == multiset(keys - {a[n]});
      PermutedEnumerates(a[..n], keys - {a[n]});
    }
  }
}
