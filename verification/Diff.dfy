/** The per-class difference between two reports. */
module Diff {
  import opened Nom
  import opened Sequences
  import opened Sorting
  import opened Report

  datatype Totals = Totals(instances: nat, bytes: nat)

  const NOTHING := Totals(0, 0)

  datatype DiffEntry = DiffEntry(
    className: Bytes,
    instancesFrom: nat,
    instancesTo: nat,
    bytesFrom: nat,
    bytesTo: nat)
  {
    function DeltaBytes(): int {
      bytesTo - bytesFrom
    }

    function DeltaInstances(): int {
      instancesTo - instancesFrom
    }

    /** The entry of the opposite comparison. */
    function Swapped(): DiffEntry {
      DiffEntry(className, instancesTo, instancesFrom, bytesTo, bytesFrom)
    }
  }

  // ---- reference definitions ----

  /** What a report says about a name, summed over all rows with that name. */
  function TotalFor(stats: seq<ClassAllocationStats>, name: Bytes): Totals {
    if stats == [] then NOTHING
    else
      var before, last := TotalFor(stats[..|stats| - 1], name), stats[|stats| - 1];
      if last.className == name
      then Totals(before.instances + last.instanceCount, before.bytes + last.allocationSizeBytes)
      else before
  }

  function Names(stats: seq<ClassAllocationStats>): set<Bytes> {
    set s | s in stats :: s.className
  }

  function EntryFor(from: seq<ClassAllocationStats>, to: seq<ClassAllocationStats>, name: Bytes): DiffEntry {
    var f, t := TotalFor(from, name), TotalFor(to, name);
    DiffEntry(name, f.instances, t.instances, f.bytes, t.bytes)
  }

  predicate Changed(e: DiffEntry) {
    e.DeltaBytes() != 0 || e.DeltaInstances() != 0
  }

  // ---- the program ----

  method TotalsByClassName(stats: seq<ClassAllocationStats>) returns (totals: map<Bytes, Totals>)
    ensures totals.Keys == Names(stats)
    ensures forall name :: TotalFor(stats, name) == if name in totals then totals[name] else NOTHING
  {
    totals := map[];
    for k := 0 to |stats|
      invariant totals.Keys == Names(stats[..k])
      invariant forall name :: TotalFor(stats[..k], name) == if name in totals then totals[name] else NOTHING
    {
      var s := stats[k];
      var t := if s.className in totals then totals[s.className] else NOTHING;
      assert stats[..k + 1][..k] == stats[..k];
      assert stats[..k + 1] == stats[..k] + [s];
      totals := totals[s.className := Totals(t.instances + s.instanceCount, t.bytes + s.allocationSizeBytes)];
    }
    assert stats[..|stats|] == stats;
  }

  /** `dedup` on a sorted list: each value once. */
  method Dedup(names: seq<Bytes>) returns (unique: seq<Bytes>)
    requires SortedBy(NameLe, names)
    ensures forall n :: n in unique <==> n in names
    ensures Distinct(unique)
    ensures SortedBy(NameLe, unique)
  {
    unique := [];
    for k := 0 to |names|
      invariant forall n :: n in unique <==> n in names[..k]
      invariant Distinct(unique)
      invariant SortedBy(NameLe, unique)
      invariant k > 0 ==> unique != [] && unique[|unique| - 1] == names[k - 1]
      invariant k == 0 ==> unique == []
    {
      assert names[..k + 1] == names[..k] + [names[k]];
      if unique == [] || unique[|unique| - 1] != names[k] {
        forall i | 0 <= i < |unique|
          ensures NameLe(unique[i], names[k]) && unique[i] != names[k]
        {
          assert unique[i] in names[..k];
          if unique[i] == names[k] && i < |unique| - 1 {
            assert NameLe(unique[i], unique[|unique| - 1]) && NameLe(unique[|unique| - 1], names[k]);
            NameTotal(unique[i], unique[|unique| - 1]);
          }
        }
        unique := unique + [names[k]];
      }
    }
    assert names[..|names|] == names;
  }

  /** Larger growth first. */
  predicate ByGrowth(a: DiffEntry, b: DiffEntry) {
    a.DeltaBytes() >= b.DeltaBytes()
  }

  predicate ByName(a: DiffEntry, b: DiffEntry) {
    NameLe(a.className, b.className)
  }

  /** Larger growth first, ties in order of name. */
  predicate GrowthThenName(a: DiffEntry, b: DiffEntry) {
    a.DeltaBytes() > b.DeltaBytes() || (a.DeltaBytes() == b.DeltaBytes() && NameLe(a.className, b.className))
  }

  /** No two entries have the same name. */
  ghost predicate NamesOnce(entries: seq<DiffEntry>) {
    forall i, j :: 0 <= i < j < |entries| ==> entries[i].className != entries[j].className
  }

  /** `e` reports a name whose totals changed. */
  predicate Reports(from: seq<ClassAllocationStats>, to: seq<ClassAllocationStats>, e: DiffEntry) {
    e == EntryFor(from, to, e.className) && Changed(e)
  }

  /** The names whose totals differ, each once, with the totals of both sides, ordered by growth in
      bytes and then by name. */
  ghost predicate IsDiff(from: seq<ClassAllocationStats>, to: seq<ClassAllocationStats>, entries: seq<DiffEntry>) {
    && NamesOnce(entries)
    && (forall e :: e in entries <==> Reports(from, to, e))
    && SortedBy(GrowthThenName, entries)
  }

  lemma NameOrders()
    ensures TotalPreorder(NameLe) && TotalPreorder(ByName) && TotalPreorder(ByGrowth)
  {
    forall a: Bytes, b: Bytes
      ensures NameLe(a, b) || NameLe(b, a)
    {
      NameTotal(a, b);
    }
    forall a: Bytes, b: Bytes, c: Bytes | NameLe(a, b) && NameLe(b, c)
      ensures NameLe(a, c)
    {
      NameTransitive(a, b, c);
    }
  }

  lemma {:induction false} Unmentioned(stats: seq<ClassAllocationStats>, name: Bytes)
    requires name !in Names(stats)
    ensures TotalFor(stats, name) == NOTHING
  {
    if stats != [] {
      assert stats == stats[..|stats| - 1] + [stats[|stats| - 1]];
      Unmentioned(stats[..|stats| - 1], name);
    }
  }

  /** The class names of both sides, sorted and deduplicated; the orders are those in which the two
      hash maps are iterated. */
  method ClassNames(from: seq<ClassAllocationStats>, to: seq<ClassAllocationStats>,
                    fromOrder: seq<Bytes>, toOrder: seq<Bytes>)
    returns (unique: seq<Bytes>)
    requires Enumerates(fromOrder, Names(from)) && Enumerates(toOrder, Names(to))
    ensures Enumerates(unique, Names(from) + Names(to)) && SortedBy(NameLe, unique)
  {
    hide NameLe, Names;
    var classNames := fromOrder + toOrder;
    NameOrders();
    var sortedNames := SortUnstable(NameLe, classNames);
    unique := Dedup(sortedNames);
    forall n
      ensures n in unique <==> n in Names(from) + Names(to)
    {
      SamePermuted(sortedNames, classNames, n);
    }
  }

  /** The entries of the changed names, in the order of the names. */
  method ChangedEntries(from: seq<ClassAllocationStats>, to: seq<ClassAllocationStats>, names: seq<Bytes>)
    returns (entries: seq<DiffEntry>)
    requires Enumerates(names, Names(from) + Names(to)) && SortedBy(NameLe, names)
    ensures forall e :: e in entries <==> e.className in names && Reports(from, to, e)
    ensures NamesOnce(entries) && SortedBy(ByName, entries)
  {
    hide NameLe, TotalFor, Names;
    var fromByName := TotalsByClassName(from);
    var toByName := TotalsByClassName(to);
    entries := [];
    for k := 0 to |names|
      invariant forall e :: e in entries <==> e.className in names[..k] && Reports(from, to, e)
      invariant NamesOnce(entries) && SortedBy(ByName, entries)
    {
      var name := names[k];
      var f := if name in fromByName then fromByName[name] else NOTHING;
      var t := if name in toByName then toByName[name] else NOTHING;
      var e := DiffEntry(name, f.instances, t.instances, f.bytes, t.bytes);
      assert e == EntryFor(from, to, name);
      if e.DeltaBytes() != 0 || e.DeltaInstances() != 0 {
        NextEntry(from, to, names, k, entries);
        entries := entries + [e];
      } else {
        assert names[..k + 1] == names[..k] + [name];
      }
    }
    assert names[..|names|] == names;
  }

  lemma NextEntry(from: seq<ClassAllocationStats>, to: seq<ClassAllocationStats>, names: seq<Bytes>, k: nat,
                  entries: seq<DiffEntry>)
    requires k < |names| && Enumerates(names, Names(from) + Names(to)) && SortedBy(NameLe, names)
    requires forall e :: e in entries <==> e.className in names[..k] && Reports(from, to, e)
    requires NamesOnce(entries) && SortedBy(ByName, entries)
    requires Changed(EntryFor(from, to, names[k]))
    ensures var entries' := entries + [EntryFor(from, to, names[k])];
            && NamesOnce(entries') && SortedBy(ByName, entries')
            && forall e :: e in entries' <==> e.className in names[..k + 1] && Reports(from, to, e)
  {
    hide NameLe, TotalFor, Names;
    forall i | 0 <= i < |entries|
      ensures NameLe(entries[i].className, names[k]) && entries[i].className != names[k]
    {
      assert entries[i] in entries;
      assert entries[i].className in names[..k];
    }
    assert names[..k + 1] == names[..k] + [names[k]];
  }

  /** `compute`. */
  method Compute(from: seq<ClassAllocationStats>, to: seq<ClassAllocationStats>,
                 fromOrder: seq<Bytes>, toOrder: seq<Bytes>)
    returns (entries: seq<DiffEntry>)
    requires Enumerates(fromOrder, Names(from)) && Enumerates(toOrder, Names(to))
    ensures IsDiff(from, to, entries)
  {
    hide Names, Reports, SortedBy, NamesOnce;
    var names := ClassNames(from, to, fromOrder, toOrder);
    entries := ChangedEntries(from, to, names);
    forall e | Reports(from, to, e)
      ensures e.className in names
    {
      ReportedIsNamed(from, to, e);
    }
    assert forall e :: e in entries <==> Reports(from, to, e);
    NameOrders();
    var sorted := SortByKey(ByGrowth, entries);
    FinishDiff(from, to, entries, sorted);
    entries := sorted;
  }

  lemma ReportedIsNamed(from: seq<ClassAllocationStats>, to: seq<ClassAllocationStats>, e: DiffEntry)
    requires Reports(from, to, e)
    ensures e.className in Names(from) + Names(to)
  {
    hide Names;
    if e.className !in Names(from) + Names(to) {
      Unmentioned(from, e.className);
      Unmentioned(to, e.className);
    }
  }

  /** The last stable sort turns the entries in order of name into the difference. */
  lemma FinishDiff(from: seq<ClassAllocationStats>, to: seq<ClassAllocationStats>, entries: seq<DiffEntry>,
                   sorted: seq<DiffEntry>)
    requires forall e :: e in entries <==> Reports(from, to, e)
    requires NamesOnce(entries) && SortedBy(ByName, entries)
    requires StablySorted(ByGrowth, entries, sorted)
    ensures IsDiff(from, to, sorted)
  {
    hide SortedBy, NamesOnce, EntryFor, Changed, Ties;
    GrowthSorted(entries, sorted);
    NamesStayApart(from, to, entries, sorted);
    forall e
      ensures e in sorted <==> Reports(from, to, e)
    {
      SamePermuted(entries, sorted, e);
    }
  }

  lemma NamesStayApart(from: seq<ClassAllocationStats>, to: seq<ClassAllocationStats>,
                       a: seq<DiffEntry>, b: seq<DiffEntry>)
    requires multiset(a) == multiset(b) && NamesOnce(a)
    requires forall e :: e in a ==> e == EntryFor(from, to, e.className)
    ensures NamesOnce(b)
  {
    hide EntryFor;
    var all := set e | e in a;
    EntriesOnce(a);
    OnceEach(a, all);
    PermutedEnumerates(b, all);
    forall i, j | 0 <= i < j < |b|
      ensures b[i].className != b[j].className
    {
      assert b[i] in all && b[j] in all;
    }
  }

  lemma GrowthSorted(entries: seq<DiffEntry>, sorted: seq<DiffEntry>)
    requires SortedBy(ByName, entries) && StablySorted(ByGrowth, entries, sorted)
    ensures SortedBy(GrowthThenName, sorted)
  {
    hide NameLe;
    NameOrders();
    StableRefines(ByGrowth, ByName, entries, sorted);
    forall i, j | 0 <= i < j < |sorted|
      ensures GrowthThenName(sorted[i], sorted[j])
    {
      assert Lex(ByGrowth, ByName)(sorted[i], sorted[j]);
    }
  }

  // ---- the difference is determined by the totals ----

  lemma GrowthOrder()
    ensures TotalPreorder(GrowthThenName)
  {
    hide NameLe;
    NameOrders();
    assert TotalPreorder(NameLe);
    forall a: DiffEntry, b: DiffEntry
      ensures GrowthThenName(a, b) || GrowthThenName(b, a)
    {
      NameTotal(a.className, b.className);
    }
  }

  /** Entries with different names are different entries. */
  lemma EntriesOnce(entries: seq<DiffEntry>)
    requires NamesOnce(entries)
    ensures Enumerates(entries, set e | e in entries)
  {
  }

  /** Two comparisons with the same totals per name have the same difference, entry for entry:
      neither the order of rows nor hash-map iteration shows. */
  lemma DiffUnique(from: seq<ClassAllocationStats>, to: seq<ClassAllocationStats>, entries: seq<DiffEntry>,
                   from': seq<ClassAllocationStats>, to': seq<ClassAllocationStats>, entries': seq<DiffEntry>)
    requires forall name :: TotalFor(from, name) == TotalFor(from', name)
    requires forall name :: TotalFor(to, name) == TotalFor(to', name)
    requires IsDiff(from, to, entries) && IsDiff(from', to', entries')
    ensures entries == entries'
  {
    hide NameLe, TotalFor;
    assert forall e :: Reports(from, to, e) <==> Reports(from', to', e);
    var all := set e | e in entries;
    EntriesOnce(entries);
    EntriesOnce(entries');
    assert all == set e | e in entries';
    EnumerationsPermute(entries, entries', all);
    GrowthOrder();
    forall x, y | x in entries && y in entries && GrowthThenName(x, y) && GrowthThenName(y, x)
      ensures x == y
    {
      NameTotal(x.className, y.className);
    }
    SortedUnique(GrowthThenName, entries, entries');
  }

  lemma {:induction false} TotalForSplit(a: seq<ClassAllocationStats>, b: seq<ClassAllocationStats>, name: Bytes)
    ensures TotalFor(a + b, name) ==
            Totals(TotalFor(a, name).instances + TotalFor(b, name).instances,
                   TotalFor(a, name).bytes + TotalFor(b, name).bytes)
    decreases |b|
  {
    if b == [] {
      assert a + b == a;
    } else {
      var n := |b| - 1;
      TotalForSplit(a, b[..n], name);
      assert (a + b)[..|a + b| - 1] == a + b[..n];
    }
  }

  lemma {:induction false} TotalForPermuted(a: seq<ClassAllocationStats>, b: seq<ClassAllocationStats>, name: Bytes)
    requires multiset(a) == multiset(b)
    ensures TotalFor(a, name) == TotalFor(b, name)
  {
    if a == [] {
      assert |multiset(b)| == 0;
    } else {
      var j := FindLast(a, b);
      TotalForPermuted(a[..|a| - 1], b[..j] + b[j + 1..], name);
      TotalForSplit(b[..j], b[j + 1..], name);
      TotalForSplit(b[..j] + [b[j]], b[j + 1..], name);
      assert (b[..j] + [b[j]])[..j] == b[..j];
    }
  }

  /** Permuting the rows of either side changes nothing. */
  lemma DiffPermuted(from: seq<ClassAllocationStats>, to: seq<ClassAllocationStats>, entries: seq<DiffEntry>,
                     from': seq<ClassAllocationStats>, to': seq<ClassAllocationStats>, entries': seq<DiffEntry>)
    requires multiset(from) == multiset(from') && multiset(to) == multiset(to')
    requires IsDiff(from, to, entries) && IsDiff(from', to', entries')
    ensures entries == entries'
  {
    forall name
      ensures TotalFor(from, name) == TotalFor(from', name) && TotalFor(to, name) == TotalFor(to', name)
    {
      TotalForPermuted(from, from', name);
      TotalForPermuted(to, to', name);
    }
    DiffUnique(from, to, entries, from', to', entries');
  }

  /** A name appears exactly when its totals changed; nothing appears exactly when all totals agree. */
  lemma DiffShowsChanges(from: seq<ClassAllocationStats>, to: seq<ClassAllocationStats>, entries: seq<DiffEntry>)
    requires IsDiff(from, to, entries)
    ensures forall name ::
              (exists e :: e in entries && e.className == name) <==> TotalFor(from, name) != TotalFor(to, name)
    ensures entries == [] <==> forall name :: TotalFor(from, name) == TotalFor(to, name)
  {
    hide TotalFor;
    forall name
      ensures (exists e :: e in entries && e.className == name) <==> TotalFor(from, name) != TotalFor(to, name)
    {
      var e := EntryFor(from, to, name);
      assert e in entries <==> Reports(from, to, e);
    }
    if entries != [] {
      var name := entries[0].className;
      assert entries[0] in entries;
      assert TotalFor(from, name) != TotalFor(to, name);
    }
  }

  // ---- antisymmetry ----

  function Swap(): DiffEntry -> DiffEntry {
    (e: DiffEntry) => e.Swapped()
  }

  lemma SwappedReports(from: seq<ClassAllocationStats>, to: seq<ClassAllocationStats>, e: DiffEntry)
    ensures Reports(from, to, e) <==> Reports(to, from, e.Swapped())
    ensures e.Swapped().DeltaBytes() == -e.DeltaBytes() && e.Swapped().DeltaInstances() == -e.DeltaInstances()
    ensures e.Swapped().Swapped() == e
  {
    hide TotalFor;
  }

  lemma {:induction false} SwapAt(entries: seq<DiffEntry>)
    ensures |MapSeq(Swap(), entries)| == |entries|
    ensures forall k :: 0 <= k < |entries| ==> MapSeq(Swap(), entries)[k] == entries[k].Swapped()
  {
    if entries != [] {
      SwapAt(entries[..|entries| - 1]);
    }
  }

  /** Comparing the other way round gives the same entries with the sides swapped, so with every
      delta negated. */
  lemma DiffAntisymmetric(from: seq<ClassAllocationStats>, to: seq<ClassAllocationStats>,
                          entries: seq<DiffEntry>, back: seq<DiffEntry>)
    requires IsDiff(from, to, entries) && IsDiff(to, from, back)
    ensures multiset(back) == multiset(MapSeq(Swap(), entries))
    ensures forall e :: e in entries <==> e.Swapped() in back
    ensures forall e: DiffEntry ::
              e.Swapped().DeltaBytes() == -e.DeltaBytes() && e.Swapped().DeltaInstances() == -e.DeltaInstances()
  {
    hide TotalFor, EntryFor, Reports, SortedBy;
    var swapped := MapSeq(Swap(), entries);
    SwapAt(entries);
    forall e
      ensures e in swapped <==> e in back
      ensures e in entries <==> e.Swapped() in back
    {
      SwappedReports(from, to, e);
      SwappedReports(to, from, e);
      if e.Swapped() in entries {
        var k :| 0 <= k < |entries| && entries[k] == e.Swapped();
        assert swapped[k] == e;
      }
    }
    var all := set e | e in back;
    EntriesOnce(back);
    assert Enumerates(swapped, all);
    EnumerationsPermute(swapped, back, all);
  }

  // ---- conservation ----

  /** What is balanced: bytes or instances. */
  datatype Column = InBytes | InInstances
  {
    function OfRow(row: ClassAllocationStats): nat {
      if InBytes? then row.allocationSizeBytes else row.instanceCount
    }

    function OfTotals(t: Totals): nat {
      if InBytes? then t.bytes else t.instances
    }

    function Delta(e: DiffEntry): int {
      if InBytes? then e.DeltaBytes() else e.DeltaInstances()
    }
  }

  function Total(col: Column, stats: seq<ClassAllocationStats>): nat {
    if stats == [] then 0 else Total(col, stats[..|stats| - 1]) + col.OfRow(stats[|stats| - 1])
  }

  lemma {:induction false} TotalIsBytes(stats: seq<ClassAllocationStats>)
    ensures Total(InBytes, stats) == TotalBytes(stats)
  {
    if stats != [] {
      TotalIsBytes(stats[..|stats| - 1]);
    }
  }

  function Net(col: Column, entries: seq<DiffEntry>): int {
    if entries == [] then 0 else Net(col, entries[..|entries| - 1]) + col.Delta(entries[|entries| - 1])
  }

  /** What the rows with the given names add up to. */
  function Over(col: Column, stats: seq<ClassAllocationStats>, names: seq<Bytes>): nat {
    if names == [] then 0
    else Over(col, stats, names[..|names| - 1]) + col.OfTotals(TotalFor(stats, names[|names| - 1]))
  }

  /** A row adds its part once. */
  lemma {:induction false} RowAdds(
    col: Column, stats: seq<ClassAllocationStats>, row: ClassAllocationStats, names: seq<Bytes>)
    requires Distinct(names)
    ensures Over(col, stats + [row], names) ==
            Over(col, stats, names) + if row.className in names then col.OfRow(row) else 0
    decreases |names|
  {
    if names != [] {
      var n := |names| - 1;
      RowAdds(col, stats, row, names[..n]);
      assert (stats + [row])[..|stats|] == stats;
      assert names == names[..n] + [names[n]];
    }
  }

  lemma {:induction false} NoneOver(col: Column, names: seq<Bytes>)
    ensures Over(col, [], names) == 0
  {
    if names != [] {
      NoneOver(col, names[..|names| - 1]);
    }
  }

  /** Summing by name loses nothing. */
  lemma {:induction false} AllOver(col: Column, stats: seq<ClassAllocationStats>, names: seq<Bytes>)
    requires Distinct(names) && forall n :: n in Names(stats) ==> n in names
    ensures Over(col, stats, names) == Total(col, stats)
    decreases |stats|
  {
    if stats == [] {
      NoneOver(col, names);
    } else {
      var n := |stats| - 1;
      assert stats == stats[..n] + [stats[n]];
      assert stats[n].className in Names(stats);
      AllOver(col, stats[..n], names);
      RowAdds(col, stats[..n], stats[n], names);
    }
  }

  /** Names with equal totals can be left out of the balance. */
  lemma {:induction false} Balance(
    col: Column, from: seq<ClassAllocationStats>, to: seq<ClassAllocationStats>, names: seq<Bytes>)
    requires Distinct(names)
    requires forall n :: n !in names ==> TotalFor(from, n) == TotalFor(to, n)
    ensures Over(col, to, names) - Over(col, from, names) == Total(col, to) - Total(col, from)
    decreases Names(from) + Names(to) - set n | n in names
  {
    hide TotalFor, Total, Names;
    if n :| n in Names(from) + Names(to) && n !in names {
      var more := names + [n];
      assert more[..|names|] == names;
      var left := Names(from) + Names(to) - set m | m in names;
      var left' := Names(from) + Names(to) - set m | m in more;
      assert n in left && n !in left' && left' <= left;
      Balance(col, from, to, more);
    } else {
      AllOver(col, from, names);
      AllOver(col, to, names);
    }
  }

  lemma {:induction false} NetOverNames(col: Column, from: seq<ClassAllocationStats>, to: seq<ClassAllocationStats>,
                                        entries: seq<DiffEntry>, names: seq<Bytes>)
    requires |names| == |entries| && forall k :: 0 <= k < |entries| ==> names[k] == entries[k].className
    requires forall k :: 0 <= k < |entries| ==> entries[k] == EntryFor(from, to, names[k])
    ensures Net(col, entries) == Over(col, to, names) - Over(col, from, names)
    decreases |entries|
  {
    hide TotalFor;
    if entries != [] {
      var n := |entries| - 1;
      NetOverNames(col, from, to, entries[..n], names[..n]);
    }
  }

  lemma ColumnConserves(col: Column, from: seq<ClassAllocationStats>, to: seq<ClassAllocationStats>,
                        entries: seq<DiffEntry>)
    requires IsDiff(from, to, entries)
    ensures Net(col, entries) == Total(col, to) - Total(col, from)
  {
    hide TotalFor, Total, Net, SortedBy, Over;
    var names := seq(|entries|, k requires 0 <= k < |entries| => entries[k].className);
    assert forall k :: 0 <= k < |entries| ==> entries[k] in entries;
    NetOverNames(col, from, to, entries, names);
    forall n | n !in names
      ensures TotalFor(from, n) == TotalFor(to, n)
    {
      var e := EntryFor(from, to, n);
      assert e !in entries;
    }
    Balance(col, from, to, names);
  }

  /** The deltas shown add up to the net change of the whole heap, in bytes and in instances; and each
      entry goes from its first count to its second. */
  lemma DiffConserves(from: seq<ClassAllocationStats>, to: seq<ClassAllocationStats>, entries: seq<DiffEntry>)
    requires IsDiff(from, to, entries)
    ensures Net(InBytes, entries) == TotalBytes(to) - TotalBytes(from)
    ensures Net(InInstances, entries) == Total(InInstances, to) - Total(InInstances, from)
    ensures forall e :: e in entries ==>
              e.instancesFrom + e.DeltaInstances() == e.instancesTo && e.bytesFrom + e.DeltaBytes() == e.bytesTo
  {
    hide TotalFor, Total, TotalBytes, Net;
    ColumnConserves(InBytes, from, to, entries);
    ColumnConserves(InInstances, from, to, entries);
    TotalIsBytes(from);
    TotalIsBytes(to);
  }

  lemma {:induction false} NameWithinTotal(stats: seq<ClassAllocationStats>, name: Bytes)
    ensures TotalFor(stats, name).bytes <= TotalBytes(stats)
  {
    if stats != [] {
      NameWithinTotal(stats[..|stats| - 1], name);
    }
  }

  /** While both heaps stay below 2^63 bytes, the casts to signed 64 bits are exact and no difference
      of bytes leaves them. */
  lemma CastsExact(from: seq<ClassAllocationStats>, to: seq<ClassAllocationStats>, entries: seq<DiffEntry>,
                   e: DiffEntry)
    requires IsDiff(from, to, entries) && e in entries
    requires TotalBytes(from) < 0x8000_0000_0000_0000 && TotalBytes(to) < 0x8000_0000_0000_0000
    ensures e.bytesFrom < 0x8000_0000_0000_0000 && e.bytesTo < 0x8000_0000_0000_0000
    ensures -0x8000_0000_0000_0000 < e.DeltaBytes() < 0x8000_0000_0000_0000
  {
    hide TotalFor, TotalBytes, SortedBy;
    NameWithinTotal(from, e.className);
    NameWithinTotal(to, e.className);
    assert Reports(from, to, e);
  }
}
