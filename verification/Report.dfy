/** From the recorder's tables to the report: one row per class and array type, the set of missing
    classes, and the orders in which rows are shown. */
module Report {
  import opened Nom
  import opened Records
  import opened Recorder
  import opened InstanceSize
  import opened Sorting

  datatype ClassAllocationStats = ClassAllocationStats(
    className: Bytes,
    instanceCount: nat,
    largestAllocationBytes: nat,
    allocationSizeBytes: nat)

  // ---- names ----

  function Ascii(s: string): Bytes {
    seq(|s|, k requires 0 <= k < |s| => s[k] as int % 0x80)
  }

  function HexDigit(d: nat): Bytes
    requires d < 16
  {
    if d < 10 then [48 + d] else [87 + d]
  }

  function Hex(n: nat): Bytes {
    if n < 16 then HexDigit(n) else Hex(n / 16) + HexDigit(n % 16)
  }

  function SlashToDot(name: Bytes): Bytes {
    seq(|name|, k requires 0 <= k < |name| => if name[k] == 47 then 46 else name[k])
  }

  /** The name of a class: its latest load, then the string that load names. */
  function ResolvedName(s: RecorderState, c: u64): Option<Bytes> {
    if c !in s.classDataById then None
    else if s.classDataById[c] >= |s.classData| then None
    else
      var id := s.classData[s.classDataById[c]].classNameId;
      if id in s.utf8StringsById then Some(s.utf8StringsById[id]) else None
  }

  function ClassName(s: RecorderState, c: u64): Bytes {
    match ResolvedName(s, c)
    case Some(name) => SlashToDot(name)
    case None => Ascii("<unknown class 0x") + Hex(c) + Ascii(">")
  }

  predicate HasPrefix(name: Bytes, prefix: Bytes) {
    |prefix| <= |name| && name[..|prefix|] == prefix
  }

  const NESTED_ARRAY: Bytes := [91, 91, 76] // [[L
  const OBJECT_ARRAY: Bytes := [91, 76] // [L

  /** A name without its first `drop` bytes and its last one. The program slices without a check, and
      panics where the range is reversed or the last byte is not a character of its own. */
  function CutEnds(raw: Bytes, drop: nat): Option<Bytes> {
    if |raw| - 1 < drop || raw[|raw| - 1] >= 0x80 then None else Some(raw[drop..|raw| - 1])
  }

  function CleanArrayName(raw: Bytes): Option<Bytes> {
    if HasPrefix(raw, NESTED_ARRAY) then CutEnds(raw, |NESTED_ARRAY|)
    else if HasPrefix(raw, OBJECT_ARRAY) then CutEnds(raw, |OBJECT_ARRAY|)
    else Some(raw)
  }

  /** Names that are nothing but an array marker, and marked names that end in a character of more
      than one byte. */
  predicate Uncuttable(raw: Bytes) {
    || raw == OBJECT_ARRAY || raw == NESTED_ARRAY
    || ((HasPrefix(raw, OBJECT_ARRAY) || HasPrefix(raw, NESTED_ARRAY)) && raw[|raw| - 1] >= 0x80)
  }

  /** Exactly these make the program panic. */
  lemma CutExactly(raw: Bytes)
    ensures CleanArrayName(raw).None? <==> Uncuttable(raw)
  {
    if HasPrefix(raw, NESTED_ARRAY) && |raw| == |NESTED_ARRAY| {
      assert raw[..|raw|] == raw;
    } else if HasPrefix(raw, OBJECT_ARRAY) && |raw| == |OBJECT_ARRAY| {
      assert raw[..|raw|] == raw;
    }
  }

  /** A cut name, put back between its marker and its last byte, is the whole name; a name without a
      marker is left alone. */
  lemma CutKeepsName(raw: Bytes)
    requires CleanArrayName(raw).Some?
    ensures var name := CleanArrayName(raw).value;
            if [91, 91, 76] <= raw then raw == [91, 91, 76] + name + [raw[|raw| - 1]]
            else if [91, 76] <= raw then raw == [91, 76] + name + [raw[|raw| - 1]]
            else name == raw
  {
  }

  /** The letters of a type's own name, in lower case. */
  function TypeName(ty: FieldType): string {
    match ty
    case Object => "Object"
    case Bool => "Bool"
    case Char => "Char"
    case Float => "Float"
    case Double => "Double"
    case Byte => "Byte"
    case Short => "Short"
    case Int => "Int"
    case Long => "Long"
  }

  function LowerCase(name: Bytes): Bytes {
    seq(|name|, k requires 0 <= k < |name| => if 65 <= name[k] <= 90 then name[k] + 32 else name[k])
  }

  function PrimitiveLabel(ty: FieldType): Bytes {
    LowerCase(Ascii(TypeName(ty))) + Ascii("[]")
  }

  lemma ShortLabels()
    ensures PrimitiveLabel(Int) == ['i' as int, 'n' as int, 't' as int, '[' as int, ']' as int]
    ensures PrimitiveLabel(Bool) == ['b' as int, 'o' as int, 'o' as int, 'l' as int, '[' as int, ']' as int]
    ensures PrimitiveLabel(Byte) == ['b' as int, 'y' as int, 't' as int, 'e' as int, '[' as int, ']' as int]
    ensures PrimitiveLabel(Char) == ['c' as int, 'h' as int, 'a' as int, 'r' as int, '[' as int, ']' as int]
    ensures PrimitiveLabel(Long) == ['l' as int, 'o' as int, 'n' as int, 'g' as int, '[' as int, ']' as int]
  {
  }

  lemma LongLabels()
    ensures PrimitiveLabel(Float) ==
            ['f' as int, 'l' as int, 'o' as int, 'a' as int, 't' as int, '[' as int, ']' as int]
    ensures PrimitiveLabel(Short) ==
            ['s' as int, 'h' as int, 'o' as int, 'r' as int, 't' as int, '[' as int, ']' as int]
    ensures PrimitiveLabel(Double) ==
            ['d' as int, 'o' as int, 'u' as int, 'b' as int, 'l' as int, 'e' as int, '[' as int, ']' as int]
  {
  }

  /** A shown name is the string with a dot for each slash. */
  lemma DotsForSlashes(name: Bytes)
    ensures |SlashToDot(name)| == |name|
    ensures forall k :: 0 <= k < |name| ==>
              SlashToDot(name)[k] == if name[k] == '/' as int then '.' as int else name[k]
  {
  }

  // ---- hexadecimal ----

  function DigitValue(b: byte): nat {
    if '0' as int <= b <= '9' as int then b - '0' as int
    else if 'a' as int <= b <= 'f' as int then b - 'a' as int + 10
    else 0
  }

  predicate IsHexDigit(b: byte) {
    '0' as int <= b <= '9' as int || 'a' as int <= b <= 'f' as int
  }

  function FromHex(digits: Bytes): nat {
    if digits == [] then 0 else FromHex(digits[..|digits| - 1]) * 16 + DigitValue(digits[|digits| - 1])
  }

  /** Hexadecimal digits read back to the number, and the first is not zero unless it is the only one. */
  lemma {:induction false} HexReadsBack(n: nat)
    ensures FromHex(Hex(n)) == n && Hex(n) != []
    ensures forall k :: 0 <= k < |Hex(n)| ==> IsHexDigit(Hex(n)[k])
    ensures n > 0 ==> Hex(n)[0] != '0' as int
  {
    if n >= 16 {
      HexReadsBack(n / 16);
      assert Hex(n)[..|Hex(n)| - 1] == Hex(n / 16);
    } else {
      assert Hex(n)[..0] == [];
    }
  }

  /** A class without a name is shown by its identifier. */
  lemma PlaceholderNames(s: RecorderState, c: u64)
    requires ResolvedName(s, c).None?
    ensures var name := ClassName(s, c);
            && |name| > 18
            && name[..17] == Ascii("<unknown class 0x") && name[|name| - 1] == '>' as int
            && FromHex(name[17..|name| - 1]) == c
  {
    HexReadsBack(c);
    assert ClassName(s, c)[17..|ClassName(s, c)| - 1] == Hex(c);
  }

  // ---- rows ----

  /** The superclass chains of all counted classes end: otherwise sizing them does not. */
  predicate ChainsEnd(s: RecorderState) {
    forall c :: c in s.instanceCounts ==> Ends(s.classes, c)
  }

  /** The names of all counted object arrays can be cut: otherwise naming them panics. */
  predicate NamesCut(s: RecorderState) {
    forall c :: c in s.objectArrays ==> !Uncuttable(ClassName(s, c))
  }

  function ClassRow(s: RecorderState, idSize: IdSize, c: u64): ClassAllocationStats {
    var n: nat := if c in s.instanceCounts then s.instanceCounts[c] else 0;
    var size: nat := if Ends(s.classes, c) then SizeOf(s.classes, idSize, c) else 0;
    ClassAllocationStats(ClassName(s, c), n, size, size * n)
  }

  function PrimitiveRow(s: RecorderState, ty: FieldType): ClassAllocationStats {
    var ac := if ty in s.primitiveArrays then s.primitiveArrays[ty] else EMPTY_COUNTER;
    ClassAllocationStats(PrimitiveLabel(ty), ac.numberOfArrays, ac.maxSizeBytesSeen, ac.totalSizeBytes)
  }

  function ArrayRow(s: RecorderState, c: u64): ClassAllocationStats {
    var ac := if c in s.objectArrays then s.objectArrays[c] else EMPTY_COUNTER;
    var raw := ClassName(s, c);
    var name := CleanArrayName(raw).UnwrapOr(raw) + Ascii("[]");
    ClassAllocationStats(name, ac.numberOfArrays, ac.maxSizeBytesSeen, ac.totalSizeBytes)
  }

  function ClassRows(s: RecorderState, idSize: IdSize): u64 -> ClassAllocationStats {
    (c: u64) => ClassRow(s, idSize, c)
  }

  function PrimitiveRows(s: RecorderState): FieldType -> ClassAllocationStats {
    ty => PrimitiveRow(s, ty)
  }

  function ArrayRows(s: RecorderState): u64 -> ClassAllocationStats {
    (c: u64) => ArrayRow(s, c)
  }

  /** The order the three hash maps are iterated in. */
  datatype Iteration = Iteration(classes: seq<u64>, primitives: seq<FieldType>, arrays: seq<u64>)

  ghost predicate IteratesOver(it: Iteration, s: RecorderState) {
    && Enumerates(it.classes, s.instanceCounts.Keys)
    && Enumerates(it.primitives, s.primitiveArrays.Keys)
    && Enumerates(it.arrays, s.objectArrays.Keys)
  }

  function AllRows(s: RecorderState, idSize: IdSize, it: Iteration): seq<ClassAllocationStats> {
    MapSeq(ClassRows(s, idSize), it.classes) + MapSeq(PrimitiveRows(s), it.primitives) + MapSeq(ArrayRows(s), it.arrays)
  }

  // ---- the canonical order ----

  /** `a` comes no later than `b`: names descending, then total, count and largest descending. */
  predicate CanonicalLe(a: ClassAllocationStats, b: ClassAllocationStats) {
    if a.className != b.className then NameLe(b.className, a.className)
    else if a.allocationSizeBytes != b.allocationSizeBytes then a.allocationSizeBytes > b.allocationSizeBytes
    else if a.instanceCount != b.instanceCount then a.instanceCount > b.instanceCount
    else a.largestAllocationBytes >= b.largestAllocationBytes
  }

  /** Rows in canonical order, spelled out. */
  lemma CanonicalMeans(rows: seq<ClassAllocationStats>, i: nat, j: nat)
    requires SortedBy(CanonicalLe, rows) && i < j < |rows|
    ensures var a, b := rows[i], rows[j];
            && NameLe(b.className, a.className)
            && (a.className == b.className ==> a.allocationSizeBytes >= b.allocationSizeBytes)
            && (a.className == b.className && a.allocationSizeBytes == b.allocationSizeBytes ==>
                  a.instanceCount >= b.instanceCount)
            && (a.className == b.className && a.allocationSizeBytes == b.allocationSizeBytes
                && a.instanceCount == b.instanceCount ==>
                  a.largestAllocationBytes >= b.largestAllocationBytes)
  {
    assert CanonicalLe(rows[i], rows[j]);
    NameTotal(rows[i].className, rows[i].className);
  }

  lemma CanonicalOrder()
    ensures TotalPreorder(CanonicalLe) && Antisymmetric(CanonicalLe)
  {
    forall a: ClassAllocationStats, b: ClassAllocationStats
      ensures CanonicalLe(a, b) || CanonicalLe(b, a)
      ensures CanonicalLe(a, b) && CanonicalLe(b, a) ==> a == b
    {
      NameTotal(a.className, b.className);
    }
    forall a: ClassAllocationStats, b: ClassAllocationStats, c: ClassAllocationStats
      | CanonicalLe(a, b) && CanonicalLe(b, c)
      ensures CanonicalLe(a, c)
    {
      CanonicalTransitive(a, b, c);
    }
  }

  lemma CanonicalTransitive(a: ClassAllocationStats, b: ClassAllocationStats, c: ClassAllocationStats)
    requires CanonicalLe(a, b) && CanonicalLe(b, c)
    ensures CanonicalLe(a, c)
  {
    hide NameLe;
    NameTotal(a.className, b.className);
    NameTotal(b.className, c.className);
    NameTotal(a.className, c.className);
    if a.className != b.className && b.className != c.className {
      NameTransitive(c.className, b.className, a.className);
    }
  }

  // ---- missing classes ----

  /** The classes the report has to name or size without a definition: counted instance and array
      classes whose name does not resolve, and the undefined class that the superclass chain of a
      counted instance class reaches. */
  ghost predicate IsMissing(s: RecorderState, x: u64) {
    || ((x in s.instanceCounts || x in s.objectArrays) && ResolvedName(s, x).None?)
    || (x !in s.classes && exists c :: c in s.instanceCounts && Reaches(s.classes, c, x))
  }

  /** The same, as the loops collect it. */
  ghost function MissingClasses(s: RecorderState): set<u64> {
    UnnamedIn(s, s.instanceCounts.Keys) + UndefinedAbove(s, s.instanceCounts.Keys) + UnnamedIn(s, s.objectArrays.Keys)
  }

  lemma MissingExactly(s: RecorderState, x: u64)
    requires ChainsEnd(s)
    ensures x in MissingClasses(s) <==> IsMissing(s, x)
  {
    hide ResolvedName, Ends, UndefinedEnd, Reaches;
    forall c | c in s.instanceCounts
      ensures x in UndefinedEnd(s.classes, c) <==> x !in s.classes && Reaches(s.classes, c, x)
    {
      UndefinedReached(s.classes, c, x);
    }
  }

  ghost function UnnamedIn(s: RecorderState, ids: set<u64>): set<u64> {
    set c | c in ids && ResolvedName(s, c).None?
  }

  ghost function UndefinedAbove(s: RecorderState, ids: set<u64>): set<u64> {
    set c, x | c in ids && Ends(s.classes, c) && x in UndefinedEnd(s.classes, c) :: x
  }

  ghost function Elements(order: seq<u64>): set<u64> {
    set c | c in order
  }

  method GetClassNameString(s: RecorderState, c: u64, missing: set<u64>) returns (name: Bytes, missing': set<u64>)
    ensures name == ClassName(s, c)
    ensures missing' == missing + UnnamedIn(s, {c})
  {
    match ResolvedName(s, c) {
      case Some(n) => return SlashToDot(n), missing;
      case None => return Ascii("<unknown class 0x") + Hex(c) + Ascii(">"), missing + {c};
    }
  }

  lemma OneMore(s: RecorderState, order: seq<u64>, k: nat)
    requires k < |order|
    ensures Elements(order[..k + 1]) == Elements(order[..k]) + {order[k]}
    ensures UnnamedIn(s, Elements(order[..k + 1])) == UnnamedIn(s, Elements(order[..k])) + UnnamedIn(s, {order[k]})
    ensures UndefinedAbove(s, Elements(order[..k + 1])) ==
            UndefinedAbove(s, Elements(order[..k])) + UndefinedAbove(s, {order[k]})
  {
    hide ResolvedName, Ends, UndefinedEnd;
    assert order[..k + 1] == order[..k] + [order[k]];
  }

  /** The loops of `aggregate_memory_usage` over the three maps, in any iteration order: no rows
      where the program panics. */
  method CollectRows(s: RecorderState, idSize: IdSize, it: Iteration, missing: set<u64>)
    returns (rows: Option<seq<ClassAllocationStats>>, missing': set<u64>)
    requires ChainsEnd(s) && IteratesOver(it, s)
    ensures rows == if NamesCut(s) then Some(AllRows(s, idSize, it)) else None
    ensures NamesCut(s) ==> missing' == missing + MissingClasses(s)
  {
    hide ResolvedName, UndefinedEnd, UnnamedIn, UndefinedAbove, Uncuttable, Ends, ClassName, MapSeq;
    assert Elements(it.classes) == s.instanceCounts.Keys && Elements(it.arrays) == s.objectArrays.Keys;
    var classRows, afterClasses := CollectClassRows(s, idSize, it.classes, missing);
    var primitiveRows := CollectPrimitiveRows(s, it.primitives);
    var arrayRows, afterArrays := CollectArrayRows(s, it.arrays, afterClasses);
    match arrayRows {
      case None => rows, missing' := None, afterArrays;
      case Some(arrayRows) => rows, missing' := Some(classRows + primitiveRows + arrayRows), afterArrays;
    }
  }

  method CollectPrimitiveRows(s: RecorderState, order: seq<FieldType>) returns (rows: seq<ClassAllocationStats>)
    requires forall ty :: ty in order ==> ty in s.primitiveArrays
    ensures rows == MapSeq(PrimitiveRows(s), order)
  {
    rows := [];
    for k := 0 to |order|
      invariant rows == MapSeq(PrimitiveRows(s), order[..k])
    {
      var ac := s.primitiveArrays[order[k]];
      MapPush(PrimitiveRows(s), order[..k], order[k]);
      assert order[..k + 1] == order[..k] + [order[k]];
      rows := rows + [ClassAllocationStats(PrimitiveLabel(order[k]), ac.numberOfArrays, ac.maxSizeBytesSeen,
                                           ac.totalSizeBytes)];
    }
    assert order[..|order|] == order;
  }

  method CollectClassRows(s: RecorderState, idSize: IdSize, order: seq<u64>, missing: set<u64>)
    returns (rows: seq<ClassAllocationStats>, missing': set<u64>)
    requires forall c :: c in order ==> c in s.instanceCounts && Ends(s.classes, c)
    ensures rows == MapSeq(ClassRows(s, idSize), order)
    ensures missing' == missing + UnnamedIn(s, Elements(order)) + UndefinedAbove(s, Elements(order))
  {
    hide ResolvedName, UndefinedEnd, Ends, ClassName, SizeOf, Reaches, SizesAlong;
    rows, missing' := [], missing;
    for k := 0 to |order|
      invariant rows == MapSeq(ClassRows(s, idSize), order[..k])
      invariant missing' == missing + UnnamedIn(s, Elements(order[..k])) + UndefinedAbove(s, Elements(order[..k]))
    {
      var c := order[k];
      ghost var before := missing';
      var name, size;
      name, missing' := GetClassNameString(s, c, missing');
      size, missing' := CalculateInstanceSize(s.classes, idSize, c, missing');
      assert missing' == before + UnnamedIn(s, {c}) + UndefinedAbove(s, {c});
      OneMore(s, order, k);
      MapPush(ClassRows(s, idSize), order[..k], c);
      assert order[..k + 1] == order[..k] + [c];
      rows := rows + [ClassAllocationStats(name, s.instanceCounts[c], size, size * s.instanceCounts[c])];
    }
    assert order[..|order|] == order;
  }

  method CollectArrayRows(s: RecorderState, order: seq<u64>, missing: set<u64>)
    returns (rows: Option<seq<ClassAllocationStats>>, missing': set<u64>)
    requires forall c :: c in order ==> c in s.objectArrays
    ensures rows.None? <==> exists c :: c in order && Uncuttable(ClassName(s, c))
    ensures rows.Some? ==> rows.value == MapSeq(ArrayRows(s), order)
    ensures rows.Some? ==> missing' == missing + UnnamedIn(s, Elements(order))
  {
    hide ResolvedName, ClassName, Uncuttable, CleanArrayName, Ascii;
    var done: seq<ClassAllocationStats> := [];
    missing' := missing;
    for k := 0 to |order|
      invariant done == MapSeq(ArrayRows(s), order[..k])
      invariant missing' == missing + UnnamedIn(s, Elements(order[..k]))
      invariant forall c :: c in order[..k] ==> !Uncuttable(ClassName(s, c))
    {
      var c := order[k];
      var raw;
      raw, missing' := GetClassNameString(s, c, missing');
      CutExactly(raw);
      var cleaned := CleanArrayName(raw);
      if cleaned.None? {
        return None, missing';
      }
      var ac := s.objectArrays[c];
      OneMore(s, order, k);
      MapPush(ArrayRows(s), order[..k], c);
      assert order[..k + 1] == order[..k] + [c];
      done := done + [ClassAllocationStats(cleaned.value + Ascii("[]"), ac.numberOfArrays, ac.maxSizeBytesSeen,
                                           ac.totalSizeBytes)];
    }
    assert order[..|order|] == order;
    rows := Some(done);
  }

  /** `aggregate_memory_usage`: a panic exactly when some array name cannot be cut; otherwise the rows
      in canonical order, and exactly the missing classes added to the set. */
  method AggregateMemoryUsage(s: RecorderState, idSize: IdSize, it: Iteration, missing: set<u64>)
    returns (rows: Option<seq<ClassAllocationStats>>, missing': set<u64>)
    requires ChainsEnd(s) && IteratesOver(it, s)
    ensures rows.Some? <==> NamesCut(s)
    ensures rows.Some? ==> IsReport(s, idSize, it, rows.value)
    ensures rows.Some? ==> forall x: u64 :: x in missing' <==> x in missing || IsMissing(s, x)
  {
    hide NamesCut, ChainsEnd, IteratesOver, AllRows, MissingClasses, IsMissing;
    var collected;
    collected, missing' := CollectRows(s, idSize, it, missing);
    if collected.None? {
      return None, missing';
    }
    forall x: u64
      ensures x in MissingClasses(s) <==> IsMissing(s, x)
    {
      MissingExactly(s, x);
    }
    CanonicalOrder();
    var sorted := SortUnstable(CanonicalLe, collected.value);
    rows := Some(sorted);
  }

  /** `rows` is a permutation of one row per class and array type, in canonical order. */
  ghost predicate IsReport(s: RecorderState, idSize: IdSize, it: Iteration, rows: seq<ClassAllocationStats>) {
    SortedBy(CanonicalLe, rows) && multiset(rows) == multiset(AllRows(s, idSize, it))
  }

  /** The report does not depend on hash-map iteration: whatever the two orders, any two sequences
      that a sort can make of the rows are the same. */
  lemma OrderIndependent(
    s: RecorderState, idSize: IdSize, it: Iteration, it': Iteration,
    rows: seq<ClassAllocationStats>, rows': seq<ClassAllocationStats>)
    requires IteratesOver(it, s) && IteratesOver(it', s)
    requires IsReport(s, idSize, it, rows) && IsReport(s, idSize, it', rows')
    ensures rows == rows'
  {
    EnumerationsPermute(it.classes, it'.classes, s.instanceCounts.Keys);
    EnumerationsPermute(it.primitives, it'.primitives, s.primitiveArrays.Keys);
    EnumerationsPermute(it.arrays, it'.arrays, s.objectArrays.Keys);
    MapPermutes(ClassRows(s, idSize), it.classes, it'.classes);
    MapPermutes(PrimitiveRows(s), it.primitives, it'.primitives);
    MapPermutes(ArrayRows(s), it.arrays, it'.arrays);
    CanonicalOrder();
    SortedUnique(CanonicalLe, rows, rows');
  }

  // ---- the orders of the tables shown ----

  /** Larger total first. */
  predicate ByTotal(a: ClassAllocationStats, b: ClassAllocationStats) {
    a.allocationSizeBytes >= b.allocationSizeBytes
  }

  /** Larger largest allocation first. */
  predicate ByLargest(a: ClassAllocationStats, b: ClassAllocationStats) {
    a.largestAllocationBytes >= b.largestAllocationBytes
  }

  /** Total, then name, then count, then largest, all descending. */
  predicate TotalFirst(a: ClassAllocationStats, b: ClassAllocationStats) {
    if a.allocationSizeBytes != b.allocationSizeBytes then a.allocationSizeBytes > b.allocationSizeBytes
    else if a.className != b.className then NameLe(b.className, a.className)
    else if a.instanceCount != b.instanceCount then a.instanceCount > b.instanceCount
    else a.largestAllocationBytes >= b.largestAllocationBytes
  }

  /** Largest, then total, then name, then count, all descending. */
  predicate LargestFirst(a: ClassAllocationStats, b: ClassAllocationStats) {
    if a.largestAllocationBytes != b.largestAllocationBytes then a.largestAllocationBytes > b.largestAllocationBytes
    else if a.allocationSizeBytes != b.allocationSizeBytes then a.allocationSizeBytes > b.allocationSizeBytes
    else if a.className != b.className then NameLe(b.className, a.className)
    else a.instanceCount >= b.instanceCount
  }

  /** The two tables, and the rows as the two sorts in place leave them. On rows in canonical order,
      as the recorder sends them, every tie is settled. */
  method TopTables(usage: seq<ClassAllocationStats>, top: nat)
    returns (topAllocated: seq<ClassAllocationStats>, topLargest: seq<ClassAllocationStats>,
             usage': seq<ClassAllocationStats>, total: nat)
    ensures total == TotalBytes(usage)
    ensures multiset(usage') == multiset(usage) && topLargest == FirstN(usage', top)
    ensures IsTop(topAllocated, usage, ByTotal, top)
    ensures IsTop(topLargest, usage, ByLargest, top)
    ensures SortedBy(CanonicalLe, usage) ==>
              && SortedBy(LargestFirst, usage')
              && IsTop(topAllocated, usage, TotalFirst, top) && IsTop(topLargest, usage, LargestFirst, top)
  {
    hide IsTop, SortedBy;
    total := SumBytes(usage);
    ShownOrders();
    var byTotal := SortByKey(ByTotal, usage);
    topAllocated := FirstN(byTotal, top);
    PrefixIsTop(byTotal, usage, ByTotal, top);
    usage' := SortByKey(ByLargest, byTotal);
    topLargest := FirstN(usage', top);
    PrefixIsTop(usage', usage, ByLargest, top);
    if SortedBy(CanonicalLe, usage) {
      TwoSorts(usage, byTotal, usage');
      PrefixIsTop(byTotal, usage, TotalFirst, top);
      PrefixIsTop(usage', usage, LargestFirst, top);
    }
  }

  function FirstN<T>(s: seq<T>, n: nat): seq<T> {
    if n < |s| then s[..n] else s
  }

  function TotalBytes(usage: seq<ClassAllocationStats>): nat {
    if usage == [] then 0 else TotalBytes(usage[..|usage| - 1]) + usage[|usage| - 1].allocationSizeBytes
  }

  method SumBytes(usage: seq<ClassAllocationStats>) returns (total: nat)
    ensures total == TotalBytes(usage)
  {
    total := 0;
    for k := 0 to |usage|
      invariant total == TotalBytes(usage[..k])
    {
      assert usage[..k + 1][..k] == usage[..k];
      total := total + usage[k].allocationSizeBytes;
    }
    assert usage[..|usage|] == usage;
  }

  /** `shown` is a sorted choice of `top` rows, and no row left out precedes a row shown. */
  ghost predicate IsTop<T(!new)>(shown: seq<T>, all: seq<T>, le: (T, T) -> bool, top: nat) {
    && |shown| == (if top < |all| then top else |all|)
    && SortedBy(le, shown)
    && multiset(shown) <= multiset(all)
    && forall a, b :: a in shown && b in multiset(all) - multiset(shown) ==> le(a, b)
  }

  lemma PrefixIsTop<T(!new)>(sorted: seq<T>, all: seq<T>, le: (T, T) -> bool, top: nat)
    requires SortedBy(le, sorted) && multiset(sorted) == multiset(all)
    ensures IsTop(FirstN(sorted, top), all, le, top)
  {
    assert |multiset(sorted)| == |multiset(all)|;
    var shown := FirstN(sorted, top);
    var rest := sorted[|shown|..];
    assert sorted == shown + rest;
    assert multiset(all) - multiset(shown) == multiset(rest);
  }

  lemma ShownOrders()
    ensures TotalPreorder(ByTotal) && TotalPreorder(ByLargest)
    ensures TotalPreorder(TotalFirst)
  {
    CanonicalOrder();
    assert forall a, b :: TotalFirst(a, b) <==> ByTotal(a, b) && (ByTotal(b, a) ==> CanonicalLe(a, b));
  }

  /** Two stable sorts over canonical rows: the first table is in order of (total, name, count,
      largest), the second in order of (largest, total, name, count), all descending. */
  lemma TwoSorts(usage: seq<ClassAllocationStats>, byTotal: seq<ClassAllocationStats>,
                 byLargest: seq<ClassAllocationStats>)
    requires SortedBy(CanonicalLe, usage)
    requires StablySorted(ByTotal, usage, byTotal) && StablySorted(ByLargest, byTotal, byLargest)
    ensures SortedBy(TotalFirst, byTotal) && SortedBy(LargestFirst, byLargest)
  {
    CanonicalOrder();
    ShownOrders();
    StableRefines(ByTotal, CanonicalLe, usage, byTotal);
    assert SortedBy(TotalFirst, byTotal) by {
      forall i, j | 0 <= i < j < |byTotal|
        ensures TotalFirst(byTotal[i], byTotal[j])
      {
        assert Lex(ByTotal, CanonicalLe)(byTotal[i], byTotal[j]);
      }
    }
    StableRefines(ByLargest, TotalFirst, byTotal, byLargest);
    forall i, j | 0 <= i < j < |byLargest|
      ensures LargestFirst(byLargest[i], byLargest[j])
    {
      assert Lex(ByLargest, TotalFirst)(byLargest[i], byLargest[j]);
    }
  }
}
