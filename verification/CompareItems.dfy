/** What a comparison looks at, item by item, and what its report then says: exactly which
    differences are reported and what each figure counts. */
module CompareItems {
  import opened Compare
  import opened CompareLaws

  /** One thing compared, in the i-th pair of clauses of a shared type: a value of both sides
      under a path, or the evidence of both sides. */
  datatype Item =
    | ValueItem(clauseType: string, i: nat, path: string, name: string, left: Value, right: Value)
    | EvidenceItem(clauseType: string, i: nat, base: seq<string>, cand: seq<string>)

  /** Equal values, or two scores a thousandth apart at most. */
  predicate Agrees(name: string, left: Value, right: Value) {
    || left == right
    || (name in {"confidence", "validation_score", "deviation_score"} && left.Number? && right.Number?
        && -0.001 <= left.n - right.n <= 0.001)
  }

  predicate SameChunks(base: seq<string>, cand: seq<string>) {
    (forall id :: id in base ==> id in cand) && (forall id :: id in cand ==> id in base)
  }

  lemma EqualIsAgreement(name: string, left: Value, right: Value)
    ensures Equal(name, left, right) <==> Agrees(name, left, right)
  {
  }

  lemma ChunkSetsAreSame(base: Clause, cand: Clause)
    ensures ChunkSet(base) == ChunkSet(cand) <==> SameChunks(base.evidence, cand.evidence)
  {
    assert forall id :: id in ChunkSet(base) <==> id in base.evidence;
    assert forall id :: id in ChunkSet(cand) <==> id in cand.evidence;
  }

  // ------------------------------------------------------------------ the items of a comparison

  function FieldItems(clauseType: string, i: nat, names: seq<string>, prefix: string, left: map<string, Value>, right: map<string, Value>): (items: seq<Item>)
    ensures |items| == |names|
    ensures forall k :: 0 <= k < |names| ==>
              items[k] == ValueItem(clauseType, i, prefix + names[k], names[k], Lookup(left, names[k]), Lookup(right, names[k]))
  {
    if names == [] then []
    else
      [ValueItem(clauseType, i, prefix + names[0], names[0], Lookup(left, names[0]), Lookup(right, names[0]))] +
      FieldItems(clauseType, i, names[1..], prefix, left, right)
  }

  function ClauseItems(clauseType: string, i: nat, base: Clause, cand: Clause, sorted: set<string> -> seq<string>): seq<Item> {
    FieldItems(clauseType, i, COMPARED_FIELDS, "", base.fields, cand.fields) +
    FieldItems(clauseType, i, sorted(base.attributes.Keys + cand.attributes.Keys), "attributes.", base.attributes, cand.attributes) +
    [EvidenceItem(clauseType, i, base.evidence, cand.evidence)]
  }

  function PairItems(clauseType: string, i: nat, base: seq<Clause>, cand: seq<Clause>, sorted: set<string> -> seq<string>): seq<Item>
    decreases base
  {
    if base == [] || cand == [] then []
    else ClauseItems(clauseType, i, base[0], cand[0], sorted) + PairItems(clauseType, i + 1, base[1..], cand[1..], sorted)
  }

  function TypeItems(types: seq<string>, base: seq<Clause>, cand: seq<Clause>, sorted: set<string> -> seq<string>): seq<Item> {
    if types == [] then []
    else PairItems(types[0], 0, OfType(base, types[0]), OfType(cand, types[0]), sorted) + TypeItems(types[1..], base, cand, sorted)
  }

  function Items(base: Extraction, cand: Extraction, sorted: set<string> -> seq<string>): seq<Item> {
    TypeItems(sorted(Types(base.clauses) * Types(cand.clauses)), base.clauses, cand.clauses, sorted)
  }

  // ------------------------------------------------------------------ a report books its items

  function BookOne(t: Tally, item: Item, sorted: set<string> -> seq<string>): Tally {
    match item
    case ValueItem(ct, _, path, name, l, r) =>
      t.(fields := t.fields.Recorded(Agrees(name, l, r)),
         nulls := if l.Null? || r.Null? then t.nulls.Recorded(l.Null? && r.Null?) else t.nulls,
         diffs := if Agrees(name, l, r) then t.diffs else t.diffs + [FieldDiff(ct, path, One(l), One(r))])
    case EvidenceItem(ct, _, b, c) =>
      t.(citations := t.citations.Recorded(SameChunks(b, c)),
         evidence := t.evidence.Recorded(|b| == |c|),
         diffs := if SameChunks(b, c) then t.diffs else t.diffs + [ChunkDiff(ct, b, c, sorted)])
  }

  function ChunkDiff(clauseType: string, base: seq<string>, cand: seq<string>, sorted: set<string> -> seq<string>): FieldDiff {
    FieldDiff(clauseType, "evidence.chunk_ids", Chunks(sorted(set id | id in base)), Chunks(sorted(set id | id in cand)))
  }

  function Book(t: Tally, items: seq<Item>, sorted: set<string> -> seq<string>): Tally
    decreases items
  {
    if items == [] then t else Book(BookOne(t, items[0], sorted), items[1..], sorted)
  }

  lemma {:induction false} BookBoth(t: Tally, a: seq<Item>, b: seq<Item>, sorted: set<string> -> seq<string>)
    ensures Book(t, a + b, sorted) == Book(Book(t, a, sorted), b, sorted)
    decreases a
  {
    hide BookOne;
    if a == [] {
      assert a + b == b;
    } else {
      assert (a + b)[1..] == a[1..] + b;
      BookBoth(BookOne(t, a[0], sorted), a[1..], b, sorted);
    }
  }

  lemma {:induction false} FieldsAreBooked(t: Tally, ct: string, i: nat, names: seq<string>, prefix: string, l: map<string, Value>, r: map<string, Value>,
                                           sorted: set<string> -> seq<string>)
    ensures AllFields(t, names, prefix, ct, l, r) == Book(t, FieldItems(ct, i, names, prefix, l, r), sorted)
    decreases names
  {
    hide Equal, Agrees;
    if names != [] {
      EqualIsAgreement(names[0], Lookup(l, names[0]), Lookup(r, names[0]));
      var items := FieldItems(ct, i, names, prefix, l, r);
      assert items[1..] == FieldItems(ct, i, names[1..], prefix, l, r);
      FieldsAreBooked(BookOne(t, items[0], sorted), ct, i, names[1..], prefix, l, r, sorted);
    }
  }

  lemma ClauseIsBooked(t: Tally, ct: string, i: nat, base: Clause, cand: Clause, sorted: set<string> -> seq<string>)
    ensures OneClause(t, ct, base, cand, sorted) == Book(t, ClauseItems(ct, i, base, cand, sorted), sorted)
  {
    hide AllFields, COMPARED_FIELDS, FieldItems;
    var keys := sorted(base.attributes.Keys + cand.attributes.Keys);
    var fields := FieldItems(ct, i, COMPARED_FIELDS, "", base.fields, cand.fields);
    var attributes := FieldItems(ct, i, keys, "attributes.", base.attributes, cand.attributes);
    var last := [EvidenceItem(ct, i, base.evidence, cand.evidence)];
    FieldsAreBooked(t, ct, i, COMPARED_FIELDS, "", base.fields, cand.fields, sorted);
    var t1 := Book(t, fields, sorted);
    FieldsAreBooked(t1, ct, i, keys, "attributes.", base.attributes, cand.attributes, sorted);
    var t2 := Book(t1, attributes, sorted);
    BookBoth(t, fields, attributes, sorted);
    BookBoth(t, fields + attributes, last, sorted);
    ChunkSetsAreSame(base, cand);
    assert last[1..] == [];
    assert Book(t2, last, sorted) == Citations(t2, ct, base, cand, sorted) by { CitationIsBooked(t2, ct, i, base, cand, sorted); }
  }

  lemma CitationIsBooked(t: Tally, ct: string, i: nat, base: Clause, cand: Clause, sorted: set<string> -> seq<string>)
    ensures Book(t, [EvidenceItem(ct, i, base.evidence, cand.evidence)], sorted) == Citations(t, ct, base, cand, sorted)
  {
    var last := [EvidenceItem(ct, i, base.evidence, cand.evidence)];
    ChunkSetsAreSame(base, cand);
    hide SameChunks;
    assert last[1..] == [];
    assert Book(t, last, sorted) == BookOne(t, last[0], sorted);
    assert ChunkSet(base) == set id | id in base.evidence;
    assert ChunkSet(cand) == set id | id in cand.evidence;
  }

  lemma {:induction false} PairsAreBooked(t: Tally, ct: string, i: nat, base: seq<Clause>, cand: seq<Clause>, sorted: set<string> -> seq<string>)
    ensures Zipped(t, ct, base, cand, sorted) == Book(t, PairItems(ct, i, base, cand, sorted), sorted)
    decreases base
  {
    hide OneClause, ClauseItems;
    if base != [] && cand != [] {
      ClauseIsBooked(t, ct, i, base[0], cand[0], sorted);
      PairsAreBooked(OneClause(t, ct, base[0], cand[0], sorted), ct, i + 1, base[1..], cand[1..], sorted);
      BookBoth(t, ClauseItems(ct, i, base[0], cand[0], sorted), PairItems(ct, i + 1, base[1..], cand[1..], sorted), sorted);
    }
  }

  lemma {:induction false} TypesAreBooked(t: Tally, types: seq<string>, base: seq<Clause>, cand: seq<Clause>, sorted: set<string> -> seq<string>)
    ensures AllTypes(t, types, base, cand, sorted) == Book(t, TypeItems(types, base, cand, sorted), sorted)
    decreases types
  {
    hide Zipped, OfType, PairItems;
    if types != [] {
      var bs, cs := OfType(base, types[0]), OfType(cand, types[0]);
      PairsAreBooked(t, types[0], 0, bs, cs, sorted);
      TypesAreBooked(Zipped(t, types[0], bs, cs, sorted), types[1..], base, cand, sorted);
      BookBoth(t, PairItems(types[0], 0, bs, cs, sorted), TypeItems(types[1..], base, cand, sorted), sorted);
    }
  }

  // ---- what booking counts

  function CountIf<T>(items: seq<T>, test: T -> bool): nat {
    if items == [] then 0 else (if test(items[0]) then 1 else 0) + CountIf(items[1..], test)
  }

  function DiffsOf(items: seq<Item>, sorted: set<string> -> seq<string>): seq<FieldDiff> {
    if items == [] then [] else DiffOf(items[0], sorted) + DiffsOf(items[1..], sorted)
  }

  function DiffOf(item: Item, sorted: set<string> -> seq<string>): seq<FieldDiff> {
    match item
    case ValueItem(ct, _, path, name, l, r) => if Agrees(name, l, r) then [] else [FieldDiff(ct, path, One(l), One(r))]
    case EvidenceItem(ct, _, b, c) => if SameChunks(b, c) then [] else [ChunkDiff(ct, b, c, sorted)]
  }

  const IsValue := (item: Item) => item.ValueItem?
  const IsMatch := (item: Item) => item.ValueItem? && Agrees(item.name, item.left, item.right)
  const HasNull := (item: Item) => item.ValueItem? && (item.left.Null? || item.right.Null?)
  const HasNulls := (item: Item) => item.ValueItem? && item.left.Null? && item.right.Null?
  const IsEvidence := (item: Item) => item.EvidenceItem?
  const SameSet := (item: Item) => item.EvidenceItem? && SameChunks(item.base, item.cand)
  const SameSize := (item: Item) => item.EvidenceItem? && |item.base| == |item.cand|

  /** Each figure of a report is a count over the items compared. */
  ghost predicate Counts(t: Tally, items: seq<Item>, sorted: set<string> -> seq<string>) {
    && t.fields == Accuracy(CountIf(items, IsMatch), CountIf(items, IsValue))
    && t.nulls == Accuracy(CountIf(items, HasNulls), CountIf(items, HasNull))
    && t.citations == Accuracy(CountIf(items, SameSet), CountIf(items, IsEvidence))
    && t.evidence == Accuracy(CountIf(items, SameSize), CountIf(items, IsEvidence))
    && t.diffs == DiffsOf(items, sorted)
  }

  lemma {:induction false} CountIfBoth<T>(a: seq<T>, b: seq<T>, test: T -> bool)
    ensures CountIf(a + b, test) == CountIf(a, test) + CountIf(b, test)
  {
    if a == [] {
      assert a + b == b;
    } else {
      assert (a + b)[1..] == a[1..] + b;
      CountIfBoth(a[1..], b, test);
    }
  }

  lemma {:induction false} DiffsOfBoth(a: seq<Item>, b: seq<Item>, sorted: set<string> -> seq<string>)
    ensures DiffsOf(a + b, sorted) == DiffsOf(a, sorted) + DiffsOf(b, sorted)
  {
    hide DiffOf;
    if a == [] {
      assert a + b == b;
    } else {
      assert (a + b)[1..] == a[1..] + b;
      DiffsOfBoth(a[1..], b, sorted);
    }
  }

  lemma CountLast(items: seq<Item>, item: Item, test: Item -> bool)
    ensures CountIf(items + [item], test) == CountIf(items, test) + (if test(item) then 1 else 0)
  {
    CountIfBoth(items, [item], test);
    assert [item][1..] == [];
    assert CountIf([item], test) == (if test(item) then 1 else 0) + CountIf([], test);
  }

  lemma DiffsLast(items: seq<Item>, item: Item, sorted: set<string> -> seq<string>)
    ensures DiffsOf(items + [item], sorted) == DiffsOf(items, sorted) + DiffOf(item, sorted)
  {
    hide DiffOf;
    DiffsOfBoth(items, [item], sorted);
    assert [item][1..] == [];
    assert DiffsOf([item], sorted) == DiffOf(item, sorted) + DiffsOf([], sorted);
  }

  lemma BookOneCounts(t: Tally, done: seq<Item>, item: Item, sorted: set<string> -> seq<string>)
    requires Counts(t, done, sorted)
    ensures Counts(BookOne(t, item, sorted), done + [item], sorted)
  {
    hide Agrees, SameChunks, CountIf, DiffsOf, ChunkDiff;
    CountLast(done, item, IsValue);
    CountLast(done, item, IsMatch);
    CountLast(done, item, HasNull);
    CountLast(done, item, HasNulls);
    CountLast(done, item, IsEvidence);
    CountLast(done, item, SameSet);
    CountLast(done, item, SameSize);
    DiffsLast(done, item, sorted);
  }

  lemma {:induction false} BookCounts(t: Tally, done: seq<Item>, items: seq<Item>, sorted: set<string> -> seq<string>)
    requires Counts(t, done, sorted)
    ensures Counts(Book(t, items, sorted), done + items, sorted)
    decreases items
  {
    hide Counts, BookOne;
    if items == [] {
      assert done + items == done;
    } else {
      BookOneCounts(t, done, items[0], sorted);
      BookCounts(BookOne(t, items[0], sorted), done + [items[0]], items[1..], sorted);
      assert done + [items[0]] + items[1..] == done + items;
    }
  }

  /** The report of a comparison: its figures count the items compared and its differences
      are those of the items, in order. */
  lemma ReportIsCounted(base: Extraction, cand: Extraction, sorted: set<string> -> seq<string>)
    ensures Counts(Compared(base, cand, sorted), Items(base, cand, sorted), sorted)
    ensures Compared(base, cand, sorted).onlyInBaseline == sorted(Types(base.clauses) - Types(cand.clauses))
    ensures Compared(base, cand, sorted).onlyInCandidate == sorted(Types(cand.clauses) - Types(base.clauses))
    ensures Compared(base, cand, sorted).json == Accuracy(CountIf(cand.valid, ok => ok), |cand.valid|)
  {
    hide Types, TypeItems, AllTypes;
    var b, c := Types(base.clauses), Types(cand.clauses);
    var start := EMPTY.(onlyInBaseline := sorted(b - c), onlyInCandidate := sorted(c - b));
    var items := Items(base, cand, sorted);
    TypesAreBooked(start, sorted(b * c), base.clauses, cand.clauses, sorted);
    assert Counts(start, [], sorted);
    BookCounts(start, [], items, sorted);
    assert [] + items == items;
    var t := Book(start, items, sorted);
    BookKeepsRest(start, items, sorted);
    OutcomesTouchOnlyJson(t, cand.valid);
    OutcomesCount(t, cand.valid);
  }

  lemma {:induction false} BookKeepsRest(t: Tally, items: seq<Item>, sorted: set<string> -> seq<string>)
    ensures var u := Book(t, items, sorted);
            u.onlyInBaseline == t.onlyInBaseline && u.onlyInCandidate == t.onlyInCandidate && u.json == t.json
    decreases items
  {
    hide Agrees, SameChunks;
    if items != [] { BookKeepsRest(BookOne(t, items[0], sorted), items[1..], sorted); }
  }

  lemma {:induction false} OutcomesCount(t: Tally, valid: seq<bool>)
    ensures Outcomes(t, valid).json == Accuracy(t.json.matched + CountIf(valid, ok => ok), t.json.total + |valid|)
    decreases valid
  {
    if valid != [] { OutcomesCount(t.(json := t.json.Recorded(valid[0])), valid[1..]); }
  }

  // ------------------------------------------------------------------ which items there are

  function CountOf(clauses: seq<Clause>, clauseType: string): nat {
    if clauses == [] then 0 else (if clauses[0].clauseType == clauseType then 1 else 0) + CountOf(clauses[1..], clauseType)
  }

  /** c is the i-th clause of its type among the clauses. */
  ghost predicate IsNth(clauses: seq<Clause>, clauseType: string, i: nat, c: Clause) {
    exists p :: 0 <= p < |clauses| && clauses[p] == c && c.clauseType == clauseType && CountOf(clauses[..p], clauseType) == i
  }

  /** The head of a list is its first of that type; of what follows each moves by one. */
  lemma NthOfTail(clauses: seq<Clause>, clauseType: string, i: nat, c: Clause)
    requires clauses != []
    ensures var head := clauses[0].clauseType == clauseType;
            IsNth(clauses, clauseType, i, c) <==>
              if head && i == 0 then c == clauses[0] else IsNth(clauses[1..], clauseType, if head then i - 1 else i, c)
  {
    var rest, one := clauses[1..], if clauses[0].clauseType == clauseType then 1 else 0;
    forall p | 0 < p < |clauses|
      ensures CountOf(clauses[..p], clauseType) == CountOf(rest[..p - 1], clauseType) + one
    {
      assert clauses[..p][0] == clauses[0] && clauses[..p][1..] == rest[..p - 1];
    }
    assert clauses[..0] == [];
    hide CountOf;
    assert CountOf([], clauseType) == 0 by { NoClauses(clauseType); }
    if p :| 0 <= p < |clauses| && clauses[p] == c && c.clauseType == clauseType && CountOf(clauses[..p], clauseType) == i {
      assert p > 0 ==> rest[p - 1] == c;
    }
    if i >= one {
      if p :| 0 <= p < |rest| && rest[p] == c && c.clauseType == clauseType && CountOf(rest[..p], clauseType) == i - one {
        assert clauses[p + 1] == c && CountOf(clauses[..p + 1], clauseType) == i;
      }
    }
  }

  lemma NoClauses(clauseType: string)
    ensures CountOf([], clauseType) == 0
  {
  }

  lemma OfTypeTail(clauses: seq<Clause>, clauseType: string)
    requires clauses != []
    ensures OfType(clauses, clauseType)
            == (if clauses[0].clauseType == clauseType then [clauses[0]] else []) + OfType(clauses[1..], clauseType)
  {
  }

  lemma {:induction false} OfTypeNth(clauses: seq<Clause>, clauseType: string, i: nat, c: Clause)
    ensures IsNth(clauses, clauseType, i, c) <==> i < |OfType(clauses, clauseType)| && OfType(clauses, clauseType)[i] == c
  {
    if clauses == [] {
      assert OfType(clauses, clauseType) == [];
    } else {
      NthOfTail(clauses, clauseType, i, c);
      OfTypeTail(clauses, clauseType);
      hide IsNth, OfType;
      var head := clauses[0].clauseType == clauseType;
      if !(head && i == 0) { OfTypeNth(clauses[1..], clauseType, if head then i - 1 else i, c); }
    }
  }

  /** `sorted` lists each set: its elements, each once. */
  ghost predicate Lists(sorted: set<string> -> seq<string>) {
    && (forall s: set<string>, x :: x in sorted(s) <==> x in s)
    && (forall s: set<string>, i, j :: 0 <= i < j < |sorted(s)| ==> sorted(s)[i] != sorted(s)[j])
  }

  ghost function AnyOrder(s: set<string>): seq<string> {
    if s == {} then []
    else
      var x :| x in s;
      [x] + AnyOrder(s - {x})
  }

  lemma {:induction false} AnyOrderLists(s: set<string>)
    ensures forall x :: x in AnyOrder(s) <==> x in s
    ensures forall i, j :: 0 <= i < j < |AnyOrder(s)| ==> AnyOrder(s)[i] != AnyOrder(s)[j]
  {
    if s != {} {
      var x := AnyOrder(s)[0];
      AnyOrderLists(s - {x});
    }
  }

  /** There is such a way to list sets. */
  lemma SomethingLists() returns (sorted: set<string> -> seq<string>)
    ensures Lists(sorted)
  {
    sorted := s => AnyOrder(s);
    forall s: set<string> { AnyOrderLists(s); }
  }

  /** What a name reads as: its value, and nothing where it has none. */
  predicate Reads(m: map<string, Value>, name: string, v: Value) {
    (name in m && v == m[name]) || (name !in m && v == Null)
  }

  /** What is compared of a pair: each compared field, each attribute that either side has, and
      the evidence. */
  ghost predicate IsOfPair(item: Item, base: Clause, cand: Clause) {
    match item
    case ValueItem(_, _, path, name, l, r) =>
      || (name in COMPARED_FIELDS && path == name && Reads(base.fields, name, l) && Reads(cand.fields, name, r))
      || ((name in base.attributes || name in cand.attributes) && path == "attributes." + name
          && Reads(base.attributes, name, l) && Reads(cand.attributes, name, r))
    case EvidenceItem(_, _, b, c) => b == base.evidence && c == cand.evidence
  }

  lemma ClauseItemsAre(ct: string, i: nat, base: Clause, cand: Clause, sorted: set<string> -> seq<string>, item: Item)
    requires Lists(sorted)
    ensures item in ClauseItems(ct, i, base, cand, sorted) <==> item.clauseType == ct && item.i == i && IsOfPair(item, base, cand)
  {
    hide COMPARED_FIELDS, FieldItems;
    var keys := base.attributes.Keys + cand.attributes.Keys;
    var fields := FieldItems(ct, i, COMPARED_FIELDS, "", base.fields, cand.fields);
    var attributes := FieldItems(ct, i, sorted(keys), "attributes.", base.attributes, cand.attributes);
    if item.ValueItem? {
      FieldItemsAre(ct, i, COMPARED_FIELDS, "", base.fields, cand.fields, item);
      FieldItemsAre(ct, i, sorted(keys), "attributes.", base.attributes, cand.attributes, item);
      assert "" + item.name == item.name;
      assert item.name in sorted(keys) <==> item.name in keys;
    }
  }

  lemma FieldItemsAre(ct: string, i: nat, names: seq<string>, prefix: string, l: map<string, Value>, r: map<string, Value>, item: Item)
    requires item.ValueItem?
    ensures item in FieldItems(ct, i, names, prefix, l, r) <==>
            && item.clauseType == ct && item.i == i && item.name in names && item.path == prefix + item.name
            && item.left == Lookup(l, item.name) && item.right == Lookup(r, item.name)
  {
    hide Lookup;
    var items := FieldItems(ct, i, names, prefix, l, r);
    if item in items {
      var k :| 0 <= k < |items| && items[k] == item;
    }
    if item.name in names {
      var k :| 0 <= k < |names| && names[k] == item.name;
      assert items[k] in items;
    }
  }

  lemma {:induction false} PairItemsAre(ct: string, i: nat, base: seq<Clause>, cand: seq<Clause>, sorted: set<string> -> seq<string>, item: Item)
    requires Lists(sorted)
    ensures item in PairItems(ct, i, base, cand, sorted) <==>
            && item.clauseType == ct && i <= item.i && item.i - i < |base| && item.i - i < |cand|
            && IsOfPair(item, base[item.i - i], cand[item.i - i])
    decreases base
  {
    hide ClauseItems, IsOfPair, Lists;
    if base != [] && cand != [] {
      ClauseItemsAre(ct, i, base[0], cand[0], sorted, item);
      PairItemsAre(ct, i + 1, base[1..], cand[1..], sorted, item);
    }
  }

  lemma {:induction false} TypeItemsAre(types: seq<string>, base: seq<Clause>, cand: seq<Clause>, sorted: set<string> -> seq<string>, item: Item)
    requires Lists(sorted)
    ensures item in TypeItems(types, base, cand, sorted) <==>
            item.clauseType in types && item in PairItems(item.clauseType, 0, OfType(base, item.clauseType), OfType(cand, item.clauseType), sorted)
    decreases types
  {
    hide PairItems, OfType, IsOfPair, Lists;
    if types != [] {
      PairItemsAre(types[0], 0, OfType(base, types[0]), OfType(cand, types[0]), sorted, item);
      TypeItemsAre(types[1..], base, cand, sorted, item);
      assert types == [types[0]] + types[1..];
    }
  }

  /** The items of a comparison, in terms of the two results alone. */
  lemma ItemsAre(base: Extraction, cand: Extraction, sorted: set<string> -> seq<string>, item: Item)
    requires Lists(sorted)
    ensures item in Items(base, cand, sorted) <==>
            exists b, c :: IsNth(base.clauses, item.clauseType, item.i, b) && IsNth(cand.clauses, item.clauseType, item.i, c) && IsOfPair(item, b, c)
  {
    hide PairItems, OfType, IsOfPair, IsNth;
    var ct, i := item.clauseType, item.i;
    var bs, cs := OfType(base.clauses, ct), OfType(cand.clauses, ct);
    var types := Types(base.clauses) * Types(cand.clauses);
    TypeItemsAre(sorted(types), base.clauses, cand.clauses, sorted, item);
    assert ct in sorted(types) <==> ct in types;
    PairItemsAre(ct, 0, bs, cs, sorted, item);
    if item in Items(base, cand, sorted) {
      OfTypeNth(base.clauses, ct, i, bs[i]);
      OfTypeNth(cand.clauses, ct, i, cs[i]);
    }
    if b, c :| IsNth(base.clauses, ct, i, b) && IsNth(cand.clauses, ct, i, c) && IsOfPair(item, b, c) {
      OfTypeNth(base.clauses, ct, i, b);
      OfTypeNth(cand.clauses, ct, i, c);
      NthHasType(base.clauses, ct, i, b);
      NthHasType(cand.clauses, ct, i, c);
    }
  }

  lemma NthHasType(clauses: seq<Clause>, ct: string, i: nat, c: Clause)
    requires IsNth(clauses, ct, i, c)
    ensures ct in Types(clauses)
  {
    var p :| 0 <= p < |clauses| && clauses[p] == c && c.clauseType == ct && CountOf(clauses[..p], ct) == i;
    assert clauses[p] in clauses;
  }

  // ---- each of them once

  lemma DistinctBoth(a: seq<Item>, b: seq<Item>)
    requires Distinct(a) && Distinct(b) && forall x :: x in a ==> x !in b
    ensures Distinct(a + b)
  {
    var both := a + b;
    forall i, j | 0 <= i < j < |both|
      ensures both[i] != both[j]
    {
      if i < |a| <= j { assert both[i] in a && both[j] == b[j - |a|]; }
    }
  }

  lemma FieldItemsDistinct(ct: string, i: nat, names: seq<string>, prefix: string, l: map<string, Value>, r: map<string, Value>)
    requires Distinct(names)
    ensures Distinct(FieldItems(ct, i, names, prefix, l, r))
  {
    hide Lookup;
    var items := FieldItems(ct, i, names, prefix, l, r);
    assert forall k :: 0 <= k < |items| ==> items[k].name == names[k];
  }

  lemma ComparedFieldsDistinct()
    ensures Distinct(COMPARED_FIELDS)
  {
    var lengths := [11, 5, 4, 7, 13, 10, 13, 10, 16, 13, 12, 15, 15];
    assert forall k :: 0 <= k < |COMPARED_FIELDS| ==> |COMPARED_FIELDS[k]| == lengths[k];
    assert forall k :: 0 <= k < |COMPARED_FIELDS| && |COMPARED_FIELDS[k]| == 13 ==> COMPARED_FIELDS[k][9] == ['m', 'i', 'a'][if k == 4 then 0 else if k == 6 then 1 else 2];
  }

  lemma ClauseItemsDistinct(ct: string, i: nat, base: Clause, cand: Clause, sorted: set<string> -> seq<string>)
    requires Lists(sorted)
    ensures Distinct(ClauseItems(ct, i, base, cand, sorted))
  {
    ComparedFieldsDistinct();
    hide COMPARED_FIELDS, FieldItems;
    var keys := sorted(base.attributes.Keys + cand.attributes.Keys);
    var fields := FieldItems(ct, i, COMPARED_FIELDS, "", base.fields, cand.fields);
    var attributes := FieldItems(ct, i, keys, "attributes.", base.attributes, cand.attributes);
    var last := [EvidenceItem(ct, i, base.evidence, cand.evidence)];
    FieldItemsDistinct(ct, i, COMPARED_FIELDS, "", base.fields, cand.fields);
    FieldItemsDistinct(ct, i, keys, "attributes.", base.attributes, cand.attributes);
    forall x | x in fields
      ensures x !in attributes
    {
      assert x.ValueItem?;
      FieldItemsAre(ct, i, COMPARED_FIELDS, "", base.fields, cand.fields, x);
      FieldItemsAre(ct, i, keys, "attributes.", base.attributes, cand.attributes, x);
      assert |"" + x.name| < |"attributes." + x.name|;
    }
    DistinctBoth(fields, attributes);
    assert forall x :: x in fields + attributes ==> x.ValueItem?;
    DistinctBoth(fields + attributes, last);
  }

  lemma {:induction false} PairItemsDistinct(ct: string, i: nat, base: seq<Clause>, cand: seq<Clause>, sorted: set<string> -> seq<string>)
    requires Lists(sorted)
    ensures Distinct(PairItems(ct, i, base, cand, sorted))
    decreases base
  {
    hide ClauseItems, IsOfPair, Lists, Distinct;
    if base == [] || cand == [] {
      assert Distinct(PairItems(ct, i, base, cand, sorted)) by { NoneDistinct(); }
    } else {
      var first, rest := ClauseItems(ct, i, base[0], cand[0], sorted), PairItems(ct, i + 1, base[1..], cand[1..], sorted);
      ClauseItemsDistinct(ct, i, base[0], cand[0], sorted);
      PairItemsDistinct(ct, i + 1, base[1..], cand[1..], sorted);
      forall x | x in first
        ensures x !in rest
      {
        ClauseItemsAre(ct, i, base[0], cand[0], sorted, x);
        PairItemsAre(ct, i + 1, base[1..], cand[1..], sorted, x);
      }
      DistinctBoth(first, rest);
    }
  }

  lemma NoneDistinct()
    ensures Distinct<Item>([])
  {
  }

  lemma {:induction false} TypeItemsDistinct(types: seq<string>, base: seq<Clause>, cand: seq<Clause>, sorted: set<string> -> seq<string>)
    requires Lists(sorted) && Distinct(types)
    ensures Distinct(TypeItems(types, base, cand, sorted))
  {
    hide PairItems, OfType, IsOfPair, Lists;
    if types != [] {
      var first := PairItems(types[0], 0, OfType(base, types[0]), OfType(cand, types[0]), sorted);
      var rest := TypeItems(types[1..], base, cand, sorted);
      PairItemsDistinct(types[0], 0, OfType(base, types[0]), OfType(cand, types[0]), sorted);
      TypeItemsDistinct(types[1..], base, cand, sorted);
      forall x | x in first
        ensures x !in rest
      {
        PairItemsAre(types[0], 0, OfType(base, types[0]), OfType(cand, types[0]), sorted, x);
        TypeItemsAre(types[1..], base, cand, sorted, x);
      }
      DistinctBoth(first, rest);
    }
  }

  /** Nothing is compared twice. */
  lemma ItemsAreDistinct(base: Extraction, cand: Extraction, sorted: set<string> -> seq<string>)
    requires Lists(sorted)
    ensures Distinct(Items(base, cand, sorted))
  {
    TypeItemsDistinct(sorted(Types(base.clauses) * Types(cand.clauses)), base.clauses, cand.clauses, sorted);
  }

  // ------------------------------------------------------------------ exactly which differences

  lemma {:induction false} DiffsAre(items: seq<Item>, sorted: set<string> -> seq<string>, d: FieldDiff)
    ensures d in DiffsOf(items, sorted) <==> exists item :: item in items && DiffOf(item, sorted) == [d]
  {
    hide DiffOf;
    if items != [] {
      OneDiffAtMost(items[0], sorted);
      DiffsAre(items[1..], sorted, d);
      assert items == [items[0]] + items[1..];
    }
  }

  lemma OneDiffAtMost(item: Item, sorted: set<string> -> seq<string>)
    ensures |DiffOf(item, sorted)| <= 1
    ensures forall d :: d in DiffOf(item, sorted) <==> DiffOf(item, sorted) == [d]
  {
  }

  /** Two values of the i-th pair of a shared type that do not agree, as a report shows them. */
  ghost predicate ValuesDiffer(base: Extraction, cand: Extraction, d: FieldDiff) {
    exists i: nat, name, l, r, b, c ::
      && IsNth(base.clauses, d.clauseType, i, b) && IsNth(cand.clauses, d.clauseType, i, c)
      && IsOfPair(ValueItem(d.clauseType, i, d.field, name, l, r), b, c)
      && !Agrees(name, l, r) && d.baseline == One(l) && d.candidate == One(r)
  }

  /** A pair whose evidence does not name the same chunks, as a report shows it. */
  ghost predicate ChunksDiffer(base: Extraction, cand: Extraction, sorted: set<string> -> seq<string>, d: FieldDiff) {
    exists i: nat, b, c ::
      && IsNth(base.clauses, d.clauseType, i, b) && IsNth(cand.clauses, d.clauseType, i, c)
      && !SameChunks(b.evidence, c.evidence) && d == ChunkDiff(d.clauseType, b.evidence, c.evidence, sorted)
  }

  /** A difference is reported if and only if two compared values of a pair do not agree, or
      the chunks of a pair are not the same. */
  lemma DiffReportedIff(base: Extraction, cand: Extraction, sorted: set<string> -> seq<string>, d: FieldDiff)
    requires Lists(sorted)
    ensures d in Compared(base, cand, sorted).diffs <==> ValuesDiffer(base, cand, d) || ChunksDiffer(base, cand, sorted, d)
  {
    hide Compared, Items, DiffsOf, Lists, IsNth;
    ReportIsCounted(base, cand, sorted);
    var items := Items(base, cand, sorted);
    DiffsAre(items, sorted, d);
    if d in DiffsOf(items, sorted) {
      var item :| item in items && DiffOf(item, sorted) == [d];
      ItemsAre(base, cand, sorted, item);
      DiffIsOfItem(base, cand, sorted, item, d);
    }
    if ValuesDiffer(base, cand, d) {
      var i: nat, name, l, r, b, c :|
        && IsNth(base.clauses, d.clauseType, i, b) && IsNth(cand.clauses, d.clauseType, i, c)
        && IsOfPair(ValueItem(d.clauseType, i, d.field, name, l, r), b, c)
        && !Agrees(name, l, r) && d.baseline == One(l) && d.candidate == One(r);
      var item := ValueItem(d.clauseType, i, d.field, name, l, r);
      ItemsAre(base, cand, sorted, item);
      assert DiffOf(item, sorted) == [d];
    }
    if ChunksDiffer(base, cand, sorted, d) {
      var i: nat, b, c :|
        && IsNth(base.clauses, d.clauseType, i, b) && IsNth(cand.clauses, d.clauseType, i, c)
        && !SameChunks(b.evidence, c.evidence) && d == ChunkDiff(d.clauseType, b.evidence, c.evidence, sorted);
      var item := EvidenceItem(d.clauseType, i, b.evidence, c.evidence);
      ItemsAre(base, cand, sorted, item);
      assert DiffOf(item, sorted) == [d];
    }
  }

  lemma DiffIsOfItem(base: Extraction, cand: Extraction, sorted: set<string> -> seq<string>, item: Item, d: FieldDiff)
    requires DiffOf(item, sorted) == [d]
    requires exists b, c :: IsNth(base.clauses, item.clauseType, item.i, b) && IsNth(cand.clauses, item.clauseType, item.i, c) && IsOfPair(item, b, c)
    ensures ValuesDiffer(base, cand, d) || ChunksDiffer(base, cand, sorted, d)
  {
    hide IsNth, Agrees, SameChunks;
    var b, c :| IsNth(base.clauses, item.clauseType, item.i, b) && IsNth(cand.clauses, item.clauseType, item.i, c) && IsOfPair(item, b, c);
    match item
    case ValueItem(ct, i, path, name, l, r) =>
      assert d == FieldDiff(ct, path, One(l), One(r));
      assert ValueItem(d.clauseType, i, d.field, name, l, r) == item;
    case EvidenceItem(ct, i, be, ce) =>
      assert d == ChunkDiff(ct, be, ce, sorted);
  }

  lemma {:induction false} AllCountIff<T>(items: seq<T>, few: T -> bool, many: T -> bool)
    requires forall x :: few(x) ==> many(x)
    ensures CountIf(items, few) <= CountIf(items, many)
    ensures CountIf(items, few) == CountIf(items, many) <==> forall x :: x in items && many(x) ==> few(x)
  {
    if items != [] {
      AllCountIff(items[1..], few, many);
      assert items == [items[0]] + items[1..];
    }
  }

  /** So the field figure is full exactly when no two compared values disagree. */
  lemma FieldsMatchIff(base: Extraction, cand: Extraction, sorted: set<string> -> seq<string>)
    requires Lists(sorted)
    ensures var t := Compared(base, cand, sorted);
            t.fields.matched == t.fields.total <==> forall d :: !ValuesDiffer(base, cand, d)
  {
    hide Compared, Items, DiffsOf, Lists, IsNth, CountIf;
    ReportIsCounted(base, cand, sorted);
    var items := Items(base, cand, sorted);
    AllCountIff(items, IsMatch, IsValue);
    if d :| ValuesDiffer(base, cand, d) {
      var i: nat, name, l, r, b, c :|
        && IsNth(base.clauses, d.clauseType, i, b) && IsNth(cand.clauses, d.clauseType, i, c)
        && IsOfPair(ValueItem(d.clauseType, i, d.field, name, l, r), b, c)
        && !Agrees(name, l, r) && d.baseline == One(l) && d.candidate == One(r);
      var item := ValueItem(d.clauseType, i, d.field, name, l, r);
      ItemsAre(base, cand, sorted, item);
      assert IsValue(item) && !IsMatch(item);
    } else {
      forall item | item in items && IsValue(item)
        ensures IsMatch(item)
      {
        ItemsAre(base, cand, sorted, item);
        var b, c :| IsNth(base.clauses, item.clauseType, item.i, b) && IsNth(cand.clauses, item.clauseType, item.i, c) && IsOfPair(item, b, c);
        var d := FieldDiff(item.clauseType, item.path, One(item.left), One(item.right));
        assert item == ValueItem(d.clauseType, item.i, d.field, item.name, item.left, item.right);
        assert !ValuesDiffer(base, cand, d);
      }
    }
  }

  /** And below two million comparisons `regression_pct` is zero exactly when no two compared
      values of any contract disagree. */
  lemma {:induction false} RegressionIsZeroIffAllAgree(contracts: seq<(Extraction, Extraction)>, sorted: set<string> -> seq<string>)
    requires Lists(sorted) && Totals(Reports(contracts, sorted), Fields).total < 2_000_000
    ensures RegressionTicks(Totals(Reports(contracts, sorted), Fields)) == 0 <==>
            forall k, d :: 0 <= k < |contracts| ==> !ValuesDiffer(contracts[k].0, contracts[k].1, d)
  {
    hide RegressionTicks, Totals, Compared, ValuesDiffer, Lists;
    RegressionOfContracts(contracts, sorted);
    var reports := Reports(contracts, sorted);
    ReportsInOrder(contracts, sorted);
    forall k | 0 <= k < |contracts|
      ensures reports[k].fields.matched == reports[k].fields.total <==> forall d :: !ValuesDiffer(contracts[k].0, contracts[k].1, d)
    {
      FieldsMatchIff(contracts[k].0, contracts[k].1, sorted);
    }
    assert forall k :: 0 <= k < |reports| ==> reports[k] in reports;
  }

  lemma {:induction false} ReportsInOrder(contracts: seq<(Extraction, Extraction)>, sorted: set<string> -> seq<string>)
    ensures |Reports(contracts, sorted)| == |contracts|
    ensures forall k :: 0 <= k < |contracts| ==> Reports(contracts, sorted)[k] == Compared(contracts[k].0, contracts[k].1, sorted)
  {
    hide Compared;
    if contracts != [] { ReportsInOrder(contracts[1..], sorted); }
  }
}
