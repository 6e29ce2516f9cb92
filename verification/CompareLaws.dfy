/** The books of a comparison balance: laws of the reports that Compare produces, and the
    figures drawn from several of them. */
module CompareLaws {
  import opened Compare

  // ------------------------------------------------------------------ conservation

  /** Every difference is one field mismatch or one citation mismatch, and nothing else. */
  predicate Balanced(t: Tally) {
    && t.fields.matched <= t.fields.total && t.citations.matched <= t.citations.total
    && |t.diffs| == (t.fields.total - t.fields.matched) + (t.citations.total - t.citations.matched)
  }

  lemma {:induction false} AllFieldsBalance(t: Tally, names: seq<string>, prefix: string, ct: string, l: map<string, Value>, r: map<string, Value>)
    requires Balanced(t)
    ensures Balanced(AllFields(t, names, prefix, ct, l, r))
    ensures AllFields(t, names, prefix, ct, l, r).fields.total == t.fields.total + |names|
    ensures AllFields(t, names, prefix, ct, l, r).citations == t.citations
    decreases names
  {
    hide Equal;
    if names != [] {
      AllFieldsBalance(OneField(t, ct, prefix + names[0], names[0], Lookup(l, names[0]), Lookup(r, names[0])), names[1..], prefix, ct, l, r);
    }
  }

  lemma OneClauseBalances(t: Tally, ct: string, base: Clause, cand: Clause, sorted: set<string> -> seq<string>)
    requires Balanced(t)
    ensures Balanced(OneClause(t, ct, base, cand, sorted))
    ensures OneClause(t, ct, base, cand, sorted).citations.total == t.citations.total + 1
  {
    hide AllFields, COMPARED_FIELDS, ChunkSet;
    var t1 := AllFields(t, COMPARED_FIELDS, "", ct, base.fields, cand.fields);
    AllFieldsBalance(t, COMPARED_FIELDS, "", ct, base.fields, cand.fields);
    AllFieldsBalance(t1, sorted(base.attributes.Keys + cand.attributes.Keys), "attributes.", ct, base.attributes, cand.attributes);
  }

  lemma {:induction false} ZippedBalances(t: Tally, ct: string, base: seq<Clause>, cand: seq<Clause>, sorted: set<string> -> seq<string>)
    requires Balanced(t)
    ensures Balanced(Zipped(t, ct, base, cand, sorted))
    ensures Zipped(t, ct, base, cand, sorted).citations.total == t.citations.total + (if |base| <= |cand| then |base| else |cand|)
    decreases base
  {
    hide OneClause;
    if base != [] && cand != [] {
      OneClauseBalances(t, ct, base[0], cand[0], sorted);
      ZippedBalances(OneClause(t, ct, base[0], cand[0], sorted), ct, base[1..], cand[1..], sorted);
    }
  }

  lemma {:induction false} AllTypesBalance(t: Tally, types: seq<string>, base: seq<Clause>, cand: seq<Clause>, sorted: set<string> -> seq<string>)
    requires Balanced(t)
    ensures Balanced(AllTypes(t, types, base, cand, sorted))
    decreases types
  {
    hide Zipped, OfType;
    if types != [] {
      ZippedBalances(t, types[0], OfType(base, types[0]), OfType(cand, types[0]), sorted);
      AllTypesBalance(Zipped(t, types[0], OfType(base, types[0]), OfType(cand, types[0]), sorted), types[1..], base, cand, sorted);
    }
  }

  lemma {:induction false} OutcomesTouchOnlyJson(t: Tally, valid: seq<bool>)
    ensures Outcomes(t, valid) == t.(json := Outcomes(t, valid).json)
    decreases valid
  {
    if valid != [] { OutcomesTouchOnlyJson(t.(json := t.json.Recorded(valid[0])), valid[1..]); }
  }

  /** For every pair of results the number of differences is field mismatches plus citation
      mismatches. */
  lemma DiffsBalance(base: Extraction, cand: Extraction, sorted: set<string> -> seq<string>)
    ensures Balanced(Compared(base, cand, sorted))
  {
    hide AllTypes, Outcomes, Types;
    var b, c := Types(base.clauses), Types(cand.clauses);
    var start := EMPTY.(onlyInBaseline := sorted(b - c), onlyInCandidate := sorted(c - b));
    AllTypesBalance(start, sorted(b * c), base.clauses, cand.clauses, sorted);
    OutcomesTouchOnlyJson(AllTypes(start, sorted(b * c), base.clauses, cand.clauses, sorted), cand.valid);
  }

  // ------------------------------------------------------------------ symmetry

  function FlipOne(d: FieldDiff): FieldDiff {
    d.(baseline := d.candidate, candidate := d.baseline)
  }

  function Flip(ds: seq<FieldDiff>): (r: seq<FieldDiff>)
    ensures |r| == |ds|
  {
    seq(|ds|, i requires 0 <= i < |ds| => FlipOne(ds[i]))
  }

  /** The report as the other side would write it. */
  function Mirror(t: Tally): Tally {
    t.(diffs := Flip(t.diffs), onlyInBaseline := t.onlyInCandidate, onlyInCandidate := t.onlyInBaseline)
  }

  lemma MirrorOneField(t: Tally, ct: string, path: string, name: string, l: Value, r: Value)
    ensures OneField(Mirror(t), ct, path, name, r, l) == Mirror(OneField(t, ct, path, name, l, r))
  {
    assert Equal(name, l, r) == Equal(name, r, l);
    var d := FieldDiff(ct, path, One(l), One(r));
    assert Flip(t.diffs + [d]) == Flip(t.diffs) + [FlipOne(d)];
  }

  lemma {:induction false} MirrorAllFields(t: Tally, names: seq<string>, prefix: string, ct: string, l: map<string, Value>, r: map<string, Value>)
    ensures AllFields(Mirror(t), names, prefix, ct, r, l) == Mirror(AllFields(t, names, prefix, ct, l, r))
    decreases names
  {
    hide OneField, Mirror;
    if names != [] {
      var left, right := Lookup(l, names[0]), Lookup(r, names[0]);
      MirrorOneField(t, ct, prefix + names[0], names[0], left, right);
      MirrorAllFields(OneField(t, ct, prefix + names[0], names[0], left, right), names[1..], prefix, ct, l, r);
    }
  }

  lemma MirrorOneClause(t: Tally, ct: string, base: Clause, cand: Clause, sorted: set<string> -> seq<string>)
    ensures OneClause(Mirror(t), ct, cand, base, sorted) == Mirror(OneClause(t, ct, base, cand, sorted))
  {
    hide AllFields, COMPARED_FIELDS, Citations, Mirror;
    assert base.attributes.Keys + cand.attributes.Keys == cand.attributes.Keys + base.attributes.Keys;
    var t1 := AllFields(t, COMPARED_FIELDS, "", ct, base.fields, cand.fields);
    var keys := sorted(base.attributes.Keys + cand.attributes.Keys);
    MirrorAllFields(t, COMPARED_FIELDS, "", ct, base.fields, cand.fields);
    MirrorAllFields(t1, keys, "attributes.", ct, base.attributes, cand.attributes);
    MirrorCitations(AllFields(t1, keys, "attributes.", ct, base.attributes, cand.attributes), ct, base, cand, sorted);
  }

  lemma MirrorCitations(t: Tally, ct: string, base: Clause, cand: Clause, sorted: set<string> -> seq<string>)
    ensures Citations(Mirror(t), ct, cand, base, sorted) == Mirror(Citations(t, ct, base, cand, sorted))
  {
    hide ChunkSet;
    var d := FieldDiff(ct, "evidence.chunk_ids", Chunks(sorted(ChunkSet(base))), Chunks(sorted(ChunkSet(cand))));
    assert Flip(t.diffs + [d]) == Flip(t.diffs) + [FlipOne(d)];
  }

  lemma {:induction false} MirrorZipped(t: Tally, ct: string, base: seq<Clause>, cand: seq<Clause>, sorted: set<string> -> seq<string>)
    ensures Zipped(Mirror(t), ct, cand, base, sorted) == Mirror(Zipped(t, ct, base, cand, sorted))
    decreases base
  {
    hide OneClause, Mirror;
    if base != [] && cand != [] {
      MirrorOneClause(t, ct, base[0], cand[0], sorted);
      MirrorZipped(OneClause(t, ct, base[0], cand[0], sorted), ct, base[1..], cand[1..], sorted);
    }
  }

  lemma {:induction false} MirrorAllTypes(t: Tally, types: seq<string>, base: seq<Clause>, cand: seq<Clause>, sorted: set<string> -> seq<string>)
    ensures AllTypes(Mirror(t), types, cand, base, sorted) == Mirror(AllTypes(t, types, base, cand, sorted))
    decreases types
  {
    hide Zipped, OfType, Mirror;
    if types != [] {
      MirrorZipped(t, types[0], OfType(base, types[0]), OfType(cand, types[0]), sorted);
      MirrorAllTypes(Zipped(t, types[0], OfType(base, types[0]), OfType(cand, types[0]), sorted), types[1..], base, cand, sorted);
    }
  }

  /** Swapping the sides keeps every count but JSON validity, which is the candidate's own,
      swaps the only-in lists and turns each difference around, in the same order. */
  lemma SwapMirrors(base: Extraction, cand: Extraction, sorted: set<string> -> seq<string>)
    ensures Compared(cand, base, sorted).(json := NONE) == Mirror(Compared(base, cand, sorted)).(json := NONE)
  {
    hide AllTypes, Outcomes, Types;
    var b, c := Types(base.clauses), Types(cand.clauses);
    var start := EMPTY.(onlyInBaseline := sorted(b - c), onlyInCandidate := sorted(c - b));
    assert b * c == c * b && Flip([]) == [];
    var t := AllTypes(start, sorted(b * c), base.clauses, cand.clauses, sorted);
    MirrorAllTypes(start, sorted(b * c), base.clauses, cand.clauses, sorted);
    OutcomesTouchOnlyJson(t, cand.valid);
    OutcomesTouchOnlyJson(Mirror(t), base.valid);
  }

  // ------------------------------------------------------------------ a result against itself

  predicate Clean(t: Tally) {
    && t.diffs == [] && t.onlyInBaseline == [] && t.onlyInCandidate == []
    && t.fields.matched == t.fields.total && t.citations.matched == t.citations.total
    && t.evidence.matched == t.evidence.total && t.nulls.matched == t.nulls.total
  }

  lemma {:induction false} CleanAllFields(t: Tally, names: seq<string>, prefix: string, ct: string, l: map<string, Value>)
    requires Clean(t)
    ensures Clean(AllFields(t, names, prefix, ct, l, l))
    decreases names
  {
    if names != [] {
      CleanAllFields(OneField(t, ct, prefix + names[0], names[0], Lookup(l, names[0]), Lookup(l, names[0])), names[1..], prefix, ct, l);
    }
  }

  lemma {:induction false} CleanZipped(t: Tally, ct: string, clauses: seq<Clause>, sorted: set<string> -> seq<string>)
    requires Clean(t)
    ensures Clean(Zipped(t, ct, clauses, clauses, sorted))
    decreases clauses
  {
    hide AllFields, COMPARED_FIELDS;
    if clauses != [] {
      var c := clauses[0];
      var t1 := AllFields(t, COMPARED_FIELDS, "", ct, c.fields, c.fields);
      CleanAllFields(t, COMPARED_FIELDS, "", ct, c.fields);
      CleanAllFields(t1, sorted(c.attributes.Keys + c.attributes.Keys), "attributes.", ct, c.attributes);
      CleanZipped(OneClause(t, ct, c, c, sorted), ct, clauses[1..], sorted);
    }
  }

  lemma {:induction false} CleanAllTypes(t: Tally, types: seq<string>, clauses: seq<Clause>, sorted: set<string> -> seq<string>)
    requires Clean(t)
    ensures Clean(AllTypes(t, types, clauses, clauses, sorted))
    decreases types
  {
    hide Zipped, OfType;
    if types != [] {
      CleanZipped(t, types[0], OfType(clauses, types[0]), sorted);
      CleanAllTypes(Zipped(t, types[0], OfType(clauses, types[0]), OfType(clauses, types[0]), sorted), types[1..], clauses, sorted);
    }
  }

  /** A result differs from itself nowhere. */
  lemma SelfComparisonIsClean(r: Extraction, sorted: set<string> -> seq<string>)
    requires sorted({}) == []
    ensures Clean(Compared(r, r, sorted))
  {
    hide AllTypes, Outcomes, Types;
    var b := Types(r.clauses);
    assert b - b == {};
    CleanAllTypes(EMPTY, sorted(b * b), r.clauses, sorted);
    OutcomesTouchOnlyJson(AllTypes(EMPTY, sorted(b * b), r.clauses, r.clauses, sorted), r.valid);
  }

  // ------------------------------------------------------------------ figures over contracts

  /** `_totals` of one of the accuracies that a report holds. */
  function Totals(reports: seq<Tally>, attr: Tally -> Accuracy): Accuracy {
    if reports == [] then NONE else attr(reports[0]).Plus(Totals(reports[1..], attr))
  }

  method ComputeTotals(reports: seq<Tally>, attr: Tally -> Accuracy) returns (total: Accuracy)
    ensures total == Totals(reports, attr)
  {
    var matched: nat, compared: nat := 0, 0;
    for i := 0 to |reports|
      invariant Accuracy(matched, compared).Plus(Totals(reports[i..], attr)) == Totals(reports, attr)
    {
      assert reports[i..][1..] == reports[i + 1..];
      matched := matched + attr(reports[i]).matched;
      compared := compared + attr(reports[i]).total;
    }
    total := Accuracy(matched, compared);
  }

  /** Python's round to a whole number: ties go to the even neighbour. */
  function HalfEven(x: real): int {
    var floor := x.Floor;
    var part := x - floor as real;
    if part < 0.5 then floor
    else if part > 0.5 then floor + 1
    else if floor % 2 == 0 then floor else floor + 1
  }

  /** round((1 - rate) * 100, 4), in ten-thousandths of a percent. */
  function RegressionTicks(a: Accuracy): int {
    HalfEven((1.0 - a.Rate()) * 100.0 * 10000.0)
  }

  lemma RoundsToZero(x: real)
    requires x >= 0.0
    ensures HalfEven(x) == 0 <==> x <= 0.5
  {
  }

  lemma RoundsToNearest(x: real)
    ensures -0.5 <= HalfEven(x) as real - x <= 0.5
    ensures HalfEven(x) as real - x == 0.5 || HalfEven(x) as real - x == -0.5 ==> HalfEven(x) % 2 == 0
  {
  }

  /** The figure is the share of failed comparisons in ten-thousandths of a percent, to the
      nearest one. */
  lemma RegressionIsNearest(a: Accuracy)
    requires a.matched <= a.total && a.total > 0
    ensures var t, missed := a.total as real, (a.total - a.matched) as real;
            -t <= 2.0 * (RegressionTicks(a) as real * t - 1_000_000.0 * missed) <= t
  {
    hide HalfEven;
    var gap, t, missed := 1.0 - a.Rate(), a.total as real, (a.total - a.matched) as real;
    MismatchRate(a);
    var x := gap * 100.0 * 10000.0;
    RoundsToNearest(x);
    ScaleBoth(gap, t, missed);
    var ticks := RegressionTicks(a);
    assert ticks == HalfEven(x);
    hide *;
    WithinHalf(ticks as real, x, t, 1_000_000.0 * missed);
  }

  lemma ScaleBoth(gap: real, t: real, missed: real)
    requires gap * t == missed
    ensures (gap * 100.0 * 10000.0) * t == 1_000_000.0 * missed
  {
  }

  lemma NoNegativeProduct(a: real, b: real)
    requires a >= 0.0 && b >= 0.0
    ensures a * b >= 0.0
  {
  }

  lemma WithinHalf(ticks: real, x: real, t: real, y: real)
    requires t > 0.0 && -0.5 <= ticks - x <= 0.5 && x * t == y
    ensures -t <= 2.0 * (ticks * t - y) <= t
  {
    var d := ticks - x;
    assert ticks * t - y == d * t;
    NoNegativeProduct(0.5 - d, t);
    NoNegativeProduct(0.5 + d, t);
    assert (0.5 - d) * t == 0.5 * t - d * t && (0.5 + d) * t == 0.5 * t + d * t;
  }

  lemma MismatchRate(a: Accuracy)
    requires a.matched <= a.total && a.total > 0
    ensures (1.0 - a.Rate()) * a.total as real == (a.total - a.matched) as real
    ensures 1.0 - a.Rate() >= 0.0
  {
    var t := a.total as real;
    assert a.Rate() * t == a.matched as real;
    assert 1.0 - a.Rate() < 0.0 ==> (1.0 - a.Rate()) * t < 0.0;
  }

  /** The abort figure reads zero exactly when fewer than one field in two million differs,
      the tie included: below two million comparisons it is zero iff no field differs. */
  lemma RegressionIsZeroWhen(a: Accuracy)
    requires a.matched <= a.total
    ensures RegressionTicks(a) == 0 <==> 2_000_000 * (a.total - a.matched) <= a.total
    ensures a.total < 2_000_000 ==> (RegressionTicks(a) == 0 <==> a.matched == a.total)
  {
    hide HalfEven;
    assert a.total == 0 ==> RegressionTicks(a) == 0 by { RoundsToZero(0.0); }
    if a.total > 0 {
      MismatchRate(a);
      TicksOf(1.0 - a.Rate());
      GapTest(1.0 - a.Rate(), a.total - a.matched, a.total);
    }
  }

  lemma TicksOf(gap: real)
    requires gap >= 0.0
    ensures HalfEven(gap * 100.0 * 10000.0) == 0 <==> gap <= 1.0 / 2_000_000.0
  {
    RoundsToZero(gap * 100.0 * 10000.0);
  }

  lemma GapTest(gap: real, missed: nat, total: nat)
    requires total > 0 && gap * total as real == missed as real
    ensures gap <= 1.0 / 2_000_000.0 <==> 2_000_000 * missed <= total
  {
    ScaleUp(gap, total as real);
    assert (2_000_000 * missed) as real == 2_000_000.0 * missed as real;
  }

  lemma ScaleUp(gap: real, t: real)
    requires t > 0.0
    ensures gap <= 1.0 / 2_000_000.0 <==> 2_000_000.0 * (gap * t) <= t
  {
    if gap <= 1.0 / 2_000_000.0 {
      assert gap * t <= (1.0 / 2_000_000.0) * t;
    } else {
      assert gap * t > (1.0 / 2_000_000.0) * t;
    }
  }

  function Fields(t: Tally): Accuracy {
    t.fields
  }

  function Mismatches(reports: seq<Tally>): nat
    requires forall t :: t in reports ==> Balanced(t)
  {
    if reports == [] then 0
    else
      assert Balanced(reports[0]);
      (reports[0].fields.total - reports[0].fields.matched) + Mismatches(reports[1..])
  }

  lemma {:induction false} TotalsAddUp(reports: seq<Tally>)
    requires forall t :: t in reports ==> Balanced(t)
    ensures Totals(reports, Fields).matched + Mismatches(reports) == Totals(reports, Fields).total
    ensures Mismatches(reports) == 0 <==> forall t :: t in reports ==> t.fields.matched == t.fields.total
  {
    if reports != [] {
      TotalsAddUp(reports[1..]);
      assert reports == [reports[0]] + reports[1..] && Balanced(reports[0]);
    }
  }

  /** The reports of a list of contracts, each a baseline with its candidate. */
  function Reports(contracts: seq<(Extraction, Extraction)>, sorted: set<string> -> seq<string>): seq<Tally> {
    if contracts == [] then []
    else [Compared(contracts[0].0, contracts[0].1, sorted)] + Reports(contracts[1..], sorted)
  }

  lemma {:induction false} ReportsBalance(contracts: seq<(Extraction, Extraction)>, sorted: set<string> -> seq<string>)
    ensures forall t :: t in Reports(contracts, sorted) ==> Balanced(t)
  {
    if contracts != [] {
      DiffsBalance(contracts[0].0, contracts[0].1, sorted);
      ReportsBalance(contracts[1..], sorted);
    }
  }

  /** `regression_pct` of any list of contracts reads zero exactly when at most one compared
      field in two million differs; below two million comparisons, exactly when no field of
      any contract differs. */
  lemma RegressionOfContracts(contracts: seq<(Extraction, Extraction)>, sorted: set<string> -> seq<string>)
    ensures forall t :: t in Reports(contracts, sorted) ==> Balanced(t)
    ensures var reports := Reports(contracts, sorted);
            var total := Totals(reports, Fields);
            && total.matched <= total.total
            && (RegressionTicks(total) == 0 <==> 2_000_000 * Mismatches(reports) <= total.total)
            && (total.total < 2_000_000 ==>
                  (RegressionTicks(total) == 0 <==> forall t :: t in reports ==> t.fields.matched == t.fields.total))
  {
    hide RegressionTicks, Reports, Balanced;
    var reports := Reports(contracts, sorted);
    ReportsBalance(contracts, sorted);
    TotalsAddUp(reports);
    RegressionIsZeroWhen(Totals(reports, Fields));
  }

  // ---- differences by clause and by field

  function AllDiffs(reports: seq<Tally>): seq<FieldDiff> {
    if reports == [] then [] else reports[0].diffs + AllDiffs(reports[1..])
  }

  function Count(ds: seq<FieldDiff>, key: FieldDiff -> string, k: string): nat {
    if ds == [] then 0 else (if key(ds[0]) == k then 1 else 0) + Count(ds[1..], key, k)
  }

  /** The place of the first difference with a key. */
  function First(ds: seq<FieldDiff>, key: FieldDiff -> string, k: string): nat {
    if ds == [] || key(ds[0]) == k then 0 else 1 + First(ds[1..], key, k)
  }

  /** One line of the result, a dict that keeps its order. */
  datatype Item = Item(key: string, count: nat)

  function Total(items: seq<Item>): nat {
    if items == [] then 0 else items[0].count + Total(items[1..])
  }

  /** The larger count comes first, and of equal ones the key that appeared first. */
  predicate Ahead(a: Item, b: Item, ds: seq<FieldDiff>, key: FieldDiff -> string) {
    a.count > b.count || (a.count == b.count && First(ds, key, a.key) < First(ds, key, b.key))
  }

  predicate Ranked(items: seq<Item>, ds: seq<FieldDiff>, key: FieldDiff -> string) {
    forall i, j :: 0 <= i < j < |items| ==> Ahead(items[i], items[j], ds, key)
  }

  /** Each key with the number of its differences, no key twice and no other key, in the
      order above, the counts adding up to all differences. */
  ghost predicate Breakdown(items: seq<Item>, ds: seq<FieldDiff>, key: FieldDiff -> string) {
    && (forall i :: 0 <= i < |items| ==> items[i].count == Count(ds, key, items[i].key) > 0)
    && (forall k :: Count(ds, key, k) > 0 ==> Item(k, Count(ds, key, k)) in items)
    && Ranked(items, ds, key)
    && Total(items) == |ds|
  }

  /** `_per_clause` and `_per_field`. */
  method CountBy(reports: seq<Tally>, key: FieldDiff -> string) returns (items: seq<Item>)
    ensures Breakdown(items, AllDiffs(reports), key)
  {
    hide Count, KeysFrom, Breakdown;
    ghost var all := AllDiffs(reports);
    var counts: map<string, nat>, order: seq<string> := map[], [];
    for i := 0 to |reports|
      invariant forall k :: At(counts, k) + Count(AllDiffs(reports[i..]), key, k) == Count(all, key, k)
      invariant KeysFrom(AllDiffs(reports[i..]), key, order) == KeysFrom(all, key, [])
      invariant forall k :: k in order ==> k in counts
    {
      assert reports[i..][0] == reports[i] && reports[i..][1..] == reports[i + 1..];
      counts, order := CountReport(reports[i].diffs, AllDiffs(reports[i + 1..]), key, counts, order);
    }
    forall k { CountOfNone(key, k); }
    assert order == KeysFrom(all, key, []) by { KeysOfNone(key, order); }
    assert forall k :: At(counts, k) == Count(all, key, k);
    var listed := seq(|order|, i requires 0 <= i < |order| && order[i] in counts => Item(order[i], counts[order[i]]));
    items := ByCount(listed);
    BreakdownIsRight(all, key, order, listed);
  }

  method CountReport(ds: seq<FieldDiff>, ghost rest: seq<FieldDiff>, key: FieldDiff -> string, start: map<string, nat>, seen: seq<string>)
    returns (counts: map<string, nat>, order: seq<string>)
    requires forall k :: k in seen ==> k in start
    ensures forall k :: At(counts, k) + Count(rest, key, k) == At(start, k) + Count(ds + rest, key, k)
    ensures KeysFrom(rest, key, order) == KeysFrom(ds + rest, key, seen)
    ensures forall k :: k in order ==> k in counts
  {
    hide Count, KeysFrom;
    counts, order := start, seen;
    assert ds[0..] == ds;
    for j := 0 to |ds|
      invariant forall k :: At(counts, k) + Count(ds[j..] + rest, key, k) == At(start, k) + Count(ds + rest, key, k)
      invariant KeysFrom(ds[j..] + rest, key, order) == KeysFrom(ds + rest, key, seen)
      invariant forall k :: k in order ==> k in counts
    {
      forall k { CountFirst(ds[j..] + rest, key, k); }
      KeysFirst(ds[j..] + rest, key, order);
      assert (ds[j..] + rest)[0] == ds[j] && (ds[j..] + rest)[1..] == ds[j + 1..] + rest;
      if key(ds[j]) !in order { order := order + [key(ds[j])]; }
      counts := counts[key(ds[j]) := At(counts, key(ds[j])) + 1];
    }
    assert ds[|ds|..] + rest == rest;
  }

  function At(counts: map<string, nat>, k: string): nat {
    if k in counts then counts[k] else 0
  }

  /** The keys in the order of their first differences, after those already seen. */
  function KeysFrom(ds: seq<FieldDiff>, key: FieldDiff -> string, seen: seq<string>): seq<string>
    decreases ds
  {
    if ds == [] then seen else KeysFrom(ds[1..], key, if key(ds[0]) in seen then seen else seen + [key(ds[0])])
  }

  ghost predicate Distinct<T>(items: seq<T>) {
    forall i, j :: 0 <= i < j < |items| ==> items[i] != items[j]
  }

  lemma {:induction false} KeysFromAre(ds: seq<FieldDiff>, key: FieldDiff -> string, seen: seq<string>)
    requires Distinct(seen)
    ensures var keys := KeysFrom(ds, key, seen);
            && Distinct(keys) && seen <= keys
            && (forall k :: k in keys <==> k in seen || Count(ds, key, k) > 0)
            && (forall i, j :: |seen| <= i < j < |keys| ==> First(ds, key, keys[i]) < First(ds, key, keys[j]))
    decreases ds
  {
    if ds != [] {
      KeysFromAre(ds[1..], key, if key(ds[0]) in seen then seen else seen + [key(ds[0])]);
    }
  }

  lemma KeysFirst(ds: seq<FieldDiff>, key: FieldDiff -> string, seen: seq<string>)
    requires ds != []
    ensures KeysFrom(ds, key, seen) == KeysFrom(ds[1..], key, if key(ds[0]) in seen then seen else seen + [key(ds[0])])
  {
  }

  lemma KeysOfNone(key: FieldDiff -> string, seen: seq<string>)
    ensures KeysFrom([], key, seen) == seen
  {
  }

  lemma CountFirst(ds: seq<FieldDiff>, key: FieldDiff -> string, k: string)
    requires ds != []
    ensures Count(ds, key, k) == (if key(ds[0]) == k then 1 else 0) + Count(ds[1..], key, k)
  {
  }

  lemma CountOfNone(key: FieldDiff -> string, k: string)
    ensures Count([], key, k) == 0
  {
  }

  // ---- Python's stable sort by falling count

  function Placed(x: Item, items: seq<Item>): seq<Item> {
    if items == [] || x.count >= items[0].count then [x] + items else [items[0]] + Placed(x, items[1..])
  }

  function ByCount(items: seq<Item>): seq<Item> {
    if items == [] then [] else Placed(items[0], ByCount(items[1..]))
  }

  lemma {:induction false} PlacedRanks(x: Item, items: seq<Item>, ds: seq<FieldDiff>, key: FieldDiff -> string)
    requires Ranked(items, ds, key) && forall y :: y in items ==> First(ds, key, x.key) < First(ds, key, y.key)
    ensures Ranked(Placed(x, items), ds, key)
    ensures forall y :: y in Placed(x, items) <==> y == x || y in items
    ensures Total(Placed(x, items)) == x.count + Total(items)
  {
    hide First;
    if items != [] && x.count < items[0].count {
      PlacedRanks(x, items[1..], ds, key);
      assert items == [items[0]] + items[1..];
      var rest := Placed(x, items[1..]);
      forall y | y in rest
        ensures Ahead(items[0], y, ds, key)
      {
        if y != x { var j :| 0 <= j < |items[1..]| && items[1..][j] == y; assert items[j + 1] == y; }
      }
    }
  }

  lemma {:induction false} ByCountRanks(items: seq<Item>, ds: seq<FieldDiff>, key: FieldDiff -> string)
    requires forall i, j :: 0 <= i < j < |items| ==> First(ds, key, items[i].key) < First(ds, key, items[j].key)
    ensures Ranked(ByCount(items), ds, key)
    ensures forall y :: y in ByCount(items) <==> y in items
    ensures Total(ByCount(items)) == Total(items)
  {
    hide First;
    if items != [] {
      ByCountRanks(items[1..], ds, key);
      assert items == [items[0]] + items[1..];
      PlacedRanks(items[0], ByCount(items[1..]), ds, key);
    }
  }

  /** The counts of different keys that between them cover all differences add up. */
  lemma {:induction false} CountsAddUp(ds: seq<FieldDiff>, key: FieldDiff -> string, keys: seq<string>, items: seq<Item>)
    requires Distinct(keys) && |items| == |keys|
    requires forall i :: 0 <= i < |keys| ==> items[i] == Item(keys[i], Count(ds, key, keys[i]))
    requires forall d :: d in ds ==> key(d) in keys
    ensures Total(items) == |ds|
    decreases |ds|
  {
    if ds == [] {
      NoCounts(items);
    } else {
      var fewer := seq(|keys|, i requires 0 <= i < |keys| => Item(keys[i], Count(ds[1..], key, keys[i])));
      CountsAddUp(ds[1..], key, keys, fewer);
      OneLess(keys, key(ds[0]), items, fewer);
      assert ds[0] in ds;
    }
  }

  lemma {:induction false} NoCounts(items: seq<Item>)
    requires forall x :: x in items ==> x.count == 0
    ensures Total(items) == 0
  {
    if items != [] { NoCounts(items[1..]); }
  }

  lemma {:induction false} OneLess(keys: seq<string>, k: string, items: seq<Item>, fewer: seq<Item>)
    requires Distinct(keys) && |items| == |fewer| == |keys|
    requires forall i :: 0 <= i < |keys| ==> items[i].count == fewer[i].count + (if keys[i] == k then 1 else 0)
    ensures Total(items) == Total(fewer) + (if k in keys then 1 else 0)
  {
    if keys != [] {
      OneLess(keys[1..], k, items[1..], fewer[1..]);
      assert keys == [keys[0]] + keys[1..];
    }
  }

  lemma {:induction false} KeyOfDiffCounts(ds: seq<FieldDiff>, key: FieldDiff -> string, d: FieldDiff)
    requires d in ds
    ensures Count(ds, key, key(d)) > 0
  {
    if d != ds[0] { KeyOfDiffCounts(ds[1..], key, d); }
  }

  lemma BreakdownIsRight(ds: seq<FieldDiff>, key: FieldDiff -> string, order: seq<string>, listed: seq<Item>)
    requires order == KeysFrom(ds, key, []) && |listed| == |order|
    requires forall i :: 0 <= i < |order| ==> listed[i] == Item(order[i], Count(ds, key, order[i]))
    ensures Breakdown(ByCount(listed), ds, key)
  {
    hide Count, First, ByCount, Ranked, Total, KeysFrom;
    KeysFromAre(ds, key, []);
    ByCountRanks(listed, ds, key);
    forall d | d in ds ensures key(d) in order { KeyOfDiffCounts(ds, key, d); }
    CountsAddUp(ds, key, order, listed);
    var items := ByCount(listed);
    forall i | 0 <= i < |items|
      ensures items[i].count == Count(ds, key, items[i].key) > 0
    {
      assert items[i] in listed;
    }
    forall k | Count(ds, key, k) > 0
      ensures Item(k, Count(ds, key, k)) in items
    {
      var i :| 0 <= i < |order| && order[i] == k;
      assert listed[i] in listed;
    }
  }
}
