/** Comparing two extraction results field by field (backend/app/evaluation/extraction_compare.py). */
module Compare {
  import opened Wrappers

  /** A field's value. Number covers int, float and bool, which compare as numbers; Other
      stands for every other value by its equality. */
  datatype Value = Null | Number(n: real) | Other(text: string)

  /** `fields` holds the compared attributes of the clause object; a missing one reads as None. */
  datatype Clause = Clause(clauseType: string, fields: map<string, Value>, attributes: map<string, Value>, evidence: seq<string>)

  /** A pipeline's result; `valid` says of each outcome that it is neither invalid nor an error. */
  datatype Extraction = Extraction(clauses: seq<Clause>, valid: seq<bool>)

  const COMPARED_FIELDS: seq<string> := [
    "clause_type", "title", "text", "summary", "clause_number", "section_id", "section_title",
    "confidence", "validation_score", "review_status", "is_mandatory", "is_risk_flagged", "deviation_score"
  ]
  const FLOAT_FIELDS: set<string> := {"confidence", "validation_score", "deviation_score"}
  const TOLERANCE: real := 0.001

  predicate Equal(name: string, left: Value, right: Value) {
    if name in FLOAT_FIELDS && left.Number? && right.Number? then
      (if left.n >= right.n then left.n - right.n else right.n - left.n) <= TOLERANCE
    else left == right
  }

  function Lookup(m: map<string, Value>, key: string): Value {
    if key in m then m[key] else Null
  }

  datatype Accuracy = Accuracy(matched: nat, total: nat) {
    function Recorded(ok: bool): Accuracy {
      Accuracy(matched + (if ok then 1 else 0), total + 1)
    }
    function Plus(other: Accuracy): Accuracy {
      Accuracy(matched + other.matched, total + other.total)
    }
    function Rate(): real {
      if total != 0 then matched as real / total as real else 1.0
    }
  }

  datatype Side = One(value: Value) | Chunks(ids: seq<string>)
  datatype FieldDiff = FieldDiff(clauseType: string, field: string, baseline: Side, candidate: Side)

  /** The contents of a contract's report. */
  datatype Tally = Tally(
    fields: Accuracy, citations: Accuracy, evidence: Accuracy, nulls: Accuracy, json: Accuracy,
    onlyInBaseline: seq<string>, onlyInCandidate: seq<string>, diffs: seq<FieldDiff>)

  const NONE := Accuracy(0, 0)
  const EMPTY := Tally(NONE, NONE, NONE, NONE, NONE, [], [], [])

  /** One comparison of two values under `path`, judged by the rule for `name`. */
  function OneField(t: Tally, clauseType: string, path: string, name: string, left: Value, right: Value): Tally {
    var ok := Equal(name, left, right);
    t.(fields := t.fields.Recorded(ok),
       nulls := if left.Null? || right.Null? then t.nulls.Recorded(left.Null? && right.Null?) else t.nulls,
       diffs := if ok then t.diffs else t.diffs + [FieldDiff(clauseType, path, One(left), One(right))])
  }

  function AllFields(t: Tally, names: seq<string>, prefix: string, clauseType: string, left: map<string, Value>, right: map<string, Value>): Tally
    decreases names
  {
    if names == [] then t
    else AllFields(OneField(t, clauseType, prefix + names[0], names[0], Lookup(left, names[0]), Lookup(right, names[0])),
                   names[1..], prefix, clauseType, left, right)
  }

  function ChunkSet(c: Clause): set<string> {
    set id | id in c.evidence
  }

  /** Chunk ids as sets for the citation check, the number of references for the evidence check. */
  function Citations(t: Tally, clauseType: string, base: Clause, cand: Clause, sorted: set<string> -> seq<string>): Tally {
    var same := ChunkSet(base) == ChunkSet(cand);
    t.(citations := t.citations.Recorded(same),
       evidence := t.evidence.Recorded(|base.evidence| == |cand.evidence|),
       diffs := if same then t.diffs
                else t.diffs + [FieldDiff(clauseType, "evidence.chunk_ids", Chunks(sorted(ChunkSet(base))), Chunks(sorted(ChunkSet(cand))))])
  }

  function OneClause(t: Tally, clauseType: string, base: Clause, cand: Clause, sorted: set<string> -> seq<string>): Tally {
    var t1 := AllFields(t, COMPARED_FIELDS, "", clauseType, base.fields, cand.fields);
    var t2 := AllFields(t1, sorted(base.attributes.Keys + cand.attributes.Keys), "attributes.", clauseType, base.attributes, cand.attributes);
    Citations(t2, clauseType, base, cand, sorted)
  }

  function OfType(clauses: seq<Clause>, clauseType: string): seq<Clause> {
    if clauses == [] then []
    else (if clauses[0].clauseType == clauseType then [clauses[0]] else []) + OfType(clauses[1..], clauseType)
  }

  function Types(clauses: seq<Clause>): set<string> {
    set c | c in clauses :: c.clauseType
  }

  /** zip(strict=False): clauses beyond the shorter list are not compared. */
  function Zipped(t: Tally, clauseType: string, base: seq<Clause>, cand: seq<Clause>, sorted: set<string> -> seq<string>): Tally
    decreases base
  {
    if base == [] || cand == [] then t
    else Zipped(OneClause(t, clauseType, base[0], cand[0], sorted), clauseType, base[1..], cand[1..], sorted)
  }

  function AllTypes(t: Tally, types: seq<string>, base: seq<Clause>, cand: seq<Clause>, sorted: set<string> -> seq<string>): Tally
    decreases types
  {
    if types == [] then t
    else AllTypes(Zipped(t, types[0], OfType(base, types[0]), OfType(cand, types[0]), sorted), types[1..], base, cand, sorted)
  }

  function Outcomes(t: Tally, valid: seq<bool>): Tally
    decreases valid
  {
    if valid == [] then t else Outcomes(t.(json := t.json.Recorded(valid[0])), valid[1..])
  }

  /** What _compare makes of a fresh report. `sorted` lists a set in a fixed order. */
  function Compared(base: Extraction, cand: Extraction, sorted: set<string> -> seq<string>): Tally {
    var b, c := Types(base.clauses), Types(cand.clauses);
    var start := EMPTY.(onlyInBaseline := sorted(b - c), onlyInCandidate := sorted(c - b));
    Outcomes(AllTypes(start, sorted(b * c), base.clauses, cand.clauses, sorted), cand.valid)
  }

  class ContractReport {
    var fields: Accuracy
    var citations: Accuracy
    var evidence: Accuracy
    var nulls: Accuracy
    var json: Accuracy
    var onlyInBaseline: seq<string>
    var onlyInCandidate: seq<string>
    var diffs: seq<FieldDiff>

    constructor ()
      ensures Contents() == EMPTY
    {
      fields, citations, evidence, nulls, json := NONE, NONE, NONE, NONE, NONE;
      onlyInBaseline, onlyInCandidate, diffs := [], [], [];
    }

    ghost function Contents(): Tally
      reads this
    {
      Tally(fields, citations, evidence, nulls, json, onlyInBaseline, onlyInCandidate, diffs)
    }

    method CompareField(clauseType: string, path: string, name: string, left: Value, right: Value)
      modifies this
      ensures Contents() == OneField(old(Contents()), clauseType, path, name, left, right)
    {
      var ok := Equal(name, left, right);
      fields := fields.Recorded(ok);
      if left.Null? || right.Null? {
        nulls := nulls.Recorded(left.Null? && right.Null?);
      }
      if !ok {
        diffs := diffs + [FieldDiff(clauseType, path, One(left), One(right))];
      }
    }

    method CompareFields(names: seq<string>, prefix: string, clauseType: string, left: map<string, Value>, right: map<string, Value>)
      modifies this
      ensures Contents() == AllFields(old(Contents()), names, prefix, clauseType, left, right)
    {
      hide OneField;
      for i := 0 to |names|
        invariant AllFields(Contents(), names[i..], prefix, clauseType, left, right)
               == AllFields(old(Contents()), names, prefix, clauseType, left, right)
      {
        assert names[i..][0] == names[i] && names[i..][1..] == names[i + 1..];
        CompareField(clauseType, prefix + names[i], names[i], Lookup(left, names[i]), Lookup(right, names[i]));
      }
    }

    method CompareClause(clauseType: string, base: Clause, cand: Clause, sorted: set<string> -> seq<string>)
      modifies this
      ensures Contents() == OneClause(old(Contents()), clauseType, base, cand, sorted)
    {
      hide COMPARED_FIELDS, AllFields, ChunkSet;
      CompareFields(COMPARED_FIELDS, "", clauseType, base.fields, cand.fields);
      CompareFields(sorted(base.attributes.Keys + cand.attributes.Keys), "attributes.", clauseType, base.attributes, cand.attributes);
      var baseChunks, candChunks := ChunkSet(base), ChunkSet(cand);
      citations := citations.Recorded(baseChunks == candChunks);
      evidence := evidence.Recorded(|base.evidence| == |cand.evidence|);
      if baseChunks != candChunks {
        diffs := diffs + [FieldDiff(clauseType, "evidence.chunk_ids", Chunks(sorted(baseChunks)), Chunks(sorted(candChunks)))];
      }
    }

    method ComparePairs(clauseType: string, base: seq<Clause>, cand: seq<Clause>, sorted: set<string> -> seq<string>)
      modifies this
      ensures Contents() == Zipped(old(Contents()), clauseType, base, cand, sorted)
    {
      hide OneClause;
      var n := if |base| <= |cand| then |base| else |cand|;
      for i := 0 to n
        invariant Zipped(Contents(), clauseType, base[i..], cand[i..], sorted)
               == Zipped(old(Contents()), clauseType, base, cand, sorted)
      {
        assert base[i..][0] == base[i] && base[i..][1..] == base[i + 1..];
        assert cand[i..][0] == cand[i] && cand[i..][1..] == cand[i + 1..];
        CompareClause(clauseType, base[i], cand[i], sorted);
      }
    }

    method Compare(base: Extraction, cand: Extraction, sorted: set<string> -> seq<string>)
      requires Contents() == EMPTY
      modifies this
      ensures Contents() == Compared(base, cand, sorted)
    {
      hide Zipped, EMPTY, OfType;
      var baseByType := Index(base.clauses);
      var candByType := Index(cand.clauses);
      onlyInBaseline := sorted(baseByType.Keys - candByType.Keys);
      onlyInCandidate := sorted(candByType.Keys - baseByType.Keys);
      ghost var start := Contents();
      var types := sorted(baseByType.Keys * candByType.Keys);
      for i := 0 to |types|
        invariant AllTypes(Contents(), types[i..], base.clauses, cand.clauses, sorted)
               == AllTypes(start, types, base.clauses, cand.clauses, sorted)
      {
        assert types[i..][0] == types[i] && types[i..][1..] == types[i + 1..];
        ComparePairs(types[i], Of(baseByType, types[i]), Of(candByType, types[i]), sorted);
      }
      ghost var compared := Contents();
      for i := 0 to |cand.valid|
        invariant Outcomes(Contents(), cand.valid[i..]) == Outcomes(compared, cand.valid)
      {
        assert cand.valid[i..][0] == cand.valid[i] && cand.valid[i..][1..] == cand.valid[i + 1..];
        json := json.Recorded(cand.valid[i]);
      }
    }
  }

  function Of(grouped: map<string, seq<Clause>>, clauseType: string): seq<Clause> {
    if clauseType in grouped then grouped[clauseType] else []
  }

  /** `_index` */
  method Index(clauses: seq<Clause>) returns (grouped: map<string, seq<Clause>>)
    ensures grouped.Keys == Types(clauses)
    ensures forall ct :: Of(grouped, ct) == OfType(clauses, ct)
  {
    hide OfType;
    grouped := map[];
    for i := 0 to |clauses|
      invariant forall ct :: Of(grouped, ct) + OfType(clauses[i..], ct) == OfType(clauses, ct)
      invariant grouped.Keys == Types(clauses[..i])
    {
      var ct := clauses[i].clauseType;
      forall x { Regrouped(grouped, clauses, i, x); }
      OneMoreType(clauses, i);
      grouped := grouped[ct := Of(grouped, ct) + [clauses[i]]];
    }
    assert clauses[..|clauses|] == clauses;
    forall ct { NoneLeft(clauses, Of(grouped, ct), ct); }
  }

  lemma OneMoreType(clauses: seq<Clause>, i: nat)
    requires i < |clauses|
    ensures Types(clauses[..i + 1]) == Types(clauses[..i]) + {clauses[i].clauseType}
  {
    assert clauses[..i + 1] == clauses[..i] + [clauses[i]];
    assert clauses[i] in clauses[..i + 1];
  }

  lemma NoneLeft(clauses: seq<Clause>, found: seq<Clause>, ct: string)
    ensures found + OfType(clauses[|clauses|..], ct) == found
  {
  }

  lemma Regrouped(grouped: map<string, seq<Clause>>, clauses: seq<Clause>, i: nat, ct: string)
    requires i < |clauses|
    ensures Of(grouped, ct) + OfType(clauses[i..], ct)
            == Of(grouped, ct) + (if clauses[i].clauseType == ct then [clauses[i]] else []) + OfType(clauses[i + 1..], ct)
  {
    assert clauses[i..][0] == clauses[i] && clauses[i..][1..] == clauses[i + 1..];
  }
}
