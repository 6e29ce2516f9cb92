/** Splitting an SQL script into statements (`_split_sql`, backend/app/cli.py), over
    Python's own splitlines, strip and count. */
module SplitSql {
  import opened Text

  /** The characters str.splitlines breaks at. */
  predicate IsBreak(c: char) {
    c == '\n' || c == '\r' || '\U{000B}' <= c <= '\U{000C}' || '\U{001C}' <= c <= '\U{001E}' ||
    c == '\U{0085}' || '\U{2028}' <= c <= '\U{2029}'
  }

  /** The characters str.strip removes. */
  predicate IsSpace(c: char) {
    IsBreak(c) || c == ' ' || c == '\t' || c == '\U{001F}' || c == '\U{00A0}' || c == '\U{1680}' ||
    '\U{2000}' <= c <= '\U{200A}' || c == '\U{202F}' || c == '\U{205F}' || c == '\U{3000}'
  }

  predicate AllSpace(s: string) {
    forall i :: 0 <= i < |s| ==> IsSpace(s[i])
  }

  predicate NoBreak(s: string) {
    forall i :: 0 <= i < |s| ==> !IsBreak(s[i])
  }

  /** The length of the first line. */
  function LineEnd(s: string): (n: nat)
    ensures n <= |s| && NoBreak(s[..n]) && (n < |s| ==> IsBreak(s[n]))
  {
    if s == "" || IsBreak(s[0]) then 0 else 1 + LineEnd(s[1..])
  }

  /** str.splitlines: a final break adds no empty line, and "\r\n" is one break. */
  function SplitLines(s: string): seq<string>
    decreases |s|
  {
    if s == "" then []
    else
      var n := LineEnd(s);
      if n == |s| then [s]
      else [s[..n]] + SplitLines(s[n + (if s[n] == '\r' && n + 1 < |s| && s[n + 1] == '\n' then 2 else 1)..])
  }

  function LStrip(s: string): string {
    if s == "" || !IsSpace(s[0]) then s else LStrip(s[1..])
  }

  function RStrip(s: string): string {
    if s == "" || !IsSpace(s[|s| - 1]) then s else RStrip(s[..|s| - 1])
  }

  function Strip(s: string): string {
    RStrip(LStrip(s))
  }

  /** str.count("$$"): occurrences that do not overlap, from the left. */
  function Dollars(s: string): nat {
    if |s| < 2 then 0
    else if s[0] == '$' && s[1] == '$' then 1 + Dollars(s[2..])
    else Dollars(s[1..])
  }

  predicate Odd(line: string) {
    Dollars(line) % 2 == 1
  }

  predicate Skippable(line: string) {
    Strip(line) == "" || "--" <= Strip(line)
  }

  predicate EndsStatement(line: string) {
    var stripped := Strip(line);
    stripped != "" && stripped[|stripped| - 1] == ';'
  }

  /** Whether the scanner is inside a dollar-quoted body after a line. */
  predicate After(line: string, inDollar: bool) {
    if Odd(line) then !inDollar else inDollar
  }

  predicate Cut(line: string, inDollar: bool) {
    !After(line, inDollar) && EndsStatement(line)
  }

  /** The lines of each statement. */
  function Groups(lines: seq<string>, current: seq<string>, inDollar: bool): seq<seq<string>>
    decreases lines
  {
    if lines == [] then (if current == [] then [] else [current])
    else if !inDollar && Skippable(lines[0]) then Groups(lines[1..], current, inDollar)
    else if Cut(lines[0], inDollar) then [current + [lines[0]]] + Groups(lines[1..], [], After(lines[0], inDollar))
    else Groups(lines[1..], current + [lines[0]], After(lines[0], inDollar))
  }

  function Statement(group: seq<string>): string {
    Strip(Join(group, "\n"))
  }

  function Statements(groups: seq<seq<string>>): seq<string> {
    if groups == [] then [] else [Statement(groups[0])] + Statements(groups[1..])
  }

  function NonEmpty(texts: seq<string>): seq<string> {
    if texts == [] then []
    else (if texts[0] != "" then [texts[0]] else []) + NonEmpty(texts[1..])
  }

  function SplitScript(sql: string): seq<string> {
    NonEmpty(Statements(Groups(SplitLines(sql), [], false)))
  }

  method Split(sql: string) returns (result: seq<string>)
    ensures result == SplitScript(sql)
  {
    hide SplitLines, Strip, Dollars, Join, Groups, Statements, After, Cut, Statement;
    var lines := SplitLines(sql);
    var statements: seq<string>, current: seq<string>, inDollar := [], [], false;
    for i := 0 to |lines|
      invariant statements + Statements(Groups(lines[i..], current, inDollar)) == Statements(Groups(lines, [], false))
    {
      assert lines[i..][0] == lines[i] && lines[i..][1..] == lines[i + 1..];
      ScanLine(lines[i..], current, inDollar);
      var line := lines[i];
      var stripped := Strip(line);
      if !inDollar && (stripped == "" || "--" <= stripped) { continue; }
      if Dollars(line) % 2 == 1 { inDollar := !inDollar; }
      current := current + [line];
      if !inDollar && stripped != "" && stripped[|stripped| - 1] == ';' {
        statements := statements + [Strip(Join(current, "\n"))];
        current := [];
      }
    }
    EndOfScript(lines, current, inDollar);
    assert statements + [] == statements;
    if current != [] {
      statements := statements + [Strip(Join(current, "\n"))];
    }
    result := Filtered(statements);
  }

  /** One turn of the scanner's loop, at the level of statement texts. */
  lemma ScanLine(lines: seq<string>, current: seq<string>, inDollar: bool)
    requires lines != []
    ensures var stripped := Strip(lines[0]);
            var d := if Dollars(lines[0]) % 2 == 1 then !inDollar else inDollar;
            Statements(Groups(lines, current, inDollar)) ==
            if !inDollar && (stripped == "" || "--" <= stripped) then Statements(Groups(lines[1..], current, inDollar))
            else if !d && stripped != "" && stripped[|stripped| - 1] == ';' then
              [Strip(Join(current + [lines[0]], "\n"))] + Statements(Groups(lines[1..], [], d))
            else Statements(Groups(lines[1..], current + [lines[0]], d))
  {
    hide Strip, Dollars, Join;
    var rest := Groups(lines[1..], [], After(lines[0], inDollar));
    assert ([current + [lines[0]]] + rest)[1..] == rest;
  }

  lemma EndOfScript(lines: seq<string>, current: seq<string>, inDollar: bool)
    ensures Statements(Groups(lines[|lines|..], current, inDollar))
            == if current == [] then [] else [Strip(Join(current, "\n"))]
  {
    hide Strip, Join;
    assert [current][1..] == [];
  }

  method Filtered(texts: seq<string>) returns (kept: seq<string>)
    ensures kept == NonEmpty(texts)
  {
    hide NonEmpty;
    assert texts[0..] == texts;
    kept := [];
    for i := 0 to |texts|
      invariant kept + NonEmpty(texts[i..]) == NonEmpty(texts)
    {
      NonEmptyFrom(texts, i);
      if texts[i] != "" { kept := kept + [texts[i]]; }
    }
    NothingMore(texts);
  }

  lemma NonEmptyFrom(texts: seq<string>, i: nat)
    requires i < |texts|
    ensures NonEmpty(texts[i..]) == (if texts[i] != "" then [texts[i]] else []) + NonEmpty(texts[i + 1..])
  {
    assert texts[i..][0] == texts[i] && texts[i..][1..] == texts[i + 1..];
  }

  lemma NothingMore(texts: seq<string>)
    ensures NonEmpty(texts[|texts|..]) == []
  {
  }

  // ------------------------------------------------------------------ what the groups hold

  /** The lines that are not skipped. */
  function Kept(lines: seq<string>, inDollar: bool): seq<string> {
    if lines == [] then []
    else if !inDollar && Skippable(lines[0]) then Kept(lines[1..], inDollar)
    else [lines[0]] + Kept(lines[1..], After(lines[0], inDollar))
  }

  function Flatten(groups: seq<seq<string>>): seq<string> {
    if groups == [] then [] else groups[0] + Flatten(groups[1..])
  }

  /** No line of the group would be skipped and none ends it. */
  predicate Runs(group: seq<string>, inDollar: bool) {
    group == [] ||
    (!(!inDollar && Skippable(group[0])) && !Cut(group[0], inDollar) && Runs(group[1..], After(group[0], inDollar)))
  }

  predicate AfterAll(group: seq<string>, inDollar: bool) {
    if group == [] then inDollar else AfterAll(group[1..], After(group[0], inDollar))
  }

  /** No line would be skipped, the last one ends the group at even parity, no earlier one does. */
  predicate Closed(group: seq<string>, inDollar: bool) {
    && group != []
    && !(!inDollar && Skippable(group[0]))
    && if |group| == 1 then Cut(group[0], inDollar)
       else !Cut(group[0], inDollar) && Closed(group[1..], After(group[0], inDollar))
  }

  /** A list of statements: all closed, the last perhaps still open. */
  predicate WellSplit(groups: seq<seq<string>>) {
    groups == [] ||
    if |groups| == 1 then Closed(groups[0], false) || (groups[0] != [] && Runs(groups[0], false))
    else Closed(groups[0], false) && WellSplit(groups[1..])
  }

  lemma {:induction false} RunsThenLine(group: seq<string>, line: string, d: bool)
    requires Runs(group, d) && !(!AfterAll(group, d) && Skippable(line))
    ensures if Cut(line, AfterAll(group, d)) then Closed(group + [line], d) else Runs(group + [line], d)
    ensures AfterAll(group + [line], d) == After(line, AfterAll(group, d))
  {
    hide Skippable, Cut, After;
    if group == [] {
      assert (group + [line])[1..] == [];
    } else {
      assert (group + [line])[1..] == group[1..] + [line];
      RunsThenLine(group[1..], line, After(group[0], d));
    }
  }

  lemma {:induction false} GroupsAreWellSplit(lines: seq<string>, current: seq<string>, d: bool)
    requires Runs(current, false) && AfterAll(current, false) == d
    ensures WellSplit(Groups(lines, current, d))
    ensures Flatten(Groups(lines, current, d)) == current + Kept(lines, d)
    decreases lines
  {
    hide Skippable, Runs, Closed, Dollars, EndsStatement;
    if lines == [] {
      if current != [] {
        assert Flatten([current]) == current + Flatten([current][1..]);
      }
    } else if !d && Skippable(lines[0]) {
      GroupsAreWellSplit(lines[1..], current, d);
    } else {
      RunsThenLine(current, lines[0], false);
      if Cut(lines[0], d) {
        NothingRuns();
        GroupsAreWellSplit(lines[1..], [], After(lines[0], d));
        var rest := Groups(lines[1..], [], After(lines[0], d));
        assert ([current + [lines[0]]] + rest)[1..] == rest;
        assert (current + [lines[0]]) + Kept(lines[1..], After(lines[0], d)) == current + Kept(lines, d);
      } else {
        GroupsAreWellSplit(lines[1..], current + [lines[0]], After(lines[0], d));
        assert (current + [lines[0]]) + Kept(lines[1..], After(lines[0], d)) == current + Kept(lines, d);
      }
    }
  }

  lemma NothingRuns()
    ensures Runs([], false) && AfterAll([], false) == false
  {
  }

  // ------------------------------------------------------------------ stripping

  lemma {:induction false} LStripKeeps(s: string)
    ensures LStrip(s) == "" <==> AllSpace(s)
    ensures LStrip(s) != "" ==> !IsSpace(LStrip(s)[0])
    ensures NoBreak(s) ==> NoBreak(LStrip(s))
    ensures Dollars(LStrip(s)) == Dollars(s)
  {
    if s != "" && IsSpace(s[0]) {
      LStripKeeps(s[1..]);
      assert AllSpace(s[1..]) ==> AllSpace(s);
    }
  }

  lemma {:induction false} RStripKeeps(s: string)
    ensures RStrip(s) == "" <==> AllSpace(s)
    ensures RStrip(s) != "" ==> !IsSpace(RStrip(s)[|RStrip(s)| - 1]) && RStrip(s)[0] == s[0]
    ensures NoBreak(s) ==> NoBreak(RStrip(s))
    ensures Dollars(RStrip(s)) == Dollars(s)
  {
    hide IsBreak, Dollars;
    if s != "" && IsSpace(s[|s| - 1]) {
      RStripKeeps(s[..|s| - 1]);
      DropLast(s);
      assert AllSpace(s[..|s| - 1]) ==> AllSpace(s);
    }
  }

  lemma {:induction false} DropLast(s: string)
    requires s != "" && IsSpace(s[|s| - 1])
    ensures Dollars(s[..|s| - 1]) == Dollars(s)
    decreases |s|
  {
    var t := s[..|s| - 1];
    if |s| == 2 {
      assert Dollars(s[1..]) == 0;
    } else if |s| > 2 {
      if s[0] == '$' && s[1] == '$' {
        assert s[2..][..|s| - 3] == t[2..];
        DropLast(s[2..]);
      } else {
        assert s[1..][..|s| - 2] == t[1..];
        DropLast(s[1..]);
      }
    }
  }

  lemma {:induction false} RStripConcat(a: string, b: string)
    ensures RStrip(a + b) == if AllSpace(b) then RStrip(a) else a + RStrip(b)
    decreases |b|
  {
    if b == "" {
      assert a + b == a;
    } else {
      var front := b[..|b| - 1];
      assert (a + b)[..|a + b| - 1] == a + front;
      RStripConcat(a, front);
      assert AllSpace(b) <==> AllSpace(front) && IsSpace(b[|b| - 1]);
    }
  }

  lemma {:induction false} LStripConcat(a: string, b: string)
    requires !AllSpace(a)
    ensures LStrip(a + b) == LStrip(a) + b
  {
    if IsSpace(a[0]) {
      assert (a + b)[1..] == a[1..] + b;
      assert AllSpace(a[1..]) ==> AllSpace(a);
      LStripConcat(a[1..], b);
    }
  }

  lemma {:induction false} StripCommutes(s: string)
    ensures Strip(LStrip(s)) == Strip(s) && Strip(RStrip(s)) == Strip(s)
    ensures Strip(s) == "" <==> AllSpace(s)
  {
    LStripKeeps(s);
    RStripKeeps(s);
    LStripKeeps(LStrip(s));
    if AllSpace(s) {
      assert RStrip(s) == "" && LStrip(s) == "";
    } else {
      RStripTwice(s);
      RStripKeeps(LStrip(s));
      LStripRStrip(s);
    }
  }

  lemma {:induction false} RStripTwice(s: string)
    ensures RStrip(RStrip(s)) == RStrip(s)
  {
    RStripKeeps(s);
  }

  lemma {:induction false} LStripRStrip(s: string)
    requires !AllSpace(s)
    ensures LStrip(RStrip(s)) == RStrip(LStrip(s))
  {
    if IsSpace(s[0]) {
      assert AllSpace(s[1..]) ==> AllSpace(s);
      LStripRStrip(s[1..]);
      RStripConcat([s[0]], s[1..]);
      assert [s[0]] + s[1..] == s;
      assert RStrip(s) == [s[0]] + RStrip(s[1..]);
      assert RStrip(s)[1..] == RStrip(s[1..]);
    } else {
      RStripKeeps(s);
    }
  }

  // ------------------------------------------------------------------ a statement's own lines

  predicate AllBlank(group: seq<string>) {
    forall i :: 0 <= i < |group| ==> AllSpace(group[i])
  }

  function TrimEnd(group: seq<string>): (g: seq<string>)
    requires group != []
    ensures g != []
  {
    if AllBlank(group[1..]) then [RStrip(group[0])] else [group[0]] + TrimEnd(group[1..])
  }

  /** The lines of a statement's text: outer whitespace gone, blank last lines with it. */
  function Trim(group: seq<string>): (g: seq<string>)
    requires group != []
    ensures g != []
  {
    TrimEnd([LStrip(group[0])] + group[1..])
  }

  lemma {:induction false} JoinIsBlank(group: seq<string>)
    ensures AllSpace(Join(group, "\n")) <==> AllBlank(group)
  {
    if |group| > 1 {
      JoinIsBlank(group[1..]);
      var head, tail := group[0] + "\n", Join(group[1..], "\n");
      assert Join(group, "\n") == head + tail;
      assert AllSpace(head + tail) <==> AllSpace(head) && AllSpace(tail) by { SpaceConcat(head, tail); }
      assert AllSpace(head) <==> AllSpace(group[0]) by { SpaceConcat(group[0], "\n"); }
      assert AllBlank(group) <==> AllSpace(group[0]) && AllBlank(group[1..]);
    }
  }

  lemma SpaceConcat(a: string, b: string)
    ensures AllSpace(a + b) <==> AllSpace(a) && AllSpace(b)
  {
    if AllSpace(a + b) {
      assert forall i :: 0 <= i < |a| ==> (a + b)[i] == a[i];
      assert forall i :: 0 <= i < |b| ==> (a + b)[|a| + i] == b[i];
    }
  }

  lemma OneBreak()
    ensures AllSpace("\n") && AllSpace("")
  {
  }

  lemma {:induction false} JoinTrimsEnd(group: seq<string>)
    requires group != []
    ensures RStrip(Join(group, "\n")) == Join(TrimEnd(group), "\n")
  {
    hide AllSpace, RStrip;
    assert AllSpace("\n") by { OneBreak(); }
    if |group| > 1 {
      var rest := Join(group[1..], "\n");
      assert Join(group, "\n") == group[0] + ("\n" + rest);
      RStripConcat(group[0], "\n" + rest);
      RStripConcat("\n", rest);
      SpaceConcat("\n", rest);
      JoinIsBlank(group[1..]);
      if !AllBlank(group[1..]) {
        JoinTrimsEnd(group[1..]);
        assert TrimEnd(group)[1..] == TrimEnd(group[1..]);
        assert Join(TrimEnd(group), "\n") == group[0] + "\n" + Join(TrimEnd(group[1..]), "\n");
      }
    }
  }

  lemma StatementIsTrimmed(group: seq<string>)
    requires group != [] && !AllSpace(group[0])
    ensures Statement(group) == Join(Trim(group), "\n")
  {
    var tight := [LStrip(group[0])] + group[1..];
    assert tight[1..] == group[1..];
    if |group| > 1 {
      var rest := "\n" + Join(group[1..], "\n");
      assert Join(group, "\n") == group[0] + rest;
      LStripConcat(group[0], rest);
      assert Join(tight, "\n") == LStrip(group[0]) + rest;
    }
    JoinTrimsEnd(tight);
  }

  // ---- the scanner cannot tell a trimmed line from the line

  lemma SameToScanner(a: string, b: string, d: bool)
    requires Strip(a) == Strip(b) && Dollars(a) == Dollars(b)
    ensures Skippable(a) == Skippable(b) && Cut(a, d) == Cut(b, d) && After(a, d) == After(b, d)
  {
  }

  lemma RStripUnseen(s: string, d: bool)
    ensures Skippable(RStrip(s)) == Skippable(s) && Cut(RStrip(s), d) == Cut(s, d) && After(RStrip(s), d) == After(s, d)
  {
    RStripKeeps(s);
    StripCommutes(s);
    SameToScanner(RStrip(s), s, d);
  }

  lemma LStripUnseen(s: string, d: bool)
    ensures Skippable(LStrip(s)) == Skippable(s) && Cut(LStrip(s), d) == Cut(s, d) && After(LStrip(s), d) == After(s, d)
  {
    LStripKeeps(s);
    StripCommutes(s);
    SameToScanner(LStrip(s), s, d);
  }

  lemma {:induction false} ClosedEndsInText(group: seq<string>, d: bool)
    requires Closed(group, d)
    ensures !AllSpace(group[|group| - 1])
  {
    hide Dollars;
    StripCommutes(group[|group| - 1]);
    if |group| > 1 { ClosedEndsInText(group[1..], After(group[0], d)); }
  }

  lemma {:induction false} TrimEndKeepsClosed(group: seq<string>, d: bool)
    requires Closed(group, d)
    ensures Closed(TrimEnd(group), d)
  {
    hide Skippable, Cut, After;
    RStripUnseen(group[0], d);
    if |group| > 1 {
      ClosedEndsInText(group, d);
      assert !AllSpace(group[1..][|group| - 2]);
      TrimEndKeepsClosed(group[1..], After(group[0], d));
      assert TrimEnd(group)[1..] == TrimEnd(group[1..]);
    }
  }

  lemma {:induction false} TrimEndKeepsRuns(group: seq<string>, d: bool)
    requires group != [] && Runs(group, d)
    ensures Runs(TrimEnd(group), d)
  {
    hide Skippable, Cut, After;
    RStripUnseen(group[0], d);
    if AllBlank(group[1..]) {
      assert TrimEnd(group)[1..] == [];
    } else {
      TrimEndKeepsRuns(group[1..], After(group[0], d));
      assert TrimEnd(group)[1..] == TrimEnd(group[1..]);
    }
  }

  lemma TrimKeepsGroup(group: seq<string>)
    requires Closed(group, false) || (group != [] && Runs(group, false))
    ensures !AllSpace(group[0])
    ensures Closed(group, false) ==> Closed(Trim(group), false)
    ensures Runs(group, false) ==> Runs(Trim(group), false)
  {
    var tight := [LStrip(group[0])] + group[1..];
    assert tight[1..] == group[1..];
    StripCommutes(group[0]);
    LStripUnseen(group[0], false);
    hide Skippable, Cut, After;
    if Closed(group, false) { TrimEndKeepsClosed(tight, false); }
    if Runs(group, false) { TrimEndKeepsRuns(tight, false); }
  }

  // ---- trimmed groups

  predicate NoBreaks(lines: seq<string>) {
    forall i :: 0 <= i < |lines| ==> NoBreak(lines[i])
  }

  predicate StartsTight(group: seq<string>) {
    group != [] && group[0] != "" && !IsSpace(group[0][0])
  }

  predicate EndsTight(group: seq<string>) {
    group != [] && var last := group[|group| - 1]; last != "" && !IsSpace(last[|last| - 1])
  }

  predicate Tight(group: seq<string>) {
    NoBreaks(group) && StartsTight(group) && EndsTight(group)
  }

  lemma {:induction false} TrimEndIsTight(group: seq<string>)
    requires group != [] && !AllBlank(group) && NoBreaks(group)
    ensures NoBreaks(TrimEnd(group)) && EndsTight(TrimEnd(group))
    ensures StartsTight(group) ==> StartsTight(TrimEnd(group))
  {
    RStripKeeps(group[0]);
    if AllBlank(group[1..]) {
      assert !AllSpace(group[0]) by { assert AllSpace(group[0]) ==> AllBlank(group); }
    } else {
      TrimEndIsTight(group[1..]);
    }
  }

  lemma TrimIsTight(group: seq<string>)
    requires group != [] && !AllSpace(group[0]) && NoBreaks(group)
    ensures Tight(Trim(group))
  {
    LStripKeeps(group[0]);
    var tight := [LStrip(group[0])] + group[1..];
    assert !AllSpace(tight[0]) by { assert !IsSpace(tight[0][0]); }
    TrimEndIsTight(tight);
  }

  lemma {:induction false} TightIsTrimmed(group: seq<string>)
    requires EndsTight(group)
    ensures TrimEnd(group) == group
    ensures StartsTight(group) ==> Trim(group) == group
  {
    if |group| > 1 {
      TightIsTrimmed(group[1..]);
      var last := group[|group| - 1];
      assert group[1..][|group| - 2] == last && !IsSpace(last[|last| - 1]);
    }
    assert [group[0]] + group[1..] == group;
  }

  // ------------------------------------------------------------------ normal form

  function Trims(groups: seq<seq<string>>): (r: seq<seq<string>>)
    requires forall i :: 0 <= i < |groups| ==> groups[i] != []
    ensures |r| == |groups| && forall i :: 0 <= i < |r| ==> r[i] == Trim(groups[i])
  {
    seq(|groups|, i requires 0 <= i < |groups| => Trim(groups[i]))
  }

  ghost predicate GoodGroups(groups: seq<seq<string>>) {
    WellSplit(groups) && forall i :: 0 <= i < |groups| ==> groups[i] != [] && !AllSpace(groups[i][0]) && NoBreaks(groups[i])
  }

  ghost predicate TightGroups(groups: seq<seq<string>>) {
    WellSplit(groups) && forall i :: 0 <= i < |groups| ==> Tight(groups[i])
  }

  lemma {:induction false} SplitLinesHaveNoBreak(s: string)
    ensures NoBreaks(SplitLines(s))
    decreases |s|
  {
    if s != "" {
      var n := LineEnd(s);
      if n < |s| {
        SplitLinesHaveNoBreak(s[n + (if s[n] == '\r' && n + 1 < |s| && s[n + 1] == '\n' then 2 else 1)..]);
      }
    }
  }

  lemma {:induction false} KeptHaveNoBreak(lines: seq<string>, d: bool)
    requires NoBreaks(lines)
    ensures NoBreaks(Kept(lines, d))
  {
    hide Skippable, After;
    if lines != [] {
      KeptHaveNoBreak(lines[1..], d);
      KeptHaveNoBreak(lines[1..], After(lines[0], d));
    }
  }

  lemma {:induction false} FlatGroups(groups: seq<seq<string>>)
    requires WellSplit(groups) && NoBreaks(Flatten(groups))
    ensures GoodGroups(groups)
  {
    hide Runs, Closed;
    if groups != [] {
      var all := Flatten(groups);
      assert all == groups[0] + Flatten(groups[1..]);
      assert forall i :: 0 <= i < |groups[0]| ==> groups[0][i] == all[i];
      assert forall i :: 0 <= i < |Flatten(groups[1..])| ==> Flatten(groups[1..])[i] == all[|groups[0]| + i];
      FirstGroupStarts(groups);
      FlatGroups(groups[1..]);
    }
  }

  lemma FirstGroupStarts(groups: seq<seq<string>>)
    requires WellSplit(groups) && groups != []
    ensures groups[0] != [] && !AllSpace(groups[0][0]) && WellSplit(groups[1..])
  {
    TrimKeepsGroup(groups[0]);
  }

  /** What the scanner makes of a script: groups that start in text and hold whole lines. */
  lemma GroupsAreGood(sql: string)
    ensures GoodGroups(Groups(SplitLines(sql), [], false))
  {
    hide Skippable, Cut, SplitLines, LineEnd, Groups, Kept, GoodGroups, WellSplit;
    SplitLinesHaveNoBreak(sql);
    NothingRuns();
    GroupsAreWellSplit(SplitLines(sql), [], false);
    KeptHaveNoBreak(SplitLines(sql), false);
    assert [] + Kept(SplitLines(sql), false) == Kept(SplitLines(sql), false);
    FlatGroups(Groups(SplitLines(sql), [], false));
  }

  lemma {:induction false} TrimsAreTight(groups: seq<seq<string>>)
    requires GoodGroups(groups)
    ensures TightGroups(Trims(groups))
  {
    hide Runs, Closed, Trim;
    if groups != [] {
      TrimKeepsGroup(groups[0]);
      TrimIsTight(groups[0]);
      FirstGroupStarts(groups);
      TrimsAreTight(groups[1..]);
      assert Trims(groups)[1..] == Trims(groups[1..]);
    }
  }

  lemma {:induction false} StatementsOfTrims(groups: seq<seq<string>>)
    requires GoodGroups(groups)
    ensures Statements(groups) == Statements(Trims(groups))
    ensures NonEmpty(Statements(groups)) == Statements(groups)
  {
    hide Runs, Closed, Trim, Statement;
    if groups != [] {
      StatementIsTrimmed(groups[0]);
      TrimIsTight(groups[0]);
      TightStatement(Trim(groups[0]));
      FirstGroupStarts(groups);
      StatementsOfTrims(groups[1..]);
      assert Trims(groups)[1..] == Trims(groups[1..]);
      assert Statements(groups)[1..] == Statements(groups[1..]);
    }
  }

  lemma TightStatement(group: seq<string>)
    requires Tight(group)
    ensures Statement(group) == Join(group, "\n") != ""
  {
    assert !AllSpace(group[0]) by { assert !IsSpace(group[0][0]); }
    StatementIsTrimmed(group);
    TightIsTrimmed(group);
    JoinIsBlank(group);
  }

  lemma {:induction false} JoinConcat(a: seq<string>, b: seq<string>)
    requires a != [] && b != []
    ensures Join(a + b, "\n") == Join(a, "\n") + "\n" + Join(b, "\n")
  {
    if |a| > 1 {
      JoinConcat(a[1..], b);
      assert (a + b)[1..] == a[1..] + b;
    } else {
      assert (a + b)[1..] == b;
    }
  }

  lemma {:induction false} FlatIsTight(groups: seq<seq<string>>)
    requires groups != [] && forall i :: 0 <= i < |groups| ==> Tight(groups[i])
    ensures EndsTight(Flatten(groups)) && NoBreaks(Flatten(groups))
  {
    if |groups| == 1 {
      assert Flatten(groups) == groups[0] + [] == groups[0];
    } else {
      FlatIsTight(groups[1..]);
    }
  }

  lemma {:induction false} JoinStatements(groups: seq<seq<string>>)
    requires forall i :: 0 <= i < |groups| ==> Tight(groups[i])
    ensures Join(Statements(groups), "\n") == Join(Flatten(groups), "\n")
  {
    hide Statement, Tight;
    if |groups| == 1 {
      TightStatement(groups[0]);
      assert Flatten(groups) == groups[0] + [] == groups[0];
      assert Statements(groups) == [Statement(groups[0])];
    } else if |groups| > 1 {
      JoinTwo(groups);
      JoinStatements(groups[1..]);
    }
  }

  lemma JoinTwo(groups: seq<seq<string>>)
    requires |groups| > 1 && forall i :: 0 <= i < |groups| ==> Tight(groups[i])
    ensures Join(Statements(groups), "\n") == Join(groups[0], "\n") + "\n" + Join(Statements(groups[1..]), "\n")
    ensures Join(Flatten(groups), "\n") == Join(groups[0], "\n") + "\n" + Join(Flatten(groups[1..]), "\n")
  {
    TightStatement(groups[0]);
    FlatIsTight(groups[1..]);
    JoinConcat(groups[0], Flatten(groups[1..]));
    hide Statement, Tight;
    assert Statements(groups)[1..] == Statements(groups[1..]) != [];
  }

  lemma {:induction false} LineEndOf(line: string, rest: string)
    requires NoBreak(line) && (rest == "" || IsBreak(rest[0]))
    ensures LineEnd(line + rest) == |line|
  {
    if line != "" {
      assert (line + rest)[1..] == line[1..] + rest;
      LineEndOf(line[1..], rest);
    } else {
      assert line + rest == rest;
    }
  }

  lemma {:induction false} SplitJoined(lines: seq<string>)
    requires NoBreaks(lines) && (lines == [] || lines[|lines| - 1] != "")
    ensures SplitLines(Join(lines, "\n")) == lines
  {
    if |lines| == 1 {
      LineEndOf(lines[0], "");
      assert lines[0] + "" == lines[0];
    } else if |lines| > 1 {
      var rest := Join(lines[1..], "\n");
      LineEndOf(lines[0], "\n" + rest);
      assert Join(lines, "\n") == lines[0] + ("\n" + rest);
      assert (lines[0] + ("\n" + rest))[|lines[0]| + 1..] == rest;
      SplitJoined(lines[1..]);
    }
  }

  lemma {:induction false} ClosedGroupFirst(group: seq<string>, rest: seq<string>, current: seq<string>, d: bool)
    requires Closed(group, d)
    ensures Groups(group + rest, current, d) == [current + group] + Groups(rest, [], false)
    decreases group
  {
    hide Skippable, EndsStatement, Dollars;
    if |group| == 1 {
      assert (group + rest)[1..] == rest && group == [group[0]];
    } else {
      assert (group + rest)[1..] == group[1..] + rest;
      ClosedGroupFirst(group[1..], rest, current + [group[0]], After(group[0], d));
      assert (current + [group[0]]) + group[1..] == current + group;
    }
  }

  lemma {:induction false} OpenGroupLast(group: seq<string>, current: seq<string>, d: bool)
    requires Runs(group, d) && current + group != []
    ensures Groups(group, current, d) == [current + group]
    decreases group
  {
    hide Skippable, Cut, After;
    if group == [] {
      assert current + group == current;
    } else {
      OpenGroupLast(group[1..], current + [group[0]], After(group[0], d));
      assert (current + [group[0]]) + group[1..] == current + group;
    }
  }

  /** Scanning the lines of a list of statements finds those statements again. */
  lemma {:induction false} GroupsAgain(groups: seq<seq<string>>)
    requires WellSplit(groups)
    ensures Groups(Flatten(groups), [], false) == groups
  {
    hide Runs, Closed;
    if groups != [] {
      assert Flatten(groups) == groups[0] + Flatten(groups[1..]);
      assert [] + groups[0] == groups[0];
      if Closed(groups[0], false) {
        FirstGroupStarts(groups);
        ClosedGroupFirst(groups[0], Flatten(groups[1..]), [], false);
        GroupsAgain(groups[1..]);
      } else {
        assert |groups| == 1 && groups[0] + [] == groups[0];
        OpenGroupLast(groups[0], [], false);
      }
    }
  }

  /** The filter drops nothing, and the statements hold exactly the kept lines in order,
      cut at the first chance each time, up to outer whitespace. */
  lemma StatementsHoldTheKeptLines(sql: string)
    ensures var groups := Groups(SplitLines(sql), [], false);
            && SplitScript(sql) == Statements(groups)
            && WellSplit(groups)
            && Flatten(groups) == Kept(SplitLines(sql), false)
  {
    hide Groups, SplitLines, LineEnd, GoodGroups, WellSplit;
    GroupsAreGood(sql);
    StatementsOfTrims(Groups(SplitLines(sql), [], false));
    NothingRuns();
    GroupsAreWellSplit(SplitLines(sql), [], false);
    assert [] + Kept(SplitLines(sql), false) == Kept(SplitLines(sql), false);
  }

  /** A normal form: splitting the newline-join of the output gives the output again. */
  lemma SplitIsANormalForm(sql: string)
    ensures SplitScript(Join(SplitScript(sql), "\n")) == SplitScript(sql)
  {
    hide *;
    var groups := Groups(SplitLines(sql), [], false);
    GroupsAreGood(sql);
    StatementsHoldTheKeptLines(sql);
    TightScriptIsFixed(groups, SplitScript(sql));
  }

  lemma TightScriptIsFixed(groups: seq<seq<string>>, texts: seq<string>)
    requires GoodGroups(groups) && texts == Statements(groups)
    ensures SplitScript(Join(texts, "\n")) == texts
  {
    hide Groups, SplitLines, LineEnd, Trims, Trim, Tight, Statement, Statements, NonEmpty, Runs, Closed;
    var tight := Trims(groups);
    TrimsAreTight(groups);
    StatementsOfTrims(groups);
    JoinStatements(tight);
    if groups == [] {
      EmptyScript();
    } else {
      FlatIsTight(tight);
      SplitJoined(Flatten(tight));
      GroupsAgain(tight);
    }
  }

  lemma EmptyScript()
    ensures Statements([]) == [] && Join([], "\n") == "" && SplitScript("") == []
  {
  }

  // ------------------------------------------------------------------ what the text functions mean

  predicate HasDollars(s: string) {
    exists i :: 0 <= i < |s| - 1 && s[i] == '$' && s[i + 1] == '$'
  }

  lemma {:induction false} NoDollarsIff(s: string)
    ensures Dollars(s) == 0 <==> !HasDollars(s)
  {
    if |s| >= 2 && !(s[0] == '$' && s[1] == '$') {
      var t := s[1..];
      NoDollarsIff(t);
      assert forall i :: 1 <= i < |s| - 1 ==> s[i] == t[i - 1] && s[i + 1] == t[i];
      if HasDollars(t) {
        var i :| 0 <= i < |t| - 1 && t[i] == '$' && t[i + 1] == '$';
        assert s[i + 1] == '$' && s[i + 1 + 1] == '$';
      }
    }
  }

  lemma DollarsInTail(a: string)
    requires a != "" && HasDollars(a[1..])
    ensures HasDollars(a)
  {
    var t := a[1..];
    var i :| 0 <= i < |t| - 1 && t[i] == '$' && t[i + 1] == '$';
    assert a[i + 1] == '$' && a[i + 1 + 1] == '$';
  }

  /** The first `$$` counts one, and counting goes on behind it. */
  lemma {:induction false} DollarsBehind(a: string, b: string)
    requires !HasDollars(a) && (a == "" || a[|a| - 1] != '$')
    ensures Dollars(a + "$$" + b) == 1 + Dollars(b)
  {
    var s := a + "$$" + b;
    if a == "" {
      assert s[2..] == b;
    } else {
      var t := a[1..];
      assert s[1..] == t + "$$" + b;
      assert !HasDollars(t) by {
        if HasDollars(t) { DollarsInTail(a); }
      }
      assert !(s[0] == '$' && s[1] == '$') by {
        if |a| > 1 { assert s[0] == a[0] && s[1] == a[1]; }
      }
      DollarsBehind(t, b);
    }
  }

  /** Stripping takes white space off both ends, all of it, and nothing else. */
  lemma StripIs(s: string) returns (before: string, after: string)
    ensures s == before + Strip(s) + after && AllSpace(before) && AllSpace(after)
    ensures Strip(s) != "" ==> !IsSpace(Strip(s)[0]) && !IsSpace(Strip(s)[|Strip(s)| - 1])
  {
    before := LStripOff(s);
    after := RStripOff(LStrip(s));
    LStripKeeps(s);
    RStripKeeps(LStrip(s));
  }

  lemma {:induction false} LStripOff(s: string) returns (off: string)
    ensures s == off + LStrip(s) && AllSpace(off)
  {
    if s == "" || !IsSpace(s[0]) {
      off := "";
    } else {
      off := LStripOff(s[1..]);
      off := [s[0]] + off;
    }
  }

  lemma {:induction false} RStripOff(s: string) returns (off: string)
    ensures s == RStrip(s) + off && AllSpace(off)
  {
    if s == "" || !IsSpace(s[|s| - 1]) {
      off := "";
    } else {
      off := RStripOff(s[..|s| - 1]);
      off := off + [s[|s| - 1]];
    }
  }

  /** A stripped text is what is left of any text between white space. */
  lemma StripOf(before: string, text: string, after: string)
    requires AllSpace(before) && AllSpace(after)
    requires text != "" && !IsSpace(text[0]) && !IsSpace(text[|text| - 1])
    ensures Strip(before + text + after) == text
  {
    var s := before + (text + after);
    assert before + text + after == s;
    LStripSpace(before, text + after);
    RStripConcat(text, after);
  }

  lemma {:induction false} LStripSpace(before: string, s: string)
    requires AllSpace(before) && s != "" && !IsSpace(s[0])
    ensures LStrip(before + s) == s
  {
    if before == "" {
      assert before + s == s;
    } else {
      assert (before + s)[1..] == before[1..] + s;
      LStripSpace(before[1..], s);
    }
  }

  /** What the scanner skips outside a dollar-quoted body: blank lines and comments. */
  lemma SkippableIff(line: string)
    ensures Skippable(line) <==>
            AllSpace(line) || exists a, b :: AllSpace(a) && line == a + "--" + b
  {
    hide Strip, AllSpace;
    var before, after := StripIs(line);
    StripCommutes(line);
    var text := Strip(line);
    if "--" <= text {
      assert line == before + "--" + (text[2..] + after) by { assert text == "--" + text[2..]; }
    }
    if a, b :| AllSpace(a) && line == a + "--" + b {
      CommentStrips(a, b);
    }
  }

  lemma CommentStrips(a: string, b: string)
    requires AllSpace(a)
    ensures "--" <= Strip(a + "--" + b)
  {
    var line := a + ("--" + b);
    assert a + "--" + b == line;
    LStripSpace(a, "--" + b);
    RStripConcat("--", b);
    assert RStrip("--") == "--";
  }

  /** What ends a statement outside a dollar-quoted body: a line whose last character but
      white space is a semicolon. */
  lemma EndsStatementIff(line: string)
    ensures EndsStatement(line) <==> exists a, b :: AllSpace(b) && line == a + ";" + b
  {
    hide Strip, AllSpace;
    var before, after := StripIs(line);
    var text := Strip(line);
    if EndsStatement(line) {
      var a := before + text[..|text| - 1];
      assert line == a + ";" + after by { assert text == text[..|text| - 1] + ";"; }
    }
    if a, b :| AllSpace(b) && line == a + ";" + b {
      SemicolonStrips(a, b);
    }
  }

  lemma SemicolonStrips(a: string, b: string)
    requires AllSpace(b)
    ensures EndsStatement(a + ";" + b)
  {
    var line := a + ";" + b;
    var front := a + ";";
    RStripConcat(front, b);
    assert RStrip(line) == front;
    StripCommutes(line);
    LStripConcatEnd(a);
    assert Strip(front) == RStrip(LStrip(front));
  }

  lemma {:induction false} LStripConcatEnd(a: string)
    ensures LStrip(a + ";") != "" && LStrip(a + ";")[|LStrip(a + ";")| - 1] == ';'
  {
    if a != "" && IsSpace(a[0]) {
      assert (a + ";")[1..] == a[1..] + ";";
      LStripConcatEnd(a[1..]);
    }
  }

  /** Lines end at any break, a carriage return and a line feed being one; a script that ends
      in a break has no further line. With these three laws a script has one reading. */
  lemma SplitLinesIs(line: string, rest: string)
    requires NoBreak(line)
    ensures SplitLines("") == []
    ensures line != "" ==> SplitLines(line) == [line]
    ensures SplitLines(line + "\r\n" + rest) == [line] + SplitLines(rest)
    ensures forall c :: IsBreak(c) && !(c == '\r' && rest != "" && rest[0] == '\n') ==>
              SplitLines(line + [c] + rest) == [line] + SplitLines(rest)
  {
    LineEndOf(line, "");
    assert line + "" == line;
    var both := line + "\r\n" + rest;
    LineEndOf(line, "\r\n" + rest);
    assert both == line + ("\r\n" + rest) && both[|line| + 2..] == rest && both[..|line|] == line;
    forall c | IsBreak(c) && !(c == '\r' && rest != "" && rest[0] == '\n')
      ensures SplitLines(line + [c] + rest) == [line] + SplitLines(rest)
    {
      OneLine(line, c, rest);
    }
  }

  lemma OneLine(line: string, c: char, rest: string)
    requires NoBreak(line) && IsBreak(c) && !(c == '\r' && rest != "" && rest[0] == '\n')
    ensures SplitLines(line + [c] + rest) == [line] + SplitLines(rest)
  {
    hide NoBreak;
    var s := line + [c] + rest;
    LineEndOf(line, [c] + rest);
    hide IsBreak, LineEnd;
    assert s == line + ([c] + rest);
    assert s[|line|] == c && s[..|line|] == line && s[|line| + 1..] == rest;
    assert rest != "" ==> s[|line| + 1] == rest[0];
  }

  // ------------------------------------------------------------------ dollar-quoted bodies

  /** A line with exactly one `$$`. */
  ghost predicate OneDollars(line: string) {
    exists a, b :: line == a + "$$" + b && !HasDollars(a) && (a == "" || a[|a| - 1] != '$') && !HasDollars(b)
  }

  lemma OneDollarsIsOdd(line: string)
    requires OneDollars(line)
    ensures Dollars(line) == 1
  {
    var a, b :| line == a + "$$" + b && !HasDollars(a) && (a == "" || a[|a| - 1] != '$') && !HasDollars(b);
    DollarsBehind(a, b);
    NoDollarsIff(b);
  }

  /** Lines without `$$` inside a body are taken as they are: blank ones, comments and those
      that end in a semicolon too. */
  lemma {:induction false} BodyIsTaken(body: seq<string>, rest: seq<string>, current: seq<string>)
    requires forall line :: line in body ==> !HasDollars(line)
    ensures Groups(body + rest, current, true) == Groups(rest, current + body, true)
    decreases body
  {
    hide Skippable, EndsStatement, Dollars;
    if body == [] {
      assert body + rest == rest && current + body == current;
    } else {
      assert (body + rest)[1..] == body[1..] + rest && (current + [body[0]]) + body[1..] == current + body;
      assert body[0] in body;
      NoDollarsIff(body[0]);
      BodyIsTaken(body[1..], rest, current + [body[0]]);
    }
  }

  lemma BodyOpens(open: string, rest: seq<string>)
    requires OneDollars(open) && !Skippable(open)
    ensures Groups([open] + rest, [], false) == Groups(rest, [open], true)
  {
    OneDollarsIsOdd(open);
    hide Skippable, EndsStatement, Dollars, OneDollars;
    assert ([open] + rest)[1..] == rest && [] + [open] == [open];
  }

  lemma BodyCloses(close: string, rest: seq<string>, current: seq<string>)
    requires OneDollars(close) && EndsStatement(close)
    ensures Groups([close] + rest, current, true) == [current + [close]] + Groups(rest, [], false)
  {
    OneDollarsIsOdd(close);
    hide Skippable, EndsStatement, Dollars, OneDollars;
    assert ([close] + rest)[1..] == rest;
  }

  /** A dollar-quoted body is never cut: a line that opens it, any lines without `$$`, and a line
      that closes it and ends in a semicolon are one statement, whatever follows. */
  lemma DollarBlockIsOneGroup(open: string, body: seq<string>, close: string, rest: seq<string>)
    requires OneDollars(open) && !Skippable(open) && OneDollars(close) && EndsStatement(close)
    requires forall line :: line in body ==> !HasDollars(line)
    ensures Groups([open] + body + [close] + rest, [], false) == [[open] + body + [close]] + Groups(rest, [], false)
  {
    hide Skippable, EndsStatement, OneDollars, HasDollars, Groups;
    var tail := [close] + rest;
    assert [open] + body + [close] + rest == [open] + (body + tail);
    BodyOpens(open, body + tail);
    BodyIsTaken(body, tail, [open]);
    BodyCloses(close, rest, [open] + body);
  }

  /** The same of a whole script. */
  lemma DollarBlockIsOneStatement(open: string, body: seq<string>, close: string)
    requires OneDollars(open) && !Skippable(open) && OneDollars(close) && EndsStatement(close)
    requires NoBreaks([open] + body + [close]) && forall line :: line in body ==> !HasDollars(line)
    ensures var script := Join([open] + body + [close], "\n");
            SplitScript(script) == [Strip(script)]
  {
    hide Skippable, EndsStatement, Dollars, SplitLines, Strip, Join, OneDollars, Groups;
    var lines := [open] + body + [close];
    assert close != "" by { EndsStatementIff(close); }
    SplitJoined(lines);
    DollarBlockIsOneGroup(open, body, close, []);
    assert lines + [] == lines;
    NoGroups();
    var groups := [lines];
    assert Groups(lines, [], false) == groups && groups[1..] == [];
    assert SplitLines(Join(lines, "\n")) == lines;
    StatementsHoldTheKeptLines(Join(lines, "\n"));
    assert Statements(groups) == [Statement(lines)] + Statements([]);
  }

  lemma NoGroups()
    ensures Groups([], [], false) == []
  {
  }
}
