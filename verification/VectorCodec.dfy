/** The text form of a vector column (backend/app/db/types.py), the same in Vector and
    HalfVector. `show` is repr(float(v)) and `read` is float(text). */
module VectorCodec {
  import opened Wrappers
  import opened Text

  /** What a processor can be handed: nothing, text, or numbers. */
  datatype Value<T> = Null | Literal(text: string) | Numbers(items: seq<T>)

  predicate IsBracket(c: char) {
    c == '[' || c == ']'
  }

  function Shown<T>(items: seq<T>, show: T -> string): seq<string> {
    if items == [] then [] else [show(items[0])] + Shown(items[1..], show)
  }

  function Bind<T>(value: Value<T>, show: T -> string): Value<T> {
    match value
    case Numbers(items) => Literal("[" + Join(Shown(items, show), ",") + "]")
    case _ => value
  }

  function TrimLeft(s: string): string {
    if s == "" || !IsBracket(s[0]) then s else TrimLeft(s[1..])
  }

  function TrimRight(s: string): string {
    if s == "" || !IsBracket(s[|s| - 1]) then s else TrimRight(s[..|s| - 1])
  }

  /** str.split(","), which never returns an empty list. */
  function SplitCommas(s: string): (parts: seq<string>)
    ensures parts != []
  {
    if s == "" then [""]
    else if s[0] == ',' then [""] + SplitCommas(s[1..])
    else
      var rest := SplitCommas(s[1..]);
      [[s[0]] + rest[0]] + rest[1..]
  }

  function ReadParts<T>(parts: seq<string>, read: string -> T): seq<T> {
    if parts == [] then []
    else (if parts[0] != "" then [read(parts[0])] else []) + ReadParts(parts[1..], read)
  }

  function Result<T>(value: Value<T>, read: string -> T): Value<T> {
    match value
    case Literal(text) => Numbers(ReadParts(SplitCommas(TrimRight(TrimLeft(text))), read))
    case _ => value
  }

  /** A number's text: not empty, free of the list's own characters, and read back as it was. */
  ghost predicate Printable<T(!new)>(show: T -> string, read: string -> T) {
    forall v: T :: show(v) != "" && ',' !in show(v) && '[' !in show(v) && ']' !in show(v) && read(show(v)) == v
  }

  predicate Plain(s: string) {
    s != "" && ',' !in s && !IsBracket(s[0]) && !IsBracket(s[|s| - 1])
  }

  lemma {:induction false} ShownIsPlain<T(!new)>(items: seq<T>, show: T -> string, read: string -> T)
    requires Printable(show, read)
    ensures |Shown(items, show)| == |items|
    ensures forall i :: 0 <= i < |items| ==> Plain(Shown(items, show)[i])
    ensures ReadParts(Shown(items, show), read) == items
  {
    if items != [] {
      ShownIsPlain(items[1..], show, read);
      assert show(items[0]) != "";
      assert Shown(items, show)[1..] == Shown(items[1..], show);
    }
  }

  lemma {:induction false} SplitPart(part: string, rest: string)
    requires ',' !in part
    ensures SplitCommas(part) == [part]
    ensures SplitCommas(part + "," + rest) == [part] + SplitCommas(rest)
  {
    if part == "" {
      assert ("" + "," + rest)[1..] == rest;
    } else {
      SplitPart(part[1..], rest);
      assert (part + "," + rest)[1..] == part[1..] + "," + rest;
      assert [part[0]] + part[1..] == part;
    }
  }

  lemma {:induction false} SplitJoin(parts: seq<string>)
    requires parts != [] && forall i :: 0 <= i < |parts| ==> Plain(parts[i])
    ensures SplitCommas(Join(parts, ",")) == parts
    ensures Join(parts, ",") != "" && !IsBracket(Join(parts, ",")[0]) && !IsBracket(Join(parts, ",")[|Join(parts, ",")| - 1])
  {
    if |parts| == 1 {
      SplitPart(parts[0], "");
    } else {
      SplitJoin(parts[1..]);
      var rest := Join(parts[1..], ",");
      SplitPart(parts[0], rest);
      assert Join(parts, ",") == parts[0] + "," + rest;
    }
  }

  lemma TrimsBrackets(s: string)
    requires s == "" || (!IsBracket(s[0]) && !IsBracket(s[|s| - 1]))
    ensures TrimRight(TrimLeft("[" + s + "]")) == s
  {
    var all := "[" + s + "]";
    assert all[1..] == s + "]";
    if s == "" {
      assert all[1..] == "]" && "]"[1..] == "";
      assert TrimLeft("]") == TrimLeft("") == "";
    } else {
      assert TrimLeft(all) == s + "]";
      assert (s + "]")[..|s|] == s;
    }
  }

  /** Reading back a bound vector gives the same list, for every length, none included;
      nothing and ready-made text are bound as they are. */
  lemma RoundTrip<T(!new)>(value: Value<T>, show: T -> string, read: string -> T)
    requires Printable(show, read)
    ensures !value.Literal? ==> Result(Bind(value, show), read) == value
    ensures value.Literal? ==> Bind(value, show) == value
  {
    if value.Numbers? {
      var parts := Shown(value.items, show);
      ShownIsPlain(value.items, show, read);
      if value.items == [] {
        TrimsBrackets("");
        assert ReadParts([""], read) == [] by { assert [""][1..] == []; }
      } else {
        SplitJoin(parts);
        TrimsBrackets(Join(parts, ","));
      }
    }
  }

  /** The text that goes to the database: the printed numbers between brackets, with a comma
      between each two. */
  lemma BoundText<T(!new)>(items: seq<T>, show: T -> string, read: string -> T) returns (inner: string)
    requires Printable(show, read)
    ensures Bind(Numbers(items), show) == Literal("[" + inner + "]")
    ensures items == [] ==> inner == ""
    ensures items != [] ==> |SplitCommas(inner)| == |items|
    ensures items != [] ==> forall i :: 0 <= i < |items| ==> SplitCommas(inner)[i] == show(items[i])
  {
    inner := Join(Shown(items, show), ",");
    ShownIsPlain(items, show, read);
    ShownInOrder(items, show);
    if items != [] { SplitJoin(Shown(items, show)); }
  }

  lemma {:induction false} ShownInOrder<T>(items: seq<T>, show: T -> string)
    ensures |Shown(items, show)| == |items|
    ensures forall i :: 0 <= i < |items| ==> Shown(items, show)[i] == show(items[i])
  {
    if items != [] { ShownInOrder(items[1..], show); }
  }

  /** Two vectors bind to the same text only if they are equal. */
  lemma BindIsInjective<T(!new)>(a: seq<T>, b: seq<T>, show: T -> string, read: string -> T)
    requires Printable(show, read)
    ensures Bind(Numbers(a), show) == Bind(Numbers(b), show) <==> a == b
  {
    RoundTrip(Numbers(a), show, read);
    RoundTrip(Numbers(b), show, read);
  }
}
