/** Cache keys and the prefixes an invalidation scans for (backend/app/core/cache.py). */
module CacheKeys {
  import opened Wrappers
  import opened Text

  const MAX_KEY: nat := 200

  function Present(parts: seq<Option<string>>): seq<string> {
    if parts == [] then []
    else (if parts[0].Some? then [parts[0].value] else []) + Present(parts[1..])
  }

  function Segments(namespace: string, parts: seq<Option<string>>, projectId: Option<string>): seq<string> {
    [namespace] + (if projectId.Some? then ["p:" + projectId.value] else []) + Present(parts)
  }

  /** `digest` is the first half of a SHA-256, of which nothing is assumed. */
  function MakeKey(namespace: string, parts: seq<Option<string>>, projectId: Option<string>, digest: string -> string): string {
    var key := Join(Segments(namespace, parts, projectId), ":");
    if |key| <= MAX_KEY then key
    else namespace + ":" + (if projectId.GetOr("") == "" then "" else "p:" + projectId.value + ":") + "h:" + digest(key)
  }

  method BuildKey(namespace: string, parts: seq<Option<string>>, projectId: Option<string>, digest: string -> string)
    returns (key: string)
    ensures key == MakeKey(namespace, parts, projectId, digest)
  {
    var segments := [namespace];
    if projectId.Some? { segments := segments + ["p:" + projectId.value]; }
    for i := 0 to |parts|
      invariant segments + Present(parts[i..]) == Segments(namespace, parts, projectId)
    {
      assert parts[i..][1..] == parts[i + 1..];
      if parts[i].Some? { segments := segments + [parts[i].value]; }
    }
    assert parts[|parts|..] == [] && segments + [] == segments;
    key := Join(segments, ":");
    if |key| > MAX_KEY {
      var project := if projectId.Some? && projectId.value != "" then "p:" + projectId.value + ":" else "";
      key := namespace + ":" + project + "h:" + digest(key);
    }
  }

  /** The namespaces a project's invalidation lists. */
  const LISTED: seq<string> := ["dashboard", "search", "retrieval", "rag", "contract", "alerts"]

  function Prefixes(projectId: string): (ps: seq<string>)
    ensures forall ns :: ns in LISTED ==> ns + ":p:" + projectId in ps
    ensures forall p :: p in ps ==> p == "dashboard:all" || exists ns :: ns in LISTED && p == ns + ":p:" + projectId
  {
    var ps := seq(|LISTED|, i requires 0 <= i < |LISTED| => LISTED[i] + ":p:" + projectId);
    assert forall i :: 0 <= i < |LISTED| ==> ps[i] == LISTED[i] + ":p:" + projectId;
    ps + ["dashboard:all"]
  }

  /** Whether invalidating a project removes a key. A scan pattern is `prefix*`, and ids
      and namespaces hold none of the pattern characters. */
  ghost predicate Removes(projectId: string, key: string) {
    exists p :: p in Prefixes(projectId) && p <= key
  }

  /** Whether a project's key keeps the project mark: the digested form drops an empty id,
      which the plain form does not. */
  predicate Marked(ns: string, parts: seq<Option<string>>, projectId: string) {
    projectId != "" || |Join(Segments(ns, parts, Some(projectId)), ":")| <= MAX_KEY
  }

  /** What follows the project id in a marked key of that project, hashed or not. */
  lemma {:induction false} ProjectKeyShape(ns: string, parts: seq<Option<string>>, projectId: string, digest: string -> string)
    returns (rest: string)
    requires Marked(ns, parts, projectId)
    ensures MakeKey(ns, parts, Some(projectId), digest) == ns + [':'] + ("p:" + projectId + rest)
    ensures rest == "" || rest[0] == ':'
  {
    var segments := Segments(ns, parts, Some(projectId));
    var tail := ["p:" + projectId] + Present(parts);
    assert segments == [ns] + tail && segments[1..] == tail && tail[1..] == Present(parts);
    var key := Join(segments, ":");
    assert key == ns + ":" + Join(tail, ":");
    if |key| > MAX_KEY {
      rest := ":h:" + digest(key);
    } else if Present(parts) == [] {
      rest := "";
    } else {
      rest := ":" + Join(Present(parts), ":");
      assert Join(tail, ":") == "p:" + projectId + ":" + Join(Present(parts), ":");
    }
  }

  lemma PrefixOfProject(a: string, b: string, rest: string)
    requires ':' !in a && (rest == "" || rest[0] == ':')
    ensures a <= b + rest <==> a <= b
  {
    assert rest != "" ==> (b + rest)[|b|] == ':';
    assert b <= b + rest;
  }

  lemma {:induction false} PrefixInNamespace(ns: string, tail: string, ns': string, tail': string)
    requires ':' !in ns && ':' !in ns'
    ensures ns + [':'] + tail <= ns' + [':'] + tail' <==> ns == ns' && tail <= tail'
  {
    var p, key := ns + [':'] + tail, ns' + [':'] + tail';
    if ns == ns' && tail <= tail' {
      assert key == p + tail'[|tail|..];
    }
    if p <= key {
      assert p + key[|p|..] == ns + [':'] + (tail + key[|p|..]);
      CutFirst(ns, tail + key[|p|..], ns', tail', ':');
    }
  }

  /** Invalidating a project removes a project key exactly when its namespace is listed, its
      project id begins with the invalidated one and the key is marked: hashed keys included,
      and for ids of one length no other project's. Only an empty id leaves a key unmarked. */
  lemma InvalidationHitsExactly(projectId: string, ns: string, parts: seq<Option<string>>, owner: string, digest: string -> string)
    requires ':' !in projectId && ':' !in ns
    ensures Removes(projectId, MakeKey(ns, parts, Some(owner), digest))
            <==> ns in LISTED && projectId <= owner && Marked(ns, parts, owner)
    ensures |projectId| == |owner| ==>
              (Removes(projectId, MakeKey(ns, parts, Some(owner), digest))
               <==> ns in LISTED && projectId == owner && Marked(ns, parts, owner))
  {
    hide MakeKey, Prefixes, Marked;
    if Marked(ns, parts, owner) {
      var rest := ProjectKeyShape(ns, parts, owner, digest);
      MarkedKeyIsRemovedIff(projectId, ns, owner, rest);
    } else {
      UnmarkedKeyShape(ns, parts, owner, digest);
      UnmarkedKeyStays(projectId, ns, digest(Join(Segments(ns, parts, Some(owner)), ":")));
    }
  }

  lemma UnmarkedKeyShape(ns: string, parts: seq<Option<string>>, projectId: string, digest: string -> string)
    requires !Marked(ns, parts, projectId)
    ensures MakeKey(ns, parts, Some(projectId), digest)
            == ns + [':'] + ("h:" + digest(Join(Segments(ns, parts, Some(projectId)), ":")))
  {
    hide Segments, Join;
    var key := Join(Segments(ns, parts, Some(projectId)), ":");
    assert MakeKey(ns, parts, Some(projectId), digest) == ns + ":" + "" + "h:" + digest(key);
  }

  lemma MarkedKeyIsRemovedIff(projectId: string, ns: string, owner: string, rest: string)
    requires ':' !in projectId && ':' !in ns && (rest == "" || rest[0] == ':')
    ensures Removes(projectId, ns + [':'] + ("p:" + owner + rest)) <==> ns in LISTED && projectId <= owner
  {
    hide Prefixes;
    var key := ns + [':'] + ("p:" + owner + rest);
    ListedNamespacesAreSimple();
    forall listed | listed in LISTED
      ensures listed + ":p:" + projectId <= key <==> listed == ns && projectId <= owner
    {
      assert listed + ":p:" + projectId == listed + [':'] + ("p:" + projectId);
      PrefixInNamespace(listed, "p:" + projectId, ns, "p:" + owner + rest);
      AfterMark(projectId, owner + rest);
      assert "p:" + owner + rest == "p:" + (owner + rest);
      PrefixOfProject(projectId, owner, rest);
    }
    assert !("dashboard:all" <= key) by {
      assert "dashboard:all" == "dashboard" + [':'] + "all";
      PrefixInNamespace("dashboard", "all", ns, "p:" + owner + rest);
      assert ("p:" + owner + rest)[0] == 'p' && "all"[0] == 'a';
    }
    if ns in LISTED && projectId <= owner {
      assert ns + ":p:" + projectId in Prefixes(projectId);
    }
  }

  lemma UnmarkedKeyStays(projectId: string, ns: string, digested: string)
    requires ':' !in ns
    ensures !Removes(projectId, ns + [':'] + ("h:" + digested))
  {
    hide Prefixes;
    var key := ns + [':'] + ("h:" + digested);
    ListedNamespacesAreSimple();
    assert ("h:" + digested)[0] == 'h';
    forall listed | listed in LISTED
      ensures !(listed + ":p:" + projectId <= key)
    {
      assert listed + ":p:" + projectId == listed + [':'] + ("p:" + projectId);
      PrefixInNamespace(listed, "p:" + projectId, ns, "h:" + digested);
      assert ("p:" + projectId)[0] == 'p';
    }
    assert !("dashboard:all" <= key) by {
      assert "dashboard:all" == "dashboard" + [':'] + "all";
      PrefixInNamespace("dashboard", "all", ns, "h:" + digested);
      assert "all"[0] == 'a';
    }
  }

  lemma AfterMark(a: string, b: string)
    ensures "p:" + a <= "p:" + b <==> a <= b
  {
    assert ("p:" + a)[2..] == a && ("p:" + b)[2..] == b;
    if a <= b { assert "p:" + b == "p:" + a + b[|a|..]; }
  }

  lemma ListedNamespacesAreSimple()
    ensures forall ns :: ns in LISTED ==> ':' !in ns
  {
  }

  /** A key made with an empty project id, whatever its parts, is removed only by the empty
      id's own invalidation, and by that exactly when its plain form is short enough not to
      be digested: the two branches disagree on when a project id counts. */
  lemma EmptyProjectEscapesIff(projectId: string, ns: string, parts: seq<Option<string>>, digest: string -> string)
    requires ns in LISTED && ':' !in projectId
    ensures Removes(projectId, MakeKey(ns, parts, Some(""), digest))
            <==> projectId == "" && |Join(Segments(ns, parts, Some("")), ":")| <= MAX_KEY
  {
    hide MakeKey, Segments, Join;
    ListedNamespacesAreSimple();
    InvalidationHitsExactly(projectId, ns, parts, "", digest);
  }

  // ------------------------------------------------------------------ which keys differ

  function Given(texts: seq<string>): (parts: seq<Option<string>>)
    ensures |parts| == |texts| && forall i :: 0 <= i < |texts| ==> parts[i] == Some(texts[i])
  {
    seq(|texts|, i requires 0 <= i < |texts| => Some(texts[i]))
  }

  predicate NoColons(texts: seq<string>) {
    forall i :: 0 <= i < |texts| ==> ':' !in texts[i]
  }

  lemma {:induction false} PresentOfGiven(texts: seq<string>)
    ensures Present(Given(texts)) == texts
  {
    if texts != [] {
      assert Given(texts)[1..] == Given(texts[1..]);
      PresentOfGiven(texts[1..]);
    }
  }

  lemma {:induction false} PresentBoth(a: seq<Option<string>>, b: seq<Option<string>>)
    ensures Present(a + b) == Present(a) + Present(b)
  {
    if a == [] {
      assert a + b == b;
    } else {
      assert (a + b)[1..] == a[1..] + b;
      PresentBoth(a[1..], b);
    }
  }

  /** A missing part leaves no trace in a key. */
  lemma MissingPartIsSkipped(ns: string, a: seq<Option<string>>, b: seq<Option<string>>, projectId: Option<string>, digest: string -> string)
    ensures MakeKey(ns, a + [None] + b, projectId, digest) == MakeKey(ns, a + b, projectId, digest)
  {
    var missing: seq<Option<string>> := [None];
    PresentBoth(a + missing, b);
    PresentBoth(a, missing);
    PresentBoth(a, b);
    assert missing[1..] == [];
    assert Present(missing) == [] + Present([]);
    assert Present(a + [None] + b) == Present(a + b);
  }

  lemma ColonsJoin(texts: seq<string>)
    requires texts != [] && NoColons(texts)
    ensures ':' in Join(texts, ":") <==> |texts| > 1
  {
    if |texts| > 1 { assert Join(texts, ":")[|texts[0]|] == ':'; }
  }

  lemma JoinOfMore(texts: seq<string>)
    requires |texts| > 1
    ensures Join(texts, ":") == texts[0] + [':'] + Join(texts[1..], ":")
  {
  }

  lemma {:induction false} JoinIsInjective(a: seq<string>, b: seq<string>)
    requires a != [] && b != [] && NoColons(a) && NoColons(b)
    ensures Join(a, ":") == Join(b, ":") <==> a == b
  {
    ColonsJoin(a);
    ColonsJoin(b);
    if Join(a, ":") == Join(b, ":") {
      if |a| == 1 {
        assert a == [Join(a, ":")] && b == [Join(b, ":")];
      } else {
        JoinOfMore(a);
        JoinOfMore(b);
        hide Join;
        CutFirst(a[0], Join(a[1..], ":"), b[0], Join(b[1..], ":"), ':');
        JoinIsInjective(a[1..], b[1..]);
        assert a == [a[0]] + a[1..] && b == [b[0]] + b[1..];
      }
    }
  }

  lemma JoinBehind(head: string, texts: seq<string>)
    ensures Join([head] + texts, ":") == if texts == [] then head else head + ":" + Join(texts, ":")
  {
    assert ([head] + texts)[1..] == texts;
  }

  lemma JoinBehindIsInjective(head: string, a: seq<string>, b: seq<string>)
    requires NoColons(a) && NoColons(b)
    ensures Join([head] + a, ":") == Join([head] + b, ":") <==> a == b
  {
    JoinBehind(head, a);
    JoinBehind(head, b);
    if a != [] && b != [] && Join([head] + a, ":") == Join([head] + b, ":") {
      var start := head + ":";
      assert (start + Join(a, ":"))[|start|..] == Join(a, ":") && (start + Join(b, ":"))[|start|..] == Join(b, ":");
      JoinIsInjective(a, b);
    }
  }

  function Plain(ns: string, parts: seq<Option<string>>, projectId: Option<string>): string {
    Join(Segments(ns, parts, projectId), ":")
  }

  lemma PlainIsInjective(ns: string, a: seq<string>, b: seq<string>, projectId: Option<string>)
    requires NoColons(a) && NoColons(b)
    ensures Plain(ns, Given(a), projectId) == Plain(ns, Given(b), projectId) <==> a == b
  {
    PresentOfGiven(a);
    PresentOfGiven(b);
    if projectId.None? {
      assert Segments(ns, Given(a), projectId) == [ns] + a && Segments(ns, Given(b), projectId) == [ns] + b;
      JoinBehindIsInjective(ns, a, b);
    } else {
      var mark := "p:" + projectId.value;
      assert Segments(ns, Given(a), projectId) == [ns] + ([mark] + a) && Segments(ns, Given(b), projectId) == [ns] + ([mark] + b);
      JoinBehind(ns, [mark] + a);
      JoinBehind(ns, [mark] + b);
      var start := ns + ":";
      assert Plain(ns, Given(a), projectId)[|start|..] == Join([mark] + a, ":");
      assert Plain(ns, Given(b), projectId)[|start|..] == Join([mark] + b, ":");
      JoinBehindIsInjective(mark, a, b);
    }
  }

  /** Within a namespace and a project, keys of parts without colons differ exactly when the
      parts do, as long as neither is digested; digested ones differ exactly when the digests
      of those different texts do. */
  lemma KeysDifferWhen(ns: string, a: seq<string>, b: seq<string>, projectId: Option<string>, digest: string -> string)
    requires NoColons(a) && NoColons(b)
    ensures var x, y := Plain(ns, Given(a), projectId), Plain(ns, Given(b), projectId);
            && (x == y <==> a == b)
            && (|x| <= MAX_KEY && |y| <= MAX_KEY ==>
                  (MakeKey(ns, Given(a), projectId, digest) == MakeKey(ns, Given(b), projectId, digest) <==> a == b))
            && (|x| > MAX_KEY && |y| > MAX_KEY ==>
                  (MakeKey(ns, Given(a), projectId, digest) == MakeKey(ns, Given(b), projectId, digest) <==> digest(x) == digest(y)))
  {
    PlainIsInjective(ns, a, b, projectId);
    hide Segments, Join;
    var x, y := Plain(ns, Given(a), projectId), Plain(ns, Given(b), projectId);
    if |x| > MAX_KEY && |y| > MAX_KEY {
      var start := ns + ":" + (if projectId.GetOr("") == "" then "" else "p:" + projectId.value + ":") + "h:";
      assert MakeKey(ns, Given(a), projectId, digest)[|start|..] == digest(x);
      assert MakeKey(ns, Given(b), projectId, digest)[|start|..] == digest(y);
    }
  }

  /** No key of one project is a key of another, whatever the parts and the digest. */
  lemma ProjectsApart(ns: string, parts: seq<Option<string>>, p: string, parts': seq<Option<string>>, p': string, digest: string -> string)
    requires p != p' && ':' !in p && ':' !in p' && Marked(ns, parts, p) && Marked(ns, parts', p')
    ensures MakeKey(ns, parts, Some(p), digest) != MakeKey(ns, parts', Some(p'), digest)
  {
    hide MakeKey, Marked;
    var rest := ProjectKeyShape(ns, parts, p, digest);
    var rest' := ProjectKeyShape(ns, parts', p', digest);
    var start := ns + [':'] + "p:";
    var key, key' := MakeKey(ns, parts, Some(p), digest), MakeKey(ns, parts', Some(p'), digest);
    assert key == start + (p + rest) && key' == start + (p' + rest');
    assert p <= p + rest && p' <= p' + rest';
    if key == key' {
      assert key[|start|..] == p + rest && key'[|start|..] == p' + rest';
      PrefixOfProject(p, p', rest');
      PrefixOfProject(p', p, rest);
    }
  }
}
