/** The read scope of an AI service: one allowlist pattern, matched segment
    for segment. */
module RouteScope {
  import opened Buckets

  // ------------------------------------------------------------------
  // Segments
  // ------------------------------------------------------------------

  predicate SlashFree(s: string) {
    '/' !in s
  }

  /** Where the first slash is, or the length. */
  function FirstSlash(s: string): (n: nat)
    ensures n <= |s| && SlashFree(s[..n]) && (n < |s| ==> s[n] == '/')
  {
    if s == "" || s[0] == '/' then 0
    else
      var n := FirstSlash(s[1..]);
      assert s[..n + 1] == [s[0]] + s[1..][..n];
      n + 1
  }

  /** The slash-separated segments of a string, of which there is always one. */
  function Split(s: string): (segments: seq<string>)
    ensures segments != [] && forall i :: 0 <= i < |segments| ==> SlashFree(segments[i])
    decreases |s|
  {
    var n := FirstSlash(s);
    if n == |s| then assert s[..n] == s; [s] else [s[..n]] + Split(s[n + 1..])
  }

  function Join(segments: seq<string>): string
    requires segments != []
  {
    if |segments| == 1 then segments[0] else segments[0] + "/" + Join(segments[1..])
  }

  lemma JoinCons(head: string, rest: seq<string>)
    requires rest != []
    ensures Join([head] + rest) == head + "/" + Join(rest)
  {
    assert ([head] + rest)[1..] == rest;
  }

  lemma AroundSlash(s: string, n: nat)
    requires n < |s| && s[n] == '/'
    ensures s == s[..n] + "/" + s[n + 1..]
  {
  }

  lemma {:induction false} JoinSplit(s: string)
    ensures Join(Split(s)) == s
    decreases |s|
  {
    var n := FirstSlash(s);
    if n < |s| {
      var rest := s[n + 1..];
      JoinSplit(rest);
      JoinCons(s[..n], Split(rest));
      AroundSlash(s, n);
    }
  }

  lemma {:induction false} FirstSlashOf(a: string, b: string)
    requires SlashFree(a)
    ensures FirstSlash(a) == |a| && FirstSlash(a + "/" + b) == |a|
  {
    var s := a + "/" + b;
    if a != "" {
      assert s[1..] == a[1..] + "/" + b;
      assert s[0] == a[0] && a[0] in a;
      FirstSlashOf(a[1..], b);
    }
  }

  lemma {:induction false} SplitJoin(segments: seq<string>)
    requires segments != [] && forall i :: 0 <= i < |segments| ==> SlashFree(segments[i])
    ensures Split(Join(segments)) == segments
  {
    var head := segments[0];
    if |segments| == 1 {
      FirstSlashOf(head, "");
    } else {
      var rest := Join(segments[1..]);
      SplitJoin(segments[1..]);
      FirstSlashOf(head, rest);
      var s := head + "/" + rest;
      assert s[..|head|] == head && s[|head| + 1..] == rest;
      assert segments == [head] + segments[1..];
    }
  }

  /** A split iterator: what is left of the string, until it has run out. */
  class Segments {
    var rest: string
    var finished: bool

    ghost function Remaining(): seq<string>
      reads this
    {
      if finished then [] else Split(rest)
    }

    constructor (s: string)
      ensures Remaining() == Split(s)
    {
      rest, finished := s, false;
    }

    method Next() returns (segment: Option<string>)
      modifies this
      ensures old(Remaining()) == [] ==> segment == None && Remaining() == []
      ensures old(Remaining()) != [] ==>
                segment == Some(old(Remaining())[0]) && Remaining() == old(Remaining())[1..]
    {
      if finished {
        return None;
      }
      var n := FirstSlash(rest);
      segment := Some(rest[..n]);
      if n == |rest| {
        assert rest[..n] == rest;
        finished := true;
      } else {
        rest := rest[n + 1..];
      }
    }
  }

  // ------------------------------------------------------------------
  // Matching
  // ------------------------------------------------------------------

  predicate IsHole(segment: string) {
    segment != "" && segment[0] == '{' && segment[|segment|-1] == '}'
  }

  predicate SegmentMatches(expected: string, given: string) {
    if IsHole(expected) then given != "" else expected == given
  }

  ghost predicate SegmentsMatch(expected: seq<string>, actual: seq<string>) {
    |expected| == |actual| && forall i :: 0 <= i < |expected| ==> SegmentMatches(expected[i], actual[i])
  }

  /** One pattern against one path; the first character of each is skipped. */
  ghost predicate Matches(pattern: string, path: string)
    requires pattern != "" && path != ""
  {
    SegmentsMatch(Split(pattern[1..]), Split(path[1..]))
  }

  lemma MatchStep(es: seq<string>, gs: seq<string>)
    ensures es == [] || gs == [] ==> (SegmentsMatch(es, gs) <==> es == [] && gs == [])
    ensures es != [] && gs != [] ==>
              (SegmentsMatch(es, gs) <==> SegmentMatches(es[0], gs[0]) && SegmentsMatch(es[1..], gs[1..]))
  {
    if es != [] && gs != [] && |es| == |gs| && SegmentMatches(es[0], gs[0]) && SegmentsMatch(es[1..], gs[1..]) {
      forall i | 0 <= i < |es|
        ensures SegmentMatches(es[i], gs[i])
      {
        assert i > 0 ==> es[i] == es[1..][i - 1] && gs[i] == gs[1..][i - 1];
      }
    }
  }

  method PatternMatches(pattern: string, path: string) returns (ok: bool)
    requires pattern != "" && path != ""
    ensures ok == Matches(pattern, path)
  {
    var expected := new Segments(pattern[1..]);
    var actual := new Segments(path[1..]);
    while true
      invariant expected != actual && fresh(expected) && fresh(actual)
      invariant SegmentsMatch(expected.Remaining(), actual.Remaining()) <==> Matches(pattern, path)
      decreases |expected.Remaining()|
    {
      MatchStep(expected.Remaining(), actual.Remaining());
      var e := expected.Next();
      var g := actual.Next();
      if e.None? && g.None? {
        return true;
      }
      if e.None? || g.None? {
        return false;
      }
      var segment, given := e.value, g.value;
      var fits := if segment != "" && segment[0] == '{' && segment[|segment|-1] == '}'
                  then given != "" else segment == given;
      if !fits {
        return false;
      }
    }
  }

  // ------------------------------------------------------------------
  // A match is an instance of the pattern
  // ------------------------------------------------------------------

  function Holes(expected: seq<string>): nat {
    if expected == [] then 0 else (if IsHole(expected[0]) then 1 else 0) + Holes(expected[1..])
  }

  /** The pattern with its placeholders replaced, in order. */
  function Instantiate(expected: seq<string>, fill: seq<string>): (actual: seq<string>)
    requires |fill| == Holes(expected)
    ensures |actual| == |expected|
  {
    if expected == [] then []
    else if IsHole(expected[0]) then [fill[0]] + Instantiate(expected[1..], fill[1..])
    else [expected[0]] + Instantiate(expected[1..], fill)
  }

  /** What a path puts in the placeholders. */
  function Captured(expected: seq<string>, actual: seq<string>): (fill: seq<string>)
    requires |expected| == |actual|
    ensures |fill| == Holes(expected)
  {
    if expected == [] then []
    else if IsHole(expected[0]) then [actual[0]] + Captured(expected[1..], actual[1..])
    else Captured(expected[1..], actual[1..])
  }

  ghost predicate ValidFill(fill: seq<string>) {
    forall i :: 0 <= i < |fill| ==> fill[i] != "" && SlashFree(fill[i])
  }

  lemma {:induction false} CaptureInstantiate(expected: seq<string>, actual: seq<string>)
    requires SegmentsMatch(expected, actual)
    requires forall i :: 0 <= i < |actual| ==> SlashFree(actual[i])
    ensures Instantiate(expected, Captured(expected, actual)) == actual
    ensures ValidFill(Captured(expected, actual))
  {
    if expected != [] {
      assert SegmentMatches(expected[0], actual[0]);
      CaptureInstantiate(expected[1..], actual[1..]);
      assert actual == [actual[0]] + actual[1..];
      if IsHole(expected[0]) {
        assert Captured(expected, actual)[1..] == Captured(expected[1..], actual[1..]);
      }
    }
  }

  lemma {:induction false} InstantiateCapture(expected: seq<string>, fill: seq<string>)
    requires |fill| == Holes(expected) && ValidFill(fill)
    requires forall i :: 0 <= i < |expected| ==> SlashFree(expected[i])
    ensures SegmentsMatch(expected, Instantiate(expected, fill))
    ensures Captured(expected, Instantiate(expected, fill)) == fill
    ensures forall i :: 0 <= i < |expected| ==> SlashFree(Instantiate(expected, fill)[i])
  {
    if expected != [] {
      var rest := if IsHole(expected[0]) then fill[1..] else fill;
      InstantiateCapture(expected[1..], rest);
      var actual := Instantiate(expected, fill);
      assert actual[1..] == Instantiate(expected[1..], rest);
      if IsHole(expected[0]) {
        assert fill == [fill[0]] + fill[1..];
      }
      assert SegmentMatches(expected[0], actual[0]);
    }
  }

  /** `path` is `pattern` with `fill` in its placeholders. */
  ghost predicate IsInstance(pattern: string, path: string, fill: seq<string>)
    requires pattern != "" && path != ""
  {
    && |fill| == Holes(Split(pattern[1..])) && ValidFill(fill)
    && path[1..] == Join(Instantiate(Split(pattern[1..]), fill))
  }

  /** Matching and instantiating undo each other, on all strings: a path matches
      exactly when it is the pattern with each placeholder replaced by one
      non-empty segment without a slash, and then in one way only. */
  lemma MatchIffInstance(pattern: string, path: string)
    requires pattern != "" && path != ""
    ensures Matches(pattern, path) <==> exists fill :: IsInstance(pattern, path, fill)
    ensures forall fill, other :: IsInstance(pattern, path, fill) && IsInstance(pattern, path, other) ==> fill == other
  {
    var expected, actual := Split(pattern[1..]), Split(path[1..]);
    if Matches(pattern, path) {
      CaptureInstantiate(expected, actual);
      JoinSplit(path[1..]);
      assert IsInstance(pattern, path, Captured(expected, actual));
    }
    forall fill | IsInstance(pattern, path, fill)
      ensures Matches(pattern, path) && fill == Captured(expected, actual)
    {
      InstantiateCapture(expected, fill);
      SplitJoin(Instantiate(expected, fill));
    }
  }

  /** A pattern without placeholders matches itself and nothing else. */
  lemma LiteralMatchesItself(pattern: string, path: string)
    requires pattern != "" && path != "" && pattern[0] == path[0] && Holes(Split(pattern[1..])) == 0
    ensures Matches(pattern, path) <==> path == pattern
  {
    var expected := Split(pattern[1..]);
    MatchIffInstance(pattern, path);
    JoinSplit(pattern[1..]);
    NoHoles(expected);
    if IsInstance(pattern, path, []) {
      assert path == [path[0]] + path[1..] && pattern == [pattern[0]] + pattern[1..];
    }
    if path == pattern {
      assert IsInstance(pattern, path, []);
    }
    if Matches(pattern, path) {
      var fill :| IsInstance(pattern, path, fill);
      assert fill == [];
    }
  }

  lemma {:induction false} NoHoles(expected: seq<string>)
    requires Holes(expected) == 0
    ensures Instantiate(expected, []) == expected
  {
    if expected != [] {
      NoHoles(expected[1..]);
      assert expected == [expected[0]] + expected[1..];
    }
  }

  // ------------------------------------------------------------------
  // What a placeholder is
  // ------------------------------------------------------------------

  lemma {:induction false} JoinConcat(x: seq<string>, y: seq<string>)
    requires x != [] && y != []
    ensures Join(x + y) == Join(x) + "/" + Join(y)
  {
    assert (x + y)[0] == x[0];
    if |x| == 1 {
      assert (x + y)[1..] == y;
    } else {
      assert (x + y)[1..] == x[1..] + y;
      JoinConcat(x[1..], y);
    }
  }

  lemma SplitConcat(a: string, b: string)
    ensures Split(a + "/" + b) == Split(a) + Split(b)
  {
    JoinSplit(a);
    JoinSplit(b);
    JoinConcat(Split(a), Split(b));
    SplitJoin(Split(a) + Split(b));
  }

  /** The segments of a leading or trailing part of a path, which is empty or
      starts with a slash. */
  function Part(s: string): seq<string> {
    if s == "" then [] else Split(s[1..])
  }

  ghost predicate IsPart(s: string) {
    s == "" || s[0] == '/'
  }

  lemma SplitFront(prefix: string, inner: string)
    ensures Split((prefix + "/" + inner)[1..]) == Part(prefix) + Split(inner)
  {
    if prefix == "" {
      assert (prefix + "/" + inner)[1..] == inner;
    } else {
      assert (prefix + "/" + inner)[1..] == prefix[1..] + "/" + inner;
      SplitConcat(prefix[1..], inner);
    }
  }

  lemma SplitBack(v: string, tail: string)
    requires IsPart(tail)
    ensures Split(v + tail) == Split(v) + Part(tail)
  {
    if tail == "" {
      assert v + tail == v;
    } else {
      assert v + tail == v + "/" + tail[1..];
      SplitConcat(v, tail[1..]);
    }
  }

  lemma Reassociate(prefix: string, v: string, tail: string)
    ensures prefix + "/" + v + tail == prefix + "/" + (v + tail)
  {
  }

  lemma SplitInside(prefix: string, v: string, tail: string)
    requires IsPart(tail)
    ensures Split((prefix + "/" + v + tail)[1..]) == Part(prefix) + (Split(v) + Part(tail))
  {
    Reassociate(prefix, v, tail);
    SplitFront(prefix, v + tail);
    SplitBack(v, tail);
  }

  lemma OneSegment(v: string)
    ensures |Split(v)| == 1 <==> SlashFree(v)
    ensures SlashFree(v) ==> Split(v) == [v]
  {
    var n := FirstSlash(v);
    if n == |v| {
      assert v[..n] == v;
    } else {
      assert v[n] in v;
    }
  }

  lemma MatchInside(before: seq<string>, expected: string, given: seq<string>, after: seq<string>)
    ensures SegmentsMatch(before + ([expected] + after), before + (given + after)) <==>
            |given| == 1 && SegmentMatches(expected, given[0])
  {
    var pattern, path := before + ([expected] + after), before + (given + after);
    if |given| == 1 {
      assert pattern[|before|] == expected && path[|before|] == given[0];
      assert forall i :: 0 <= i < |pattern| && i != |before| ==> pattern[i] == path[i];
    }
  }

  lemma MatchAt(prefix: string, expected: string, tail: string, v: string)
    requires SlashFree(expected) && IsPart(tail)
    ensures Matches(prefix + "/" + expected + tail, prefix + "/" + v + tail) <==>
            SlashFree(v) && SegmentMatches(expected, v)
  {
    SplitInside(prefix, expected, tail);
    SplitInside(prefix, v, tail);
    OneSegment(expected);
    OneSegment(v);
    MatchInside(Part(prefix), expected, Split(v), Part(tail));
  }

  /** A name in braces, whatever the name, stands for exactly one segment: in
      its place a path may have anything that is not empty and has no slash. */
  lemma PlaceholderTakesOne(prefix: string, name: string, tail: string, v: string)
    requires SlashFree(name) && IsPart(tail)
    ensures Matches(prefix + "/{" + name + "}" + tail, prefix + "/" + v + tail) <==> v != "" && SlashFree(v)
  {
    var segment := "{" + name + "}";
    assert segment[0] == '{' && segment[|segment| - 1] == '}';
    assert prefix + "/{" + name + "}" + tail == prefix + "/" + segment + tail;
    MatchAt(prefix, segment, tail, v);
  }

  /** Any other segment stands for itself alone. */
  lemma LiteralTakesItself(prefix: string, segment: string, tail: string, v: string)
    requires SlashFree(segment) && IsPart(tail)
    requires forall name: string :: segment != "{" + name + "}"
    ensures Matches(prefix + "/" + segment + tail, prefix + "/" + v + tail) <==> v == segment
  {
    if |segment| > 1 {
      var name := segment[1..|segment| - 1];
      assert segment == [segment[0]] + name + [segment[|segment| - 1]];
      assert segment != "{" + name + "}";
    }
    MatchAt(prefix, segment, tail, v);
  }

  // ------------------------------------------------------------------
  // The allowlist
  // ------------------------------------------------------------------

  const AI_API_ALLOWLIST: seq<string> := [
    "/auth/me",
    "/users/me/profile",
    "/users/{id}/profile",
    "/notes",
    "/notes/{id}",
    "/course-notes",
    "/course-notes/{id}",
    "/course-notes/{id}/files",
    "/homework",
    "/homework/{id}",
    "/homework/{id}/result",
    "/homework/{id}/submission",
    "/homework/report/{user}",
    "/marks/me",
    "/marks/{user}",
    "/attendance/me",
    "/attendance/{user}",
    "/pomodoro/me",
    "/pomodoro/{user}"
  ]

  /** The first entry that matches, and none for a path without its leading
      slash or with a query in it. */
  method RouteTemplate(allowlist: seq<string>, path: string) returns (template: Option<string>)
    requires forall i :: 0 <= i < |allowlist| ==> allowlist[i] != ""
    ensures template.Some? ==>
              && path != "" && path[0] == '/' && '?' !in path
              && exists i :: 0 <= i < |allowlist| && template.value == allowlist[i] && Matches(allowlist[i], path) &&
                   forall j :: 0 <= j < i ==> !Matches(allowlist[j], path)
    ensures template.None? ==>
              path == "" || path[0] != '/' || '?' in path ||
              forall i :: 0 <= i < |allowlist| ==> !Matches(allowlist[i], path)
  {
    if path == "" || path[0] != '/' || '?' in path {
      return None;
    }
    for i := 0 to |allowlist|
      invariant forall j :: 0 <= j < i ==> !Matches(allowlist[j], path)
    {
      var ok := PatternMatches(allowlist[i], path);
      if ok {
        return Some(allowlist[i]);
      }
    }
    return None;
  }

  /** A service may read a path exactly when some allowlist entry, instantiated,
      is that path, and the path carries no query. */
  method PathAllowed(path: string) returns (allowed: bool)
    ensures allowed <==>
              path != "" && path[0] == '/' && '?' !in path &&
              exists i, fill :: 0 <= i < |AI_API_ALLOWLIST| && IsInstance(AI_API_ALLOWLIST[i], path, fill)
  {
    var template := RouteTemplate(AI_API_ALLOWLIST, path);
    allowed := template.Some?;
    if path != "" {
      forall i | 0 <= i < |AI_API_ALLOWLIST|
        ensures Matches(AI_API_ALLOWLIST[i], path) <==> exists fill :: IsInstance(AI_API_ALLOWLIST[i], path, fill)
      {
        MatchIffInstance(AI_API_ALLOWLIST[i], path);
      }
    }
  }

  /** So a service may read the marks of any user, for one. */
  lemma MarksOfAnyUser(user: string)
    requires user != "" && SlashFree(user)
    ensures exists i :: 0 <= i < |AI_API_ALLOWLIST| && AI_API_ALLOWLIST[i] != "" && Matches(AI_API_ALLOWLIST[i], "/marks/" + user)
  {
    PlaceholderTakesOne("/marks", "user", "", user);
    assert "/marks" + "/{" + "user" + "}" + "" == "/marks/{user}" == AI_API_ALLOWLIST[14];
    assert "/marks" + "/" + user + "" == "/marks/" + user;
  }
}
