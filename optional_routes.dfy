/**
 * createOptionalRoutes, identical in route.go and router.go: a path template
 * with `{param}?` optional segments becomes the list of concrete path strings
 * registered for it. The regular expression `\{[^\}]+\}\?` is written out as a
 * left-to-right scanner.
 */
module OptionalRoutes {
  import opened GoStrings

  /** The first position at or after i that holds '}', or |s| when there is none. */
  function CloseFrom(s: string, i: nat): (j: nat)
    requires i <= |s|
    ensures i <= j <= |s|
    ensures j < |s| ==> s[j] == '}'
    ensures forall k :: i <= k < j ==> s[k] != '}'
    decreases |s| - i
  {
    if i == |s| || s[i] == '}' then i else CloseFrom(s, i + 1)
  }

  /**
   * `\{[^\}]+\}\?` matches at position i: a '{', one or more characters other
   * than '}', the first '}' after them, then '?'. Because `[^\}]+` cannot pass a
   * '}', the only candidate closing brace is the first one after i.
   */
  predicate MatchesAt(s: string, i: nat) {
    i < |s| && s[i] == '{' &&
    var j := CloseFrom(s, i + 1);
    j > i + 1 && j + 1 < |s| && s[j + 1] == '?'
  }

  /** The text of one optional marker: "{" + x + "}?" with x non-empty and free of '}'. */
  predicate IsMarker(m: string) {
    |m| >= 4 && m[0] == '{' && m[|m| - 2] == '}' && m[|m| - 1] == '?' && '}' !in m[1..|m| - 2]
  }

  /** regexp.FindAllString from position i: leftmost matches, each scan resuming after the previous match. */
  function MarkersFrom(s: string, i: nat): seq<string>
    requires i <= |s|
    decreases |s| - i
  {
    if i == |s| then []
    else if MatchesAt(s, i) then
      var j := CloseFrom(s, i + 1);
      [s[i..j + 2]] + MarkersFrom(s, j + 2)
    else MarkersFrom(s, i + 1)
  }

  /** The scanner yields only complete markers. */
  lemma {:induction false} MarkersFromShape(s: string, i: nat)
    requires i <= |s|
    ensures forall k :: 0 <= k < |MarkersFrom(s, i)| ==> IsMarker(MarkersFrom(s, i)[k])
    decreases |s| - i
  {
    if i < |s| {
      if MatchesAt(s, i) {
        var j := CloseFrom(s, i + 1);
        var m := s[i..j + 2];
        assert |m| == j + 2 - i;
        assert m[1..|m| - 2] == s[i + 1..j] by {
          assert forall k :: 1 <= k < |m| - 2 ==> m[k] == s[i + k];
        }
        MarkersFromShape(s, j + 2);
        MarkersFromMatch(s, i, j);
      } else {
        MarkersFromShape(s, i + 1);
        MarkersFromSkip(s, i);
      }
    }
  }

  /** The scan misses nothing: it finds no marker only when no match starts at or after i. */
  lemma {:induction false} MarkersFromComplete(s: string, i: nat)
    requires i <= |s|
    ensures MarkersFrom(s, i) == [] <==> forall k :: i <= k < |s| ==> !MatchesAt(s, k)
    decreases |s| - i
  {
    if i < |s| && !MatchesAt(s, i) {
      MarkersFromComplete(s, i + 1);
    }
  }

  /** The optional markers of a template, in template order. */
  function Markers(s: string): seq<string> {
    MarkersFrom(s, 0)
  }

  /**
   * The variant without one optional segment: the first occurrence of the
   * marker deleted, "//" collapsed to "/", one trailing "/" trimmed unless the
   * result is "/", then every '?' deleted.
   */
  function WithoutMarker(route: string, marker: string): string {
    Tidy(ReplaceFirst(route, marker))
  }

  /** What follows the deletion: "//" collapsed, one trailing "/" trimmed unless the result is "/", every '?' deleted. */
  function Tidy(removed: string): string {
    RemoveAll(TrimOne(ReplaceDoubleSlash(removed)), '?')
  }

  /** One trailing "/" trimmed, unless the path is "/" itself. */
  function TrimOne(collapsed: string): string {
    if collapsed != "/" && HasSuffix(collapsed, '/') then TrimSuffix(collapsed, '/') else collapsed
  }

  /**
   * createOptionalRoutes: the template itself when it has no optional marker;
   * otherwise the template with every '?' deleted, followed by one variant per
   * marker, in marker order.
   */
  function CreateOptionalRoutes(route: string): (routes: seq<string>)
    ensures |routes| == 1 + |Markers(route)|
    ensures Markers(route) == [] ==> routes == [route]
    ensures Markers(route) != [] ==> forall i :: 0 <= i < |routes| ==> '?' !in routes[i]
  {
    var ms := Markers(route);
    if |ms| > 0 then
      [RemoveAll(route, '?')] + seq(|ms|, i requires 0 <= i < |ms| => WithoutMarker(route, ms[i]))
    else [route]
  }

  // ---------------------------------------------------------------------------
  // Properties

  lemma {:induction false} NoQuestionNoMarkersFrom(s: string, i: nat)
    requires i <= |s|
    requires forall k :: i <= k < |s| ==> s[k] != '?'
    ensures MarkersFrom(s, i) == []
    decreases |s| - i
  {
    if i < |s| {
      NoQuestionNoMarkersFrom(s, i + 1);
    }
  }

  /** A template without '?' has no optional segment and registers as itself alone. */
  lemma NoQuestionMarkIsItself(route: string)
    requires '?' !in route
    ensures Markers(route) == []
    ensures CreateOptionalRoutes(route) == [route]
  {
    NoQuestionNoMarkersFrom(route, 0);
  }

  /** Positions where no match starts are skipped by the scanner. */
  lemma {:induction false} SkipNonMatches(s: string, i: nat, m: nat)
    requires i <= m <= |s|
    requires forall k :: i <= k < m ==> !MatchesAt(s, k)
    ensures MarkersFrom(s, i) == MarkersFrom(s, m)
    decreases m - i
  {
    if i < m {
      SkipNonMatches(s, i + 1, m);
    }
  }

  /** Every '{' in p is closed by a later '}' in p. */
  predicate BracesClosed(p: string) {
    forall i :: 0 <= i < |p| && p[i] == '{' ==> exists k :: i < k < |p| && p[k] == '}'
  }

  /** The single trailing optional segment of `p + "/{" + name + "}?"`. */
  lemma {:induction false} TrailingMarker(p: string, name: string)
    requires '?' !in p && BracesClosed(p)
    requires |name| > 0 && '}' !in name
    ensures Markers(p + "/{" + name + "}?") == ["{" + name + "}?"]
  {
    var route := p + "/{" + name + "}?";
    var n := |p|;
    assert route[..n] == p && route[n] == '/';
    ChunkSkipped(route, p);
    assert MarkersFrom(route, n) == MarkersFrom(route, n + 1) by {
      assert !MatchesAt(route, n);
    }
    TrailingMarkerScanned(p, name);
  }

  lemma TrailingMarkerScanned(p: string, name: string)
    requires |name| > 0 && '}' !in name
    ensures MarkersFrom(p + "/{" + name + "}?", |p| + 1) == ["{" + name + "}?"]
  {
    TrailingRegrouped(p, name);
    MarkersFromAfter(p + "/", "{" + name + "}?", 0);
    SingleMarker(name);
  }

  lemma TrailingRegrouped(p: string, name: string)
    ensures MarkersFrom(p + "/{" + name + "}?", |p| + 1) == MarkersFrom((p + "/") + ("{" + name + "}?"), |p + "/"| + 0)
  {
    SlashThenMarker(p, name);
  }

  lemma SlashThenMarker(p: string, name: string)
    ensures p + "/{" + name + "}?" == (p + "/") + ("{" + name + "}?")
  {
    var ps := p + "/";
    assert "/{" == "/" + "{";
    AppendAssoc(p, "/", "{");
    AppendAssoc(ps, "{", name);
    AppendAssoc(ps, "{" + name, "}?");
  }

  /** The first '}' at or after i is the one at e when none comes between. */
  lemma {:induction false} CloseFromAt(s: string, i: nat, e: nat)
    requires i <= e < |s| && s[e] == '}'
    requires forall k :: i <= k < e ==> s[k] != '}'
    ensures CloseFrom(s, i) == e
    decreases e - i
  {
    if i < e {
      CloseFromAt(s, i + 1, e);
    }
  }

  /** A lone marker `{name}?` is scanned as itself. */
  lemma SingleMarker(name: string)
    requires |name| > 0 && '}' !in name
    ensures MarkersFrom("{" + name + "}?", 0) == ["{" + name + "}?"]
  {
    var m := "{" + name + "}?";
    var e := |name| + 1;
    MarkerShape(name);
    CloseFromAt(m, 1, e);
    MarkersFromMatch(m, 0, e);
    assert m[0..e + 2] == m;
    assert MarkersFrom(m, e + 2) == [];
  }

  lemma MarkerShape(name: string)
    requires '}' !in name
    ensures var m := "{" + name + "}?";
            var e := |name| + 1;
            |m| == e + 2 && m[0] == '{' && m[e] == '}' && m[e + 1] == '?' &&
            forall t :: 1 <= t < e ==> m[t] != '}'
  {
    var m := "{" + name + "}?";
    forall t | 1 <= t < |name| + 1
      ensures m[t] != '}'
    {
      assert m[t] == name[t - 1] && name[t - 1] in name;
    }
  }

  /** The template with its '?' deleted is the template with the parameter kept. */
  lemma FullVariant(p: string, name: string)
    requires '?' !in p && '?' !in name
    ensures RemoveAll(p + "/{" + name + "}?", '?') == p + "/{" + name + "}"
  {
    var full := p + "/{" + name + "}";
    assert p + "/{" + name + "}?" == full + "?";
    assert '?' !in full by {
      forall t | 0 <= t < |full|
        ensures full[t] != '?'
      {
        if t < |p| {
          assert full[t] == p[t];
        } else if |p| + 2 <= t < |p| + 2 + |name| {
          assert full[t] == name[t - |p| - 2];
        }
      }
    }
    RemoveAllConcat(full, "?", '?');
    RemoveAllNoop(full, '?');
    assert RemoveAll("?", '?') == "";
  }

  /** The only '?' of `p + "/{" + name + "}?"` is its last character, so the marker first occurs right after p's end. */
  lemma MarkerIndex(p: string, name: string)
    requires '?' !in p && '?' !in name
    ensures Index(p + "/{" + name + "}?", "{" + name + "}?") == |p| + 1
  {
    var route := p + "/{" + name + "}?";
    var m := "{" + name + "}?";
    var n := |p|;
    assert route[n + 1..n + 1 + |m|] == m;
    assert OccursAt(route, m, n + 1);
    forall t | 0 <= t < |route| - 1
      ensures route[t] != '?'
    {
      if t < n {
        assert route[t] == p[t] && p[t] in p;
      } else if n + 2 <= t < n + 2 + |name| {
        assert route[t] == name[t - n - 2] && name[t - n - 2] in name;
      }
    }
    forall k | 0 <= k < n + 1
      ensures !OccursAt(route, m, k)
    {
      assert route[k + |m| - 1] != '?';
      assert m[|m| - 1] == '?';
      if k + |m| <= |route| {
        assert route[k..k + |m|][|m| - 1] != m[|m| - 1];
      }
    }
  }

  /** Dropping the trailing optional segment leaves the prefix ("/" for an empty prefix). */
  lemma ShortVariant(p: string, name: string)
    requires '?' !in p && '?' !in name && NoDoubleSlash(p) && !HasSuffix(p, '/')
    ensures WithoutMarker(p + "/{" + name + "}?", "{" + name + "}?") == if p == "" then "/" else p
  {
    var route := p + "/{" + name + "}?";
    var m := "{" + name + "}?";
    var n := |p|;
    MarkerIndex(p, name);
    assert route[..n + 1] == p + "/";
    assert route[n + 1 + |m|..] == "";
    var q := p + "/";
    assert ReplaceFirst(route, m) == q;
    assert NoDoubleSlash(q) by {
      forall t | 0 <= t < |q| - 1
        ensures !(q[t] == '/' && q[t + 1] == '/')
      {
        if t < n - 1 {
          assert q[t] == p[t] && q[t + 1] == p[t + 1];
        } else {
          assert q[t] == p[n - 1];
        }
      }
    }
    ReplaceDoubleSlashNoop(q);
    if p == "" {
      assert q == "/";
      RemoveAllNoop("/", '?');
    } else {
      assert TrimSuffix(q, '/') == p;
      RemoveAllNoop(p, '?');
    }
  }

  /**
   * The template `/user/{username}?` shape: a prefix p without '?', "//" or a
   * trailing '/', followed by one optional parameter, registers exactly two
   * paths: the prefix with the parameter, and the prefix alone ("/" when the
   * prefix is empty).
   */
  lemma TrailingOptionalSegment(p: string, name: string)
    requires '?' !in p && BracesClosed(p) && NoDoubleSlash(p) && !HasSuffix(p, '/')
    requires |name| > 0 && '}' !in name && '?' !in name
    ensures CreateOptionalRoutes(p + "/{" + name + "}?") == [p + "/{" + name + "}", if p == "" then "/" else p]
  {
    TrailingMarker(p, name);
    FullVariant(p, name);
    ShortVariant(p, name);
  }

  // ---------------------------------------------------------------------------
  // Templates with any number of optional segments

  /** An optional parameter of a template, with the fixed text that precedes it. */
  datatype OptionalSegment = OptionalSegment(chunk: string, name: string)

  /** A parameter as it appears in a registered path. */
  function Braced(name: string): string {
    "{" + name + "}"
  }

  /** The optional marker of a parameter. */
  function Marker(name: string): string {
    Braced(name) + "?"
  }

  /** The template `chunk_0{name_0}?chunk_1{name_1}?...tail`. */
  function Template(segs: seq<OptionalSegment>, tail: string): string
    decreases |segs|
  {
    if segs == [] then tail else segs[0].chunk + Marker(segs[0].name) + Template(segs[1..], tail)
  }

  /** The same template with every parameter present and no '?': `chunk_0{name_0}chunk_1{name_1}...tail`. */
  function Full(segs: seq<OptionalSegment>, tail: string): string
    decreases |segs|
  {
    if segs == [] then tail else segs[0].chunk + Braced(segs[0].name) + Full(segs[1..], tail)
  }

  /** The template with the marker of the first segment named `name` cut out (the template itself when there is none). */
  function DropFirst(segs: seq<OptionalSegment>, tail: string, name: string): string
    decreases |segs|
  {
    if segs == [] then tail
    else if segs[0].name == name then segs[0].chunk + Template(segs[1..], tail)
    else segs[0].chunk + Marker(segs[0].name) + DropFirst(segs[1..], tail, name)
  }

  /** The index of the first segment named `name`, or the number of segments when there is none. */
  function FirstNamed(segs: seq<OptionalSegment>, name: string): (f: nat)
    ensures f <= |segs|
    ensures f < |segs| ==> segs[f].name == name
    ensures forall k :: 0 <= k < f ==> segs[k].name != name
    decreases |segs|
  {
    if segs == [] || segs[0].name == name then 0 else 1 + FirstNamed(segs[1..], name)
  }

  /** Fixed text the scanner passes over: no '?', and every '{' closed inside it. */
  predicate PlainChunk(c: string) {
    '?' !in c && BracesClosed(c)
  }

  /** A parameter name: non-empty, with no brace, '?' or '/'. */
  predicate ParamName(n: string) {
    |n| > 0 && '{' !in n && '}' !in n && '?' !in n && '/' !in n
  }

  predicate WellFormed(segs: seq<OptionalSegment>, tail: string) {
    (forall k :: 0 <= k < |segs| ==> PlainChunk(segs[k].chunk) && ParamName(segs[k].name)) && '?' !in tail
  }

  lemma WellFormedRest(segs: seq<OptionalSegment>, tail: string)
    requires WellFormed(segs, tail) && segs != []
    ensures WellFormed(segs[1..], tail)
    ensures PlainChunk(segs[0].chunk) && ParamName(segs[0].name)
  {
    forall k | 0 <= k < |segs| - 1
      ensures PlainChunk(segs[1..][k].chunk) && ParamName(segs[1..][k].name)
    {
      assert segs[1..][k] == segs[k + 1];
    }
  }

  lemma {:induction false} CloseFromAfter(a: string, b: string, i: nat)
    requires i <= |b|
    ensures CloseFrom(a + b, |a| + i) == |a| + CloseFrom(b, i)
    decreases |b| - i
  {
    if i < |b| {
      assert (a + b)[|a| + i] == b[i];
      if b[i] != '}' {
        CloseFromAfter(a, b, i + 1);
      }
    }
  }

  lemma MatchesAtAfter(a: string, b: string, i: nat)
    requires i < |b|
    ensures MatchesAt(a + b, |a| + i) <==> MatchesAt(b, i)
  {
    var s := a + b;
    assert s[|a| + i] == b[i];
    CloseFromAfter(a, b, i + 1);
    var j := CloseFrom(b, i + 1);
    if j + 1 < |b| {
      assert s[|a| + j + 1] == b[j + 1];
    }
  }

  /** One step of the scanner at a match: the marker, then the scan past it. */
  lemma MarkersFromMatch(s: string, i: nat, j: nat)
    requires i < |s| && MatchesAt(s, i) && j == CloseFrom(s, i + 1)
    ensures j + 2 <= |s| && MarkersFrom(s, i) == [s[i..j + 2]] + MarkersFrom(s, j + 2)
  {
  }

  /** One step of the scanner where no match starts. */
  lemma MarkersFromSkip(s: string, i: nat)
    requires i < |s| && !MatchesAt(s, i)
    ensures MarkersFrom(s, i) == MarkersFrom(s, i + 1)
  {
  }

  lemma SliceAfter(a: string, b: string, lo: nat, hi: nat)
    requires lo <= hi <= |b|
    ensures (a + b)[|a| + lo..|a| + hi] == b[lo..hi]
  {
  }

  /** The scanner reads what follows a prefix as it reads that text alone. */
  lemma {:induction false} MarkersFromAfter(a: string, b: string, i: nat)
    requires i <= |b|
    ensures MarkersFrom(a + b, |a| + i) == MarkersFrom(b, i)
    decreases |b| - i
  {
    if i < |b| {
      if MatchesAt(b, i) {
        var j := CloseFrom(b, i + 1);
        calc {
          MarkersFrom(a + b, |a| + i);
          == { MatchAfter(a, b, i); }
          [b[i..j + 2]] + MarkersFrom(a + b, |a| + j + 2);
          == { MarkersFromAfter(a, b, j + 2); }
          [b[i..j + 2]] + MarkersFrom(b, j + 2);
          == { MarkersFromMatch(b, i, j); }
          MarkersFrom(b, i);
        }
      } else {
        calc {
          MarkersFrom(a + b, |a| + i);
          == { MatchesAtAfter(a, b, i); MarkersFromSkip(a + b, |a| + i); }
          MarkersFrom(a + b, |a| + i + 1);
          == { MarkersFromAfter(a, b, i + 1); }
          MarkersFrom(b, i + 1);
          == { MarkersFromSkip(b, i); }
          MarkersFrom(b, i);
        }
      }
    } else {
      assert |a| + i == |a + b|;
    }
  }

  /** A match after a prefix yields the same marker and resumes at the same place as in the text alone. */
  lemma MatchAfter(a: string, b: string, i: nat)
    requires i < |b| && MatchesAt(b, i)
    ensures var j := CloseFrom(b, i + 1);
            j + 2 <= |b| &&
            MarkersFrom(a + b, |a| + i) == [b[i..j + 2]] + MarkersFrom(a + b, |a| + j + 2)
  {
    var s := a + b;
    var j := CloseFrom(b, i + 1);
    MatchesAtAfter(a, b, i);
    CloseFromAfter(a, b, i + 1);
    MarkersFromMatch(s, |a| + i, |a| + j);
    SliceAfter(a, b, i, j + 2);
  }

  /** No match starts inside a fixed chunk that is followed by a character other than '?'. */
  lemma NoMatchInChunk(s: string, c: string, i: nat)
    requires PlainChunk(c) && |c| < |s| && s[..|c|] == c && s[|c|] != '?' && i < |c|
    ensures !MatchesAt(s, i)
  {
    assert s[i] == c[i];
    if s[i] == '{' {
      var k :| i < k < |c| && c[k] == '}';
      assert s[k] == c[k];
      var j := CloseFrom(s, i + 1);
      assert j <= k;
      if j + 1 < |c| {
        assert s[j + 1] == c[j + 1] && c[j + 1] in c;
      }
    }
  }

  /** A marker is a match of the scanner, ending where the marker ends. */
  lemma MarkerMatches(s: string, at: nat, n: string)
    requires ParamName(n) && OccursAt(s, Marker(n), at)
    ensures MatchesAt(s, at) && CloseFrom(s, at + 1) == at + 1 + |n|
  {
    var M := Marker(n);
    assert forall t :: 0 <= t < |M| ==> s[at + t] == M[t] by {
      forall t | 0 <= t < |M|
        ensures s[at + t] == M[t]
      {
        assert s[at..at + |M|][t] == s[at + t];
      }
    }
    forall t | at + 1 <= t < at + 1 + |n|
      ensures s[t] != '}'
    {
      assert s[t] == M[t - at] == n[t - at - 1] && n[t - at - 1] in n;
    }
    assert s[at + 1 + |n|] == M[1 + |n|] == '}';
    assert s[at + 2 + |n|] == M[2 + |n|] == '?';
  }

  /** The scanner passes over a fixed chunk that is followed by a character other than '?'. */
  lemma ChunkSkipped(s: string, c: string)
    requires PlainChunk(c) && |c| < |s| && s[..|c|] == c && s[|c|] != '?'
    ensures MarkersFrom(s, 0) == MarkersFrom(s, |c|)
  {
    forall i | 0 <= i < |c|
      ensures !MatchesAt(s, i)
    {
      NoMatchInChunk(s, c, i);
    }
    SkipNonMatches(s, 0, |c|);
  }

  /** At a marker the scanner yields it and resumes right after it. */
  lemma MarkerScanned(s: string, at: nat, n: string)
    requires ParamName(n) && OccursAt(s, Marker(n), at)
    ensures MarkersFrom(s, at) == [Marker(n)] + MarkersFrom(s, at + |Marker(n)|)
  {
    MarkerMatches(s, at, n);
    assert s[at..at + 1 + |n| + 2] == Marker(n);
  }

  /** A fixed chunk followed by a marker: the scanner finds that marker first, then scans what follows it. */
  lemma {:induction false} LeadingMarker(c: string, n: string, rest: string)
    requires PlainChunk(c) && ParamName(n)
    ensures MarkersFrom(c + Marker(n) + rest, 0) == [Marker(n)] + MarkersFrom(rest, 0)
  {
    ChunkBeforeMarker(c, n, rest);
    MarkerBeforeRest(c, n, rest);
    MarkersFromAfter(c + Marker(n), rest, 0);
  }

  lemma ChunkBeforeMarker(c: string, n: string, rest: string)
    requires PlainChunk(c) && ParamName(n)
    ensures MarkersFrom(c + Marker(n) + rest, 0) == MarkersFrom(c + Marker(n) + rest, |c|)
  {
    var s := c + Marker(n) + rest;
    assert s[|c|] == Marker(n)[0];
    assert s[..|c|] == c;
    ChunkSkipped(s, c);
  }

  lemma MarkerBeforeRest(c: string, n: string, rest: string)
    requires ParamName(n)
    ensures MarkersFrom(c + Marker(n) + rest, |c|) == [Marker(n)] + MarkersFrom(c + Marker(n) + rest, |c + Marker(n)|)
  {
    var M := Marker(n);
    var s := c + M + rest;
    OccursInMiddle(c, M, rest);
    MarkerScanned(s, |c|, n);
    assert |c + M| == |c| + |M|;
  }

  /** The scanner finds exactly the template's markers, in order. */
  lemma {:induction false} TemplateMarkers(segs: seq<OptionalSegment>, tail: string)
    requires WellFormed(segs, tail)
    ensures var ms := Markers(Template(segs, tail));
            |ms| == |segs| && forall k :: 0 <= k < |segs| ==> ms[k] == Marker(segs[k].name)
    decreases |segs|
  {
    if segs == [] {
      NoQuestionNoMarkersFrom(tail, 0);
    } else {
      WellFormedRest(segs, tail);
      LeadingMarker(segs[0].chunk, segs[0].name, Template(segs[1..], tail));
      TemplateMarkers(segs[1..], tail);
      var ms := Markers(Template(segs, tail));
      forall k | 1 <= k < |segs|
        ensures ms[k] == Marker(segs[k].name)
      {
        assert segs[1..][k - 1] == segs[k];
      }
    }
  }

  lemma MarkerWithoutQuestion(n: string)
    requires ParamName(n)
    ensures RemoveAll(Marker(n), '?') == Braced(n)
  {
    var kept := Braced(n);
    assert '?' !in kept by {
      forall t | 0 <= t < |kept|
        ensures kept[t] != '?'
      {
        if 1 <= t <= |n| {
          assert kept[t] == n[t - 1];
        }
      }
    }
    RemoveAllConcat(kept, "?", '?');
    RemoveAllNoop(kept, '?');
    assert RemoveAll("?", '?') == "";
  }

  /** Deleting every '?' of the template keeps every parameter: the first variant is the full path. */
  lemma {:induction false} TemplateFullVariant(segs: seq<OptionalSegment>, tail: string)
    requires WellFormed(segs, tail)
    ensures RemoveAll(Template(segs, tail), '?') == Full(segs, tail)
    decreases |segs|
  {
    if segs == [] {
      RemoveAllNoop(tail, '?');
    } else {
      WellFormedRest(segs, tail);
      var c := segs[0].chunk;
      var n := segs[0].name;
      var rest := Template(segs[1..], tail);
      calc {
        RemoveAll(Template(segs, tail), '?');
        RemoveAll((c + Marker(n)) + rest, '?');
        { RemoveAllConcat(c + Marker(n), rest, '?'); }
        RemoveAll(c + Marker(n), '?') + RemoveAll(rest, '?');
        { RemoveAllConcat(c, Marker(n), '?'); RemoveAllNoop(c, '?'); MarkerWithoutQuestion(n); }
        c + Braced(n) + RemoveAll(rest, '?');
        { TemplateFullVariant(segs[1..], tail); }
        c + Braced(n) + Full(segs[1..], tail);
      }
    }
  }

  /** An occurrence of `y + "?"` that starts no later than the first '?' ends exactly at it. */
  lemma QuestionAligned(x: string, rest: string, y: string, k: nat)
    requires '?' !in x && '?' !in y && k <= |x|
    requires OccursAt(x + "?" + rest, y + "?", k)
    ensures k + |y| == |x|
  {
    var s := x + "?" + rest;
    var e := k + |y|;
    forall t | k <= t < e
      ensures s[t] != '?'
    {
      assert s[k..k + |y| + 1][t - k] == s[t];
      assert (y + "?")[t - k] == y[t - k] && y[t - k] in y;
    }
    forall t | 0 <= t < |x|
      ensures s[t] != '?'
    {
      assert s[t] == x[t] && x[t] in x;
    }
    assert s[k..k + |y| + 1][|y|] == s[e];
    assert (y + "?")[|y|] == '?';
    assert s[e] == '?';
    assert s[|x|] == '?';
  }

  /** `{name}` opens with its only '{' and holds the name between its braces. */
  lemma BracedShape(n: string)
    requires ParamName(n)
    ensures var b := Braced(n);
            |b| == |n| + 2 && b[0] == '{' && b[1..|b| - 1] == n &&
            forall t :: 0 < t < |b| ==> b[t] != '{'
  {
    var b := Braced(n);
    forall t | 0 < t < |b|
      ensures b[t] != '{'
    {
      if t <= |n| {
        assert b[t] == n[t - 1] && n[t - 1] in n;
      }
    }
    assert b[1..|b| - 1] == n;
  }

  /** `c + Braced(n)` ends with `Braced(m)` only when m is n, right after c. */
  lemma BracedSuffix(c: string, n: string, m: string)
    requires ParamName(n) && ParamName(m)
    requires |Braced(m)| <= |c| + |Braced(n)|
    requires (c + Braced(n))[|c| + |Braced(n)| - |Braced(m)|..] == Braced(m)
    ensures m == n && |Braced(m)| == |Braced(n)|
  {
    var bn, bm := Braced(n), Braced(m);
    BracedShape(n);
    BracedShape(m);
    var x := c + bn;
    var start := |x| - |bm|;
    forall t | 0 <= t < |bm|
      ensures x[start + t] == bm[t]
    {
      assert x[start..][t] == x[start + t];
    }
    forall t | |c| < t < |x|
      ensures x[t] != '{'
    {
      assert x[t] == bn[t - |c|];
    }
    assert x[|c|] == '{';
    assert start == |c|;
    assert x[|c|..] == bn;
  }

  /**
   * Where a marker can occur in `c + Marker(n) + rest` before the end of
   * `Marker(n)`: only right after c, and only when it is `Marker(n)` itself.
   */
  lemma EarlyOccurrence(c: string, n: string, rest: string, m: string, k: int)
    requires PlainChunk(c) && ParamName(n) && ParamName(m)
    requires 0 <= k < |c| + |Marker(n)|
    requires OccursAt(c + Marker(n) + rest, Marker(m), k)
    ensures k == |c| && m == n
  {
    var x := c + Braced(n);
    var y := Braced(m);
    assert '?' !in x by {
      forall t | 0 <= t < |x|
        ensures x[t] != '?'
      {
        if t < |c| {
          assert x[t] == c[t] && c[t] in c;
        } else if |c| < t < |x| - 1 {
          assert x[t] == n[t - |c| - 1] && n[t - |c| - 1] in n;
        }
      }
    }
    assert '?' !in y by {
      forall t | 0 <= t < |y|
        ensures y[t] != '?'
      {
        if 0 < t < |y| - 1 {
          assert y[t] == m[t - 1] && m[t - 1] in m;
        }
      }
    }
    var s := x + "?" + rest;
    assert c + Marker(n) + rest == s;
    QuestionAligned(x, rest, y, k);
    assert s[k..k + |y|] == y by {
      assert s[k..k + |y| + 1] == y + "?";
    }
    assert x[k..] == s[k..k + |y|];
    BracedSuffix(c, n, m);
  }

  /** The first occurrence of a marker in `c + Marker(n) + rest`. */
  lemma IndexAfterMarker(c: string, n: string, rest: string, m: string)
    requires PlainChunk(c) && ParamName(n) && ParamName(m)
    ensures var P := |c| + |Marker(n)|;
            var x := Index(rest, Marker(m));
            Index(c + Marker(n) + rest, Marker(m)) == if m == n then |c| else if x < 0 then -1 else P + x
  {
    var s := c + Marker(n) + rest;
    var M := Marker(m);
    var P := |c| + |Marker(n)|;
    forall k | 0 <= k < P && OccursAt(s, M, k)
      ensures k == |c| && m == n
    {
      EarlyOccurrence(c, n, rest, m, k);
    }
    if m == n {
      assert s[|c|..|c| + |M|] == M;
      assert OccursAt(s, M, |c|);
    } else {
      IndexPastPrefix(c + Marker(n), rest, M);
    }
  }

  /** Fixed text without '?' holds no marker. */
  lemma NoMarkerIn(t: string, m: string)
    requires '?' !in t
    ensures Index(t, Marker(m)) == -1
  {
    forall k | 0 <= k
      ensures !OccursAt(t, Marker(m), k)
    {
      if k + |Marker(m)| <= |t| {
        assert t[k..k + |Marker(m)|][|Marker(m)| - 1] == t[k + |Marker(m)| - 1];
        assert t[k + |Marker(m)| - 1] in t;
      }
    }
  }

  /** Deleting the first occurrence of a parameter's marker cuts out the first segment of that name. */
  lemma {:induction false} ReplaceFirstMarker(segs: seq<OptionalSegment>, tail: string, m: string)
    requires WellFormed(segs, tail) && ParamName(m)
    ensures ReplaceFirst(Template(segs, tail), Marker(m)) == DropFirst(segs, tail, m)
    decreases |segs|
  {
    if segs == [] {
      NoMarkerIn(tail, m);
    } else {
      WellFormedRest(segs, tail);
      if segs[0].name == m {
        ReplaceLeadingMarker(segs[0].chunk, m, Template(segs[1..], tail));
      } else {
        ReplaceFirstMarker(segs[1..], tail, m);
        ReplaceLaterMarker(segs[0].chunk, segs[0].name, Template(segs[1..], tail), m);
      }
    }
  }

  /** A marker right after a fixed chunk is the first occurrence, and deleting it joins the chunk to what follows. */
  lemma ReplaceLeadingMarker(c: string, n: string, rest: string)
    requires PlainChunk(c) && ParamName(n)
    ensures ReplaceFirst(c + Marker(n) + rest, Marker(n)) == c + rest
  {
    IndexAfterMarker(c, n, rest, n);
    var s := c + Marker(n) + rest;
    assert s[..|c|] == c;
    assert s[|c| + |Marker(n)|..] == rest;
  }

  /** A marker of another name is deleted from what follows the leading marker. */
  lemma ReplaceLaterMarker(c: string, n: string, rest: string, m: string)
    requires PlainChunk(c) && ParamName(n) && ParamName(m) && n != m
    ensures ReplaceFirst(c + Marker(n) + rest, Marker(m)) == c + Marker(n) + ReplaceFirst(rest, Marker(m))
  {
    IndexAfterMarker(c, n, rest, m);
    ReplaceFirstPastPrefix(c + Marker(n), rest, Marker(m));
  }

  /** Every parameter's marker occurs in the template. */
  lemma {:induction false} TemplateHas(segs: seq<OptionalSegment>, tail: string, j: nat)
    requires j < |segs|
    ensures exists k :: OccursAt(Template(segs, tail), Marker(segs[j].name), k)
    decreases j
  {
    var c := segs[0].chunk;
    var n := segs[0].name;
    var rest := Template(segs[1..], tail);
    assert Template(segs, tail) == c + Marker(n) + rest;
    if j == 0 {
      OccursInMiddle(c, Marker(n), rest);
    } else {
      TemplateHas(segs[1..], tail, j - 1);
      assert segs[1..][j - 1] == segs[j];
      var k :| OccursAt(rest, Marker(segs[j].name), k);
      OccursAfter(c + Marker(n), rest, Marker(segs[j].name), k);
      assert OccursAt(Template(segs, tail), Marker(segs[j].name), |c + Marker(n)| + k);
    }
  }

  lemma OccursInSuffix(a: string, b: string, sub: string)
    requires exists k :: OccursAt(b, sub, k)
    ensures exists k :: OccursAt(a + b, sub, k)
  {
    var k :| OccursAt(b, sub, k);
    OccursAfter(a, b, sub, k);
  }

  /** Cutting out one segment leaves the marker of every other segment. */
  lemma {:induction false} DropKeepsOthers(segs: seq<OptionalSegment>, tail: string, name: string, j: nat)
    requires j < |segs| && j != FirstNamed(segs, name)
    ensures exists k :: OccursAt(DropFirst(segs, tail, name), Marker(segs[j].name), k)
    decreases j
  {
    var c := segs[0].chunk;
    var n := segs[0].name;
    var M := Marker(segs[j].name);
    if n == name {
      var rest := Template(segs[1..], tail);
      assert DropFirst(segs, tail, name) == c + rest;
      TemplateHas(segs[1..], tail, j - 1);
      assert segs[1..][j - 1] == segs[j];
      OccursInSuffix(c, rest, M);
    } else {
      var rest := DropFirst(segs[1..], tail, name);
      assert DropFirst(segs, tail, name) == c + Marker(n) + rest;
      if j == 0 {
        OccursInMiddle(c, M, rest);
      } else {
        DropKeepsOthers(segs[1..], tail, name, j - 1);
        assert segs[1..][j - 1] == segs[j];
        OccursInSuffix(c + Marker(n), rest, M);
      }
    }
  }

  /** The path holds the parameter `{name}`. */
  ghost predicate HasParam(s: string, name: string) {
    exists k :: OccursAt(s, Braced(name), k)
  }

  /** A marker holds no "//" and has no '/' at either end, so collapsing works around it. */
  lemma CollapseAround(a: string, n: string, b: string)
    requires ParamName(n)
    ensures ReplaceDoubleSlash(a + Marker(n) + b) == ReplaceDoubleSlash(a) + Marker(n) + ReplaceDoubleSlash(b)
  {
    var M := Marker(n);
    assert NoDoubleSlash(M) by {
      forall t | 0 <= t < |M| - 1
        ensures !(M[t] == '/' && M[t + 1] == '/')
      {
        if 1 <= t <= |n| {
          assert M[t] == n[t - 1] && n[t - 1] in n;
        }
      }
    }
    ReplaceDoubleSlashAround(a, M, b);
  }

  /** Trimming a path that has a marker touches only what follows the marker. */
  lemma TrimAround(a: string, n: string, b: string)
    ensures TrimOne(a + Marker(n) + b) == a + Marker(n) + (if HasSuffix(b, '/') then b[..|b| - 1] else b)
  {
    var s := a + Marker(n) + b;
    assert s[|s| - 1] == if b == [] then '?' else b[|b| - 1];
    if HasSuffix(b, '/') {
      assert s[..|s| - 1] == a + Marker(n) + b[..|b| - 1];
    }
  }

  /** Tidying keeps every marker that was present, as `{name}`. */
  lemma TidyKeeps(s: string, n: string, k: int)
    requires ParamName(n) && OccursAt(s, Marker(n), k)
    ensures HasParam(Tidy(s), n)
  {
    var M := Marker(n);
    var a := s[..k];
    var b := s[k + |M|..];
    assert s == a + M + b;
    CollapseAround(a, n, b);
    var a1 := ReplaceDoubleSlash(a);
    var b1 := ReplaceDoubleSlash(b);
    TrimAround(a1, n, b1);
    var b2 := if HasSuffix(b1, '/') then b1[..|b1| - 1] else b1;
    RemoveAllConcat(a1 + M, b2, '?');
    RemoveAllConcat(a1, M, '?');
    MarkerWithoutQuestion(n);
    var pre := RemoveAll(a1, '?');
    assert Tidy(s) == pre + Braced(n) + RemoveAll(b2, '?');
    assert OccursAt(Tidy(s), Braced(n), |pre|);
  }

  /**
   * createOptionalRoutes on any template of fixed chunks and optional
   * parameters: one path with every parameter present, then for each marker,
   * in order, the template with the first segment of that name cut out and
   * tidied.
   */
  lemma OptionalSegments(segs: seq<OptionalSegment>, tail: string)
    requires WellFormed(segs, tail)
    ensures var routes := CreateOptionalRoutes(Template(segs, tail));
            |routes| == 1 + |segs| &&
            (segs == [] ==> routes == [tail]) &&
            (segs != [] ==> routes[0] == Full(segs, tail)) &&
            forall i :: 0 <= i < |segs| ==> routes[1 + i] == Tidy(DropFirst(segs, tail, segs[i].name))
  {
    TemplateMarkers(segs, tail);
    if segs != [] {
      TemplateFullVariant(segs, tail);
      var routes := CreateOptionalRoutes(Template(segs, tail));
      forall i | 0 <= i < |segs|
        ensures routes[1 + i] == Tidy(DropFirst(segs, tail, segs[i].name))
      {
        ReplaceFirstMarker(segs, tail, segs[i].name);
      }
    }
  }

  /**
   * The other optional parameters stay present: the first path holds every
   * `{name}`, and the variant for marker i holds the `{name}` of every segment
   * other than the one it cuts out (segment i itself when the names are
   * distinct).
   */
  lemma OtherParamsStay(segs: seq<OptionalSegment>, tail: string, i: nat, j: nat)
    requires WellFormed(segs, tail) && i < |segs| && j < |segs|
    ensures var routes := CreateOptionalRoutes(Template(segs, tail));
            |routes| == 1 + |segs| &&
            HasParam(routes[0], segs[j].name) &&
            (j != FirstNamed(segs, segs[i].name) ==> HasParam(routes[1 + i], segs[j].name))
  {
    var routes := CreateOptionalRoutes(Template(segs, tail));
    OptionalSegments(segs, tail);
    TemplateFullVariant(segs, tail);
    TemplateHas(segs, tail, j);
    var k :| OccursAt(Template(segs, tail), Marker(segs[j].name), k);
    TidyKeeps(Template(segs, tail), segs[j].name, k);
    assert ParamName(segs[j].name);
    FirstKeepsAll(segs, tail, j);
    if j != FirstNamed(segs, segs[i].name) {
      DropKeepsOthers(segs, tail, segs[i].name, j);
      var k2 :| OccursAt(DropFirst(segs, tail, segs[i].name), Marker(segs[j].name), k2);
      TidyKeeps(DropFirst(segs, tail, segs[i].name), segs[j].name, k2);
    }
  }

  /** The path for marker i holds the name of every other segment: a segment
      sharing segment i's name that is cut out leaves segment i's own copy. */
  lemma OtherSegmentsStay(segs: seq<OptionalSegment>, tail: string, i: nat, j: nat)
    requires WellFormed(segs, tail) && i < |segs| && j < |segs| && j != i
    ensures var routes := CreateOptionalRoutes(Template(segs, tail));
            |routes| == 1 + |segs| && HasParam(routes[1 + i], segs[j].name)
  {
    var f := FirstNamed(segs, segs[i].name);
    if j != f {
      OtherParamsStay(segs, tail, i, j);
    } else {
      assert i != f;
      OtherParamsStay(segs, tail, i, i);
    }
  }

  /** The first path holds every parameter as `{name}`. */
  lemma FirstKeepsAll(segs: seq<OptionalSegment>, tail: string, j: nat)
    requires WellFormed(segs, tail) && j < |segs|
    ensures HasParam(Full(segs, tail), segs[j].name)
  {
    TemplateHas(segs, tail, j);
    var s := Template(segs, tail);
    var M := Marker(segs[j].name);
    var k :| OccursAt(s, M, k);
    var pre, post := s[..k], s[k + |M|..];
    var kept := RemoveAll(pre, '?') + Braced(segs[j].name) + RemoveAll(post, '?');
    assert RemoveAll(s, '?') == kept by {
      assert s == pre + M + post;
      RemoveAllAround(pre, M, post, '?');
      assert ParamName(segs[j].name);
      MarkerWithoutQuestion(segs[j].name);
    }
    TemplateFullVariant(segs, tail);
    OccursInMiddle(RemoveAll(pre, '?'), Braced(segs[j].name), RemoveAll(post, '?'));
  }

}
