/**
 * The gale route (route.go): a path template compiled into one list of parts
 * per concrete variant, and the matcher that tries the variants in order.
 *
 * A part is static text or a parameter `{name@v1,v2}` with a chain of
 * validator names. Matching looks the names up in the router's validator
 * registry, here the map `validators`; a missing name terminates the process
 * in Go and is the `Fatal` outcome here.
 */
module GaleRoute {
  import opened Wrappers
  import opened Types
  import opened GoStrings
  import opened OptionalRoutes

  /** RoutePart: static text, or a parameter name with its validator names. */
  datatype RoutePart = RoutePart(isStatic: bool, value: string, validators: seq<string>)

  /** A segment is a parameter exactly when it starts with '{' and ends with '}'. */
  predicate IsParamSegment(seg: string) {
    HasPrefix(seg, '{') && HasSuffix(seg, '}')
  }

  /**
   * One segment of a path, as parsePath reads it. Inside braces the name is
   * the text before the first '@' and the validators are the rest split on
   * ','; strings.SplitN(x, "@", 2) on a text containing '@' always yields two
   * pieces, so its error branch cannot be taken.
   */
  function PartOf(seg: string): (p: RoutePart)
    ensures p.isStatic <==> !IsParamSegment(seg)
    ensures p.isStatic ==> p.value == seg && p.validators == []
    ensures !p.isStatic ==> '@' !in p.value
  {
    if IsParamSegment(seg) then
      var inner := seg[1..|seg| - 1];
      var k := IndexOf(inner, '@');
      if k < 0 then RoutePart(false, inner, [])
      else RoutePart(false, inner[..k], Split(inner[k + 1..], ','))
    else RoutePart(true, seg, [])
  }

  /** The segment text a part stands for. */
  function PrintPart(p: RoutePart): string {
    if p.isStatic then p.value
    else if p.validators == [] then "{" + p.value + "}"
    else "{" + p.value + "@" + Join(p.validators, ',') + "}"
  }

  /** Parsing a segment loses nothing: printing the part gives the segment back. */
  lemma PartRoundTrip(seg: string)
    ensures PrintPart(PartOf(seg)) == seg
  {
    if IsParamSegment(seg) {
      var inner := seg[1..|seg| - 1];
      assert seg == "{" + inner + "}";
      InnerRoundTrip(inner);
    }
  }

  lemma InnerRoundTrip(inner: string)
    ensures var k := IndexOf(inner, '@');
            if k < 0 then true
            else "{" + inner[..k] + "@" + Join(Split(inner[k + 1..], ','), ',') + "}" == "{" + inner + "}"
  {
    var k := IndexOf(inner, '@');
    if k >= 0 {
      JoinSplit(inner[k + 1..], ',');
      assert inner == inner[..k] + "@" + inner[k + 1..];
    }
  }

  /** Everything after the first '@' is the validator list: "{a@b@c}" has the one validator "b@c". */
  lemma SecondAtStaysInValidator()
    ensures PartOf("{a@b@c}") == RoutePart(false, "a", ["b@c"])
  {
    var inner := "{a@b@c}"[1..6];
    assert inner == "a@b@c";
    assert IndexOf(inner, '@') == 1;
    assert inner[2..] == "b@c";
    SplitNoSep("b@c", ',');
  }

  /** The segments of a path: slashes trimmed at both ends, then white space, then split on '/'. */
  function Segments(path: string): seq<string> {
    Split(TrimSpace(Trim(path, '/')), '/')
  }

  /** parsePath, as a value: one part per segment. */
  function ParsedPath(path: string): (parts: seq<RoutePart>)
    ensures |parts| == |Segments(path)| >= 1
  {
    var segs := Segments(path);
    seq(|segs|, i requires 0 <= i < |segs| => PartOf(segs[i]))
  }

  /** One iteration of parsePath's loop: a segment read into its part. */
  method ParseSegment(seg: string) returns (p: RoutePart)
    ensures p == PartOf(seg)
  {
    var part := seg;
    if HasPrefix(part, '{') && HasSuffix(part, '}') {
      part := part[1..|part| - 1];
      var validators := [];
      var k := IndexOf(part, '@');
      if k >= 0 {
        validators := Split(part[k + 1..], ',');
        part := part[..k];
      }
      p := RoutePart(false, part, validators);
    } else {
      p := RoutePart(true, part, []);
    }
  }

  /** parsePath: the path's segments, each read into its part. */
  method ParsePath(path: string) returns (parts: seq<RoutePart>)
    ensures parts == ParsedPath(path)
  {
    var segs := Split(TrimSpace(Trim(path, '/')), '/');
    parts := ParseSegments(segs);
    PointwiseParsed(path, parts);
  }

  /** parsePath's loop over the segments. */
  method ParseSegments(segs: seq<string>) returns (parts: seq<RoutePart>)
    ensures |parts| == |segs|
    ensures forall t :: 0 <= t < |segs| ==> parts[t] == PartOf(segs[t])
  {
    parts := [];
    var i := 0;
    while i < |segs|
      invariant 0 <= i <= |segs|
      invariant |parts| == i
      invariant forall t :: 0 <= t < i ==> parts[t] == PartOf(segs[t])
    {
      var p := ParseSegment(segs[i]);
      parts := parts + [p];
      i := i + 1;
    }
  }

  /** parse's loop over the variants: each concrete path parsed, in order. */
  method ParseAll(paths: seq<string>) returns (all: seq<seq<RoutePart>>)
    ensures all == ParsedAll(paths)
  {
    all := [];
    var i := 0;
    while i < |paths|
      invariant 0 <= i <= |paths|
      invariant all == ParsedAll(paths)[..i]
    {
      var p := ParsePath(paths[i]);
      assert ParsedAll(paths)[..i + 1] == ParsedAll(paths)[..i] + [p];
      all := all + [p];
      i := i + 1;
    }
    assert ParsedAll(paths)[..i] == ParsedAll(paths);
  }

  /** A list holding the part of every segment, in order, is the parsed path. */
  lemma PointwiseParsed(path: string, parts: seq<RoutePart>)
    requires |parts| == |Segments(path)|
    requires forall t :: 0 <= t < |parts| ==> parts[t] == PartOf(Segments(path)[t])
    ensures parts == ParsedPath(path)
  {
  }

  /** The outcome of running a parameter's validator chain. */
  datatype ChainOut = ChainOk(value: string) | ChainFail | ChainMissing(name: string)

  /**
   * The validators named by `names`, in order, each fed the previous one's
   * output: a name not in the registry stops the chain as missing, a validator
   * error stops it as failed.
   */
  function RunChain(validators: map<string, Validator>, names: seq<string>, value: string): (r: ChainOut)
    ensures r.ChainMissing? ==> r.name in names && r.name !in validators
    decreases |names|
  {
    if names == [] then ChainOk(value)
    else if names[0] !in validators then ChainMissing(names[0])
    else
      var c := validators[names[0]](value);
      if c.err.Some? then ChainFail else RunChain(validators, names[1..], c.value)
  }

  /** compareSinglePath from part i on, with the parameters collected so far. */
  function CompareFrom(route: seq<RoutePart>, pathParts: seq<string>, validators: map<string, Validator>,
                       i: nat, params: map<string, string>): Match
    requires |route| == |pathParts| && i <= |route|
    decreases |route| - i
  {
    if i == |route| then Matched(params)
    else if route[i].isStatic then
      if route[i].value != pathParts[i] then NoMatch
      else CompareFrom(route, pathParts, validators, i + 1, params)
    else
      match RunChain(validators, route[i].validators, pathParts[i])
      case ChainMissing(n) => Fatal("Validator not found: " + n)
      case ChainFail => NoMatch
      case ChainOk(v) => CompareFrom(route, pathParts, validators, i + 1, params[route[i].value := v])
  }

  /** compareSinglePath on a variant and a request path with as many parts. */
  function CompareSingle(route: seq<RoutePart>, pathParts: seq<string>, validators: map<string, Validator>): Match
    requires |route| == |pathParts|
  {
    if |route| == 0 && |pathParts| == 0 then Matched(map[])
    else CompareFrom(route, pathParts, validators, 0, map[])
  }

  /** Part i agrees with the request: equal static text, or a validator chain that succeeds. */
  predicate PartAccepts(route: seq<RoutePart>, pathParts: seq<string>, validators: map<string, Validator>, i: int)
    requires |route| == |pathParts| && 0 <= i < |route|
  {
    if route[i].isStatic then route[i].value == pathParts[i]
    else RunChain(validators, route[i].validators, pathParts[i]).ChainOk?
  }

  lemma {:induction false} CompareFromMatched(route: seq<RoutePart>, pathParts: seq<string>, validators: map<string, Validator>,
                                              i: nat, params: map<string, string>)
    requires |route| == |pathParts| && i <= |route|
    ensures CompareFrom(route, pathParts, validators, i, params).Matched? <==>
            forall k :: i <= k < |route| ==> PartAccepts(route, pathParts, validators, k)
    decreases |route| - i
  {
    if i < |route| {
      assert (forall k :: i <= k < |route| ==> PartAccepts(route, pathParts, validators, k)) <==>
             PartAccepts(route, pathParts, validators, i) && (forall k :: i + 1 <= k < |route| ==> PartAccepts(route, pathParts, validators, k));
      if route[i].isStatic {
        CompareFromMatched(route, pathParts, validators, i + 1, params);
      } else {
        var c := RunChain(validators, route[i].validators, pathParts[i]);
        if c.ChainOk? {
          CompareFromMatched(route, pathParts, validators, i + 1, params[route[i].value := c.value]);
        }
      }
    }
  }

  /**
   * A variant matches exactly when every static part equals its path part and
   * every parameter's validator chain succeeds.
   */
  lemma CompareSingleMatched(route: seq<RoutePart>, pathParts: seq<string>, validators: map<string, Validator>)
    requires |route| == |pathParts|
    ensures CompareSingle(route, pathParts, validators).Matched? <==>
            forall k :: 0 <= k < |route| ==> PartAccepts(route, pathParts, validators, k)
  {
    CompareFromMatched(route, pathParts, validators, 0, map[]);
  }

  /** A variant without parameters matches exactly the path parts equal to its own, and yields no parameters. */
  lemma {:induction false} StaticVariant(route: seq<RoutePart>, pathParts: seq<string>, validators: map<string, Validator>,
                                         i: nat, params: map<string, string>)
    requires |route| == |pathParts| && i <= |route|
    requires forall k :: 0 <= k < |route| ==> route[k].isStatic
    ensures CompareFrom(route, pathParts, validators, i, params) ==
            if forall k :: i <= k < |route| ==> route[k].value == pathParts[k] then Matched(params) else NoMatch
    decreases |route| - i
  {
    if i < |route| {
      StaticVariant(route, pathParts, validators, i + 1, params);
    }
  }

  /** The names bound by the parameter parts from part i on. */
  function ParamNames(route: seq<RoutePart>, i: nat): set<string>
    decreases |route| - i
  {
    if i >= |route| then {}
    else (if route[i].isStatic then {} else {route[i].value}) + ParamNames(route, i + 1)
  }

  /** Every parameter part at or after i binds its name. */
  lemma {:induction false} ParamNamesHold(route: seq<RoutePart>, i: nat, j: nat)
    requires i <= j < |route| && !route[j].isStatic
    ensures route[j].value in ParamNames(route, i)
    decreases j - i
  {
    if i < j {
      ParamNamesHold(route, i + 1, j);
    }
  }

  /**
   * What compareSinglePath yields from part i on: a match binds the names bound
   * before plus the parameter names of the remaining parts, and keeps the
   * earlier values of names no remaining part binds; a Fatal outcome comes from
   * a part whose validator chain names a validator that is not registered,
   * with every part before it accepting its path part.
   */
  lemma {:induction false} CompareFromFacts(route: seq<RoutePart>, pathParts: seq<string>, validators: map<string, Validator>,
                                            i: nat, params: map<string, string>)
    requires |route| == |pathParts| && i <= |route|
    ensures var r := CompareFrom(route, pathParts, validators, i, params);
            (r.Matched? ==> r.params.Keys == params.Keys + ParamNames(route, i)) &&
            (r.Matched? ==> forall k :: k in params && k !in ParamNames(route, i) ==> r.params[k] == params[k]) &&
            (r.Fatal? ==> exists j :: i <= j < |route| && !route[j].isStatic &&
                            (forall k :: i <= k < j ==> PartAccepts(route, pathParts, validators, k)) &&
                            RunChain(validators, route[j].validators, pathParts[j]).ChainMissing? &&
                            r.reason == "Validator not found: " + RunChain(validators, route[j].validators, pathParts[j]).name)
    decreases |route| - i
  {
    if i < |route| {
      var r := CompareFrom(route, pathParts, validators, i, params);
      if route[i].isStatic {
        CompareFromFacts(route, pathParts, validators, i + 1, params);
        if r.Fatal? {
          var j :| i + 1 <= j < |route| && !route[j].isStatic &&
                   (forall k :: i + 1 <= k < j ==> PartAccepts(route, pathParts, validators, k)) &&
                   RunChain(validators, route[j].validators, pathParts[j]).ChainMissing? &&
                   r.reason == "Validator not found: " + RunChain(validators, route[j].validators, pathParts[j]).name;
          assert PartAccepts(route, pathParts, validators, i);
        }
      } else {
        var c := RunChain(validators, route[i].validators, pathParts[i]);
        if c.ChainOk? {
          CompareFromFacts(route, pathParts, validators, i + 1, params[route[i].value := c.value]);
          if r.Fatal? {
            var j :| i + 1 <= j < |route| && !route[j].isStatic &&
                     (forall k :: i + 1 <= k < j ==> PartAccepts(route, pathParts, validators, k)) &&
                     RunChain(validators, route[j].validators, pathParts[j]).ChainMissing? &&
                     r.reason == "Validator not found: " + RunChain(validators, route[j].validators, pathParts[j]).name;
            assert PartAccepts(route, pathParts, validators, i);
          }
        }
      }
    }
  }

  /**
   * On a match, a parameter name that no later part rebinds holds the final
   * output of its own part's validator chain (the path part itself when the
   * chain is empty).
   */
  lemma {:induction false} CompareFromValues(route: seq<RoutePart>, pathParts: seq<string>, validators: map<string, Validator>,
                                             i: nat, params: map<string, string>, j: nat)
    requires |route| == |pathParts| && i <= j < |route|
    requires CompareFrom(route, pathParts, validators, i, params).Matched?
    requires !route[j].isStatic && route[j].value !in ParamNames(route, j + 1)
    ensures RunChain(validators, route[j].validators, pathParts[j]).ChainOk?
    ensures var r := CompareFrom(route, pathParts, validators, i, params);
            route[j].value in r.params &&
            r.params[route[j].value] == RunChain(validators, route[j].validators, pathParts[j]).value
    decreases j - i
  {
    var c := RunChain(validators, route[i].validators, pathParts[i]);
    var next := if route[i].isStatic then params else params[route[i].value := c.value];
    assert CompareFrom(route, pathParts, validators, i, params) == CompareFrom(route, pathParts, validators, i + 1, next);
    if i < j {
      CompareFromValues(route, pathParts, validators, i + 1, next, j);
    } else {
      CompareFromFacts(route, pathParts, validators, i + 1, next);
    }
  }

  /**
   * compareSinglePath's result: a match binds exactly the parameter names of
   * the variant, each name no later part rebinds holding its chain's final
   * output; Fatal names the first missing validator of a part reached with all
   * earlier parts accepting.
   */
  lemma CompareSingleFacts(route: seq<RoutePart>, pathParts: seq<string>, validators: map<string, Validator>)
    requires |route| == |pathParts|
    ensures var r := CompareSingle(route, pathParts, validators);
            (r.Matched? ==> r.params.Keys == ParamNames(route, 0)) &&
            (r.Matched? ==> forall j :: 0 <= j < |route| && !route[j].isStatic && route[j].value !in ParamNames(route, j + 1) ==>
                              route[j].value in r.params &&
                              RunChain(validators, route[j].validators, pathParts[j]) == ChainOk(r.params[route[j].value])) &&
            (r.Fatal? ==> exists j :: 0 <= j < |route| && !route[j].isStatic &&
                            (forall k :: 0 <= k < j ==> PartAccepts(route, pathParts, validators, k)) &&
                            RunChain(validators, route[j].validators, pathParts[j]).ChainMissing? &&
                            r.reason == "Validator not found: " + RunChain(validators, route[j].validators, pathParts[j]).name)
  {
    var r := CompareSingle(route, pathParts, validators);
    if |route| > 0 {
      CompareFromFacts(route, pathParts, validators, 0, map[]);
      if r.Matched? {
        forall j | 0 <= j < |route| && !route[j].isStatic && route[j].value !in ParamNames(route, j + 1)
          ensures route[j].value in r.params &&
                  RunChain(validators, route[j].validators, pathParts[j]) == ChainOk(r.params[route[j].value])
        {
          CompareFromValues(route, pathParts, validators, 0, map[], j);
        }
      }
    }
  }

  /**
   * comparePath over the compiled variants: those with a different number of
   * parts are skipped, the first that matches (or is fatal) decides.
   */
  function FirstMatch(variants: seq<seq<RoutePart>>, pathParts: seq<string>, validators: map<string, Validator>): Match
    decreases |variants|
  {
    if variants == [] then NoMatch
    else if |variants[0]| != |pathParts| then FirstMatch(variants[1..], pathParts, validators)
    else
      var m := CompareSingle(variants[0], pathParts, validators);
      if m.NoMatch? then FirstMatch(variants[1..], pathParts, validators) else m
  }

  /** The first-match rule: a match comes from some variant, and every eligible variant before it failed to match. */
  lemma {:induction false} FirstMatchIsFirst(variants: seq<seq<RoutePart>>, pathParts: seq<string>, validators: map<string, Validator>)
    ensures FirstMatch(variants, pathParts, validators).NoMatch? <==>
            forall k :: 0 <= k < |variants| && |variants[k]| == |pathParts| ==> CompareSingle(variants[k], pathParts, validators).NoMatch?
    ensures !FirstMatch(variants, pathParts, validators).NoMatch? ==>
            exists k :: 0 <= k < |variants| && |variants[k]| == |pathParts| &&
                        CompareSingle(variants[k], pathParts, validators) == FirstMatch(variants, pathParts, validators) &&
                        forall j :: 0 <= j < k && |variants[j]| == |pathParts| ==> CompareSingle(variants[j], pathParts, validators).NoMatch?
    decreases |variants|
  {
    if variants != [] {
      FirstMatchIsFirst(variants[1..], pathParts, validators);
      var m := FirstMatch(variants, pathParts, validators);
      if |variants[0]| == |pathParts| && !CompareSingle(variants[0], pathParts, validators).NoMatch? {
        assert CompareSingle(variants[0], pathParts, validators) == m;
      } else if !m.NoMatch? {
        var k :| 0 <= k < |variants[1..]| && |variants[1..][k]| == |pathParts| &&
                 CompareSingle(variants[1..][k], pathParts, validators) == m &&
                 forall j :: 0 <= j < k && |variants[1..][j]| == |pathParts| ==> CompareSingle(variants[1..][j], pathParts, validators).NoMatch?;
        assert variants[1..][k] == variants[k + 1];
        forall j | 0 <= j < k + 1 && |variants[j]| == |pathParts|
          ensures CompareSingle(variants[j], pathParts, validators).NoMatch?
        {
          if j > 0 {
            assert variants[j] == variants[1..][j - 1];
          }
        }
      }
      if m.NoMatch? {
        forall k | 0 <= k < |variants| && |variants[k]| == |pathParts|
          ensures CompareSingle(variants[k], pathParts, validators).NoMatch?
        {
          if k > 0 {
            assert variants[k] == variants[1..][k - 1];
          }
        }
      }
    }
  }

  /** The pre-sized empty variants come first but can never match: a split request path has at least one part. */
  lemma {:induction false} EmptyVariantsSkipped(n: nat, rest: seq<seq<RoutePart>>, pathParts: seq<string>, validators: map<string, Validator>)
    requires |pathParts| >= 1
    ensures FirstMatch(seq(n, _ => []) + rest, pathParts, validators) == FirstMatch(rest, pathParts, validators)
    decreases n
  {
    if n > 0 {
      var vs: seq<seq<RoutePart>> := seq(n, _ => []);
      assert (vs + rest)[1..] == seq(n - 1, _ => []) + rest;
      EmptyVariantsSkipped(n - 1, rest, pathParts, validators);
    } else {
      assert seq(n, _ => []) + rest == rest;
    }
  }

  /** The compiled variants of a list of concrete paths. */
  function ParsedAll(paths: seq<string>): seq<seq<RoutePart>> {
    seq(|paths|, i requires 0 <= i < |paths| => ParsedPath(paths[i]))
  }

  /** A gale route: its template, the concrete variants, and one list of parts per variant. */
  class Route {
    var name: string
    const httpMethod: string
    const rawPath: string
    const paths: seq<string>
    const handler: Handler
    const middlewares: seq<Middleware>
    var parts: seq<seq<RoutePart>>

    /**
     * newRoute: the variants come from createOptionalRoutes; `parts` starts with
     * one empty entry per variant and parse then appends the parsed variants.
     */
    constructor (httpMethod: string, path: string, handler: Handler, middlewares: seq<Middleware>)
      ensures this.httpMethod == httpMethod && rawPath == path && this.handler == handler && this.middlewares == middlewares
      ensures paths == CreateOptionalRoutes(path) && name == ""
      ensures parts == seq(|paths|, _ => []) + ParsedAll(paths)
    {
      this.httpMethod := httpMethod;
      rawPath := path;
      paths := CreateOptionalRoutes(path);
      this.handler := handler;
      this.middlewares := middlewares;
      name := "";
      parts := seq(|CreateOptionalRoutes(path)|, _ => []);
      new;
      Parse();
    }

    /** parse: the parsed variants appended to `parts`, in variant order. */
    method Parse()
      modifies this
      ensures parts == old(parts) + ParsedAll(paths)
      ensures name == old(name)
    {
      var parsed := ParseAll(paths);
      parts := parts + parsed;
    }

    /** Name: sets the route's name. */
    method SetName(n: string)
      modifies this
      ensures name == n && parts == old(parts)
    {
      name := n;
    }

    function GetName(): string
      reads this
    {
      name
    }

    /** compareSinglePath: the part loop with its nested validator loop. */
    method CompareSinglePath(validators: map<string, Validator>, route: seq<RoutePart>, pathParts: seq<string>) returns (m: Match)
      requires |route| == |pathParts|
      ensures m == CompareSingle(route, pathParts, validators)
    {
      var params: map<string, string> := map[];
      if |route| == 0 && |pathParts| == 0 {
        return Matched(map[]);
      }
      var i := 0;
      while i < |route|
        invariant 0 <= i <= |route|
        invariant CompareSingle(route, pathParts, validators) == CompareFrom(route, pathParts, validators, i, params)
      {
        var part := route[i];
        if part.isStatic {
          if part.value != pathParts[i] {
            return NoMatch;
          }
        } else {
          var value := pathParts[i];
          var j := 0;
          while j < |part.validators|
            invariant 0 <= j <= |part.validators|
            invariant RunChain(validators, part.validators, pathParts[i]) == RunChain(validators, part.validators[j..], value)
          {
            var v := part.validators[j];
            if v !in validators {
              return Fatal("Validator not found: " + v);
            }
            var c := validators[v](value);
            if c.err.Some? {
              return NoMatch;
            }
            assert part.validators[j..][1..] == part.validators[j + 1..];
            value := c.value;
            j := j + 1;
          }
          params := params[part.value := value];
        }
        i := i + 1;
      }
      return Matched(params);
    }

    /** comparePath: the request path split on '/', then the first variant that matches. */
    method ComparePath(validators: map<string, Validator>, path: string) returns (m: Match)
      ensures m == FirstMatch(parts, Split(Trim(path, '/'), '/'), validators)
    {
      var pathParts := Split(Trim(path, '/'), '/');
      var k := 0;
      while k < |parts|
        invariant 0 <= k <= |parts|
        invariant FirstMatch(parts, pathParts, validators) == FirstMatch(parts[k..], pathParts, validators)
      {
        assert parts[k..][1..] == parts[k + 1..];
        if |pathParts| != |parts[k]| {
          k := k + 1;
          continue;
        }
        m := CompareSinglePath(validators, parts[k], pathParts);
        if m.NoMatch? {
          k := k + 1;
          continue;
        }
        return m;
      }
      return NoMatch;
    }
  }

  /** A plain static segment: non-empty, no slash, brace or '?', and no white space at either end. */
  predicate PlainSegment(seg: string) {
    |seg| > 0 && '/' !in seg && '?' !in seg && '{' !in seg && '}' !in seg &&
    !IsSpace(seg[0]) && !IsSpace(seg[|seg| - 1])
  }

  /** A plain parameter name: non-empty, without '}', '?', '@' or '/'. */
  predicate PlainName(name: string) {
    |name| > 0 && '}' !in name && '?' !in name && '@' !in name && '/' !in name
  }

  lemma TrimLeadingSlash(s: string)
    requires |s| > 0 && s[0] != '/' && s[|s| - 1] != '/'
    ensures Trim("/" + s, '/') == s
  {
    assert ("/" + s)[1..] == s;
  }

  lemma ParamSegmentPart(name: string)
    requires PlainName(name)
    ensures PartOf("{" + name + "}") == RoutePart(false, name, [])
  {
    var seg := "{" + name + "}";
    assert seg[1..|seg| - 1] == name;
  }

  lemma OptionalTemplateVariants(seg: string, name: string)
    requires PlainSegment(seg) && PlainName(name)
    ensures CreateOptionalRoutes("/" + seg + "/{" + name + "}?") == ["/" + seg + "/{" + name + "}", "/" + seg]
  {
    var p := "/" + seg;
    assert '?' !in p;
    assert BracesClosed(p) by {
      forall i | 0 <= i < |p|
        ensures p[i] != '{'
      {
        if i > 0 {
          assert p[i] == seg[i - 1] && seg[i - 1] in seg;
        }
      }
    }
    assert NoDoubleSlash(p) by {
      forall i | 0 <= i < |p| - 1
        ensures !(p[i] == '/' && p[i + 1] == '/')
      {
        assert p[i + 1] == seg[i] && seg[i] in seg;
      }
    }
    assert p[|p| - 1] == seg[|seg| - 1] && seg[|seg| - 1] in seg;
    TrailingOptionalSegment(p, name);
  }

  lemma TwoSegments(path: string, a: string, b: string)
    requires Segments(path) == [a, b]
    ensures ParsedPath(path) == [PartOf(a), PartOf(b)]
  {
  }

  lemma SlashedSegments(x: string)
    requires |x| > 0 && x[0] != '/' && x[|x| - 1] != '/' && !IsSpace(x[0]) && !IsSpace(x[|x| - 1])
    ensures Segments("/" + x) == Split(x, '/')
  {
    TrimLeadingSlash(x);
    TrimSpaceNoop(x);
  }

  lemma NoSlashInParam(name: string)
    requires PlainName(name)
    ensures '/' !in "{" + name + "}"
  {
    var last := "{" + name + "}";
    forall i | 0 <= i < |last|
      ensures last[i] != '/'
    {
      if 0 < i < |last| - 1 {
        assert last[i] == name[i - 1] && name[i - 1] in name;
      }
    }
  }

  lemma SegmentsAfterSlash(seg: string, last: string)
    requires PlainSegment(seg) && |last| > 0 && last[|last| - 1] == '}' && '/' !in last
    ensures Segments("/" + (seg + ['/'] + last)) == [seg, last]
  {
    var x := seg + ['/'] + last;
    assert x[0] == seg[0] && seg[0] in seg;
    assert x[|x| - 1] == '}';
    SlashedSegments(x);
    SplitTwo(seg, last);
  }

  lemma SplitTwo(a: string, b: string)
    requires '/' !in a && '/' !in b
    ensures Split(a + ['/'] + b, '/') == [a, b]
  {
    SplitAfterPiece(a, '/', b);
    SplitNoSep(b, '/');
  }

  lemma FullVariantSegments(seg: string, name: string)
    requires PlainSegment(seg) && PlainName(name)
    ensures Segments("/" + seg + "/{" + name + "}") == [seg, "{" + name + "}"]
  {
    assert "/" + seg + "/{" + name + "}" == "/" + (seg + ['/'] + ("{" + name + "}"));
    NoSlashInParam(name);
    SegmentsAfterSlash(seg, "{" + name + "}");
  }

  lemma FullVariantParts(seg: string, name: string)
    requires PlainSegment(seg) && PlainName(name)
    ensures ParsedPath("/" + seg + "/{" + name + "}") == [RoutePart(true, seg, []), RoutePart(false, name, [])]
  {
    FullVariantSegments(seg, name);
    TwoSegments("/" + seg + "/{" + name + "}", seg, "{" + name + "}");
    ParamSegmentPart(name);
  }

  lemma ShortVariantParts(seg: string)
    requires PlainSegment(seg)
    ensures ParsedPath("/" + seg) == [RoutePart(true, seg, [])]
  {
    assert seg[|seg| - 1] in seg;
    TrimLeadingSlash(seg);
    TrimSpaceNoop(seg);
    SplitNoSep(seg, '/');
    assert Segments("/" + seg) == [seg];
  }

  lemma ParsedAllTwo(a: string, b: string)
    ensures seq(2, _ => []) + ParsedAll([a, b]) == [[], [], ParsedPath(a), ParsedPath(b)]
  {
    var e: seq<RoutePart> := [];
    assert seq(2, _ => e) == [e, e];
  }

  /**
   * newRoute for "/seg/{name}?" (the "/user/{username}?" shape) compiles two
   * empty entries, then the variant with the parameter, then the one without.
   */
  lemma OptionalTemplateParts(seg: string, name: string)
    requires PlainSegment(seg) && PlainName(name)
    ensures seq(2, _ => []) + ParsedAll(CreateOptionalRoutes("/" + seg + "/{" + name + "}?")) ==
            [[], [], [RoutePart(true, seg, []), RoutePart(false, name, [])], [RoutePart(true, seg, [])]]
  {
    OptionalTemplateVariants(seg, name);
    ParsedAllTwo("/" + seg + "/{" + name + "}", "/" + seg);
    FullVariantParts(seg, name);
    ShortVariantParts(seg);
  }

  /** A request path "/seg/value" splits into its two segments. */
  lemma RequestParts(seg: string, value: string)
    requires PlainSegment(seg) && |value| > 0 && '/' !in value
    ensures Split(Trim("/" + seg + "/" + value, '/'), '/') == [seg, value]
    ensures Split(Trim("/" + seg, '/'), '/') == [seg]
  {
    var x := seg + ['/'] + value;
    assert "/" + seg + "/" + value == "/" + x;
    assert x[0] == seg[0] && seg[0] in seg;
    assert x[|x| - 1] == value[|value| - 1] && value[|value| - 1] in value;
    TrimLeadingSlash(x);
    SplitTwo(seg, value);
    assert seg[|seg| - 1] in seg;
    TrimLeadingSlash(seg);
    SplitNoSep(seg, '/');
  }

  /** The two compiled variants of "/seg/{name}?" against the request parts. */
  lemma VariantsMatch(seg: string, name: string, value: string, validators: map<string, Validator>)
    ensures FirstMatch([[], [], [RoutePart(true, seg, []), RoutePart(false, name, [])], [RoutePart(true, seg, [])]],
                       [seg, value], validators) == Matched(map[name := value])
    ensures FirstMatch([[], [], [RoutePart(true, seg, []), RoutePart(false, name, [])], [RoutePart(true, seg, [])]],
                       [seg], validators) == Matched(map[])
  {
    var full := [RoutePart(true, seg, []), RoutePart(false, name, [])];
    var short := [RoutePart(true, seg, [])];
    var vs: seq<seq<RoutePart>> := [[], [], full, short];
    assert vs[1..] == [[], full, short];
    assert vs[1..][1..] == [full, short];
    assert [full, short][1..] == [short];
    var pp := [seg, value];
    assert RunChain(validators, [], value) == ChainOk(value);
    assert CompareFrom(full, pp, validators, 1, map[]) == CompareFrom(full, pp, validators, 2, map[name := value]);
    assert CompareFrom(full, pp, validators, 0, map[]) == CompareFrom(full, pp, validators, 1, map[]);
    assert CompareSingle(full, pp, validators) == Matched(map[name := value]);
    assert CompareFrom(short, [seg], validators, 0, map[]) == CompareFrom(short, [seg], validators, 1, map[]);
    assert CompareSingle(short, [seg], validators) == Matched(map[]);
    assert FirstMatch([full, short], pp, validators) == Matched(map[name := value]);
    assert FirstMatch(vs[1..], pp, validators) == FirstMatch([full, short], pp, validators);
    assert FirstMatch([short], [seg], validators) == Matched(map[]);
    assert FirstMatch([full, short], [seg], validators) == FirstMatch([short], [seg], validators);
    assert FirstMatch(vs[1..], [seg], validators) == FirstMatch([full, short], [seg], validators);
  }

  /**
   * With that route, "/seg/value" matches the full variant with the parameter
   * bound to the value, and "/seg" matches the variant without the parameter,
   * with no parameters.
   */
  lemma OptionalParamMatches(seg: string, name: string, value: string, validators: map<string, Validator>)
    requires PlainSegment(seg) && PlainName(name)
    requires |value| > 0 && '/' !in value
    ensures FirstMatch(seq(2, _ => []) + ParsedAll(CreateOptionalRoutes("/" + seg + "/{" + name + "}?")),
                       Split(Trim("/" + seg + "/" + value, '/'), '/'), validators) == Matched(map[name := value])
    ensures FirstMatch(seq(2, _ => []) + ParsedAll(CreateOptionalRoutes("/" + seg + "/{" + name + "}?")),
                       Split(Trim("/" + seg, '/'), '/'), validators) == Matched(map[])
  {
    OptionalTemplateParts(seg, name);
    RequestParts(seg, value);
    VariantsMatch(seg, name, value, validators);
  }
}
