/**
 * The functions of Go's `strings` package that the router, the matchers and the
 * context use, written out on `string` (a sequence of characters). Only the
 * one-character separators and cutsets the framework passes are modelled.
 */
module GoStrings {

  /** strings.HasPrefix(s, string(c)). */
  predicate HasPrefix(s: string, c: char) {
    |s| > 0 && s[0] == c
  }

  /** strings.HasSuffix(s, string(c)). */
  predicate HasSuffix(s: string, c: char) {
    |s| > 0 && s[|s| - 1] == c
  }

  /** strings.IndexByte: the first position of `c` in `s`, or -1 when there is none. */
  function IndexOf(s: string, c: char): (r: int)
    ensures -1 <= r < |s|
    ensures r == -1 <==> c !in s
    ensures r >= 0 ==> s[r] == c && c !in s[..r]
  {
    if |s| == 0 then -1
    else if s[0] == c then 0
    else
      var k := IndexOf(s[1..], c);
      if k < 0 then -1
      else
        assert s[..k + 1] == [s[0]] + s[1..][..k];
        k + 1
  }

  // ---------------------------------------------------------------------------
  // Trimming

  /** strings.TrimLeft with a one-character cutset. */
  function TrimLeft(s: string, c: char): (r: string)
    ensures |r| <= |s| && r == s[|s| - |r|..]
    ensures r == [] || r[0] != c
    ensures forall i :: 0 <= i < |s| - |r| ==> s[i] == c
  {
    if |s| > 0 && s[0] == c then TrimLeft(s[1..], c) else s
  }

  /** strings.TrimRight with a one-character cutset. */
  function TrimRight(s: string, c: char): (r: string)
    ensures |r| <= |s| && r == s[..|r|]
    ensures r == [] || r[|r| - 1] != c
    ensures forall i :: |r| <= i < |s| ==> s[i] == c
  {
    if |s| > 0 && s[|s| - 1] == c then TrimRight(s[..|s| - 1], c) else s
  }

  /** strings.Trim(s, string(c)): every leading and trailing `c` removed. */
  function Trim(s: string, c: char): (r: string)
    ensures !HasPrefix(r, c) && !HasSuffix(r, c)
    ensures |r| <= |s|
  {
    TrimRight(TrimLeft(s, c), c)
  }

  /** strings.TrimSuffix(s, string(c)): at most one trailing `c` removed. */
  function TrimSuffix(s: string, c: char): (r: string)
    ensures HasSuffix(s, c) ==> r + [c] == s
    ensures !HasSuffix(s, c) ==> r == s
  {
    if HasSuffix(s, c) then s[..|s| - 1] else s
  }

  /** unicode.IsSpace: the characters Go's strings.TrimSpace removes. */
  predicate IsSpace(ch: char) {
    || ch == ' ' || ch == '\t' || ch == '\n' || ch == '\r'
    || ch == '\U{000B}' || ch == '\U{000C}' || ch == '\U{0085}' || ch == '\U{00A0}'
    || ch == '\U{1680}' || ('\U{2000}' <= ch <= '\U{200A}')
    || ch == '\U{2028}' || ch == '\U{2029}' || ch == '\U{202F}' || ch == '\U{205F}'
    || ch == '\U{3000}'
  }

  function TrimLeftSpace(s: string): (r: string)
    ensures |r| <= |s| && r == s[|s| - |r|..]
    ensures r == [] || !IsSpace(r[0])
  {
    if |s| > 0 && IsSpace(s[0]) then TrimLeftSpace(s[1..]) else s
  }

  function TrimRightSpace(s: string): (r: string)
    ensures |r| <= |s| && r == s[..|r|]
    ensures r == [] || !IsSpace(r[|r| - 1])
  {
    if |s| > 0 && IsSpace(s[|s| - 1]) then TrimRightSpace(s[..|s| - 1]) else s
  }

  /** strings.TrimSpace: leading and trailing white space removed. */
  function TrimSpace(s: string): (r: string)
    ensures r == [] || (!IsSpace(r[0]) && !IsSpace(r[|r| - 1]))
  {
    TrimRightSpace(TrimLeftSpace(s))
  }

  lemma TrimSpaceNoop(s: string)
    requires s == [] || (!IsSpace(s[0]) && !IsSpace(s[|s| - 1]))
    ensures TrimSpace(s) == s
  {
  }

  // ---------------------------------------------------------------------------
  // Splitting and joining

  /**
   * strings.Split(s, string(sep)): the pieces between separators. There is
   * always at least one piece (Split("", "/") is [""]).
   */
  function Split(s: string, sep: char): (parts: seq<string>)
    ensures |parts| >= 1
    ensures forall i :: 0 <= i < |parts| ==> sep !in parts[i]
  {
    if |s| == 0 then [""]
    else
      var rest := Split(s[1..], sep);
      if s[0] == sep then [""] + rest
      else [[s[0]] + rest[0]] + rest[1..]
  }

  /** strings.Join(parts, string(sep)). */
  function Join(parts: seq<string>, sep: char): string {
    if |parts| == 0 then ""
    else if |parts| == 1 then parts[0]
    else parts[0] + [sep] + Join(parts[1..], sep)
  }

  /** Joining the pieces of a split gives back the original string. */
  lemma {:induction false} JoinSplit(s: string, sep: char)
    ensures Join(Split(s, sep), sep) == s
  {
    if |s| > 0 {
      var rest := Split(s[1..], sep);
      JoinSplit(s[1..], sep);
      if s[0] == sep {
        assert Split(s, sep) == [""] + rest;
        assert ([""] + rest)[1..] == rest;
      } else {
        var parts := [[s[0]] + rest[0]] + rest[1..];
        assert Split(s, sep) == parts;
        if |rest| == 1 {
          assert parts == [[s[0]] + rest[0]];
        } else {
          assert parts[1..] == rest[1..];
          assert Join(rest, sep) == rest[0] + [sep] + Join(rest[1..], sep);
        }
      }
    }
  }

  /** A string without the separator splits into itself alone. */
  lemma {:induction false} SplitNoSep(s: string, sep: char)
    requires sep !in s
    ensures Split(s, sep) == [s]
  {
    if |s| > 0 {
      SplitNoSep(s[1..], sep);
      assert [s[0]] + s[1..] == s;
    }
  }

  lemma {:induction false} SplitAfterPiece(x: string, sep: char, y: string)
    requires sep !in x
    ensures Split(x + [sep] + y, sep) == [x] + Split(y, sep)
  {
    if |x| == 0 {
      assert x + [sep] + y == [sep] + y;
      assert ([sep] + y)[1..] == y;
    } else {
      SplitAfterPiece(x[1..], sep, y);
      assert (x + [sep] + y)[1..] == x[1..] + [sep] + y;
      assert [x[0]] + x[1..] == x;
    }
  }

  /** Splitting the join of separator-free pieces gives back the pieces. */
  lemma {:induction false} SplitJoin(parts: seq<string>, sep: char)
    requires |parts| >= 1
    requires forall i :: 0 <= i < |parts| ==> sep !in parts[i]
    ensures Split(Join(parts, sep), sep) == parts
  {
    if |parts| == 1 {
      SplitNoSep(parts[0], sep);
    } else {
      SplitJoin(parts[1..], sep);
      SplitAfterPiece(parts[0], sep, Join(parts[1..], sep));
      assert [parts[0]] + parts[1..] == parts;
    }
  }

  /** Joining two non-empty lists of pieces puts one separator between their joins. */
  lemma {:induction false} JoinConcat(x: seq<string>, y: seq<string>, sep: char)
    requires |x| >= 1 && |y| >= 1
    ensures Join(x + y, sep) == Join(x, sep) + [sep] + Join(y, sep)
  {
    assert (x + y)[0] == x[0];
    if |x| == 1 {
      assert (x + y)[1..] == y;
    } else {
      JoinConcat(x[1..], y, sep);
      assert (x + y)[1..] == x[1..] + y;
    }
  }

  // ---------------------------------------------------------------------------
  // Searching and replacing

  /** `sub` occurs in `s` at position k. */
  predicate OccursAt(s: string, sub: string, k: int) {
    0 <= k && k + |sub| <= |s| && s[k..k + |sub|] == sub
  }

  function IndexFrom(s: string, sub: string, i: nat): (r: int)
    decreases |s| + 1 - i
    ensures r == -1 || (i <= r && OccursAt(s, sub, r))
    ensures forall k :: i <= k && (r == -1 || k < r) ==> !OccursAt(s, sub, k)
  {
    if i + |sub| > |s| then -1
    else if s[i..i + |sub|] == sub then i
    else IndexFrom(s, sub, i + 1)
  }

  /** strings.Index: the first position at which `sub` occurs in `s`, or -1. */
  function Index(s: string, sub: string): (r: int)
    ensures r == -1 || OccursAt(s, sub, r)
    ensures forall k :: 0 <= k && (r == -1 || k < r) ==> !OccursAt(s, sub, k)
  {
    IndexFrom(s, sub, 0)
  }

  /** strings.Replace(s, pattern, "", 1): the first occurrence of `pattern` deleted. */
  function ReplaceFirst(s: string, pattern: string): (r: string)
    ensures Index(s, pattern) == -1 ==> r == s
    ensures Index(s, pattern) >= 0 ==> r == s[..Index(s, pattern)] + s[Index(s, pattern) + |pattern|..]
  {
    var k := Index(s, pattern);
    if k < 0 then s else s[..k] + s[k + |pattern|..]
  }

  /** No two consecutive slashes. */
  predicate NoDoubleSlash(s: string) {
    forall i :: 0 <= i < |s| - 1 ==> !(s[i] == '/' && s[i + 1] == '/')
  }

  /**
   * strings.Replace(s, "//", "/", -1): every non-overlapping "//", scanned from
   * the left, becomes "/" (so "///" becomes "//").
   */
  function ReplaceDoubleSlash(s: string): (r: string)
    ensures |r| <= |s|
  {
    if |s| >= 2 && s[0] == '/' && s[1] == '/' then "/" + ReplaceDoubleSlash(s[2..])
    else if |s| == 0 then ""
    else [s[0]] + ReplaceDoubleSlash(s[1..])
  }

  /** A string without "//" is left unchanged. */
  lemma {:induction false} ReplaceDoubleSlashNoop(s: string)
    requires NoDoubleSlash(s)
    ensures ReplaceDoubleSlash(s) == s
  {
    if |s| > 0 {
      assert !(|s| >= 2 && s[0] == '/' && s[1] == '/');
      ReplaceDoubleSlashNoop(s[1..]);
      assert [s[0]] + s[1..] == s;
    }
  }

  lemma AppendAssoc(a: string, b: string, c: string)
    ensures a + (b + c) == (a + b) + c
  {
  }

  /** A "//" at the front becomes "/". */
  lemma ReplaceDoubleSlashPair(s: string)
    requires |s| >= 2 && s[0] == '/' && s[1] == '/'
    ensures ReplaceDoubleSlash(s) == "/" + ReplaceDoubleSlash(s[2..])
  {
  }

  /** Any other first character is kept. */
  lemma ReplaceDoubleSlashSingle(s: string)
    requires |s| >= 1 && !(|s| >= 2 && s[0] == '/' && s[1] == '/')
    ensures ReplaceDoubleSlash(s) == [s[0]] + ReplaceDoubleSlash(s[1..])
  {
  }

  /** "//" collapsing works piecewise when no "//" straddles the seam. */
  lemma {:induction false} ReplaceDoubleSlashConcat(x: string, y: string)
    requires x == [] || y == [] || !(x[|x| - 1] == '/' && y[0] == '/')
    ensures ReplaceDoubleSlash(x + y) == ReplaceDoubleSlash(x) + ReplaceDoubleSlash(y)
    decreases |x|
  {
    if x != [] {
      var s := x + y;
      if |x| >= 2 && x[0] == '/' && x[1] == '/' {
        if 2 < |x| {
          assert x[2..][|x| - 3] == x[|x| - 1];
        }
        assert s[2..] == x[2..] + y;
        ReplaceDoubleSlashConcat(x[2..], y);
        ReplaceDoubleSlashPair(x);
        ReplaceDoubleSlashPair(s);
        var a, b := ReplaceDoubleSlash(x[2..]), ReplaceDoubleSlash(y);
        AppendAssoc("/", a, b);
      } else {
        if 1 < |x| {
          assert x[1..][|x| - 2] == x[|x| - 1];
        }
        assert s[1..] == x[1..] + y;
        ReplaceDoubleSlashConcat(x[1..], y);
        ReplaceDoubleSlashSingle(x);
        ReplaceDoubleSlashSingle(s);
        var a, b := ReplaceDoubleSlash(x[1..]), ReplaceDoubleSlash(y);
        AppendAssoc([x[0]], a, b);
      }
    } else {
      assert x + y == y;
    }
  }

  /** A piece occurs where it is placed. */
  lemma OccursInMiddle(a: string, sub: string, b: string)
    ensures OccursAt(a + sub + b, sub, |a|)
  {
    assert (a + sub + b)[|a|..|a| + |sub|] == sub;
  }

  /** "//" collapsing leaves alone a middle piece that holds no "//" and has no '/' at either end. */
  lemma ReplaceDoubleSlashAround(a: string, m: string, b: string)
    requires |m| > 0 && m[0] != '/' && m[|m| - 1] != '/' && NoDoubleSlash(m)
    ensures ReplaceDoubleSlash(a + m + b) == ReplaceDoubleSlash(a) + m + ReplaceDoubleSlash(b)
  {
    calc {
      ReplaceDoubleSlash(a + m + b);
      == { AppendAssoc(a, m, b); }
      ReplaceDoubleSlash(a + (m + b));
      == { assert (m + b)[0] == m[0]; ReplaceDoubleSlashConcat(a, m + b); }
      ReplaceDoubleSlash(a) + ReplaceDoubleSlash(m + b);
      == { ReplaceDoubleSlashConcat(m, b); ReplaceDoubleSlashNoop(m); }
      ReplaceDoubleSlash(a) + (m + ReplaceDoubleSlash(b));
      == { AppendAssoc(ReplaceDoubleSlash(a), m, ReplaceDoubleSlash(b)); }
      ReplaceDoubleSlash(a) + m + ReplaceDoubleSlash(b);
    }
  }

  /** An occurrence after a prefix is an occurrence in what follows the prefix. */
  lemma OccursAfter(a: string, b: string, sub: string, k: int)
    requires k >= 0
    ensures OccursAt(a + b, sub, |a| + k) <==> OccursAt(b, sub, k)
  {
    if k + |sub| <= |b| {
      assert (a + b)[|a| + k..|a| + k + |sub|] == b[k..k + |sub|];
    }
  }

  /** When no occurrence starts inside the prefix a, the first occurrence is found in what follows a. */
  lemma IndexPastPrefix(a: string, rest: string, sub: string)
    requires forall k :: 0 <= k < |a| ==> !OccursAt(a + rest, sub, k)
    ensures var x := Index(rest, sub);
            Index(a + rest, sub) == if x < 0 then -1 else |a| + x
  {
    var s := a + rest;
    forall k | 0 <= k
      ensures OccursAt(s, sub, |a| + k) <==> OccursAt(rest, sub, k)
    {
      OccursAfter(a, rest, sub, k);
    }
    var x := Index(rest, sub);
    forall k | 0 <= k && (x < 0 || k < |a| + x)
      ensures !OccursAt(s, sub, k)
    {
      if k >= |a| {
        assert !OccursAt(rest, sub, k - |a|);
      }
    }
    if x >= 0 {
      assert OccursAt(s, sub, |a| + x);
    }
  }

  /** Cutting a piece out of what follows a prefix. */
  lemma CutAfter(a: string, r: string, x: nat, l: nat)
    requires x + l <= |r|
    ensures (a + r)[..|a| + x] + (a + r)[|a| + x + l..] == a + (r[..x] + r[x + l..])
  {
    assert (a + r)[..|a| + x] == a + r[..x];
    assert (a + r)[|a| + x + l..] == r[x + l..];
  }

  lemma ReplaceFirstFound(a: string, rest: string, sub: string, x: int)
    requires x == Index(rest, sub) && x >= 0 && Index(a + rest, sub) == |a| + x
    ensures ReplaceFirst(a + rest, sub) == a + ReplaceFirst(rest, sub)
  {
    assert x + |sub| <= |rest| by {
      assert OccursAt(rest, sub, x);
    }
    var s := a + rest;
    var cut := rest[..x] + rest[x + |sub|..];
    assert ReplaceFirst(rest, sub) == cut;
    assert ReplaceFirst(s, sub) == a + cut by {
      CutAfter(a, rest, x, |sub|);
    }
  }

  /** When the first occurrence lies past the prefix, deleting it leaves the prefix alone. */
  lemma ReplaceFirstPastPrefix(a: string, rest: string, sub: string)
    requires var x := Index(rest, sub); Index(a + rest, sub) == if x < 0 then -1 else |a| + x
    ensures ReplaceFirst(a + rest, sub) == a + ReplaceFirst(rest, sub)
  {
    var x := Index(rest, sub);
    if x >= 0 {
      ReplaceFirstFound(a, rest, sub, x);
    }
  }

  /** strings.Replace(s, string(c), "", -1): every `c` deleted. */
  function RemoveAll(s: string, c: char): (r: string)
    ensures c !in r
    ensures |r| <= |s|
  {
    if |s| == 0 then ""
    else (if s[0] == c then "" else [s[0]]) + RemoveAll(s[1..], c)
  }

  lemma {:induction false} RemoveAllNoop(s: string, c: char)
    requires c !in s
    ensures RemoveAll(s, c) == s
  {
    if |s| > 0 {
      RemoveAllNoop(s[1..], c);
      assert [s[0]] + s[1..] == s;
    }
  }

  lemma {:induction false} RemoveAllConcat(a: string, b: string, c: char)
    ensures RemoveAll(a + b, c) == RemoveAll(a, c) + RemoveAll(b, c)
  {
    if |a| > 0 {
      RemoveAllConcat(a[1..], b, c);
      assert (a + b)[1..] == a[1..] + b;
    } else {
      assert a + b == b;
    }
  }
  lemma RemoveAllAround(a: string, m: string, b: string, c: char)
    ensures RemoveAll(a + m + b, c) == RemoveAll(a, c) + RemoveAll(m, c) + RemoveAll(b, c)
  {
    RemoveAllConcat(a + m, b, c);
    RemoveAllConcat(a, m, c);
  }

}
