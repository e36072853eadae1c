/**
 * Go's `path.Clean` and the two-element `path.Join` that router groups use to
 * put their prefix in front of a route path.
 */
module GoPath {
  import opened GoStrings

  /** An element that can survive cleaning: not empty, not ".", without a slash. */
  predicate KeptElem(e: string) {
    e != "" && e != "." && '/' !in e
  }

  /**
   * The element walk of path.Clean, on a stack of kept elements: "" and "."
   * vanish; ".." removes the last real element, is dropped at the root of a
   * rooted path and is kept when a relative path cannot back up further.
   */
  function Fold(stack: seq<string>, elems: seq<string>, rooted: bool): (r: seq<string>)
    requires forall i :: 0 <= i < |stack| ==> KeptElem(stack[i])
    requires forall i :: 0 <= i < |elems| ==> '/' !in elems[i]
    ensures forall i :: 0 <= i < |r| ==> KeptElem(r[i])
    decreases |elems|
  {
    if elems == [] then stack
    else
      var e := elems[0];
      var next :=
        if e == "" || e == "." then stack
        else if e == ".." then
          (if |stack| > 0 && stack[|stack| - 1] != ".." then stack[..|stack| - 1]
           else if rooted then stack
           else stack + [".."])
        else stack + [e];
      Fold(next, elems[1..], rooted)
  }

  /** Joining kept elements never produces "//" and neither starts nor ends with "/". */
  lemma {:induction false} JoinKept(st: seq<string>)
    requires forall i :: 0 <= i < |st| ==> KeptElem(st[i])
    ensures NoDoubleSlash(Join(st, '/'))
    ensures st != [] ==> Join(st, '/') != [] && !HasPrefix(Join(st, '/'), '/') && !HasSuffix(Join(st, '/'), '/')
    ensures st == [] ==> Join(st, '/') == []
  {
    if |st| > 1 {
      JoinKept(st[1..]);
      var head, tail := st[0], Join(st[1..], '/');
      var j := head + ['/'] + tail;
      assert Join(st, '/') == j;
      forall i | 0 <= i < |j| - 1
        ensures !(j[i] == '/' && j[i + 1] == '/')
      {
        if i < |head| - 1 {
          assert j[i] == head[i] && j[i + 1] == head[i + 1];
          assert head[i] in head;
        } else if i == |head| - 1 {
          assert j[i] == head[i];
          assert head[i] in head;
        } else if i == |head| {
          assert j[i + 1] == tail[0];
        } else {
          assert j[i] == tail[i - |head| - 1] && j[i + 1] == tail[i - |head|];
        }
      }
      assert j[0] == head[0] && head[0] in head;
      assert j[|j| - 1] == tail[|tail| - 1];
    } else if |st| == 1 {
      var e := st[0];
      assert Join(st, '/') == e;
      forall i | 0 <= i < |e| - 1
        ensures !(e[i] == '/' && e[i + 1] == '/')
      {
        assert e[i] in e;
      }
      assert e[0] in e && e[|e| - 1] in e;
    }
  }

  /**
   * path.Clean: the shortest path name equivalent to `p` by purely lexical
   * processing. The empty path cleans to ".".
   */
  function Clean(p: string): (r: string)
    ensures r != ""
    ensures NoDoubleSlash(r)
    ensures r != "/" ==> !HasSuffix(r, '/')
    ensures HasPrefix(r, '/') <==> HasPrefix(p, '/')
  {
    if p == "" then "."
    else
      var rooted := p[0] == '/';
      var st := Fold([], Split(p, '/'), rooted);
      JoinKept(st);
      var body := Join(st, '/');
      if rooted then
        (if body == [] then "/"
         else
           var r := "/" + body;
           assert forall i :: 1 <= i < |r| - 1 ==> r[i] == body[i - 1] && r[i + 1] == body[i];
           r)
      else if body == [] then "."
      else body
  }

  /**
   * path.Join(a, b): the non-empty elements joined with "/" and cleaned; the
   * empty string when both are empty.
   */
  function JoinPath(a: string, b: string): (r: string)
    ensures r == "" <==> a == "" && b == ""
    ensures r != "" ==> NoDoubleSlash(r) && (r != "/" ==> !HasSuffix(r, '/'))
    ensures a != "" ==> (HasPrefix(r, '/') <==> HasPrefix(a, '/'))
  {
    if a == "" && b == "" then ""
    else if a == "" then Clean(b)
    else Clean(a + "/" + b)
  }

  /** An element that cleaning keeps as it is: a kept element other than "..". */
  predicate PlainElem(e: string) {
    KeptElem(e) && e != ".."
  }

  /** A relative stack in normal form: every ".." comes before every other element. */
  predicate LeadingUps(st: seq<string>) {
    forall i, j :: 0 <= i < j < |st| && st[j] == ".." ==> st[i] == ".."
  }

  /** Walking the elements one list after the other is walking their concatenation. */
  lemma {:induction false} FoldAppend(stack: seq<string>, x: seq<string>, y: seq<string>, rooted: bool)
    requires forall i :: 0 <= i < |stack| ==> KeptElem(stack[i])
    requires forall i :: 0 <= i < |x| ==> '/' !in x[i]
    requires forall i :: 0 <= i < |y| ==> '/' !in y[i]
    ensures Fold(stack, x + y, rooted) == Fold(Fold(stack, x, rooted), y, rooted)
    decreases |x|
  {
    if x == [] {
      assert x + y == y;
    } else {
      var e := x[0];
      var next :=
        if e == "" || e == "." then stack
        else if e == ".." then
          (if |stack| > 0 && stack[|stack| - 1] != ".." then stack[..|stack| - 1]
           else if rooted then stack
           else stack + [".."])
        else stack + [e];
      assert (x + y)[0] == e && (x + y)[1..] == x[1..] + y;
      FoldAppend(next, x[1..], y, rooted);
    }
  }

  /** Plain elements are pushed unchanged, rooted or not. */
  lemma {:induction false} FoldPlain(stack: seq<string>, elems: seq<string>, rooted: bool)
    requires forall i :: 0 <= i < |stack| ==> KeptElem(stack[i])
    requires forall i :: 0 <= i < |elems| ==> '/' !in elems[i] && PlainElem(elems[i])
    ensures Fold(stack, elems, rooted) == stack + elems
    decreases |elems|
  {
    if elems != [] {
      FoldPlain(stack + [elems[0]], elems[1..], rooted);
      assert stack + [elems[0]] + elems[1..] == stack + elems;
    }
  }

  /** A relative walk over a stack already in normal form leaves it as it is. */
  lemma {:induction false} FoldNormal(stack: seq<string>, elems: seq<string>)
    requires forall i :: 0 <= i < |stack| ==> KeptElem(stack[i])
    requires forall i :: 0 <= i < |elems| ==> '/' !in elems[i] && KeptElem(elems[i])
    requires LeadingUps(stack + elems)
    ensures Fold(stack, elems, false) == stack + elems
    decreases |elems|
  {
    if elems != [] {
      var e := elems[0];
      var all := stack + elems;
      if e == ".." && |stack| > 0 {
        assert all[|stack| - 1] == stack[|stack| - 1] && all[|stack|] == e;
      }
      assert stack + [e] + elems[1..] == all;
      FoldNormal(stack + [e], elems[1..]);
    }
  }

  /** The walk yields plain elements when rooted and a normal-form stack when relative. */
  lemma {:induction false} FoldShape(stack: seq<string>, elems: seq<string>, rooted: bool)
    requires forall i :: 0 <= i < |stack| ==> KeptElem(stack[i])
    requires forall i :: 0 <= i < |elems| ==> '/' !in elems[i]
    ensures rooted && (forall i :: 0 <= i < |stack| ==> PlainElem(stack[i])) ==>
              forall i :: 0 <= i < |Fold(stack, elems, rooted)| ==> PlainElem(Fold(stack, elems, rooted)[i])
    ensures !rooted && LeadingUps(stack) ==> LeadingUps(Fold(stack, elems, rooted))
    decreases |elems|
  {
    if elems != [] {
      var e := elems[0];
      var n := |stack|;
      var next :=
        if e == "" || e == "." then stack
        else if e == ".." then
          (if n > 0 && stack[n - 1] != ".." then stack[..n - 1]
           else if rooted then stack
           else stack + [".."])
        else stack + [e];
      if !rooted && LeadingUps(stack) && e == ".." && !(n > 0 && stack[n - 1] != "..") {
        forall i | 0 <= i < n
          ensures stack[i] == ".."
        {
          if i < n - 1 {
            assert stack[n - 1] == "..";
          }
        }
        assert LeadingUps(next);
      }
      FoldShape(next, elems[1..], rooted);
    }
  }

  /** The pieces of "/" + Join(xs) + "/" + b when split at "/": an empty list stands for one empty piece. */
  function Pieces(xs: seq<string>, ys: seq<string>, rootedB: bool): (parts: seq<string>)
    ensures |parts| >= 3
  {
    [""] + ((if xs == [] then [""] else xs) + ((if rootedB then [""] else []) + (if ys == [] then [""] else ys)))
  }

  lemma JoinTail(ys: seq<string>, rootedB: bool)
    ensures Join((if rootedB then [""] else []) + (if ys == [] then [""] else ys), '/') ==
            (if rootedB then "/" else "") + Join(ys, '/')
  {
    var pb := if ys == [] then [""] else ys;
    var mid: seq<string> := if rootedB then [""] else [];
    if rootedB {
      JoinConcat(mid, pb, '/');
    } else {
      assert mid + pb == pb;
    }
  }

  lemma JoinPieces(xs: seq<string>, ys: seq<string>, rootedB: bool)
    ensures Join(Pieces(xs, ys, rootedB), '/') ==
            "/" + Join(xs, '/') + "/" + ((if rootedB then "/" else "") + Join(ys, '/'))
  {
    var pa := if xs == [] then [""] else xs;
    var tail := (if rootedB then [""] else []) + (if ys == [] then [""] else ys);
    var x := Join(xs, '/');
    var t := (if rootedB then "/" else "") + Join(ys, '/');
    assert Join(pa + tail, '/') == x + "/" + t by {
      JoinTail(ys, rootedB);
      JoinConcat(pa, tail, '/');
    }
    assert Join(Pieces(xs, ys, rootedB), '/') == "/" + Join(pa + tail, '/') by {
      assert Pieces(xs, ys, rootedB) == [""] + (pa + tail);
      JoinConcat([""], pa + tail, '/');
      assert Join([""], '/') + ['/'] == "/";
    }
    AppendAssoc("/", x + "/", t);
    AppendAssoc("/", x, "/");
  }

  /** An empty element is skipped. */
  lemma FoldSkipEmpty(stack: seq<string>, rest: seq<string>, rooted: bool)
    requires forall i :: 0 <= i < |stack| ==> KeptElem(stack[i])
    requires forall i :: 0 <= i < |rest| ==> '/' !in rest[i]
    ensures Fold(stack, [""] + rest, rooted) == Fold(stack, rest, rooted)
  {
    assert ([""] + rest)[0] == "" && ([""] + rest)[1..] == rest;
  }

  /** Plain elements, or the single empty piece that stands for none, are pushed as they are. */
  lemma FoldPadded(stack: seq<string>, ys: seq<string>, rooted: bool)
    requires forall i :: 0 <= i < |stack| ==> KeptElem(stack[i])
    requires forall i :: 0 <= i < |ys| ==> '/' !in ys[i] && PlainElem(ys[i])
    ensures Fold(stack, if ys == [] then [""] else ys, rooted) == stack + ys
  {
    if ys == [] {
      FoldSkipEmpty(stack, [], rooted);
      assert [""] + [] == [""] && stack + ys == stack;
    } else {
      FoldPlain(stack, ys, rooted);
    }
  }

  lemma PiecesNoSep(xs: seq<string>, ys: seq<string>, rootedB: bool)
    requires forall i :: 0 <= i < |xs| ==> '/' !in xs[i]
    requires forall i :: 0 <= i < |ys| ==> '/' !in ys[i]
    ensures forall i :: 0 <= i < |Pieces(xs, ys, rootedB)| ==> '/' !in Pieces(xs, ys, rootedB)[i]
  {
    var pa := if xs == [] then [""] else xs;
    var pb := if ys == [] then [""] else ys;
    var tail := (if rootedB then [""] else []) + pb;
    assert forall i :: 0 <= i < |pa| ==> '/' !in pa[i];
    assert forall i :: 0 <= i < |tail| ==> '/' !in tail[i];
    assert Pieces(xs, ys, rootedB) == [""] + (pa + tail);
  }

  lemma FoldPieces(xs: seq<string>, ys: seq<string>, rootedB: bool)
    requires forall i :: 0 <= i < |xs| ==> '/' !in xs[i] && PlainElem(xs[i])
    requires forall i :: 0 <= i < |ys| ==> '/' !in ys[i] && PlainElem(ys[i])
    ensures forall i :: 0 <= i < |Pieces(xs, ys, rootedB)| ==> '/' !in Pieces(xs, ys, rootedB)[i]
    ensures Fold([], Pieces(xs, ys, rootedB), true) == xs + ys
  {
    PiecesNoSep(xs, ys, rootedB);
    var pa := if xs == [] then [""] else xs;
    var pb := if ys == [] then [""] else ys;
    var tail := (if rootedB then [""] else []) + pb;
    assert forall i :: 0 <= i < |pa| ==> '/' !in pa[i];
    assert forall i :: 0 <= i < |tail| ==> '/' !in tail[i] by {
      assert forall i :: 0 <= i < |pb| ==> '/' !in pb[i];
    }
    assert Fold([], Pieces(xs, ys, rootedB), true) == Fold([], pa + tail, true) by {
      FoldSkipEmpty([], pa + tail, true);
    }
    assert Fold([], pa, true) == xs by {
      FoldPadded([], xs, true);
      assert [] + xs == xs;
    }
    FoldAppend([], pa, tail, true);
    assert Fold(xs, tail, true) == xs + ys by {
      if rootedB {
        FoldSkipEmpty(xs, pb, true);
      } else {
        assert tail == pb;
      }
      FoldPadded(xs, ys, true);
    }
  }

  /**
   * Joining a rooted prefix of plain elements with a path of plain elements,
   * with or without its own leading "/", lists the prefix's elements and then
   * the path's below the root.
   */
  lemma JoinPlainPaths(xs: seq<string>, ys: seq<string>, rootedB: bool)
    requires forall i :: 0 <= i < |xs| ==> '/' !in xs[i] && PlainElem(xs[i])
    requires forall i :: 0 <= i < |ys| ==> '/' !in ys[i] && PlainElem(ys[i])
    ensures JoinPath("/" + Join(xs, '/'), (if rootedB then "/" else "") + Join(ys, '/')) == "/" + Join(xs + ys, '/')
  {
    var a := "/" + Join(xs, '/');
    var b := (if rootedB then "/" else "") + Join(ys, '/');
    var parts := Pieces(xs, ys, rootedB);
    JoinPieces(xs, ys, rootedB);
    FoldPieces(xs, ys, rootedB);
    SplitJoin(parts, '/');
    assert Split(a + "/" + b, '/') == parts;
    assert (a + "/" + b)[0] == '/';
    JoinKept(xs + ys);
  }

  /**
   * A group prefix and a route path made of plain elements join with exactly
   * one "/" between them, whether or not the route path starts with "/".
   */
  lemma JoinPathConcat(xs: seq<string>, ys: seq<string>)
    requires |xs| >= 1 && |ys| >= 1
    requires forall i :: 0 <= i < |xs| ==> '/' !in xs[i] && PlainElem(xs[i])
    requires forall i :: 0 <= i < |ys| ==> '/' !in ys[i] && PlainElem(ys[i])
    ensures JoinPath("/" + Join(xs, '/'), Join(ys, '/')) == "/" + Join(xs, '/') + "/" + Join(ys, '/')
    ensures JoinPath("/" + Join(xs, '/'), "/" + Join(ys, '/')) == "/" + Join(xs, '/') + "/" + Join(ys, '/')
  {
    var a, x, y := "/" + Join(xs, '/'), Join(xs, '/'), Join(ys, '/');
    assert "/" + Join(xs + ys, '/') == "/" + x + "/" + y by {
      JoinConcat(xs, ys, '/');
      AppendAssoc("/", x + "/", y);
      AppendAssoc("/", x, "/");
    }
    assert JoinPath(a, y) == "/" + Join(xs + ys, '/') by {
      JoinPlainPaths(xs, ys, false);
      assert "" + y == y;
    }
    assert JoinPath(a, "/" + y) == "/" + Join(xs + ys, '/') by {
      JoinPlainPaths(xs, ys, true);
    }
  }

  /** The group `/api` puts `users` and `/users` at `/api/users`; the root group adds nothing. */
  lemma JoinPathExample()
    ensures JoinPath("/api", "/users") == "/api/users"
    ensures JoinPath("/api", "users") == "/api/users"
    ensures JoinPath("/", "/users") == "/users"
  {
    var api, users := ["api"], ["users"];
    assert Join(api, '/') == "api" && Join(users, '/') == "users";
    assert '/' !in "api" && '/' !in "users";
    JoinPathConcat(api, users);
    assert "/" + "api" == "/api" && "/" + "users" == "/users";
    assert "/" + "api" + "/" + "users" == "/api/users";
    JoinPlainPaths([], users, true);
    assert [] + users == users && "/" + Join([], '/') == "/";
  }

  /** A rooted path of plain elements is clean. */
  lemma CleanRootedPlain(st: seq<string>)
    requires |st| >= 1
    requires forall i :: 0 <= i < |st| ==> '/' !in st[i] && PlainElem(st[i])
    ensures Clean("/" + Join(st, '/')) == "/" + Join(st, '/')
  {
    var r := "/" + Join(st, '/');
    JoinKept(st);
    assert r[0] == '/' && r[1..] == Join(st, '/');
    SplitJoin(st, '/');
    assert Split(r, '/') == [""] + st;
    FoldSkipEmpty([], st, true);
    FoldPlain([], st, true);
    assert [] + st == st;
  }

  /** A relative path of kept elements in normal form is clean. */
  lemma CleanRelativeNormal(st: seq<string>)
    requires |st| >= 1
    requires forall i :: 0 <= i < |st| ==> '/' !in st[i] && KeptElem(st[i])
    requires LeadingUps(st)
    ensures Clean(Join(st, '/')) == Join(st, '/')
  {
    JoinKept(st);
    assert Join(st, '/')[0] != '/';
    SplitJoin(st, '/');
    FoldNormal([], st);
    assert [] + st == st;
  }

  /** Cleaning is idempotent: a cleaned path is already clean. */
  lemma CleanIdempotent(p: string)
    ensures Clean(Clean(p)) == Clean(p)
  {
    assert Clean(".") == "." by {
      SplitNoSep(".", '/');
      assert Fold([], ["."], false) == Fold([], [], false);
    }
    if p != "" {
      var rooted := p[0] == '/';
      var st := Fold([], Split(p, '/'), rooted);
      FoldShape([], Split(p, '/'), rooted);
      assert forall i :: 0 <= i < |st| ==> '/' !in st[i] && KeptElem(st[i]);
      if rooted && st == [] {
        assert Clean(p) == "/";
        assert Split("/", '/') == [""] + Split("", '/');
        assert Fold([], ["", ""], true) == Fold([], [""], true) == Fold([], [], true);
      } else if rooted {
        assert Clean(p) == "/" + Join(st, '/');
        CleanRootedPlain(st);
      } else if st != [] {
        assert Clean(p) == Join(st, '/');
        CleanRelativeNormal(st);
      }
    }
  }
}
