/** Generalised line paths: the root list index is dropped and every other list index
    becomes a wildcard. */
module GeneralPaths {
  import opened Strings

  /** What the one-pass rewrite yields from here on; inside tells whether a '[' is open. */
  function Wild(p: string, inside: bool): string {
    if p == "" then ""
    else if p[0] == '[' then "[" + Wild(p[1..], true)
    else if p[0] == ']' then "*]" + Wild(p[1..], false)
    else if inside then Wild(p[1..], true)
    else [p[0]] + Wild(p[1..], false)
  }

  /** "$[3].a" becomes "$.a"; a path with no closed root subscript stays. */
  function DropRootIndex(p: string): string {
    if "$[" <= p && ']' in p then "$" + p[IndexOf(p, ']') + 1..] else p
  }

  function Generalize(p: string): string {
    if |p| < 2 then p else Wild(DropRootIndex(p), false)
  }

  method ReplaceListIndicesWithWildcards(path: string) returns (replaced: string)
    ensures replaced == Wild(path, false)
  {
    if |path| == 0 {
      return path;
    }
    var arrStart := false;
    replaced := "";
    for i := 0 to |path|
      invariant replaced + Wild(path[i..], arrStart) == Wild(path, false)
    {
      ghost var before := replaced;
      ghost var was := arrStart;
      assert path[i..][1..] == path[i + 1..];
      if path[i] == '[' {
        arrStart := true;
      } else if path[i] == ']' {
        replaced := replaced + "*";
        arrStart := false;
      } else if arrStart {
        continue;
      }
      replaced := replaced + [path[i]];
      assert before + Wild(path[i..], was) == replaced + Wild(path[i + 1..], arrStart);
    }
  }

  method GeneralizePath(path: string) returns (r: string)
    ensures r == Generalize(path)
  {
    if |path| < 2 {
      return path;
    }
    hide Wild;
    assert "$[" <= path <==> path[0] == '$' && path[1] == '[';
    var p := path;
    if path[0] == '$' && path[1] == '[' {
      var closing := IndexOf(path, ']');
      if closing != -1 {
        p := "$" + path[closing + 1..];
      }
    }
    r := ReplaceListIndicesWithWildcards(p);
  }

  // ---------------------------------------------------------------- rewriting piece by piece

  lemma WildFirst(c: char, t: string)
    requires c !in {'[', ']'}
    ensures Wild([c] + t, false) == [c] + Wild(t, false)
    ensures Wild([c] + t, true) == Wild(t, true)
    ensures Wild("]" + t, true) == "*]" + Wild(t, false)
  {
    assert ([c] + t)[1..] == t && ("]" + t)[1..] == t;
  }

  lemma {:induction false} WildPlain(a: string, b: string)
    requires forall i :: 0 <= i < |a| ==> a[i] !in {'[', ']'}
    ensures Wild(a + b, false) == a + Wild(b, false)
    ensures Wild(a + "]" + b, true) == "*]" + Wild(b, false)
    decreases |a|
  {
    hide *;
    if a == "" {
      assert a + b == b && a + "]" + b == "]" + b;
      assert a + Wild(b, false) == Wild(b, false);
      WildFirst('x', b);
    } else {
      var c, t := a[0], a[1..];
      WildPlain(t, b);
      WildFirst(c, t + b);
      WildFirst(c, t + "]" + b);
      assert a + b == [c] + (t + b) && a + "]" + b == [c] + (t + "]" + b);
      assert a + Wild(b, false) == [c] + (t + Wild(b, false));
    }
  }

  lemma WildOpen(t: string)
    ensures Wild("[" + t, false) == "[" + Wild(t, true)
    ensures Wild("." + t, false) == "." + Wild(t, false)
  {
  }

  /** Whether a bracket is open after this text. */
  function OpenAfter(p: string, inside: bool): bool {
    if p == "" then inside else OpenAfter(p[1..], p[0] == '[' || (p[0] != ']' && inside))
  }

  lemma WildIs(c: char, t: string, inside: bool)
    ensures Wild([c] + t, inside) ==
            (if c == '[' then "[" else if c == ']' then "*]" else if inside then "" else [c])
            + Wild(t, c == '[' || (c != ']' && inside))
    ensures OpenAfter([c] + t, inside) == OpenAfter(t, c == '[' || (c != ']' && inside))
  {
    assert ([c] + t)[1..] == t;
    assert "" + Wild(t, true) == Wild(t, true);
  }

  lemma {:induction false} WildAppend(a: string, b: string, inside: bool)
    ensures Wild(a + b, inside) == Wild(a, inside) + Wild(b, OpenAfter(a, inside))
    ensures OpenAfter(a + b, inside) == OpenAfter(b, OpenAfter(a, inside))
    decreases |a|
  {
    hide *;
    if a == "" {
      assert a + b == b;
      NothingWild(inside);
      assert "" + Wild(b, inside) == Wild(b, inside);
    } else {
      var c, t := a[0], a[1..];
      var next := c == '[' || (c != ']' && inside);
      WildAppend(t, b, next);
      WildIs(c, t, inside);
      WildIs(c, t + b, inside);
      assert a + b == [c] + (t + b) && a == [c] + t;
      var head := if c == '[' then "[" else if c == ']' then "*]" else if inside then "" else [c];
      assert head + (Wild(t, next) + Wild(b, OpenAfter(t, next))) == (head + Wild(t, next)) + Wild(b, OpenAfter(t, next));
    }
  }

  lemma NothingWild(inside: bool)
    ensures Wild("", inside) == "" && OpenAfter("", inside) == inside
  {
  }
}
