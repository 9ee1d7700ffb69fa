/** Matching a concrete path against a documented one, component by component. */
module PathMatch {
  import opened Options

  predicate IsSeparator(c: char) {
    c == '.' || c == '['
  }

  function CountSeparators(s: string): (n: nat)
    ensures n <= |s|
  {
    if s == "" then 0 else (if IsSeparator(s[0]) then 1 else 0) + CountSeparators(s[1..])
  }

  /** The position of the first separator, or the length. */
  function FirstSeparator(s: string): (m: nat)
    ensures m <= |s| && (m < |s| ==> IsSeparator(s[m]))
    ensures forall i :: 0 <= i < m ==> !IsSeparator(s[i])
    ensures m < |s| <==> CountSeparators(s) > 0
  {
    if s == "" || IsSeparator(s[0]) then 0 else 1 + FirstSeparator(s[1..])
  }

  /** The text between separators. */
  function Pieces(s: string): (ps: seq<string>)
    ensures |ps| >= 1
    decreases |s|
  {
    var m := FirstSeparator(s);
    if m == |s| then [s] else [s[..m]] + Pieces(s[m + 1..])
  }

  /** A piece that ends in a bracket gets its other one back. */
  function Component(piece: string): string {
    if piece != "" && piece[|piece| - 1] == ']' then "[" + piece else piece
  }

  function Components(pieces: seq<string>): (cs: seq<string>)
    ensures |cs| == |pieces| && forall i :: 0 <= i < |pieces| ==> cs[i] == Component(pieces[i])
  {
    seq(|pieces|, i requires 0 <= i < |pieces| => Component(pieces[i]))
  }

  /** None is a run-time panic: the code looks at the last character of every piece. */
  function Split(path: string): Option<seq<string>> {
    if path == "" then Some([])
    else if "" in Pieces(path) then None
    else Some(Components(Pieces(path)))
  }

  function Accepts(pattern: string, component: string): bool {
    || pattern == component
    || pattern == "*"
    || pattern == "~"
    || (pattern == "[*]" && IsSubscript(component))
  }

  predicate IsSubscript(s: string) {
    "[" <= s && s[|s| - 1] == ']'
  }

  predicate AcceptsAll(patterns: seq<string>, components: seq<string>) {
    |patterns| == |components| && forall i :: 0 <= i < |patterns| ==> Accepts(patterns[i], components[i])
  }

  function Matches(yamlPath: string, concrete: string): Option<bool> {
    if yamlPath == concrete then Some(true)
    else if Split(yamlPath).None? || Split(concrete).None? then None
    else Some(AcceptsAll(Split(yamlPath).value, Split(concrete).value))
  }

  // ---------------------------------------------------------------- the code

  lemma {:induction false} PieceCount(s: string)
    ensures |Pieces(s)| == CountSeparators(s) + 1
    decreases |s|
  {
    var m := FirstSeparator(s);
    CountAfter(s, m);
    if m < |s| {
      PieceCount(s[m + 1..]);
    }
  }

  lemma {:induction false} CountAfter(s: string, m: nat)
    requires m == FirstSeparator(s)
    ensures CountSeparators(s) == if m == |s| then 0 else 1 + CountSeparators(s[m + 1..])
  {
    if s != "" && !IsSeparator(s[0]) {
      CountAfter(s[1..], m - 1);
      if m < |s| {
        assert s[1..][m..] == s[m + 1..];
      }
    }
  }

  method FindSeparator(path: string) returns (m: nat)
    requires CountSeparators(path) > 0
    ensures m == FirstSeparator(path) && m < |path|
  {
    m := 0;
    while m < |path| && !IsSeparator(path[m])
      invariant m <= |path| && FirstSeparator(path) == m + FirstSeparator(path[m..])
    {
      assert path[m..][1..] == path[m + 1..];
      m := m + 1;
    }
  }

  /** The first i components are in place. */
  ghost predicate Filled(a: array<string>, i: nat, all: seq<string>, rest: string)
    reads a
  {
    && a.Length == |all|
    && i + |Pieces(rest)| == |all|
    && all[i..] == Pieces(rest)
    && "" !in all[..i]
    && forall k :: 0 <= k < i ==> a[k] == Component(all[k])
  }

  lemma PiecesIs(path: string)
    ensures var m := FirstSeparator(path);
            if m == |path| then |Pieces(path)| == 1 else Pieces(path) == [path[..m]] + Pieces(path[m + 1..])
  {
    hide FirstSeparator;
  }

  lemma NextPiece(a: array<string>, i: nat, all: seq<string>, path: string, m: nat)
    requires Filled(a, i, all, path) && i + 1 < |all| && m == FirstSeparator(path)
    ensures m < |path| && all[i] == path[..m] && all[i + 1..] == Pieces(path[m + 1..])
  {
    hide Pieces, FirstSeparator;
    PiecesIs(path);
    var rest := all[i..];
    assert all[i] == rest[0] && all[i + 1..] == rest[1..];
  }

  /** Puts the next component in place; false stands for the index panic. */
  method PlaceComponent(a: array<string>, i: nat, ghost all: seq<string>, path: string, m: nat) returns (ok: bool)
    requires Filled(a, i, all, path) && i + 1 < |all| && m == FirstSeparator(path)
    modifies a
    ensures ok <==> all[i] != ""
    ensures ok ==> m < |path| && Filled(a, i + 1, all, path[m + 1..])
  {
    hide Pieces, FirstSeparator;
    NextPiece(a, i, all, path, m);
    if m == 0 {
      return false;
    }
    a[i] := path[..m];
    if path[m - 1] == ']' {
      a[i] := "[" + a[i];
    }
    ok := true;
  }

  lemma NothingFilled(a: array<string>, all: seq<string>, path: string)
    requires all == Pieces(path) && a.Length == |all|
    ensures Filled(a, 0, all, path)
  {
  }

  lemma MoreSeparators(a: array<string>, i: nat, all: seq<string>, rest: string)
    requires Filled(a, i, all, rest) && i + 1 < |all|
    ensures CountSeparators(rest) > 0
  {
    PieceCount(rest);
  }

  method SplitPath(path: string) returns (r: Option<seq<string>>)
    ensures r == Split(path)
  {
    hide Pieces, FirstSeparator, Filled, Components;
    if path == "" {
      return Some([]);
    }
    var n := CountSeparators(path) + 1;
    if n > |path| + 1 {
      n := |path| + 1;
    }
    PieceCount(path);
    ghost var all := Pieces(path);
    var a := new string[n];
    n := n - 1;
    var i := 0;
    var rest := path;
    NothingFilled(a, all, path);
    while i < n
      invariant 0 <= i <= n == |all| - 1
      invariant Filled(a, i, all, rest)
    {
      MoreSeparators(a, i, all, rest);
      var m := FindSeparator(rest);
      var ok := PlaceComponent(a, i, all, rest, m);
      if !ok {
        assert all[i] in all;
        return None;
      }
      rest := rest[m + 1..];
      i := i + 1;
    }
    var ok := PlaceLast(a, i, all, rest);
    if !ok {
      return None;
    }
    r := Some(a[..i + 1]);
  }

  method PlaceLast(a: array<string>, i: nat, ghost all: seq<string>, rest: string) returns (ok: bool)
    requires Filled(a, i, all, rest) && i == |all| - 1
    modifies a
    ensures ok <==> "" !in all
    ensures ok ==> a[..i + 1] == Components(all)
  {
    hide CountSeparators, FirstSeparator;
    PieceCount(rest);
    LastPiece(rest);
    assert all[i..] == [all[i]];
    assert all == all[..i] + [all[i]];
    if |rest| == 0 {
      return false;
    }
    a[i] := rest;
    if rest[|rest| - 1] == ']' {
      a[i] := "[" + a[i];
    }
    assert a[..i + 1] == Components(all);
    ok := true;
  }

  lemma LastPiece(s: string)
    requires CountSeparators(s) == 0
    ensures Pieces(s) == [s]
  {
  }

  method Match(yamlPath: string, concrete: string) returns (r: Option<bool>)
    ensures r == Matches(yamlPath, concrete)
  {
    if yamlPath == concrete {
      return Some(true);
    }
    var ys := SplitPath(yamlPath);
    if ys.None? {
      return None;
    }
    var cs := SplitPath(concrete);
    if cs.None? {
      return None;
    }
    if |ys.value| != |cs.value| {
      return Some(false);
    }
    for i := 0 to |ys.value|
      invariant forall k :: 0 <= k < i ==> Accepts(ys.value[k], cs.value[k])
    {
      var y, c := ys.value[i], cs.value[i];
      if y == c || y == "*" || y == "~" {
        continue;
      }
      if y == "[*]" && IsSubscript(c) {
        continue;
      }
      return Some(false);
    }
    r := Some(true);
  }

  // ---------------------------------------------------------------- when it panics

  predicate TwoSeparators(s: string, i: nat) {
    i + 1 < |s| && IsSeparator(s[i]) && IsSeparator(s[i + 1])
  }

  predicate EmptyPiece(s: string) {
    || s == ""
    || IsSeparator(s[0])
    || IsSeparator(s[|s| - 1])
    || exists i :: 0 <= i < |s| && TwoSeparators(s, i)
  }

  lemma TwoInSuffix(s: string, k: nat, j: nat)
    requires k <= |s|
    ensures TwoSeparators(s[k..], j) <==> TwoSeparators(s, k + j)
  {
    hide IsSeparator;
    assert j < |s[k..]| ==> s[k..][j] == s[k + j];
    assert j + 1 < |s[k..]| ==> s[k..][j + 1] == s[k + j + 1];
  }

  /** The text behind position m, seen from the whole text. */
  lemma Behind(s: string, m: nat)
    requires m < |s|
    ensures var rest := s[m + 1..];
            && |rest| == |s| - m - 1
            && (rest != "" ==> rest[0] == s[m + 1] && rest[|rest| - 1] == s[|s| - 1])
  {
  }

  lemma TwoAreSeparators(s: string, i: nat)
    requires TwoSeparators(s, i)
    ensures i + 1 < |s| && IsSeparator(s[i]) && IsSeparator(s[i + 1])
  {
  }

  lemma EmptyInside(s: string) returns (i: nat)
    requires EmptyPiece(s) && s != "" && !IsSeparator(s[0]) && !IsSeparator(s[|s| - 1])
    ensures TwoSeparators(s, i)
  {
    hide IsSeparator, TwoSeparators;
    i :| i < |s| && TwoSeparators(s, i);
  }

  lemma EmptyByTwo(s: string, i: nat)
    requires TwoSeparators(s, i)
    ensures EmptyPiece(s)
  {
    TwoAreSeparators(s, i);
    hide IsSeparator, TwoSeparators;
  }

  lemma EmptyByEnds(s: string)
    requires s == "" || IsSeparator(s[0]) || IsSeparator(s[|s| - 1])
    ensures EmptyPiece(s)
  {
    hide IsSeparator, TwoSeparators;
  }

  lemma EmptyPieceAfter(s: string, m: nat)
    requires m == FirstSeparator(s) < |s| && EmptyPiece(s) && m > 0
    ensures EmptyPiece(s[m + 1..])
  {
    hide *;
    var rest := s[m + 1..];
    Behind(s, m);
    if rest == "" || IsSeparator(rest[0]) || IsSeparator(rest[|rest| - 1]) {
      EmptyByEnds(rest);
    } else {
      var i := EmptyInside(s);
      TwoAreSeparators(s, i);
      TwoInSuffix(s, m + 1, i - m - 1);
      EmptyByTwo(rest, i - m - 1);
    }
  }

  lemma EmptyPieceBefore(s: string, m: nat)
    requires m == FirstSeparator(s) < |s| && EmptyPiece(s[m + 1..])
    ensures EmptyPiece(s)
  {
    hide *;
    var rest := s[m + 1..];
    Behind(s, m);
    if rest == "" || IsSeparator(rest[|rest| - 1]) {
      EmptyByEnds(s);
    } else if IsSeparator(rest[0]) {
      TwoHere(s, m);
      EmptyByTwo(s, m);
    } else {
      var i := EmptyInside(rest);
      TwoInSuffix(s, m + 1, i);
      EmptyByTwo(s, m + 1 + i);
    }
  }

  lemma TwoHere(s: string, m: nat)
    requires m + 1 < |s| && IsSeparator(s[m]) && IsSeparator(s[m + 1..][0])
    ensures TwoSeparators(s, m)
  {
  }

  lemma {:induction false} EmptyPieceExactly(s: string)
    ensures "" in Pieces(s) <==> EmptyPiece(s)
    decreases |s|
  {
    var m := FirstSeparator(s);
    PiecesAre(s);
    hide Pieces, FirstSeparator;
    if m == |s| {
      hide FirstSeparator;
      assert EmptyPiece(s) <==> s == "";
    } else {
      hide EmptyPiece;
      EmptyPieceExactly(s[m + 1..]);
      if EmptyPiece(s) && m > 0 {
        EmptyPieceAfter(s, m);
      }
      if EmptyPiece(s[m + 1..]) {
        EmptyPieceBefore(s, m);
      }
      if m == 0 {
        EmptyAtStart(s);
      }
    }
  }

  lemma EmptyAtStart(s: string)
    requires s != "" && IsSeparator(s[0])
    ensures EmptyPiece(s)
  {
  }

  lemma PiecesAre(s: string)
    ensures var m := FirstSeparator(s);
            if m == |s| then Pieces(s) == [s]
            else Pieces(s) == [s[..m]] + Pieces(s[m + 1..]) && (s[..m] == "" <==> m == 0)
  {
  }

  /** Splitting fails at run time exactly for a path that starts or ends with a separator or has two
      in a row. */
  lemma SplitPanicsExactly(path: string)
    ensures Split(path).None? <==> path != "" && EmptyPiece(path)
  {
    EmptyPieceExactly(path);
  }

  /** Matching two different paths fails at run time exactly if splitting one of them does. */
  lemma MatchPanicsExactly(yamlPath: string, concrete: string)
    ensures Matches(yamlPath, concrete).None? <==>
            yamlPath != concrete && ((yamlPath != "" && EmptyPiece(yamlPath)) || (concrete != "" && EmptyPiece(concrete)))
  {
    hide Split, EmptyPiece;
    SplitPanicsExactly(yamlPath);
    SplitPanicsExactly(concrete);
  }
}
