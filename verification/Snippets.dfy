/** Inserting an object as an element of a root list: the text is indented under "- ", and the
    parser then sees the same lines one level deeper. */
module Snippets {
  import opened Options
  import opened Strings
  import opened YamlLines

  // ---------------------------------------------------------------- the formatter

  /** One line as the formatter writes it. */
  function FormattedLine(ls: seq<string>, i: nat): string
    requires i < |ls|
  {
    if ls[i] == "" then "" else (if i > 0 then "  " else "") + ls[i] + (if i < |ls| - 1 then "\n" else "")
  }

  /** What the formatter writes for the lines from i on. */
  function Formatted(ls: seq<string>, i: nat): string
    requires i <= |ls|
    decreases |ls| - i
  {
    if i == |ls| then "" else FormattedLine(ls, i) + Formatted(ls, i + 1)
  }

  lemma FormattedStep(ls: seq<string>, i: nat, before: string)
    requires i < |ls|
    ensures before + Formatted(ls, i) == (before + FormattedLine(ls, i)) + Formatted(ls, i + 1)
  {
    hide FormattedLine;
    assert before + (FormattedLine(ls, i) + Formatted(ls, i + 1)) == (before + FormattedLine(ls, i)) + Formatted(ls, i + 1);
  }

  /** One turn of the formatter's loop. */
  method FormatLine(lines: seq<string>, i: nat, before: string) returns (indented: string)
    requires i < |lines|
    ensures indented == before + FormattedLine(lines, i)
  {
    indented := before;
    if |lines[i]| == 0 {
      assert before + "" == before;
      return;
    }
    if i > 0 {
      indented := indented + "  ";
    }
    indented := indented + lines[i];
    if i < |lines| - 1 {
      indented := indented + "\n";
    }
    assert indented == before + FormattedLine(lines, i);
  }

  method FormatObjectToArrayElement(s: string) returns (indented: string)
    ensures indented == Formatted(Lines(s), 0)
  {
    hide Lines, FormattedLine;
    var lines := Lines(s);
    indented := "";
    assert "" + Formatted(lines, 0) == Formatted(lines, 0);
    for i := 0 to |lines|
      invariant indented + Formatted(lines, i) == Formatted(lines, 0)
    {
      hide Formatted;
      FormattedStep(lines, i, indented);
      indented := FormatLine(lines, i, indented);
    }
    assert indented + "" == indented;
  }

  function WrapLine(ls: seq<string>, i: nat): string
    requires i < |ls|
  {
    (if i == 0 then "- " else "  ") + ls[i]
  }

  /** The wrapped lines that stem from the first i lines; empty lines are gone. */
  function WrapPrefix(ls: seq<string>, i: nat): seq<string>
    requires i <= |ls|
  {
    if i == 0 then []
    else WrapPrefix(ls, i - 1) + (if ls[i - 1] == "" then [] else [WrapLine(ls, i - 1)])
  }

  /** A final line break survives. */
  function Wrapped(ls: seq<string>): seq<string>
    requires ls != []
  {
    WrapPrefix(ls, |ls|) + (if ls[|ls| - 1] == "" then [""] else [])
  }

  /** The wrapped lines that stem from line i on. */
  function WrapRest(ls: seq<string>, i: nat): seq<string>
    requires 0 < i <= |ls|
    decreases |ls| - i
  {
    if i == |ls| then [""]
    else if ls[i] == "" then WrapRest(ls, i + 1)
    else if i == |ls| - 1 then [WrapLine(ls, i)]
    else [WrapLine(ls, i)] + WrapRest(ls, i + 1)
  }

  lemma LinesOfLine(l: string, s: string)
    requires '\n' !in l
    ensures Lines(l + "\n" + s) == [l] + Lines(s) && Lines(l) == [l]
  {
    LinesOfPrefix(l, "\n" + s);
    assert ("\n" + s)[1..] == s;
    assert l + ("\n" + s) == l + "\n" + s;
    assert l + "" == l;
    LinesOfPrefix(l, "");
  }

  lemma {:induction false} LinesOfFormatted(ls: seq<string>, i: nat)
    requires 0 < i <= |ls| && forall k :: 0 <= k < |ls| ==> '\n' !in ls[k]
    ensures Lines(Formatted(ls, i)) == WrapRest(ls, i)
    decreases |ls| - i
  {
    if i < |ls| {
      LinesOfFormatted(ls, i + 1);
      if ls[i] == "" {
        assert Formatted(ls, i) == Formatted(ls, i + 1);
      } else {
        var l := "  " + ls[i];
        LinesOfLine(l, Formatted(ls, i + 1));
        if i < |ls| - 1 {
          assert Formatted(ls, i) == l + "\n" + Formatted(ls, i + 1);
        } else {
          assert Formatted(ls, i) == l;
        }
      }
    }
  }

  lemma {:induction false} WrapRestIs(ls: seq<string>, i: nat)
    requires 0 < i < |ls|
    ensures WrapPrefix(ls, i) + WrapRest(ls, i) == Wrapped(ls)
    decreases |ls| - i
  {
    if i < |ls| - 1 {
      WrapRestIs(ls, i + 1);
    } else {
      assert WrapRest(ls, |ls|) == [""];
    }
  }

  lemma FirstFormatted(ls: seq<string>)
    requires |ls| > 1 && ls[0] != ""
    ensures "- " + Formatted(ls, 0) == ("- " + ls[0]) + "\n" + Formatted(ls, 1)
  {
    hide Formatted;
    FirstFormattedLine(ls);
    FormattedStep(ls, 0, "- ");
    hide *;
    Regroup("- ", ls[0], "\n");
  }

  lemma FirstFormattedLine(ls: seq<string>)
    requires |ls| > 1 && ls[0] != ""
    ensures FormattedLine(ls, 0) == ls[0] + "\n"
  {
    assert "" + ls[0] == ls[0];
  }

  lemma Regroup(a: string, b: string, c: string)
    ensures a + (b + c) == (a + b) + c
  {
  }

  /** The wrapped text has exactly the wrapped lines. */
  lemma LinesOfWrapped(s: string)
    requires Lines(s)[0] != ""
    ensures Lines("- " + Formatted(Lines(s), 0)) == Wrapped(Lines(s))
  {
    hide Lines;
    var ls := Lines(s);
    var l := "- " + ls[0];
    assert WrapPrefix(ls, 1) == [l];
    if |ls| == 1 {
      LinesOfLine(l, "");
      assert "- " + Formatted(ls, 0) == l;
    } else {
      LinesOfFormatted(ls, 1);
      LinesOfLine(l, Formatted(ls, 1));
      FirstFormatted(ls);
      WrapRestIs(ls, 1);
    }
  }

  // ---------------------------------------------------------------- shifting

  /** From a root mapping's path to the same path in root element 0. */
  function Shift(p: string): string {
    if p == "" then "" else "$[0]" + p[1..]
  }

  predicate Rooted(p: string) {
    "$." <= p
  }

  function ShiftPlaced(q: Placed): Placed {
    Placed(q.indent + 2, Shift(q.path), q.listIndex)
  }

  function ShiftAll(h: seq<Placed>): (t: seq<Placed>)
    ensures |t| == |h| && forall i :: 0 <= i < |h| ==> t[i] == ShiftPlaced(h[i])
  {
    seq(|h|, i requires 0 <= i < |h| => ShiftPlaced(h[i]))
  }

  lemma {:induction false} PreviousShift(h: seq<Placed>, m: nat)
    ensures Previous(ShiftAll(h), m + 2) ==
      match Previous(h, m) case None => None case Some(p) => Some(ShiftPlaced(p))
  {
    if h != [] {
      PreviousShift(h[..|h| - 1], m);
      assert ShiftAll(h)[..|h| - 1] == ShiftAll(h[..|h| - 1]);
    }
  }

  lemma {:induction false} PreviousExists(h: seq<Placed>, m: nat)
    requires h != [] && h[0].indent == 0
    ensures Previous(h, m).Some?
  {
    if h[|h| - 1].indent > m {
      PreviousExists(h[..|h| - 1], m);
    }
  }

  lemma LastIndexShift(p: string, c: char)
    requires Rooted(p) && c != '$' && (c == '.' || c in p)
    ensures LastIndexOf(p, c) >= 1 && LastIndexOf(Shift(p), c) == LastIndexOf(p, c) + 3
    ensures Shift(p)[..LastIndexOf(p, c) + 3] == "$[0]" + p[1..LastIndexOf(p, c)]
  {
    assert p[1] == '.' && c in p && p[0] == '$';
    hide *;
    var r := LastIndexOf(p, c);
    var head, tail := "$[0]" + p[1..r], p[r + 1..];
    ShiftAround(p, r);
    LastIndexOfSplit(head, c, tail);
    assert (head + [c] + tail)[..r + 3] == head;
  }

  lemma ShiftAround(p: string, r: nat)
    requires 1 <= r < |p|
    ensures Shift(p) == ("$[0]" + p[1..r]) + [p[r]] + p[r + 1..]
  {
    assert p[1..] == p[1..r] + [p[r]] + p[r + 1..];
  }

  lemma ShiftAppend(p: string, s: string)
    requires p != ""
    ensures Shift(p + s) == Shift(p) + s
  {
    assert (p + s)[1..] == p[1..] + s;
  }

  lemma ShiftDropDot(p: string)
    requires Rooted(p)
    ensures Shift(DropDot(p)) == DropDot(Shift(p))
  {
    assert Shift(p)[|Shift(p)| - 1] == p[|p| - 1];
    if p[|p| - 1] == '.' {
      assert Shift(p)[..|Shift(p)| - 1] == "$[0]" + p[1..|p| - 1];
      assert p[..|p| - 1][1..] == p[1..|p| - 1];
    }
  }

  /** A list line hangs below a deeper-going parent or continues a list. */
  predicate Nested(prev: Placed, indent: nat) {
    prev.indent < indent || '[' in prev.path
  }

  lemma CutShift(p: string, r: nat, tail: string)
    requires Rooted(p) && 1 <= r <= |p| && tail != "" && (r == 1 ==> tail[0] == '.')
    ensures Rooted(p[..r] + tail) && Shift(p[..r] + tail) == "$[0]" + p[1..r] + tail
  {
    ShiftAppend(p[..r], tail);
    assert p[..r][1..] == p[1..r];
    assert (p[..r] + tail)[0] == '$' && (p[..r] + tail)[1] == '.';
  }

  lemma ListPathShift(p: Placed, indent: nat, key: string)
    requires Rooted(p.path) && Nested(p, indent)
    ensures var (path, i) := ListPath(Some(p), indent, key);
            Rooted(path) && ListPath(Some(ShiftPlaced(p)), indent + 2, key) == (Shift(path), i)
  {
    hide LastIndexOf, Itoa, Rooted, Shift;
    if p.indent < indent {
      var tail := "[0]." + key;
      assert p.path + "[0]." + key == p.path + tail && Shift(p.path) + "[0]." + key == Shift(p.path) + tail;
      RootedAppend(p.path, tail);
      ShiftAppend(p.path, tail);
    } else {
      LastIndexShift(p.path, '[');
      var r := LastIndexOf(p.path, '[');
      var tail := "[" + Itoa(p.listIndex + 1) + "]." + key;
      assert r != 1 by { SecondIsDot(p.path); }
      CutShift(p.path, r, tail);
      assert p.path[..r] + "[" + Itoa(p.listIndex + 1) + "]." + key == p.path[..r] + tail;
      assert "$[0]" + p.path[1..r] + "[" + Itoa(p.listIndex + 1) + "]." + key == "$[0]" + p.path[1..r] + tail;
    }
  }

  lemma RootedAppend(p: string, tail: string)
    requires Rooted(p)
    ensures Rooted(p + tail) && p != ""
  {
  }

  lemma SecondIsDot(p: string)
    requires Rooted(p)
    ensures |p| >= 2 && p[1] == '.'
  {
  }

  lemma KeyPathShift(p: Placed, indent: nat, key: string)
    requires Rooted(p.path) && p.indent <= indent
    ensures var (path, i) := KeyPath(Some(p), indent, key);
            Rooted(path) && KeyPath(Some(ShiftPlaced(p)), indent + 2, key) == (Shift(path), i)
  {
    hide LastIndexOf, Itoa, Rooted, Shift;
    var tail := "." + key;
    if p.indent < indent {
      assert p.path + "." + key == p.path + tail && Shift(p.path) + "." + key == Shift(p.path) + tail;
      RootedAppend(p.path, tail);
      ShiftAppend(p.path, tail);
    } else {
      LastIndexShift(p.path, '.');
      var r := LastIndexOf(p.path, '.');
      CutShift(p.path, r, tail);
      assert p.path[..r] + "." + key == p.path[..r] + tail;
      assert "$[0]" + p.path[1..r] + "." + key == "$[0]" + p.path[1..r] + tail;
    }
  }

  /** A list line that continues no list gets a path outside the root, which no shift explains. */
  lemma UnnestedListPath(p: Placed, indent: nat, key: string)
    requires Rooted(p.path) && p.indent <= indent && !Nested(p, indent)
    ensures DropDot(ListPath(Some(ShiftPlaced(p)), indent + 2, key).0) != Shift(DropDot(ListPath(Some(p), indent, key).0))
  {
    var q := Shift(p.path);
    assert '[' !in p.path[1..];
    assert q == "$" + ['['] + ("0]" + p.path[1..]);
    assert '[' !in "0]" + p.path[1..];
    LastIndexOfSplit("$", '[', "0]" + p.path[1..]);
    var n := p.listIndex + 1;
    var path := "$" + "[" + Itoa(n) + "]." + key;
    assert q[..1] == "$";
    assert ListPath(Some(ShiftPlaced(p)), indent + 2, key).0 == path;
    LeadingDigit(n);
    assert path[2] == Itoa(n)[0];
    assert |path| >= 5 && DropDot(path)[2] == Itoa(n)[0];
  }

  lemma {:induction false} LeadingDigit(n: nat)
    requires n > 0
    ensures Itoa(n)[0] != '0'
  {
    if n >= 10 {
      LeadingDigit(n / 10);
    } else {
      assert DigitValue(DigitChar(n)) == n;
    }
  }
}
