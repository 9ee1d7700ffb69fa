/** Looking up documentation by a line's generalised path finds the same entries as matching the
    line's own path. */
module PathLookup {
  import opened Options
  import opened Strings
  import opened GeneralPaths
  import opened PathMatch

  // ---------------------------------------------------------------- well-formed paths

  /** A name after a dot, or a subscript. */
  datatype Part = Name(text: string) | Sub(text: string)

  predicate PlainText(s: string) {
    forall i :: 0 <= i < |s| ==> s[i] !in {'.', '[', ']'}
  }

  predicate WellFormedPart(p: Part) {
    PlainText(p.text) && (p.Name? ==> p.text != "")
  }

  /** A path starts with a name. */
  predicate WellFormedPath(parts: seq<Part>) {
    parts != [] && parts[0].Name? && forall i :: 0 <= i < |parts| ==> WellFormedPart(parts[i])
  }

  function Body(p: Part): string {
    if p.Name? then p.text else p.text + "]"
  }

  function Tail(parts: seq<Part>): string {
    if parts == [] then ""
    else (if parts[0].Name? then "." else "[") + Body(parts[0]) + Tail(parts[1..])
  }

  function Text(parts: seq<Part>): string
    requires parts != []
  {
    Body(parts[0]) + Tail(parts[1..])
  }

  /** The component that stands for a part. */
  function ComponentOf(p: Part): string {
    if p.Name? then p.text else "[" + p.text + "]"
  }

  function ComponentsOf(parts: seq<Part>): (cs: seq<string>)
    ensures |cs| == |parts| && forall i :: 0 <= i < |parts| ==> cs[i] == ComponentOf(parts[i])
  {
    seq(|parts|, i requires 0 <= i < |parts| => ComponentOf(parts[i]))
  }

  /** Puts components together again. */
  function JoinTail(components: seq<string>): string {
    if components == [] then ""
    else (if "[" <= components[0] then "" else ".") + components[0] + JoinTail(components[1..])
  }

  function JoinComponents(components: seq<string>): string {
    if components == [] then "" else components[0] + JoinTail(components[1..])
  }

  lemma FirstSeparatorOf(body: string, tail: string)
    requires (forall i :: 0 <= i < |body| ==> body[i] !in {'.', '['}) && (tail == "" || IsSeparator(tail[0]))
    ensures FirstSeparator(body + tail) == |body|
  {
    var w := body + tail;
    var m := FirstSeparator(w);
    assert forall i :: 0 <= i < |body| ==> w[i] == body[i];
    assert |body| < |w| ==> w[|body|] == tail[0];
  }

  lemma TailStarts(parts: seq<Part>)
    ensures Tail(parts) == "" || IsSeparator(Tail(parts)[0])
    ensures parts != [] ==> Tail(parts) != "" && Tail(parts)[1..] == Body(parts[0]) + Tail(parts[1..])
  {
    hide Tail, Body;
    TailUnfolds(parts);
    if parts != [] {
      assert Tail(parts)[1..] == Body(parts[0]) + Tail(parts[1..]);
    }
  }

  lemma TailUnfolds(parts: seq<Part>)
    ensures if parts == [] then Tail(parts) == ""
            else Tail(parts) == (if parts[0].Name? then "." else "[") + Body(parts[0]) + Tail(parts[1..])
  {
  }

  lemma BodyPlain(p: Part)
    requires WellFormedPart(p)
    ensures Body(p) != "" && forall i :: 0 <= i < |Body(p)| ==> Body(p)[i] !in {'.', '['}
    ensures Component(Body(p)) == ComponentOf(p)
  {
    if p.Sub? {
      assert "[" + Body(p) == ComponentOf(p);
    }
  }

  function Bodies(parts: seq<Part>): (bs: seq<string>)
    ensures |bs| == |parts| && forall i :: 0 <= i < |parts| ==> bs[i] == Body(parts[i])
  {
    seq(|parts|, i requires 0 <= i < |parts| => Body(parts[i]))
  }

  lemma {:induction false} PiecesOfText(parts: seq<Part>)
    requires parts != [] && forall i :: 0 <= i < |parts| ==> WellFormedPart(parts[i])
    ensures Pieces(Body(parts[0]) + Tail(parts[1..])) == Bodies(parts)
    decreases |parts|
  {
    hide Body, Tail, FirstSeparator, WellFormedPart, Pieces;
    var rest := parts[1..];
    var s := Body(parts[0]) + Tail(rest);
    BodyPlain(parts[0]);
    TailStarts(rest);
    FirstSeparatorOf(Body(parts[0]), Tail(rest));
    PiecesAre(s);
    assert s[..|Body(parts[0])|] == Body(parts[0]);
    if rest == [] {
      NoTail();
      assert s == Body(parts[0]);
      assert Bodies(parts) == [Body(parts[0])];
    } else {
      PiecesOfText(rest);
      assert s[|Body(parts[0])| + 1..] == Tail(rest)[1..];
      assert Bodies(parts) == [Body(parts[0])] + Bodies(rest);
    }
  }

  lemma NoTail()
    ensures Tail([]) == ""
  {
  }

  lemma TextNotEmpty(parts: seq<Part>)
    requires WellFormedPath(parts)
    ensures Text(parts) != ""
  {
  }

  /** Splitting a well-formed path yields its parts. */
  lemma SplitOfText(parts: seq<Part>)
    requires WellFormedPath(parts)
    ensures Split(Text(parts)) == Some(ComponentsOf(parts))
  {
    hide Body, Tail, Pieces, WellFormedPart;
    PiecesOfText(parts);
    TextNotEmpty(parts);
    forall i | 0 <= i < |parts| ensures Body(parts[i]) != "" && Component(Body(parts[i])) == ComponentOf(parts[i]) {
      BodyPlain(parts[i]);
    }
    hide Component, ComponentOf;
    assert Components(Bodies(parts)) == ComponentsOf(parts);
  }

  lemma JoinTailIs(components: seq<string>)
    requires components != []
    ensures JoinTail(components) == (if "[" <= components[0] then "" else ".") + components[0] + JoinTail(components[1..])
  {
  }

  lemma JoinPart(p: Part)
    requires WellFormedPart(p)
    ensures (if "[" <= ComponentOf(p) then "" else ".") + ComponentOf(p) ==
            if p.Name? then "." + p.text else "[" + (p.text + "]")
  {
    if p.Sub? {
      assert "[" + p.text + "]" == "[" + (p.text + "]");
      assert "" + ("[" + p.text + "]") == "[" + p.text + "]";
    } else {
      assert p.text[0] != '[';
    }
  }

  lemma {:induction false} JoinTailOf(parts: seq<Part>)
    requires forall i :: 0 <= i < |parts| ==> WellFormedPart(parts[i])
    ensures JoinTail(ComponentsOf(parts)) == Tail(parts)
  {
    hide JoinTail, Tail, ComponentOf, WellFormedPart;
    if parts != [] {
      JoinTailOf(parts[1..]);
      assert ComponentsOf(parts)[1..] == ComponentsOf(parts[1..]);
      JoinTailIs(ComponentsOf(parts));
      TailIs(parts);
      JoinPart(parts[0]);
    } else {
      NoTail();
      NothingJoined();
    }
  }

  lemma NothingJoined()
    ensures JoinTail([]) == "" && ComponentsOf([]) == []
  {
  }

  /** Joining the components of a well-formed path gives the path back. */
  lemma SplitJoins(parts: seq<Part>)
    requires WellFormedPath(parts)
    ensures Split(Text(parts)).Some? && JoinComponents(Split(Text(parts)).value) == Text(parts)
  {
    hide WellFormedPart, Split;
    SplitOfText(parts);
    JoinTailOf(parts[1..]);
    assert ComponentsOf(parts)[1..] == ComponentsOf(parts[1..]);
  }

  // ---------------------------------------------------------------- generalising

  function WildPart(p: Part): Part {
    if p.Sub? then Sub("*") else p
  }

  function WildParts(parts: seq<Part>): (ws: seq<Part>)
    ensures |ws| == |parts| && forall i :: 0 <= i < |parts| ==> ws[i] == WildPart(parts[i])
  {
    seq(|parts|, i requires 0 <= i < |parts| => WildPart(parts[i]))
  }

  lemma TailIs(parts: seq<Part>)
    requires parts != []
    ensures Tail(parts) == (if parts[0].Name? then "." + parts[0].text else "[" + (parts[0].text + "]")) + Tail(parts[1..])
  {
  }

  lemma WildPartTail(p: Part, rest: string)
    requires WellFormedPart(p)
    ensures Wild((if p.Name? then "." + p.text else "[" + (p.text + "]")) + rest, false) ==
            (if p.Name? then "." + p.text else "[*]") + Wild(rest, false)
  {
    hide Wild;
    WildPlain(p.text, rest);
    if p.Sub? {
      WildOpen(p.text + "]" + rest);
      assert "[" + (p.text + "]") + rest == "[" + (p.text + "]" + rest);
      assert "[" + ("*]" + Wild(rest, false)) == "[*]" + Wild(rest, false);
    } else {
      WildOpen(p.text + rest);
      assert "." + p.text + rest == "." + (p.text + rest);
      assert "." + (p.text + Wild(rest, false)) == "." + p.text + Wild(rest, false);
    }
  }

  lemma {:induction false} WildTail(parts: seq<Part>)
    requires forall i :: 0 <= i < |parts| ==> WellFormedPart(parts[i])
    ensures Wild(Tail(parts), false) == Tail(WildParts(parts))
  {
    hide Wild, Tail, WellFormedPart;
    if parts != [] {
      WildTail(parts[1..]);
      assert WildParts(parts)[1..] == WildParts(parts[1..]);
      TailIs(parts);
      TailIs(WildParts(parts));
      WildPartTail(parts[0], Tail(parts[1..]));
      assert "[" + ("*" + "]") == "[*]";
    } else {
      WildNothing();
      NoTail();
    }
  }

  lemma WildNothing()
    ensures Wild("", false) == "" && WildParts([]) == []
  {
  }

  lemma WildText(parts: seq<Part>)
    requires WellFormedPath(parts)
    ensures Wild(Text(parts), false) == Text(WildParts(parts))
  {
    hide Wild, Tail;
    WildPlain(parts[0].text, Tail(parts[1..]));
    WildTail(parts[1..]);
    assert WildParts(parts)[1..] == WildParts(parts[1..]);
  }

  predicate RootIndexed(parts: seq<Part>) {
    |parts| > 1 && parts[0] == Name("$") && parts[1].Sub?
  }

  function DropRoot(parts: seq<Part>): (ds: seq<Part>)
    requires WellFormedPath(parts)
    ensures WellFormedPath(ds)
  {
    if RootIndexed(parts) then [parts[0]] + parts[2..] else parts
  }

  lemma RootIndexedText(parts: seq<Part>)
    requires WellFormedPath(parts)
    ensures "$[" <= Text(parts) <==> RootIndexed(parts)
  {
    var t := parts[0].text;
    if |t| > 1 {
      assert Text(parts)[1] == t[1];
    } else {
      assert Text(parts)[0] == t[0];
      if |parts| > 1 {
        assert Text(parts)[1] == Tail(parts[1..])[0];
      }
    }
  }

  lemma DropRootText(parts: seq<Part>)
    requires WellFormedPath(parts)
    ensures DropRootIndex(Text(parts)) == Text(DropRoot(parts))
  {
    RootIndexedText(parts);
    if RootIndexed(parts) {
      var x, rest := parts[1].text, Tail(parts[2..]);
      assert parts[1..][1..] == parts[2..];
      assert Text(parts) == ("$[" + x) + [']'] + rest;
      IndexOfSplit("$[" + x, ']', rest);
      assert Text(parts)[|x| + 3..] == rest;
      assert DropRoot(parts)[1..] == parts[2..];
    }
  }

  /** The generalised path, part by part. */
  lemma GeneralizeText(parts: seq<Part>)
    requires WellFormedPath(parts)
    ensures Generalize(Text(parts)) == Text(WildParts(DropRoot(parts)))
    ensures WellFormedPath(WildParts(DropRoot(parts)))
  {
    hide Wild, DropRootIndex, Text;
    DropRootText(parts);
    WildText(DropRoot(parts));
    LongText(parts);
  }

  lemma LongText(parts: seq<Part>)
    requires WellFormedPath(parts)
    ensures |parts| > 1 ==> |Text(parts)| >= 2
    ensures |parts| == 1 ==> WildParts(DropRoot(parts)) == parts
  {
  }

  // ---------------------------------------------------------------- main results

  predicate WildSubscripts(parts: seq<Part>) {
    forall i :: 0 <= i < |parts| && parts[i].Sub? ==> parts[i].text == "*"
  }

  lemma MatchOfParts(a: seq<Part>, b: seq<Part>)
    requires WellFormedPath(a) && WellFormedPath(b)
    ensures Matches(Text(a), Text(b)) == Some(AcceptsAll(ComponentsOf(a), ComponentsOf(b)))
  {
    hide Split, Text, WellFormedPath;
    SplitOfText(a);
    SplitOfText(b);
  }

  /** What may stand in the place of a documented part: the part itself, any one part for a star or a
      tilde, and any subscript for a starred one. */
  predicate Fills(d: Part, p: Part) {
    || p == d
    || d == Name("*") || d == Name("~")
    || (d == Sub("*") && p.Sub?)
  }

  lemma ComponentSame(d: Part, p: Part)
    requires WellFormedPart(d) && WellFormedPart(p)
    ensures ComponentOf(d) == ComponentOf(p) <==> d == p
  {
    ComponentStarts(d);
    ComponentStarts(p);
    if d.Sub? && p.Sub? {
      SubscriptText(d);
      SubscriptText(p);
    }
  }

  lemma SubscriptText(p: Part)
    requires p.Sub?
    ensures ComponentOf(p)[1..|ComponentOf(p)| - 1] == p.text && p == Sub(p.text)
  {
  }

  lemma FillsIs(d: Part, p: Part)
    requires WellFormedPart(d) && WellFormedPart(p)
    ensures Accepts(ComponentOf(d), ComponentOf(p)) <==> Fills(d, p)
  {
    ComponentSame(d, p);
    ComponentStarts(p);
    ComponentSame(d, Name("*"));
    ComponentSame(d, Name("~"));
    ComponentSame(d, Sub("*"));
    ComponentStarts(Name("*"));
    ComponentStarts(Name("~"));
    ComponentStarts(Sub("*"));
    hide ComponentOf, WellFormedPart;
  }

  /** Main theorem: a documented path matches another exactly if that one comes from it by putting any one
      part for each star and tilde, and any subscript for each starred one. */
  lemma MatchesExactly(d: seq<Part>, p: seq<Part>)
    requires WellFormedPath(d) && WellFormedPath(p)
    ensures Matches(Text(d), Text(p)) == Some(|d| == |p| && forall i :: 0 <= i < |d| ==> Fills(d[i], p[i]))
  {
    MatchOfParts(d, p);
    hide Matches, Text, Accepts, ComponentOf, WellFormedPart, Fills;
    forall i | 0 <= i < |d| && i < |p| ensures Accepts(ComponentOf(d[i]), ComponentOf(p[i])) <==> Fills(d[i], p[i]) {
      FillsIs(d[i], p[i]);
    }
    if |d| == |p| && forall i :: 0 <= i < |d| ==> Fills(d[i], p[i]) {
      assert AcceptsAll(ComponentsOf(d), ComponentsOf(p));
    } else if |d| == |p| {
      var i :| 0 <= i < |d| && !Fills(d[i], p[i]);
      assert !Accepts(ComponentsOf(d)[i], ComponentsOf(p)[i]);
    }
  }

  lemma AcceptsWild(d: Part, p: Part)
    requires WellFormedPart(d) && WellFormedPart(p) && (d.Sub? ==> d.text == "*")
    ensures Accepts(ComponentOf(d), ComponentOf(p)) == Accepts(ComponentOf(d), ComponentOf(WildPart(p)))
  {
    ComponentStarts(d);
    ComponentStarts(p);
    ComponentStarts(WildPart(p));
    hide ComponentOf;
    assert d.Name? ==> d.text[0] != '[';
  }

  /** Only subscripts look like subscripts. */
  lemma ComponentStarts(p: Part)
    requires WellFormedPart(p)
    ensures var c := ComponentOf(p);
            && c != ""
            && (IsSubscript(c) <==> p.Sub?)
            && (c[0] == '[' <==> p.Sub?)
            && (p.Sub? && p.text == "*" ==> c == "[*]")
            && (p.Name? ==> c == p.text)
  {
    var c := ComponentOf(p);
    assert p.Sub? ==> c[0] == '[' && c[|c| - 1] == ']';
    assert p.Name? ==> c[0] == p.text[0];
  }

  /** Main theorem: for a documented path whose subscripts are all wildcards, a line's generalised path
      matches if and only if the line's own path does once its root index is gone; for a line outside
      root lists that is its own path. */
  lemma LookupSoundAndComplete(d: seq<Part>, p: seq<Part>)
    requires WellFormedPath(d) && WellFormedPath(p) && WildSubscripts(d)
    ensures Matches(Text(d), Generalize(Text(p))) == Matches(Text(d), Text(DropRoot(p)))
    ensures !("$[" <= Text(p)) ==> Matches(Text(d), Generalize(Text(p))) == Matches(Text(d), Text(p))
  {
    hide Matches, Text, Generalize, Accepts, ComponentOf, WellFormedPart;
    RootIndexedText(p);
    GeneralizeText(p);
    var q := DropRoot(p);
    MatchOfParts(d, q);
    MatchOfParts(d, WildParts(q));
    forall i | 0 <= i < |d| && i < |q|
      ensures Accepts(ComponentOf(d[i]), ComponentOf(q[i])) == Accepts(ComponentOf(d[i]), ComponentOf(WildPart(q[i])))
    {
      AcceptsWild(d[i], q[i]);
    }
  }

  lemma AcceptsOwn(p: Part)
    requires WellFormedPart(p)
    ensures Accepts(ComponentOf(WildPart(p)), ComponentOf(p))
  {
  }

  /** Main theorem: a line's generalised path matches the line's own path if and only if the line is not
      in a root list. */
  lemma GeneralPathMatchesOwn(p: seq<Part>)
    requires WellFormedPath(p)
    ensures Matches(Generalize(Text(p)), Text(p)) == Some(!("$[" <= Text(p)))
  {
    hide Matches, Text, Generalize, Accepts, ComponentOf, WellFormedPart;
    RootIndexedText(p);
    GeneralizeText(p);
    var g := WildParts(DropRoot(p));
    MatchOfParts(g, p);
    if !RootIndexed(p) {
      forall i | 0 <= i < |p| ensures Accepts(ComponentOf(g[i]), ComponentOf(p[i])) {
        AcceptsOwn(p[i]);
      }
    }
  }
}
