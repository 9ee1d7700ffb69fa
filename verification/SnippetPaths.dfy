/** What the line parser sees of a wrapped object: the same lines, two columns deeper, with every
    path moved from the root mapping into element 0 of a root list. */
module SnippetPaths {
  import opened Options
  import opened Strings
  import opened YamlLines
  import opened KeyColons
  import opened Snippets

  // ---------------------------------------------------------------- single lines

  function Deeper(info: LineInfo): LineInfo {
    info.(indent := info.indent + 2)
  }

  lemma IndentedLine(x: string)
    ensures Classify("  " + x) == Deeper(Classify(x))
    ensures OpensBlock("  " + x) == OpensBlock(x) && "  " + x != SEPARATOR
  {
    hide ClassifyIndented, IsMappingNode, IsBlockScalar;
    var w := "  " + x;
    assert w[1..][1..] == x;
    assert Indent(w) == Indent(x) + 2 && w[Indent(w)..] == x[Indent(x)..];
    DeeperIndent(x[Indent(x)..], Indent(x));
    assert w[0] == ' ';
  }

  lemma DeeperIndent(t: string, n: nat)
    ensures ClassifyIndented(t, n + 2) == Deeper(ClassifyIndented(t, n))
  {
  }

  lemma {:induction false} ColonShift(x: string, i: nat, started: bool, single: bool, double: bool)
    requires i <= |x| && (x != "" ==> x[0] != '-')
    ensures ColonFrom("- " + x, i + 2, started, single, double) ==
            var r := ColonFrom(x, i, started, single, double); if r == -1 then -1 else r + 2
    decreases |x| - i
  {
    hide ColonFrom;
    if i == |x| {
      ScanEnd(x, started, single, double);
      ScanEnd("- " + x, started, single, double);
    } else {
      assert ("- " + x)[i + 2] == x[i];
      ScanStep(x, i, started, single, double);
      ScanStep("- " + x, i + 2, started, single, double);
      if x[i] == '"' && !single {
        ColonShift(x, i + 1, true, single, !double);
      } else if x[i] == '\'' && !double {
        ColonShift(x, i + 1, true, !single, double);
      } else {
        ColonShift(x, i + 1, started || !IsSpace(x[i]), single, double);
      }
    }
  }

  /** A mapping line at column 0 becomes the first line of a list element. */
  lemma DashedLine(x: string)
    requires Classify(x).typ.Mapping? && Classify(x).indent == 0
    ensures Classify("- " + x) == Deeper(Classify(x)).(typ := ListMapping)
    ensures !OpensBlock("- " + x) && "- " + x != SEPARATOR
  {
    hide *;
    MappingIs(x);
    DashedInfo(Classify(x));
    var c := ColonIndex(x);
    ColonShift(x, 0, false, false, false);
    ColonIndexIs(x);
    SkipDash(x);
    DashIs(x, c);
    assert ("- " + x)[1..c + 2] == " " + x[..c];
    TrimBlank(x[..c]);
  }

  lemma DashedInfo(info: LineInfo)
    ensures Deeper(info).(typ := ListMapping) == LineInfo(ListMapping, info.value, info.indent + 2, info.colonIdx, info.key)
  {
  }

  lemma MappingIs(x: string)
    requires Classify(x).typ.Mapping? && Classify(x).indent == 0
    ensures x != "" && !IsSpace(x[0]) && x[0] != '-' && ColonIndex(x) != -1
    ensures Classify(x) == LineInfo(Mapping, x, 0, ColonIndex(x), TrimSpace(x[..ColonIndex(x)]))
  {
    hide TrimSpace, IsMappingNode, ColonIndex;
    assert Indent(x) == 0 && x[0..] == x;
  }

  lemma ColonIndexIs(x: string)
    ensures ColonIndex(x) == ColonFrom(x, 0, false, false, false)
  {
    hide ColonFrom;
  }

  lemma DashIs(x: string, c: nat)
    requires ColonIndex("- " + x) == c + 2
    ensures !OpensBlock("- " + x) && "- " + x != SEPARATOR
    ensures Classify("- " + x) == LineInfo(ListMapping, x, 2, c, TrimSpace(("- " + x)[1..c + 2]))
  {
    hide TrimSpace, IsMappingNode, ColonIndex;
    var w := "- " + x;
    assert Indent(w) == 0 && w[0..] == w && w[0] == '-' && w[1] == ' ' && w[2..] == x;
  }

  lemma SkipDash(x: string)
    ensures ColonIndex("- " + x) == ColonFrom("- " + x, 2, false, false, false)
  {
    var w := "- " + x;
    assert w[0] == '-' && w[1] == ' ';
    assert ColonFrom(w, 0, false, false, false) == ColonFrom(w, 1, false, false, false);
  }

  lemma MappingHasKey(x: string)
    requires Classify(x).typ.Mapping?
    ensures Classify(x).key != ""
  {
    hide IsMappingNode, ColonFrom;
    var t := x[Indent(x)..];
    var k := t[..ColonIndex(t)];
    assert k[0] == t[0] && !IsSpace(k[0]);
    assert k[Indent(k)..] == k;
  }

  // ---------------------------------------------------------------- the first pass

  predicate PlainLines(ls: seq<string>) {
    forall i :: 0 <= i < |ls| ==> ls[i] != SEPARATOR && !OpensBlock(ls[i])
  }

  /** A mapping document that starts at once, without separators and block scalars. */
  predicate PlainObject(ls: seq<string>) {
    && PlainLines(ls)
    && ls != []
    && Classify(ls[0]).typ.Mapping?
    && Classify(ls[0]).indent == 0
  }

  function Classified(ls: seq<string>): (infos: seq<LineInfo>)
    ensures |infos| == |ls| && forall i :: 0 <= i < |ls| ==> infos[i] == Classify(ls[i])
  {
    seq(|ls|, i requires 0 <= i < |ls| => Classify(ls[i]))
  }

  lemma {:induction false} NeverInBlock(ls: seq<string>, i: nat)
    requires PlainLines(ls) && i <= |ls|
    ensures BlockAt(Closed, ls[..i]) == Closed
  {
    if i > 0 {
      NeverInBlock(ls, i - 1);
      assert ls[..i][..i - 1] == ls[..i - 1];
    }
  }

  lemma PlainScan(ls: seq<string>)
    requires PlainLines(ls)
    ensures Scan(ls) == Classified(ls)
  {
    assert DocLength(ls) == |ls|;
    forall i | 0 <= i < |ls| ensures Scan(ls)[i] == Classify(ls[i]) {
      NeverInBlock(ls, i);
    }
  }

  /** What the first pass finds in the wrapped form of line i. */
  function WrapInfo(ls: seq<string>, i: nat): LineInfo
    requires i < |ls|
  {
    if i == 0 then Deeper(Classify(ls[0])).(typ := ListMapping) else Deeper(Classify(ls[i]))
  }

  lemma WrapLineRead(ls: seq<string>, i: nat)
    requires PlainObject(ls) && i < |ls|
    ensures Classify(WrapLine(ls, i)) == WrapInfo(ls, i)
    ensures !OpensBlock(WrapLine(ls, i)) && WrapLine(ls, i) != SEPARATOR
  {
    if i == 0 {
      DashedLine(ls[0]);
    } else {
      IndentedLine(ls[i]);
    }
  }

  /** The wrapped lines before line i are as many, so line i lands here. */
  function Landing(ls: seq<string>, i: nat): nat
    requires i <= |ls|
  {
    |WrapPrefix(ls, i)|
  }

  lemma {:induction false} WrapPrefixGrows(ls: seq<string>, i: nat, j: nat)
    requires i <= j <= |ls|
    ensures WrapPrefix(ls, i) <= WrapPrefix(ls, j)
    decreases j
  {
    if i < j {
      WrapPrefixGrows(ls, i, j - 1);
    }
  }

  /** Where line i of the object is among the wrapped lines. */
  lemma WrappedAt(ls: seq<string>, i: nat)
    requires i < |ls| && ls[i] != ""
    ensures Landing(ls, i) < |Wrapped(ls)| && Wrapped(ls)[Landing(ls, i)] == WrapLine(ls, i)
    ensures Wrapped(ls)[..Landing(ls, i)] == WrapPrefix(ls, i)
    ensures Landing(ls, i + 1) == Landing(ls, i) + 1
  {
    WrapPrefixGrows(ls, i + 1, |ls|);
  }

  lemma WrapPrefixStep(ls: seq<string>, i: nat)
    requires 0 < i <= |ls|
    ensures WrapPrefix(ls, i) == WrapPrefix(ls, i - 1) + (if ls[i - 1] == "" then [] else [WrapLine(ls, i - 1)])
  {
  }

  lemma {:induction false} WrapPrefixPlain(ls: seq<string>, i: nat)
    requires PlainObject(ls) && i <= |ls|
    ensures PlainLines(WrapPrefix(ls, i))
  {
    hide PlainObject, OpensBlock, WrapLine;
    if i > 0 {
      WrapPrefixPlain(ls, i - 1);
      WrapLineRead(ls, i - 1);
      hide WrapPrefix;
      WrapPrefixStep(ls, i);
    }
  }

  lemma WrappedPlain(ls: seq<string>)
    requires PlainObject(ls)
    ensures Scan(Wrapped(ls)) == Classified(Wrapped(ls))
  {
    assert ls != [];
    hide *;
    WrapPrefixPlain(ls, |ls|);
    WrappedIs(ls);
    PlainMore(WrapPrefix(ls, |ls|));
    PlainScan(Wrapped(ls));
  }

  lemma WrappedIs(ls: seq<string>)
    requires ls != []
    ensures Wrapped(ls) == WrapPrefix(ls, |ls|) || Wrapped(ls) == WrapPrefix(ls, |ls|) + [""]
  {
    hide WrapPrefix;
    assert WrapPrefix(ls, |ls|) + [] == WrapPrefix(ls, |ls|);
  }

  /** An empty line more changes nothing. */
  lemma PlainMore(ls: seq<string>)
    requires PlainLines(ls)
    ensures PlainLines(ls + [""])
  {
    EmptyIsPlain();
    hide OpensBlock;
  }

  lemma EmptyIsPlain()
    ensures !OpensBlock("") && "" != SEPARATOR
  {
  }

  // ---------------------------------------------------------------- the second pass, one line

  predicate RootObject(h: seq<Placed>) {
    h != [] && h[0].indent == 0 && forall i :: 0 <= i < |h| ==> Rooted(h[i].path)
  }

  /** A list line continues a list or hangs below a line further left. */
  predicate NestedLine(h: seq<Placed>, info: LineInfo) {
    info.typ.IsList() ==> match Previous(h, info.indent) case None => true case Some(p) => Nested(p, info.indent)
  }

  predicate Keyed(info: LineInfo) {
    (info.typ.Mapping? ==> info.key != "") && (info.key != "" ==> info.typ.IsMapping())
  }

  lemma DropDotRooted(p: string)
    requires Rooted(p) && |p| > 2
    ensures Rooted(DropDot(p))
  {
  }

  lemma KeyPathLength(prev: Option<Placed>, indent: nat, key: string)
    requires prev.Some? && Rooted(prev.value.path) && key != ""
    ensures |KeyPath(prev, indent, key).0| > 2
  {
    LastIndexShift(prev.value.path, '.');
  }

  lemma ListPathLength(p: Placed, indent: nat, key: string)
    requires Rooted(p.path) && Nested(p, indent) && p.indent <= indent
    ensures |ListPath(Some(p), indent, key).0| > 2
  {
  }

  lemma PlaceShift(h: seq<Placed>, info: LineInfo)
    requires RootObject(h) && Keyed(info) && NestedLine(h, info)
    ensures Place(ShiftAll(h), Deeper(info)) == ShiftPlaced(Place(h, info))
    ensures info.typ.Structural() ==> Rooted(Place(h, info).path)
  {
    hide *;
    if info.typ.Passed() {
      PassedShift(h, info);
    } else {
      PreviousRooted(h, info.indent);
      PreviousShift(h, info.indent);
      var p := Previous(h, info.indent).value;
      NestedLineIs(h, info, p);
      PlaceShiftFrom(h, info, p);
    }
  }

  lemma PassedShift(h: seq<Placed>, info: LineInfo)
    requires info.typ.Passed() && Keyed(info)
    ensures Place(ShiftAll(h), Deeper(info)) == ShiftPlaced(Place(h, info)) && !info.typ.Structural()
  {
  }

  lemma PreviousRooted(h: seq<Placed>, indent: nat)
    requires RootObject(h)
    ensures Previous(h, indent).Some? && Rooted(Previous(h, indent).value.path)
  {
    hide Previous, Rooted;
    PreviousExists(h, indent);
    assert Previous(h, indent).value in h;
  }

  lemma NestedLineIs(h: seq<Placed>, info: LineInfo, p: Placed)
    requires Previous(h, info.indent) == Some(p)
    ensures NestedLine(h, info) <==> (info.typ.IsList() ==> Nested(p, info.indent))
  {
  }

  lemma PlaceIs(h: seq<Placed>, info: LineInfo)
    requires !info.typ.Passed()
    ensures var prev := Previous(h, info.indent);
            var (path, i) := if info.typ.IsList() then ListPath(prev, info.indent, info.key)
                             else KeyPath(prev, info.indent, info.key);
            Place(h, info) == Placed(info.indent, DropDot(path), i)
  {
  }

  lemma PlaceShiftFrom(h: seq<Placed>, info: LineInfo, p: Placed)
    requires !info.typ.Passed() && Keyed(info)
    requires Previous(h, info.indent) == Some(p) && Previous(ShiftAll(h), info.indent + 2) == Some(ShiftPlaced(p))
    requires Rooted(p.path) && p.indent <= info.indent
    requires info.typ.IsList() ==> Nested(p, info.indent)
    ensures Place(ShiftAll(h), Deeper(info)) == ShiftPlaced(Place(h, info))
    ensures info.typ.Structural() ==> Rooted(Place(h, info).path)
  {
    hide *;
    DeeperPassed(info);
    PlaceIs(h, info);
    PlaceIs(ShiftAll(h), Deeper(info));
    var path;
    if info.typ.IsList() {
      ListPathShift(p, info.indent, info.key);
      ListPathLength(p, info.indent, info.key);
      path := ListPath(Some(p), info.indent, info.key).0;
    } else {
      KeyPathShift(p, info.indent, info.key);
      path := KeyPath(Some(p), info.indent, info.key).0;
      if info.typ.Structural() {
        KeyPathLength(Some(p), info.indent, info.key);
      }
    }
    ShiftDropDot(path);
    if info.typ.Structural() {
      DropDotRooted(path);
    }
    ShiftPlacedIs(Place(h, info));
  }

  lemma DeeperPassed(info: LineInfo)
    requires !info.typ.Passed()
    ensures var d := Deeper(info);
            && d.indent == info.indent + 2 && d.key == info.key
            && !d.typ.Passed() && d.typ.IsList() == info.typ.IsList()
    ensures Keyed(info) && info.typ.Structural() && !info.typ.IsList() ==> info.key != ""
  {
  }

  lemma ShiftPlacedIs(p: Placed)
    ensures ShiftPlaced(p) == Placed(p.indent + 2, Shift(p.path), p.listIndex)
  {
    hide Shift;
  }

  lemma PlaceUnnested(h: seq<Placed>, info: LineInfo)
    requires RootObject(h) && !NestedLine(h, info)
    ensures Place(ShiftAll(h), Deeper(info)).path != Shift(Place(h, info).path)
  {
    hide Place, Previous, ListPath, Rooted, Nested, Shift, DropDot;
    PreviousShift(h, info.indent);
    var p := Previous(h, info.indent).value;
    assert p in h;
    PlaceIs(h, info);
    PlaceIs(ShiftAll(h), Deeper(info));
    UnnestedListPath(p, info.indent, info.key);
  }

  lemma ExtendShift(h: seq<Placed>, info: LineInfo)
    requires RootObject(h) && Keyed(info) && NestedLine(h, info)
    ensures RootObject(Extend(h, info)) && Extend(ShiftAll(h), Deeper(info)) == ShiftAll(Extend(h, info))
  {
    PlaceShift(h, info);
    hide Place, NestedLine, Rooted, ShiftPlaced;
  }

  lemma FirstLinePlaced(info: LineInfo)
    requires info.typ.Mapping? && info.indent == 0 && info.key != ""
    ensures Place([], Deeper(info).(typ := ListMapping)) == ShiftPlaced(Place([], info))
    ensures RootObject(Extend([], info))
    ensures Extend([], Deeper(info).(typ := ListMapping)) == ShiftAll(Extend([], info))
  {
    hide *;
    DashedInfo(info);
    var p := "$." + info.key;
    RootKeyShift(info.key);
    ShiftDropDot(p);
    DropDotRooted(p);
    NothingPlaced(info);
    NothingPlaced(Deeper(info).(typ := ListMapping));
    OneRooted(info, DropDot(p));
  }

  lemma RootKeyShift(key: string)
    requires key != ""
    ensures Shift("$." + key) == "$[0]." + key && Rooted("$." + key) && |"$." + key| > 2
  {
  }

  lemma NothingPlaced(info: LineInfo)
    requires info.typ.Mapping? || info.typ.ListMapping?
    ensures var p := (if info.typ.ListMapping? then "$[0]." else "$.") + info.key;
            Place([], info) == Placed(info.indent, DropDot(p), 0) && Extend([], info) == [Place([], info)]
  {
    hide DropDot;
    assert Previous([], info.indent) == None;
  }

  lemma OneRooted(info: LineInfo, p: string)
    requires info.indent == 0 && Rooted(p)
    ensures RootObject([Placed(0, p, 0)])
    ensures ShiftPlaced(Placed(0, p, 0)) == Placed(2, Shift(p), 0)
    ensures ShiftAll([Placed(0, p, 0)]) == [Placed(2, Shift(p), 0)]
    ensures Deeper(info).(typ := ListMapping).indent == 2 && Deeper(info).(typ := ListMapping).key == info.key
  {
  }
}
