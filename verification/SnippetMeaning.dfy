/** What wrapping means for the rest of the program: generalised paths, values, and the kind and
    version inferred for the object are the same; printed object trees always qualify. */
module SnippetMeaning {
  import opened Options
  import opened Strings
  import opened GeneralPaths
  import opened YamlLines
  import opened BlockStyle
  import opened ParserInversion
  import opened Documents
  import opened ObjectNodes
  import opened Snippets
  import opened SnippetPaths
  import opened SnippetWrapping
  import opened TreeKeys
  import opened LineValues

  // ---------------------------------------------------------------- what paths a line can get

  predicate Reachable(p: string) {
    p == "" || p == "$" || Rooted(p)
  }

  lemma GeneralizeShift(p: string)
    requires Reachable(p)
    ensures Generalize(Shift(p)) == Generalize(p)
  {
    if Rooted(p) {
      var q := Shift(p);
      assert q == "$[0" + "]" + p[1..];
      IndexOfSplit("$[0", ']', p[1..]);
      assert "$" + q[4..] == p;
      assert p[1] == '.';
    } else if p == "$" {
      assert Shift(p) == "$[0" + "]" + "";
      IndexOfSplit("$[0", ']', "");
      assert "$" + Shift(p)[4..] == "$";
      assert Wild("$", false) == "$";
    }
  }

  lemma KeyPathReachable(p: Placed, indent: nat, key: string)
    requires Rooted(p.path) && p.indent <= indent
    ensures Reachable(DropDot(KeyPath(Some(p), indent, key).0))
  {
    KeyPathShift(p, indent, key);
  }

  lemma PlaceReachable(h: seq<Placed>, info: LineInfo)
    requires RootObject(h) && Keyed(info) && NestedLine(h, info)
    ensures Reachable(Place(h, info).path)
  {
    if !info.typ.Passed() && !info.typ.Structural() {
      PreviousExists(h, info.indent);
      var p := Previous(h, info.indent).value;
      assert p in h;
      PlaceIs(h, info);
      hide Place, Previous, KeyPath, DropDot;
      KeyPathReachable(p, info.indent, info.key);
    } else {
      PlaceShift(h, info);
      hide Rooted;
    }
  }

  lemma FirstPlaceReachable(info: LineInfo)
    requires info.typ.Mapping? && info.indent == 0 && info.key != ""
    ensures Reachable(Place([], info).path)
  {
    DropDotRooted("$." + info.key);
  }

  lemma PathReachable(ls: seq<string>, i: nat)
    requires PlainObject(ls) && ListsNested(ls) && i < |ls|
    ensures Scan(ls) == Classified(ls) && Reachable(PlaceOf(ls, i).path)
  {
    PlaceOfLine(ls, i);
    KeyedLine(ls[i]);
    if i == 0 {
      assert Before(ls, 0) == [];
      FirstPlaceReachable(Classify(ls[0]));
    } else {
      assert NestedAt(ls, i);
      hide *;
      NestedAtIs(ls, i);
      NestedBefore(ls);
      TrailsShift(ls, i);
      PlaceReachable(Before(ls, i), Classify(ls[i]));
    }
  }

  lemma NestedBefore(ls: seq<string>)
    requires ListsNested(ls)
    ensures forall k :: 0 <= k < |ls| ==> NestedAt(ls, k)
  {
  }

  // ---------------------------------------------------------------- line objects

  /** The two line objects differ only in where they stand. */
  ghost predicate Moved(w: Line, o: Line)
    reads w, o
  {
    && Reachable(o.path)
    && w.path == Shift(o.path)
    && w.generalizedPath == o.generalizedPath
    && w.listIndex == o.listIndex
    && w.indent == o.indent + 2
    && w.value == o.value
    && w.colonIdx == o.colonIdx
    && w.typ.IsMapping() == o.typ.IsMapping()
    && w.Info().MapValue() == o.Info().MapValue()
  }

  lemma SameValue(info: LineInfo)
    ensures Deeper(info).MapValue() == info.MapValue()
    ensures info.typ.Mapping? ==> Deeper(info).(typ := ListMapping).MapValue() == info.MapValue()
  {
    hide LineInfo.MapValue;
    MapValueIs(info);
    MapValueIs(Deeper(info));
    MapValueIs(Deeper(info).(typ := ListMapping));
  }

  lemma LineMoved(w: Line, o: Line, wi: LineInfo, oi: LineInfo)
    requires w.SameText(wi) && o.SameText(oi)
    requires wi == Deeper(oi) || (oi.typ.Mapping? && wi == Deeper(oi).(typ := ListMapping))
    requires w.Position() == ShiftPlaced(o.Position()) && Reachable(o.path)
    requires w.generalizedPath == Generalize(w.path) && o.generalizedPath == Generalize(o.path)
    ensures Moved(w, o)
  {
    GeneralizeShift(o.path);
    SameValue(oi);
    MapValueOfText(w, wi);
    MapValueOfText(o, oi);
    hide Generalize, Shift, Reachable;
  }

  lemma WrapInfoCases(ls: seq<string>, i: nat)
    requires PlainObject(ls) && i < |ls|
    ensures var oi := Classify(ls[i]);
            WrapInfo(ls, i) == Deeper(oi) || (oi.typ.Mapping? && WrapInfo(ls, i) == Deeper(oi).(typ := ListMapping))
  {
  }

  lemma ParsedLine(parsed: seq<Line>, lines: seq<string>, i: nat)
    requires Parsed(parsed, lines) && i < |parsed| && Scan(lines) == Classified(lines)
    ensures |parsed| == |Scan(lines)| && parsed[i].SameText(Classified(lines)[i])
    ensures parsed[i].Position() == PlaceOf(lines, i)
    ensures parsed[i].generalizedPath == Generalize(parsed[i].path)
  {
  }

  lemma LandingInside(ls: seq<string>, i: nat)
    requires i < |ls| && ls[i] != ""
    ensures Landing(ls, i) < |Wrapped(ls)|
  {
    WrappedAt(ls, i);
  }

  /** The line objects of the wrapped object are those of the object, moved. */
  lemma WrappingMovesLines(ls: seq<string>, orig: seq<Line>, wrapped: seq<Line>, i: nat)
    requires PlainObject(ls) && ListsNested(ls)
    requires Parsed(orig, ls) && Parsed(wrapped, Wrapped(ls))
    requires i < |ls| && ls[i] != ""
    ensures |orig| == |ls| && |wrapped| == |Wrapped(ls)| && Landing(ls, i) < |wrapped|
    ensures Moved(wrapped[Landing(ls, i)], orig[i])
  {
    PlainScan(ls);
    WrappedPlain(ls);
    hide *;
    var j := Landing(ls, i);
    LandingInside(ls, i);
    ParsedSize(orig, ls);
    ParsedSize(wrapped, Wrapped(ls));
    ParsedLine(orig, ls, i);
    ParsedLine(wrapped, Wrapped(ls), j);
    KeepsPlaceAt(ls, i);
    KeepsPlaceIs(ls, i);
    PlaceOfLine(ls, i);
    PlaceOfWrapped(ls, i);
    PathReachable(ls, i);
    WrapInfoCases(ls, i);
    PositionPath(orig[i], PlaceOf(ls, i));
    LineMoved(wrapped[j], orig[i], WrapInfo(ls, i), Classify(ls[i]));
  }

  lemma PositionPath(l: Line, p: Placed)
    requires l.Position() == p
    ensures l.path == p.path
  {
  }

  lemma ParsedSize(parsed: seq<Line>, ls: seq<string>)
    requires Parsed(parsed, ls) && Scan(ls) == Classified(ls)
    ensures |parsed| == |ls|
  {
  }

  // ---------------------------------------------------------------- the inferred kind and version

  /** The line decides the value inferred under this name. */
  predicate Names(path: string, name: string) {
    var dot := IndexOf(path, '.');
    dot != -1 && path[dot + 1..] == name
  }

  lemma NamesShift(p: string, name: string)
    requires Reachable(p)
    ensures Names(Shift(p), name) == Names(p, name)
  {
    if Rooted(p) {
      RootedParts(p);
      NamesBehind("$", p[2..], name);
      NamesBehind("$[0]", p[2..], name);
    }
  }

  lemma RootedParts(p: string)
    requires Rooted(p)
    ensures p == "$" + ['.'] + p[2..] && Shift(p) == "$[0]" + ['.'] + p[2..]
  {
  }

  lemma NamesBehind(head: string, rest: string, name: string)
    requires '.' !in head
    ensures Names(head + ['.'] + rest, name) <==> rest == name
  {
    IndexOfSplit(head, '.', rest);
    assert (head + ['.'] + rest)[|head| + 1..] == rest;
  }

  lemma InferredNames(l: Line, name: string, before: string)
    ensures Inferred(l, name, before) == if Names(l.path, name) then l.Info().MapValue() else before
  {
  }

  lemma InferStep(lines: seq<Line>, i: nat, name: string)
    requires i < |lines|
    ensures InferText(lines[..i + 1], name) ==
            if Names(lines[i].path, name) then lines[i].Info().MapValue() else InferText(lines[..i], name)
  {
    hide Inferred, Names;
    assert lines[..i + 1][..i] == lines[..i];
    InferredNames(lines[i], name, InferText(lines[..i], name));
  }

  /** The dropped empty lines decide nothing. */
  ghost predicate DroppedNameNothing(ls: seq<string>, orig: seq<Line>, name: string)
    requires |ls| == |orig|
    reads orig
  {
    forall i :: 0 <= i < |ls| && ls[i] == "" ==> !Names(orig[i].path, name)
  }

  ghost predicate AllMoved(ls: seq<string>, orig: seq<Line>, wrapped: seq<Line>)
    requires |ls| == |orig|
    reads orig, wrapped
  {
    forall i :: 0 <= i < |ls| && ls[i] != "" ==>
      Landing(ls, i) < |wrapped| && Moved(wrapped[Landing(ls, i)], orig[i])
  }

  lemma {:induction false} SameInferred(ls: seq<string>, orig: seq<Line>, wrapped: seq<Line>, name: string, i: nat)
    requires |ls| == |orig| && i <= |ls|
    requires DroppedNameNothing(ls, orig, name) && AllMoved(ls, orig, wrapped)
    ensures Landing(ls, i) <= |wrapped|
    ensures InferText(wrapped[..Landing(ls, i)], name) == InferText(orig[..i], name)
  {
    hide Names, Moved, InferText;
    if i > 0 {
      SameInferred(ls, orig, wrapped, name, i - 1);
      InferStep(orig, i - 1, name);
      WrapPrefixStep(ls, i);
      hide WrapPrefix;
      if ls[i - 1] != "" {
        var j := Landing(ls, i - 1);
        InferStep(wrapped, j, name);
        MovedNames(wrapped[j], orig[i - 1], name);
      }
    } else {
      assert wrapped[..0] == [] && orig[..0] == [];
      NothingInferred(name);
    }
  }

  lemma NothingInferred(name: string)
    ensures InferText([], name) == ""
  {
  }

  lemma MovedNames(w: Line, o: Line, name: string)
    requires Moved(w, o)
    ensures Names(w.path, name) == Names(o.path, name) && w.Info().MapValue() == o.Info().MapValue()
  {
    NamesShift(o.path, name);
  }

  /** No key in column 0 contains a dot. */
  predicate DotlessKeys(ls: seq<string>) {
    forall i :: 0 <= i < |ls| ==> DotlessLine(ls[i])
  }

  predicate DotlessLine(l: string) {
    Classify(l).indent == 0 && Classify(l).typ.IsMapping() ==> '.' !in Classify(l).key
  }

  predicate FlatRoots(h: seq<Placed>) {
    forall i :: 0 <= i < |h| && h[i].indent == 0 ==> FlatRoot(h[i].path)
  }

  predicate FlatRoot(p: string) {
    "$." <= p && '.' !in p[2..]
  }

  lemma RootKeyPath(p: Placed, key: string)
    requires p.indent == 0 && FlatRoot(p.path)
    ensures KeyPath(Some(p), 0, key).0 == "$." + key
  {
    assert p.path == "$" + ['.'] + p.path[2..];
    LastIndexOfSplit("$", '.', p.path[2..]);
    assert "$" + "." + key == "$." + key;
  }

  lemma FlatPlace(h: seq<Placed>, info: LineInfo)
    requires RootObject(h) && FlatRoots(h) && info.indent == 0 && !info.typ.IsList() && !info.typ.Passed()
    requires '.' !in info.key
    ensures Place(h, info).path == if info.key == "" then "$" else "$." + info.key
  {
    PreviousExists(h, 0);
    PlaceIs(h, info);
    RootKeyPath(Previous(h, 0).value, info.key);
  }

  lemma ListLineIndent(x: string)
    requires Classify(x).typ.IsList()
    ensures Classify(x).indent >= 2
  {
  }

  lemma FlatExtend(h: seq<Placed>, x: string)
    requires RootObject(h) && FlatRoots(h)
    requires Classify(x).indent == 0 && Classify(x).typ.IsMapping() ==> '.' !in Classify(x).key
    ensures FlatRoots(Extend(h, Classify(x)))
  {
    hide Classify, Place, RootObject;
    var info := Classify(x);
    KeyedLine(x);
    if info.typ.Structural() && info.indent == 0 {
      if info.typ.IsList() {
        ListLineIndent(x);
      }
      FlatPlace(h, info);
    }
  }

  lemma FlatFirst(x: string)
    requires Classify(x).indent == 0 && Classify(x).typ.Mapping? && '.' !in Classify(x).key
    ensures FlatRoots(Extend([], Classify(x)))
  {
    KeyedLine(x);
  }

  lemma DotlessAt(ls: seq<string>, i: nat)
    requires DotlessKeys(ls) && i < |ls|
    ensures Classify(ls[i]).indent == 0 && Classify(ls[i]).typ.IsMapping() ==> '.' !in Classify(ls[i]).key
  {
  }

  lemma {:induction false} FlatBefore(ls: seq<string>, i: nat)
    requires PlainObject(ls) && ListsNested(ls) && DotlessKeys(ls) && 0 < i <= |ls|
    ensures RootObject(Before(ls, i)) && FlatRoots(Before(ls, i))
  {
    hide ListsNested, DotlessKeys, RootObject, FlatRoots, Extend, Before, Classify, NestedAt;
    NestedBefore(ls);
    TrailsShift(ls, i);
    BeforeStep(ls, i - 1);
    DotlessAt(ls, i - 1);
    if i == 1 {
      BeforeNothing(ls);
      FlatFirst(ls[0]);
    } else {
      FlatBefore(ls, i - 1);
      FlatExtend(Before(ls, i - 1), ls[i - 1]);
    }
  }

  lemma BeforeNothing(ls: seq<string>)
    ensures Before(ls, 0) == []
  {
  }

  lemma EmptyLineIs()
    ensures var info := Classify("");
            info.indent == 0 && info.typ.Empty? && info.key == ""
  {
  }

  /** With dotless keys in column 0, an empty line's path is the root. */
  lemma EmptyLinePath(ls: seq<string>, i: nat)
    requires PlainObject(ls) && ListsNested(ls) && DotlessKeys(ls) && i < |ls| && ls[i] == ""
    ensures Scan(ls) == Classified(ls) && PlaceOf(ls, i).path == "$"
  {
    EmptyLineIs();
    assert i > 0;
    hide *;
    PlaceOfLine(ls, i);
    FlatBefore(ls, i);
    FlatPlace(Before(ls, i), Classify(""));
  }

  lemma ShiftedIndents(h: seq<Placed>)
    ensures Previous(ShiftAll(h), 0) == None
    decreases |h|
  {
    if h != [] {
      ShiftedIndents(h[..|h| - 1]);
      assert ShiftAll(h)[..|h| - 1] == ShiftAll(h[..|h| - 1]);
    }
  }

  lemma LastBreakPath(ls: seq<string>)
    requires ls != [] && PlainObject(ls) && ListsNested(ls) && ls[|ls| - 1] == ""
    ensures |Wrapped(ls)| == Landing(ls, |ls|) + 1
    ensures Scan(Wrapped(ls)) == Classified(Wrapped(ls))
    ensures PlaceOf(Wrapped(ls), Landing(ls, |ls|)).path == "$"
  {
    hide *;
    WrappedPlain(ls);
    NestedBefore(ls);
    WrappedSize(ls);
    TrailsShift(ls, |ls|);
    ShiftedIndents(Before(ls, |ls|));
    LastWrapped(ls);
    WrappedBeforeIs(ls, |ls|);
    PlaceNothing(ShiftAll(Before(ls, |ls|)));
    PlaceOfIs(Wrapped(ls), Landing(ls, |ls|));
  }

  lemma LastWrapped(ls: seq<string>)
    requires ls != [] && ls[|ls| - 1] == ""
    ensures |Wrapped(ls)| == Landing(ls, |ls|) + 1 && Wrapped(ls)[Landing(ls, |ls|)] == ""
    ensures Classified(Wrapped(ls))[..Landing(ls, |ls|)] == Classified(WrapPrefix(ls, |ls|))
  {
  }

  lemma PlaceNothing(h: seq<Placed>)
    requires Previous(h, 0) == None
    ensures Place(h, Classify("")).path == "$"
  {
    EmptyLineIs();
    PlaceIs(h, Classify(""));
    assert "$." + "" == "$.";
  }

  lemma PlaceOfIs(ls: seq<string>, i: nat)
    requires i < |ls| && Scan(ls) == Classified(ls)
    ensures PlaceOf(ls, i) == Place(Trail([], Classified(ls)[..i]), Classify(ls[i]))
  {
  }

  lemma RootNamesNothing(name: string)
    ensures !Names("$", name)
  {
  }

  lemma DroppedNothing(ls: seq<string>, orig: seq<Line>, name: string)
    requires PlainObject(ls) && ListsNested(ls) && DotlessKeys(ls) && Parsed(orig, ls)
    ensures |orig| == |ls| && DroppedNameNothing(ls, orig, name)
  {
    PlainScan(ls);
    ParsedSize(orig, ls);
    hide *;
    forall i | 0 <= i < |ls| && ls[i] == "" ensures !Names(orig[i].path, name) {
      EmptyLinePath(ls, i);
      ParsedLine(orig, ls, i);
      PositionPath(orig[i], PlaceOf(ls, i));
      RootNamesNothing(name);
    }
    DroppedNameNothingIs(ls, orig, name);
  }

  lemma DroppedNameNothingIs(ls: seq<string>, orig: seq<Line>, name: string)
    requires |ls| == |orig| && forall i :: 0 <= i < |ls| && ls[i] == "" ==> !Names(orig[i].path, name)
    ensures DroppedNameNothing(ls, orig, name)
  {
  }

  lemma AllMovedIs(ls: seq<string>, orig: seq<Line>, wrapped: seq<Line>)
    requires PlainObject(ls) && ListsNested(ls) && Parsed(orig, ls) && Parsed(wrapped, Wrapped(ls))
    ensures |orig| == |ls| && |wrapped| == |Wrapped(ls)| && AllMoved(ls, orig, wrapped)
  {
    PlainScan(ls);
    WrappedPlain(ls);
    ParsedSize(orig, ls);
    ParsedSize(wrapped, Wrapped(ls));
    hide PlainObject, ListsNested, Parsed, Moved, Landing, Wrapped;
    forall i | 0 <= i < |ls| && ls[i] != ""
      ensures Landing(ls, i) < |wrapped| && Moved(wrapped[Landing(ls, i)], orig[i])
    {
      WrappingMovesLines(ls, orig, wrapped, i);
    }
  }

  lemma WrappedSize(ls: seq<string>)
    requires ls != []
    ensures |Wrapped(ls)| == Landing(ls, |ls|) + if ls[|ls| - 1] == "" then 1 else 0
  {
  }

  lemma LastBreakInfers(ls: seq<string>, wrapped: seq<Line>, name: string)
    requires PlainObject(ls) && ListsNested(ls) && Parsed(wrapped, Wrapped(ls)) && |wrapped| == |Wrapped(ls)|
    ensures Landing(ls, |ls|) <= |wrapped|
    ensures InferText(wrapped, name) == InferText(wrapped[..Landing(ls, |ls|)], name)
  {
    assert ls != [];
    hide *;
    WrappedSize(ls);
    var n := Landing(ls, |ls|);
    assert wrapped[..|wrapped|] == wrapped;
    if ls[|ls| - 1] == "" {
      LastBreakPath(ls);
      ParsedLine(wrapped, Wrapped(ls), n);
      PositionPath(wrapped[n], PlaceOf(Wrapped(ls), n));
      InferStep(wrapped, n, name);
      RootNamesNothing(name);
    }
  }

  /** Main theorem: the nodes read from the object and from its wrapped form infer the same kind and
      version, and the wrapped form's lines are the object's lines, moved. */
  lemma WrappingKeepsMeaning(ls: seq<string>, orig: seq<Line>, wrapped: seq<Line>)
    requires PlainObject(ls) && ListsNested(ls) && DotlessKeys(ls)
    requires Parsed(orig, ls) && Parsed(wrapped, Wrapped(ls))
    ensures |orig| == |ls| && |wrapped| == |Wrapped(ls)| && AllMoved(ls, orig, wrapped)
    ensures InferText(wrapped, "kind") == InferText(orig, "kind")
    ensures InferText(wrapped, "apiVersion") == InferText(orig, "apiVersion")
  {
    hide *;
    AllMovedIs(ls, orig, wrapped);
    SameText(ls, orig, wrapped, "kind");
    SameText(ls, orig, wrapped, "apiVersion");
  }

  /** The same for the text that is inserted. */
  lemma InsertedObject(s: string, orig: seq<Line>, inserted: seq<Line>)
    requires PlainObject(Lines(s)) && ListsNested(Lines(s)) && DotlessKeys(Lines(s))
    requires Parsed(orig, Lines(s)) && Parsed(inserted, Lines("- " + Formatted(Lines(s), 0)))
    ensures |orig| == |Lines(s)| && AllMoved(Lines(s), orig, inserted)
    ensures InferText(inserted, "kind") == InferText(orig, "kind")
    ensures InferText(inserted, "apiVersion") == InferText(orig, "apiVersion")
  {
    FirstLineNotEmpty(Lines(s));
    hide *;
    LinesOfWrapped(s);
    WrappingKeepsMeaning(Lines(s), orig, inserted);
  }

  lemma FirstLineNotEmpty(ls: seq<string>)
    requires PlainObject(ls)
    ensures ls[0] != ""
  {
    EmptyLineIs();
  }

  lemma SameText(ls: seq<string>, orig: seq<Line>, wrapped: seq<Line>, name: string)
    requires PlainObject(ls) && ListsNested(ls) && DotlessKeys(ls)
    requires Parsed(orig, ls) && Parsed(wrapped, Wrapped(ls))
    ensures InferText(wrapped, name) == InferText(orig, name)
  {
    hide *;
    AllMovedIs(ls, orig, wrapped);
    DroppedNothing(ls, orig, name);
    SameInferred(ls, orig, wrapped, name, |ls|);
    LastBreakInfers(ls, wrapped, name);
    assert orig[..|ls|] == orig;
  }

  // ---------------------------------------------------------------- printed object trees

  /** A list line that is not nested keeps nothing but its key as a path. */
  lemma UnnestedPath(h: seq<Placed>, info: LineInfo)
    requires !NestedLine(h, info)
    ensures info.typ.IsList() && |Place(h, info).path| <= |info.key|
  {
    PlaceIs(h, info);
  }

  /** Every printed object tree that starts at column 0 has its lists nested and no dots in its keys. */
  lemma TreesAreNested(d: Doc)
    requires WellFormedDoc(d) && PlainObject(Texts(DocRows(d)))
    ensures ListsNested(Texts(DocRows(d))) && DotlessKeys(Texts(DocRows(d)))
  {
    var rows, ls := DocRows(d), Texts(DocRows(d));
    DocKeysFit(d);
    ParserInvertsPrinter(d, []);
    assert ls + [] == ls;
    hide *;
    forall i | 0 <= i < |ls| ensures NestedAt(ls, i) && DotlessLine(ls[i]) {
      KeyFitsAt(rows, i);
      PlainLinesOf(ls);
      RowNested(ls, i, rows[i]);
      RowDotless(ls, i, rows[i]);
    }
    AllNestedAndDotless(ls);
  }

  lemma AllNestedAndDotless(ls: seq<string>)
    requires forall i :: 0 <= i < |ls| ==> NestedAt(ls, i) && DotlessLine(ls[i])
    ensures ListsNested(ls) && DotlessKeys(ls)
  {
    hide NestedAt, DotlessLine;
  }

  lemma PlainLinesOf(ls: seq<string>)
    requires PlainObject(ls)
    ensures PlainLines(ls)
  {
    hide Classify, OpensBlock;
  }

  lemma RowDotless(ls: seq<string>, i: nat, row: Row)
    requires PlainLines(ls) && i < |ls| && row.text == ls[i] && KeyFits(row)
    requires i < DocLength(ls) && Read(ls, i, row)
    ensures DotlessLine(ls[i])
  {
    PlainScan(ls);
    hide Classify, PlainLines, Scan;
  }

  /** Main theorem: wrapping a printed object tree keeps its meaning. */
  lemma WrappingKeepsTrees(d: Doc, orig: seq<Line>, wrapped: seq<Line>)
    requires WellFormedDoc(d) && PlainObject(Texts(DocRows(d)))
    requires Parsed(orig, Texts(DocRows(d))) && Parsed(wrapped, Wrapped(Texts(DocRows(d))))
    ensures |orig| == |Texts(DocRows(d))| && |wrapped| == |Wrapped(Texts(DocRows(d)))|
    ensures AllMoved(Texts(DocRows(d)), orig, wrapped)
    ensures InferText(wrapped, "kind") == InferText(orig, "kind")
    ensures InferText(wrapped, "apiVersion") == InferText(orig, "apiVersion")
  {
    hide *;
    TreesAreNested(d);
    WrappingKeepsMeaning(Texts(DocRows(d)), orig, wrapped);
  }

  lemma RowNested(ls: seq<string>, i: nat, row: Row)
    requires PlainLines(ls) && i < |ls| && row.text == ls[i] && KeyFits(row)
    requires i < DocLength(ls) && Read(ls, i, row)
    ensures NestedAt(ls, i)
  {
    PlaceOfLine(ls, i);
    hide Place, Before, Classify, NestedLine;
    if !NestedLine(Before(ls, i), Classify(ls[i])) {
      UnnestedPath(Before(ls, i), Classify(ls[i]));
    }
  }
}
