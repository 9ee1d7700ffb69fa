/** Where blank and half-typed lines stand: completion asks for the path of the line being written. */
module HalfTyped {
  import opened Options
  import opened Strings
  import opened YamlLines
  import opened BlockStyle
  import opened ParserInversion
  import opened TreeKeys

  /** Line q is the last structural line above line i that is not indented deeper. */
  predicate NearestAbove(infos: seq<LineInfo>, q: nat, i: nat) {
    && q < i < |infos|
    && infos[q].typ.Structural() && infos[q].indent <= infos[i].indent
    && forall j :: q < j < i && infos[j].typ.Structural() ==> infos[j].indent > infos[i].indent
  }

  /** All structural lines above line i are indented deeper. */
  predicate NothingAbove(infos: seq<LineInfo>, i: nat) {
    && i < |infos|
    && forall j :: 0 <= j < i && infos[j].typ.Structural() ==> infos[j].indent > infos[i].indent
  }

  lemma PreviousSnoc(h: seq<Placed>, p: Placed, indent: nat)
    ensures Previous(h + [p], indent) == if p.indent <= indent then Some(p) else Previous(h, indent)
  {
    assert (h + [p])[..|h|] == h;
  }

  lemma {:induction false} PreviousIsNearest(infos: seq<LineInfo>, q: nat, i: nat, indent: nat)
    requires q < i <= |infos| && infos[q].typ.Structural() && infos[q].indent <= indent
    requires forall j :: q < j < i && infos[j].typ.Structural() ==> infos[j].indent > indent
    ensures Previous(Trail([], infos[..i]), indent) == Some(PlacedAt([], infos, q))
    decreases i
  {
    hide Place, Trail, Previous;
    TrailStep(infos, i - 1);
    PreviousSnoc(Trail([], infos[..i - 1]), PlacedAt([], infos, i - 1), indent);
    PlacedIndent(infos, i - 1);
    if i - 1 > q {
      PreviousIsNearest(infos, q, i - 1, indent);
    }
  }

  lemma PlacedIndent(infos: seq<LineInfo>, i: nat)
    requires i < |infos|
    ensures PlacedAt([], infos, i).indent == infos[i].indent
  {
    hide Place, Trail;
  }

  lemma {:induction false} PreviousIsNone(infos: seq<LineInfo>, i: nat, indent: nat)
    requires i <= |infos| && forall j :: 0 <= j < i && infos[j].typ.Structural() ==> infos[j].indent > indent
    ensures Previous(Trail([], infos[..i]), indent) == None
    decreases i
  {
    hide Place;
    if i > 0 {
      hide Trail, Previous;
      TrailStep(infos, i - 1);
      PreviousSnoc(Trail([], infos[..i - 1]), PlacedAt([], infos, i - 1), indent);
      PlacedIndent(infos, i - 1);
      PreviousIsNone(infos, i - 1, indent);
    }
  }

  /** A line without structure that is no comment and no separator. */
  predicate Typed(info: LineInfo) {
    (info.typ.Undefined? || info.typ.Empty? || info.typ.BlockScalar?) && info.key == ""
  }

  /** A line that continues below another has its path, and one beside a key that of the key's mapping. */
  lemma PlaceTyped(h: seq<Placed>, info: LineInfo, key: string)
    requires Typed(info)
    ensures var prev, path := Previous(h, info.indent), Place(h, info).path;
            && (prev.None? ==> path == "$")
            && (prev.Some? && prev.value.indent < info.indent ==> path == prev.value.path)
            && (prev.Some? && prev.value.indent == info.indent && '.' !in key && EndsWithKey(prev.value.path, key)
                ==> prev.value.path == path + "." + key)
  {
    hide Previous, LastIndexOf;
    var prev := Previous(h, info.indent);
    if prev.None? {
      assert "$." + "" == "$." && "$."[..1] == "$";
    } else {
      var p := prev.value.path;
      if prev.value.indent < info.indent {
        DropAddedDot(p);
        assert p + "." + "" == p + ".";
      } else if '.' !in key && EndsWithKey(p, key) {
        BeforeKey(p, key);
        var base := p[..|p| - |key| - 1];
        DropAddedDot(base);
        assert base + "." + "" == base + ".";
      }
    }
  }

  lemma DropAddedDot(p: string)
    ensures DropDot(p + ".") == p
  {
    assert (p + ".")[..|p|] == p;
  }

  lemma BeforeKey(p: string, key: string)
    requires EndsWithKey(p, key) && '.' !in key
    ensures LastIndexOf(p, '.') == |p| - |key| - 1
    ensures p == p[..|p| - |key| - 1] + "." + key
  {
    var base := p[..|p| - |key| - 1];
    assert p == base + p[|base|..];
    assert p == base + ['.'] + key;
    LastIndexOfSplit(base, '.', key);
  }

  // ---------------------------------------------------------------- printed documents

  lemma TypedIs(lines: seq<string>, i: nat)
    requires i < DocLength(lines)
    requires Scan(lines)[i].typ in {Undefined, Empty, BlockScalar}
    ensures Typed(Scan(lines)[i])
  {
    hide BlockAt;
  }

  lemma RowKey(lines: seq<string>, q: nat, row: Row)
    requires q < DocLength(lines) && lines[q] == row.text && Read(lines, q, row)
    requires row.Structure? && row.typ.IsMapping() && KeyFits(row)
    ensures '.' !in Scan(lines)[q].key && EndsWithKey(row.path, Scan(lines)[q].key)
    ensures PlacedAt([], Scan(lines), q).path == row.path
  {
    StructuralInfo(lines, q);
    hide Classify, BlockAt, PlacedAt;
  }

  lemma StructuralInfo(lines: seq<string>, q: nat)
    requires q < DocLength(lines) && Scan(lines)[q].typ.Structural()
    ensures Scan(lines)[q] == Classify(lines[q])
  {
    hide Classify, BlockAt;
  }

  /** Main theorem: in every printed document a blank or half-typed line (or block text) that is indented
      deeper than the nearest line above that has a key and is not deeper gets that line's path; in the
      column of that key it gets the path of the mapping that the key is in; and with no such line it gets
      the root. */
  lemma HalfTypedPath(d: Doc, rest: seq<string>, q: nat, i: nat)
    requires WellFormedDoc(d) && (rest != [] ==> rest[0] == SEPARATOR) && i < |DocRows(d)|
    requires var infos := Scan(Texts(DocRows(d)) + rest); i < |infos| && infos[i].typ in {Undefined, Empty, BlockScalar}
    ensures var infos := Scan(Texts(DocRows(d)) + rest);
            var path := PlacedAt([], infos, i).path;
            && (NothingAbove(infos, i) ==> path == "$")
            && (NearestAbove(infos, q, i) && q < |DocRows(d)| && DocRows(d)[q].Structure? && DocRows(d)[q].typ.IsMapping() ==>
                  if infos[q].indent < infos[i].indent then path == DocRows(d)[q].path
                  else DocRows(d)[q].path == path + "." + infos[q].key)
  {
    hide *;
    var rows, lines := DocRows(d), Texts(DocRows(d)) + rest;
    var infos := Scan(lines);
    ParserInvertsPrinter(d, rest);
    TypedIs(lines, i);
    TrailStep(infos, i);
    NearestIs(infos, q, i);
    if NothingAbove(infos, i) {
      PreviousIsNone(infos, i, infos[i].indent);
      PlaceTyped(Trail([], infos[..i]), infos[i], "");
    }
    if NearestAbove(infos, q, i) && q < |rows| && rows[q].Structure? && rows[q].typ.IsMapping() {
      DocKeysFit(d);
      KeyFitsAt(rows, q);
      assert lines[q] == rows[q].text;
      RowKey(lines, q, rows[q]);
      PreviousIsNearest(infos, q, i, infos[i].indent);
      PlacedIndent(infos, q);
      PlaceTyped(Trail([], infos[..i]), infos[i], infos[q].key);
    }
  }

  lemma NearestIs(infos: seq<LineInfo>, q: nat, i: nat)
    ensures NearestAbove(infos, q, i) ==>
      && q < i < |infos| && infos[q].typ.Structural() && infos[q].indent <= infos[i].indent
      && forall j :: q < j < i && infos[j].typ.Structural() ==> infos[j].indent > infos[i].indent
    ensures NothingAbove(infos, i) ==>
      i < |infos| && forall j :: 0 <= j < i && infos[j].typ.Structural() ==> infos[j].indent > infos[i].indent
  {
  }

  /** The text of a half-typed line is its key, which completion filters by. */
  lemma HalfTypedKey(raw: string)
    requires Classify(raw).typ.Undefined?
    ensures Classify(raw).MapKey() == raw[Indent(raw)..] && Classify(raw).MapValue() == ""
  {
    hide IsMappingNode, ColonFrom, TrimSpace;
    var t := raw[Indent(raw)..];
    assert t[0..|t|] == t;
  }
}
