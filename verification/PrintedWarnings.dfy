/** Deprecation warnings for printed documents, told of their trees. */
module PrintedWarnings {
  import opened GeneralPaths
  import opened YamlLines
  import opened BlockStyle
  import opened ParserInversion
  import opened Documents
  import opened TreeKeys
  import opened HalfTyped
  import opened PrintedKind
  import opened Deprecation

  /** A row that stands for a key of the tree. */
  predicate KeyOfTree(d: Doc, r: nat) {
    && r < |DocRows(d)| && DocRows(d)[r].Structure?
    && DocRows(d)[r].typ in {Mapping, ListMapping}
  }

  /** The key on that row has that path, generalised. */
  predicate HitsKey(d: Doc, paths: seq<string>, h: Hit) {
    h.path < |paths| && KeyOfTree(d, h.line) && Generalize(DocRows(d)[h.line].path) == paths[h.path]
  }

  lemma HitIs(paths: seq<string>, objects: seq<Line>, h: Hit)
    ensures IsHit(paths, objects, h) <==>
            && h.path < |paths| && h.line < |objects|
            && objects[h.line].typ.IsMapping() && objects[h.line].generalizedPath == paths[h.path]
  {
  }

  lemma ObjectIs(objects: seq<Line>, lines: seq<string>, j: nat)
    requires Parsed(objects, lines) && j < |objects|
    ensures |objects| == DocLength(lines) && objects[j].typ == Scan(lines)[j].typ
    ensures objects[j].generalizedPath == Generalize(PlacedAt([], Scan(lines), j).path)
    ensures objects[j].Info().KeyPos() == Scan(lines)[j].KeyPos()
  {
    hide Scan, PlacedAt, Generalize;
  }

  lemma RowType(lines: seq<string>, j: nat, row: Row)
    requires j < DocLength(lines) && Read(lines, j, row)
    ensures Scan(lines)[j].typ.IsMapping() <==> row.Structure? && row.typ in {Mapping, ListMapping}
    ensures row.Structure? ==> Scan(lines)[j].typ == row.typ && PlacedAt([], Scan(lines), j).path == row.path
  {
    hide Scan, PlacedAt;
  }

  lemma NoMapping(typ: LineType)
    requires !typ.Structural()
    ensures !typ.IsMapping()
  {
  }

  lemma HitInTree(d: Doc, rest: seq<string>, objects: seq<Line>, paths: seq<string>, h: Hit)
    requires WellFormedDoc(d) && (rest != [] ==> rest[0] == SEPARATOR) && Parsed(objects, Texts(DocRows(d)) + rest)
    ensures IsHit(paths, objects, h) <==> HitsKey(d, paths, h)
  {
    hide *;
    var lines := Texts(DocRows(d)) + rest;
    HitIs(paths, objects, h);
    HitsKeyIs(d, paths, h);
    ParserInvertsPrinter(d, rest);
    LengthOf(objects, lines);
    if h.line < |objects| {
      ObjectIs(objects, lines, h.line);
      RowRead(d, rest, lines, h.line);
      if h.line < |DocRows(d)| {
        RowType(lines, h.line, DocRows(d)[h.line]);
      } else {
        NoMapping(Scan(lines)[h.line].typ);
      }
    }
  }

  lemma LengthOf(objects: seq<Line>, lines: seq<string>)
    requires Parsed(objects, lines)
    ensures |objects| == DocLength(lines)
  {
    hide Scan, PlacedAt;
  }

  lemma KeyOfTreeIs(d: Doc, r: nat)
    ensures KeyOfTree(d, r) <==>
            r < |DocRows(d)| && DocRows(d)[r].Structure? && DocRows(d)[r].typ in {Mapping, ListMapping}
  {
    hide DocRows;
  }

  lemma HitsKeyIs(d: Doc, paths: seq<string>, h: Hit)
    ensures HitsKey(d, paths, h) <==>
            && h.path < |paths| && h.line < |DocRows(d)| && DocRows(d)[h.line].Structure?
            && DocRows(d)[h.line].typ in {Mapping, ListMapping}
            && Generalize(DocRows(d)[h.line].path) == paths[h.path]
  {
    hide DocRows, Generalize;
  }

  /** Main theorem: in a printed document the warnings are for exactly the keys of the tree whose path in
      the tree, generalised, is deprecated. */
  lemma PrintedHits(d: Doc, rest: seq<string>, objects: seq<Line>, paths: seq<string>)
    requires WellFormedDoc(d) && (rest != [] ==> rest[0] == SEPARATOR) && Parsed(objects, Texts(DocRows(d)) + rest)
    ensures forall h :: h in Hits(paths, objects, |paths|) <==> HitsKey(d, paths, h)
  {
    hide *;
    HitsExact(paths, objects, |paths|);
    forall h ensures h in Hits(paths, objects, |paths|) <==> HitsKey(d, paths, h) {
      HitInTree(d, rest, objects, paths, h);
      HitsKeyIs(d, paths, h);
    }
  }

  /** The line's number and the text that the warning marks: the last name of the key's path. */
  lemma MarksKey(d: Doc, rest: seq<string>, objects: seq<Line>, offset: nat, r: nat) returns (key: string)
    requires WellFormedDoc(d) && (rest != [] ==> rest[0] == SEPARATOR) && Parsed(objects, Texts(DocRows(d)) + rest)
    requires KeyOfTree(d, r)
    ensures r < |objects| && EndsWithKey(DocRows(d)[r].path, key)
    ensures var range := WarningAt(offset, r, objects[r]).range;
            && range.start.line == range.end.line == offset + r
            && Selects(DocRows(d)[r].text, range.start.character, range.end.character, key)
  {
    hide *;
    KeyOfTreeIs(d, r);
    var lines, row := Texts(DocRows(d)) + rest, DocRows(d)[r];
    ParserInvertsPrinter(d, rest);
    LengthOf(objects, lines);
    ObjectIs(objects, lines, r);
    RowRead(d, rest, lines, r);
    RowType(lines, r, row);
    MappingsAreStructural(Scan(lines)[r].typ);
    StructuralInfo(lines, r);
    DocKeysFit(d);
    KeyFitsAt(DocRows(d), r);
    RowIsPlainOrDash(row, Classify(row.text));
    KeyPosSelects(row.text);
    RangeOf(offset, r, objects[r]);
    key := Classify(row.text).key;
  }

  lemma MappingsAreStructural(typ: LineType)
    requires typ.IsMapping()
    ensures typ.Structural()
  {
  }

  lemma RowIsPlainOrDash(row: Row, info: LineInfo)
    requires row.Structure? && KeyFits(row) && info == Classify(row.text) && info.typ.IsMapping() && info.typ == row.typ
    ensures PlainOrDash(row.text) && EndsWithKey(row.path, info.key)
  {
    hide Classify, EndsWithKey;
  }

  lemma RangeOf(offset: nat, r: nat, line: Line)
    ensures WarningAt(offset, r, line).range ==
            Range(Position(offset + r, line.Info().KeyPos().0), Position(offset + r, line.Info().KeyPos().1))
  {
  }
}
