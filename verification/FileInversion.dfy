/** Whole files: any number of printed documents, divided by separators, is read back document by
    document and line by line. */
module FileInversion {
  import opened Strings
  import opened GeneralPaths
  import opened YamlLines
  import opened BlockStyle
  import opened ParserInversion
  import opened Documents

  /** The line object is what the row was printed for. */
  ghost predicate LineIsRow(l: Line, row: Row)
    reads l
  {
    match row
    case Noise(_) => !l.typ.Structural()
    case Structure(_, typ, path) => l.typ == typ && l.path == path && l.generalizedPath == Generalize(path)
  }

  ghost predicate DocumentIsTree(doc: Document, d: Doc)
    reads doc, doc.lines
  {
    |DocRows(d)| <= |doc.lines| && forall i :: 0 <= i < |DocRows(d)| ==> LineIsRow(doc.lines[i], DocRows(d)[i])
  }

  lemma ReadLine(l: Line, lines: seq<string>, i: nat, row: Row)
    requires i < DocLength(lines) && Read(lines, i, row)
    requires l.SameText(Scan(lines)[i]) && l.Position() == PlacedAt([], Scan(lines), i)
    requires l.generalizedPath == Generalize(l.path)
    ensures LineIsRow(l, row)
  {
    hide InfoAt, PlacedAt, Generalize;
  }

  /** Parsing a printed document wherever it stands in the file. */
  lemma DocumentInverts(doc: Document, lines: seq<string>, d: Doc, rest: seq<string>)
    requires WellFormedDoc(d) && (rest != [] ==> rest[0] == SEPARATOR)
    requires ParsedAt(doc, lines) && lines[doc.offset..] == Texts(DocRows(d)) + rest
    ensures DocumentIsTree(doc, d)
    ensures |doc.lines| == |DocRows(d)| + (if rest == [] then 0 else 1)
  {
    hide DocRows, WellFormedDoc, Read, LineIsRow, Scan, PlacedAt, DocLength;
    var text := lines[doc.offset..];
    ParserInvertsPrinter(d, rest);
    forall i | 0 <= i < |DocRows(d)| ensures LineIsRow(doc.lines[i], DocRows(d)[i]) {
      assert doc.lines[i].SameText(Scan(text)[i]);
      ReadLine(doc.lines[i], text, i, DocRows(d)[i]);
    }
  }

  // ---------------------------------------------------------------- files

  /** The lines of a file with these documents. */
  function FileLines(ds: seq<Doc>): seq<string>
    requires ds != []
    decreases |ds|, 1
  {
    Texts(DocRows(ds[0])) + AfterFirst(ds)
  }

  /** The separator and the other documents, if there are any. */
  function AfterFirst(ds: seq<Doc>): seq<string>
    requires ds != []
    decreases |ds|, 0
  {
    if |ds| == 1 then [] else [SEPARATOR] + FileLines(ds[1..])
  }

  lemma AfterFirstIs(ds: seq<Doc>)
    requires ds != []
    ensures AfterFirst(ds) != [] ==> AfterFirst(ds)[0] == SEPARATOR
    ensures AfterFirst(ds) == [] <==> |ds| == 1
    ensures |ds| > 1 ==> AfterFirst(ds)[1..] == FileLines(ds[1..])
  {
    hide FileLines;
  }

  /** Every document is well-formed, and there is something behind the last separator. */
  predicate WellFormedFile(ds: seq<Doc>) {
    && ds != []
    && (forall i :: 0 <= i < |ds| ==> WellFormedDoc(ds[i]))
    && DocRows(ds[|ds| - 1]) != []
  }

  lemma FileNotEmpty(ds: seq<Doc>)
    requires WellFormedFile(ds)
    ensures FileLines(ds) != []
  {
    hide DocRows, WellFormedDoc, FileLines;
    AfterFirstIs(ds);
    FileLinesIs(ds);
  }

  lemma FileLinesIs(ds: seq<Doc>)
    requires ds != []
    ensures FileLines(ds) == Texts(DocRows(ds[0])) + AfterFirst(ds)
  {
    hide DocRows, AfterFirst;
  }

  lemma LastDocument(docs: seq<Document>, end: nat, k: nat)
    requires Tiles(docs, 0, end) && k < |docs| && docs[k].End() < end
    ensures k + 1 < |docs| && docs[k + 1].offset == docs[k].End()
  {
    TilesBounds(docs, 0, end, k);
    if k + 1 < |docs| {
      TilesBounds(docs, 0, end, k + 1);
    }
  }

  lemma NoMoreDocuments(docs: seq<Document>, end: nat, k: nat)
    requires Tiles(docs, 0, end) && k < |docs| && docs[k].End() == end
    ensures k == |docs| - 1
  {
    if k + 1 < |docs| {
      TilesBounds(docs, 0, end, k + 1);
    }
  }

  /** The document is the parse of the file's lines from its offset on, and these are printed for the
      first tree, with the separator and the other trees behind it. */
  ghost predicate StandsFor(doc: Document, lines: seq<string>, ds: seq<Doc>)
    requires ds != []
    reads doc, doc.lines
  {
    doc.offset <= |lines| && lines[doc.offset..] == FileLines(ds) && Parsed(doc.lines, FileLines(ds))
  }

  /** From the document at k on, documents and trees agree one by one. */
  lemma {:induction false} FileInvertsFrom(docs: seq<Document>, lines: seq<string>, ds: seq<Doc>, k: nat)
    requires Tiles(docs, 0, |lines|) && ParsedFrom(docs, lines)
    requires WellFormedFile(ds)
    requires k < |docs| && docs[k].offset <= |lines| && lines[docs[k].offset..] == FileLines(ds)
    ensures |docs| == k + |ds|
    ensures forall i :: 0 <= i < |ds| ==> DocumentIsTree(docs[k + i], ds[i]) && StandsFor(docs[k + i], lines, ds[i..])
    decreases |ds|
  {
    hide Tiles, ParsedFrom, WellFormedDoc, DocRows, DocumentIsTree, Parsed, AfterFirst;
    ParsedFromAt(docs, lines, k);
    FileLinesIs(ds);
    assert ds[0..] == ds;
    AfterFirstIs(ds);
    DocumentInverts(docs[k], lines, ds[0], AfterFirst(ds));
    var end := docs[k].End();
    if |ds| == 1 {
      NoMoreDocuments(docs, |lines|, k);
    } else {
      FileNotEmpty(ds[1..]);
      assert lines[end..] == lines[docs[k].offset..][|docs[k].lines|..];
      assert lines[end..] == FileLines(ds[1..]);
      LastDocument(docs, |lines|, k);
      FileInvertsFrom(docs, lines, ds[1..], k + 1);
      forall i | 0 <= i < |ds| ensures DocumentIsTree(docs[k + i], ds[i]) && StandsFor(docs[k + i], lines, ds[i..]) {
        if i > 0 {
          assert ds[i] == ds[1..][i - 1] && docs[k + i] == docs[k + 1 + (i - 1)];
          assert ds[i..] == ds[1..][i - 1..];
        }
      }
    }
  }

  /** Main theorem: the documents of a file that was printed from these trees are those trees. */
  lemma FileInverts(docs: seq<Document>, content: string, ds: seq<Doc>)
    requires Tiles(docs, 0, |Lines(content)|) && ParsedFrom(docs, Lines(content))
    requires WellFormedFile(ds)
    requires Lines(content) == FileLines(ds)
    ensures |docs| == |ds|
    ensures forall i :: 0 <= i < |ds| ==> DocumentIsTree(docs[i], ds[i]) && StandsFor(docs[i], Lines(content), ds[i..])
  {
    hide *;
    var lines := Lines(content);
    FileNotEmpty(ds);
    SomeDocument(docs, lines);
    TilesBounds(docs, 0, |lines|, 0);
    assert lines[0..] == lines;
    FileInvertsFrom(docs, lines, ds, 0);
    assert forall i :: 0 <= i < |ds| ==> docs[0 + i] == docs[i];
  }

  lemma SomeDocument(docs: seq<Document>, lines: seq<string>)
    requires Tiles(docs, 0, |lines|) && |lines| >= 1
    ensures docs != []
  {
  }
}
