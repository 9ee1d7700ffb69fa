/** Files as sequences of documents, and the arithmetic of their line numbers. */
module Documents {
  import opened Strings
  import opened GeneralPaths
  import opened YamlLines

  class Document {
    var offset: nat
    var lines: seq<Line>

    constructor (offset: nat, lines: seq<Line>)
      ensures this.offset == offset && this.lines == lines
    {
      this.offset, this.lines := offset, lines;
    }

    function FindLine(lineNum: int): Line?
      reads this
    {
      if lineNum < 0 || lineNum >= |lines| then null else lines[lineNum]
    }

    function End(): nat
      reads this
    {
      offset + |lines|
    }
  }

  /** These objects are what both passes make of the document that starts here. */
  ghost predicate Parsed(parsed: seq<Line>, lines: seq<string>)
    reads parsed
  {
    && |parsed| == DocLength(lines)
    && forall i :: 0 <= i < |parsed| ==>
         && parsed[i].SameText(Scan(lines)[i])
         && parsed[i].Position() == PlacedAt([], Scan(lines), i)
         && parsed[i].generalizedPath == Generalize(parsed[i].path)
  }

  method ParseDocument(lines: seq<string>) returns (doc: Document)
    ensures fresh(doc) && fresh(doc.lines) && doc.offset == 0
    ensures Parsed(doc.lines, lines)
  {
    hide PlacedAt, InfoAt, Generalize;
    var parsedLines := ParseDocumentLines(lines);
    assert Infos(parsedLines) == Scan(lines);
    PostProcessPaths(parsedLines);
    doc := new Document(0, parsedLines);
  }

  /** The documents cover the lines [start, end) without gap or overlap, none of them empty. */
  ghost predicate Tiles(docs: seq<Document>, start: nat, end: nat)
    reads docs
  {
    if docs == [] then start == end
    else
      var last := docs[|docs| - 1];
      last.lines != [] && last.End() == end && Tiles(docs[..|docs| - 1], start, last.offset)
  }

  lemma {:induction false} TilesBounds(docs: seq<Document>, start: nat, end: nat, d: nat)
    requires Tiles(docs, start, end) && d < |docs|
    ensures start <= docs[d].offset < docs[d].End() <= end
    ensures d > 0 ==> docs[d].offset == docs[d - 1].End()
    ensures d == 0 ==> docs[d].offset == start
    ensures d == |docs| - 1 ==> docs[d].End() == end
    decreases |docs|
  {
    if d < |docs| - 1 {
      TilesBounds(docs[..|docs| - 1], start, docs[|docs| - 1].offset, d);
    } else {
      TilesStart(docs[..d], start, docs[d].offset);
      if d > 0 {
        TilesBounds(docs[..d], start, docs[d].offset, d - 1);
      }
    }
  }

  lemma {:induction false} TilesStart(docs: seq<Document>, start: nat, end: nat)
    requires Tiles(docs, start, end)
    ensures start <= end && (docs != [] ==> start < end)
    decreases |docs|
  {
    if docs != [] {
      TilesStart(docs[..|docs| - 1], start, docs[|docs| - 1].offset);
    }
  }

  /** Every line of the range lies in exactly one document. */
  lemma {:induction false} TilesFind(docs: seq<Document>, start: nat, end: nat, line: nat) returns (d: nat)
    requires Tiles(docs, start, end) && start <= line < end
    ensures d < |docs| && docs[d].offset <= line < docs[d].End()
    ensures forall e :: 0 <= e < |docs| && docs[e].offset <= line < docs[e].End() ==> e == d
    decreases |docs|
  {
    var last := |docs| - 1;
    var init := docs[..last];
    if docs[last].offset <= line {
      d := last;
      forall e | 0 <= e < last ensures docs[e].End() <= docs[last].offset {
        TilesBounds(init, start, docs[last].offset, e);
        assert init[e] == docs[e];
      }
    } else {
      d := TilesFind(init, start, docs[last].offset, line);
      forall e | 0 <= e < |docs| && docs[e].offset <= line < docs[e].End() ensures e == d {
        assert e < last;
        assert init[e] == docs[e];
      }
    }
  }

  /** All line objects in order. */
  function AllLines(docs: seq<Document>): seq<Line>
    reads docs
  {
    if docs == [] then [] else AllLines(docs[..|docs| - 1]) + docs[|docs| - 1].lines
  }

  lemma {:induction false} AllLinesAt(docs: seq<Document>, start: nat, end: nat, d: nat, i: nat)
    requires Tiles(docs, start, end) && d < |docs| && i < |docs[d].lines|
    ensures |AllLines(docs)| == end - start && start <= docs[d].offset < docs[d].End() <= end
    ensures AllLines(docs)[docs[d].offset - start + i] == docs[d].lines[i]
    decreases |docs|
  {
    var last := |docs| - 1;
    var init := docs[..last];
    AllLinesLength(init, start, docs[last].offset);
    TilesStart(init, start, docs[last].offset);
    if d < last {
      AllLinesAt(init, start, docs[last].offset, d, i);
    }
  }

  lemma {:induction false} AllLinesLength(docs: seq<Document>, start: nat, end: nat)
    requires Tiles(docs, start, end)
    ensures start <= end && |AllLines(docs)| == end - start
    decreases |docs|
  {
    if docs != [] {
      AllLinesLength(docs[..|docs| - 1], start, docs[|docs| - 1].offset);
    }
  }

  ghost predicate ParsedAt(doc: Document, lines: seq<string>)
    reads doc, doc.lines
  {
    doc.offset <= |lines| && Parsed(doc.lines, lines[doc.offset..])
  }

  function ToSet(lines: seq<Line>): set<Line> {
    set l | l in lines
  }

  ghost function LineSet(docs: seq<Document>): set<Line>
    reads docs
  {
    if docs == [] then {} else LineSet(docs[..|docs| - 1]) + ToSet(docs[|docs| - 1].lines)
  }

  /** Every document is the parse of the file's lines from its offset on. */
  ghost predicate ParsedFrom(docs: seq<Document>, lines: seq<string>)
    reads docs, LineSet(docs)
  {
    if docs == [] then true
    else
      var init, last := docs[..|docs| - 1], docs[|docs| - 1];
      ParsedFrom(init, lines) && ParsedAt(last, lines)
  }

  lemma {:induction false} ParsedFromAt(docs: seq<Document>, lines: seq<string>, d: nat)
    requires ParsedFrom(docs, lines) && d < |docs|
    ensures ParsedAt(docs[d], lines)
    decreases |docs|
  {
    if d < |docs| - 1 {
      ParsedFromAt(docs[..|docs| - 1], lines, d);
    }
  }

  method ParseDocumentAt(lines: seq<string>, i: nat) returns (doc: Document)
    requires i < |lines|
    ensures fresh(doc) && fresh(ToSet(doc.lines))
    ensures doc.offset == i && doc.lines != [] && ParsedAt(doc, lines)
    ensures doc.End() == i + |doc.lines| <= |lines|
  {
    doc := ParseDocument(lines[i..]);
    assert |doc.lines| == DocLength(lines[i..]);
    hide Parsed;
    doc.offset := i;
  }

  lemma TilesAppend(docs: seq<Document>, doc: Document, start: nat)
    requires Tiles(docs, start, doc.offset) && doc.lines != []
    ensures Tiles(docs + [doc], start, doc.End())
    ensures LineSet(docs + [doc]) == LineSet(docs) + ToSet(doc.lines)
  {
    assert (docs + [doc])[..|docs|] == docs;
  }

  lemma ParsedFromAppend(docs: seq<Document>, doc: Document, lines: seq<string>)
    requires ParsedFrom(docs, lines) && ParsedAt(doc, lines)
    ensures ParsedFrom(docs + [doc], lines)
  {
    assert (docs + [doc])[..|docs|] == docs;
  }

  method ParseFile(content: string) returns (docs: seq<Document>, ghost owned: set<Line>)
    ensures fresh(docs) && fresh(owned) && owned == LineSet(docs)
    ensures Tiles(docs, 0, |Lines(content)|)
    ensures ParsedFrom(docs, Lines(content))
  {
    docs := [];
    var lines := Lines(content);
    var i := 0;
    assert Tiles(docs, 0, 0) && ParsedFrom(docs, lines) && LineSet(docs) == {};
    owned := {};
    hide *;
    while i < |lines|
      invariant i <= |lines| && Tiles(docs, 0, i)
      invariant owned == LineSet(docs) && fresh(docs) && fresh(owned)
      invariant ParsedFrom(docs, lines)
      decreases |lines| - i
    {
      var doc := ParseDocumentAt(lines, i);
      TilesAppend(docs, doc, 0);
      ParsedFromAppend(docs, doc, lines);
      docs, owned := docs + [doc], owned + ToSet(doc.lines);
      i := i + |doc.lines|;
    }
  }
}
