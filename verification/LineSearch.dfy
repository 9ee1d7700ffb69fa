/** Which line a completion request looks at: the nearest one above the cursor that is not filtered
    out (a blank line or a comment, there), within the same object. */
module LineSearch {
  import opened Strings
  import opened YamlLines
  import opened BlockStyle
  import opened Documents
  import opened ObjectNodes

  /** A filter sees everything that a line holds. */
  type Filter = (LineInfo, Placed, string) -> bool

  predicate PassedOver(filter: Filter, l: Line)
    reads l
  {
    filter(l.Info(), l.Position(), l.generalizedPath)
  }

  /** The filter that completion uses. */
  function CommentsAndEmptyLines(info: LineInfo, position: Placed, general: string): bool {
    info.typ.Comment? || info.typ.Empty?
  }

  /** The line found is the last one at or before i that is not passed over. */
  ghost predicate NearestAbove(filter: Filter, lines: seq<Line>, i: int, line: Line?)
    reads lines
  {
    && i < |lines|
    && (line == null ==> forall j :: 0 <= j <= i ==> PassedOver(filter, lines[j]))
    && (line != null ==>
          exists j :: (0 <= j <= i && lines[j] == line && !PassedOver(filter, line)
                       && forall m :: j < m <= i ==> PassedOver(filter, lines[m])))
  }

  /** The search inside one node; n is the line number it ends at. */
  method SearchNode(node: SimpleObjectNode, start: int, filter: Filter) returns (n: int, line: Line?)
    ensures n <= start
    ensures node.doc.FindLine(start - node.doc.offset) == null ==> n == start && line == null
    ensures node.doc.FindLine(start - node.doc.offset) != null ==>
      && NearestAbove(filter, node.doc.lines, start - node.doc.offset, line)
      && (line == null ==> n < node.doc.offset)
  {
    n := start;
    var doc := node.doc;
    while true
      invariant n <= start
      invariant doc.FindLine(start - doc.offset) == null ==> n == start
      invariant doc.FindLine(start - doc.offset) != null ==>
        && n - doc.offset >= -1
        && forall m :: n - doc.offset < m <= start - doc.offset ==> PassedOver(filter, doc.lines[m])
      decreases n - doc.offset
    {
      line := doc.FindLine(n - doc.offset);
      if line == null {
        break;
      }
      if PassedOver(filter, line) {
        n := n - 1;
        continue;
      }
      return;
    }
  }

  /** In a tiled file the search never leaves the node that holds the line. */
  method FindLine(nodes: seq<SimpleObjectNode>, start: int, filter: Filter, ghost total: nat) returns (line: Line?)
    requires Tiles(Docs(nodes), 0, total)
    ensures !(0 <= start < total) ==> line == null
    ensures 0 <= start < total ==>
      exists k :: (0 <= k < |nodes| && nodes[k].doc.offset <= start < nodes[k].doc.End()
                   && NearestAbove(filter, nodes[k].doc.lines, start - nodes[k].doc.offset, line))
  {
    hide Tiles, NearestAbove, Docs;
    ghost var docs := Docs(nodes);
    var n := start;
    ghost var home: int := -1;
    if 0 <= start < total {
      home := TilesFind(docs, 0, total, start);
    }
    for k := 0 to |nodes|
      invariant 0 <= start < total ==> 0 <= home < |nodes| && docs[home].offset <= start < docs[home].End()
      invariant !(0 <= start < total) || k <= home ==> n == start
      invariant 0 <= start < total && k > home ==>
        n < docs[home].offset && NearestAbove(filter, docs[home].lines, start - docs[home].offset, null)
    {
      TilesBounds(docs, 0, total, k);
      if 0 <= start < total && k != home {
        OutsideHome(docs, total, start, home, k);
      }
      n, line := SearchNode(nodes[k], n, filter);
      if line != null {
        return;
      }
    }
    line := null;
  }

  lemma OutsideHome(docs: seq<Document>, total: nat, start: nat, home: nat, k: nat)
    requires Tiles(docs, 0, total) && start < total
    requires home < |docs| && docs[home].offset <= start < docs[home].End()
    requires k < |docs| && k != home
    ensures k < home ==> docs[k].End() <= start
    ensures k > home ==> docs[home].End() <= docs[k].offset
  {
    hide Tiles;
    var d := TilesFind(docs, 0, total, start);
    if k > home {
      TilesOrder(docs, total, home, k);
    } else {
      TilesOrder(docs, total, k, home);
    }
  }

  lemma {:induction false} TilesOrder(docs: seq<Document>, total: nat, d: nat, e: nat)
    requires Tiles(docs, 0, total) && d < e < |docs|
    ensures docs[d].End() <= docs[e].offset
    decreases e
  {
    hide Tiles;
    TilesBounds(docs, 0, total, e);
    if d < e - 1 {
      TilesOrder(docs, total, d, e - 1);
      TilesBounds(docs, 0, total, e - 1);
    }
  }

  // ---------------------------------------------------------------- what is found, told of the text

  /** '#' behind nothing but blanks. */
  predicate CommentText(l: string) {
    exists i :: 0 <= i < |l| && l[i] == '#' && AllBlank(l[..i])
  }

  /** Line m of the file, whose document starts there, is blank or a comment and no text of a block scalar. */
  predicate Overlooked(lines: seq<string>, start: nat, m: nat) {
    && start <= m < |lines|
    && !InBlock(lines[m], BlockAt(Closed, lines[start..m]))
    && (AllBlank(lines[m]) || CommentText(lines[m]))
  }

  ghost predicate OverlookedIn(docs: seq<Document>, lines: seq<string>, m: nat)
    reads docs
  {
    exists d :: 0 <= d < |docs| && docs[d].offset <= m < docs[d].End() && Overlooked(lines, docs[d].offset, m)
  }

  lemma BlankLine(l: string)
    ensures Classify(l).typ.Empty? <==> AllBlank(l)
    ensures Classify(l).typ.Comment? <==> CommentText(l)
  {
    hide ColonFrom, IsMappingNode, TrimSpace;
    var n := Indent(l);
    if n < |l| {
      assert l[n..][0] == l[n];
      assert !AllBlank(l);
    }
    if CommentText(l) {
      var i :| 0 <= i < |l| && l[i] == '#' && AllBlank(l[..i]);
      HashNotBlank();
      assert forall j :: 0 <= j < i ==> l[j] == l[..i][j];
      assert i == n;
    }
    if n < |l| && l[n] == '#' {
      assert AllBlank(l[..n]);
    }
  }

  lemma HashNotBlank()
    ensures !IsSpace('#')
  {
  }

  lemma SeparatorText()
    ensures !AllBlank(SEPARATOR) && !CommentText(SEPARATOR)
  {
    BlankLine(SEPARATOR);
    assert Indent(SEPARATOR) == 0;
    hide ColonFrom;
  }

  lemma ScannedType(lines: seq<string>, x: nat)
    requires x < DocLength(lines)
    ensures Scan(lines)[x].typ in {Comment, Empty} <==>
            !InBlock(lines[x], BlockAt(Closed, lines[..x])) && (AllBlank(lines[x]) || CommentText(lines[x]))
  {
    hide Classify, BlockAt, AllBlank, CommentText;
    BlankLine(lines[x]);
    SeparatorText();
  }

  /** A line object is a comment or empty exactly if its text is overlooked. */
  lemma TypeOfText(docs: seq<Document>, lines: seq<string>, d: nat, m: nat)
    requires Tiles(docs, 0, |lines|) && ParsedFrom(docs, lines)
    requires d < |docs| && docs[d].offset <= m < docs[d].End()
    ensures |AllLines(docs)| == |lines| && m < |lines|
    ensures AllLines(docs)[m].typ in {Comment, Empty} <==> Overlooked(lines, docs[d].offset, m)
  {
    hide *;
    var start := docs[d].offset;
    ParsedFromAt(docs, lines, d);
    EndIs(docs[d]);
    DocLine(docs[d], lines, m - start);
    AllLinesAt(docs, 0, |lines|, d, m - start);
    ScannedType(lines[start..], m - start);
    assert lines[start..][m - start] == lines[m] && lines[start..][..m - start] == lines[start..m];
    OverlookedIs(lines, start, m);
  }

  lemma OverlookedIs(lines: seq<string>, start: nat, m: nat)
    ensures Overlooked(lines, start, m) <==>
            && start <= m < |lines|
            && !InBlock(lines[m], BlockAt(Closed, lines[start..m]))
            && (AllBlank(lines[m]) || CommentText(lines[m]))
  {
    hide AllBlank, CommentText, BlockAt, InBlock;
  }

  lemma DocLine(doc: Document, lines: seq<string>, x: nat)
    requires ParsedAt(doc, lines) && x < |doc.lines|
    ensures doc.End() == doc.offset + |doc.lines| && doc.offset <= |lines| && x < DocLength(lines[doc.offset..])
    ensures doc.lines[x].typ == Scan(lines[doc.offset..])[x].typ
  {
    hide Scan, DocLength, PlacedAt;
  }

  /** The same for whatever document the line is in. */
  lemma TypeInFile(docs: seq<Document>, lines: seq<string>, m: nat)
    requires Tiles(docs, 0, |lines|) && ParsedFrom(docs, lines) && m < |lines|
    ensures |AllLines(docs)| == |lines|
    ensures AllLines(docs)[m].typ in {Comment, Empty} <==> OverlookedIn(docs, lines, m)
  {
    hide Tiles, ParsedFrom, AllLines, Overlooked;
    var d := TilesFind(docs, 0, |lines|, m);
    TypeOfText(docs, lines, d, m);
  }

  lemma NodeLine(nodes: seq<SimpleObjectNode>, docs: seq<Document>, lines: seq<string>, k: nat, x: nat)
    requires Tiles(docs, 0, |lines|) && ParsedFrom(docs, lines)
    requires Tiles(Docs(nodes), 0, |lines|) && AllLines(Docs(nodes)) == AllLines(docs)
    requires k < |nodes| && x < |nodes[k].doc.lines|
    ensures nodes[k].doc.End() == nodes[k].doc.offset + |nodes[k].doc.lines| <= |lines|
    ensures |AllLines(docs)| == |lines| && AllLines(docs)[nodes[k].doc.offset + x] == nodes[k].doc.lines[x]
    ensures PassedOver(CommentsAndEmptyLines, nodes[k].doc.lines[x]) <==> OverlookedIn(docs, lines, nodes[k].doc.offset + x)
  {
    hide *;
    assert Docs(nodes)[k] == nodes[k].doc;
    AllLinesAt(Docs(nodes), 0, |lines|, k, x);
    TilesBounds(Docs(nodes), 0, |lines|, k);
    EndIs(nodes[k].doc);
    TypeInFile(docs, lines, nodes[k].doc.offset + x);
    PassedOverIs(nodes[k].doc.lines[x]);
  }

  lemma EndIs(doc: Document)
    ensures doc.End() == doc.offset + |doc.lines|
  {
  }

  lemma PassedOverIs(l: Line)
    ensures PassedOver(CommentsAndEmptyLines, l) <==> l.typ in {Comment, Empty}
  {
  }

  /** The line at m is one of these: the node's line, the file's line, and overlooked or not. */
  ghost predicate Agrees(docs: seq<Document>, lines: seq<string>, doc: Document, m: nat)
    reads docs, doc, AllLines(docs), doc.lines
  {
    && doc.offset <= m < doc.End() && m < |AllLines(docs)|
    && AllLines(docs)[m] == doc.lines[m - doc.offset]
    && (PassedOver(CommentsAndEmptyLines, doc.lines[m - doc.offset]) <==> OverlookedIn(docs, lines, m))
  }

  lemma AboveIsContent(nodes: seq<SimpleObjectNode>, docs: seq<Document>, lines: seq<string>, k: nat, lineNum: nat, line: Line?)
    requires Tiles(docs, 0, |lines|) && ParsedFrom(docs, lines) && |AllLines(docs)| == |lines|
    requires Tiles(Docs(nodes), 0, |lines|) && AllLines(Docs(nodes)) == AllLines(docs)
    requires k < |nodes| && 0 < lineNum && nodes[k].doc.offset <= lineNum - 1 < nodes[k].doc.End()
    requires NearestAbove(CommentsAndEmptyLines, nodes[k].doc.lines, lineNum - 1 - nodes[k].doc.offset, line)
    ensures NearestContent(docs, lines, nodes[k].doc.offset, lineNum, line)
  {
    hide *;
    var doc := nodes[k].doc;
    EndIs(doc);
    LineAgrees(nodes, docs, lines, k, lineNum - 1);
    forall m | doc.offset <= m < lineNum ensures Agrees(docs, lines, doc, m) {
      LineAgrees(nodes, docs, lines, k, m);
    }
    if line == null {
      NothingFound(docs, lines, doc, lineNum);
    } else {
      SomethingFound(docs, lines, doc, lineNum, line);
    }
  }

  lemma LineAgrees(nodes: seq<SimpleObjectNode>, docs: seq<Document>, lines: seq<string>, k: nat, m: nat)
    requires Tiles(docs, 0, |lines|) && ParsedFrom(docs, lines)
    requires Tiles(Docs(nodes), 0, |lines|) && AllLines(Docs(nodes)) == AllLines(docs)
    requires k < |nodes| && nodes[k].doc.offset <= m < nodes[k].doc.offset + |nodes[k].doc.lines|
    ensures Agrees(docs, lines, nodes[k].doc, m) && nodes[k].doc.offset + |nodes[k].doc.lines| <= |lines|
  {
    hide *;
    EndIs(nodes[k].doc);
    NodeLine(nodes, docs, lines, k, m - nodes[k].doc.offset);
    AgreesIs(docs, lines, nodes[k].doc, m);
  }

  lemma AgreesIs(docs: seq<Document>, lines: seq<string>, doc: Document, m: nat)
    requires doc.offset <= m < doc.offset + |doc.lines| && m < |AllLines(docs)|
    requires AllLines(docs)[m] == doc.lines[m - doc.offset]
    requires PassedOver(CommentsAndEmptyLines, doc.lines[m - doc.offset]) <==> OverlookedIn(docs, lines, m)
    ensures Agrees(docs, lines, doc, m)
  {
    hide AllLines, PassedOver, OverlookedIn;
  }

  lemma NothingFound(docs: seq<Document>, lines: seq<string>, doc: Document, lineNum: nat)
    requires |AllLines(docs)| == |lines| && doc.offset < lineNum <= |lines| && lineNum <= doc.offset + |doc.lines|
    requires forall m :: doc.offset <= m < lineNum ==> Agrees(docs, lines, doc, m)
    requires NearestAbove(CommentsAndEmptyLines, doc.lines, lineNum - 1 - doc.offset, null)
    ensures NearestContent(docs, lines, doc.offset, lineNum, null)
  {
    hide AllLines, PassedOver, OverlookedIn;
    forall m | doc.offset <= m < lineNum ensures OverlookedIn(docs, lines, m) {
      assert Agrees(docs, lines, doc, m);
    }
  }

  lemma SomethingFound(docs: seq<Document>, lines: seq<string>, doc: Document, lineNum: nat, line: Line)
    requires |AllLines(docs)| == |lines| && doc.offset < lineNum <= |lines| && lineNum <= doc.offset + |doc.lines|
    requires forall m :: doc.offset <= m < lineNum ==> Agrees(docs, lines, doc, m)
    requires NearestAbove(CommentsAndEmptyLines, doc.lines, lineNum - 1 - doc.offset, line)
    ensures NearestContent(docs, lines, doc.offset, lineNum, line)
  {
    hide AllLines, PassedOver, OverlookedIn;
    var i := lineNum - 1 - doc.offset;
    var j :| 0 <= j <= i && doc.lines[j] == line && !PassedOver(CommentsAndEmptyLines, line)
             && forall m :: j < m <= i ==> PassedOver(CommentsAndEmptyLines, doc.lines[m]);
    var at := doc.offset + j;
    assert Agrees(docs, lines, doc, at);
    forall m | at < m < lineNum ensures OverlookedIn(docs, lines, m) {
      assert Agrees(docs, lines, doc, m);
      assert PassedOver(CommentsAndEmptyLines, doc.lines[m - doc.offset]);
    }
    assert AllLines(docs)[at] == line && !OverlookedIn(docs, lines, at);
  }

  /** The search leaves the parsed documents, whose line objects these are, as they are. */
  method FindInParsed(nodes: seq<SimpleObjectNode>, start: int, ghost docs: seq<Document>, ghost lines: seq<string>, ghost owned: set<Line>)
    returns (line: Line?)
    requires owned == LineSet(docs) && ParsedFrom(docs, lines) && Tiles(Docs(nodes), 0, |lines|)
    ensures ParsedFrom(docs, lines)
    ensures !(0 <= start < |lines|) ==> line == null
    ensures 0 <= start < |lines| ==>
      exists k :: (0 <= k < |nodes| && nodes[k].doc.offset <= start < nodes[k].doc.End()
                   && NearestAbove(CommentsAndEmptyLines, nodes[k].doc.lines, start - nodes[k].doc.offset, line))
  {
    hide *;
    line := FindLine(nodes, start, CommentsAndEmptyLines, |lines|);
  }

  /** What completion looks for above the cursor: in a parsed file, the nearest line above in the same
      object that is neither blank nor a comment, block text apart. */
  method FindPreviousContent(nodes: seq<SimpleObjectNode>, lineNum: int, ghost docs: seq<Document>, ghost lines: seq<string>)
    returns (line: Line?)
    requires Tiles(docs, 0, |lines|) && ParsedFrom(docs, lines)
    requires Tiles(Docs(nodes), 0, |lines|) && AllLines(Docs(nodes)) == AllLines(docs)
    ensures !(0 < lineNum <= |lines|) ==> line == null
    ensures |AllLines(docs)| == |lines|
    ensures 0 < lineNum <= |lines| ==>
      exists k :: (0 <= k < |nodes| && nodes[k].doc.offset < lineNum <= nodes[k].doc.End()
                   && NearestContent(docs, lines, nodes[k].doc.offset, lineNum, line))
  {
    hide *;
    AllLinesLength(docs, 0, |lines|);
    line := FindInParsed(nodes, lineNum - 1, docs, lines, LineSet(docs));
    if 0 < lineNum <= |lines| {
      ghost var k :| 0 <= k < |nodes| && nodes[k].doc.offset <= lineNum - 1 < nodes[k].doc.End()
                     && NearestAbove(CommentsAndEmptyLines, nodes[k].doc.lines, lineNum - 1 - nodes[k].doc.offset, line);
      AboveIsContent(nodes, docs, lines, k, lineNum, line);
    }
  }

  /** From here up to the cursor, the line is the last one that is not overlooked, or there is none. */
  ghost predicate NearestContent(docs: seq<Document>, lines: seq<string>, from: nat, lineNum: int, line: Line?)
    reads docs
    requires |AllLines(docs)| == |lines|
  {
    && lineNum <= |lines|
    && (line == null ==> forall m :: from <= m < lineNum ==> OverlookedIn(docs, lines, m))
    && (line != null ==>
          exists m :: (from <= m < lineNum && AllLines(docs)[m] == line && !OverlookedIn(docs, lines, m)
                       && forall j :: m < j < lineNum ==> OverlookedIn(docs, lines, j)))
  }
}
