/** From the text of a whole file to its object nodes: one for each mapping tree and one for each
    element of a root list. */
module FileNodes {
  import opened Strings
  import opened YamlLines
  import opened BlockStyle
  import opened ParserInversion
  import opened Documents
  import opened SimpleObjects
  import opened FileInversion
  import opened ObjectNodes
  import opened RootLists

  // ---------------------------------------------------------------- paths below the root

  /** All structural rows have paths that start so. */
  predicate PathsStart(rows: seq<Row>, start: string) {
    forall r :: 0 <= r < |rows| ==> rows[r].Structure? ==> start <= rows[r].path
  }

  lemma StartsLonger(rows: seq<Row>, start: string, shorter: string)
    requires PathsStart(rows, start) && shorter <= start
    ensures PathsStart(rows, shorter)
  {
  }

  lemma {:induction false} ValueStarts(v: Value, path: string)
    ensures PathsStart(ValueRows(v, path), path)
    decreases v
  {
    match v
    case Leaf =>
    case Body(_, _) =>
    case Map(n, es) =>
      EntriesStart(es, n, path);
      StartsLonger(EntryRows(es, n, path), path + ".", path);
    case Items(column, items) => ItemsStart(items, column, path, 0);
  }

  lemma {:induction false} EntriesStart(es: seq<Entry>, indent: nat, path: string)
    ensures PathsStart(EntryRows(es, indent, path), path + ".")
    decreases es
  {
    if es != [] {
      var below := path + "." + es[0].key;
      ValueStarts(es[0].value, below);
      StartsLonger(ValueRows(es[0].value, below), below, path + ".");
      EntriesStart(es[1..], indent, path);
    }
  }

  lemma {:induction false} ItemStarts(item: Item, column: nat, path: string)
    ensures PathsStart(OneItemRows(item, column, path), path)
    decreases item
  {
    if item.Object? {
      var below := path + "." + item.first.key;
      ValueStarts(item.first.value, below);
      StartsLonger(ValueRows(item.first.value, below), below, path);
      EntriesStart(item.rest, column + 2, path);
      StartsLonger(EntryRows(item.rest, column + 2, path), path + ".", path);
    }
  }

  lemma {:induction false} ItemsStart(items: seq<Item>, column: nat, path: string, i: nat)
    ensures PathsStart(ItemRows(items, column, path, i), path)
    decreases items
  {
    hide ElementPath;
    if items != [] {
      ItemStarts(items[0], column, ElementPath(path, i));
      ElementStarts(path, i);
      StartsLonger(OneItemRows(items[0], column, ElementPath(path, i)), ElementPath(path, i), path);
      ItemsStart(items[1..], column, path, i + 1);
    }
  }

  lemma ElementStarts(path: string, i: nat)
    ensures path <= ElementPath(path, i)
  {
  }

  /** Outside root lists every path goes on with a dot. */
  lemma PlainDocStarts(d: Doc)
    requires WellFormedDoc(d) && !d.root.Items?
    ensures PathsStart(DocRows(d), "$.")
  {
    if d.root.Map? {
      EntriesStart(d.root.entries, d.root.indent, "$");
    }
  }

  // ---------------------------------------------------------------- documents

  lemma LineOfRow(l: Line, row: Row)
    requires LineIsRow(l, row) && PathsStart([row], "$.")
    ensures !IsRootListLine(l)
  {
    if row.Structure? && row.typ.IsList() {
      assert [row][0].path[1] == '.';
    }
  }

  lemma SeparatorLine(lines: seq<Line>, texts: seq<string>, n: nat)
    requires Parsed(lines, texts) && n < |lines| && n < |texts| && texts[n] == SEPARATOR
    ensures !IsRootListLine(lines[n])
  {
    hide BlockAt;
    assert lines[n].SameText(Scan(texts)[n]);
  }

  lemma PlainDocLine(doc: Document, d: Doc, rest: seq<string>, i: nat)
    requires WellFormedDoc(d) && !d.root.Items? && (rest != [] ==> rest[0] == SEPARATOR)
    requires Parsed(doc.lines, Texts(DocRows(d)) + rest) && DocumentIsTree(doc, d) && i < |doc.lines|
    ensures !IsRootListLine(doc.lines[i])
  {
    hide *;
    var rows, texts := DocRows(d), Texts(DocRows(d)) + rest;
    ParserInvertsPrinter(d, rest);
    ParsedLength(doc.lines, texts);
    if i < |rows| {
      PlainDocStarts(d);
      RowOfLine(doc, d, i);
      StartsAt(rows, i);
      LineOfRow(doc.lines[i], rows[i]);
    } else {
      SeparatorLine(doc.lines, texts, i);
    }
  }

  lemma RowOfLine(doc: Document, d: Doc, i: nat)
    requires DocumentIsTree(doc, d) && i < |DocRows(d)|
    ensures i < |doc.lines| && LineIsRow(doc.lines[i], DocRows(d)[i])
  {
    hide DocRows, LineIsRow;
  }

  lemma StartsAt(rows: seq<Row>, i: nat)
    requires PathsStart(rows, "$.") && i < |rows|
    ensures PathsStart([rows[i]], "$.")
  {
  }

  /** A printed document that is not a list is not taken for one. */
  lemma PlainDocRecognized(doc: Document, d: Doc, rest: seq<string>)
    requires WellFormedDoc(d) && !d.root.Items? && (rest != [] ==> rest[0] == SEPARATOR)
    requires Parsed(doc.lines, Texts(DocRows(d)) + rest) && DocumentIsTree(doc, d)
    ensures !IsRootList(doc.lines)
  {
    hide DocRows, WellFormedDoc, DocumentIsTree, IsRootListLine, Parsed;
    forall l | l in doc.lines ensures !IsRootListLine(l) {
      var i :| 0 <= i < |doc.lines| && doc.lines[i] == l;
      PlainDocLine(doc, d, rest, i);
    }
  }

  lemma ParsedLength(lines: seq<Line>, texts: seq<string>)
    requires Parsed(lines, texts)
    ensures |lines| == DocLength(texts)
  {
  }

  // ---------------------------------------------------------------- nodes

  ghost function NodeLines(nodes: seq<SimpleObjectNode>): (lines: set<Line>)
    reads nodes, Docs(nodes)
    ensures forall k :: 0 <= k < |nodes| ==> forall l :: l in nodes[k].doc.lines ==> l in lines
  {
    set k, l | 0 <= k < |nodes| && l in nodes[k].doc.lines :: l
  }

  /** A node for element k, with everything in it under root index k. */
  ghost predicate IsElement(node: SimpleObjectNode, k: nat)
    reads node, node.doc, node.doc.lines
  {
    && node.isListElement && node.listElementIndex == k && node.doc.lines != []
    && forall x :: 0 <= x < |node.doc.lines| ==> InRootElement(node.doc.lines[x], k)
  }

  /** The nodes that a printed tree stands for: one for each element, or one for the whole document. */
  ghost predicate NodesAreTree(doc: Document, nodes: seq<SimpleObjectNode>, d: Doc)
    reads nodes, Docs(nodes), NodeLines(nodes)
  {
    if d.root.Items? then
      |nodes| == |d.root.items| && forall k :: 0 <= k < |nodes| ==> IsElement(nodes[k], k)
    else
      |nodes| == 1 && !nodes[0].isListElement && nodes[0].doc == doc
  }

  lemma PlainNodes(doc: Document, docs: seq<Document>, nodes: seq<SimpleObjectNode>)
    requires NodesOf(doc, docs, nodes) && !IsRootList(doc.lines)
    ensures |nodes| == 1 && !nodes[0].isListElement && nodes[0].doc == doc
  {
    hide IsRootList, Tiles, AllLines, NamedFrom;
  }

  lemma DocumentNodesAreTree(doc: Document, docs: seq<Document>, nodes: seq<SimpleObjectNode>, d: Doc, rest: seq<string>)
    requires WellFormedDoc(d) && (rest != [] ==> rest[0] == SEPARATOR)
    requires Parsed(doc.lines, Texts(DocRows(d)) + rest) && DocumentIsTree(doc, d) && NodesOf(doc, docs, nodes)
    ensures NodesAreTree(doc, nodes, d)
  {
    hide NodesOf, Parsed, WellFormedDoc, DocRows, DocumentIsTree, InRootElement;
    if d.root.Items? {
      RootListNodes(d, rest, doc, docs, nodes);
    } else {
      PlainDocRecognized(doc, d, rest);
      PlainNodes(doc, docs, nodes);
    }
  }

  lemma PrintedDocSucceeds(doc: Document, d: Doc, rest: seq<string>)
    requires WellFormedDoc(d) && (rest != [] ==> rest[0] == SEPARATOR)
    requires Parsed(doc.lines, Texts(DocRows(d)) + rest) && DocumentIsTree(doc, d)
    ensures !Fails(doc)
  {
    hide Parsed, WellFormedDoc, DocRows, DocumentIsTree, IsRootList, Splittable;
    if d.root.Items? {
      RootListCuts(d, rest, doc.lines);
    } else {
      PlainDocRecognized(doc, d, rest);
    }
  }

  lemma StandsForParts(doc: Document, lines: seq<string>, ds: seq<Doc>)
    requires ds != [] && StandsFor(doc, lines, ds)
    ensures Parsed(doc.lines, Texts(DocRows(ds[0])) + AfterFirst(ds))
  {
    hide Parsed;
    FileLinesIs(ds);
  }

  /** Main theorem: reading a file that was printed from these trees succeeds, and tree by tree yields
      its nodes. */
  method ReadPrintedFile(content: string, ghost ds: seq<Doc>)
    returns (r: NodesResult, ghost fileDocs: seq<Document>, ghost parts: seq<seq<Document>>, ghost groups: seq<seq<SimpleObjectNode>>)
    requires WellFormedFile(ds) && Lines(content) == FileLines(ds)
    ensures r.Nodes? && r.nodes == Concat(groups) && |groups| == |parts| == |fileDocs| == |ds|
    ensures forall d :: 0 <= d < |ds| ==> NodesOf(fileDocs[d], parts[d], groups[d])
    ensures forall d :: 0 <= d < |ds| ==> DocumentIsTree(fileDocs[d], ds[d]) && NodesAreTree(fileDocs[d], groups[d], ds[d])
  {
    hide *;
    r, fileDocs, parts, groups := ParseSimpleObjectFile(content);
    FileInverts(fileDocs, content, ds);
    forall d | 0 <= d < |ds|
      ensures !Fails(fileDocs[d])
      ensures r.Nodes? ==> NodesAreTree(fileDocs[d], groups[d], ds[d])
    {
      WellFormedAt(ds, d);
      StandsForParts(fileDocs[d], Lines(content), ds[d..]);
      AfterFirstIs(ds[d..]);
      PrintedDocSucceeds(fileDocs[d], ds[d], AfterFirst(ds[d..]));
      if r.Nodes? {
        DocumentNodesAreTree(fileDocs[d], parts[d], groups[d], ds[d], AfterFirst(ds[d..]));
      }
    }
  }

  lemma WellFormedAt(ds: seq<Doc>, d: nat)
    requires WellFormedFile(ds) && d < |ds|
    ensures WellFormedDoc(ds[d]) && ds[d..] != [] && ds[d..][0] == ds[d]
  {
    hide WellFormedDoc, DocRows;
  }
}
