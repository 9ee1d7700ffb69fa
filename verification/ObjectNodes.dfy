/** The object nodes of a file: one per document, or one per element of a root-list document,
    and what is looked up in them. */
module ObjectNodes {
  import opened Strings
  import opened YamlLines
  import opened Documents
  import opened SimpleObjects

  class SimpleObjectNode {
    var kind: string
    var version: string
    var doc: Document
    var isListElement: bool
    var listElementIndex: nat

    constructor (doc: Document)
      ensures this.doc == doc && !isListElement && listElementIndex == 0 && kind == "" && version == ""
    {
      this.doc := doc;
      kind, version, isListElement, listElementIndex := "", "", false, 0;
    }

    /** The path that is really searched for. */
    function Resolve(path: string): string
      reads this
    {
      if isListElement && !("$[" <= path) && |path| > 0 then "$[" + Itoa(listElementIndex) + "]" + path[1..] else path
    }

    /** The first line of the node with the resolved path. */
    method FindLineByPath(path: string) returns (line: Line?)
      ensures line == null ==> forall l :: l in doc.lines ==> l.path != Resolve(path)
      ensures line != null ==>
        && line.path == Resolve(path)
        && exists i :: (0 <= i < |doc.lines| && doc.lines[i] == line
                        && forall k :: 0 <= k < i ==> doc.lines[k].path != Resolve(path))
    {
      var wanted := path;
      if isListElement && !("$[" <= path) {
        if |path| > 0 {
          wanted := path[..0] + "$[" + Itoa(listElementIndex) + "]" + path[1..];
          assert path[..0] + "$[" == "$[";
        }
      }
      for i := 0 to |doc.lines|
        invariant forall k :: 0 <= k < i ==> doc.lines[k].path != wanted
      {
        if doc.lines[i].path == wanted {
          return doc.lines[i];
        }
      }
      line := null;
    }
  }

  // ---------------------------------------------------------------- building the nodes

  /** A line whose path ends, after its first dot, in just this name replaces the value. */
  function Inferred(line: Line, name: string, before: string): string
    reads line
  {
    var dot := IndexOf(line.path, '.');
    if dot != -1 && line.path[dot + 1..] == name then line.Info().MapValue() else before
  }

  /** The value at the last line of that kind. */
  function InferText(lines: seq<Line>, name: string): string
    reads lines
  {
    if lines == [] then "" else Inferred(lines[|lines| - 1], name, InferText(lines[..|lines| - 1], name))
  }

  /** Behind the path's first dot stands just this name. */
  predicate NamedBy(path: string, name: string) {
    exists h :: 0 <= h < |path| && path[h] == '.' && '.' !in path[..h] && path[h + 1..] == name
  }

  lemma NamedByFirstDot(path: string, name: string)
    ensures NamedBy(path, name) <==> IndexOf(path, '.') != -1 && path[IndexOf(path, '.') + 1..] == name
  {
    var dot := IndexOf(path, '.');
    if NamedBy(path, name) {
      var h :| 0 <= h < |path| && path[h] == '.' && '.' !in path[..h] && path[h + 1..] == name;
      assert path == path[..h] + ['.'] + path[h + 1..];
      IndexOfSplit(path[..h], '.', path[h + 1..]);
    }
  }

  /** The value is that of the last line with such a path; it is empty if there is none. */
  lemma {:induction false} InferTextLast(lines: seq<Line>, name: string) returns (i: nat)
    ensures if exists l :: l in lines && NamedBy(l.path, name)
            then i < |lines| && NamedBy(lines[i].path, name) && InferText(lines, name) == lines[i].Info().MapValue()
                 && forall j :: i < j < |lines| ==> !NamedBy(lines[j].path, name)
            else InferText(lines, name) == ""
  {
    hide *;
    i := 0;
    InferTextStep(lines, name);
    if lines != [] {
      var init, last := lines[..|lines| - 1], lines[|lines| - 1];
      if NamedBy(last.path, name) {
        i := |init|;
      } else {
        i := InferTextLast(init, name);
        assert lines == init + [last];
      }
    }
  }

  lemma InferTextStep(lines: seq<Line>, name: string)
    ensures InferText(lines, name) ==
            if lines == [] then ""
            else if NamedBy(lines[|lines| - 1].path, name) then lines[|lines| - 1].Info().MapValue()
            else InferText(lines[..|lines| - 1], name)
  {
    hide NamedBy, LineInfo.MapValue;
    if lines != [] {
      NamedByFirstDot(lines[|lines| - 1].path, name);
    }
  }

  method InferFrom(node: SimpleObjectNode, line: Line)
    modifies node
    ensures node.doc == old(node.doc) && node.isListElement == old(node.isListElement)
    ensures node.kind == Inferred(line, "kind", old(node.kind))
    ensures node.version == Inferred(line, "apiVersion", old(node.version))
  {
    var dotIndex := IndexOf(line.path, '.');
    if dotIndex == -1 {
      return;
    }
    if line.path[dotIndex + 1..] == "kind" {
      node.kind := line.Info().MapValue();
    }
    if line.path[dotIndex + 1..] == "apiVersion" {
      node.version := line.Info().MapValue();
    }
  }

  method ParseSimpleObjectNode(doc: Document) returns (node: SimpleObjectNode)
    ensures fresh(node) && node.doc == doc && !node.isListElement
    ensures node.kind == InferText(doc.lines, "kind")
    ensures node.version == InferText(doc.lines, "apiVersion")
  {
    hide Inferred;
    node := new SimpleObjectNode(doc);
    var lines := doc.lines;
    for i := 0 to |lines|
      invariant node.doc == doc && !node.isListElement && fresh(node)
      invariant node.kind == InferText(lines[..i], "kind")
      invariant node.version == InferText(lines[..i], "apiVersion")
    {
      InferFrom(node, lines[i]);
      assert lines[..i + 1][..i] == lines[..i];
    }
    assert lines[..|lines|] == lines;
  }

  lemma OneDocument(doc: Document, node: SimpleObjectNode)
    requires doc.lines != [] && node.doc == doc
    ensures Docs([node]) == [doc] && Tiles([doc], doc.offset, doc.End()) && AllLines([doc]) == doc.lines
  {
    assert [doc][..0] == [];
  }

  predicate IsRootListLine(l: Line)
    reads l
  {
    l.typ.IsList() && "$[" <= l.path
  }

  method DocIsList(doc: Document) returns (b: bool)
    ensures b <==> IsRootList(doc.lines)
  {
    for i := 0 to |doc.lines|
      invariant forall k :: 0 <= k < i ==> !IsRootListLine(doc.lines[k])
    {
      if IsRootListLine(doc.lines[i]) {
        return true;
      }
    }
    b := false;
  }

  /** The documents of the nodes. */
  function Docs(nodes: seq<SimpleObjectNode>): (docs: seq<Document>)
    reads nodes
    ensures |docs| == |nodes| && forall i :: 0 <= i < |nodes| ==> docs[i] == nodes[i].doc
  {
    if nodes == [] then [] else Docs(nodes[..|nodes| - 1]) + [nodes[|nodes| - 1].doc]
  }

  /** These nodes are elements first, first + 1, ... of one root list. */
  ghost predicate ElementNodes(nodes: seq<SimpleObjectNode>)
    reads nodes
  {
    forall i :: 0 <= i < |nodes| ==> nodes[i].isListElement && nodes[i].listElementIndex == i
  }

  /** Kind and version are those that the node's own lines give. */
  ghost predicate Named(node: SimpleObjectNode)
    reads node, node.doc, node.doc.lines
  {
    node.kind == InferText(node.doc.lines, "kind") && node.version == InferText(node.doc.lines, "apiVersion")
  }

  ghost predicate Within(some: seq<Line>, lines: seq<Line>) {
    forall i :: 0 <= i < |some| ==> some[i] in lines
  }

  /** Each node has kind and version from the lines of its piece. */
  ghost predicate NamedFrom(lines: seq<Line>, docs: seq<Document>, nodes: seq<SimpleObjectNode>)
    reads lines, docs, nodes
  {
    && |docs| == |nodes|
    && forall i :: 0 <= i < |nodes| ==>
         && nodes[i].doc == docs[i] && Within(docs[i].lines, lines)
         && nodes[i].kind == InferText(docs[i].lines, "kind")
         && nodes[i].version == InferText(docs[i].lines, "apiVersion")
  }

  lemma {:induction false} PiecesWithin(docs: seq<Document>, i: nat)
    requires i < |docs|
    ensures Within(docs[i].lines, AllLines(docs))
    decreases |docs|
  {
    if i < |docs| - 1 {
      PiecesWithin(docs[..|docs| - 1], i);
    }
  }

  lemma NamedPieces(lines: seq<Line>, docs: seq<Document>, nodes: seq<SimpleObjectNode>)
    requires Docs(nodes) == docs && AllLines(docs) == lines
    requires forall i :: 0 <= i < |nodes| ==> Named(nodes[i])
    ensures NamedFrom(lines, docs, nodes)
  {
    hide AllLines, InferText;
    forall i | 0 <= i < |nodes| ensures Within(docs[i].lines, lines) {
      PiecesWithin(docs, i);
    }
  }

  method ElementsOf(docs: seq<Document>) returns (nodes: seq<SimpleObjectNode>)
    ensures fresh(nodes) && Docs(nodes) == docs && ElementNodes(nodes)
    ensures forall i :: 0 <= i < |nodes| ==> Named(nodes[i])
  {
    hide InferText;
    nodes := [];
    for i := 0 to |docs|
      invariant |nodes| == i && fresh(nodes)
      invariant forall k :: 0 <= k < i ==> Named(nodes[k])
      invariant forall k :: 0 <= k < i ==> nodes[k].doc == docs[k] && nodes[k].isListElement && nodes[k].listElementIndex == k
    {
      var node := ParseSimpleObjectNode(docs[i]);
      node.isListElement := true;
      node.listElementIndex := i;
      nodes := nodes + [node];
    }
  }

  ghost predicate IsRootList(lines: seq<Line>)
    reads lines
  {
    exists l :: l in lines && IsRootListLine(l)
  }

  /** The pieces of one document, and the nodes for them. */
  ghost predicate NodesOf(doc: Document, docs: seq<Document>, nodes: seq<SimpleObjectNode>)
    reads doc, doc.lines, docs, nodes
  {
    && Docs(nodes) == docs && NamedFrom(doc.lines, docs, nodes)
    && Tiles(docs, doc.offset, doc.End())
    && AllLines(docs) == doc.lines
    && (IsRootList(doc.lines) ==>
          && ElementNodes(nodes)
          && var paths := Paths(doc.lines);
             Splittable(paths) && StartAtCuts(docs, doc.offset, Cuts(paths)))
    && (!IsRootList(doc.lines) ==> docs == [doc] && !nodes[0].isListElement)
  }

  datatype NodesResult = Nodes(nodes: seq<SimpleObjectNode>) | NodesFailed(why: Failure)

  lemma NamedIs(node: SimpleObjectNode)
    ensures Named(node) <==>
            node.kind == InferText(node.doc.lines, "kind") && node.version == InferText(node.doc.lines, "apiVersion")
  {
  }

  lemma SingleNodeOf(doc: Document, node: SimpleObjectNode)
    requires doc.lines != [] && node.doc == doc && !node.isListElement && !IsRootList(doc.lines) && Named(node)
    ensures NodesOf(doc, [doc], [node])
  {
    OneDocument(doc, node);
  }

  lemma ListNodesOf(doc: Document, docs: seq<Document>, nodes: seq<SimpleObjectNode>)
    requires IsRootList(doc.lines) && Docs(nodes) == docs && ElementNodes(nodes) && NamedFrom(doc.lines, docs, nodes)
    requires Tiles(docs, doc.offset, doc.End()) && AllLines(docs) == doc.lines
    requires Splittable(Paths(doc.lines)) && StartAtCuts(docs, doc.offset, Cuts(Paths(doc.lines)))
    ensures NodesOf(doc, docs, nodes)
  {
    hide IsRootList, ElementNodes, NamedFrom, Tiles, AllLines, StartAtCuts, Paths, Cuts, Splittable;
  }

  /** One turn of ParseSimpleObjectFile's loop. */
  method DocumentNodes(doc: Document) returns (r: NodesResult, ghost docs: seq<Document>)
    requires doc.lines != []
    ensures r.Nodes? ==> fresh(r.nodes) && NodesOf(doc, docs, r.nodes)
    ensures r.NodesFailed? <==> IsRootList(doc.lines) && !Splittable(Paths(doc.lines))
  {
    hide *;
    docs := [doc];
    var isList := DocIsList(doc);
    if isList {
      var split := SplitListDocument(doc);
      if split.SplitFailed? {
        return NodesFailed(split.why), [];
      }
      docs := split.docs;
      var nodes := ElementsOf(split.docs);
      NamedPieces(doc.lines, split.docs, nodes);
      ListNodesOf(doc, split.docs, nodes);
      r := Nodes(nodes);
    } else {
      var node := ParseSimpleObjectNode(doc);
      NamedIs(node);
      SingleNodeOf(doc, node);
      r := Nodes([node]);
    }
  }

  // ---------------------------------------------------------------- whole files

  lemma {:induction false} TilesConcat(a: seq<Document>, b: seq<Document>, start: nat, middle: nat, end: nat)
    requires Tiles(a, start, middle) && Tiles(b, middle, end)
    ensures Tiles(a + b, start, end) && AllLines(a + b) == AllLines(a) + AllLines(b)
    decreases |b|
  {
    if b == [] {
      assert a + b == a;
    } else {
      TilesConcat(a, b[..|b| - 1], start, middle, b[|b| - 1].offset);
      assert (a + b)[..|a + b| - 1] == a + b[..|b| - 1];
    }
  }

  lemma {:induction false} DocsConcat(a: seq<SimpleObjectNode>, b: seq<SimpleObjectNode>)
    ensures Docs(a + b) == Docs(a) + Docs(b)
  {
  }

  /** The text of a mapping line is what the first pass makes of this raw line. */
  ghost predicate ReadFrom(l: Line, raw: string)
    reads l
  {
    l.typ.IsMapping() ==> l.SameText(Classify(raw))
  }

  ghost predicate ReadLines(lines: seq<Line>, raws: seq<string>)
    reads lines
  {
    |lines| == |raws| && forall i :: 0 <= i < |lines| ==> ReadFrom(lines[i], raws[i])
  }

  lemma ReadFromScan(l: Line, lines: seq<string>, i: nat)
    requires i < DocLength(lines) && l.SameText(Scan(lines)[i])
    ensures ReadFrom(l, lines[i])
  {
  }

  lemma ParsedAtReads(doc: Document, lines: seq<string>)
    requires ParsedAt(doc, lines)
    ensures doc.End() <= |lines| && ReadLines(doc.lines, lines[doc.offset..doc.End()])
  {
    var rest := lines[doc.offset..];
    assert Parsed(doc.lines, rest);
    forall i | 0 <= i < |doc.lines| ensures ReadFrom(doc.lines[i], lines[doc.offset + i]) {
      ReadFromScan(doc.lines[i], rest, i);
    }
    hide ReadFrom, DocLength;
    assert forall i :: 0 <= i < |doc.lines| ==> lines[doc.offset..doc.End()][i] == lines[doc.offset + i];
  }

  lemma {:induction false} FileReads(docs: seq<Document>, lines: seq<string>, end: nat)
    requires Tiles(docs, 0, end) && end <= |lines| && ParsedFrom(docs, lines)
    ensures ReadLines(AllLines(docs), lines[..end])
    decreases |docs|
  {
    hide *;
    if docs == [] {
      NothingReads(docs, lines, end);
    } else {
      var init, last := docs[..|docs| - 1], docs[|docs| - 1];
      LastParts(docs, lines, end);
      TilesStart(init, 0, last.offset);
      FileReads(init, lines, last.offset);
      ParsedAtReads(last, lines);
      assert lines[..end] == lines[..last.offset] + lines[last.offset..end];
      ReadsConcat(AllLines(init), last.lines, lines[..last.offset], lines[last.offset..end]);
    }
  }

  lemma NothingReads(docs: seq<Document>, lines: seq<string>, end: nat)
    requires docs == [] && Tiles(docs, 0, end)
    ensures end == 0 && ReadLines(AllLines(docs), [])
  {
  }

  lemma LastParts(docs: seq<Document>, lines: seq<string>, end: nat)
    requires docs != [] && Tiles(docs, 0, end) && ParsedFrom(docs, lines)
    ensures var init, last := docs[..|docs| - 1], docs[|docs| - 1];
            && Tiles(init, 0, last.offset) && ParsedFrom(init, lines)
            && last.End() == end && last.offset <= end && ParsedAt(last, lines)
            && AllLines(docs) == AllLines(init) + last.lines
  {
    hide ParsedAt;
  }

  lemma ReadsConcat(a: seq<Line>, b: seq<Line>, x: seq<string>, y: seq<string>)
    requires ReadLines(a, x) && ReadLines(b, y)
    ensures ReadLines(a + b, x + y)
  {
    hide ReadFrom;
  }

  lemma TakeDocument(docs: seq<Document>, k: nat, end: nat)
    requires k < |docs| && Tiles(docs, 0, end)
    ensures Tiles(docs[..k], 0, docs[k].offset) && docs[k].lines != []
    ensures AllLines(docs[..k + 1]) == AllLines(docs[..k]) + docs[k].lines
    decreases |docs|
  {
    assert docs[..k + 1][..k] == docs[..k];
    if k < |docs| - 1 {
      var init := docs[..|docs| - 1];
      TakeDocument(init, k, docs[|docs| - 1].offset);
      assert init[..k] == docs[..k] && init[..k + 1] == docs[..k + 1];
    }
  }

  /** All the groups' nodes in order. */
  function Concat(groups: seq<seq<SimpleObjectNode>>): seq<SimpleObjectNode> {
    if groups == [] then [] else Concat(groups[..|groups| - 1]) + groups[|groups| - 1]
  }

  lemma ConcatSnoc(groups: seq<seq<SimpleObjectNode>>, more: seq<SimpleObjectNode>)
    ensures Concat(groups + [more]) == Concat(groups) + more
  {
    assert (groups + [more])[..|groups|] == groups;
  }

  /** The nodes of the first documents of a file. */
  ghost predicate NodesSoFar(docs: seq<Document>, k: nat, pieces: seq<Document>, nodes: seq<SimpleObjectNode>)
    reads docs, pieces, nodes
  {
    && k <= |docs|
    && Docs(nodes) == pieces
    && Tiles(pieces, 0, if k < |docs| then docs[k].offset else if docs == [] then 0 else docs[|docs| - 1].End())
    && AllLines(pieces) == AllLines(docs[..k])
  }

  lemma NextNodes(docs: seq<Document>, k: nat, end: nat, pieces: seq<Document>, nodes: seq<SimpleObjectNode>,
                  more: seq<Document>, moreNodes: seq<SimpleObjectNode>)
    requires Tiles(docs, 0, end) && k < |docs| && NodesSoFar(docs, k, pieces, nodes)
    requires NodesOf(docs[k], more, moreNodes)
    ensures NodesSoFar(docs, k + 1, pieces + more, nodes + moreNodes)
  {
    var doc := docs[k];
    assert Docs(moreNodes) == more && Tiles(more, doc.offset, doc.End()) && AllLines(more) == doc.lines;
    TilesConcat(pieces, more, 0, doc.offset, doc.End());
    DocsConcat(nodes, moreNodes);
    TakeDocument(docs, k, end);
    if k + 1 < |docs| {
      TilesBounds(docs, 0, end, k + 1);
    }
    hide Tiles, AllLines, NodesOf, Docs;
  }

  lemma NodesStart(docs: seq<Document>, end: nat)
    requires Tiles(docs, 0, end)
    ensures NodesSoFar(docs, 0, [], Concat([]))
  {
    if docs != [] {
      TilesBounds(docs, 0, end, 0);
    }
  }

  lemma NodesEnd(docs: seq<Document>, content: string, pieces: seq<Document>, nodes: seq<SimpleObjectNode>)
    requires Tiles(docs, 0, |Lines(content)|) && ParsedFrom(docs, Lines(content))
    requires NodesSoFar(docs, |docs|, pieces, nodes)
    ensures Docs(nodes) == pieces && Tiles(pieces, 0, |Lines(content)|)
    ensures AllLines(pieces) == AllLines(docs) && ReadLines(AllLines(pieces), Lines(content))
  {
    assert docs[..|docs|] == docs;
    FileReads(docs, Lines(content), |Lines(content)|);
    assert Lines(content)[..|Lines(content)|] == Lines(content);
  }

  ghost predicate Fails(doc: Document)
    reads doc, doc.lines
  {
    IsRootList(doc.lines) && !Splittable(Paths(doc.lines))
  }

  lemma NodesOfSucceeds(doc: Document, docs: seq<Document>, nodes: seq<SimpleObjectNode>)
    requires NodesOf(doc, docs, nodes)
    ensures Docs(nodes) == docs && !Fails(doc)
  {
    hide IsRootList, Tiles, AllLines, NamedFrom, ElementNodes, StartAtCuts, Splittable, Docs;
  }

  lemma NoneFails(docs: seq<Document>, parts: seq<seq<Document>>, groups: seq<seq<SimpleObjectNode>>)
    requires |parts| == |groups| == |docs| && forall d :: 0 <= d < |docs| ==> NodesOf(docs[d], parts[d], groups[d])
    ensures forall d :: d in docs ==> !Fails(d)
  {
    hide NodesOf, Fails;
    forall k | 0 <= k < |docs| ensures !Fails(docs[k]) {
      NodesOfSucceeds(docs[k], parts[k], groups[k]);
    }
  }

  /** The nodes of a file, document by document: their documents tile the file's lines in order, each
      line object read from the raw line it stands for. */
  method ParseSimpleObjectFile(content: string)
    returns (r: NodesResult, ghost fileDocs: seq<Document>, ghost parts: seq<seq<Document>>, ghost groups: seq<seq<SimpleObjectNode>>)
    ensures Tiles(fileDocs, 0, |Lines(content)|) && ParsedFrom(fileDocs, Lines(content))
    ensures r.Nodes? ==>
      && |parts| == |groups| == |fileDocs| && r.nodes == Concat(groups)
      && forall d :: 0 <= d < |fileDocs| ==> NodesOf(fileDocs[d], parts[d], groups[d])
    ensures r.Nodes? ==>
      && Tiles(Docs(r.nodes), 0, |Lines(content)|)
      && AllLines(Docs(r.nodes)) == AllLines(fileDocs)
      && ReadLines(AllLines(Docs(r.nodes)), Lines(content))
    ensures r.NodesFailed? <==> exists d :: d in fileDocs && Fails(d)
  {
    hide *;
    ghost var owned;
    var docs;
    docs, owned := ParseFile(content);
    fileDocs, parts, groups := docs, [], [];
    ghost var pieces: seq<Document> := [];
    var file: seq<SimpleObjectNode> := [];
    NodesStart(docs, |Lines(content)|);
    ConcatNothing();
    for k := 0 to |docs|
      invariant owned == LineSet(docs)
      invariant Tiles(docs, 0, |Lines(content)|) && ParsedFrom(docs, Lines(content))
      invariant NodesSoFar(docs, k, pieces, file)
      invariant |parts| == |groups| == k && file == Concat(groups)
      invariant forall d :: 0 <= d < k ==> NodesOf(docs[d], parts[d], groups[d])
    {
      TakeDocument(docs, k, |Lines(content)|);
      ghost var more;
      r, more := DocumentNodes(docs[k]);
      if r.NodesFailed? {
        FailsIs(docs[k]);
        return;
      }
      NextNodes(docs, k, |Lines(content)|, pieces, file, more, r.nodes);
      ConcatSnoc(groups, r.nodes);
      file, pieces := file + r.nodes, pieces + more;
      parts, groups := parts + [more], groups + [r.nodes];
    }
    NodesEnd(docs, content, pieces, file);
    NoneFails(docs, parts, groups);
    r := Nodes(file);
  }

  lemma ConcatNothing()
    ensures Concat([]) == []
  {
  }

  lemma FailsIs(doc: Document)
    ensures Fails(doc) <==> IsRootList(doc.lines) && !Splittable(Paths(doc.lines))
  {
    hide IsRootList, Splittable, Paths;
  }

  /** What the request handlers do to find the line under the cursor: the first node that has it. */
  method LocateLine(nodes: seq<SimpleObjectNode>, lineNum: int) returns (node: SimpleObjectNode?, line: Line?)
    ensures line == null ==> forall n :: n in nodes ==> n.doc.FindLine(lineNum - n.doc.offset) == null
    ensures line != null ==> node != null && node in nodes && node.doc.FindLine(lineNum - node.doc.offset) == line
  {
    node, line := null, null;
    for k := 0 to |nodes|
      invariant line == null
      invariant forall j :: 0 <= j < k ==> nodes[j].doc.FindLine(lineNum - nodes[j].doc.offset) == null
    {
      node := nodes[k];
      line := node.doc.FindLine(lineNum - node.doc.offset);
      if line != null {
        return;
      }
    }
  }

  /** In a tiled file every line number of the file is found in exactly one node, and the line
      found is that line of the file; any other number is found nowhere. */
  lemma LocateLineExact(nodes: seq<SimpleObjectNode>, pieces: seq<Document>, total: nat, lineNum: int)
    requires Docs(nodes) == pieces && Tiles(pieces, 0, total)
    ensures |AllLines(pieces)| == total
    ensures 0 <= lineNum < total ==>
      exists k :: (0 <= k < |nodes|
                   && nodes[k].doc.FindLine(lineNum - nodes[k].doc.offset) == AllLines(pieces)[lineNum]
                   && forall j :: 0 <= j < |nodes| && j != k ==> nodes[j].doc.FindLine(lineNum - nodes[j].doc.offset) == null)
    ensures !(0 <= lineNum < total) ==>
      forall k :: 0 <= k < |nodes| ==> nodes[k].doc.FindLine(lineNum - nodes[k].doc.offset) == null
  {
    hide Docs, AllLines, Tiles;
    AllLinesLength(pieces, 0, total);
    forall k | 0 <= k < |pieces| ensures 0 <= pieces[k].offset && pieces[k].End() <= total {
      TilesBounds(pieces, 0, total, k);
    }
    if 0 <= lineNum < total {
      var k := TilesFind(pieces, 0, total, lineNum);
      AllLinesAt(pieces, 0, total, k, lineNum - pieces[k].offset);
      assert nodes[k].doc == pieces[k];
      assert nodes[k].doc.FindLine(lineNum - nodes[k].doc.offset) == AllLines(pieces)[lineNum];
      forall j | 0 <= j < |nodes| && j != k ensures nodes[j].doc.FindLine(lineNum - nodes[j].doc.offset) == null {
        assert nodes[j].doc == pieces[j];
      }
    } else {
      forall k | 0 <= k < |nodes| ensures nodes[k].doc.FindLine(lineNum - nodes[k].doc.offset) == null {
        assert nodes[k].doc == pieces[k];
      }
    }
  }
}
