/** From a printed line to the line that holds the project of the object it refers to. */
module ReferenceLookup {
  import opened Options
  import opened Strings
  import opened GeneralPaths
  import opened YamlLines
  import opened BlockStyle
  import opened Documents
  import opened SimpleObjects
  import opened ObjectNodes
  import opened RootLists
  import opened FileNodes
  import ObjectRef
  import opened ReferencePaths
  import opened ReferenceResults
  import opened TreePaths

  // ---------------------------------------------------------------- looking up a value

  /** The value at the first line with this path, "" if there is none. */
  function FirstValue(lines: seq<Line>, path: string): string
    reads lines
  {
    if lines == [] then ""
    else if lines[0].path == path then lines[0].Info().MapValue()
    else FirstValue(lines[1..], path)
  }

  lemma {:induction false} FirstValueIs(lines: seq<Line>, path: string, i: nat)
    requires i < |lines| && lines[i].path == path && forall k :: 0 <= k < i ==> lines[k].path != path
    ensures FirstValue(lines, path) == lines[i].Info().MapValue()
  {
    if i > 0 {
      assert lines[0].path != path;
      FirstValueIs(lines[1..], path, i - 1);
    }
  }

  lemma {:induction false} NoFirstValue(lines: seq<Line>, path: string)
    requires forall l :: l in lines ==> l.path != path
    ensures FirstValue(lines, path) == ""
  {
    if lines != [] {
      assert lines[0] in lines;
      NoFirstValue(lines[1..], path);
    }
  }

  method GetLineValueForPath(node: SimpleObjectNode, path: string) returns (value: string)
    ensures value == FirstValue(node.doc.lines, node.Resolve(path))
  {
    hide *;
    var line := node.FindLineByPath(path);
    if line == null {
      NoFirstValue(node.doc.lines, node.Resolve(path));
      return "";
    }
    ghost var i :| 0 <= i < |node.doc.lines| && node.doc.lines[i] == line
                   && forall k :: 0 <= k < i ==> node.doc.lines[k].path != node.Resolve(path);
    FirstValueIs(node.doc.lines, node.Resolve(path), i);
    value := line.Info().MapValue();
  }

  /** The value at the first path, or else at the second. */
  function ValueOr(node: SimpleObjectNode, path: string, fallback: string): string
    reads node, node.doc, node.doc.lines
  {
    var value := FirstValue(node.doc.lines, node.Resolve(path));
    if value == "" then FirstValue(node.doc.lines, node.Resolve(fallback)) else value
  }

  method GetProjectNameFromRef(node: SimpleObjectNode, ref: ObjectRef.Reference) returns (name: string)
    ensures name == if ref.projectPath == "" then ""
                    else ValueOr(node, ref.projectPath, ObjectRef.FallbackProjectPath(ref, ref.kind))
  {
    hide FirstValue;
    if ref.projectPath == "" {
      return "";
    }
    name := GetLineValueForPath(node, ref.projectPath);
    if name == "" {
      name := GetLineValueForPath(node, ObjectRef.FallbackProjectPath(ref, ref.kind));
    }
  }

  // ---------------------------------------------------------------- printed lines and their nodes

  lemma {:induction false} RootItemsStart(items: seq<Item>, column: nat, i: nat)
    ensures PathsStart(ItemRows(items, column, "$", i), "$[")
    decreases |items|
  {
    if items != [] {
      ItemStarts(items[0], column, ElementPath("$", i));
      RootElementStarts(i);
      StartsLonger(OneItemRows(items[0], column, ElementPath("$", i)), ElementPath("$", i), "$[");
      RootItemsStart(items[1..], column, i + 1);
      hide OneItemRows, ElementPath;
    }
  }

  lemma RootElementStarts(i: nat)
    ensures "$[" <= ElementPath("$", i)
  {
    hide Itoa;
  }

  lemma RootListStarts(d: Doc)
    requires d.root.Items?
    ensures PathsStart(DocRows(d), "$[")
  {
    RootItemsStart(d.root.items, d.root.column, 0);
  }

  /** A path with a root index says which one. */
  lemma RootOfPath(path: string, root: Option<nat>, ps: seq<string>, ns: seq<nat>, k: nat)
    requires IsLinePath(path, root, ps, ns) && "$[" <= path
    ensures |path| >= 4 && (RootPrefix(k) <= path && IndexOf(path, ']') >= 2 && Mark(path) == Itoa(k) ==> root == Some(k))
  {
    hide Shaped, Itoa;
    var r := root.value;
    DigitsNoBrackets(r);
    var rest := Shaped(ps, ns)[1..];
    assert path == ("$[" + Itoa(r)) + [']'] + rest;
    IndexOfSplit("$[" + Itoa(r), ']', rest);
    assert path[2..2 + |Itoa(r)|] == Itoa(r);
    if IndexOf(path, ']') >= 2 && Mark(path) == Itoa(k) {
      ItoaInjective(r, k);
    }
  }

  /** The node that a printed line ends up in is the one that its references are looked up in. */
  lemma PrintedLineHeld(d: Doc, doc: Document, nodes: seq<SimpleObjectNode>, k: nat, x: nat, r: nat)
      returns (root: Option<nat>, ps: seq<string>, ns: seq<nat>)
    requires WellFormedDoc(d) && |DocRows(d)| <= ObjectRef.MAX_INT && NodesAreTree(doc, nodes, d)
    requires k < |nodes| && x < |nodes[k].doc.lines|
    requires r < |DocRows(d)| && DocRows(d)[r].Structure? && nodes[k].doc.lines[x].path == DocRows(d)[r].path
    ensures IsLinePath(DocRows(d)[r].path, root, ps, ns) && HoldsLine(nodes[k], root)
  {
    hide DocRows, WellFormedDoc, IsLinePath, Mark, Itoa, RootPrefix;
    root, ps, ns := TreeLinesHaveShape(d, r);
    var path := DocRows(d)[r].path;
    if d.root.Items? {
      RootListStarts(d);
      assert IsElement(nodes[k], k) && InRootElement(nodes[k].doc.lines[x], k);
      RootOfPath(path, root, ps, ns, k);
    } else {
      PlainDocStarts(d);
      NoRoot(path, root, ps, ns);
    }
  }

  lemma NoRoot(path: string, root: Option<nat>, ps: seq<string>, ns: seq<nat>)
    requires IsLinePath(path, root, ps, ns) && "$." <= path
    ensures root == None
  {
    hide Shaped, Itoa;
    assert path[1] == '.';
    if root.Some? {
      SomeRootStarts(root, ps, ns);
    }
  }

  lemma SomeRootStarts(root: Option<nat>, ps: seq<string>, ns: seq<nat>)
    requires root.Some? && |ps| == |ns| + 1 && Shaped(ps, ns) != ""
    ensures "$[" <= LinePath(root, ps, ns)
  {
    hide Shaped, Itoa;
  }

  // ---------------------------------------------------------------- end to end

  /** Main theorem: for a line printed from a tree, with an entry of the table for its generalised path,
      the project path computed for it leads, in its own node, to the line with the line's own indices. */
  lemma PrintedReferenceFound(d: Doc, doc: Document, nodes: seq<SimpleObjectNode>, k: nat, x: nat, r: nat, e: ObjectRef.Entry)
      returns (root: Option<nat>, ns: seq<nat>)
    requires WellFormedDoc(d) && |DocRows(d)| <= ObjectRef.MAX_INT && NodesAreTree(doc, nodes, d)
    requires k < |nodes| && x < |nodes[k].doc.lines|
    requires r < |DocRows(d)| && DocRows(d)[r].Structure? && nodes[k].doc.lines[x].path == DocRows(d)[r].path
    requires e in ObjectRef.REFERENCES && e.project != [] && Generalize(DocRows(d)[r].path) == e.Path()
    ensures IsLinePath(DocRows(d)[r].path, root, e.path, ns)
    ensures |e.project| == |ns| + 1 && e.project[..|ns|] == e.path[..|ns|] && Shaped(e.project, ns) != ""
    ensures nodes[k].Resolve(ObjectRef.Resolved(e, DocRows(d)[r].path).projectPath) == LinePath(root, e.project, ns)
  {
    var ps;
    root, ps, ns := PrintedLineHeld(d, doc, nodes, k, x, r);
    ReferenceFound(nodes[k], DocRows(d)[r].path, root, ps, ns, e);
  }

  lemma ReferenceFound(node: SimpleObjectNode, path: string, root: Option<nat>, ps: seq<string>, ns: seq<nat>, e: ObjectRef.Entry)
    requires IsLinePath(path, root, ps, ns) && HoldsLine(node, root)
    requires e in ObjectRef.REFERENCES && e.project != [] && Generalize(path) == e.Path()
    ensures ps == e.path && |e.project| == |ns| + 1 && e.project[..|ns|] == e.path[..|ns|] && Shaped(e.project, ns) != ""
    ensures ObjectRef.Resolved(e, path).projectPath != ""
    ensures node.Resolve(ObjectRef.Resolved(e, path).projectPath) == LinePath(root, e.project, ns)
  {
    hide *;
    LinePathParts(path, root, ps, ns);
    ReferencesStayInElements(e, root, ps, ns);
    var i :| 0 <= i < |ObjectRef.REFERENCES| && ObjectRef.REFERENCES[i] == e;
    TableFits(i);
    ProjectFits(e);
    StaysIs(ObjectRef.Resolved(e, path).projectPath, e.project, ps, ns);
    FoundInSameElements(node, root, e.project, ps, ns);
  }

  lemma LinePathParts(path: string, root: Option<nat>, ps: seq<string>, ns: seq<nat>)
    requires IsLinePath(path, root, ps, ns)
    ensures PathShape(ps, ns) && |ps| == |ns| + 1 && Shaped(ps, ns) != "" && path == LinePath(root, ps, ns)
    ensures root.None? ==> !("$[" <= Shaped(ps, ns))
  {
    hide Shaped, LinePath;
  }

  lemma ProjectFits(e: ObjectRef.Entry)
    requires EntryFits(e) && e.project != []
    ensures TemplateFits(e.project, e.path) && |e.project| == |e.path|
    ensures e.project[..|e.project| - 1] == e.path[..|e.path| - 1]
  {
    hide PlainPiece;
  }

  lemma StaysIs(result: string, t: seq<string>, ps: seq<string>, ns: seq<nat>)
    requires |ps| == |ns| + 1 && t != [] && StaysInElements(result, t, ps, ns)
    ensures |t| == |ps| && result == Shaped(t, ns)
  {
    hide Shaped, Generalize, ObjectRef.Fill, Elements;
  }

  /** Where the project of the object itself stands. */
  function OwnProject(root: Option<nat>): string {
    match root
    case None => ObjectRef.METADATA_PROJECT
    case Some(r) => "$[" + Itoa(r) + "]" + ObjectRef.METADATA_PROJECT[1..]
  }

  lemma OwnProjectResolved(node: SimpleObjectNode, root: Option<nat>)
    requires HoldsLine(node, root)
    ensures node.Resolve(ObjectRef.METADATA_PROJECT) == OwnProject(root) && node.Resolve("") == ""
  {
    hide Itoa;
    assert ObjectRef.METADATA_PROJECT[1] == '.';
  }

  lemma NoProject(e: ObjectRef.Entry, path: string)
    requires e.project == []
    ensures ObjectRef.Resolved(e, path).projectPath == ""
  {
    hide ObjectRef.ReferencedPath;
  }

  /** The look-up falls back on the object's own project where the referenced kind has projects. */
  lemma FallbackResolved(node: SimpleObjectNode, root: Option<nat>, e: ObjectRef.Entry, path: string)
    requires e in ObjectRef.REFERENCES && e.project != [] && HoldsLine(node, root)
    ensures var ref := ObjectRef.Resolved(e, path);
            node.Resolve(ObjectRef.FallbackProjectPath(ref, ref.kind)) == if ObjectRef.IsProjectScoped(e.kind) then OwnProject(root) else ""
  {
    OnlyMetadataProject(e);
    OwnProjectResolved(node, root);
    hide ObjectRef.IsProjectScoped, ObjectRef.ReferencedPath, ObjectRef.BasePath, OwnProject, ObjectRef.Fill;
  }

  /** What a reference's line leads to: the value at the project path with the line's own indices, and
      failing that the value at the project path of its own object. */
  method ProjectOfLine(table: ObjectRef.Table, kind: ObjectRef.Kind, node: SimpleObjectNode, line: Line,
                       ghost root: Option<nat>, ghost ps: seq<string>, ghost ns: seq<nat>) returns (name: string)
    requires forall k, path :: ObjectRef.InTable(table, k, path) == ObjectRef.Find(ObjectRef.REFERENCES, k, path)
    requires IsLinePath(line.path, root, ps, ns) && HoldsLine(node, root) && line.generalizedPath == Generalize(line.path)
    ensures match ObjectRef.Find(ObjectRef.REFERENCES, kind, line.generalizedPath)
            case None => name == ""
            case Some(e) =>
              if e.project == [] then name == ""
              else
                && |e.project| == |ns| + 1 && Shaped(e.project, ns) != ""
                && e.project[..|ns|] == ps[..|ns|]
                && var own := FirstValue(node.doc.lines, LinePath(root, e.project, ns));
                   name == if own != "" then own
                           else FirstValue(node.doc.lines, if ObjectRef.IsProjectScoped(e.kind) then OwnProject(root) else "")
  {
    hide *;
    var ref := ObjectRef.Get(table, kind, line);
    var found := ObjectRef.InTable(table, kind, line.generalizedPath);
    if ref.None? {
      return "";
    }
    ghost var e := found.value;
    ReferenceOfLine(kind, line.generalizedPath);
    if e.project == [] {
      NoProject(e, line.path);
    } else {
      ReferenceFound(node, line.path, root, ps, ns, e);
      FallbackResolved(node, root, e, line.path);
    }
    name := GetProjectNameFromRef(node, ref.value);
    ValueOrIs(node, ref.value.projectPath, ObjectRef.FallbackProjectPath(ref.value, ref.value.kind));
    KindOfResolved(e, line.path);
  }

  lemma ValueOrIs(node: SimpleObjectNode, path: string, fallback: string)
    ensures var value := FirstValue(node.doc.lines, node.Resolve(path));
            ValueOr(node, path, fallback) == if value == "" then FirstValue(node.doc.lines, node.Resolve(fallback)) else value
  {
    hide FirstValue;
  }

  lemma KindOfResolved(e: ObjectRef.Entry, path: string)
    ensures ObjectRef.Resolved(e, path).kind == e.kind
  {
  }
}
