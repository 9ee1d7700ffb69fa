/** The path library proper: linked nodes that are extended at the end while building and cut from
    the end while filtering. */
module YamlPath {
  import opened Options
  import opened Strings
  import opened PathText
  import opened YamlWalk

  datatype NodeKind = Root | Selector(name: string) | Subscript(index: nat)

  class PathNode {
    const kind: NodeKind
    var child: PathNode?

    constructor (kind: NodeKind)
      ensures this.kind == kind && child == null
    {
      this.kind := kind;
      child := null;
    }
  }

  /** These nodes are linked one to the next, and the last one to none. */
  ghost predicate Linked(nodes: seq<PathNode>)
    reads nodes
  {
    && nodes != []
    && nodes[|nodes| - 1].child == null
    && (forall i :: 0 <= i < |nodes| - 1 ==> nodes[i].child == nodes[i + 1])
    && (forall i, j :: 0 <= i < j < |nodes| ==> nodes[i] != nodes[j])
  }

  /** The spine of a whole path: a root and then segments. */
  ghost predicate Spine(nodes: seq<PathNode>)
    reads nodes
  {
    Linked(nodes) && nodes[0].kind.Root? && forall i :: 1 <= i < |nodes| ==> !nodes[i].kind.Root?
  }

  function SegmentOf(kind: NodeKind): Segment
    requires !kind.Root?
  {
    match kind
    case Selector(name) => Child(name)
    case Subscript(i) => Index(i)
  }

  /** The segments that these nodes stand for. */
  function Segments(nodes: seq<PathNode>): (s: seq<Segment>)
    requires forall i :: 0 <= i < |nodes| ==> !nodes[i].kind.Root?
    ensures |s| == |nodes| && forall i :: 0 <= i < |nodes| ==> s[i] == SegmentOf(nodes[i].kind)
  {
    seq(|nodes|, i requires 0 <= i < |nodes| => SegmentOf(nodes[i].kind))
  }

  ghost function SpineSegments(nodes: seq<PathNode>): (s: seq<Segment>)
    requires Spine(nodes)
    reads nodes
    ensures |s| == |nodes| - 1
  {
    Segments(nodes[1..])
  }

  lemma LinkedTail(nodes: seq<PathNode>)
    requires Linked(nodes) && nodes[0].child != null
    ensures |nodes| > 1 && nodes[0].child == nodes[1] && Linked(nodes[1..])
  {
  }

  lemma OneLinked(nodes: seq<PathNode>)
    requires Linked(nodes) && nodes[0].child == null
    ensures nodes == [nodes[0]]
  {
    FirstLink(nodes);
  }

  lemma FirstLink(nodes: seq<PathNode>)
    requires Linked(nodes)
    ensures |nodes| > 1 ==> nodes[0].child == nodes[1]
  {
  }

  // ---------------------------------------------------------------- the operations of a node

  method ToText(n: PathNode, ghost nodes: seq<PathNode>) returns (s: string)
    requires Linked(nodes) && n == nodes[0] && forall i :: 1 <= i < |nodes| ==> !nodes[i].kind.Root?
    ensures s == (if n.kind.Root? then "$" else RenderSegment(SegmentOf(n.kind))) + RenderAll(Segments(nodes[1..]))
    decreases |nodes|
  {
    match n.kind {
      case Root => s := "$";
      case Selector(name) => s := "." + Normalize(name);
      case Subscript(i) => s := "[" + Itoa(i) + "]";
    }
    ghost var head := s;
    if n.child != null {
      LinkedTail(nodes);
      var rest := ToText(n.child, nodes[1..]);
      s := s + rest;
      assert Segments(nodes[1..])[1..] == Segments(nodes[1..][1..]);
    } else {
      OneLinked(nodes);
      assert s == head + "";
    }
    assert head + RenderAll(Segments(nodes[1..])) == s;
  }

  /** Cuts the last node off, unless this is the only one. */
  method RemoveChild(n: PathNode, ghost nodes: seq<PathNode>)
    requires Linked(nodes) && n == nodes[0]
    modifies nodes
    ensures Linked(if |nodes| > 1 then nodes[..|nodes| - 1] else nodes)
    decreases |nodes|
  {
    if n.child == null {
      OneLinked(nodes);
      return;
    }
    LinkedTail(nodes);
    if n.child.child == null {
      OneLinked(nodes[1..]);
      n.child := null;
      assert nodes[..|nodes| - 1] == [n];
      return;
    }
    LinkedTail(nodes[1..]);
    RemoveChild(n.child, nodes[1..]);
    assert nodes[1..][..|nodes| - 2] == nodes[..|nodes| - 1][1..];
  }

  lemma LinkFirst(c: PathNode, rest: seq<PathNode>)
    requires Linked(rest) && c !in rest && c.child == rest[0]
    ensures Linked([c] + rest)
  {
  }

  method CopyNode(n: PathNode, ghost nodes: seq<PathNode>) returns (c: PathNode, ghost copies: seq<PathNode>)
    requires Linked(nodes) && n == nodes[0]
    ensures Linked(copies) && c == copies[0] && fresh(copies)
    ensures |copies| == |nodes| && forall i :: 0 <= i < |nodes| ==> copies[i].kind == nodes[i].kind
    decreases |nodes|
  {
    c := new PathNode(n.kind);
    copies := [c];
    if n.child != null {
      LinkedTail(nodes);
      hide Linked;
      ghost var rest;
      c.child, rest := CopyNode(n.child, nodes[1..]);
      copies := [c] + rest;
      LinkFirst(c, rest);
      forall i | 0 <= i < |nodes| ensures copies[i].kind == nodes[i].kind {
        assert i > 0 ==> copies[i] == rest[i - 1] && nodes[i] == nodes[1..][i - 1];
      }
    } else {
      OneLinked(nodes);
    }
  }

  /** What a selector or subscript node does with a YAML node. */
  function Entered(unquote: Unquote, kind: NodeKind, node: Ast): Step {
    match kind
    case Root => Hit(node, node)
    case Selector(name) => StepOf(unquote, Child(name), node)
    case Subscript(i) => StepOf(unquote, Index(i), node)
  }

  method EnterMapping(unquote: Unquote, entries: seq<Entry>, name: string) returns (r: Step)
    ensures r == StepInto(unquote, entries, name)
  {
    for i := 0 to |entries|
      invariant StepInto(unquote, entries, name) == StepInto(unquote, entries[i..], name)
    {
      assert entries[i..][1..] == entries[i + 1..];
      var key := Some(entries[i].key);
      if |entries[i].key| > 0 {
        key := UnquoteKey(unquote, entries[i].key);
        if key.None? {
          return NoFit;
        }
      }
      if key.value != name {
        continue;
      }
      return Hit(Single(entries[i]), entries[i].value);
    }
    r := NoKey;
  }

  method EnterNode(unquote: Unquote, kind: NodeKind, node: Ast) returns (r: Step)
    ensures r == Entered(unquote, kind, node)
  {
    match kind {
      case Root => r := Hit(node, node);
      case Selector(name) =>
        var selector := Unquoted(name);
        match node {
          case Mapping(entries) => r := EnterMapping(unquote, entries, selector);
          case Single(entry) => r := if entry.key == selector then Hit(node, entry.value) else NoKey;
          case _ => r := NoFit;
        }
      case Subscript(i) =>
        if !node.Sequence? {
          return NoFit;
        }
        if i >= |node.items| {
          return NoFit;
        }
        r := Hit(node.items[i], node.items[i]);
    }
  }

  /** A missing key is no error: the result is then no node. */
  method Filter(unquote: Unquote, n: PathNode, ghost nodes: seq<PathNode>, node: Ast) returns (r: Found)
    requires Linked(nodes) && n == nodes[0] && forall i :: 1 <= i < |nodes| ==> !nodes[i].kind.Root?
    ensures r == if n.kind.Root? then Walk(unquote, Segments(nodes[1..]), node) else Walk(unquote, Segments(nodes), node)
    decreases |nodes|
  {
    var step := EnterNode(unquote, n.kind, node);
    assert !n.kind.Root? ==> Segments(nodes)[1..] == Segments(nodes[1..]);
    if n.child != null {
      LinkedTail(nodes);
    }
    match step {
      case NoKey => r := Missing;
      case NoFit => r := Failed;
      case Hit(whole, inner) =>
        if n.child == null {
          return Node(whole);
        }
        r := Filter(unquote, n.child, nodes[1..], inner);
    }
  }

  /** One attempt where the node may be missing: Nothing is no node and no error, and Dereferenced the
      run-time panic of asking a missing node for its type. */
  datatype Attempted = Yields(node: Ast) | Nothing | Errs | Dereferenced

  method FilterMaybe(unquote: Unquote, n: PathNode, ghost nodes: seq<PathNode>, node: Option<Ast>) returns (r: Attempted)
    requires Linked(nodes) && n == nodes[0] && forall i :: 1 <= i < |nodes| ==> !nodes[i].kind.Root?
    ensures node.None? ==> r == if nodes == [n] && n.kind.Root? then Nothing else Dereferenced
    ensures node.Some? ==>
      r == match (if n.kind.Root? then Walk(unquote, Segments(nodes[1..]), node.value) else Walk(unquote, Segments(nodes), node.value))
           case Node(found) => Yields(found)
           case Missing => Nothing
           case Failed => Errs
    decreases |nodes|
  {
    if n.child == null {
      OneLinked(nodes);
    } else {
      LinkedTail(nodes);
    }
    hide Linked, Walk;
    if node.None? {
      if !n.kind.Root? {
        return Dereferenced;
      }
      if n.child == null {
        return Nothing;
      }
      r := FilterMaybe(unquote, n.child, nodes[1..], None);
      return;
    }
    var found := Filter(unquote, n, nodes, node.value);
    r := match found
         case Node(ast) => Yields(ast)
         case Missing => Nothing
         case Failed => Errs;
  }

  // ---------------------------------------------------------------- whole paths

  datatype Filtered = Filtered(node: Option<Ast>, firstMatch: bool)

  class Path {
    const node: PathNode
    ghost var spine: seq<PathNode>

    constructor (node: PathNode, ghost spine: seq<PathNode>)
      requires Spine(spine) && node == spine[0]
      ensures Valid() && this.spine == spine
    {
      this.node := node;
      this.spine := spine;
    }

    ghost predicate Valid()
      reads this, spine
    {
      Spine(spine) && node == spine[0]
    }

    ghost function Steps(): seq<Segment>
      requires Valid()
      reads this, spine
    {
      SpineSegments(spine)
    }

    method String() returns (s: string)
      requires Valid()
      ensures s == Render(Steps())
    {
      s := ToText(node, spine);
    }

    /** Shortens the path until it finds something: the result is the node at the deepest prefix
        whose segments all lead somewhere, and the path is cut to that prefix. An error can only
        come from the whole path. The number of attempts is at most one more than the number of
        segments. */
    method FilterNode(unquote: Unquote, tree: Ast) returns (r: Filtered, ghost attempts: nat)
      requires Valid()
      modifies this, spine
      ensures Valid() && spine <= old(spine)
      ensures var steps, depth := old(Steps()), Depth(unquote, old(Steps()), tree);
              && (r.firstMatch <==> Walk(unquote, steps, tree) != Missing)
              && (r.node.None? <==> Walk(unquote, steps, tree) == Failed)
              && (r.node.Some? ==> Node(r.node.value) == Walk(unquote, steps[..depth], tree))
              && Steps() == (if r.node.Some? then steps[..depth] else steps)
              && 1 <= attempts <= |steps| + 1
    {
      ghost var steps := Steps();
      ghost var nodes := spine;
      hide Linked, Spine, SpineSegments, Walk, Depth, Segments;
      StepsStart();
      var firstMatch := true;
      attempts := 0;
      while true
        invariant spine != [] && |spine| <= |nodes| && Shortened(nodes, steps, |spine| - 1)
        invariant |spine| - 1 >= Depth(unquote, steps, tree)
        invariant firstMatch <==> |spine| == |nodes|
        invariant !firstMatch ==> Walk(unquote, steps, tree) == Missing
        invariant attempts == |nodes| - |spine|
        decreases |spine|
      {
        hide Shortened;
        var n := Attempt(unquote, tree, nodes, steps);
        attempts := attempts + 1;
        if n.Failed? {
          return Filtered(None, firstMatch), attempts;
        }
        if n.Node? {
          return Filtered(Some(n.node), firstMatch), attempts;
        }
        CutEnd(nodes, steps);
        firstMatch := false;
      }
    }

    /** The search without a node. Its first turn panics, or finds nothing and leaves the path as it was, so
        that all turns are like it. */
    method FilterNothing(unquote: Unquote) returns (again: bool)
      requires Valid()
      modifies spine
      ensures Valid() && Steps() == old(Steps()) && spine == old(spine)
      ensures again <==> Steps() == []
    {
      BareRoot();
      ghost var steps := Steps();
      var r := FilterMaybe(unquote, node, spine, None);
      if r.Dereferenced? {
        return false;
      }
      RemoveChild(node, spine);
      again := true;
    }

    lemma BareRoot()
      requires Valid()
      ensures node.kind.Root? && Linked(spine) && (spine == [node] <==> Steps() == [])
      ensures forall i :: 1 <= i < |spine| ==> !spine[i].kind.Root?
    {
      hide Linked;
    }

    /** The path is down to its first k segments. */
    ghost predicate Shortened(nodes: seq<PathNode>, steps: seq<Segment>, k: nat)
      reads this, spine
    {
      && Valid()
      && k < |nodes| == |steps| + 1
      && spine == nodes[..k + 1]
      && Steps() == steps[..k]
    }

    lemma StepsStart()
      requires Valid()
      ensures spine != [] && |Steps()| == |spine| - 1 && Shortened(spine, Steps(), |spine| - 1)
    {
    }

    method Attempt(unquote: Unquote, tree: Ast, ghost nodes: seq<PathNode>, ghost steps: seq<Segment>) returns (n: Found)
      requires spine != [] && Shortened(nodes, steps, |spine| - 1)
      ensures |steps| == |nodes| - 1 && |spine| <= |nodes|
      ensures n == Walk(unquote, steps[..|spine| - 1], tree)
      ensures |spine| - 1 > Depth(unquote, steps, tree) ==> !n.Node? && n == Walk(unquote, steps, tree)
      ensures |spine| - 1 <= Depth(unquote, steps, tree) ==> n.Node?
      ensures |spine| == |nodes| ==> n == Walk(unquote, steps, tree)
    {
      hide Linked, Walk, Depth;
      WalkPrefix(unquote, steps, tree, |spine| - 1);
      assert steps[..|steps|] == steps;
      n := Filter(unquote, node, spine, tree);
    }

    method CutEnd(ghost nodes: seq<PathNode>, ghost steps: seq<Segment>)
      requires |spine| > 1 && Shortened(nodes, steps, |spine| - 1)
      modifies this, spine
      ensures spine == old(spine)[..|old(spine)| - 1] && Shortened(nodes, steps, |spine| - 1)
    {
      hide *;
      ghost var was := spine;
      KindsOf(nodes, steps);
      RemoveChild(node, spine);
      spine := spine[..|spine| - 1];
      CutSteps(nodes, steps, was, spine);
    }

    lemma KindsOf(nodes: seq<PathNode>, steps: seq<Segment>)
      requires |spine| > 1 && Shortened(nodes, steps, |spine| - 1)
      ensures Linked(spine) && node == spine[0] && node.kind.Root?
      ensures |spine| <= |nodes| == |steps| + 1 && spine == nodes[..|spine|]
      ensures forall i :: 1 <= i < |spine| ==> !spine[i].kind.Root? && steps[i - 1] == SegmentOf(spine[i].kind)
    {
      hide Linked;
      forall i | 1 <= i < |spine| ensures steps[i - 1] == SegmentOf(spine[i].kind) {
        assert Steps()[i - 1] == steps[i - 1];
      }
    }

    lemma CutSteps(nodes: seq<PathNode>, steps: seq<Segment>, was: seq<PathNode>, now: seq<PathNode>)
      requires |was| > 1 && now == spine == was[..|was| - 1] && Linked(now) && node == now[0] && node.kind.Root?
      requires |was| <= |nodes| == |steps| + 1 && was == nodes[..|was|]
      requires forall i :: 1 <= i < |was| ==> !was[i].kind.Root? && steps[i - 1] == SegmentOf(was[i].kind)
      ensures Shortened(nodes, steps, |spine| - 1)
    {
      hide Linked;
      assert Steps() == steps[..|now| - 1];
    }
  }
}
