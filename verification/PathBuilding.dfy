/** Building paths segment by segment, copying a builder, and what filtering does to a built path
    and not to a copy. */
module PathBuilding {
  import opened Options
  import opened PathText
  import opened YamlWalk
  import opened YamlPath

  method LastNode(root: PathNode, ghost nodes: seq<PathNode>) returns (child: PathNode)
    requires Linked(nodes) && root == nodes[0]
    ensures child == nodes[|nodes| - 1]
  {
    child := root;
    ghost var k := 0;
    while child.child != null
      invariant k < |nodes| && child == nodes[k]
      decreases |nodes| - k
    {
      NextLink(nodes, k);
      child := child.child;
      k := k + 1;
    }
    LastLink(nodes, k);
  }

  class PathBuilder {
    var root: PathNode?
    var node: PathNode?
    ghost var spine: seq<PathNode>

    /** The builder before its first call: no root yet. */
    constructor ()
      ensures root == null && node == null && spine == []
    {
      root, node, spine := null, null, [];
    }

    ghost predicate Valid()
      reads this, spine
    {
      Spine(spine) && root == spine[0] && node == spine[|spine| - 1]
    }

    ghost function Steps(): seq<Segment>
      requires Valid()
      reads this, spine
    {
      SpineSegments(spine)
    }

    /** A new builder for "$"; what was built before is dropped. */
    method Root() returns (b: PathBuilder)
      ensures fresh(b) && fresh(b.spine) && b.Valid() && b.Steps() == []
    {
      var root := new PathNode(NodeKind.Root);
      b := new PathBuilder();
      b.root, b.node, b.spine := root, root, [root];
    }

    /** Hangs one more node below the last one. */
    method Chain(kind: NodeKind)
      requires Valid() && !kind.Root?
      modifies this, node
      ensures Valid() && fresh(set n | n in spine && n !in old(spine)) && old(spine) <= spine && root == old(root)
      ensures Steps() == old(Steps()) + [SegmentOf(kind)]
    {
      var next := new PathNode(kind);
      node.child := next;
      node := next;
      spine := spine + [next];
    }

    method Index(i: nat)
      requires Valid()
      modifies this, node
      ensures Valid() && fresh(set n | n in spine && n !in old(spine)) && root == old(root)
      ensures Steps() == old(Steps()) + [Segment.Index(i)]
    {
      Chain(Subscript(i));
    }

    method Child(name: string)
      requires Valid()
      modifies this, node
      ensures Valid() && fresh(set n | n in spine && n !in old(spine)) && root == old(root)
      ensures Steps() == old(Steps()) + [Segment.Child(name)]
    {
      Chain(Selector(name));
    }

    /** The copy spells the same path with nodes of its own. */
    method Copy() returns (b: PathBuilder)
      requires Valid()
      ensures fresh(b) && fresh(b.spine) && b.Valid() && b.Steps() == Steps()
    {
      var root;
      ghost var copies;
      root, copies := CopyNode(this.root, spine);
      assert Segments(copies[1..]) == Segments(spine[1..]);
      var child := LastNode(root, copies);
      b := new PathBuilder();
      b.root, b.node, b.spine := root, child, copies;
    }

    /** The path shares its nodes with the builder. */
    method Build() returns (p: Path)
      requires Valid()
      ensures fresh(p) && p.Valid() && p.spine == spine && p.Steps() == Steps()
    {
      p := new Path(root, spine);
    }
  }

  lemma NextLink(nodes: seq<PathNode>, k: nat)
    requires Linked(nodes) && k < |nodes| && nodes[k].child != null
    ensures k + 1 < |nodes| && nodes[k].child == nodes[k + 1]
  {
  }

  lemma LastLink(nodes: seq<PathNode>, k: nat)
    requires Linked(nodes) && k < |nodes| && nodes[k].child == null
    ensures k == |nodes| - 1
  {
    if k < |nodes| - 1 {
      NextIs(nodes, k);
    }
  }

  lemma NextIs(nodes: seq<PathNode>, k: nat)
    requires Linked(nodes) && k < |nodes|
    ensures k < |nodes| - 1 ==> nodes[k].child == nodes[k + 1]
  {
  }

  /** Filtering the same tree again with the path as it was left finds the same node at once. */
  method FilterTwice(p: Path, unquote: Unquote, tree: Ast) returns (first: Filtered, again: Filtered)
    requires p.Valid()
    modifies p, p.spine
    ensures p.Valid()
    ensures first.node.Some? ==> again == Filtered(first.node, true)
  {
    ghost var attempts;
    ghost var steps := p.Steps();
    ghost var depth := Depth(unquote, steps, tree);
    WalkPrefix(unquote, steps, tree, depth);
    first, attempts := p.FilterNode(unquote, tree);
    ghost var left := p.Steps();
    assert left[..|left|] == left;
    again, attempts := p.FilterNode(unquote, tree);
  }

  /** A copy of the builder taken before filtering keeps the whole path. */
  method FilterBesideCopy(b: PathBuilder, unquote: Unquote, tree: Ast) returns (r: Filtered, copy: PathBuilder)
    requires b.Valid()
    modifies b.spine
    ensures copy.Valid() && copy.Steps() == old(b.Steps())
    ensures r.node.Some? ==> Node(r.node.value) == Walk(unquote, old(b.Steps())[..Depth(unquote, old(b.Steps()), tree)], tree)
  {
    hide *;
    ghost var attempts;
    copy := b.Copy();
    var p := b.Build();
    r, attempts := p.FilterNode(unquote, tree);
  }

  /** Hangs and Panics stand for what happens at a document without a body. */
  datatype FileResult = InFile(node: Ast, firstMatch: bool) | NotFound | QueryFailed | Hangs | Panics

  /** The search over the documents of a file never gets beyond the first one: with a body there the
      shortening path always ends in a node or an error; without one the bare root comes back to the same
      turn for ever, and any other path panics. */
  method FilterFile(p: Path, unquote: Unquote, docs: seq<Option<Ast>>) returns (r: FileResult)
    requires p.Valid()
    modifies p, p.spine
    ensures p.Valid()
    ensures docs == [] ==> r == NotFound && p.Steps() == old(p.Steps())
    ensures docs != [] && docs[0].None? ==> r == (if old(p.Steps()) == [] then Hangs else Panics) && p.Steps() == old(p.Steps())
    ensures docs != [] && docs[0].Some? ==>
      var steps, tree := old(p.Steps()), docs[0].value;
      if Walk(unquote, steps, tree) == Failed then r == QueryFailed
      else r.InFile? && Node(r.node) == Walk(unquote, steps[..Depth(unquote, steps, tree)], tree)
           && (r.firstMatch <==> Walk(unquote, steps, tree) != Missing)
  {
    hide *;
    ghost var attempts;
    for i := 0 to |docs|
      invariant i == 0 && p.Valid() && p.spine == old(p.spine) && p.Steps() == old(p.Steps())
    {
      if docs[i].None? {
        var again := p.FilterNothing(unquote);
        return if again then Hangs else Panics;
      }
      var filtered;
      filtered, attempts := p.FilterNode(unquote, docs[i].value);
      if filtered.node.None? {
        return QueryFailed;
      }
      return InFile(filtered.node.value, filtered.firstMatch);
    }
    r := NotFound;
  }
}
