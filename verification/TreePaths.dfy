/** The lines of every printed document have paths of the shape that references are computed for. */
module TreePaths {
  import opened Options
  import opened Strings
  import opened BlockStyle
  import ObjectRef
  import opened ReferencePaths
  import opened ReferenceResults

  predicate ShapeOf(path: string, ps: seq<string>, ns: seq<nat>) {
    PathShape(ps, ns) && path == Shaped(ps, ns)
  }

  ghost predicate HasShape(path: string) {
    exists ps, ns :: ShapeOf(path, ps, ns)
  }

  lemma RootShape()
    ensures HasShape("$")
  {
    assert ShapeOf("$", ["$"], []);
  }

  lemma ShapedLast(ps: seq<string>, ns: seq<nat>, t: string)
    requires |ps| == |ns| + 1
    ensures Shaped(ps[..|ns|] + [ps[|ns|] + t], ns) == Shaped(ps, ns) + t
  {
    hide Itoa;
    var qs := ps[..|ns|] + [ps[|ns|] + t];
    if ns != [] {
      assert qs[..|qs| - 1] == ps[..|ps| - 1];
    }
  }

  lemma KeyShape(path: string, key: string)
    requires HasShape(path) && PlainKey(key)
    ensures HasShape(path + "." + key)
  {
    hide Shaped;
    var ps, ns :| ShapeOf(path, ps, ns);
    var t := "." + key;
    var qs := ps[..|ns|] + [ps[|ns|] + t];
    ShapedLast(ps, ns, t);
    assert path + "." + key == path + t;
    assert NoBrackets(ps[|ns|]);
    assert NoBrackets(ps[|ns|] + t);
    assert ShapeOf(path + "." + key, qs, ns);
  }

  lemma ElementShape(path: string, i: nat)
    requires HasShape(path) && i <= ObjectRef.MAX_INT
    ensures HasShape(ElementPath(path, i))
  {
    hide Itoa;
    var ps, ns :| ShapeOf(path, ps, ns);
    var qs, ms := ps + [""], ns + [i];
    assert qs[..|qs| - 1] == ps && ms[..|ms| - 1] == ns;
    assert path + "[" + Itoa(i) + "]" + "" == ElementPath(path, i);
    assert ShapeOf(ElementPath(path, i), qs, ms);
  }

  // ---------------------------------------------------------------- trees

  lemma OneItemRow(item: Item, column: nat, path: string)
    ensures |OneItemRows(item, column, path)| >= 1
  {
    hide ItemRow, ValueRows, EntryRows;
  }

  ghost predicate RowsShaped(rows: seq<Row>) {
    forall r :: 0 <= r < |rows| ==> rows[r].Structure? ==> HasShape(rows[r].path)
  }

  lemma {:induction false} ValueShaped(v: Value, path: string, indent: nat, dash: bool)
    requires WellFormedValue(v, indent, dash) && HasShape(path) && |ValueRows(v, path)| <= ObjectRef.MAX_INT
    ensures RowsShaped(ValueRows(v, path))
    decreases v
  {
    match v
    case Leaf =>
    case Body(_, _) =>
    case Map(n, es) => EntriesShaped(es, n, path);
    case Items(column, items) => ItemsShaped(items, column, path, 0);
  }

  lemma {:induction false} EntriesShaped(es: seq<Entry>, indent: nat, path: string)
    requires WellFormedEntries(es, indent) && HasShape(path) && |EntryRows(es, indent, path)| <= ObjectRef.MAX_INT
    ensures RowsShaped(EntryRows(es, indent, path))
    decreases es
  {
    hide HasShape;
    if es != [] {
      KeyShape(path, es[0].key);
      ValueShaped(es[0].value, path + "." + es[0].key, indent, false);
      EntriesShaped(es[1..], indent, path);
    }
  }

  lemma {:induction false} ItemShaped(item: Item, column: nat, path: string)
    requires WellFormedItem(item, column) && HasShape(path) && |OneItemRows(item, column, path)| <= ObjectRef.MAX_INT
    ensures RowsShaped(OneItemRows(item, column, path))
    decreases item
  {
    hide HasShape;
    if item.Object? {
      KeyShape(path, item.first.key);
      ValueShaped(item.first.value, path + "." + item.first.key, column + 2, true);
      EntriesShaped(item.rest, column + 2, path);
    }
  }

  lemma {:induction false} ItemsShaped(items: seq<Item>, column: nat, path: string, i: nat)
    requires WellFormedItems(items, column) && HasShape(path) && i + |ItemRows(items, column, path, i)| <= ObjectRef.MAX_INT
    ensures RowsShaped(ItemRows(items, column, path, i))
    decreases items
  {
    hide HasShape;
    if items != [] {
      OneItemRow(items[0], column, ElementPath(path, i));
      ElementShape(path, i);
      ItemShaped(items[0], column, ElementPath(path, i));
      ItemsShaped(items[1..], column, path, i + 1);
    }
  }

  // ---------------------------------------------------------------- root indices

  lemma {:induction false} RootSubscript(ps: seq<string>, ns: seq<nat>)
    requires |ps| == |ns| + 1 && ns != [] && ps[0] == "$"
    ensures var qs, ms := ["$" + ps[1]] + ps[2..], ns[1..];
            && |qs| == |ms| + 1
            && Shaped(qs, ms) != ""
            && Shaped(ps, ns) == "$[" + Itoa(ns[0]) + "]" + Shaped(qs, ms)[1..]
    decreases |ns|
  {
    hide *;
    var qs, ms := ["$" + ps[1]] + ps[2..], ns[1..];
    var pi, ni := ps[..|ps| - 1], ns[..|ns| - 1];
    ShapedIs(ps, ns);
    ShapedIs(qs, ms);
    ShapedIs(pi, ni);
    var head := "$[" + Itoa(ns[0]) + "]";
    if |ns| == 1 {
      assert "$" + "[" + Itoa(ns[0]) + "]" == head;
      assert ("$" + ps[1])[1..] == ps[1];
    } else {
      RootSubscript(pi, ni);
      assert qs[..|qs| - 1] == ["$" + pi[1]] + pi[2..] && ms[..|ms| - 1] == ni[1..];
      var inner := Shaped(qs[..|qs| - 1], ms[..|ms| - 1]);
      SubscriptLater(head, inner, "[" + Itoa(ns[|ns| - 1]) + "]", ps[|ps| - 1]);
    }
  }

  lemma SubscriptLater(head: string, inner: string, sub: string, last: string)
    requires inner != ""
    ensures head + inner[1..] + sub + last == head + (inner + sub + last)[1..]
  {
    assert (inner + sub + last)[1..] == inner[1..] + sub + last;
  }

  lemma ShapedIs(ps: seq<string>, ns: seq<nat>)
    requires |ps| == |ns| + 1
    ensures if ns == [] then Shaped(ps, ns) == ps[0]
            else Shaped(ps, ns) == Shaped(ps[..|ps| - 1], ns[..|ns| - 1]) + ("[" + Itoa(ns[|ns| - 1]) + "]") + ps[|ps| - 1]
  {
    hide Itoa;
    if ns != [] {
      assert Shaped(ps[..|ps| - 1], ns[..|ns| - 1]) + ("[" + Itoa(ns[|ns| - 1]) + "]") ==
             Shaped(ps[..|ps| - 1], ns[..|ns| - 1]) + "[" + Itoa(ns[|ns| - 1]) + "]";
    }
  }

  lemma RootDotStarts(ps: seq<string>, ns: seq<nat>)
    requires |ps| == |ns| + 1 && ps[0] != "" && PiecesWithoutBrackets(ps)
    ensures "$[" <= Shaped(ps, ns) ==> ns != [] && ps[0] == "$"
  {
    hide Itoa;
    ShapedStarts(ps, ns);
    assert NoBrackets(ps[0]);
    assert |ps[0]| > 1 ==> Shaped(ps, ns)[1] == ps[0][1];
    assert ns == [] ==> Shaped(ps, ns) == ps[0];
  }

  /** A path of the line's shape, with its root index told apart. */
  ghost predicate IsLinePath(path: string, root: Option<nat>, ps: seq<string>, ns: seq<nat>) {
    && PathShape(ps, ns)
    && Shaped(ps, ns) != ""
    && (root.None? ==> !("$[" <= Shaped(ps, ns)))
    && path == LinePath(root, ps, ns)
  }

  lemma ShapeIsLinePath(path: string) returns (root: Option<nat>, ps: seq<string>, ns: seq<nat>)
    requires HasShape(path)
    ensures IsLinePath(path, root, ps, ns)
  {
    hide Shaped, Itoa;
    ps, ns :| ShapeOf(path, ps, ns);
    ShapedStarts(ps, ns);
    root := None;
    if "$[" <= path {
      RootDotStarts(ps, ns);
      RootSubscript(ps, ns);
      assert NoBrackets(ps[1]) && NoBrackets("$" + ps[1]);
      root, ps, ns := Some(ns[0]), ["$" + ps[1]] + ps[2..], ns[1..];
    }
  }

  /** Every structural line of a printed document has such a path; a document's lines are countable in
      an int64. */
  lemma TreeLinesHaveShape(d: Doc, r: nat) returns (root: Option<nat>, ps: seq<string>, ns: seq<nat>)
    requires WellFormedDoc(d) && |DocRows(d)| <= ObjectRef.MAX_INT && r < |DocRows(d)| && DocRows(d)[r].Structure?
    ensures IsLinePath(DocRows(d)[r].path, root, ps, ns)
  {
    hide HasShape, IsLinePath;
    RootShape();
    match d.root {
      case Map(n, es) => EntriesShaped(es, n, "$");
      case Items(column, items) => ItemsShaped(items, column, "$", 0);
    }
    root, ps, ns := ShapeIsLinePath(DocRows(d)[r].path);
  }
}
