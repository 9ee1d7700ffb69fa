/** A well-formed root list is cut exactly at its elements, and every indexed line of the k-th
    piece has root index k. */
module RootLists {
  import opened Options
  import opened Strings
  import opened YamlLines
  import opened BlockStyle
  import opened ParserInversion
  import opened Documents
  import opened SimpleObjects
  import opened ObjectNodes

  // ---------------------------------------------------------------- cutting marked paths

  function RootPrefix(i: nat): string {
    ElementPath("$", i)
  }

  /** Too short to be indexed, or a path inside root element owner. */
  predicate OwnedBy(path: string, owner: int) {
    !Indexed(path) || (owner >= 0 && RootPrefix(owner) <= path)
  }

  /** How far the owners have come after these lines, from the owner before them. */
  function Top(owners: seq<int>, from: int): int {
    if owners == [] then from else owners[|owners| - 1]
  }

  /** Owners go up one by one, at indexed lines; -1 is before the first element. */
  predicate OwnedFrom(paths: seq<string>, owners: seq<int>, from: int) {
    && |paths| == |owners|
    && (paths != [] ==>
          var n := |paths| - 1;
          var before := Top(owners[..n], from);
          && OwnedFrom(paths[..n], owners[..n], from)
          && OwnedBy(paths[n], owners[n])
          && (owners[n] == before || (owners[n] == before + 1 && Indexed(paths[n]))))
  }

  predicate Owned(paths: seq<string>, owners: seq<int>) {
    OwnedFrom(paths, owners, -1)
  }

  lemma {:induction false} OwnedAppend(a: seq<string>, oa: seq<int>, b: seq<string>, ob: seq<int>, from: int)
    requires OwnedFrom(a, oa, from) && OwnedFrom(b, ob, Top(oa, from))
    ensures OwnedFrom(a + b, oa + ob, from) && Top(oa + ob, from) == Top(ob, Top(oa, from))
    decreases |b|
  {
    if b == [] {
      assert a + b == a && oa + ob == oa;
    } else {
      var n := |b| - 1;
      OwnedAppend(a, oa, b[..n], ob[..n], from);
      assert (a + b)[..|a + b| - 1] == a + b[..n] && (oa + ob)[..|oa + ob| - 1] == oa + ob[..n];
      hide OwnedBy, Indexed;
    }
  }

  lemma MarkOfOwned(path: string, owner: nat)
    requires RootPrefix(owner) <= path
    ensures IndexOf(path, ']') == 2 + |Itoa(owner)| && Mark(path) == Itoa(owner)
  {
    var head := "$[" + Itoa(owner);
    var tail := path[|RootPrefix(owner)|..];
    assert RootPrefix(owner) == head + "]";
    assert path == head + [']'] + tail;
    IndexOfSplit(head, ']', tail);
    assert path[2..|head|] == Itoa(owner);
  }

  function MarkOfOwner(owner: int): string {
    if owner < 0 then "" else Itoa(owner)
  }

  lemma {:induction false} OwnersAscend(paths: seq<string>, owners: seq<int>)
    requires Owned(paths, owners)
    ensures Top(owners, -1) >= -1 && forall r :: 0 <= r < |owners| ==> -1 <= owners[r] <= Top(owners, -1)
    decreases |owners|
  {
    if owners != [] {
      OwnersAscend(paths[..|owners| - 1], owners[..|owners| - 1]);
    }
  }

  lemma {:induction false} PrefixOfOwner(paths: seq<string>, owners: seq<int>)
    requires Owned(paths, owners)
    ensures Splittable(paths) && LastMark(paths) == MarkOfOwner(Top(owners, -1))
    decreases |paths|
  {
    if paths != [] {
      var n := |paths| - 1;
      PrefixOfOwner(paths[..n], owners[..n]);
      if Indexed(paths[n]) {
        MarkOfOwned(paths[n], owners[n]);
      }
    }
  }

  lemma CutOfOwner(paths: seq<string>, owners: seq<int>)
    requires paths != [] && Owned(paths, owners)
    ensures Splittable(paths)
    ensures var n := |paths| - 1; CutAt(paths, n) <==> owners[n] == Top(owners[..n], -1) + 1 && owners[n] > 0
  {
    var n := |paths| - 1;
    var before := Top(owners[..n], -1);
    PrefixOfOwner(paths[..n], owners[..n]);
    OwnersAscend(paths[..n], owners[..n]);
    PrefixOfOwner(paths, owners);
    if Indexed(paths[n]) {
      MarkOfOwned(paths[n], owners[n]);
      if before >= 0 && Itoa(before) == Itoa(owners[n]) {
        ItoaInjective(before, owners[n]);
      }
    }
  }

  /** The cuts found are the lines where owners 1, 2, ... start. */
  lemma {:induction false} CutsOfOwned(paths: seq<string>, owners: seq<int>)
    requires Owned(paths, owners)
    ensures Splittable(paths)
    ensures |Cuts(paths)| == if Top(owners, -1) < 0 then 0 else Top(owners, -1)
    ensures forall r, k :: 0 <= r < |paths| && 0 <= k < |Cuts(paths)| ==> (Cuts(paths)[k] <= r <==> owners[r] > k)
    ensures forall k :: 0 <= k < |Cuts(paths)| ==> 0 < Cuts(paths)[k] < |paths|
    decreases |paths|
  {
    if paths != [] {
      var n := |paths| - 1;
      CutsOfOwned(paths[..n], owners[..n]);
      OwnersAscend(paths[..n], owners[..n]);
      CutOfOwner(paths, owners);
      hide CutAt, LastMark, OwnedBy, Indexed;
    }
  }

  // ---------------------------------------------------------------- the paths of a root list

  /** The path that the second pass gives to a row read in this state. */
  function RowPath(s: State, row: Row): string {
    Place(s.history, InfoIn(row.text, s.block)).path
  }

  function RowPaths(s: State, rows: seq<Row>): (ps: seq<string>)
    ensures |ps| == |rows|
  {
    if rows == [] then []
    else
      var n := |rows| - 1;
      RowPaths(s, rows[..n]) + [RowPath(After(s, rows[..n]), rows[n])]
  }

  lemma RowPathsStep(s: State, init: seq<Row>, last: Row)
    ensures RowPaths(s, init + [last]) == RowPaths(s, init) + [RowPath(After(s, init), last)]
    ensures After(s, init + [last]) == Step(After(s, init), last.text)
  {
    hide RowPath, Step;
    assert (init + [last])[..|init|] == init;
  }

  lemma {:induction false} RowPathsAt(s: State, rows: seq<Row>, r: nat)
    requires r < |rows|
    ensures RowPaths(s, rows)[r] == RowPath(After(s, rows[..r]), rows[r])
    decreases |rows|
  {
    hide *;
    var n := |rows| - 1;
    var init := rows[..n];
    RowPathsStep(s, init, rows[n]);
    assert rows == init + [rows[n]];
    if r < n {
      RowPathsAt(s, init, r);
      assert init[..r] == rows[..r] && init[r] == rows[r];
    }
  }

  lemma {:induction false} RowPathsAppend(s: State, a: seq<Row>, b: seq<Row>)
    ensures RowPaths(s, a + b) == RowPaths(s, a) + RowPaths(After(s, a), b)
    decreases |b|
  {
    hide *;
    if b == [] {
      assert a + b == a;
      assert RowPaths(After(s, a), b) == [];
    } else {
      var init, last := b[..|b| - 1], b[|b| - 1];
      assert b == init + [last] && a + b == a + init + [last];
      RowPathsAppend(s, a, init);
      AfterAppend(s, a, init);
      RowPathsStep(s, a + init, last);
      RowPathsStep(After(s, a), init, last);
    }
  }

  lemma AllFitSplit(s: State, a: seq<Row>, b: seq<Row>)
    requires AllFit(s, a + b)
    ensures AllFit(s, a) && AllFit(After(s, a), b)
  {
    hide Fits, After;
    forall i | 0 <= i < |a| ensures Fits(After(s, a[..i]), a[i]) {
      assert (a + b)[..i] == a[..i] && (a + b)[i] == a[i];
    }
    forall i | 0 <= i < |b| ensures Fits(After(After(s, a), b[..i]), b[i]) {
      assert (a + b)[..|a| + i] == a + b[..i] && (a + b)[|a| + i] == b[i];
      AfterAppend(s, a, b[..i]);
    }
  }

  lemma {:induction false} HistoryExtends(s: State, rows: seq<Row>)
    ensures s.history <= After(s, rows).history
    decreases |rows|
  {
    if rows != [] {
      HistoryExtends(s, rows[..|rows| - 1]);
    }
  }

  lemma GrowsSplit(s: State, a: seq<Row>, b: seq<Row>, indent: nat)
    requires Grows(s.history, After(s, a + b).history, indent)
    ensures Grows(s.history, After(s, a).history, indent)
    ensures Grows(After(s, a).history, After(After(s, a), b).history, indent)
  {
    AfterAppend(s, a, b);
    HistoryExtends(s, a);
    HistoryExtends(After(s, a), b);
    hide After;
  }

  /** Structural line j of the history is the "-" line of root element i, and everything after
      it lies in that element. */
  predicate InElement(h: seq<Placed>, column: nat, i: nat, j: nat) {
    && j < |h| && h[j].indent == column + 2
    && (forall k :: 0 <= k < |h| ==> h[k].indent >= column + 2)
    && (forall k :: j <= k < |h| ==> RootPrefix(i) <= h[k].path)
  }

  predicate StartOrIn(h: seq<Placed>, column: nat, i: int, j: nat) {
    if i < 0 then i == -1 && h == [] else InElement(h, column, i, j)
  }

  lemma {:induction false} LookBackInElement(h: seq<Placed>, column: nat, i: nat, j: nat, m: nat)
    requires InElement(h, column, i, j)
    ensures match Previous(h, m) case None => m < column + 2 case Some(p) => RootPrefix(i) <= p.path
    decreases |h|
  {
    var n := |h| - 1;
    if h[n].indent > m && n > j {
      LookBackInElement(h[..n], column, i, j, m);
    } else if h[n].indent > m {
      LookBackNothing(h, column, m);
    }
  }

  lemma {:induction false} LookBackNothing(h: seq<Placed>, column: nat, m: nat)
    requires forall k :: 0 <= k < |h| ==> h[k].indent >= column + 2
    requires m < column + 2
    ensures Previous(h, m) == None
    decreases |h|
  {
    if h != [] {
      LookBackNothing(h[..|h| - 1], column, m);
    }
  }

  /** The root subscript has no dot, so cutting a path of the element at its last dot keeps it. */
  lemma CutKeepsPrefix(p: string, i: nat)
    requires RootPrefix(i) <= p && LastIndexOf(p, '.') != -1
    ensures RootPrefix(i) <= p[..LastIndexOf(p, '.')]
  {
    var dot := LastIndexOf(p, '.');
    assert '.' !in RootPrefix(i);
    assert dot >= |RootPrefix(i)|;
  }

  lemma DropDotOf(p: string)
    ensures DropDot(p + "." + "") == p
  {
    var full := p + "." + "";
    assert full[..|full| - 1] == p;
  }

  /** A line without structure gets no path, "$", or a path of the current element. */
  lemma NoisePath(h: seq<Placed>, info: LineInfo, column: nat, i: int, j: nat)
    requires StartOrIn(h, column, i, j) && !info.typ.IsList() && info.key == ""
    ensures OwnedBy(Place(h, info).path, i)
  {
    var prev := Previous(h, info.indent);
    assert h == [] ==> prev.None?;
    if i >= 0 {
      LookBackInElement(h, column, i, j, info.indent);
    }
    assert Place(h, info).path == if info.typ.Passed() then "" else DropDot(KeyPath(prev, info.indent, "").0);
    if prev.Some? {
      var p := prev.value.path;
      DropDotOf(p);
      var dot := LastIndexOf(p, '.');
      if dot != -1 {
        CutKeepsPrefix(p, i);
        DropDotOf(p[..dot]);
      }
    } else {
      DropDotOf("$");
      assert "$." + "" == "$" + "." + "";
    }
  }

  predicate InsideRows(rows: seq<Row>, i: int) {
    forall r :: 0 <= r < |rows| ==> rows[r].Structure? ==> i >= 0 && RootPrefix(i) <= rows[r].path
  }

  lemma StepInElement(s: State, row: Row, column: nat, i: int, j: nat)
    requires Fits(s, row) && StartOrIn(s.history, column, i, j)
    requires row.Structure? ==> i >= 0 && RootPrefix(i) <= row.path
    requires Grows(s.history, Step(s, row.text).history, column + 2)
    ensures OwnedBy(RowPath(s, row), i)
    ensures StartOrIn(Step(s, row.text).history, column, i, j)
  {
    var info := InfoIn(row.text, s.block);
    if row.Noise? {
      NoisePath(s.history, info, column, i, j);
      hide Place, RootPrefix, InfoIn;
    } else {
      hide Place, RootPrefix, InfoIn;
      assert Place(s.history, info).path == row.path;
    }
  }

  function Same(n: nat, i: int): (s: seq<int>)
    ensures |s| == n && forall k :: 0 <= k < n ==> s[k] == i
  {
    seq(n, _ => i)
  }

  lemma OwnedStep(paths: seq<string>, n: nat, path: string, i: int)
    requires OwnedFrom(paths, Same(n, i), i) && OwnedBy(path, i)
    ensures OwnedFrom(paths + [path], Same(n + 1, i), i)
  {
    hide OwnedBy;
    assert (paths + [path])[..|paths|] == paths;
    assert Same(n + 1, i)[..n] == Same(n, i);
    assert Top(Same(n, i), i) == i;
  }

  lemma InsideInit(rows: seq<Row>, i: int)
    requires rows != [] && InsideRows(rows, i)
    ensures InsideRows(rows[..|rows| - 1], i)
    ensures var last := rows[|rows| - 1]; last.Structure? ==> i >= 0 && RootPrefix(i) <= last.path
  {
  }

  lemma NothingOwned(i: int)
    ensures OwnedFrom([], Same(0, i), i)
  {
  }

  lemma OneFits(s: State, row: Row)
    requires AllFit(s, [row])
    ensures Fits(s, row) && After(s, [row]) == Step(s, row.text)
  {
    assert [row][..0] == [];
  }

  lemma RunStep(s: State, init: seq<Row>, last: Row, column: nat, i: int, j: nat)
    requires AllFit(After(s, init), [last]) && StartOrIn(After(s, init).history, column, i, j)
    requires last.Structure? ==> i >= 0 && RootPrefix(i) <= last.path
    requires Grows(After(s, init).history, After(After(s, init), [last]).history, column + 2)
    requires OwnedFrom(RowPaths(s, init), Same(|init|, i), i)
    ensures StartOrIn(After(s, init + [last]).history, column, i, j)
    ensures OwnedFrom(RowPaths(s, init + [last]), Same(|init| + 1, i), i)
  {
    hide *;
    var before := After(s, init);
    OneFits(before, last);
    StepInElement(before, last, column, i, j);
    RowPathsStep(s, init, last);
    OwnedStep(RowPaths(s, init), |init|, RowPath(before, last), i);
  }

  lemma {:induction false} RunInElement(s: State, rows: seq<Row>, column: nat, i: int, j: nat)
    requires AllFit(s, rows) && StartOrIn(s.history, column, i, j) && InsideRows(rows, i)
    requires Grows(s.history, After(s, rows).history, column + 2)
    ensures StartOrIn(After(s, rows).history, column, i, j)
    ensures OwnedFrom(RowPaths(s, rows), Same(|rows|, i), i)
    decreases |rows|
  {
    hide *;
    if rows == [] {
      NothingOwned(i);
      NothingFits(s);
    } else {
      var init, last := rows[..|rows| - 1], rows[|rows| - 1];
      assert rows == init + [last];
      InsideInit(rows, i);
      AllFitSplit(s, init, [last]);
      GrowsSplit(s, init, [last], column + 2);
      RunInElement(s, init, column, i, j);
      RunStep(s, init, last, column, i, j);
    }
  }

  // ---------------------------------------------------------------- rows of a list, by element

  predicate AllUnder(rows: seq<Row>, path: string) {
    forall r :: 0 <= r < |rows| ==> rows[r].Structure? ==> path <= rows[r].path
  }

  lemma {:induction false} ValueUnder(v: Value, path: string)
    ensures AllUnder(ValueRows(v, path), path)
    decreases v
  {
    match v
    case Leaf =>
    case Body(_, _) =>
    case Map(n, es) => EntriesUnder(es, n, path);
    case Items(column, items) => ItemsUnder(items, column, path, 0);
  }

  lemma {:induction false} EntriesUnder(es: seq<Entry>, indent: nat, path: string)
    ensures AllUnder(EntryRows(es, indent, path), path)
    decreases es
  {
    if es != [] {
      ValueUnder(es[0].value, path + "." + es[0].key);
      EntriesUnder(es[1..], indent, path);
    }
  }

  lemma {:induction false} ItemUnder(item: Item, column: nat, path: string)
    ensures AllUnder(OneItemRows(item, column, path), path)
    decreases item
  {
    if item.Object? {
      ValueUnder(item.first.value, path + "." + item.first.key);
      EntriesUnder(item.rest, column + 2, path);
    }
  }

  lemma {:induction false} ItemsUnder(items: seq<Item>, column: nat, path: string, i: nat)
    ensures AllUnder(ItemRows(items, column, path, i), path)
    decreases items
  {
    if items != [] {
      ItemUnder(items[0], column, ElementPath(path, i));
      ItemsUnder(items[1..], column, path, i + 1);
    }
  }

  // ---------------------------------------------------------------- whole root lists

  function LeadingNoise(item: Item): seq<string> {
    match item
    case Scalar(noise, _) => noise
    case Object(e, _) => e.noise
  }

  function RestRows(item: Item, column: nat, path: string): seq<Row> {
    match item
    case Scalar(_, _) => []
    case Object(e, rest) => ValueRows(e.value, path + "." + e.key) + EntryRows(rest, column + 2, path)
  }

  lemma ItemRowsParts(item: Item, column: nat, path: string)
    ensures OneItemRows(item, column, path) ==
      NoiseRows(LeadingNoise(item)) + [ItemRow(item, column, path)] + RestRows(item, column, path)
    ensures AllUnder(OneItemRows(item, column, path), path)
    ensures path <= ItemRow(item, column, path).path
  {
    ItemUnder(item, column, path);
    hide ValueRows, EntryRows, NoiseRows, AllUnder;
    if item.Object? {
      var e := item.first;
      var noise, row := NoiseRows(e.noise), ItemRow(item, column, path);
      var value, others := ValueRows(e.value, path + "." + e.key), EntryRows(item.rest, column + 2, path);
      assert noise + [row] + value + others == noise + [row] + (value + others);
    }
  }

  /** Element i's own rows; the noise above its "-" line still belongs to the element before. */
  function ItemOwners(item: Item, column: nat, i: nat): (owners: seq<int>)
    ensures |owners| == |OneItemRows(item, column, RootPrefix(i))|
  {
    ItemRowsParts(item, column, RootPrefix(i));
    Same(|LeadingNoise(item)|, i - 1) + Same(1 + |RestRows(item, column, RootPrefix(i))|, i)
  }

  lemma DashStarts(s: State, row: Row, column: nat, i: nat, j: nat)
    requires Fits(s, row) && row.Structure? && RootPrefix(i) <= row.path && row.typ.Structural()
    requires StartOrIn(s.history, column, i - 1, j)
    requires InfoIn(row.text, s.block).indent == column + 2
    ensures InElement(Step(s, row.text).history, column, i, |s.history|)
    ensures RowPath(s, row) == row.path && Indexed(row.path) && OwnedBy(row.path, i)
  {
    hide Place, InfoIn, BlockAfter;
    assert |RootPrefix(i)| >= 4;
  }

  lemma OwnedDash(path: string, i: nat)
    requires Indexed(path) && OwnedBy(path, i)
    ensures OwnedFrom([path], Same(1, i), i - 1)
  {
    assert [path][..0] == [] && Same(1, i)[..0] == [];
  }

  lemma DashRow(s: State, item: Item, column: nat, i: nat)
    requires WellFormedItem(item, column)
    requires Fits(s, ItemRow(item, column, RootPrefix(i)))
    ensures InfoIn(ItemRow(item, column, RootPrefix(i)).text, s.block).indent == column + 2
    ensures ItemRow(item, column, RootPrefix(i)).typ.Structural()
  {
    hide Classify, OpensBlock, IsBlockScalar, PlainKey, Place, ElementPath, WellFormedEntries, WellFormedValue, AllNoise;
    match item {
      case Scalar(_, text) => ScalarLine(column, text);
      case Object(e, _) => DashLine(column, e.key, e.text);
    }
  }

  lemma NoiseInside(ls: seq<string>, i: int)
    ensures InsideRows(NoiseRows(ls), i)
  {
  }

  lemma UnderInside(a: seq<Row>, row: Row, b: seq<Row>, i: nat)
    requires AllUnder(a + [row] + b, RootPrefix(i))
    ensures InsideRows(b, i)
  {
    hide RootPrefix;
    forall r | 0 <= r < |b| ensures b[r].Structure? ==> RootPrefix(i) <= b[r].path {
      assert (a + [row] + b)[|a| + 1 + r] == b[r];
    }
  }

  lemma TopOfSame(n: nat, i: int)
    ensures Top(Same(n, i), i) == i && (n > 0 ==> forall f :: Top(Same(n, i), f) == i)
  {
  }

  lemma OneRowPath(s: State, row: Row)
    ensures RowPaths(s, [row]) == [RowPath(s, row)]
  {
    hide RowPath;
    assert [row][..0] == [];
  }

  lemma SameSplit(n: nat, i: int)
    ensures Same(1 + n, i) == Same(1, i) + Same(n, i)
  {
  }

  lemma ElementOwned(s: State, item: Item, column: nat, i: nat, j: nat) returns (k: nat)
    requires WellFormedItem(item, column) && StartOrIn(s.history, column, i - 1, j)
    requires AllFit(s, OneItemRows(item, column, RootPrefix(i)))
    requires Grows(s.history, After(s, OneItemRows(item, column, RootPrefix(i))).history, column + 2)
    ensures StartOrIn(After(s, OneItemRows(item, column, RootPrefix(i))).history, column, i, k)
    ensures OwnedFrom(RowPaths(s, OneItemRows(item, column, RootPrefix(i))), ItemOwners(item, column, i), i - 1)
    ensures Top(ItemOwners(item, column, i), i - 1) == i
  {
    hide *;
    ItemRowsParts(item, column, RootPrefix(i));
    var noise, row := NoiseRows(LeadingNoise(item)), ItemRow(item, column, RootPrefix(i));
    var rest := RestRows(item, column, RootPrefix(i));
    var n := |LeadingNoise(item)|;
    AllFitSplit(s, noise + [row], rest);
    AllFitSplit(s, noise, [row]);
    GrowsSplit(s, noise + [row], rest, column + 2);
    GrowsSplit(s, noise, [row], column + 2);
    NoiseInside(LeadingNoise(item), i - 1);
    RunInElement(s, noise, column, i - 1, j);
    var s1 := After(s, noise);
    OneFits(s1, row);
    DashRow(s1, item, column, i);
    ItemRowIsStructure(item, column, RootPrefix(i));
    DashStarts(s1, row, column, i, j);
    k := |s1.history|;
    AfterAppend(s, noise, [row]);
    var s2 := After(s, noise + [row]);
    UnderInside(noise, row, rest, i);
    InElementIs(s2.history, column, i, k);
    RunInElement(s2, rest, column, i, k);
    AfterAppend(s, noise + [row], rest);
    OwnedDash(row.path, i);
    ElementOwners(s, noise, row, rest, n, i);
    ItemOwnersAre(item, column, i);
  }

  lemma ItemRowIsStructure(item: Item, column: nat, path: string)
    ensures ItemRow(item, column, path).Structure?
  {
  }

  lemma InElementIs(h: seq<Placed>, column: nat, i: nat, j: nat)
    requires InElement(h, column, i, j)
    ensures StartOrIn(h, column, i, j)
  {
  }

  lemma ItemOwnersAre(item: Item, column: nat, i: nat)
    ensures ItemOwners(item, column, i) ==
      Same(|LeadingNoise(item)|, i - 1) + Same(1, i) + Same(|RestRows(item, column, RootPrefix(i))|, i)
    ensures Top(ItemOwners(item, column, i), i - 1) == i
  {
    hide RestRows, LeadingNoise, RootPrefix;
    SameSplit(|RestRows(item, column, RootPrefix(i))|, i);
  }

  lemma ElementOwners(s: State, noise: seq<Row>, row: Row, rest: seq<Row>, n: nat, i: nat)
    requires |noise| == n
    requires OwnedFrom(RowPaths(s, noise), Same(n, i - 1), i - 1)
    requires OwnedFrom([RowPath(After(s, noise), row)], Same(1, i), i - 1)
    requires OwnedFrom(RowPaths(After(s, noise + [row]), rest), Same(|rest|, i), i)
    ensures OwnedFrom(RowPaths(s, noise + [row] + rest), Same(n, i - 1) + Same(1, i) + Same(|rest|, i), i - 1)
  {
    hide *;
    RowPathsAppend(s, noise, [row]);
    RowPathsAppend(s, noise + [row], rest);
    OneRowPath(After(s, noise), row);
    TopOfSame(n, i - 1);
    TopOfSame(1, i);
    OwnedAppend(RowPaths(s, noise), Same(n, i - 1), [RowPath(After(s, noise), row)], Same(1, i), i - 1);
    OwnedAppend(RowPaths(s, noise + [row]), Same(n, i - 1) + Same(1, i), RowPaths(After(s, noise + [row]), rest), Same(|rest|, i), i - 1);
  }

  function ItemsOwners(items: seq<Item>, column: nat, i: nat): (owners: seq<int>)
    ensures |owners| == |ItemRows(items, column, "$", i)|
  {
    if items == [] then [] else ItemOwners(items[0], column, i) + ItemsOwners(items[1..], column, i + 1)
  }

  lemma {:induction false} ItemsOwned(s: State, items: seq<Item>, column: nat, i: nat, j: nat) returns (k: nat)
    requires WellFormedItems(items, column) && StartOrIn(s.history, column, i - 1, j)
    requires AllFit(s, ItemRows(items, column, "$", i))
    requires Grows(s.history, After(s, ItemRows(items, column, "$", i)).history, column + 2)
    ensures StartOrIn(After(s, ItemRows(items, column, "$", i)).history, column, i - 1 + |items|, k)
    ensures OwnedFrom(RowPaths(s, ItemRows(items, column, "$", i)), ItemsOwners(items, column, i), i - 1)
    ensures Top(ItemsOwners(items, column, i), i - 1) == i - 1 + |items|
    decreases items
  {
    hide *;
    if items == [] {
      NoItems(s, column, i);
      k := j;
    } else {
      SomeItems(items, column, i);
      var first, others := OneItemRows(items[0], column, RootPrefix(i)), ItemRows(items[1..], column, "$", i + 1);
      AllFitSplit(s, first, others);
      GrowsSplit(s, first, others, column + 2);
      var m := ElementOwned(s, items[0], column, i, j);
      var t := After(s, first);
      k := ItemsOwned(t, items[1..], column, i + 1, m);
      AfterAppend(s, first, others);
      RowPathsAppend(s, first, others);
      OwnedAppend(RowPaths(s, first), ItemOwners(items[0], column, i), RowPaths(t, others), ItemsOwners(items[1..], column, i + 1), i - 1);
    }
  }

  lemma NoItems(s: State, column: nat, i: nat)
    ensures ItemRows([], column, "$", i) == [] && ItemsOwners([], column, i) == []
    ensures After(s, []) == s && RowPaths(s, []) == []
    ensures OwnedFrom([], [], i - 1) && Top([], i - 1) == i - 1
  {
  }

  lemma SomeItems(items: seq<Item>, column: nat, i: nat)
    requires items != [] && WellFormedItems(items, column)
    ensures WellFormedItem(items[0], column) && WellFormedItems(items[1..], column)
    ensures ItemRows(items, column, "$", i) ==
      OneItemRows(items[0], column, RootPrefix(i)) + ItemRows(items[1..], column, "$", i + 1)
    ensures ItemsOwners(items, column, i) == ItemOwners(items[0], column, i) + ItemsOwners(items[1..], column, i + 1)
  {
    hide OneItemRows, WellFormedItem, ElementPath, ItemOwners;
    assert RootPrefix(i) == ElementPath("$", i);
  }

  // ---------------------------------------------------------------- the parsed document

  function DocPaths(lines: seq<string>): (ps: seq<string>)
    ensures |ps| == DocLength(lines)
  {
    seq(DocLength(lines), r requires 0 <= r < DocLength(lines) => PlacedAt([], Scan(lines), r).path)
  }

  function DocOwners(d: Doc, rest: seq<string>): seq<int>
    requires d.root.Items?
  {
    ItemsOwners(d.root.items, d.root.column, 0)
    + Same(|d.tail| + (if rest == [] then 0 else 1), |d.root.items| - 1)
  }

  lemma RootParts(d: Doc)
    requires WellFormedDoc(d) && d.root.Items?
    ensures DocRows(d) == ItemRows(d.root.items, d.root.column, "$", 0) + NoiseRows(d.tail)
    ensures WellFormedItems(d.root.items, d.root.column) && AllNoise(d.tail) && d.root.items != []
    ensures Below(Closed, d.root.column) && InList(Previous([], d.root.column + 2), d.root.column, "$", 0, "")
    ensures StartOrIn([], d.root.column, -1, 0)
  {
    hide ItemRows, WellFormedItems;
  }

  lemma TailOwned(s: State, rows: seq<Row>, owners: seq<int>, ls: seq<string>, column: nat, top: nat, k: nat)
    requires AllNoise(ls) && Below(After(s, rows).block, column)
    requires StartOrIn(After(s, rows).history, column, top, k)
    requires OwnedFrom(RowPaths(s, rows), owners, -1) && Top(owners, -1) == top
    ensures OwnedFrom(RowPaths(s, rows + NoiseRows(ls)), owners + Same(|ls|, top), -1)
  {
    hide *;
    var t, tail := After(s, rows), NoiseRows(ls);
    NoiseFits(t, ls, column);
    NoiseInside(ls, top);
    GrowsNothing(t.history, column + 2);
    RunInElement(t, tail, column, top, k);
    RowPathsAppend(s, rows, tail);
    OwnedAppend(RowPaths(s, rows), owners, RowPaths(t, tail), Same(|ls|, top), -1);
  }

  lemma RootRowsOwned(d: Doc)
    requires WellFormedDoc(d) && d.root.Items?
    ensures OwnedFrom(RowPaths(State(Closed, []), DocRows(d)),
                      ItemsOwners(d.root.items, d.root.column, 0) + Same(|d.tail|, |d.root.items| - 1), -1)
    ensures Top(ItemsOwners(d.root.items, d.root.column, 0), -1) == |d.root.items| - 1
  {
    hide *;
    var s, items, column := State(Closed, []), d.root.items, d.root.column;
    RootParts(d);
    ItemsFit(s, items, column, "$", 0, "");
    var k := ItemsOwned(s, items, column, 0, 0);
    TailOwned(s, ItemRows(items, column, "$", 0), ItemsOwners(items, column, 0), d.tail, column, |items| - 1, k);
  }

  lemma GrowsNothing(h: seq<Placed>, indent: nat)
    ensures Grows(h, h, indent)
  {
  }

  lemma RowPathIs(d: Doc, rest: seq<string>, r: nat)
    requires var lines := Texts(DocRows(d)) + rest; |DocRows(d)| <= DocLength(lines) && r < |DocRows(d)|
    ensures DocPaths(Texts(DocRows(d)) + rest)[r] == RowPaths(State(Closed, []), DocRows(d))[r]
  {
    hide DocRows, After, RowPaths, Place, DocLength, InfoIn;
    var rows, lines := DocRows(d), Texts(DocRows(d)) + rest;
    RowPathsAt(State(Closed, []), rows, r);
    AfterIsBothPasses(rows, lines, r);
    assert lines[r] == rows[r].text;
  }

  lemma SeparatorPath(lines: seq<string>, n: nat)
    requires n < DocLength(lines) && lines[n] == SEPARATOR
    ensures DocPaths(lines)[n] == ""
  {
    hide Previous, ListPath, KeyPath, BlockAt, Trail;
    assert Scan(lines)[n] == LineInfo(DocSeparator, SEPARATOR, 0, -1, "");
  }

  lemma OwnedSeparator(paths: seq<string>, owners: seq<int>, from: int)
    requires OwnedFrom(paths, owners, from)
    ensures OwnedFrom(paths + [""], owners + [Top(owners, from)], from)
  {
    assert (paths + [""])[..|paths|] == paths;
    assert (owners + [Top(owners, from)])[..|owners|] == owners;
  }

  lemma DocOwnersAre(d: Doc, rest: seq<string>)
    requires d.root.Items?
    ensures var owners := ItemsOwners(d.root.items, d.root.column, 0) + Same(|d.tail|, |d.root.items| - 1);
            DocOwners(d, rest) == if rest == [] then owners else owners + [|d.root.items| - 1]
  {
    hide ItemsOwners;
  }

  lemma TopOfOwners(d: Doc)
    requires d.root.Items? && Top(ItemsOwners(d.root.items, d.root.column, 0), -1) == |d.root.items| - 1
    ensures Top(ItemsOwners(d.root.items, d.root.column, 0) + Same(|d.tail|, |d.root.items| - 1), -1) == |d.root.items| - 1
  {
    hide ItemsOwners;
  }

  /** The owners of a root list's lines explain every path that the parser gives them. */
  lemma RootListOwned(d: Doc, rest: seq<string>)
    requires WellFormedDoc(d) && d.root.Items? && (rest != [] ==> rest[0] == SEPARATOR)
    ensures OwnedFrom(DocPaths(Texts(DocRows(d)) + rest), DocOwners(d, rest), -1)
    ensures Top(DocOwners(d, rest), -1) == |d.root.items| - 1
  {
    hide *;
    var rows, lines := DocRows(d), Texts(DocRows(d)) + rest;
    var paths := DocPaths(lines);
    ParserInvertsPrinter(d, rest);
    RootRowsOwned(d);
    TopOfOwners(d);
    DocOwnersAre(d, rest);
    var rowPaths := RowPaths(State(Closed, []), rows);
    forall r | 0 <= r < |rows| ensures paths[r] == rowPaths[r] {
      RowPathIs(d, rest, r);
    }
    if rest == [] {
      assert paths == rowPaths;
    } else {
      assert lines[|rows|] == SEPARATOR;
      SeparatorPath(lines, |rows|);
      assert paths == rowPaths + [""];
      OwnedSeparator(rowPaths, ItemsOwners(d.root.items, d.root.column, 0) + Same(|d.tail|, |d.root.items| - 1), -1);
      assert Top(DocOwners(d, rest), -1) == |d.root.items| - 1 by {
        LastOwner(ItemsOwners(d.root.items, d.root.column, 0) + Same(|d.tail|, |d.root.items| - 1), |d.root.items| - 1);
      }
    }
  }

  lemma LastOwner(owners: seq<int>, last: int)
    ensures Top(owners + [last], -1) == last
  {
  }

  // ---------------------------------------------------------------- the nodes of a root list

  lemma OwnerBounds(paths: seq<string>, owners: seq<int>, r: nat)
    requires Owned(paths, owners) && r < |paths|
    ensures |owners| == |paths| && OwnedBy(paths[r], owners[r]) && -1 <= owners[r] <= Top(owners, -1)
  {
    OwnersAscend(paths, owners);
    OwnedAt(paths, owners, r);
  }

  lemma {:induction false} OwnedAt(paths: seq<string>, owners: seq<int>, r: nat)
    requires Owned(paths, owners) && r < |paths|
    ensures OwnedBy(paths[r], owners[r])
    decreases |paths|
  {
    if r < |paths| - 1 {
      OwnedAt(paths[..|paths| - 1], owners[..|owners| - 1], r);
    }
  }

  lemma FirstDash(d: Doc)
    requires WellFormedDoc(d) && d.root.Items?
    ensures var n := |LeadingNoise(d.root.items[0])|;
            n < |DocRows(d)| && DocRows(d)[n] == ItemRow(d.root.items[0], d.root.column, RootPrefix(0))
  {
    RootParts(d);
    ItemRowsParts(d.root.items[0], d.root.column, RootPrefix(0));
    SomeItems(d.root.items, d.root.column, 0);
    hide OneItemRows, ItemRows, WellFormedItems, WellFormedItem, DocRows, RestRows, ItemRow, RootPrefix;
  }

  /** The parser recognises the document as a list. */
  lemma RootListRecognized(d: Doc, rest: seq<string>, lines: seq<Line>)
    requires WellFormedDoc(d) && d.root.Items? && (rest != [] ==> rest[0] == SEPARATOR)
    requires Parsed(lines, Texts(DocRows(d)) + rest)
    ensures IsRootList(lines)
  {
    var n := |LeadingNoise(d.root.items[0])|;
    FirstDash(d);
    ParserInvertsPrinter(d, rest);
    ItemRowsParts(d.root.items[0], d.root.column, RootPrefix(0));
    var row := DocRows(d)[n];
    assert Read(Texts(DocRows(d)) + rest, n, row);
    assert row.Structure? && row.typ.IsList() && RootPrefix(0) <= row.path;
    assert "$[" <= RootPrefix(0);
    hide DocRows, WellFormedDoc, OneItemRows, Scan, PlacedAt, RootPrefix;
    assert IsRootListLine(lines[n]);
  }

  lemma PathsOfParsed(lines: seq<Line>, texts: seq<string>)
    requires Parsed(lines, texts)
    ensures Paths(lines) == DocPaths(texts)
  {
    hide PlacedAt, Scan;
  }

  /** Line x of piece k is line Start(k) + x of the document. */
  function StartOf(cuts: seq<nat>, k: nat): nat
    requires k <= |cuts|
  {
    if k == 0 then 0 else cuts[k - 1]
  }

  lemma PieceLine(doc: Document, docs: seq<Document>, cuts: seq<nat>, k: nat, x: nat)
    requires Tiles(docs, doc.offset, doc.End()) && AllLines(docs) == doc.lines && StartAtCuts(docs, doc.offset, cuts)
    requires k < |docs| && x < |docs[k].lines|
    ensures StartOf(cuts, k) + x < |doc.lines| && docs[k].lines[x] == doc.lines[StartOf(cuts, k) + x]
    ensures k < |cuts| ==> StartOf(cuts, k) + x < cuts[k]
  {
    AllLinesAt(docs, doc.offset, doc.End(), k, x);
    TilesBounds(docs, doc.offset, doc.End(), k);
    if k < |cuts| {
      TilesBounds(docs, doc.offset, doc.End(), k + 1);
    }
    hide Tiles, AllLines;
  }

  lemma OwnerOfPiece(paths: seq<string>, owners: seq<int>, k: nat, r: nat)
    requires Owned(paths, owners) && r < |paths| && Top(owners, -1) >= 0
    requires Splittable(paths) && k <= |Cuts(paths)|
    requires StartOf(Cuts(paths), k) <= r && (k < |Cuts(paths)| ==> r < Cuts(paths)[k])
    requires Indexed(paths[r])
    ensures RootPrefix(k) <= paths[r] && IndexOf(paths[r], ']') >= 2 && Mark(paths[r]) == Itoa(k)
  {
    hide *;
    OwnerBounds(paths, owners, r);
    CutsOfOwned(paths, owners);
    OwnedPrefix(paths[r], owners[r]);
    StartOfIs(Cuts(paths), k);
    assert owners[r] == k;
    MarkOfOwned(paths[r], k);
  }

  lemma StartOfIs(cuts: seq<nat>, k: nat)
    requires k <= |cuts|
    ensures StartOf(cuts, k) == if k == 0 then 0 else cuts[k - 1]
  {
  }

  lemma OwnedPrefix(path: string, owner: int)
    requires OwnedBy(path, owner) && Indexed(path)
    ensures owner >= 0 && RootPrefix(owner) <= path
  {
  }

  /** This line, if indexed, lies in root element k. */
  ghost predicate InRootElement(l: Line, k: nat)
    reads l
  {
    Indexed(l.path) ==> RootPrefix(k) <= l.path && IndexOf(l.path, ']') >= 2 && Mark(l.path) == Itoa(k)
  }

  lemma PieceInElement(d: Doc, rest: seq<string>, doc: Document, docs: seq<Document>, k: nat)
    requires WellFormedDoc(d) && d.root.Items? && (rest != [] ==> rest[0] == SEPARATOR)
    requires Parsed(doc.lines, Texts(DocRows(d)) + rest)
    requires Splittable(Paths(doc.lines)) && StartAtCuts(docs, doc.offset, Cuts(Paths(doc.lines)))
    requires Tiles(docs, doc.offset, doc.End()) && AllLines(docs) == doc.lines
    requires k < |docs|
    ensures forall x :: 0 <= x < |docs[k].lines| ==> InRootElement(docs[k].lines[x], k)
  {
    hide *;
    var paths, owners := Paths(doc.lines), DocOwners(d, rest);
    PathsOfParsed(doc.lines, Texts(DocRows(d)) + rest);
    RootListOwned(d, rest);
    RootParts(d);
    var cuts := Cuts(paths);
    StartAtCutsCount(docs, doc.offset, cuts);
    forall x | 0 <= x < |docs[k].lines| ensures InRootElement(docs[k].lines[x], k) {
      PieceLine(doc, docs, cuts, k, x);
      var r := StartOf(cuts, k) + x;
      assert docs[k].lines[x].path == paths[r];
      OwnedIs(paths, owners);
      if Indexed(paths[r]) {
        OwnerOfPiece(paths, owners, k, r);
      }
      InRootElementIs(docs[k].lines[x], k);
    }
  }

  lemma OwnedIs(paths: seq<string>, owners: seq<int>)
    ensures Owned(paths, owners) == OwnedFrom(paths, owners, -1)
  {
  }

  lemma StartAtCutsCount(docs: seq<Document>, offset: nat, cuts: seq<nat>)
    requires StartAtCuts(docs, offset, cuts)
    ensures |docs| == |cuts| + 1
  {
  }

  lemma InRootElementIs(l: Line, k: nat)
    requires Indexed(l.path) ==> RootPrefix(k) <= l.path && IndexOf(l.path, ']') >= 2 && Mark(l.path) == Itoa(k)
    ensures InRootElement(l, k)
  {
  }

  lemma RootListCuts(d: Doc, rest: seq<string>, lines: seq<Line>)
    requires WellFormedDoc(d) && d.root.Items? && (rest != [] ==> rest[0] == SEPARATOR)
    requires Parsed(lines, Texts(DocRows(d)) + rest)
    ensures Splittable(Paths(lines)) && |Cuts(Paths(lines))| == |d.root.items| - 1
  {
    hide *;
    PathsOfParsed(lines, Texts(DocRows(d)) + rest);
    RootListOwned(d, rest);
    RootParts(d);
    OwnedIs(Paths(lines), DocOwners(d, rest));
    CutsOfOwned(Paths(lines), DocOwners(d, rest));
  }

  lemma NodesOfParts(doc: Document, docs: seq<Document>, nodes: seq<SimpleObjectNode>)
    requires NodesOf(doc, docs, nodes) && IsRootList(doc.lines)
    ensures Docs(nodes) == docs && ElementNodes(nodes) && Splittable(Paths(doc.lines))
    ensures Tiles(docs, doc.offset, doc.End()) && AllLines(docs) == doc.lines
    ensures StartAtCuts(docs, doc.offset, Cuts(Paths(doc.lines)))
  {
  }

  /** A root list turned into nodes: one non-empty node for each element, and every indexed
      line of node k carries root index k, the index that the node's own look-ups use. */
  lemma RootListNodes(d: Doc, rest: seq<string>, doc: Document, docs: seq<Document>, nodes: seq<SimpleObjectNode>)
    requires WellFormedDoc(d) && d.root.Items? && (rest != [] ==> rest[0] == SEPARATOR)
    requires Parsed(doc.lines, Texts(DocRows(d)) + rest) && NodesOf(doc, docs, nodes)
    ensures |nodes| == |d.root.items|
    ensures forall k :: 0 <= k < |nodes| ==>
      && nodes[k].isListElement && nodes[k].listElementIndex == k
      && nodes[k].doc.lines != []
      && forall x :: 0 <= x < |nodes[k].doc.lines| ==> InRootElement(nodes[k].doc.lines[x], k)
  {
    RootListRecognized(d, rest, doc.lines);
    NodesOfParts(doc, docs, nodes);
    RootListCuts(d, rest, doc.lines);
    hide Tiles, AllLines, NodesOf, IsRootList, InRootElement, Cuts, Splittable, Parsed, DocRows, WellFormedDoc, Docs;
    forall k | 0 <= k < |nodes|
      ensures nodes[k].doc.lines != []
      ensures forall x :: 0 <= x < |nodes[k].doc.lines| ==> InRootElement(nodes[k].doc.lines[x], k)
    {
      assert nodes[k].doc == docs[k];
      TilesBounds(docs, doc.offset, doc.End(), k);
      PieceInElement(d, rest, doc, docs, k);
    }
  }
}
