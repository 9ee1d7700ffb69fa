/** The parser inverts the block-style printer: an induction over the document tree that
    follows the parser's state line by line. */
module ParserInversion {
  import opened Options
  import opened Strings
  import opened YamlLines
  import opened BlockStyle

  /** Both passes seen as one machine: the open block scalar and the structural lines so far. */
  datatype State = State(block: Block, history: seq<Placed>)

  const START := State(Closed, [])

  function Step(s: State, text: string): State {
    State(BlockAfter(text, s.block), Extend(s.history, InfoIn(text, s.block)))
  }

  function After(s: State, rows: seq<Row>): State {
    if rows == [] then s else Step(After(s, rows[..|rows| - 1]), rows[|rows| - 1].text)
  }

  /** The parser, in state s, gives this line the type and path it was printed for. */
  predicate Fits(s: State, row: Row) {
    var info := InfoIn(row.text, s.block);
    && row.text != SEPARATOR
    && match row
       case Noise(_) => !info.typ.Structural()
       case Structure(_, typ, path) => info.typ == typ && Place(s.history, info).path == path
  }

  ghost predicate AllFit(s: State, rows: seq<Row>) {
    forall i :: 0 <= i < |rows| ==> Fits(After(s, rows[..i]), rows[i])
  }

  lemma {:induction false} AfterAppend(s: State, a: seq<Row>, b: seq<Row>)
    ensures After(s, a + b) == After(After(s, a), b)
    decreases |b|
  {
    hide Step;
    if b == [] {
      assert a + b == a;
    } else {
      AfterAppend(s, a, b[..|b| - 1]);
      assert (a + b)[..|a + b| - 1] == a + b[..|b| - 1];
    }
  }

  lemma AllFitAppend(s: State, a: seq<Row>, b: seq<Row>)
    requires AllFit(s, a) && AllFit(After(s, a), b)
    ensures AllFit(s, a + b) && After(s, a + b) == After(After(s, a), b)
  {
    hide Fits, After;
    AfterAppend(s, a, b);
    forall i | 0 <= i < |a + b| ensures Fits(After(s, (a + b)[..i]), (a + b)[i]) {
      if i < |a| {
        assert (a + b)[..i] == a[..i];
      } else {
        assert (a + b)[..i] == a + b[..i - |a|];
        AfterAppend(s, a, b[..i - |a|]);
      }
    }
  }

  lemma NothingFits(s: State)
    ensures AllFit(s, []) && After(s, []) == s
  {
  }

  lemma AllFitOne(s: State, row: Row)
    requires Fits(s, row)
    ensures AllFit(s, [row]) && After(s, [row]) == Step(s, row.text)
  {
    assert [row][..0] == [];
  }

  // ---------------------------------------------------------------- looking back

  /** h continues into h', and everything new is indented at least this deep. */
  ghost predicate Grows(h: seq<Placed>, h': seq<Placed>, indent: nat) {
    h <= h' && forall i :: |h| <= i < |h'| ==> h'[i].indent >= indent
  }

  lemma {:induction false} PreviousGrows(h: seq<Placed>, h': seq<Placed>, indent: nat, m: nat)
    requires Grows(h, h', indent) && m < indent
    ensures Previous(h', m) == Previous(h, m)
    decreases |h'|
  {
    if |h'| > |h| {
      PreviousGrows(h, h'[..|h'| - 1], indent, m);
    } else {
      assert h' == h;
    }
  }

  lemma PreviousOfLast(h: seq<Placed>, m: nat)
    requires h != [] && h[|h| - 1].indent <= m
    ensures Previous(h, m) == Some(h[|h| - 1])
  {
  }

  /** No open block scalar reaches a line at this indent or shallower. */
  predicate Below(block: Block, indent: nat) {
    block.Open? ==> block.indent >= indent + 2
  }

  lemma GrowsTransitive(a: seq<Placed>, b: seq<Placed>, c: seq<Placed>, m: nat, n: nat)
    requires Grows(a, b, m) && Grows(b, c, n)
    ensures Grows(a, c, if m < n then m else n)
  {
  }

  lemma GrowsByOne(h: seq<Placed>, p: Placed)
    ensures Grows(h, h + [p], p.indent) && Previous(h + [p], p.indent) == Some(p)
  {
    PreviousOfLast(h + [p], p.indent);
  }

  /** What the look back finds for a key line at this indent in the mapping at path: the parent
      (sibling == "") or the previous entry, named sibling. */
  predicate InMapping(prev: Option<Placed>, indent: nat, path: string, sibling: string, listIndex: nat) {
    match prev
    case None => sibling == "" && path == "$" && listIndex == 0
    case Some(p) =>
      if sibling == "" then p.indent < indent && p.path == path && listIndex == 0
      else PlainKey(sibling) && p.indent == indent && p.path == path + "." + sibling && p.listIndex == listIndex
  }

  function Suffix(key: string): string {
    if key == "" then "" else "." + key
  }

  /** What the look back finds for the "-" line at this column of element i of the list at
      path: the parent, or the last line at that depth of element i - 1. */
  predicate InList(prev: Option<Placed>, column: nat, path: string, i: nat, sibling: string) {
    match prev
    case None => i == 0 && path == "$"
    case Some(p) =>
      if i == 0 then p.indent < column + 2 && p.path == path
      else
        && p.indent == column + 2 && p.listIndex == i - 1
        && (sibling == "" || PlainKey(sibling))
        && p.path == ElementPath(path, i - 1) + Suffix(sibling)
  }

  lemma DropDotAfter(path: string, key: string)
    requires key == "" || PlainKey(key)
    ensures DropDot(path + "." + key) == path + Suffix(key)
  {
    var full := path + "." + key;
    if key == "" {
      assert full[..|full| - 1] == path + Suffix(key);
    } else {
      assert full[|full| - 1] == key[|key| - 1];
      assert path + Suffix(key) == full;
    }
  }

  lemma KeyPathIs(prev: Option<Placed>, indent: nat, path: string, sibling: string, listIndex: nat, key: string)
    requires InMapping(prev, indent, path, sibling, listIndex)
    ensures KeyPath(prev, indent, key) == (path + "." + key, listIndex)
  {
    assert "$" + "." == "$.";
    if sibling != "" {
      LastIndexOfSplit(path, '.', sibling);
      assert (path + "." + sibling)[..|path|] == path;
    }
  }

  lemma ElementCut(path: string, i: nat, sibling: string)
    requires sibling == "" || PlainKey(sibling)
    ensures var p := ElementPath(path, i) + Suffix(sibling);
            LastIndexOf(p, '[') == |path| && p[..|path|] == path
  {
    var tail := Itoa(i) + "]" + Suffix(sibling);
    assert ElementPath(path, i) + Suffix(sibling) == path + "[" + tail;
    assert '[' !in Itoa(i) && '[' !in Suffix(sibling);
    assert '[' !in tail;
    LastIndexOfSplit(path, '[', tail);
  }

  lemma FirstElement(path: string, key: string)
    ensures path + "[0]." + key == ElementPath(path, 0) + "." + key
  {
    assert Itoa(0) == "0";
    assert path + "[0]." == ElementPath(path, 0) + ".";
  }

  lemma ListPathIs(prev: Option<Placed>, column: nat, path: string, i: nat, sibling: string, key: string)
    requires InList(prev, column, path, i, sibling)
    ensures ListPath(prev, column + 2, key) == (ElementPath(path, i) + "." + key, i)
  {
    hide LastIndexOf, Itoa, PlainKey;
    FirstElement(path, key);
    assert "$" + "[0]." == "$[0].";
    if i > 0 {
      ElementCut(path, i - 1, sibling);
      assert path + "[" + Itoa(i) + "]." + key == ElementPath(path, i) + "." + key;
    }
  }

  lemma PlaceKey(h: seq<Placed>, info: LineInfo, path: string, sibling: string, listIndex: nat)
    requires info.typ == Mapping && PlainKey(info.key)
    requires InMapping(Previous(h, info.indent), info.indent, path, sibling, listIndex)
    ensures Place(h, info) == Placed(info.indent, path + "." + info.key, listIndex)
  {
    hide KeyPath, ListPath, DropDot, Previous, InMapping;
    KeyPathIs(Previous(h, info.indent), info.indent, path, sibling, listIndex, info.key);
    DropDotAfter(path, info.key);
    assert path + Suffix(info.key) == path + "." + info.key;
  }

  lemma PlaceElement(h: seq<Placed>, info: LineInfo, column: nat, path: string, i: nat, sibling: string)
    requires info.typ.IsList() && info.indent == column + 2
    requires info.key == "" || PlainKey(info.key)
    requires InList(Previous(h, column + 2), column, path, i, sibling)
    ensures Place(h, info) == Placed(info.indent, ElementPath(path, i) + Suffix(info.key), i)
  {
    hide KeyPath, ListPath, DropDot, Previous, InList;
    ListPathIs(Previous(h, column + 2), column, path, i, sibling, info.key);
    DropDotAfter(ElementPath(path, i), info.key);
  }

  // ---------------------------------------------------------------- single rows

  lemma NoiseLineFits(s: State, l: string, indent: nat)
    requires NoiseLine(l) && Below(s.block, indent)
    ensures Fits(s, Noise(l))
    ensures Step(s, l).history == s.history && Below(Step(s, l).block, indent)
  {
    NoiseIsNoise(l);
    hide NoiseLine, Classify, OpensBlock;
  }

  lemma {:induction false} NoiseFits(s: State, ls: seq<string>, indent: nat)
    requires AllNoise(ls) && Below(s.block, indent)
    ensures AllFit(s, NoiseRows(ls))
    ensures var t := After(s, NoiseRows(ls)); t.history == s.history && Below(t.block, indent)
    decreases |ls|
  {
    hide NoiseLine, Fits, Step, After, AllFit, Below;
    if ls == [] {
      NothingFits(s);
    } else {
      var init, last := ls[..|ls| - 1], ls[|ls| - 1];
      NoiseFits(s, init, indent);
      var t := After(s, NoiseRows(init));
      NoiseLineFits(t, last, indent);
      AllFitOne(t, Noise(last));
      AllFitAppend(s, NoiseRows(init), [Noise(last)]);
      assert NoiseRows(ls) == NoiseRows(init) + [Noise(last)];
    }
  }

  lemma BodyLineFits(s: State, l: string, indent: nat)
    requires s.block == Open(indent + 2) && Indent(l) >= indent + 2
    ensures Fits(s, Noise(l)) && Step(s, l) == s
  {
    assert Indent(SEPARATOR) == 0;
  }

  lemma {:induction false} BodyFits(s: State, ls: seq<string>, indent: nat)
    requires s.block == Open(indent + 2)
    requires forall i :: 0 <= i < |ls| ==> Indent(ls[i]) >= indent + 2
    ensures AllFit(s, NoiseRows(ls)) && After(s, NoiseRows(ls)) == s
    decreases |ls|
  {
    hide Fits, Step, After, AllFit;
    if ls == [] {
      NothingFits(s);
    } else {
      var init, last := ls[..|ls| - 1], ls[|ls| - 1];
      BodyFits(s, init, indent);
      BodyLineFits(s, last, indent);
      AllFitOne(s, Noise(last));
      AllFitAppend(s, NoiseRows(init), [Noise(last)]);
      assert NoiseRows(ls) == NoiseRows(init) + [Noise(last)];
    }
  }

  lemma KeyRowFits(s: State, e: Entry, indent: nat, path: string, sibling: string, listIndex: nat)
    requires PlainKey(e.key) && Below(s.block, indent)
    requires InMapping(Previous(s.history, indent), indent, path, sibling, listIndex)
    ensures var row := KeyRow(e, indent, path);
            && Fits(s, row)
            && Step(s, row.text) ==
               State(if EndsWithHeader(KeyText(e)) then Open(indent + 2) else Closed,
                     s.history + [Placed(indent, path + "." + e.key, listIndex)])
  {
    hide Classify, OpensBlock, EndsWithHeader, PlainKey, Place, Previous, InMapping, KeyText;
    KeyLine(indent, e.key, KeyText(e));
    var info := Classify(KeyRow(e, indent, path).text);
    PlaceKey(s.history, info, path, sibling, listIndex);
  }

  function FirstKey(item: Item): string {
    match item
    case Scalar(_, _) => ""
    case Object(e, _) => e.key
  }

  /** A line of a list that reads as this fits, with a key or without one. */
  lemma ListRowFits(s: State, row: Row, value: string, colon: ColonIdx, key: string, column: nat, path: string, i: nat, sibling: string)
    requires row.Structure? && row.typ.IsList() && row.path == ElementPath(path, i) + Suffix(key)
    requires row.text != SEPARATOR && Indent(row.text) == column && !OpensBlock(row.text)
    requires Classify(row.text) == LineInfo(row.typ, value, column + 2, colon, key)
    requires (key == "" || PlainKey(key)) && Below(s.block, column)
    requires InList(Previous(s.history, column + 2), column, path, i, sibling)
    ensures Fits(s, row)
    ensures Step(s, row.text) == State(Closed, s.history + [Placed(column + 2, row.path, i)])
  {
    hide Classify, OpensBlock, PlainKey, Place, Previous, InList, ElementPath;
    PlaceElement(s.history, Classify(row.text), column, path, i, sibling);
  }

  lemma ItemRowFits(s: State, item: Item, column: nat, path: string, i: nat, sibling: string)
    requires WellFormedItem(item, column) && Below(s.block, column)
    requires InList(Previous(s.history, column + 2), column, path, i, sibling)
    ensures var row := ItemRow(item, column, ElementPath(path, i));
            && Fits(s, row)
            && Step(s, row.text) ==
               State(Closed, s.history + [Placed(column + 2, ElementPath(path, i) + Suffix(FirstKey(item)), i)])
  {
    var here, row := ElementPath(path, i), ItemRow(item, column, ElementPath(path, i));
    hide Classify, OpensBlock, IsBlockScalar, PlainKey, Fits, Step, Previous, InList, ElementPath, WellFormedEntries, WellFormedValue, ColonIndex;
    match item {
      case Scalar(_, text) =>
        ScalarLine(column, text);
        assert here + Suffix("") == here;
        ListRowFits(s, row, text, -1, "", column, path, i, sibling);
      case Object(e, _) =>
        DashLine(column, e.key, e.text);
        PlainKeyNotEmpty(e.key);
        assert here + Suffix(e.key) == here + "." + e.key;
        ListRowFits(s, row, e.key + ":" + e.text, |e.key|, e.key, column, path, i, sibling);
    }
  }

  lemma PlainKeyNotEmpty(key: string)
    requires PlainKey(key)
    ensures key != ""
  {
  }

  // ---------------------------------------------------------------- the tree

  function LastKey(es: seq<Entry>, before: string): string {
    if es == [] then before else es[|es| - 1].key
  }

  function LastItemKey(item: Item): string {
    match item
    case Scalar(_, _) => ""
    case Object(e, rest) => LastKey(rest, e.key)
  }

  lemma {:induction false} ValueFits(s: State, v: Value, indent: nat, path: string, dash: bool)
    requires WellFormedValue(v, indent, dash)
    requires s.block == if v.Body? then Open(indent + 2) else Closed
    requires s.history != []
    requires s.history[|s.history| - 1].indent == indent && s.history[|s.history| - 1].path == path
    ensures AllFit(s, ValueRows(v, path))
    ensures var t := After(s, ValueRows(v, path)); Grows(s.history, t.history, indent + 1) && Below(t.block, indent)
    decreases v
  {
    hide AllFit, After, EntryRows, ItemRows, WellFormedEntries, WellFormedItems;
    match v
    case Leaf =>
      NothingFits(s);
    case Body(_, ls) =>
      BodyFits(s, ls, indent);
    case Map(n, entries) =>
      PreviousOfLast(s.history, n);
      EntriesFit(s, entries, n, path, "", 0);
    case Items(column, items) =>
      PreviousOfLast(s.history, column + 2);
      ItemsFit(s, items, column, path, 0, "");
  }

  /** The noise, the key line and the value of one entry. */
  lemma {:induction false} EntryFits(s: State, e: Entry, indent: nat, path: string, sibling: string, listIndex: nat)
    requires WellFormedEntry(e, indent, false) && Below(s.block, indent)
    requires InMapping(Previous(s.history, indent), indent, path, sibling, listIndex)
    ensures var rows := NoiseRows(e.noise) + [KeyRow(e, indent, path)] + ValueRows(e.value, path + "." + e.key);
            var t := After(s, rows);
            && AllFit(s, rows)
            && Grows(s.history, t.history, indent)
            && Below(t.block, indent)
            && InMapping(Previous(t.history, indent), indent, path, e.key, listIndex)
    decreases e
  {
    assert WellFormedValue(e.value, indent, false) && PlainKey(e.key);
    var noise, row, value := NoiseRows(e.noise), KeyRow(e, indent, path), ValueRows(e.value, path + "." + e.key);
    var p := Placed(indent, path + "." + e.key, listIndex);
    assert InMapping(Some(p), indent, path, e.key, listIndex);
    assert Below(Closed, indent);
    KeyTextHeader(e, indent);
    hide *;
    NoiseFits(s, e.noise, indent);
    var s1 := After(s, noise);
    KeyRowFits(s1, e, indent, path, sibling, listIndex);
    var s2 := Step(s1, row.text);
    AllFitOne(s1, row);
    AllFitAppend(s, noise, [row]);
    GrowsByOne(s1.history, p);
    ValueFits(s2, e.value, indent, path + "." + e.key, false);
    var s3 := After(s2, value);
    PreviousGrows(s2.history, s3.history, indent + 1, indent);
    GrowsTransitive(s1.history, s2.history, s3.history, indent, indent + 1);
    AllFitAppend(s, noise + [row], value);
  }

  lemma {:induction false} EntriesFit(s: State, es: seq<Entry>, indent: nat, path: string, sibling: string, listIndex: nat)
    requires WellFormedEntries(es, indent) && Below(s.block, indent)
    requires InMapping(Previous(s.history, indent), indent, path, sibling, listIndex)
    ensures AllFit(s, EntryRows(es, indent, path))
    ensures var t := After(s, EntryRows(es, indent, path));
            && Grows(s.history, t.history, indent)
            && Below(t.block, indent)
            && InMapping(Previous(t.history, indent), indent, path, LastKey(es, sibling), listIndex)
    decreases es
  {
    if es == [] {
      NothingFits(s);
    } else {
      var e := es[0];
      var first := NoiseRows(e.noise) + [KeyRow(e, indent, path)] + ValueRows(e.value, path + "." + e.key);
      var others := EntryRows(es[1..], indent, path);
      assert EntryRows(es, indent, path) == first + others;
      assert WellFormedEntry(e, indent, false) && WellFormedEntries(es[1..], indent);
      assert LastKey(es, sibling) == LastKey(es[1..], e.key);
      hide *;
      EntryFits(s, e, indent, path, sibling, listIndex);
      var s1 := After(s, first);
      EntriesFit(s1, es[1..], indent, path, e.key, listIndex);
      AllFitAppend(s, first, others);
      GrowsTransitive(s.history, s1.history, After(s1, others).history, indent, indent);
    }
  }

  /** From an entry of element i to the "-" of element i + 1. */
  lemma NextElement(prev: Option<Placed>, column: nat, path: string, i: nat, key: string)
    requires InMapping(prev, column + 2, ElementPath(path, i), key, i)
    requires key != ""
    ensures InList(prev, column, path, i + 1, key)
  {
    assert ElementPath(path, i) + "." + key == ElementPath(path, i) + Suffix(key);
  }

  lemma ObjectParts(item: Item, column: nat, path: string, i: nat)
    requires item.Object? && WellFormedItem(item, column)
    ensures var (e, rest, here) := (item.first, item.rest, ElementPath(path, i));
            && AllNoise(e.noise) && PlainKey(e.key) && !e.value.Body?
            && WellFormedValue(e.value, column + 2, true) && WellFormedEntries(rest, column + 2)
            && LastItemKey(item) == LastKey(rest, e.key) && FirstKey(item) == e.key
            && LastKey(rest, e.key) != ""
            && OneItemRows(item, column, here) ==
               NoiseRows(e.noise) + [ItemRow(item, column, here)] + ValueRows(e.value, here + "." + e.key) + EntryRows(rest, column + 2, here)
  {
    LastKeyPlain(item.rest, item.first.key, column + 2);
    PlainKeyNotEmpty(LastKey(item.rest, item.first.key));
    assert WellFormedValue(item.first.value, column + 2, true);
    hide ElementPath, PlainKey;
  }

  /** Behind the first line of an object its other keys stand in a mapping, and blocks stay below. */
  lemma ObjectPlaced(item: Item, column: nat, path: string, i: nat)
    requires item.Object? && WellFormedItem(item, column)
    ensures var key, here := item.first.key, ElementPath(path, i);
            && here + Suffix(key) == here + "." + key
            && InMapping(Some(Placed(column + 2, here + Suffix(key), i)), column + 2, here, key, i)
    ensures Below(Closed, column) && forall b :: Below(b, column + 2) ==> Below(b, column)
  {
    PlainKeyNotEmpty(item.first.key);
    hide ElementPath, WellFormedEntries, WellFormedValue;
    var key, here := item.first.key, ElementPath(path, i);
    assert here + Suffix(key) == here + "." + key;
  }

  lemma {:induction false} ObjectFits(s: State, item: Item, column: nat, path: string, i: nat, sibling: string)
    requires item.Object? && WellFormedItem(item, column) && Below(s.block, column)
    requires InList(Previous(s.history, column + 2), column, path, i, sibling)
    ensures AllFit(s, OneItemRows(item, column, ElementPath(path, i)))
    ensures var t := After(s, OneItemRows(item, column, ElementPath(path, i)));
            && Grows(s.history, t.history, column + 2)
            && Below(t.block, column)
            && InList(Previous(t.history, column + 2), column, path, i + 1, LastItemKey(item))
    decreases item
  {
    hide *;
    var Object(e, rest) := item;
    var here := ElementPath(path, i);
    var noise, row := NoiseRows(e.noise), ItemRow(item, column, here);
    var value, others := ValueRows(e.value, here + "." + e.key), EntryRows(rest, column + 2, here);
    var p := Placed(column + 2, here + Suffix(e.key), i);
    ObjectParts(item, column, path, i);
    ObjectPlaced(item, column, path, i);
    NoiseFits(s, e.noise, column);
    var s1 := After(s, noise);
    ItemRowFits(s1, item, column, path, i, sibling);
    var s2 := Step(s1, row.text);
    AllFitOne(s1, row);
    AllFitAppend(s, noise, [row]);
    GrowsByOne(s1.history, p);
    ValueFits(s2, e.value, column + 2, here + "." + e.key, true);
    var s3 := After(s2, value);
    AllFitAppend(s, noise + [row], value);
    PreviousGrows(s2.history, s3.history, column + 3, column + 2);
    GrowsTransitive(s1.history, s2.history, s3.history, column + 2, column + 3);
    EntriesFit(s3, rest, column + 2, here, e.key, i);
    var t := After(s3, others);
    AllFitAppend(s, noise + [row] + value, others);
    GrowsTransitive(s.history, s3.history, t.history, column + 2, column + 2);
    NextElement(Previous(t.history, column + 2), column, path, i, LastKey(rest, e.key));
  }

  lemma {:induction false} LastKeyPlain(es: seq<Entry>, before: string, indent: nat)
    requires WellFormedEntries(es, indent) && PlainKey(before)
    ensures PlainKey(LastKey(es, before))
  {
    if es != [] {
      LastKeyPlain(es[1..], es[0].key, indent);
    }
  }

  lemma ScalarFits(s: State, item: Item, column: nat, path: string, i: nat, sibling: string)
    requires item.Scalar? && WellFormedItem(item, column) && Below(s.block, column)
    requires InList(Previous(s.history, column + 2), column, path, i, sibling)
    ensures AllFit(s, OneItemRows(item, column, ElementPath(path, i)))
    ensures var t := After(s, OneItemRows(item, column, ElementPath(path, i)));
            && Grows(s.history, t.history, column + 2)
            && Below(t.block, column)
            && InList(Previous(t.history, column + 2), column, path, i + 1, "")
  {
    var here := ElementPath(path, i);
    var noise, row := NoiseRows(item.noise), ItemRow(item, column, here);
    var p := Placed(column + 2, here + Suffix(""), i);
    assert InList(Some(p), column, path, i + 1, "");
    assert OneItemRows(item, column, here) == noise + [row];
    assert AllNoise(item.noise) && FirstKey(item) == "";
    assert Below(Closed, column);
    hide *;
    NoiseFits(s, item.noise, column);
    var s1 := After(s, noise);
    ItemRowFits(s1, item, column, path, i, sibling);
    AllFitOne(s1, row);
    AllFitAppend(s, noise, [row]);
    GrowsByOne(s1.history, p);
  }

  lemma {:induction false} ItemsFit(s: State, items: seq<Item>, column: nat, path: string, i: nat, sibling: string)
    requires WellFormedItems(items, column) && Below(s.block, column)
    requires InList(Previous(s.history, column + 2), column, path, i, sibling)
    ensures AllFit(s, ItemRows(items, column, path, i))
    ensures var t := After(s, ItemRows(items, column, path, i)); Grows(s.history, t.history, column + 2) && Below(t.block, column)
    decreases items
  {
    if items == [] {
      NothingFits(s);
    } else {
      var item := items[0];
      var first, others := OneItemRows(item, column, ElementPath(path, i)), ItemRows(items[1..], column, path, i + 1);
      assert ItemRows(items, column, path, i) == first + others;
      assert WellFormedItem(item, column) && WellFormedItems(items[1..], column);
      assert item.Scalar? ==> LastItemKey(item) == "";
      hide *;
      if item.Scalar? {
        ScalarFits(s, item, column, path, i, sibling);
      } else {
        ObjectFits(s, item, column, path, i, sibling);
      }
      var s1 := After(s, first);
      ItemsFit(s1, items[1..], column, path, i + 1, LastItemKey(item));
      AllFitAppend(s, first, others);
      GrowsTransitive(s.history, s1.history, After(s1, others).history, column + 2, column + 2);
    }
  }

  // ---------------------------------------------------------------- whole documents

  lemma RootFits(d: Doc) returns (indent: nat)
    requires WellFormedDoc(d)
    ensures AllNoise(d.tail) && AllFit(START, ValueRows(d.root, "$"))
    ensures Below(After(START, ValueRows(d.root, "$")).block, indent)
  {
    hide AllFit, After, AllNoise, WellFormedEntries, WellFormedItems;
    match d.root {
      case Leaf =>
        indent := 0;
        NothingFits(START);
      case Map(n, entries) =>
        indent := n;
        EntriesFit(START, entries, n, "$", "", 0);
      case Items(column, items) =>
        indent := column;
        ItemsFit(START, items, column, "$", 0, "");
    }
  }

  lemma DocFits(d: Doc)
    requires WellFormedDoc(d)
    ensures AllFit(START, DocRows(d))
  {
    hide AllFit, After, AllNoise, WellFormedDoc, ValueRows, Below;
    var root := ValueRows(d.root, "$");
    var indent := RootFits(d);
    NoiseFits(After(START, root), d.tail, indent);
    AllFitAppend(START, root, NoiseRows(d.tail));
  }

  /** The one-machine view agrees with the two passes. */
  lemma {:induction false} AfterIsBothPasses(rows: seq<Row>, lines: seq<string>, i: nat)
    requires i <= |rows| && i <= DocLength(lines) && Texts(rows) <= lines
    ensures After(START, rows[..i]) == State(BlockAt(Closed, lines[..i]), Trail([], Scan(lines)[..i]))
  {
    if i > 0 {
      AfterIsBothPasses(rows, lines, i - 1);
      TrailStep(Scan(lines), i - 1);
      assert rows[..i][..i - 1] == rows[..i - 1];
      assert lines[..i][..i - 1] == lines[..i - 1];
      assert lines[i - 1] == Texts(rows)[i - 1];
      hide InfoIn, BlockAfter, Extend, Trail;
    }
  }

  lemma {:induction false} DocLengthOfRows(texts: seq<string>, rest: seq<string>)
    requires SEPARATOR !in texts && (rest != [] ==> rest[0] == SEPARATOR)
    ensures DocLength(texts + rest) == |texts| + if rest == [] then 0 else 1
  {
    if texts == [] {
      assert texts + rest == rest;
    } else {
      DocLengthOfRows(texts[1..], rest);
      assert (texts + rest)[1..] == texts[1..] + rest;
    }
  }

  /** The line's two-pass result is what the row was printed for. */
  predicate Read(lines: seq<string>, i: nat, row: Row)
    requires i < DocLength(lines)
  {
    match row
    case Noise(_) => !Scan(lines)[i].typ.Structural()
    case Structure(_, typ, path) => Scan(lines)[i].typ == typ && PlacedAt([], Scan(lines), i).path == path
  }

  /** Main theorem: parsing a printed document, at the end of the file or before a separator,
      gives every structural line its type and its path in the tree and nothing else a structure. */
  lemma ParserInvertsPrinter(d: Doc, rest: seq<string>)
    requires WellFormedDoc(d) && (rest != [] ==> rest[0] == SEPARATOR)
    ensures var lines := Texts(DocRows(d)) + rest;
            && DocLength(lines) == |DocRows(d)| + (if rest == [] then 0 else 1)
            && forall i :: 0 <= i < |DocRows(d)| ==> Read(lines, i, DocRows(d)[i])
  {
    hide *;
    var rows := DocRows(d);
    var texts := Texts(rows);
    var lines := texts + rest;
    DocFits(d);
    forall i | 0 <= i < |texts| ensures texts[i] != SEPARATOR {
      FitsAt(rows, i);
    }
    DocLengthOfRows(texts, rest);
    forall i | 0 <= i < |rows| ensures Read(lines, i, rows[i]) {
      FitsAt(rows, i);
      AfterIsBothPasses(rows, lines, i);
      assert lines[i] == rows[i].text;
      FitIsRead(rows, lines, i);
    }
  }

  lemma FitsAt(rows: seq<Row>, i: nat)
    requires AllFit(START, rows) && i < |rows|
    ensures Fits(After(START, rows[..i]), rows[i]) && rows[i].text != SEPARATOR
  {
    hide After;
    assert Fits(After(START, rows[..i]), rows[i]);
  }

  lemma FitIsRead(rows: seq<Row>, lines: seq<string>, i: nat)
    requires i < |rows| && i < DocLength(lines) && lines[i] == rows[i].text
    requires Fits(After(START, rows[..i]), rows[i])
    requires After(START, rows[..i]) == State(BlockAt(Closed, lines[..i]), Trail([], Scan(lines)[..i]))
    ensures Read(lines, i, rows[i])
  {
    hide After, BlockAt, Trail, InfoIn, Place;
  }
}
