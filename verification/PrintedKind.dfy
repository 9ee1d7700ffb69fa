/** The kind and version that an object gets are the values of its root entries, unless something deeper is
    written directly below them. */
module PrintedKind {
  import opened Strings
  import opened YamlLines
  import opened BlockStyle
  import opened ParserInversion
  import opened Documents
  import opened ObjectNodes
  import opened FileNodes
  import opened HalfTyped
  import opened LineValues

  // ---------------------------------------------------------------- rows of a root mapping

  /** Structural rows are indented at least so far. */
  predicate RowsFrom(rows: seq<Row>, n: nat) {
    forall r :: 0 <= r < |rows| ==> rows[r].Structure? ==> Indent(rows[r].text) >= n
  }

  lemma {:induction false} ValueFrom(v: Value, path: string, indent: nat, dash: bool)
    requires WellFormedValue(v, indent, dash)
    ensures RowsFrom(ValueRows(v, path), indent)
    decreases v
  {
    match v
    case Leaf =>
    case Body(_, _) =>
    case Map(n, es) => EntriesFrom(es, n, path);
    case Items(column, items) => ItemsFrom(items, column, path, 0);
  }

  lemma {:induction false} EntriesFrom(es: seq<Entry>, indent: nat, path: string)
    requires WellFormedEntries(es, indent)
    ensures RowsFrom(EntryRows(es, indent, path), indent)
    decreases es
  {
    hide Indent, KeyRow, EndsWithHeader, PlainKey;
    if es != [] {
      var e := es[0];
      assert WellFormedEntry(e, indent, false);
      NoiseFrom(e.noise, indent);
      KeyRowIndent(e, indent, path);
      ValueFrom(e.value, path + "." + e.key, indent, false);
      EntriesFrom(es[1..], indent, path);
    }
  }

  lemma KeyRowIndent(e: Entry, indent: nat, path: string)
    requires PlainKey(e.key)
    ensures Indent(KeyRow(e, indent, path).text) == indent
  {
    hide Indent, Classify, OpensBlock, EndsWithHeader, KeyText, PlainKey;
    KeyLine(indent, e.key, KeyText(e));
  }

  lemma ItemRowIndent(item: Item, column: nat, path: string)
    requires WellFormedItem(item, column)
    ensures Indent(ItemRow(item, column, path).text) == column
  {
    match item
    case Scalar(_, text) =>
      ScalarLine(column, text);
      hide Indent, Classify, OpensBlock;
    case Object(e, _) =>
      DashLine(column, e.key, e.text);
      hide Indent, Classify, OpensBlock;
  }

  lemma NoiseFrom(ls: seq<string>, n: nat)
    ensures RowsFrom(NoiseRows(ls), n)
  {
  }

  lemma {:induction false} OneItemFrom(item: Item, column: nat, path: string)
    requires WellFormedItem(item, column)
    ensures RowsFrom(OneItemRows(item, column, path), column)
    decreases item
  {
    hide Indent, ItemRow, EndsWithHeader, ColonIndex;
    ItemRowIndent(item, column, path);
    match item {
      case Scalar(noise, _) =>
        NoiseFrom(noise, column);
      case Object(e, rest) =>
        NoiseFrom(e.noise, column);
        ValueFrom(e.value, path + "." + e.key, column + 2, true);
        EntriesFrom(rest, column + 2, path);
    }
  }

  lemma {:induction false} ItemsFrom(items: seq<Item>, column: nat, path: string, i: nat)
    requires WellFormedItems(items, column)
    ensures RowsFrom(ItemRows(items, column, path, i), column)
    decreases items
  {
    hide Indent;
    if items != [] {
      OneItemFrom(items[0], column, ElementPath(path, i));
      ItemsFrom(items[1..], column, path, i + 1);
    }
  }

  // ---------------------------------------------------------------- paths below root keys

  /** The path of a root key of these, or one below it. */
  predicate Below(path: string, es: seq<Entry>) {
    exists x :: 0 <= x < |es| && AtOrUnder(path, "$." + es[x].key)
  }

  predicate AtOrUnder(path: string, base: string) {
    base <= path && (|path| > |base| ==> path[|base|] in {'.', '['})
  }

  predicate RowsBelow(rows: seq<Row>, es: seq<Entry>) {
    forall r :: 0 <= r < |rows| ==> rows[r].Structure? ==> Below(rows[r].path, es)
  }

  lemma {:induction false} ItemsGoOn(items: seq<Item>, column: nat, path: string, i: nat)
    ensures PathsStart(ItemRows(items, column, path, i), path + "[")
    decreases |items|
  {
    hide OneItemRows;
    if items != [] {
      ItemStarts(items[0], column, ElementPath(path, i));
      ElementGoesOn(path, i);
      StartsLonger(OneItemRows(items[0], column, ElementPath(path, i)), ElementPath(path, i), path + "[");
      ItemsGoOn(items[1..], column, path, i + 1);
    }
  }

  lemma ElementGoesOn(path: string, i: nat)
    ensures path + "[" <= ElementPath(path, i)
  {
    hide Itoa;
  }

  predicate AllUnder(rows: seq<Row>, base: string) {
    forall r :: 0 <= r < |rows| ==> rows[r].Structure? ==> AtOrUnder(rows[r].path, base)
  }

  lemma StartsUnder(rows: seq<Row>, base: string, c: char)
    requires PathsStart(rows, base + [c]) && c in {'.', '['}
    ensures AllUnder(rows, base)
  {
    forall r | 0 <= r < |rows| && rows[r].Structure? ensures AtOrUnder(rows[r].path, base) {
      assert rows[r].path[|base|] == (base + [c])[|base|];
    }
  }

  lemma ValueUnder(v: Value, base: string)
    ensures AllUnder(ValueRows(v, base), base)
  {
    hide AtOrUnder;
    match v
    case Leaf =>
    case Body(_, _) =>
    case Map(n, es) =>
      EntriesStart(es, n, base);
      StartsUnder(EntryRows(es, n, base), base, '.');
    case Items(column, items) =>
      ItemsGoOn(items, column, base, 0);
      StartsUnder(ItemRows(items, column, base, 0), base, '[');
  }

  lemma BelowFirst(rows: seq<Row>, es: seq<Entry>)
    requires es != [] && AllUnder(rows, "$." + es[0].key)
    ensures RowsBelow(rows, es)
  {
    hide AtOrUnder;
    forall r | 0 <= r < |rows| && rows[r].Structure? ensures Below(rows[r].path, es) {
      assert AtOrUnder(rows[r].path, "$." + es[0].key);
    }
  }

  lemma BelowMore(rows: seq<Row>, es: seq<Entry>)
    requires es != [] && RowsBelow(rows, es[1..])
    ensures RowsBelow(rows, es)
  {
    hide AtOrUnder;
    forall r | 0 <= r < |rows| && rows[r].Structure? ensures Below(rows[r].path, es) {
      assert Below(rows[r].path, es[1..]);
      var x :| 0 <= x < |es[1..]| && AtOrUnder(rows[r].path, "$." + es[1..][x].key);
      assert es[x + 1] == es[1..][x];
    }
  }

  lemma KeyRowUnder(e: Entry, indent: nat)
    ensures AllUnder([KeyRow(e, indent, "$")], "$." + e.key)
  {
    hide KeyText;
    assert "$" + "." + e.key == "$." + e.key;
  }

  lemma NoiseBelow(ls: seq<string>, es: seq<Entry>)
    ensures RowsBelow(NoiseRows(ls), es)
  {
  }

  lemma {:induction false} EntriesBelow(es: seq<Entry>, indent: nat)
    ensures RowsBelow(EntryRows(es, indent, "$"), es)
    decreases |es|
  {
    hide AllUnder, Below, KeyRow, ValueRows;
    if es != [] {
      var e := es[0];
      KeyRowUnder(e, indent);
      BelowFirst([KeyRow(e, indent, "$")], es);
      assert "$" + "." + e.key == "$." + e.key;
      ValueUnder(e.value, "$." + e.key);
      BelowFirst(ValueRows(e.value, "$." + e.key), es);
      EntriesBelow(es[1..], indent);
      BelowMore(EntryRows(es[1..], indent, "$"), es);
      NoiseBelow(e.noise, es);
    }
  }

  lemma FirstDotAt(path: string, name: string)
    requires |path| > 1 && path[0] == '$' && path[1] == '.'
    ensures NamedBy(path, name) <==> path[2..] == name
  {
    NamedByFirstDot(path, name);
    assert path == "$" + ['.'] + path[2..];
    IndexOfSplit("$", '.', path[2..]);
  }

  lemma RootNotNamed(name: string)
    ensures !NamedBy("$", name) && !NamedBy("", name)
  {
  }

  /** Below other keys no path has the name. */
  lemma BelowNotNamed(path: string, es: seq<Entry>, name: string)
    requires Below(path, es) && PlainKey(name)
    requires forall x :: 0 <= x < |es| ==> es[x].key != name
    ensures !NamedBy(path, name)
  {
    var x :| 0 <= x < |es| && AtOrUnder(path, "$." + es[x].key);
    var base := "$." + es[x].key;
    assert path[0] == base[0] && path[1] == base[1];
    hide NamedBy;
    FirstDotAt(path, name);
    OtherName(path, es[x].key, name);
  }

  lemma OtherName(path: string, key: string, name: string)
    requires AtOrUnder(path, "$." + key) && key != name && PlainKey(name)
    ensures path[2..] != name
  {
    var base, rest := "$." + key, path[2..];
    assert forall i :: 0 <= i < |rest| ==> rest[i] == path[i + 2];
    assert |path| == |base| ==> rest == key;
  }

  lemma TailHas(s: string, a: nat, k: nat)
    requires a <= k < |s|
    ensures s[k] in s[a..]
  {
    assert s[a..][k - a] == s[k];
  }

  lemma LastIndexAtLeast(s: string, c: char, k: nat)
    requires k < |s| && s[k] == c
    ensures LastIndexOf(s, c) >= k
  {
    hide LastIndexOf;
    var r := LastIndexOf(s, c);
    TailHas(s, if r < k then r + 1 else k, k);
  }

  /** Going up from a path below such a key leads to another one, or to the root. */
  lemma BelowParent(path: string, es: seq<Entry>)
    requires Below(path, es) && forall x :: 0 <= x < |es| ==> '.' !in es[x].key
    ensures var dot := LastIndexOf(path, '.'); dot != -1 && (path[..dot] == "$" || Below(path[..dot], es))
  {
    hide LastIndexOf;
    var x :| 0 <= x < |es| && AtOrUnder(path, "$." + es[x].key);
    var base := "$." + es[x].key;
    var dot := LastIndexOf(path, '.');
    assert path[1] == base[1] == '.';
    assert '.' in path;
    LastIndexAtLeast(path, '.', 1);
    if dot == 1 {
      assert path[..1] == "$";
    } else {
      assert forall k :: 2 <= k < |base| ==> path[k] == es[x].key[k - 2];
      assert dot >= |base|;
      assert AtOrUnder(path[..dot], base);
    }
  }

  // ---------------------------------------------------------------- one entry of the root

  lemma {:induction false} EntryRowsAppend(a: seq<Entry>, b: seq<Entry>, indent: nat, path: string)
    ensures EntryRows(a + b, indent, path) == EntryRows(a, indent, path) + EntryRows(b, indent, path)
    decreases |a|
  {
    hide KeyRow, ValueRows;
    if a == [] {
      assert a + b == b;
    } else {
      EntryRowsAppend(a[1..], b, indent, path);
      assert (a + b)[1..] == a[1..] + b && (a + b)[0] == a[0];
      var head := NoiseRows(a[0].noise) + [KeyRow(a[0], indent, path)] + ValueRows(a[0].value, path + "." + a[0].key);
      assert head + (EntryRows(a[1..], indent, path) + EntryRows(b, indent, path))
          == head + EntryRows(a[1..], indent, path) + EntryRows(b, indent, path);
    }
  }

  /** The document has this entry with a one-line value in its root mapping, the last one with its key. */
  predicate HasEntry(d: Doc, n: nat, before: seq<Entry>, e: Entry, after: seq<Entry>, v: string) {
    && WellFormedDoc(d) && d.root == Map(n, before + [e] + after)
    && e.value == Leaf && e.text == " " + v
    && forall x :: 0 <= x < |after| ==> after[x].key != e.key
  }

  /** What stands between the entry and the next one. */
  function Following(d: Doc, after: seq<Entry>): seq<string> {
    if after == [] then d.tail else after[0].noise
  }

  function RowOf(n: nat, before: seq<Entry>, e: Entry): nat {
    |EntryRows(before, n, "$")| + |e.noise|
  }

  lemma {:induction false} EntriesWellFormed(a: seq<Entry>, b: seq<Entry>, n: nat)
    requires WellFormedEntries(a + b, n)
    ensures WellFormedEntries(b, n)
    decreases |a|
  {
    if a == [] {
      assert a + b == b;
    } else {
      assert (a + b)[1..] == a[1..] + b;
      EntriesWellFormed(a[1..], b, n);
    }
  }

  lemma {:induction false} KeysPlain(es: seq<Entry>, n: nat)
    requires WellFormedEntries(es, n)
    ensures forall x :: 0 <= x < |es| ==> PlainKey(es[x].key) && '.' !in es[x].key && AllNoise(es[x].noise)
    decreases |es|
  {
    hide PlainKey, AllNoise;
    if es != [] {
      assert WellFormedEntry(es[0], n, false);
      KeysPlain(es[1..], n);
      TreeKeysDotless(es[0].key);
    }
  }

  lemma TreeKeysDotless(key: string)
    requires PlainKey(key)
    ensures '.' !in key
  {
  }

  /** The rows of the document around the entry. */
  lemma RowsAround(d: Doc, n: nat, before: seq<Entry>, e: Entry, after: seq<Entry>, v: string)
    requires HasEntry(d, n, before, e, after, v)
    ensures var rows, r := DocRows(d), RowOf(n, before, e);
            && r < |rows| && rows[r] == KeyRow(e, n, "$")
            && rows[r + 1..] == EntryRows(after, n, "$") + NoiseRows(d.tail)
            && RowsFrom(rows, n)
    ensures PlainKey(e.key) && !EndsWithHeader(" " + v) && AllNoise(Following(d, after))
    ensures forall x :: 0 <= x < |after| ==> PlainKey(after[x].key) && '.' !in after[x].key
  {
    hide *;
    var es := before + [e] + after;
    HasEntryIs(d, n, before, e, after, v);
    assert es == before + ([e] + after);
    EntriesWellFormed(before, [e] + after, n);
    EntryParts(d, n, e, after, v);
    EntriesFrom(es, n, "$");
    NoiseFrom(d.tail, n);
    EntryRowsAppend(before, [e] + after, n, "$");
    EntryRowsFirst(e, after, n);
    RowsJoined(d, n, EntryRows(before, n, "$"), e, EntryRows(after, n, "$"));
    RowsFromJoined(EntryRows(es, n, "$"), NoiseRows(d.tail), n);
    RowOfIs(n, before, e);
  }

  lemma HasEntryIs(d: Doc, n: nat, before: seq<Entry>, e: Entry, after: seq<Entry>, v: string)
    requires HasEntry(d, n, before, e, after, v)
    ensures WellFormedEntries(before + [e] + after, n) && AllNoise(d.tail) && e.value == Leaf && e.text == " " + v
    ensures DocRows(d) == EntryRows(before + [e] + after, n, "$") + NoiseRows(d.tail)
  {
    hide WellFormedEntries, EntryRows, AllNoise;
  }

  lemma RowOfIs(n: nat, before: seq<Entry>, e: Entry)
    ensures RowOf(n, before, e) == |EntryRows(before, n, "$")| + |e.noise|
  {
  }

  lemma RowsFromJoined(a: seq<Row>, b: seq<Row>, n: nat)
    requires RowsFrom(a, n) && RowsFrom(b, n)
    ensures RowsFrom(a + b, n)
  {
    hide Indent;
  }

  lemma EntryRowsFirst(e: Entry, after: seq<Entry>, n: nat)
    requires e.value == Leaf
    ensures EntryRows([e] + after, n, "$") == NoiseRows(e.noise) + [KeyRow(e, n, "$")] + EntryRows(after, n, "$")
  {
    hide KeyRow;
    assert ([e] + after)[0] == e && ([e] + after)[1..] == after;
    assert ValueRows(e.value, "$" + "." + e.key) == [];
    var head := NoiseRows(e.noise) + [KeyRow(e, n, "$")];
    assert head + [] == head;
  }

  lemma RowsJoined(d: Doc, n: nat, first: seq<Row>, e: Entry, others: seq<Row>)
    ensures var noise, row, tail := NoiseRows(e.noise), [KeyRow(e, n, "$")], NoiseRows(d.tail);
            var rows, r := first + (noise + row + others) + tail, |first| + |e.noise|;
            r < |rows| && rows[r] == KeyRow(e, n, "$") && rows[r + 1..] == others + tail
  {
    hide KeyRow;
    var noise, row, tail := NoiseRows(e.noise), [KeyRow(e, n, "$")], NoiseRows(d.tail);
    var rows, r := first + (noise + row + others) + tail, |first| + |e.noise|;
    assert rows == (first + noise) + row + (others + tail);
    assert |first + noise| == r;
  }

  /** The entry and those behind it are well-formed. */
  lemma EntryParts(d: Doc, n: nat, e: Entry, after: seq<Entry>, v: string)
    requires WellFormedEntries([e] + after, n) && AllNoise(d.tail) && e.value == Leaf && e.text == " " + v
    ensures PlainKey(e.key) && !EndsWithHeader(" " + v) && AllNoise(Following(d, after))
    ensures forall x :: 0 <= x < |after| ==> PlainKey(after[x].key) && '.' !in after[x].key
    ensures WellFormedEntries(after, n)
  {
    assert ([e] + after)[0] == e && ([e] + after)[1..] == after;
    assert WellFormedEntry(e, n, false);
    KeysPlain(after, n);
    hide PlainKey, AllNoise, EndsWithHeader, WellFormedEntries;
  }

  /** Further in than the root's keys, and no comment. */
  predicate Deeper(l: string, n: nat) {
    Indent(l) > n && !(Indent(l) < |l| && l[Indent(l)] == '#')
  }

  // ---------------------------------------------------------------- the lines behind it

  lemma {:induction false} FindNearest(infos: seq<LineInfo>, i: nat, k: nat) returns (q: int)
    requires k <= i < |infos|
    requires forall j :: k <= j < i && infos[j].typ.Structural() ==> infos[j].indent > infos[i].indent
    ensures q == -1 ==> NothingAbove(infos, i)
    ensures q != -1 ==> 0 <= q < k && NearestAbove(infos, q, i)
    decreases k
  {
    q := -1;
    if k > 0 {
      if infos[k - 1].typ.Structural() && infos[k - 1].indent <= infos[i].indent {
        q := k - 1;
      } else {
        q := FindNearest(infos, i, k - 1);
      }
    }
  }

  /** Where a line without structure is put: the root, the line above that is less indented, or what that
      line is in. */
  lemma TypedPath(infos: seq<LineInfo>, i: nat, q: int)
    requires i < |infos| && Typed(infos[i])
    requires if q == -1 then NothingAbove(infos, i) else 0 <= q && NearestAbove(infos, q, i)
    ensures q == -1 ==> PlacedAt([], infos, i).path == "$"
    ensures q != -1 && infos[q].indent < infos[i].indent ==> PlacedAt([], infos, i).path == PlacedAt([], infos, q).path
    ensures q != -1 && infos[q].indent == infos[i].indent ==>
              var p := PlacedAt([], infos, q).path;
              var dot := LastIndexOf(p, '.');
              dot != -1 ==> PlacedAt([], infos, i).path == p[..dot]
  {
    NearestIs(infos, if q == -1 then 0 else q, i);
    TrailStep(infos, i);
    hide Place, Trail, PlacedAt, Previous, LastIndexOf;
    var h := Trail([], infos[..i]);
    if q == -1 {
      PreviousIsNone(infos, i, infos[i].indent);
    } else {
      PreviousIsNearest(infos, q, i, infos[i].indent);
      PlacedIndent(infos, q);
    }
    PlaceTypedBy(h, infos[i]);
  }

  lemma PlaceTypedBy(h: seq<Placed>, info: LineInfo)
    requires Typed(info)
    ensures var prev, path := Previous(h, info.indent), Place(h, info).path;
            && (prev.None? ==> path == "$")
            && (prev.Some? && prev.value.indent < info.indent ==> path == prev.value.path)
            && (prev.Some? && prev.value.indent == info.indent && LastIndexOf(prev.value.path, '.') != -1 ==>
                  path == prev.value.path[..LastIndexOf(prev.value.path, '.')])
  {
    hide Previous, LastIndexOf;
    var prev := Previous(h, info.indent);
    if prev.None? {
      assert "$." + "" == "$." && "$."[..1] == "$";
    } else {
      var p := prev.value.path;
      if prev.value.indent < info.indent {
        DropAddedDot(p);
        assert p + "." + "" == p + ".";
      } else if LastIndexOf(p, '.') != -1 {
        var base := p[..LastIndexOf(p, '.')];
        DropAddedDot(base);
        assert base + "." + "" == base + ".";
      }
    }
  }

  lemma PassedPath(infos: seq<LineInfo>, i: nat)
    requires i < |infos| && infos[i].typ.Passed() && infos[i].key == ""
    ensures PlacedAt([], infos, i).path == ""
  {
    hide Trail;
  }

  lemma NoMapValue(info: LineInfo)
    requires !info.typ.IsMapping()
    ensures info.MapValue() == ""
  {
    MapValueIs(info);
    hide LineInfo.MapValue;
  }

  lemma ClassifiedPlain(line: string)
    requires !Classify(line).typ.Structural()
    ensures var info := Classify(line); info.key == "" && (info.typ.Passed() || Typed(info)) && info.indent == Indent(line)
  {
    hide ColonFrom, IsMappingNode, TrimSpace;
  }

  /** The types of lines that have no structure. */
  lemma PlainInfo(lines: seq<string>, i: nat)
    requires i < DocLength(lines) && !Scan(lines)[i].typ.Structural()
    ensures var info := Scan(lines)[i];
            info.key == "" && (info.typ.Passed() || Typed(info)) && (Typed(info) ==> info.indent == Indent(lines[i]))
  {
    hide BlockAt, Classify;
    if lines[i] != SEPARATOR && !InBlock(lines[i], BlockAt(Closed, lines[..i])) {
      ClassifiedPlain(lines[i]);
    }
  }

  lemma StructureIndent(lines: seq<string>, q: nat)
    requires q < DocLength(lines) && Scan(lines)[q].typ.Structural()
    ensures Scan(lines)[q].indent >= Indent(lines[q])
    ensures Scan(lines)[q].typ == Mapping ==> Scan(lines)[q].indent == Indent(lines[q])
  {
    StructuralInfo(lines, q);
    hide Scan, ColonFrom, IsMappingNode, TrimSpace;
  }

  // ---------------------------------------------------------------- blocks are closed there

  lemma {:induction false} ClosedBehind(lines: seq<string>, r: nat, j: nat)
    requires r < j <= |lines| && !InBlock(lines[r], BlockAt(Closed, lines[..r]))
    requires forall k :: r <= k < j ==> !OpensBlock(lines[k])
    ensures BlockAt(Closed, lines[..j]) == Closed
    decreases j
  {
    hide OpensBlock, BlockAt;
    BlockStep(lines, j - 1);
    if j - 1 > r {
      ClosedBehind(lines, r, j - 1);
    }
  }

  lemma BlockStep(lines: seq<string>, i: nat)
    requires i < |lines|
    ensures BlockAt(Closed, lines[..i + 1]) == BlockAfter(lines[i], BlockAt(Closed, lines[..i]))
  {
    hide BlockAfter;
    assert lines[..i + 1][..i] == lines[..i];
  }

  lemma MappingNotInBlock(lines: seq<string>, r: nat)
    requires r < DocLength(lines) && Scan(lines)[r].typ == Mapping
    ensures !InBlock(lines[r], BlockAt(Closed, lines[..r]))
  {
    hide BlockAt, Classify;
  }

  /** Outside blocks a '#' makes a comment. */
  lemma CommentType(lines: seq<string>, j: nat)
    requires j < DocLength(lines) && BlockAt(Closed, lines[..j]) == Closed && !Scan(lines)[j].typ.Structural()
    requires lines[j] != SEPARATOR
    ensures Scan(lines)[j].typ == Comment <==> Indent(lines[j]) < |lines[j]| && lines[j][Indent(lines[j])] == '#'
    ensures Scan(lines)[j].typ != Comment ==> Typed(Scan(lines)[j])
  {
    hide BlockAt, ColonFrom, IsMappingNode, TrimSpace;
  }

  // ---------------------------------------------------------------- the value that counts

  /** The lines of the printed document and what is known of them. */
  ghost predicate Printed(d: Doc, rest: seq<string>, lines: seq<string>, n: nat, before: seq<Entry>, e: Entry, after: seq<Entry>, v: string) {
    && HasEntry(d, n, before, e, after, v) && (rest != [] ==> rest[0] == SEPARATOR)
    && lines == Texts(DocRows(d)) + rest
  }

  /** Row j is read as it was printed. */
  lemma RowRead(d: Doc, rest: seq<string>, lines: seq<string>, j: nat)
    requires WellFormedDoc(d) && (rest != [] ==> rest[0] == SEPARATOR) && lines == Texts(DocRows(d)) + rest
    requires j < DocLength(lines)
    ensures |DocRows(d)| <= DocLength(lines)
    ensures j < |DocRows(d)| ==> lines[j] == DocRows(d)[j].text && Read(lines, j, DocRows(d)[j])
    ensures j >= |DocRows(d)| ==> lines[j] == SEPARATOR && !Scan(lines)[j].typ.Structural()
  {
    hide *;
    ParserInvertsPrinter(d, rest);
    if j >= |DocRows(d)| {
      assert lines[j] == rest[j - |DocRows(d)|];
      SeparatorInfo(lines, j);
    }
  }

  lemma SeparatorInfo(lines: seq<string>, j: nat)
    requires j < DocLength(lines) && lines[j] == SEPARATOR
    ensures !Scan(lines)[j].typ.Structural() && Scan(lines)[j].typ.Passed()
  {
    hide BlockAt;
  }

  /** A structural line's row, with its path and indent. */
  lemma StructuralRow(d: Doc, rest: seq<string>, lines: seq<string>, n: nat, q: nat)
    requires WellFormedDoc(d) && (rest != [] ==> rest[0] == SEPARATOR) && lines == Texts(DocRows(d)) + rest
    requires RowsFrom(DocRows(d), n) && q < DocLength(lines) && Scan(lines)[q].typ.Structural()
    ensures q < |DocRows(d)| && DocRows(d)[q].Structure? && PlacedAt([], Scan(lines), q).path == DocRows(d)[q].path
    ensures Scan(lines)[q].indent >= n
  {
    hide *;
    RowRead(d, rest, lines, q);
    ReadStructural(lines, q, DocRows(d)[q]);
    StructureIndent(lines, q);
    RowsFromAt(DocRows(d), n, q);
  }

  lemma ReadStructural(lines: seq<string>, q: nat, row: Row)
    requires q < DocLength(lines) && Read(lines, q, row)
    ensures Scan(lines)[q].typ.Structural() && row.Structure? ==> PlacedAt([], Scan(lines), q).path == row.path
    ensures Scan(lines)[q].typ.Structural() ==> row.Structure?
  {
    hide Scan, PlacedAt;
  }

  lemma RowsFromAt(rows: seq<Row>, n: nat, q: nat)
    requires RowsFrom(rows, n) && q < |rows|
    ensures rows[q].Structure? ==> Indent(rows[q].text) >= n
  {
    hide Indent;
  }

  /** What comes behind the entry's row. */
  lemma FollowingRows(d: Doc, n: nat, before: seq<Entry>, e: Entry, after: seq<Entry>, v: string)
    requires HasEntry(d, n, before, e, after, v)
    ensures var rows, r, f := DocRows(d), RowOf(n, before, e), Following(d, after);
            && r + 1 + |f| <= |rows|
            && (forall k :: 0 <= k < |f| ==> rows[r + 1 + k] == Noise(f[k]))
            && (after == [] ==> |rows| == r + 1 + |f|)
            && (after != [] ==> r + 1 + |f| < |rows| && rows[r + 1 + |f|] == KeyRow(after[0], n, "$"))
            && (forall j :: r < j < |rows| && rows[j].Structure? ==> Below(rows[j].path, after))
  {
    hide *;
    RowsAround(d, n, before, e, after, v);
    var rows, r, f := DocRows(d), RowOf(n, before, e), Following(d, after);
    var more := rows[r + 1..];
    MoreRows(d, n, after);
    MoreBelow(d, n, after);
    forall k | 0 <= k < |f| ensures rows[r + 1 + k] == Noise(f[k]) {
      assert more[k] == rows[r + 1 + k];
    }
    if after != [] {
      assert more[|f|] == rows[r + 1 + |f|];
    }
    forall j | r < j < |rows| && rows[j].Structure? ensures Below(rows[j].path, after) {
      assert rows[j] == more[j - r - 1];
      RowsBelowAt(more, after, j - r - 1);
    }
  }

  lemma MoreRows(d: Doc, n: nat, after: seq<Entry>)
    ensures var more, f := EntryRows(after, n, "$") + NoiseRows(d.tail), Following(d, after);
            && |f| <= |more|
            && (forall k :: 0 <= k < |f| ==> more[k] == Noise(f[k]))
            && (after == [] ==> |more| == |f|)
            && (after != [] ==> |f| < |more| && more[|f|] == KeyRow(after[0], n, "$"))
  {
    hide KeyRow, ValueRows;
    var more, f := EntryRows(after, n, "$") + NoiseRows(d.tail), Following(d, after);
    if after != [] {
      var rest := ValueRows(after[0].value, "$" + "." + after[0].key) + EntryRows(after[1..], n, "$") + NoiseRows(d.tail);
      assert more == NoiseRows(f) + [KeyRow(after[0], n, "$")] + rest;
    } else {
      assert more == NoiseRows(f);
    }
  }

  lemma MoreBelow(d: Doc, n: nat, after: seq<Entry>)
    ensures RowsBelow(EntryRows(after, n, "$") + NoiseRows(d.tail), after)
  {
    EntriesBelow(after, n);
    NoiseBelow(d.tail, after);
    hide Below, EntryRows;
  }

  lemma RowsBelowAt(rows: seq<Row>, es: seq<Entry>, j: nat)
    requires RowsBelow(rows, es) && j < |rows| && rows[j].Structure?
    ensures Below(rows[j].path, es)
  {
    hide Below;
  }

  /** The entry's own line. */
  lemma EntryLine(d: Doc, rest: seq<string>, lines: seq<string>, n: nat, before: seq<Entry>, e: Entry, after: seq<Entry>, v: string)
    requires Printed(d, rest, lines, n, before, e, after, v)
    ensures var r, info := RowOf(n, before, e), Scan(lines);
            && r < |DocRows(d)| <= DocLength(lines)
            && info[r] == LineInfo(Mapping, e.key + ":" + (" " + v), n, |e.key|, e.key)
            && PlacedAt([], info, r).path == "$." + e.key
            && (forall j :: r < j <= |DocRows(d)| && (forall k :: r < k < j ==> !OpensBlock(lines[k])) ==> BlockAt(Closed, lines[..j]) == Closed)
    ensures WellFormedDoc(d) && (rest != [] ==> rest[0] == SEPARATOR) && lines == Texts(DocRows(d)) + rest
    ensures HasEntry(d, n, before, e, after, v)
  {
    hide *;
    PrintedIs(d, rest, lines, n, before, e, after, v);
    RowsAround(d, n, before, e, after, v);
    var r := RowOf(n, before, e);
    ParserInvertsPrinter(d, rest);
    RowRead(d, rest, lines, r);
    KeyRowIs(e, n, v);
    ReadMapping(lines, r, DocRows(d)[r]);
    MappingIsStructural(Scan(lines)[r]);
    KeyLine(n, e.key, " " + v);
    StructuralInfo(lines, r);
    MappingNotInBlock(lines, r);
    forall j | r < j <= |DocRows(d)| && (forall k :: r < k < j ==> !OpensBlock(lines[k]))
      ensures BlockAt(Closed, lines[..j]) == Closed
    {
      ClosedBehind(lines, r, j);
    }
  }

  lemma PrintedIs(d: Doc, rest: seq<string>, lines: seq<string>, n: nat, before: seq<Entry>, e: Entry, after: seq<Entry>, v: string)
    requires Printed(d, rest, lines, n, before, e, after, v)
    ensures HasEntry(d, n, before, e, after, v) && (rest != [] ==> rest[0] == SEPARATOR)
    ensures WellFormedDoc(d) && lines == Texts(DocRows(d)) + rest && e.value == Leaf && e.text == " " + v
    ensures forall x :: 0 <= x < |after| ==> after[x].key != e.key
  {
    hide WellFormedDoc, DocRows;
  }

  lemma KeyRowIs(e: Entry, n: nat, v: string)
    requires e.value == Leaf && e.text == " " + v
    ensures KeyRow(e, n, "$") == Structure(Spaces(n) + (e.key + ":" + (" " + v)), Mapping, "$." + e.key)
  {
    assert "$" + "." + e.key == "$." + e.key;
  }

  lemma ReadMapping(lines: seq<string>, r: nat, row: Row)
    requires r < DocLength(lines) && Read(lines, r, row) && row.Structure?
    ensures Scan(lines)[r].typ == row.typ && PlacedAt([], Scan(lines), r).path == row.path
  {
    hide Scan, PlacedAt;
  }

  /** A noise line behind the entry. */
  lemma FollowingLine(d: Doc, rest: seq<string>, lines: seq<string>, n: nat, before: seq<Entry>, e: Entry, after: seq<Entry>, v: string, k: nat)
    requires Printed(d, rest, lines, n, before, e, after, v) && k < |Following(d, after)|
    ensures var j, l := RowOf(n, before, e) + 1 + k, Following(d, after)[k];
            && j < |DocRows(d)| <= DocLength(lines) && lines[j] == l && !Scan(lines)[j].typ.Structural() && l != SEPARATOR
            && (Scan(lines)[j].typ == Comment <==> Indent(l) < |l| && l[Indent(l)] == '#')
            && (Scan(lines)[j].typ != Comment ==> Typed(Scan(lines)[j]) && Scan(lines)[j].indent == Indent(l))
  {
    hide *;
    EntryLine(d, rest, lines, n, before, e, after, v);
    FollowingRows(d, n, before, e, after, v);
    RowsAround(d, n, before, e, after, v);
    var r, f := RowOf(n, before, e), Following(d, after);
    var j := r + 1 + k;
    ParserInvertsPrinter(d, rest);
    RowRead(d, rest, lines, j);
    assert DocRows(d)[r + 1 + k] == Noise(f[k]);
    NoiseRead(lines, j, DocRows(d)[j]);
    forall i | r < i <= j ensures !OpensBlock(lines[i]) && lines[i] != SEPARATOR {
      assert DocRows(d)[r + 1 + (i - r - 1)] == Noise(f[i - r - 1]);
      RowRead(d, rest, lines, i);
      NoiseAt(f, i - r - 1);
    }
    assert BlockAt(Closed, lines[..j]) == Closed;
    CommentType(lines, j);
    PlainInfo(lines, j);
  }

  lemma NoiseRead(lines: seq<string>, j: nat, row: Row)
    requires j < DocLength(lines) && Read(lines, j, row) && row.Noise?
    ensures !Scan(lines)[j].typ.Structural()
  {
    hide Scan;
  }

  lemma NoiseAt(ls: seq<string>, i: nat)
    requires AllNoise(ls) && i < |ls|
    ensures ls[i] != SEPARATOR && !OpensBlock(ls[i])
  {
    NoiseIsNoise(ls[i]);
    hide NoiseLine, OpensBlock;
  }

  /** Behind the entry, exactly the lines that are written deeper directly below it get its path. */
  lemma AfterEntry(d: Doc, rest: seq<string>, lines: seq<string>, n: nat, before: seq<Entry>, e: Entry, after: seq<Entry>, v: string, j: nat)
    requires Printed(d, rest, lines, n, before, e, after, v) && RowOf(n, before, e) < j < DocLength(lines)
    ensures var k, f := j - RowOf(n, before, e) - 1, Following(d, after);
            NamedBy(PlacedAt([], Scan(lines), j).path, e.key) <==> k < |f| && Deeper(f[k], n)
    ensures NamedBy(PlacedAt([], Scan(lines), j).path, e.key) ==> !Scan(lines)[j].typ.Structural()
  {
    hide *;
    EntryLine(d, rest, lines, n, before, e, after, v);
    FollowingRows(d, n, before, e, after, v);
    RowsAround(d, n, before, e, after, v);
    PrintedIs(d, rest, lines, n, before, e, after, v);
    var infos, rows, r, f := Scan(lines), DocRows(d), RowOf(n, before, e), Following(d, after);
    var path := PlacedAt([], infos, j).path;
    RootNotNamed(e.key);
    if j - r - 1 < |f| {
      FollowingLine(d, rest, lines, n, before, e, after, v, j - r - 1);
      DeeperIs(f[j - r - 1], n);
    }
    if infos[j].typ.Structural() {
      StructuralRow(d, rest, lines, n, j);
      BelowNotNamed(path, after, e.key);
    } else {
      PlainInfo(lines, j);
      if infos[j].typ.Passed() {
        PassedPath(infos, j);
        PassedTyped(infos[j]);
      } else {
        TypedAfter(d, rest, lines, n, before, e, after, v, j);
      }
    }
  }

  lemma DeeperIs(l: string, n: nat)
    ensures Deeper(l, n) <==> Indent(l) > n && !(Indent(l) < |l| && l[Indent(l)] == '#')
  {
    hide Indent;
  }

  lemma PassedTyped(info: LineInfo)
    requires info.typ.Passed()
    ensures !Typed(info)
  {
  }

  /** Of the lines above, one of the entry's own row or of a later one decides. */
  lemma NearestBehind(d: Doc, rest: seq<string>, lines: seq<string>, n: nat, before: seq<Entry>, e: Entry, after: seq<Entry>, v: string, j: nat, q: int)
    requires Printed(d, rest, lines, n, before, e, after, v) && RowOf(n, before, e) < j < DocLength(lines)
    requires if q == -1 then NothingAbove(Scan(lines), j) else 0 <= q && NearestAbove(Scan(lines), q, j)
    ensures q == -1 ==> Scan(lines)[j].indent < n
    ensures q != -1 ==> RowOf(n, before, e) <= q < j && Scan(lines)[q].typ.Structural() && Scan(lines)[q].indent <= Scan(lines)[j].indent
    ensures q == RowOf(n, before, e) ==> j <= RowOf(n, before, e) + 1 + |Following(d, after)|
  {
    hide *;
    EntryLine(d, rest, lines, n, before, e, after, v);
    RowsAround(d, n, before, e, after, v);
    FollowingRows(d, n, before, e, after, v);
    var infos, r := Scan(lines), RowOf(n, before, e);
    NearestIs(infos, if q == -1 then 0 else q, j);
    MappingIsStructural(infos[r]);
    if q != -1 {
      StructuralRow(d, rest, lines, n, q);
    }
    if q == r && after != [] {
      var k0 := r + 1 + |Following(d, after)|;
      NextKeyLine(d, rest, lines, n, after[0], k0);
    }
    ParserInvertsPrinter(d, rest);
  }

  lemma MappingIsStructural(info: LineInfo)
    ensures info.typ == Mapping ==> info.typ.Structural()
  {
  }

  lemma NextKeyLine(d: Doc, rest: seq<string>, lines: seq<string>, n: nat, e: Entry, k: nat)
    requires WellFormedDoc(d) && (rest != [] ==> rest[0] == SEPARATOR) && lines == Texts(DocRows(d)) + rest
    requires k < |DocRows(d)| && DocRows(d)[k] == KeyRow(e, n, "$") && PlainKey(e.key)
    ensures k < DocLength(lines) && Scan(lines)[k].typ.Structural() && Scan(lines)[k].indent == n
  {
    hide *;
    ParserInvertsPrinter(d, rest);
    RowRead(d, rest, lines, k);
    KeyRowShape(e, n);
    ReadMapping(lines, k, DocRows(d)[k]);
    MappingIsStructural(Scan(lines)[k]);
    StructureIndent(lines, k);
    KeyRowIndent(e, n, "$");
  }

  lemma KeyRowShape(e: Entry, n: nat)
    ensures KeyRow(e, n, "$").Structure? && KeyRow(e, n, "$").typ == Mapping
  {
  }

  /** The path of a key goes up to the root. */
  lemma RootKeyParent(key: string)
    requires '.' !in key
    ensures LastIndexOf("$." + key, '.') == 1 && ("$." + key)[..1] == "$"
  {
    assert "$." + key == "$" + ['.'] + key;
    LastIndexOfSplit("$", '.', key);
  }

  lemma KeyPathNamed(key: string)
    ensures NamedBy("$." + key, key)
  {
    FirstDotAt("$." + key, key);
  }

  lemma TypedAfter(d: Doc, rest: seq<string>, lines: seq<string>, n: nat, before: seq<Entry>, e: Entry, after: seq<Entry>, v: string, j: nat)
    requires Printed(d, rest, lines, n, before, e, after, v) && RowOf(n, before, e) < j < DocLength(lines)
    requires Typed(Scan(lines)[j]) && !Scan(lines)[j].typ.Structural()
    ensures var k, f := j - RowOf(n, before, e) - 1, Following(d, after);
            NamedBy(PlacedAt([], Scan(lines), j).path, e.key) <==> k < |f| && Deeper(f[k], n)
  {
    hide *;
    EntryLine(d, rest, lines, n, before, e, after, v);
    FollowingRows(d, n, before, e, after, v);
    RowsAround(d, n, before, e, after, v);
    PrintedIs(d, rest, lines, n, before, e, after, v);
    ParserInvertsPrinter(d, rest);
    var infos, r, f := Scan(lines), RowOf(n, before, e), Following(d, after);
    RootNotNamed(e.key);
    if j - r - 1 < |f| {
      FollowingLine(d, rest, lines, n, before, e, after, v, j - r - 1);
      DeeperIs(f[j - r - 1], n);
      TypedNoComment(infos[j]);
    }
    var q := FindNearest(infos, j, j);
    NearestBehind(d, rest, lines, n, before, e, after, v, j, q);
    TypedPath(infos, j, q);
    if q == r {
      TreeKeysDotless(e.key);
      RootKeyParent(e.key);
      KeyPathNamed(e.key);
      if after != [] {
        NextKeyLine(d, rest, lines, n, after[0], r + 1 + |f|);
      } else if j == |DocRows(d)| {
        RowRead(d, rest, lines, j);
        SeparatorInfo(lines, j);
        PassedTyped(infos[j]);
      }
    } else if q != -1 {
      StructuralRow(d, rest, lines, n, q);
      BelowAny(DocRows(d)[q].path, after, e.key);
      FollowingAreNoise(DocRows(d), r, f);
    }
  }

  lemma FollowingAreNoise(rows: seq<Row>, r: nat, f: seq<string>)
    requires r + 1 + |f| <= |rows|
    requires forall k :: 0 <= k < |f| ==> rows[r + 1 + k] == Noise(f[k])
    ensures forall q :: r < q < r + 1 + |f| ==> rows[q].Noise?
  {
    forall q | r < q < r + 1 + |f| ensures rows[q].Noise? {
      assert rows[r + 1 + (q - r - 1)] == Noise(f[q - r - 1]);
    }
  }

  lemma TypedNoComment(info: LineInfo)
    requires Typed(info)
    ensures info.typ != Comment
  {
  }

  /** Neither the path of a later line nor the one above it has the name. */
  lemma BelowAny(path: string, es: seq<Entry>, name: string)
    requires Below(path, es) && PlainKey(name)
    requires forall x :: 0 <= x < |es| ==> es[x].key != name && '.' !in es[x].key
    ensures !NamedBy(path, name) && LastIndexOf(path, '.') != -1 && !NamedBy(path[..LastIndexOf(path, '.')], name)
  {
    hide *;
    BelowNotNamed(path, es, name);
    BelowParent(path, es);
    RootNotNamed(name);
    if path[..LastIndexOf(path, '.')] != "$" {
      BelowNotNamed(path[..LastIndexOf(path, '.')], es, name);
    }
  }

  // ---------------------------------------------------------------- main result

  /** The line objects of the parsed document. */
  lemma ParsedLineIs(objects: seq<Line>, lines: seq<string>, j: nat)
    requires Parsed(objects, lines) && j < DocLength(lines)
    ensures |objects| == DocLength(lines) && objects[j].path == PlacedAt([], Scan(lines), j).path
    ensures objects[j].SameText(Scan(lines)[j])
  {
    hide Scan, PlacedAt;
  }

  lemma ParsedValue(objects: seq<Line>, lines: seq<string>, j: nat)
    requires Parsed(objects, lines) && j < DocLength(lines)
    ensures |objects| == DocLength(lines) && objects[j].Info().MapValue() == Scan(lines)[j].MapValue()
  {
    hide *;
    ParsedLineIs(objects, lines, j);
    MapValueOfText(objects[j], Scan(lines)[j]);
  }

  lemma OwnValue(e: Entry, n: nat, v: string)
    ensures LineInfo(Mapping, e.key + ":" + (" " + v), n, |e.key|, e.key).MapValue() == v
  {
    assert e.key + ":" + (" " + v) == e.key + ":" + " " + v;
    KeyAndValue(LineInfo(Mapping, e.key + ":" + (" " + v), n, |e.key|, e.key), e.key, v);
    hide LineInfo.MapValue;
  }

  ghost predicate SomeDeeper(d: Doc, after: seq<Entry>, n: nat) {
    exists k :: 0 <= k < |Following(d, after)| && Deeper(Following(d, after)[k], n)
  }

  lemma SomeDeeperIs(d: Doc, after: seq<Entry>, n: nat)
    ensures SomeDeeper(d, after, n) <==> exists k :: 0 <= k < |Following(d, after)| && Deeper(Following(d, after)[k], n)
  {
    hide Deeper, Following;
  }

  /** Main theorem: in a printed document the value inferred for a name ("kind", "apiVersion") is that of
      the last root entry "name: value", if and only if nothing is written deeper directly below it, blank
      lines with blanks included and comments not; otherwise it is lost. */
  lemma InferredFromEntry(d: Doc, rest: seq<string>, objects: seq<Line>, n: nat, before: seq<Entry>, e: Entry, after: seq<Entry>, v: string)
    requires Printed(d, rest, Texts(DocRows(d)) + rest, n, before, e, after, v)
    requires Parsed(objects, Texts(DocRows(d)) + rest)
    ensures InferText(objects, e.key) == if SomeDeeper(d, after, n) then "" else v
  {
    hide *;
    var lines, r, f := Texts(DocRows(d)) + rest, RowOf(n, before, e), Following(d, after);
    var infos := Scan(lines);
    EntryLine(d, rest, lines, n, before, e, after, v);
    FollowingRows(d, n, before, e, after, v);
    SomeDeeperIs(d, after, n);
    KeyPathNamed(e.key);
    ParsedLineIs(objects, lines, r);
    var i := InferTextLast(objects, e.key);
    assert objects[r] in objects;
    ParsedLineIs(objects, lines, i);
    ParsedValue(objects, lines, i);
    if i == r {
      OwnValue(e, n, v);
      forall k | 0 <= k < |f| ensures !Deeper(f[k], n) {
        AfterEntry(d, rest, lines, n, before, e, after, v, r + 1 + k);
        ParsedLineIs(objects, lines, r + 1 + k);
      }
    } else {
      AfterEntry(d, rest, lines, n, before, e, after, v, i);
      NotMapping(infos[i]);
      NoMapValue(infos[i]);
    }
  }

  lemma NotMapping(info: LineInfo)
    requires !info.typ.Structural()
    ensures !info.typ.IsMapping()
  {
  }

  /** The kind of this document is not known, though it is read as a key with its value. */
  lemma BlankLineHidesKind(objects: seq<Line>)
    requires Parsed(objects, ["kind: Service", "  "])
    ensures InferText(objects, "kind") == ""
    ensures |objects| == 2 && objects[0].path == "$.kind" && objects[0].Info().MapValue() == "Service"
  {
    hide *;
    var e := Entry([], "kind", " Service", Leaf);
    var d := Doc(Map(0, [e]), ["  "]);
    KindPrinted(d, e);
    InferredFromEntry(d, [], objects, 0, [], e, [], "Service");
    EntryLine(d, [], ["kind: Service", "  "], 0, [], e, [], "Service");
    ParsedLineIs(objects, ["kind: Service", "  "], 0);
    ParsedValue(objects, ["kind: Service", "  "], 0);
    OwnValue(e, 0, "Service");
  }

  lemma KindPrinted(d: Doc, e: Entry)
    requires e == Entry([], "kind", " Service", Leaf) && d == Doc(Map(0, [e]), ["  "])
    ensures Printed(d, [], Texts(DocRows(d)) + [], 0, [], e, [], "Service")
    ensures Texts(DocRows(d)) + [] == ["kind: Service", "  "]
    ensures SomeDeeper(d, [], 0) && RowOf(0, [], e) == 0 && DocLength(["kind: Service", "  "]) == 2
  {
    assert Indent("  ") == 1 + Indent(" ") && Indent(" ") == 1 + Indent("");
    assert WellFormedEntries([e], 0) by {
      KindEntry(e);
    }
    assert [] + [e] + [] == [e];
    assert Deeper(Following(d, [])[0], 0);
    KindRows(d, e);
    assert DocLength(["kind: Service", "  "]) == 1 + DocLength(["  "]);
  }

  lemma KindEntry(e: Entry)
    requires e == Entry([], "kind", " Service", Leaf)
    ensures WellFormedEntry(e, 0, false) && WellFormedEntries([e], 0)
  {
    assert PlainKey("kind");
    assert !EndsWithHeader(" Service");
    assert WellFormedEntries([e][1..], 0);
  }

  lemma KindRows(d: Doc, e: Entry)
    requires e == Entry([], "kind", " Service", Leaf) && d == Doc(Map(0, [e]), ["  "])
    ensures Texts(DocRows(d)) + [] == ["kind: Service", "  "]
  {
    assert EntryRows([e], 0, "$") == [KeyRow(e, 0, "$")];
    assert Spaces(0) == "" && KeyText(e) == " Service";
    assert "kind" + ":" + " Service" == "kind: Service";
    assert KeyRow(e, 0, "$").text == "" + "kind: Service" == "kind: Service";
    assert DocRows(d) == [KeyRow(e, 0, "$"), Noise("  ")];
  }
}
