/** The keys of printed rows and the paths that end with them. */
module TreeKeys {
  import opened Strings
  import opened YamlLines
  import opened BlockStyle
  import opened ParserInversion

  /** The path goes on with a dot and the key. */
  predicate EndsWithKey(path: string, key: string) {
    key != "" && |path| > |key| && path[|path| - |key| - 1..] == "." + key
  }

  lemma EndsWithIts(path: string, key: string)
    requires key != ""
    ensures EndsWithKey(path + "." + key, key)
  {
  }

  /** Keys have no dots, paths end with them, a list row's path is longer than its key, and a blank comes
      behind its dash. */
  predicate KeysFit(rows: seq<Row>) {
    forall r :: 0 <= r < |rows| ==> KeyFits(rows[r])
  }

  predicate KeyFits(row: Row) {
    row.Structure? ==>
      && '.' !in Classify(row.text).key
      && (row.typ.IsMapping() ==> EndsWithKey(row.path, Classify(row.text).key))
      && (row.typ.IsList() ==> |Classify(row.text).key| < |row.path|)
      && (row.typ.IsList() ==> "- " <= row.text[Indent(row.text)..])
  }

  lemma PlainKeyDotless(key: string)
    requires PlainKey(key)
    ensures '.' !in key
  {
  }

  lemma KeyRowFits(e: Entry, indent: nat, path: string)
    requires PlainKey(e.key)
    ensures KeyFits(KeyRow(e, indent, path))
  {
    hide Classify, OpensBlock, EndsWithHeader, PlainKey, KeyText;
    KeyLine(indent, e.key, KeyText(e));
    PlainKeyDotless(e.key);
    PlainKeyNotEmpty(e.key);
    EndsWithIts(path, e.key);
  }

  lemma BehindSpaces(n: nat, t: string)
    ensures (Spaces(n) + t)[n..] == t
  {
  }

  lemma ItemKeyFits(item: Item, column: nat, path: string)
    requires WellFormedItem(item, column) && path != ""
    ensures KeyFits(ItemRow(item, column, path))
  {
    match item
    case Scalar(_, text) =>
      ScalarLine(column, text);
      BehindSpaces(column, "- " + text);
      hide Classify, OpensBlock;
    case Object(e, _) =>
      DashLine(column, e.key, e.text);
      BehindSpaces(column, "- " + (e.key + ":" + e.text));
      PlainKeyDotless(e.key);
      PlainKeyNotEmpty(e.key);
      EndsWithIts(path, e.key);
      hide Classify, OpensBlock, PlainKey;
  }

  lemma {:induction false} ValueKeysFit(v: Value, path: string, indent: nat, dash: bool)
    requires WellFormedValue(v, indent, dash) && path != ""
    ensures KeysFit(ValueRows(v, path))
    decreases v
  {
    match v
    case Leaf =>
    case Body(_, _) =>
    case Map(n, es) => EntryKeysFit(es, n, path);
    case Items(column, items) => ItemsKeysFit(items, column, path, 0);
  }

  lemma {:induction false} EntryKeysFit(es: seq<Entry>, indent: nat, path: string)
    requires WellFormedEntries(es, indent) && path != ""
    ensures KeysFit(EntryRows(es, indent, path))
    decreases es
  {
    hide KeyFits, KeyRow;
    if es != [] {
      NoiseKeysFit(es[0].noise);
      KeyRowFits(es[0], indent, path);
      ValueKeysFit(es[0].value, path + "." + es[0].key, indent, false);
      EntryKeysFit(es[1..], indent, path);
    }
  }

  lemma NoiseKeysFit(ls: seq<string>)
    ensures KeysFit(NoiseRows(ls))
  {
  }

  lemma {:induction false} OneItemKeysFit(item: Item, column: nat, path: string)
    requires WellFormedItem(item, column) && path != ""
    ensures KeysFit(OneItemRows(item, column, path))
    decreases item
  {
    hide KeyFits, ItemRow;
    ItemKeyFits(item, column, path);
    if item.Object? {
      NoiseKeysFit(item.first.noise);
      ValueKeysFit(item.first.value, path + "." + item.first.key, column + 2, true);
      EntryKeysFit(item.rest, column + 2, path);
    } else {
      NoiseKeysFit(item.noise);
    }
  }

  lemma {:induction false} ItemsKeysFit(items: seq<Item>, column: nat, path: string, i: nat)
    requires WellFormedItems(items, column) && path != ""
    ensures KeysFit(ItemRows(items, column, path, i))
    decreases items
  {
    hide KeyFits;
    if items != [] {
      OneItemKeysFit(items[0], column, ElementPath(path, i));
      ItemsKeysFit(items[1..], column, path, i + 1);
    }
  }

  lemma DocKeysFit(d: Doc)
    requires WellFormedDoc(d)
    ensures KeysFit(DocRows(d))
  {
    hide KeyFits;
    NoiseKeysFit(d.tail);
    match d.root
    case Leaf =>
    case Map(n, es) => EntryKeysFit(es, n, "$");
    case Items(column, items) => ItemsKeysFit(items, column, "$", 0);
  }

  lemma KeyFitsAt(rows: seq<Row>, i: nat)
    requires KeysFit(rows) && i < |rows|
    ensures KeyFits(rows[i])
  {
    hide KeyFits;
  }
}
