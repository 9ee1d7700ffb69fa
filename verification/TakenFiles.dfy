/** Without file patterns, which files the server takes: told of the text, and of printed documents. */
module TakenFiles {
  import opened Options
  import opened Strings
  import opened BlockStyle
  import opened FileInversion
  import opened FileStore

  lemma OccursIs(s: string, sub: string, i: nat)
    requires OccursAt(s, sub, i)
    ensures s == s[..i] + sub + s[i + |sub|..]
  {
  }

  lemma OccursBetween(a: string, sub: string, b: string)
    ensures Contains(a + sub + b, sub)
  {
    var s := a + sub + b;
    assert s[|a|..|a| + |sub|] == sub;
    assert OccursAt(s, sub, |a|);
  }

  /** Main theorem: without patterns a file is taken exactly if its text starts with the activating comment
      or has the start of an API version somewhere; there is no error. */
  lemma TakenExactly(env: Environment, uri: Uri, content: string)
    requires env.patterns == []
    ensures SkipFile(env, uri, content).Some?
    ensures SkipFile(env, uri, content) == Some(false) <==>
            || (exists b: string :: content == "# nobl9-language-server: activate" + b)
            || (exists a: string, b: string :: content == a + "apiVersion: n9/" + b)
  {
    if ACTIVATE_COMMENT <= content {
      assert content == "# nobl9-language-server: activate" + content[|ACTIVATE_COMMENT|..];
    }
    if Contains(content, API_VERSION_PREFIX) {
      var i :| 0 <= i <= |content| && OccursAt(content, API_VERSION_PREFIX, i);
      OccursIs(content, API_VERSION_PREFIX, i);
      assert content == content[..i] + "apiVersion: n9/" + content[i + |API_VERSION_PREFIX|..];
    }
    if a: string, b: string :| content == a + "apiVersion: n9/" + b {
      OccursBetween(a, API_VERSION_PREFIX, b);
    }
  }

  // ---------------------------------------------------------------- printed documents

  /** An entry of the root mapping, or of an object in the root list. */
  predicate RootEntry(d: Doc, e: Entry) {
    match d.root
    case Map(_, entries) => e in entries
    case Items(_, items) => exists i :: 0 <= i < |items| && items[i].Object? && (e == items[i].first || e in items[i].rest)
    case _ => false
  }

  /** The text stands in one of these rows. */
  ghost predicate InRows(rows: seq<Row>, text: string) {
    exists r: nat, a: string, b: string :: RowHas(rows, r, a, text, b)
  }

  predicate RowHas(rows: seq<Row>, r: nat, a: string, text: string, b: string) {
    r < |rows| && rows[r].text == a + text + b
  }

  function Written(e: Entry): string {
    e.key + ":" + e.text
  }

  lemma InRowsWithin(rows: seq<Row>, text: string, before: seq<Row>, after: seq<Row>)
    requires InRows(rows, text)
    ensures InRows(before + rows + after, text)
  {
    var r: nat, a: string, b: string :| RowHas(rows, r, a, text, b);
    assert RowHas(before + rows + after, |before| + r, a, text, b);
  }

  lemma KeyRowHas(e: Entry, indent: nat, path: string)
    ensures InRows([KeyRow(e, indent, path)], Written(e))
  {
    var more := KeyText(e)[|e.text|..];
    assert KeyText(e) == e.text + more;
    assert KeyRow(e, indent, path).text == Spaces(indent) + (Written(e) + more);
    assert Spaces(indent) + (Written(e) + more) == Spaces(indent) + Written(e) + more;
    assert RowHas([KeyRow(e, indent, path)], 0, Spaces(indent), Written(e), more);
  }

  lemma ItemRowHas(item: Item, column: nat, path: string)
    requires item.Object?
    ensures InRows([ItemRow(item, column, path)], Written(item.first))
  {
    var head, text := Spaces(column) + "- ", Written(item.first);
    assert Spaces(column) + ("- " + text) == head + text + "";
    assert RowHas([ItemRow(item, column, path)], 0, head, text, "");
  }

  lemma {:induction false} EntriesHave(es: seq<Entry>, indent: nat, path: string, e: Entry)
    requires e in es
    ensures InRows(EntryRows(es, indent, path), Written(e))
    decreases |es|
  {
    hide InRows, KeyRow, ValueRows;
    var first := es[0];
    var value, others := ValueRows(first.value, path + "." + first.key), EntryRows(es[1..], indent, path);
    var noise, row := NoiseRows(first.noise), [KeyRow(first, indent, path)];
    assert EntryRows(es, indent, path) == noise + row + value + others;
    if e == first {
      KeyRowHas(e, indent, path);
      InRowsWithin(row, Written(e), noise, value + others);
      assert noise + row + (value + others) == noise + row + value + others;
    } else {
      EntriesHave(es[1..], indent, path, e);
      InRowsWithin(others, Written(e), noise + row + value, []);
      assert noise + row + value + others + [] == noise + row + value + others;
    }
  }

  lemma ItemHas(item: Item, column: nat, path: string, e: Entry)
    requires item.Object? && (e == item.first || e in item.rest)
    ensures InRows(OneItemRows(item, column, path), Written(e))
  {
    var first := item.first;
    var value, others := ValueRows(first.value, path + "." + first.key), EntryRows(item.rest, column + 2, path);
    var noise, row := NoiseRows(first.noise), [ItemRow(item, column, path)];
    assert OneItemRows(item, column, path) == noise + row + value + others;
    hide InRows, ItemRow, ValueRows, EntryRows, OneItemRows;
    if e == first {
      ItemRowHas(item, column, path);
      InRowsWithin(row, Written(e), noise, value + others);
      assert noise + row + (value + others) == noise + row + value + others;
    } else {
      EntriesHave(item.rest, column + 2, path, e);
      InRowsWithin(others, Written(e), noise + row + value, []);
      assert noise + row + value + others + [] == noise + row + value + others;
    }
  }

  lemma {:induction false} ItemsHave(items: seq<Item>, column: nat, path: string, k: nat, i: nat, e: Entry)
    requires i < |items| && items[i].Object? && (e == items[i].first || e in items[i].rest)
    ensures InRows(ItemRows(items, column, path, k), Written(e))
    decreases i
  {
    hide InRows, OneItemRows;
    var first, others := OneItemRows(items[0], column, ElementPath(path, k)), ItemRows(items[1..], column, path, k + 1);
    assert ItemRows(items, column, path, k) == first + others;
    if i == 0 {
      ItemHas(items[0], column, ElementPath(path, k), e);
      InRowsWithin(first, Written(e), [], others);
      assert [] + first + others == first + others;
    } else {
      ItemsHave(items[1..], column, path, k + 1, i - 1, e);
      InRowsWithin(others, Written(e), first, []);
      assert first + others + [] == first + others;
    }
  }

  lemma DocHas(d: Doc, e: Entry)
    requires RootEntry(d, e)
    ensures InRows(DocRows(d), Written(e))
  {
    var rows := ValueRows(d.root, "$");
    hide InRows, Written;
    match d.root {
      case Map(n, es) => EntriesHave(es, n, "$", e);
      case Items(column, items) =>
        var i :| 0 <= i < |items| && items[i].Object? && (e == items[i].first || e in items[i].rest);
        ItemsHave(items, column, "$", 0, i, e);
    }
    InRowsWithin(rows, Written(e), [], NoiseRows(d.tail));
    assert [] + rows + NoiseRows(d.tail) == rows + NoiseRows(d.tail);
  }

  // ---------------------------------------------------------------- files

  predicate LineHas(lines: seq<string>, i: nat, a: string, text: string, b: string) {
    i < |lines| && lines[i] == a + text + b
  }

  lemma {:induction false} FileHas(ds: seq<Doc>, k: nat, e: Entry) returns (i: nat, a: string, b: string)
    requires k < |ds| && RootEntry(ds[k], e)
    ensures LineHas(FileLines(ds), i, a, Written(e), b)
    decreases k
  {
    hide DocRows, RootEntry, Written, AfterFirst;
    FileLinesIs(ds);
    AfterFirstIs(ds);
    var first := Texts(DocRows(ds[0]));
    if k == 0 {
      DocHas(ds[0], e);
      var r: nat;
      r, a, b :| RowHas(DocRows(ds[0]), r, a, Written(e), b);
      i := r;
    } else {
      i, a, b := FileHas(ds[1..], k - 1, e);
      assert AfterFirst(ds)[1..][i] == AfterFirst(ds)[i + 1];
      assert FileLines(ds)[|first| + 1 + i] == AfterFirst(ds)[1 + i];
      i := |first| + 1 + i;
    }
  }

  /** A line of a text is a stretch of it. */
  lemma {:induction false} LineInText(s: string, i: nat) returns (a: string, b: string)
    requires i < |Lines(s)|
    ensures s == a + Lines(s)[i] + b
    ensures i == 0 ==> a == ""
    decreases |s|
  {
    a, b := "", "";
    if s != "" {
      var rest := Lines(s[1..]);
      if s[0] == '\n' {
        if i == 0 {
          b := s;
        } else {
          a, b := LineInText(s[1..], i - 1);
          assert s == ([s[0]] + a) + Lines(s)[i] + b;
          a := [s[0]] + a;
        }
      } else {
        a, b := LineInText(s[1..], i);
        if i == 0 {
          assert s == "" + ([s[0]] + rest[0]) + b;
        } else {
          assert s == ([s[0]] + a) + Lines(s)[i] + b;
          a := [s[0]] + a;
        }
      }
    }
  }

  /** Main theorem: a file printed from trees, one of which has a root entry "apiVersion: n9/..", is always
      taken. */
  lemma PrintedTaken(env: Environment, uri: Uri, content: string, ds: seq<Doc>, k: nat, e: Entry, version: string)
    requires env.patterns == [] && ds != [] && Lines(content) == FileLines(ds)
    requires k < |ds| && RootEntry(ds[k], e) && e.key == "apiVersion" && e.text == " n9/" + version
    ensures SkipFile(env, uri, content) == Some(false)
  {
    WrittenVersion(e, version);
    hide *;
    var x, y := FileText(content, ds, k, e);
    TakenVersion(env, uri, content, x, version, y);
  }

  lemma WrittenVersion(e: Entry, version: string)
    requires e.key == "apiVersion" && e.text == " n9/" + version
    ensures Written(e) == "apiVersion: n9/" + version
  {
  }

  /** What a root entry is written as stands somewhere in the text. */
  lemma FileText(content: string, ds: seq<Doc>, k: nat, e: Entry) returns (x: string, y: string)
    requires ds != [] && Lines(content) == FileLines(ds) && k < |ds| && RootEntry(ds[k], e)
    ensures content == x + Written(e) + y
  {
    hide *;
    var i, a, b := FileHas(ds, k, e);
    LineHasIs(FileLines(ds), i, a, Written(e), b);
    x, y := LineInText(content, i);
    Regroup(x, a, Written(e), b, y);
    x, y := x + a, b + y;
  }

  lemma LineHasIs(lines: seq<string>, i: nat, a: string, text: string, b: string)
    requires LineHas(lines, i, a, text, b)
    ensures i < |lines| && lines[i] == a + text + b
  {
  }

  lemma Regroup(x: string, a: string, text: string, b: string, y: string)
    ensures x + (a + text + b) + y == (x + a) + text + (b + y)
  {
  }

  lemma TakenVersion(env: Environment, uri: Uri, content: string, x: string, version: string, y: string)
    requires env.patterns == [] && content == x + ("apiVersion: n9/" + version) + y
    ensures SkipFile(env, uri, content) == Some(false)
  {
    hide *;
    assert x + ("apiVersion: n9/" + version) + y == x + "apiVersion: n9/" + (version + y);
    TakenWith(env, uri, content, x, version + y);
  }

  lemma TakenWith(env: Environment, uri: Uri, content: string, a: string, b: string)
    requires env.patterns == [] && content == a + "apiVersion: n9/" + b
    ensures SkipFile(env, uri, content) == Some(false)
  {
    hide *;
    TakenExactly(env, uri, content);
  }
}
