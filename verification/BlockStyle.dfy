/** A printer for block-style documents, and the proof that the line parser inverts it: every
    structural line gets exactly the path of its place in the tree, whatever the indents, with
    comments, blank lines, continuation text and block scalars in between. */
module BlockStyle {
  import opened Strings
  import opened YamlLines

  // ---------------------------------------------------------------- documents

  /** What hangs below a key line; every level chooses its own indent. */
  datatype Value =
    | Leaf
    | Body(header: Header, lines: seq<string>)
    | Map(indent: nat, entries: seq<Entry>)
    | Items(column: nat, items: seq<Item>)

  /** What opens a block scalar: '|' or '>', and blanks. */
  datatype Header = Literal(blanks: string) | Folded(blanks: string)

  /** The line "key:" + text, the noise above it and the value below it; behind the text comes the header of
      a block scalar, if the value is one. */
  datatype Entry = Entry(noise: seq<string>, key: string, text: string, value: Value)

  /** "- text", or "- key:" + text followed by the other entries of the same mapping. */
  datatype Item =
    | Scalar(noise: seq<string>, text: string)
    | Object(first: Entry, rest: seq<Entry>)

  predicate PlainKey(k: string) {
    && k != "" && k[0] != '-'
    && forall i :: 0 <= i < |k| ==>
         !IsSpace(k[i]) && k[i] !in {'.', '[', ']', ':', '#', '"', '\''}
  }

  predicate AllBlank(s: string) {
    forall i :: 0 <= i < |s| ==> IsSpace(s[i])
  }

  /** Nothing but blanks comes behind some '|' or '>'. */
  predicate EndsWithHeader(s: string) {
    exists i :: 0 <= i < |s| && s[i] in {'|', '>'} && AllBlank(s[i + 1..])
  }

  /** Every colon has a '#' in front of it. */
  predicate HashedColons(s: string) {
    forall i :: 0 <= i < |s| && s[i] == ':' ==> '#' in s[..i]
  }

  /** A line without structure: blank, a comment, or continuation text without a key's colon. */
  predicate NoiseLine(l: string) {
    var t := l[Indent(l)..];
    t == "" || t[0] == '#' || (t[0] != '-' && (HashedColons(t) || (ColonIndex(t) == -1 && !EndsWithHeader(t))))
  }

  predicate AllNoise(ls: seq<string>) {
    forall i :: 0 <= i < |ls| ==> NoiseLine(ls[i])
  }

  /** A value below a key at this indent; a "- key:" line opens no block scalar. */
  predicate WellFormedValue(v: Value, indent: nat, dash: bool)
    decreases v
  {
    match v
    case Leaf => true
    case Body(header, ls) => !dash && AllBlank(header.blanks) && forall i :: 0 <= i < |ls| ==> Indent(ls[i]) >= indent + 2
    case Map(n, entries) => n > indent && entries != [] && WellFormedEntries(entries, n)
    case Items(column, items) => column >= indent && items != [] && WellFormedItems(items, column)
  }

  predicate WellFormedEntry(e: Entry, indent: nat, dash: bool)
    decreases e
  {
    && AllNoise(e.noise)
    && PlainKey(e.key)
    && (dash || e.value.Body? || !EndsWithHeader(e.text))
    && WellFormedValue(e.value, indent, dash)
  }

  predicate WellFormedEntries(es: seq<Entry>, indent: nat)
    decreases es
  {
    es != [] ==> WellFormedEntry(es[0], indent, false) && WellFormedEntries(es[1..], indent)
  }

  predicate WellFormedItem(item: Item, column: nat)
    decreases item
  {
    match item
    case Scalar(noise, text) => AllNoise(noise) && ColonIndex("- " + text) == -1
    case Object(first, rest) => WellFormedEntry(first, column + 2, true) && WellFormedEntries(rest, column + 2)
  }

  predicate WellFormedItems(items: seq<Item>, column: nat)
    decreases items
  {
    items != [] ==> WellFormedItem(items[0], column) && WellFormedItems(items[1..], column)
  }

  // ---------------------------------------------------------------- printing

  /** A printed line with the type and path it stands for in the tree. */
  datatype Row = Noise(text: string) | Structure(text: string, typ: LineType, path: string)

  function NoiseRows(ls: seq<string>): (rows: seq<Row>)
    ensures |rows| == |ls|
  {
    seq(|ls|, i requires 0 <= i < |ls| => Noise(ls[i]))
  }

  /** What comes behind the colon. */
  function KeyText(e: Entry): string {
    match e.value
    case Body(Literal(blanks), _) => e.text + "|" + blanks
    case Body(Folded(blanks), _) => e.text + ">" + blanks
    case _ => e.text
  }

  function KeyRow(e: Entry, indent: nat, path: string): Row {
    Structure(Spaces(indent) + (e.key + ":" + KeyText(e)), Mapping, path + "." + e.key)
  }

  function ElementPath(path: string, i: nat): string {
    path + "[" + Itoa(i) + "]"
  }

  function ValueRows(v: Value, path: string): seq<Row>
    decreases v
  {
    match v
    case Leaf => []
    case Body(_, ls) => NoiseRows(ls)
    case Map(n, entries) => EntryRows(entries, n, path)
    case Items(column, items) => ItemRows(items, column, path, 0)
  }

  function EntryRows(es: seq<Entry>, indent: nat, path: string): seq<Row>
    decreases es
  {
    if es == [] then []
    else
      NoiseRows(es[0].noise) + [KeyRow(es[0], indent, path)] + ValueRows(es[0].value, path + "." + es[0].key)
      + EntryRows(es[1..], indent, path)
  }

  function ItemRow(item: Item, column: nat, path: string): Row {
    match item
    case Scalar(_, text) => Structure(Spaces(column) + ("- " + text), List, path)
    case Object(e, _) =>
      Structure(Spaces(column) + ("- " + (e.key + ":" + e.text)), ListMapping, path + "." + e.key)
  }

  function OneItemRows(item: Item, column: nat, path: string): seq<Row>
    decreases item
  {
    match item
    case Scalar(noise, _) => NoiseRows(noise) + [ItemRow(item, column, path)]
    case Object(e, rest) =>
      NoiseRows(e.noise) + [ItemRow(item, column, path)] + ValueRows(e.value, path + "." + e.key)
      + EntryRows(rest, column + 2, path)
  }

  function ItemRows(items: seq<Item>, column: nat, path: string, i: nat): seq<Row>
    decreases items
  {
    if items == [] then []
    else OneItemRows(items[0], column, ElementPath(path, i)) + ItemRows(items[1..], column, path, i + 1)
  }

  function Texts(rows: seq<Row>): (ls: seq<string>)
    ensures |ls| == |rows|
    ensures forall i :: 0 <= i < |rows| ==> ls[i] == rows[i].text
  {
    seq(|rows|, i requires 0 <= i < |rows| => rows[i].text)
  }

  /** A whole document: a root mapping, a root list or nothing, then noise. */
  datatype Doc = Doc(root: Value, tail: seq<string>)

  predicate WellFormedDoc(d: Doc) {
    && AllNoise(d.tail)
    && match d.root
       case Map(n, entries) => entries != [] && WellFormedEntries(entries, n)
       case Items(column, items) => items != [] && WellFormedItems(items, column)
       case Leaf => true
       case Body(_, _) => false
  }

  function DocRows(d: Doc): seq<Row> {
    ValueRows(d.root, "$") + NoiseRows(d.tail)
  }

  // ---------------------------------------------------------------- the parser on single lines

  lemma {:induction false} ColonAfterKey(s: string, i: nat, k: nat)
    requires i <= k < |s| && s[k] == ':'
    requires forall j :: i <= j < k ==> !IsSpace(s[j]) && s[j] !in {':', '"', '\''}
    ensures i > 0 ==> ColonFrom(s, i, true, false, false) == k
    ensures i < k && s[i] != '-' ==> ColonFrom(s, i, false, false, false) == k
    decreases k - i
  {
    if i < k {
      ColonAfterKey(s, i + 1, k);
    }
  }

  lemma {:induction false} MappingNodeOfKey(s: string, k: nat)
    requires k < |s| && s[k] == ':' && '#' !in s[..k]
    ensures IsMappingNode(s)
    decreases k
  {
    if k > 0 {
      assert s[..k][0] == s[0];
      assert s[1..][..k - 1] == s[..k][1..];
      MappingNodeOfKey(s[1..], k - 1);
    }
  }

  lemma {:induction false} MappingNodeExactly(s: string)
    ensures IsMappingNode(s) <==> !HashedColons(s)
  {
    if s != "" {
      var t := s[1..];
      MappingNodeExactly(t);
      if s[0] != '#' && s[0] != ':' {
        forall i | 0 <= i < |t| ensures t[i] == s[i + 1] && ('#' in t[..i] <==> '#' in s[..i + 1]) {
          assert s[..i + 1] == [s[0]] + t[..i];
        }
      } else if s[0] == '#' {
        forall i | 0 <= i < |s| && s[i] == ':' ensures '#' in s[..i] {
          assert s[..i][0] == '#';
        }
      } else {
        assert s[..0] == "";
      }
    }
  }

  /** The scan from the end for the last character that is no blank. */
  lemma BlockScalarExactly(s: string)
    ensures IsBlockScalar(s) <==> EndsWithHeader(s)
  {
    var t := TrimRight(s);
    if IsBlockScalar(s) {
      var i := |t| - 1;
      assert s[i] == t[i];
      assert AllBlank(s[i + 1..]);
    }
    if EndsWithHeader(s) {
      var i :| 0 <= i < |s| && s[i] in {'|', '>'} && AllBlank(s[i + 1..]);
      HeaderNotBlank(s[i]);
      assert |t| > i;
      TailBlank(s, i);
    }
  }

  lemma TailBlank(s: string, i: nat)
    requires i < |s| && AllBlank(s[i + 1..])
    ensures forall j :: i < j < |s| ==> IsSpace(s[j])
  {
    forall j | i < j < |s| ensures IsSpace(s[j]) {
      assert s[i + 1..][j - i - 1] == s[j];
    }
  }

  lemma HeaderNotBlank(c: char)
    requires c in {'|', '>'}
    ensures !IsSpace(c)
  {
  }

  lemma HeaderAt(s: string, i: nat)
    requires i < |s| && s[i] in {'|', '>'} && AllBlank(s[i + 1..])
    ensures EndsWithHeader(s)
  {
    hide AllBlank;
  }

  /** Where the header is. */
  lemma HeaderFound(s: string) returns (i: nat)
    requires EndsWithHeader(s)
    ensures i < |s| && s[i] in {'|', '>'} && AllBlank(s[i + 1..])
  {
    hide AllBlank;
    i :| 0 <= i < |s| && s[i] in {'|', '>'} && AllBlank(s[i + 1..]);
  }

  lemma NoneBeforeColon(head: string, text: string, i: nat)
    requires i < |head|
    ensures !AllBlank((head + ":" + text)[i + 1..])
  {
    ColonNotBlank();
    assert (head + ":" + text)[i + 1..][|head| - i - 1] == ':';
  }

  /** A text behind a colon ends with a header exactly if the whole line does. */
  lemma HeaderOfText(head: string, text: string)
    ensures EndsWithHeader(head + ":" + text) <==> EndsWithHeader(text)
  {
    hide *;
    var w, n := head + ":" + text, |head| + 1;
    if EndsWithHeader(text) {
      var i := HeaderFound(text);
      assert w[n + i] == text[i] && w[n + i + 1..] == text[i + 1..];
      HeaderAt(w, n + i);
    }
    if EndsWithHeader(w) {
      var i := HeaderFound(w);
      if i < |head| {
        NoneBeforeColon(head, text, i);
      }
      assert w[|head|] == ':';
      if i >= n {
        assert w[i] == text[i - n] && w[i + 1..] == text[i - n + 1..];
        HeaderAt(text, i - n);
      }
    }
  }

  lemma ColonNotBlank()
    ensures !IsSpace(':')
  {
  }

  /** A text ends with the header that is written behind it, whatever it is itself. */
  lemma HeaderWritten(text: string, mark: char, blanks: string)
    requires mark in {'|', '>'} && AllBlank(blanks)
    ensures EndsWithHeader(text + [mark] + blanks)
  {
    var w := text + [mark] + blanks;
    assert w[|text|] == mark && w[|text| + 1..] == blanks;
  }

  lemma KeyTextHeader(e: Entry, indent: nat)
    requires WellFormedEntry(e, indent, false)
    ensures EndsWithHeader(KeyText(e)) <==> e.value.Body?
  {
    assert WellFormedValue(e.value, indent, false);
    hide EndsWithHeader, AllBlank;
    match e.value
    case Body(Literal(blanks), _) => HeaderWritten(e.text, '|', blanks);
    case Body(Folded(blanks), _) => HeaderWritten(e.text, '>', blanks);
    case _ =>
  }

  lemma KeyLine(indent: nat, key: string, text: string)
    requires PlainKey(key)
    ensures var line := Spaces(indent) + (key + ":" + text);
            && line != SEPARATOR
            && Indent(line) == indent
            && Classify(line) == LineInfo(Mapping, key + ":" + text, indent, |key|, key)
            && (OpensBlock(line) <==> EndsWithHeader(text))
  {
    var t := key + ":" + text;
    IndentSpaces(indent, t);
    assert t[..|key|] == key;
    MappingNodeOfKey(t, |key|);
    ColonAfterKey(t, 0, |key|);
    TrimSpaceIdentity(key);
    BlockScalarExactly(t);
    HeaderOfText(key, text);
    hide IsBlockScalar, EndsWithHeader;
    assert (Spaces(indent) + t)[indent] == key[0];
  }

  lemma DashColon(key: string, text: string)
    requires PlainKey(key)
    ensures ColonIndex("- " + (key + ":" + text)) == |key| + 2
  {
    var t := "- " + (key + ":" + text);
    assert forall j :: 2 <= j < |key| + 2 ==> t[j] == key[j - 2];
    assert t[2] == key[0] && t[|key| + 2] == ':';
    ColonAfterKey(t, 2, |key| + 2);
    assert ColonFrom(t, 1, false, false, false) == ColonFrom(t, 2, false, false, false);
  }

  lemma TrimLeadingBlank(key: string)
    requires PlainKey(key)
    ensures TrimSpace(" " + key) == key
  {
    var t := " " + key;
    assert t[1] == key[0];
    assert t[Indent(t)..] == key;
    TrimSpaceIdentity(key);
    assert TrimSpace(key) == TrimRight(key[Indent(key)..]) && key[Indent(key)..] == key;
  }

  lemma DashLine(column: nat, key: string, text: string)
    requires PlainKey(key)
    ensures var line := Spaces(column) + ("- " + (key + ":" + text));
            && line != SEPARATOR
            && Indent(line) == column
            && Classify(line) == LineInfo(ListMapping, key + ":" + text, column + 2, |key|, key)
            && !OpensBlock(line)
  {
    hide ColonIndex, TrimSpace, IsMappingNode, PlainKey;
    var rest := key + ":" + text;
    var t := "- " + rest;
    IndentSpaces(column, t);
    DashColon(key, text);
    TrimLeadingBlank(key);
    assert t[0] == '-' && t[2..] == rest && "- " <= t;
    assert t[1..|key| + 2] == " " + key;
    assert (Spaces(column) + t)[column] == '-' && (Spaces(column) + t)[column + 1] == ' ';
  }

  lemma ScalarLine(column: nat, text: string)
    requires ColonIndex("- " + text) == -1
    ensures var line := Spaces(column) + ("- " + text);
            && line != SEPARATOR
            && Indent(line) == column
            && Classify(line) == LineInfo(List, text, column + 2, -1, "")
            && !OpensBlock(line)
  {
    var t := "- " + text;
    IndentSpaces(column, t);
    assert t[2..] == text;
    assert Spaces(column) + t != SEPARATOR by {
      assert (Spaces(column) + t)[column] == '-' && (Spaces(column) + t)[column + 1] == ' ';
    }
  }

  lemma NoiseIsNoise(l: string)
    requires NoiseLine(l)
    ensures l != SEPARATOR && !Classify(l).typ.Structural() && !OpensBlock(l)
  {
    var t := l[Indent(l)..];
    MappingNodeExactly(t);
    BlockScalarExactly(t);
    hide IsMappingNode, HashedColons, IsBlockScalar, EndsWithHeader, ColonIndex;
  }
}
