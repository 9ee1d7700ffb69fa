/** Which lines the parser takes for the text of a block scalar, and how a blank line ends it. */
module BlockScalars {
  import opened Strings
  import opened YamlLines
  import opened BlockStyle
  import opened ParserInversion

  /** The line is read, outside other block scalars, as one that opens a block scalar. */
  predicate OpensAt(lines: seq<string>, k: nat) {
    && k < |lines| && lines[k] != SEPARATOR
    && !InBlock(lines[k], BlockAt(Closed, lines[..k]))
    && OpensBlock(lines[k])
  }

  /** Indented at least two columns deeper than the line that opens the block. */
  predicate DeepLine(lines: seq<string>, k: nat, i: nat)
    requires k < |lines| && i < |lines|
  {
    Indent(lines[i]) >= Indent(lines[k]) + 2
  }

  predicate AllDeep(lines: seq<string>, k: nat, m: nat)
    requires k < m <= |lines|
  {
    forall i :: k < i < m ==> DeepLine(lines, k, i)
  }

  predicate AllBlockText(lines: seq<string>, k: nat, m: nat)
    requires k < m <= |lines|
  {
    forall i :: k < i < m ==> InfoAt(Closed, lines, i).typ == BlockScalar
  }

  lemma BlockAtStep(lines: seq<string>, i: nat)
    requires i < |lines|
    ensures BlockAt(Closed, lines[..i + 1]) == BlockAfter(lines[i], BlockAt(Closed, lines[..i]))
  {
    hide BlockAfter;
    assert lines[..i + 1][..i] == lines[..i];
  }

  /** As long as all lines are deep, the block stays open. */
  lemma {:induction false} DeepKeepsOpen(lines: seq<string>, k: nat, m: nat)
    requires OpensAt(lines, k) && k < m <= |lines| && AllDeep(lines, k, m)
    ensures BlockAt(Closed, lines[..m]) == Open(Indent(lines[k]) + 2)
    decreases m
  {
    hide OpensBlock, BlockAt;
    BlockAtStep(lines, m - 1);
    if m - 1 > k {
      DeepKeepsOpen(lines, k, m - 1);
      assert DeepLine(lines, k, m - 1);
    }
  }

  /** In an open block exactly the deep lines are its text. */
  lemma TextIsDeep(lines: seq<string>, k: nat, i: nat)
    requires k < i < |lines| && BlockAt(Closed, lines[..i]) == Open(Indent(lines[k]) + 2)
    ensures InfoAt(Closed, lines, i).typ == BlockScalar <==> DeepLine(lines, k, i)
  {
    hide BlockAt;
    assert Indent(SEPARATOR) == 0;
    NeverBlockText(lines[i]);
  }

  lemma NeverBlockText(line: string)
    ensures Classify(line).typ != BlockScalar
  {
    hide ColonFrom, IsMappingNode, TrimSpace;
  }

  /** Main theorem: behind a line that opens a block scalar, all lines up to some point are read as its text
      if and only if each of them is indented at least two columns deeper. */
  lemma {:induction false} BlockTextExactly(lines: seq<string>, k: nat, m: nat)
    requires OpensAt(lines, k) && k < m <= |lines|
    ensures AllBlockText(lines, k, m) <==> AllDeep(lines, k, m)
    decreases m
  {
    hide OpensAt, InfoAt, DeepLine;
    if m - 1 > k {
      BlockTextExactly(lines, k, m - 1);
      if AllDeep(lines, k, m - 1) {
        DeepKeepsOpen(lines, k, m - 1);
        TextIsDeep(lines, k, m - 1);
      }
    }
  }

  // ---------------------------------------------------------------- a blank line

  /** A blank line is not deep, so the block ends there and the next line is read as any other. */
  lemma BlankEnds(lines: seq<string>, k: nat, j: nat)
    requires OpensAt(lines, k) && k < j < |lines| && AllDeep(lines, k, j) && lines[j] == ""
    ensures BlockAt(Closed, lines[..j + 1]) == Closed
    ensures j + 1 < |lines| && lines[j + 1] != SEPARATOR ==> InfoAt(Closed, lines, j + 1) == Classify(lines[j + 1])
  {
    DeepKeepsOpen(lines, k, j);
    BlockAtStep(lines, j);
    hide BlockAt, Classify;
  }

  /** The lines a: | or a: >, some text, a blank line, and text that looks like a key line. */
  function BrokenBlock(a: string, mark: char, body: string, y: string, text: string): seq<string> {
    [a + ":" + (" " + [mark]), body, "", "  " + (y + ":" + text)]
  }

  lemma BrokenOpens(a: string, mark: char, body: string, y: string, text: string)
    requires PlainKey(a) && Indent(body) >= 2 && mark in {'|', '>'}
    ensures var lines := BrokenBlock(a, mark, body, y, text);
            && OpensAt(lines, 0) && Indent(lines[0]) == 0 && AllDeep(lines, 0, 2)
            && Classify(lines[0]) == LineInfo(Mapping, a + ":" + (" " + [mark]), 0, |a|, a)
  {
    var lines := BrokenBlock(a, mark, body, y, text);
    hide Classify, OpensBlock, EndsWithHeader, PlainKey;
    KeyLine(0, a, " " + [mark]);
    assert Spaces(0) == "" && "" + (a + ":" + (" " + [mark])) == a + ":" + (" " + [mark]);
    HeaderWritten(" ", mark, "");
    assert " " + [mark] + "" == " " + [mark];
    assert lines[..0] == [];
  }

  lemma NotStructural(line: string, block: Block)
    requires InBlock(line, block) || line == ""
    ensures !InfoIn(line, block).typ.Structural()
  {
  }

  lemma BrokenScan(a: string, mark: char, body: string, y: string, text: string)
    requires PlainKey(a) && PlainKey(y) && Indent(body) >= 2 && mark in {'|', '>'}
    ensures var lines := BrokenBlock(a, mark, body, y, text);
            && DocLength(lines) == 4
            && Scan(lines)[0] == LineInfo(Mapping, a + ":" + (" " + [mark]), 0, |a|, a)
            && !Scan(lines)[1].typ.Structural() && !Scan(lines)[2].typ.Structural()
            && Scan(lines)[3] == LineInfo(Mapping, y + ":" + text, 2, |y|, y)
  {
    var lines := BrokenBlock(a, mark, body, y, text);
    BrokenOpens(a, mark, body, y, text);
    KeyLine(2, y, text);
    assert Spaces(2) == "  ";
    BlankEnds(lines, 0, 2);
    DeepKeepsOpen(lines, 0, 2);
    DeepKeepsOpen(lines, 0, 1);
    NotStructural(lines[1], BlockAt(Closed, lines[..1]));
    NotStructural(lines[2], BlockAt(Closed, lines[..2]));
    BrokenLength(a, mark, body, y, text);
    hide Classify, OpensBlock, PlainKey, BlockAt, InfoIn;
  }

  lemma BrokenLength(a: string, mark: char, body: string, y: string, text: string)
    requires PlainKey(a) && PlainKey(y) && Indent(body) >= 2 && mark in {'|', '>'}
    ensures DocLength(BrokenBlock(a, mark, body, y, text)) == 4
  {
    hide *;
    var lines := BrokenBlock(a, mark, body, y, text);
    KeyLine(0, a, " " + [mark]);
    KeyLine(2, y, text);
    BrokenLines(a, mark, body, y, text);
    DocLengthOfRows(lines, []);
    assert lines + [] == lines;
  }

  lemma BrokenLines(a: string, mark: char, body: string, y: string, text: string)
    requires Indent(body) >= 2
    requires Spaces(0) + (a + ":" + (" " + [mark])) != SEPARATOR && Spaces(2) + (y + ":" + text) != SEPARATOR
    ensures |BrokenBlock(a, mark, body, y, text)| == 4 && SEPARATOR !in BrokenBlock(a, mark, body, y, text)
  {
    assert Spaces(0) == "" && Spaces(2) == "  ";
    assert "" + (a + ":" + (" " + [mark])) == a + ":" + (" " + [mark]);
    assert Indent(SEPARATOR) == 0;
  }

  /** Block text behind a blank line is taken for structure: here for an entry below the block's own key. */
  lemma BlankLineBreaksBlock(a: string, mark: char, body: string, y: string, text: string)
    requires PlainKey(a) && PlainKey(y) && Indent(body) >= 2 && mark in {'|', '>'}
    ensures var lines := BrokenBlock(a, mark, body, y, text);
            && DocLength(lines) == 4
            && Scan(lines)[3].typ == Mapping && PlacedAt([], Scan(lines), 3).path == "$." + a + "." + y
  {
    hide *;
    BrokenScan(a, mark, body, y, text);
    var infos := Scan(BrokenBlock(a, mark, body, y, text));
    TrailStep(infos, 0);
    TrailStep(infos, 1);
    TrailStep(infos, 2);
    TrailStep(infos, 3);
    BrokenPlaces(infos, a, y);
  }

  lemma BrokenPlaces(infos: seq<LineInfo>, a: string, y: string)
    requires |infos| == 4 && PlainKey(a) && PlainKey(y)
    requires infos[0].typ == Mapping && infos[0].indent == 0 && infos[0].key == a
    requires infos[3].typ == Mapping && infos[3].indent == 2 && infos[3].key == y
    requires Trail([], infos[..1]) == Extend(Trail([], infos[..0]), infos[0])
    requires Trail([], infos[..2]) == Extend(Trail([], infos[..1]), infos[1]) && !infos[1].typ.Structural()
    requires Trail([], infos[..3]) == Extend(Trail([], infos[..2]), infos[2]) && !infos[2].typ.Structural()
    ensures Place(Trail([], infos[..3]), infos[3]).path == "$." + a + "." + y
  {
    assert infos[..0] == [] && Trail([], infos[..0]) == [];
    hide Trail, PlainKey, Place;
    PlaceKey([], infos[0], "$", "", 0);
    var p := Place([], infos[0]);
    assert Trail([], infos[..3]) == [p];
    PreviousOfLast([p], 2);
    PlaceKey([p], infos[3], "$." + a, "", 0);
  }
}
