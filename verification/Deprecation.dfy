/** Warnings about deprecated properties: exactly one per deprecated path and line, and each selects
    the key's own text in the file. */
module Deprecation {
  import opened Strings
  import opened YamlLines
  import opened Documents
  import opened ObjectNodes

  datatype Position = Position(line: int, character: int)

  datatype Range = Range(start: Position, end: Position)

  /** From lines counted from 1 to lines counted from 0. */
  function NewRange(sl: int, sc: int, el: int, ec: int): Range {
    Range(Position(if sl != 0 then sl - 1 else sl, sc), Position(if el != 0 then el - 1 else el, ec))
  }

  function NewLineRange(l: int, sc: int, ec: int): Range {
    NewRange(l, sc, l, ec)
  }

  datatype Severity = Error | Warning

  datatype Diagnostic = Diagnostic(range: Range, severity: Severity, message: string)

  // ---------------------------------------------------------------- the warnings

  /** Path number p is deprecated and line number l has it. */
  datatype Hit = Hit(path: nat, line: nat)

  predicate IsHit(paths: seq<string>, lines: seq<Line>, h: Hit)
    reads lines
  {
    && h.path < |paths| && h.line < |lines|
    && lines[h.line].typ.IsMapping()
    && lines[h.line].generalizedPath == paths[h.path]
  }

  function LineHits(paths: seq<string>, lines: seq<Line>, p: nat, l: nat): seq<Hit>
    requires l <= |lines|
    reads lines
  {
    if l == 0 then []
    else LineHits(paths, lines, p, l - 1) + (if IsHit(paths, lines, Hit(p, l - 1)) then [Hit(p, l - 1)] else [])
  }

  /** The hits of the first p paths. */
  function Hits(paths: seq<string>, lines: seq<Line>, p: nat): seq<Hit>
    reads lines
  {
    if p == 0 then [] else Hits(paths, lines, p - 1) + LineHits(paths, lines, p - 1, |lines|)
  }

  function WarningAt(offset: nat, i: nat, line: Line): Diagnostic
    reads line
  {
    var (start, end) := line.Info().KeyPos();
    Diagnostic(NewLineRange(offset + i + 1, start, end), Warning, "property is deprecated")
  }

  function WarningsOf(offset: nat, lines: seq<Line>, hits: seq<Hit>): (ws: seq<Diagnostic>)
    requires forall k :: 0 <= k < |hits| ==> hits[k].line < |lines|
    reads lines
    ensures |ws| == |hits|
    ensures forall k :: 0 <= k < |hits| ==> ws[k] == WarningAt(offset, hits[k].line, lines[hits[k].line])
  {
    if hits == [] then []
    else
      var h := hits[|hits| - 1];
      WarningsOf(offset, lines, hits[..|hits| - 1]) + [WarningAt(offset, h.line, lines[h.line])]
  }

  predicate Before(a: Hit, b: Hit) {
    a.path < b.path || (a.path == b.path && a.line < b.line)
  }

  lemma {:induction false} LineHitsExact(paths: seq<string>, lines: seq<Line>, p: nat, l: nat)
    requires l <= |lines|
    ensures var hs := LineHits(paths, lines, p, l);
            && (forall h :: h in hs <==> IsHit(paths, lines, h) && h.path == p && h.line < l)
            && (forall i, j :: 0 <= i < j < |hs| ==> Before(hs[i], hs[j]))
  {
    hide IsHit;
    if l > 0 {
      LineHitsExact(paths, lines, p, l - 1);
    }
  }

  lemma HitParts(paths: seq<string>, lines: seq<Line>)
    ensures forall h :: IsHit(paths, lines, h) ==> h.line < |lines|
  {
  }

  /** The hits are all pairs of a path and a line that has it, each once, in order. */
  lemma {:induction false} HitsExact(paths: seq<string>, lines: seq<Line>, p: nat)
    ensures var hs := Hits(paths, lines, p);
            && (forall h :: h in hs <==> IsHit(paths, lines, h) && h.path < p)
            && (forall i, j :: 0 <= i < j < |hs| ==> Before(hs[i], hs[j]))
  {
    hide IsHit, LineHits;
    if p > 0 {
      HitsExact(paths, lines, p - 1);
      LineHitsExact(paths, lines, p - 1, |lines|);
      HitParts(paths, lines);
      hide Hits;
      HitsAre(paths, lines, p);
      var a, b := Hits(paths, lines, p - 1), LineHits(paths, lines, p - 1, |lines|);
      forall i, j | 0 <= i < j < |a + b| ensures Before((a + b)[i], (a + b)[j]) {
        if i < |a| <= j {
          assert a[i] in a && b[j - |a|] in b;
        }
      }
    }
  }

  lemma HitsAre(paths: seq<string>, lines: seq<Line>, p: nat)
    requires p > 0
    ensures Hits(paths, lines, p) == Hits(paths, lines, p - 1) + LineHits(paths, lines, p - 1, |lines|)
  {
    hide LineHits;
  }

  /** These are the warnings for these hits. */
  ghost predicate Warned(offset: nat, lines: seq<Line>, hits: seq<Hit>, diagnostics: seq<Diagnostic>)
    reads lines
  {
    && (forall k :: 0 <= k < |hits| ==> hits[k].line < |lines|)
    && diagnostics == WarningsOf(offset, lines, hits)
  }

  lemma WarnedMore(offset: nat, lines: seq<Line>, hits: seq<Hit>, diagnostics: seq<Diagnostic>, h: Hit)
    requires Warned(offset, lines, hits, diagnostics) && h.line < |lines|
    ensures Warned(offset, lines, hits + [h], diagnostics + [WarningAt(offset, h.line, lines[h.line])])
  {
    hide WarningAt;
    assert (hits + [h])[..|hits|] == hits;
  }

  /** The inner loop: all lines for one path. */
  method CheckPath(node: SimpleObjectNode, paths: seq<string>, p: nat, before: seq<Diagnostic>, ghost done: seq<Hit>)
    returns (diagnostics: seq<Diagnostic>)
    requires p < |paths| && Warned(node.doc.offset, node.doc.lines, done, before)
    ensures Warned(node.doc.offset, node.doc.lines, done + LineHits(paths, node.doc.lines, p, |node.doc.lines|), diagnostics)
  {
    hide Warned;
    var lines, offset := node.doc.lines, node.doc.offset;
    diagnostics := before;
    ghost var hits := done;
    assert done + [] == done;
    for i := 0 to |lines|
      invariant hits == done + LineHits(paths, lines, p, i)
      invariant Warned(offset, lines, hits, diagnostics)
    {
      var line := lines[i];
      if !line.typ.IsMapping() || line.generalizedPath != paths[p] {
        assert LineHits(paths, lines, p, i) + [] == LineHits(paths, lines, p, i);
        continue;
      }
      var (start, end) := line.Info().KeyPos();
      WarnedMore(offset, lines, hits, diagnostics, Hit(p, i));
      assert done + (LineHits(paths, lines, p, i) + [Hit(p, i)]) == hits + [Hit(p, i)];
      hits := hits + [Hit(p, i)];
      diagnostics := diagnostics + [Diagnostic(NewLineRange(offset + i + 1, start, end), Warning, "property is deprecated")];
    }
  }

  /** One warning per deprecated path and mapping line that has it, path by path. */
  method CheckDeprecated(node: SimpleObjectNode, paths: seq<string>) returns (diagnostics: seq<Diagnostic>)
    ensures var hits := Hits(paths, node.doc.lines, |paths|);
            && (forall k :: 0 <= k < |hits| ==> hits[k].line < |node.doc.lines|)
            && diagnostics == WarningsOf(node.doc.offset, node.doc.lines, hits)
  {
    hide LineHits;
    diagnostics := [];
    for p := 0 to |paths|
      invariant Warned(node.doc.offset, node.doc.lines, Hits(paths, node.doc.lines, p), diagnostics)
    {
      hide Warned;
      diagnostics := CheckPath(node, paths, p, diagnostics, Hits(paths, node.doc.lines, p));
    }
  }

  // ---------------------------------------------------------------- where the key stands

  /** The line is a plain "key:" line or a "- key:" line with a blank after the dash. */
  predicate PlainOrDash(raw: string) {
    var t := raw[Indent(raw)..];
    Classify(raw).typ.Mapping? || (Classify(raw).typ.ListMapping? && "- " <= t)
  }

  /** The range covers text of the raw line whose trim is the key, and a colon follows. */
  predicate Selects(raw: string, start: int, end: int, key: string) {
    && 0 <= start <= end < |raw|
    && raw[end] == ':'
    && TrimSpace(raw[start..end]) == key
  }

  /** The line's value is the rest of the raw line, and the key is its trimmed front. */
  lemma ValueStands(raw: string)
    requires PlainOrDash(raw)
    ensures var info := Classify(raw);
            && info.typ.IsMapping() && info.ColonInValue()
            && info.indent <= |raw| && raw[info.indent..] == info.value
            && TrimSpace(info.value[..info.colonIdx]) == info.key
  {
    hide TrimSpace, IsMappingNode, ColonFrom;
    var n := Indent(raw);
    var t := raw[n..];
    var c := ColonIndex(t);
    if Classify(raw).typ.ListMapping? {
      assert t[1..c] == " " + t[2..c] && t[2..][..c - 2] == t[2..c];
      TrimBlank(t[2..c]);
      assert raw[n + 2..] == t[2..];
    }
  }

  lemma PositionsOf(info: LineInfo)
    requires info.typ.IsMapping() && info.ColonInValue()
    ensures info.KeyPos() == (info.indent, info.indent + info.colonIdx)
    ensures info.HasMapValue() <==> info.colonIdx + 2 < |info.value|
    ensures info.HasMapValue() ==> info.ValuePos() == (info.indent + info.colonIdx + 2, info.indent + |info.value|)
    ensures info.HasMapValue() ==> info.MapValue() == info.value[info.colonIdx + 2..]
  {
    if info.HasMapValue() {
      assert info.value[info.colonIdx + 2..|info.value|] == info.value[info.colonIdx + 2..];
    }
  }

  lemma KeySplits(raw: string, n: nat, c: nat)
    requires n + c < |raw| && raw[n..][c] == ':'
    ensures raw[n + c] == ':' && raw[n..n + c] == raw[n..][..c]
    ensures n + c + 2 <= |raw| ==>
      && raw == raw[..n] + raw[n..n + c] + ":" + [raw[n + c + 1]] + raw[n..][c + 2..]
      && raw[n..][c + 2..] == raw[n + c + 2..]
  {
  }

  /** Position arithmetic on one line: the key's position selects the key; text before it, key, colon,
      one character and value make up the raw line. */
  lemma KeyPosSelects(raw: string)
    requires PlainOrDash(raw)
    ensures var info := Classify(raw);
            var (start, end) := info.KeyPos();
            && Selects(raw, start, end, info.key)
            && (info.HasMapValue() ==>
                  && end + 2 < |raw|
                  && raw == raw[..start] + raw[start..end] + ":" + [raw[end + 1]] + info.MapValue()
                  && (end + 2, |raw|) == info.ValuePos())
  {
    hide PlainOrDash, Classify, TrimSpace;
    ValueStands(raw);
    var info := Classify(raw);
    PositionsOf(info);
    KeySplits(raw, info.indent, info.colonIdx);
    hide *;
    SelectsIs(raw, info.indent, info.indent + info.colonIdx, info.key);
  }

  /** The key that the line reports is its key up to white space, whatever the state of the parser. */
  lemma MapKeyIsKey(raw: string, block: Block)
    requires raw != SEPARATOR && !InBlock(raw, block) && PlainOrDash(raw)
    ensures TrimSpace(InfoIn(raw, block).MapKey()) == InfoIn(raw, block).key
  {
    hide PlainOrDash, Classify, TrimSpace;
    ValueStands(raw);
    PositionsOf(Classify(raw));
  }

  lemma SelectsIs(raw: string, start: int, end: int, key: string)
    ensures Selects(raw, start, end, key) <==>
            0 <= start <= end < |raw| && raw[end] == ':' && TrimSpace(raw[start..end]) == key
  {
  }

  /** On a dash line without a blank the reported position is two characters too far right. */
  lemma DashWithoutBlank(raw: string)
    requires Classify(raw).typ.ListMapping? && !PlainOrDash(raw)
    ensures var (start, end) := Classify(raw).KeyPos();
            && start == Indent(raw) + 2
            && start < end && raw[end - 2] == ':'
            && Classify(raw).key == TrimSpace(raw[start - 1..end - 2])
  {
    hide *;
    DashParts(raw);
    var n := Indent(raw);
    var c := ColonIndex(raw[n..]);
    PositionsOf(Classify(raw));
    assert raw[n..][1..c] == raw[n + 1..n + c];
  }

  lemma DashParts(raw: string)
    requires Classify(raw).typ.ListMapping? && !PlainOrDash(raw)
    ensures var info, n := Classify(raw), Indent(raw);
            var c := ColonIndex(raw[n..]);
            && info.typ.IsMapping() && info.ColonInValue()
            && info.indent == n + 2 && info.colonIdx == c > 1
            && n + c < |raw| && raw[n..][c] == ':'
            && info.key == TrimSpace(raw[n..][1..c])
  {
    hide ClassifyIndented, TrimSpace, ColonIndex, IsMappingNode;
    var t := raw[Indent(raw)..];
    DashClassified(t, Indent(raw));
  }

  lemma DashClassified(t: string, n: nat)
    requires ClassifyIndented(t, n).typ.ListMapping? && !("- " <= t)
    ensures t != "" && t[0] == '-' && ColonIndex(t) > 1
    ensures ClassifyIndented(t, n) == LineInfo(ListMapping, t, n + 2, ColonIndex(t), TrimSpace(t[1..ColonIndex(t)]))
  {
    hide ColonIndex, TrimSpace, IsMappingNode;
    assert t[0..] == t;
  }

  /** Main theorem: wherever the document stands in the file, a deprecation warning for one of its lines
      selects that line's key in the file's text. */
  lemma WarningSelectsKey(pieces: seq<Document>, raws: seq<string>, d: nat, i: nat)
    requires Tiles(pieces, 0, |raws|) && ReadLines(AllLines(pieces), raws)
    requires d < |pieces| && i < |pieces[d].lines| && pieces[d].lines[i].typ.IsMapping()
    ensures pieces[d].offset + i < |raws|
    ensures var number := pieces[d].offset + i;
            var range := WarningAt(pieces[d].offset, i, pieces[d].lines[i]).range;
            && range.start.line == range.end.line == number
            && WarningAt(pieces[d].offset, i, pieces[d].lines[i]).severity == Warning
            && (PlainOrDash(raws[number]) ==>
                  Selects(raws[number], range.start.character, range.end.character, Classify(raws[number]).key))
  {
    hide Tiles, AllLines, Classify, Selects, PlainOrDash;
    AllLinesAt(pieces, 0, |raws|, d, i);
    var number := pieces[d].offset + i;
    var line := pieces[d].lines[i];
    assert AllLines(pieces)[number] == line;
    assert ReadFrom(AllLines(pieces)[number], raws[number]);
    if PlainOrDash(raws[number]) {
      KeyPosSelects(raws[number]);
    }
  }
}
