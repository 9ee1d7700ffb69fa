/** The fault-tolerant YAML line parser: cuts a file into documents, classifies every line,
    then gives every line a path by looking back for the nearest structural line. */
module YamlLines {
  import opened Options
  import opened Strings
  import opened GeneralPaths

  /** The combinations of type bits that a line can carry; a "- key:" line has two of them. */
  datatype LineType =
    | Undefined | Empty | Comment | Mapping | List | ListMapping | BlockScalar | DocSeparator
  {
    predicate IsMapping() {
      Mapping? || ListMapping?
    }

    predicate IsList() {
      List? || ListMapping?
    }

    predicate Structural() {
      IsMapping() || IsList()
    }

    /** Lines that the second pass passes over. */
    predicate Passed() {
      DocSeparator? || Comment?
    }
  }

  const SEPARATOR := "---"

  // ---------------------------------------------------------------- classification

  /** A colon's position in a line's value, or -1. */
  type ColonIdx = c: int | c >= -1

  /** What the first pass finds out about one line. */
  datatype LineInfo = LineInfo(typ: LineType, value: string, indent: nat, colonIdx: ColonIdx, key: string) {
    /** Holds of every line that the first pass yields. */
    predicate ColonInValue() {
      && (colonIdx != -1 ==> colonIdx < |value| && value[colonIdx] == ':')
      && (typ.IsMapping() <==> colonIdx != -1)
    }

    predicate HasMapValue() {
      typ.IsMapping() && colonIdx != -1 && colonIdx + 2 < |value|
    }

    function KeyPos(): (int, int) {
      if !typ.IsMapping() && !typ.Undefined? then (0, 0)
      else if colonIdx != -1 then (indent, indent + colonIdx)
      else (indent, indent + |value|)
    }

    function ValuePos(): (int, int) {
      if !HasMapValue() then (0, 0) else (indent + colonIdx + 2, indent + |value|)
    }

    function MapKey(): string
      requires ColonInValue()
    {
      var (start, end) := KeyPos();
      if start - indent < 0 || end - indent < 0 then "" else value[start - indent..end - indent]
    }

    function MapValue(): string {
      var (start, end) := ValuePos();
      if start - indent < 0 || end - indent < 0 then "" else value[start - indent..end - indent]
    }
  }

  /** Where the colon between key and value is, scanning from i with the given quote state. */
  function ColonFrom(s: string, i: nat, started: bool, single: bool, double: bool): (r: int)
    requires i <= |s|
    ensures r == -1 || (i <= r < |s| && s[r] == ':')
    ensures !started && r != -1 ==> r > i
    decreases |s| - i
  {
    if i == |s| then -1
    else if i == 0 && s[i] == '-' then ColonFrom(s, i + 1, started, single, double)
    else if s[i] == '"' && !single then ColonFrom(s, i + 1, true, single, !double)
    else if s[i] == '\'' && !double then ColonFrom(s, i + 1, true, !single, double)
    else if started && IsSpace(s[i]) && !single && !double then -1
    else if !started && !IsSpace(s[i]) then ColonFrom(s, i + 1, true, single, double)
    else if s[i] == ':' && !single && !double then i
    else ColonFrom(s, i + 1, started, single, double)
  }

  function ColonIndex(s: string): (r: int)
    ensures r == -1 || (0 < r < |s| && s[r] == ':')
    ensures r != -1 && s[0] == '-' ==> r > 1
  {
    ColonFrom(s, 0, false, false, false)
  }

  /** A ':' comes before any '#'. */
  predicate IsMappingNode(s: string) {
    s != "" && s[0] != '#' && (s[0] == ':' || IsMappingNode(s[1..]))
  }

  /** The last character that is not white space is '|' or '>'. */
  predicate IsBlockScalar(s: string) {
    var t := TrimRight(s);
    t != "" && (t[|t| - 1] == '|' || t[|t| - 1] == '>')
  }

  function ClassifyIndented(t: string, indent: nat): (info: LineInfo)
    ensures info.ColonInValue()
    ensures info.key != "" ==> info.typ.IsMapping()
  {
    if t == "" then LineInfo(Empty, t, indent, -1, "")
    else if t[0] == '#' then LineInfo(Comment, t, indent, -1, "")
    else if t[0] == '-' then
      var c := ColonIndex(t);
      var shift := if "- " <= t then 2 else 0;
      if c == -1 then LineInfo(List, t[shift..], indent + 2, -1, "")
      else LineInfo(ListMapping, t[shift..], indent + 2, c - shift, TrimSpace(t[1..c]))
    else
      var c := if IsMappingNode(t) then ColonIndex(t) else -1;
      if c == -1 then LineInfo(Undefined, t, indent, -1, "")
      else LineInfo(Mapping, t, indent, c, TrimSpace(t[..c]))
  }

  /** A line outside block scalars that is not a separator. */
  function Classify(line: string): (info: LineInfo)
    ensures info.ColonInValue()
    ensures info.key != "" ==> info.typ.IsMapping()
  {
    ClassifyIndented(line[Indent(line)..], Indent(line))
  }

  predicate OpensBlock(line: string) {
    var t := line[Indent(line)..];
    t != "" && t[0] != '#' && t[0] != '-' && IsMappingNode(t) && IsBlockScalar(t)
  }

  /** The minimal indent of an open block scalar's body. */
  datatype Block = Closed | Open(indent: nat)

  predicate InBlock(line: string, block: Block) {
    block.Open? && Indent(line) >= block.indent
  }

  function BlockAfter(line: string, block: Block): Block {
    if InBlock(line, block) then block
    else if OpensBlock(line) then Open(Indent(line) + 2)
    else Closed
  }

  function InfoIn(line: string, block: Block): (info: LineInfo)
    ensures info.ColonInValue()
    ensures info.key != "" ==> info.typ.IsMapping()
  {
    if line == SEPARATOR then LineInfo(DocSeparator, line, 0, -1, "")
    else if InBlock(line, block) then LineInfo(BlockScalar, line, Indent(line), -1, "")
    else Classify(line)
  }

  /** The block-scalar state after these lines. */
  function BlockAt(start: Block, lines: seq<string>): Block {
    if lines == [] then start
    else BlockAfter(lines[|lines| - 1], BlockAt(start, lines[..|lines| - 1]))
  }

  function InfoAt(start: Block, lines: seq<string>, i: nat): LineInfo
    requires i < |lines|
  {
    InfoIn(lines[i], BlockAt(start, lines[..i]))
  }

  /** How many lines the first document has: up to and including the first separator. */
  function DocLength(lines: seq<string>): (n: nat)
    ensures n <= |lines| && (lines != [] ==> n > 0)
    ensures forall i :: 0 <= i < n - 1 ==> lines[i] != SEPARATOR
    ensures n < |lines| ==> n > 0 && lines[n - 1] == SEPARATOR
  {
    if lines == [] then 0
    else if lines[0] == SEPARATOR then 1
    else 1 + DocLength(lines[1..])
  }

  /** The first pass over the document that starts here. */
  function Scan(lines: seq<string>): (infos: seq<LineInfo>)
    ensures |infos| == DocLength(lines)
  {
    seq(DocLength(lines), i requires 0 <= i < DocLength(lines) => InfoAt(Closed, lines, i))
  }

  // ---------------------------------------------------------------- paths

  datatype Placed = Placed(indent: nat, path: string, listIndex: nat)

  /** The last structural line so far that is not indented deeper. */
  function Previous(history: seq<Placed>, indent: nat): (r: Option<Placed>)
    ensures r.Some? ==> r.value in history && r.value.indent <= indent
  {
    if history == [] then None
    else if history[|history| - 1].indent <= indent then Some(history[|history| - 1])
    else Previous(history[..|history| - 1], indent)
  }

  function DropDot(p: string): string {
    if p != "" && p[|p| - 1] == '.' then p[..|p| - 1] else p
  }

  /** Path and list index of a "-" line, before a trailing dot goes. */
  function ListPath(prev: Option<Placed>, indent: nat, key: string): (string, nat) {
    match prev
    case None => ("$[0]." + key, 0)
    case Some(p) =>
      if p.indent < indent then (p.path + "[0]." + key, 0)
      else
        var bracket := LastIndexOf(p.path, '[');
        if bracket == -1 then (key, 0)
        else (p.path[..bracket] + "[" + Itoa(p.listIndex + 1) + "]." + key, p.listIndex + 1)
  }

  /** Path and list index of any other line, before a trailing dot goes. */
  function KeyPath(prev: Option<Placed>, indent: nat, key: string): (string, nat) {
    match prev
    case None => ("$." + key, 0)
    case Some(p) =>
      if p.indent < indent then (p.path + "." + key, 0)
      else
        var dot := LastIndexOf(p.path, '.');
        if dot == -1 then (key, 0) else (p.path[..dot] + "." + key, p.listIndex)
  }

  /** The second pass on one line, given the structural lines before it. */
  function Place(history: seq<Placed>, info: LineInfo): (r: Placed)
    ensures r.indent == info.indent
  {
    if info.typ.Passed() then Placed(info.indent, info.key, 0)
    else
      var prev := Previous(history, info.indent);
      var (path, listIndex) := if info.typ.IsList() then ListPath(prev, info.indent, info.key)
                               else KeyPath(prev, info.indent, info.key);
      Placed(info.indent, DropDot(path), listIndex)
  }

  /** The structural lines after one more line. */
  function Extend(history: seq<Placed>, info: LineInfo): seq<Placed> {
    if info.typ.Structural() then history + [Place(history, info)] else history
  }

  /** The structural lines after a run of lines. */
  function Trail(history: seq<Placed>, infos: seq<LineInfo>): seq<Placed> {
    if infos == [] then history
    else Extend(Trail(history, infos[..|infos| - 1]), infos[|infos| - 1])
  }

  function PlacedAt(history: seq<Placed>, infos: seq<LineInfo>, i: nat): Placed
    requires i < |infos|
  {
    Place(Trail(history, infos[..i]), infos[i])
  }

  lemma {:induction false} TrailAppend(history: seq<Placed>, a: seq<LineInfo>, b: seq<LineInfo>)
    ensures Trail(history, a + b) == Trail(Trail(history, a), b)
    decreases |b|
  {
    if b == [] {
      assert a + b == a;
    } else {
      TrailAppend(history, a, b[..|b| - 1]);
      assert (a + b)[..|a + b| - 1] == a + b[..|b| - 1];
    }
  }

  lemma TrailStep(infos: seq<LineInfo>, i: nat)
    requires i < |infos|
    ensures PlacedAt([], infos, i) == Place(Trail([], infos[..i]), infos[i])
    ensures Trail([], infos[..i + 1]) == Extend(Trail([], infos[..i]), infos[i])
  {
    assert infos[..i + 1][..i] == infos[..i];
  }

  // ---------------------------------------------------------------- lines and documents

  class Line {
    var path: string
    var generalizedPath: string
    var typ: LineType
    var value: string
    var indent: nat
    var colonIdx: ColonIdx
    var listIndex: nat

    constructor (value: string)
      ensures Info() == LineInfo(Undefined, value, 0, -1, "")
      ensures listIndex == 0 && generalizedPath == ""
    {
      this.value := value;
      path, generalizedPath, typ := "", "", Undefined;
      indent, colonIdx, listIndex := 0, -1, 0;
    }

    /** The state between the two passes, when path still holds the key. */
    function Info(): LineInfo
      reads this
    {
      LineInfo(typ, value, indent, colonIdx, path)
    }

    /** The state after the second pass. */
    function Position(): Placed
      reads this
    {
      Placed(indent, path, listIndex)
    }

    /** Everything the first pass found except the key is still there. */
    predicate SameText(info: LineInfo)
      reads this
    {
      typ == info.typ && value == info.value && indent == info.indent && colonIdx == info.colonIdx
    }
  }

  function Infos(lines: seq<Line>): (infos: seq<LineInfo>)
    reads lines
    ensures |infos| == |lines| && forall i :: 0 <= i < |lines| ==> infos[i] == lines[i].Info()
  {
    if lines == [] then [] else Infos(lines[..|lines| - 1]) + [lines[|lines| - 1].Info()]
  }

  /** The structural lines among these, as the second pass left them. */
  function History(lines: seq<Line>): seq<Placed>
    reads lines
  {
    if lines == [] then []
    else
      var last := lines[|lines| - 1];
      History(lines[..|lines| - 1]) + (if last.typ.Structural() then [last.Position()] else [])
  }

  predicate Distinct<T(==)>(s: seq<T>) {
    forall i, j :: 0 <= i < j < |s| ==> s[i] != s[j]
  }

  method GetIndentLevel(s: string) returns (ctr: nat)
    ensures ctr == Indent(s)
  {
    ctr := 0;
    for i := 0 to |s|
      invariant ctr == i && forall k :: 0 <= k < i ==> IsSpace(s[k])
    {
      if !IsSpace(s[i]) {
        return;
      }
      ctr := ctr + 1;
    }
  }

  method GetColonIndex(s: string) returns (r: int)
    ensures r == ColonIndex(s)
  {
    var keyStarted, inSingleQuotes, inDoubleQuotes := false, false, false;
    for i := 0 to |s|
      invariant ColonFrom(s, i, keyStarted, inSingleQuotes, inDoubleQuotes) == ColonIndex(s)
    {
      var c := s[i];
      if i == 0 && c == '-' {
        continue;
      }
      if c == '"' && !inSingleQuotes {
        inDoubleQuotes := !inDoubleQuotes;
        keyStarted := true;
      } else if c == '\'' && !inDoubleQuotes {
        inSingleQuotes := !inSingleQuotes;
        keyStarted := true;
      } else if keyStarted && IsSpace(c) && !inSingleQuotes && !inDoubleQuotes {
        return -1;
      } else if !keyStarted && !IsSpace(c) {
        keyStarted := true;
      } else if c == ':' && !inSingleQuotes && !inDoubleQuotes {
        return i;
      }
    }
    r := -1;
  }

  /** A line that starts with a dash. */
  method ClassifyDash(parsed: Line, line: string)
    requires line != "" && line[0] == '-' && parsed.Info() == LineInfo(Undefined, line, parsed.indent, -1, "")
    modifies parsed
    ensures parsed.Info() == ClassifyIndented(line, old(parsed.indent))
    ensures parsed.listIndex == old(parsed.listIndex)
  {
    hide ColonIndex, TrimSpace, IsMappingNode;
    parsed.indent := parsed.indent + 2;
    parsed.typ := List;
    parsed.colonIdx := GetColonIndex(line);
    if parsed.colonIdx != -1 {
      parsed.path := TrimSpace(line[1..parsed.colonIdx]);
      parsed.typ := ListMapping;
    }
    if "- " <= line {
      parsed.value := line[2..];
      if parsed.colonIdx != -1 {
        parsed.colonIdx := parsed.colonIdx - 2;
      }
    }
  }

  /** One turn of the first pass on a line outside block scalars. */
  method ClassifyLine(text: string) returns (parsed: Line)
    ensures fresh(parsed) && parsed.Info() == Classify(text) && parsed.listIndex == 0
  {
    hide ColonIndex, TrimSpace, IsMappingNode;
    parsed := new Line(text);
    var indent := GetIndentLevel(text);
    var line := text[indent..];
    parsed.value := line;
    parsed.indent := indent;
    if line == "" {
      parsed.typ := Empty;
    } else if line[0] == '#' {
      parsed.typ := Comment;
    } else if line[0] == '-' {
      hide ClassifyIndented;
      ClassifyDash(parsed, line);
    } else if !IsMappingNode(line) {
      parsed.typ := Undefined;
    } else {
      parsed.colonIdx := GetColonIndex(line);
      if parsed.colonIdx != -1 {
        parsed.path := TrimSpace(line[..parsed.colonIdx]);
        parsed.typ := Mapping;
      }
    }
  }

  /** One turn of the first pass: the line object and the block-scalar state after it. */
  method ParseLine(line: string, blockScalar: bool, blockScalarIndent: nat)
    returns (parsed: Line, inBlock: bool, blockIndent: nat)
    ensures fresh(parsed) && parsed.listIndex == 0
    ensures var block := if blockScalar then Open(blockScalarIndent) else Closed;
            && parsed.Info() == InfoIn(line, block)
            && (line != SEPARATOR ==> BlockAfter(line, block) == if inBlock then Open(blockIndent) else Closed)
  {
    inBlock, blockIndent := blockScalar, blockScalarIndent;
    if line == SEPARATOR {
      parsed := new Line(line);
      parsed.typ := DocSeparator;
      return;
    }
    var indent := GetIndentLevel(line);
    if blockScalar {
      if indent >= blockScalarIndent {
        parsed := new Line(line);
        parsed.typ := BlockScalar;
        parsed.indent := indent;
        return;
      }
      inBlock := false;
    }
    parsed := ClassifyLine(line);
    if OpensBlock(line) {
      inBlock, blockIndent := true, indent + 2;
    }
  }

  /** The first pass: one new line object per line, up to and including the first separator. */
  method ParseDocumentLines(lines: seq<string>) returns (parsed: seq<Line>)
    ensures fresh(parsed) && Distinct(parsed) && |parsed| == DocLength(lines)
    ensures forall k :: 0 <= k < |parsed| ==>
      parsed[k].listIndex == 0 && parsed[k].Info() == InfoAt(Closed, lines, k)
  {
    hide InfoIn, BlockAfter;
    parsed := [];
    var blockScalar, blockScalarIndent := false, 0;
    for i := 0 to |lines|
      invariant |parsed| == i && i <= DocLength(lines) && Distinct(parsed)
      invariant i > 0 ==> lines[i - 1] != SEPARATOR
      invariant forall k :: 0 <= k < |parsed| ==>
        fresh(parsed[k]) && parsed[k].listIndex == 0 && parsed[k].Info() == InfoAt(Closed, lines, k)
      invariant BlockAt(Closed, lines[..i]) == if blockScalar then Open(blockScalarIndent) else Closed
    {
      assert lines[..i + 1][..i] == lines[..i];
      var parsedLine;
      parsedLine, blockScalar, blockScalarIndent := ParseLine(lines[i], blockScalar, blockScalarIndent);
      parsed := parsed + [parsedLine];
      if lines[i] == SEPARATOR {
        break;
      }
    }
  }

  /** The nearest structural line above that is a parent or a sibling. */
  method FindPreviousLine(lines: seq<Line>, offset: nat) returns (prev: Line?)
    requires offset < |lines|
    ensures prev == null ==> Previous(History(lines[..offset]), lines[offset].indent) == None
    ensures prev != null ==> prev in lines[..offset] &&
                             Previous(History(lines[..offset]), lines[offset].indent) == Some(prev.Position())
  {
    var i: int := offset - 1;
    while i >= 0
      invariant -1 <= i < offset
      invariant Previous(History(lines[..offset]), lines[offset].indent) ==
                Previous(History(lines[..i + 1]), lines[offset].indent)
    {
      assert lines[..i + 1][..i] == lines[..i];
      ghost var h := History(lines[..i]);
      assert History(lines[..i + 1]) == h + (if lines[i].typ.Structural() then [lines[i].Position()] else []);
      assert (h + [lines[i].Position()])[..|h|] == h && h + [] == h;
      if lines[i].typ.IsMapping() || lines[i].typ.IsList() {
        if lines[i].indent < lines[offset].indent {
          return lines[i];
        }
        if lines[i].indent == lines[offset].indent {
          return lines[i];
        }
      }
      i := i - 1;
    }
    prev := null;
  }

  /** Where a line object stands for the history entry found by the look back. */
  ghost function Found(line: Line?): Option<Placed>
    reads if line == null then {} else {line}
  {
    if line == null then None else Some(line.Position())
  }

  method PlaceListLine(line: Line, prevLine: Line?)
    requires prevLine != line && line.listIndex == 0
    modifies line
    ensures line.SameText(old(line.Info())) && line.generalizedPath == old(line.generalizedPath)
    ensures (line.path, line.listIndex) == ListPath(old(Found(prevLine)), line.indent, old(line.path))
  {
    if prevLine == null {
      line.path := "$[0]." + line.path;
    } else if prevLine.indent < line.indent {
      line.path := prevLine.path + "[0]." + line.path;
    } else {
      var bracketIdx := LastIndexOf(prevLine.path, '[');
      if bracketIdx != -1 {
        line.listIndex := prevLine.listIndex + 1;
        line.path := prevLine.path[..bracketIdx] + "[" + Itoa(line.listIndex) + "]." + line.path;
      }
    }
  }

  method PlaceKeyLine(line: Line, prevLine: Line?)
    requires prevLine != line && line.listIndex == 0
    modifies line
    ensures line.SameText(old(line.Info())) && line.generalizedPath == old(line.generalizedPath)
    ensures (line.path, line.listIndex) == KeyPath(old(Found(prevLine)), line.indent, old(line.path))
  {
    if prevLine == null {
      line.path := "$." + line.path;
    } else if prevLine.indent < line.indent {
      line.path := prevLine.path + "." + line.path;
    } else {
      var dotIndex := LastIndexOf(prevLine.path, '.');
      if dotIndex != -1 {
        line.listIndex := prevLine.listIndex;
        line.path := prevLine.path[..dotIndex] + "." + line.path;
      }
    }
  }

  /** One turn of the second pass. */
  method PlaceLine(lines: seq<Line>, i: nat)
    requires i < |lines| && lines[i] !in lines[..i] && lines[i].listIndex == 0
    modifies lines[i]
    ensures lines[i].SameText(old(lines[i].Info())) && lines[i].generalizedPath == old(lines[i].generalizedPath)
    ensures lines[i].Position() == Place(old(History(lines[..i])), old(lines[i].Info()))
    ensures History(lines[..i + 1]) == Extend(old(History(lines[..i])), old(lines[i].Info()))
  {
    hide ListPath, KeyPath, Previous;
    assert lines[..i + 1][..i] == lines[..i];
    if lines[i].typ.DocSeparator? || lines[i].typ.Comment? {
      return;
    }
    var prevLine := FindPreviousLine(lines, i);
    var line := lines[i];
    if line.typ.IsList() {
      PlaceListLine(line, prevLine);
    } else {
      PlaceKeyLine(line, prevLine);
    }
    if |line.path| > 0 && line.path[|line.path| - 1] == '.' {
      line.path := line.path[..|line.path| - 1];
    }
  }

  /** The second pass has rewritten the first i of these lines and no others. */
  ghost predicate PlacedUpTo(lines: seq<Line>, infos: seq<LineInfo>, i: nat)
    reads lines
  {
    && i <= |lines| == |infos|
    && (forall k :: 0 <= k < |lines| ==> lines[k].SameText(infos[k]))
    && (forall k :: i <= k < |lines| ==> lines[k].path == infos[k].key && lines[k].listIndex == 0)
    && (forall k :: 0 <= k < i ==> lines[k].Position() == PlacedAt([], infos, k))
    && History(lines[..i]) == Trail([], infos[..i])
  }

  method PlaceNext(lines: seq<Line>, ghost infos: seq<LineInfo>, i: nat)
    requires i < |lines| && Distinct(lines) && PlacedUpTo(lines, infos, i)
    modifies lines[i]
    ensures PlacedUpTo(lines, infos, i + 1)
  {
    hide PlacedAt, Place, Extend, Trail, History;
    var line := lines[i];
    assert line.Info() == infos[i] && line !in lines[..i];
    assert forall k :: 0 <= k < |lines| && k != i ==> lines[k] != line;
    PlaceLine(lines, i);
    TrailStep(infos, i);
  }

  method PlacePaths(lines: seq<Line>)
    requires Distinct(lines) && forall k :: 0 <= k < |lines| ==> lines[k].listIndex == 0
    modifies lines
    ensures forall i :: 0 <= i < |lines| ==> lines[i].SameText(old(Infos(lines))[i])
    ensures forall i :: 0 <= i < |lines| ==> lines[i].Position() == PlacedAt([], old(Infos(lines)), i)
  {
    ghost var infos := Infos(lines);
    assert PlacedUpTo(lines, infos, 0);
    hide History, Trail, PlacedAt, Infos, Distinct;
    for i := 0 to |lines|
      invariant PlacedUpTo(lines, infos, i)
    {
      hide PlacedUpTo;
      PlaceNext(lines, infos, i);
    }
  }

  method GeneralizePaths(lines: seq<Line>)
    requires Distinct(lines)
    modifies lines
    ensures forall i :: 0 <= i < |lines| ==>
      lines[i].SameText(old(Infos(lines))[i]) && lines[i].Position() == old(lines[i].Position())
    ensures forall i :: 0 <= i < |lines| ==> lines[i].generalizedPath == Generalize(old(lines[i].path))
  {
    hide Generalize;
    for i := 0 to |lines|
      invariant forall k :: 0 <= k < |lines| ==> lines[k].Info() == old(lines[k].Info()) && lines[k].listIndex == old(lines[k].listIndex)
      invariant forall k :: 0 <= k < i ==> lines[k].generalizedPath == Generalize(old(lines[k].path))
    {
      lines[i].generalizedPath := GeneralizePath(lines[i].path);
    }
  }

  /** The second pass, in place over all lines. */
  method PostProcessPaths(lines: seq<Line>)
    requires Distinct(lines) && forall k :: 0 <= k < |lines| ==> lines[k].listIndex == 0
    modifies lines
    ensures forall i :: 0 <= i < |lines| ==> lines[i].SameText(old(Infos(lines))[i])
    ensures forall i :: 0 <= i < |lines| ==> lines[i].Position() == PlacedAt([], old(Infos(lines)), i)
    ensures forall i :: 0 <= i < |lines| ==> lines[i].generalizedPath == Generalize(lines[i].path)
  {
    PlacePaths(lines);
    GeneralizePaths(lines);
  }
}
