/** Which colon of a line parts key and value, told without the scan's states, and what that means for
    names in quotes. */
module KeyColons {
  import opened Strings
  import opened YamlLines
  import opened BlockStyle

  // ---------------------------------------------------------------- the colon

  /** The quotes that are open behind a text; a quote of one kind inside the other is text. */
  datatype Quotes = NoQuote | InSingle | InDouble

  function QuotesAfter(s: string): Quotes {
    if s == "" then NoQuote
    else NextQuotes(QuotesAfter(s[..|s| - 1]), s[|s| - 1])
  }

  function NextQuotes(q: Quotes, c: char): Quotes {
    match q
    case NoQuote => if c == '"' then InDouble else if c == '\'' then InSingle else NoQuote
    case InSingle => if c == '\'' then NoQuote else InSingle
    case InDouble => if c == '"' then NoQuote else InDouble
  }

  /** Something that is no blank stands before position i; a dash at the start does not count. */
  predicate Started(s: string, i: nat)
    requires i <= |s|
  {
    exists k :: 0 <= k < i && !IsSpace(s[k]) && !(k == 0 && s[k] == '-')
  }

  /** A blank that ends an unquoted name. */
  predicate BlankBehind(s: string, i: nat)
    requires i < |s|
  {
    IsSpace(s[i]) && QuotesAfter(s[..i]).NoQuote? && Started(s, i)
  }

  /** A colon outside quotes, behind something. */
  predicate ColonBehind(s: string, i: nat)
    requires i < |s|
  {
    s[i] == ':' && QuotesAfter(s[..i]).NoQuote? && Started(s, i)
  }

  /** The first such colon, with no such blank before it. */
  predicate IsKeyColon(s: string, i: nat) {
    && i < |s| && ColonBehind(s, i)
    && forall j :: 0 <= j < i ==> !ColonBehind(s, j) && !BlankBehind(s, j)
  }

  lemma QuotesStep(s: string, i: nat)
    requires i < |s|
    ensures QuotesAfter(s[..i + 1]) == NextQuotes(QuotesAfter(s[..i]), s[i])
    ensures Started(s, i + 1) <==> Started(s, i) || (!IsSpace(s[i]) && !(i == 0 && s[i] == '-'))
  {
    assert s[..i + 1][..i] == s[..i];
  }

  lemma ScanStep(s: string, i: nat, started: bool, single: bool, double: bool)
    requires i < |s|
    ensures ColonFrom(s, i, started, single, double) ==
            if i == 0 && s[i] == '-' then ColonFrom(s, i + 1, started, single, double)
            else if s[i] == '"' && !single then ColonFrom(s, i + 1, true, single, !double)
            else if s[i] == '\'' && !double then ColonFrom(s, i + 1, true, !single, double)
            else if started && IsSpace(s[i]) && !single && !double then -1
            else if !started && !IsSpace(s[i]) then ColonFrom(s, i + 1, true, single, double)
            else if s[i] == ':' && !single && !double then i
            else ColonFrom(s, i + 1, started, single, double)
  {
  }

  lemma ScanEnd(s: string, started: bool, single: bool, double: bool)
    ensures ColonFrom(s, |s|, started, single, double) == -1
  {
  }

  lemma NotSpaces()
    ensures !IsSpace('"') && !IsSpace('\'') && !IsSpace(':') && !IsSpace('-')
  {
  }

  /** The scan from i on finds the next colon, unless a blank comes first. */
  lemma {:induction false} ScanFinds(s: string, i: nat)
    requires i <= |s| && (QuotesAfter(s[..i]) != NoQuote ==> Started(s, i))
    ensures var r := ColonFrom(s, i, Started(s, i), QuotesAfter(s[..i]).InSingle?, QuotesAfter(s[..i]).InDouble?);
            && (r != -1 ==> r < |s| && ColonBehind(s, r) && forall j :: i <= j < r ==> !ColonBehind(s, j) && !BlankBehind(s, j))
            && (r == -1 ==> forall j :: i <= j < |s| && ColonBehind(s, j) ==> exists k :: i <= k < j && BlankBehind(s, k))
    decreases |s| - i
  {
    hide ColonFrom, QuotesAfter, Started, IsSpace;
    var q, started := QuotesAfter(s[..i]), Started(s, i);
    NotSpaces();
    if i == |s| {
      ScanEnd(s, started, q.InSingle?, q.InDouble?);
    } else {
      ScanStep(s, i, started, q.InSingle?, q.InDouble?);
      QuotesStep(s, i);
      if !BlankBehind(s, i) && !ColonBehind(s, i) {
        ScanFinds(s, i + 1);
      }
    }
  }

  /** Main theorem: the key scan finds the first colon that stands outside quotes and behind something, if
      no blank outside quotes ends the name before it; and otherwise it finds none. */
  lemma ColonExactly(s: string)
    ensures ColonIndex(s) != -1 ==> IsKeyColon(s, ColonIndex(s))
    ensures ColonIndex(s) == -1 ==> forall i: nat :: !IsKeyColon(s, i)
  {
    assert s[..0] == "";
    ScanFinds(s, 0);
    hide ColonFrom, QuotesAfter, IsSpace;
  }

  // ---------------------------------------------------------------- names in quotes

  predicate IsQuote(q: char) {
    q == '"' || q == '\''
  }

  function InQuotes(q: char, name: string): string {
    [q] + name + [q]
  }

  /** Inside quotes the scan passes over everything up to the quote that ends them. */
  lemma {:induction false} ScanInside(s: string, q: char, i: nat, n: nat)
    requires IsQuote(q) && 0 < i <= n < |s| && s[n] == q && q !in s[i..n]
    ensures ColonFrom(s, i, true, q == '\'', q == '"') == ColonFrom(s, n + 1, true, false, false)
    decreases n - i
  {
    hide ColonFrom;
    ScanStep(s, i, true, q == '\'', q == '"');
    if i < n {
      assert s[i..n][0] == s[i] && s[i..n][1..] == s[i + 1..n];
      ScanInside(s, q, i + 1, n);
    }
  }

  lemma SliceOfSlice(s: string, a: nat, b: nat, c: nat, d: nat)
    requires a <= b <= |s| && c <= d <= b - a
    ensures s[a..b][c..d] == s[a + c..a + d]
  {
    assert forall k :: 0 <= k < d - c ==> s[a..b][c..d][k] == s[a + c..a + d][k];
  }

  lemma ScanQuoted(s: string, q: char, i: nat, name: string, started: bool)
    requires IsQuote(q) && q !in name && i + |name| + 2 <= |s| && s[i..i + |name| + 2] == InQuotes(q, name)
    ensures ColonFrom(s, i, started, false, false) == ColonFrom(s, i + |name| + 2, true, false, false)
  {
    hide ColonFrom;
    var t := s[i..i + |name| + 2];
    assert t[0] == q && t[|name| + 1] == q && t[1..|name| + 1] == name;
    assert s[i] == t[0] && s[i + |name| + 1] == t[|name| + 1];
    SliceOfSlice(s, i, i + |name| + 2, 1, |name| + 1);
    ScanStep(s, i, started, false, false);
    ScanInside(s, q, i + 1, i + |name| + 1);
  }

  /** Behind the name comes nothing, or a blank. */
  predicate EndsName(rest: string) {
    rest == "" || IsSpace(rest[0])
  }

  /** The colon behind a name in quotes, with or without a dash in front. */
  lemma QuotedColon(dash: bool, q: char, name: string, rest: string)
    requires IsQuote(q) && q !in name
    ensures var s := (if dash then "- " else "") + InQuotes(q, name) + rest;
            var n := (if dash then 2 else 0) + |name| + 2;
            && (EndsName(rest) ==> ColonIndex(s) == -1)
            && (rest != "" && rest[0] == ':' ==> ColonIndex(s) == n)
  {
    NotSpaces();
    hide ColonFrom, IsSpace;
    var d := if dash then 2 else 0;
    var s := (if dash then "- " else "") + InQuotes(q, name) + rest;
    var n := d + |name| + 2;
    assert s[d..n] == InQuotes(q, name);
    ScanQuoted(s, q, d, name, false);
    if dash {
      assert s[0] == '-' && s[1] == ' ';
      ScanStep(s, 0, false, false, false);
      ScanStep(s, 1, false, false, false);
      BlankIsSpace();
    }
    ColonIndexIs(s);
    if rest == "" {
      ScanEnd(s, true, false, false);
    } else {
      assert s[n] == rest[0];
      ScanStep(s, n, true, false, false);
    }
  }

  lemma BlankIsSpace()
    ensures IsSpace(' ')
  {
  }

  lemma ColonIndexIs(s: string)
    ensures ColonIndex(s) == ColonFrom(s, 0, false, false, false)
  {
    hide ColonFrom;
  }

  lemma QuotedTrim(q: char, name: string)
    requires IsQuote(q)
    ensures TrimSpace(InQuotes(q, name)) == InQuotes(q, name)
    ensures TrimSpace(" " + InQuotes(q, name)) == InQuotes(q, name)
  {
    TrimSpaceIdentity(InQuotes(q, name));
    TrimBlank(InQuotes(q, name));
  }

  lemma QuotedNode(q: char, name: string, text: string)
    requires IsQuote(q) && '#' !in name
    ensures IsMappingNode(InQuotes(q, name) + ":" + text)
  {
    var t, n := InQuotes(q, name) + ":" + text, |name| + 2;
    MappingNodeExactly(t);
    assert t[n] == ':' && t[..n] == InQuotes(q, name);
  }

  /** A name in quotes is read as one key, whatever colons and blanks it has; a '#' in it would hide the
      colon. */
  lemma QuotedKeyLine(indent: nat, q: char, name: string, text: string)
    requires IsQuote(q) && q !in name && '#' !in name
    ensures var t := InQuotes(q, name) + ":" + text;
            && Indent(Spaces(indent) + t) == indent
            && Classify(Spaces(indent) + t) == LineInfo(Mapping, t, indent, |name| + 2, InQuotes(q, name))
  {
    hide ColonIndex, IsMappingNode, TrimSpace;
    var t := InQuotes(q, name) + ":" + text;
    assert InQuotes(q, name) + (":" + text) == t && "" + InQuotes(q, name) + (":" + text) == t;
    QuotedColon(false, q, name, ":" + text);
    QuotedNode(q, name, text);
    QuotedTrim(q, name);
    IndentSpaces(indent, t);
    assert t[0] == q && t[..|name| + 2] == InQuotes(q, name);
  }

  /** The same behind a dash. */
  lemma QuotedDashLine(column: nat, q: char, name: string, text: string)
    requires IsQuote(q) && q !in name
    ensures var t := InQuotes(q, name) + ":" + text;
            && Indent(Spaces(column) + ("- " + t)) == column
            && Classify(Spaces(column) + ("- " + t)) == LineInfo(ListMapping, t, column + 2, |name| + 2, InQuotes(q, name))
  {
    hide ColonIndex, IsMappingNode, TrimSpace;
    var t := InQuotes(q, name) + ":" + text;
    assert "- " + InQuotes(q, name) + (":" + text) == "- " + t;
    QuotedColon(true, q, name, ":" + text);
    QuotedTrim(q, name);
    IndentSpaces(column, "- " + t);
    assert ("- " + t)[1..|name| + 4] == " " + InQuotes(q, name) && ("- " + t)[2..] == t;
  }

  /** A list item in quotes is one scalar, whatever colons and blanks it has and whatever comes behind it
      and a blank. */
  lemma QuotedScalarLine(column: nat, q: char, name: string, rest: string)
    requires IsQuote(q) && q !in name && EndsName(rest)
    ensures var t := InQuotes(q, name) + rest;
            && Indent(Spaces(column) + ("- " + t)) == column
            && Classify(Spaces(column) + ("- " + t)) == LineInfo(List, t, column + 2, -1, "")
  {
    hide ColonIndex, IsMappingNode, TrimSpace;
    var t := InQuotes(q, name) + rest;
    assert "- " + InQuotes(q, name) + rest == "- " + t;
    QuotedColon(true, q, name, rest);
    IndentSpaces(column, "- " + t);
    assert ("- " + t)[2..] == t;
  }
}
