/** What becomes of a path that is written and read again: it comes back if and only if its selectors are
    plain or quoted names, its indices fit, and no selector before the last has a quote inside quotes.
    Otherwise the reader falls behind the text and never catches up. */
module PathMisread {
  import opened Options
  import opened Strings
  import opened PathText
  import opened PathParse
  import opened PathRoundTrip
  import opened QuotedScan

  // ---------------------------------------------------------------- reading without a new root

  /** From here the reader finds exactly these segments and then the end, without another '$'. */
  predicate ReadsTo(s: string, length: nat, cursor: nat, todo: seq<Segment>)
    requires cursor <= length <= |s|
    decreases |s| - cursor
  {
    if cursor == length then todo == []
    else if s[cursor] == '.' then
      match DotKey(s, cursor)
      case NoKey => false
      case Key(name, newLength, next) =>
        todo != [] && todo[0] == Child(name) && ReadsTo(s, newLength, next, todo[1..])
    else if s[cursor] == '[' then
      match BracketNumber(s, cursor)
      case Number(n, next) => todo != [] && todo[0] == Index(n) && ReadsTo(s, |s|, next, todo[1..])
      case _ => false
    else false
  }

  /** There is a '$' at r, and from there the reader finds exactly these segments. */
  ghost predicate RestartsAt(s: string, r: nat, length: nat, result: seq<Segment>) {
    r < length <= |s| && s[r] == '$' && ReadsTo(s, length, r + 1, result)
  }

  lemma ReadsFromHere(s: string, length: nat, cursor: nat, sofar: seq<Segment>, result: seq<Segment>, next: seq<Segment>, seg: Segment)
    requires next == sofar + [seg] && next <= result
    ensures sofar <= result && result[|sofar|..] != [] && result[|sofar|..][0] == seg
    ensures result[|sofar|..][1..] == result[|next|..]
  {
    assert result[|sofar|] == next[|sofar|];
  }

  /** A result comes from what is read from here on, or from what is read after a later '$'. */
  lemma {:induction false} ResultComesFrom(s: string, length: nat, cursor: nat, sofar: Option<seq<Segment>>, result: seq<Segment>)
    requires cursor <= length <= |s|
    requires ParseFrom(s, length, cursor, sofar) == Segments(result)
    ensures (sofar.Some? && sofar.value <= result && ReadsTo(s, length, cursor, result[|sofar.value|..]))
            || exists r, l :: cursor <= r && RestartsAt(s, r, l, result)
    decreases |s| - cursor
  {
    hide DotKey, BracketNumber;
    if cursor == length {
      assert result[|result|..] == [];
    } else if s[cursor] == '$' {
      ResultComesFrom(s, length, cursor + 1, Some([]), result);
      assert result[0..] == result;
      assert ReadsTo(s, length, cursor + 1, result) ==> RestartsAt(s, cursor, length, result);
    } else if s[cursor] == '.' {
      var key := DotKey(s, cursor);
      var next := sofar.value + [Child(key.name)];
      ResultComesFrom(s, key.length, key.next, Some(next), result);
      if next <= result {
        ReadsFromHere(s, length, cursor, sofar.value, result, next, Child(key.name));
      }
    } else {
      var number := BracketNumber(s, cursor);
      var next := sofar.value + [Index(number.value)];
      ResultComesFrom(s, |s|, number.next, Some(next), result);
      if next <= result {
        ReadsFromHere(s, length, cursor, sofar.value, result, next, Index(number.value));
      }
    }
  }

  // ---------------------------------------------------------------- where segments stand

  lemma {:induction false} RenderAppend(a: seq<Segment>, b: seq<Segment>)
    ensures RenderAll(a + b) == RenderAll(a) + RenderAll(b)
    decreases |a|
  {
    hide *;
    RenderNone();
    if a == [] {
      assert a + b == b;
      assert "" + RenderAll(b) == RenderAll(b);
    } else {
      RenderAppend(a[1..], b);
      RenderAllIs(a);
      RenderAllIs(a + b);
      assert (a + b)[1..] == a[1..] + b && (a + b)[0] == a[0];
      assert RenderSegment(a[0]) + (RenderAll(a[1..]) + RenderAll(b)) == RenderSegment(a[0]) + RenderAll(a[1..]) + RenderAll(b);
    }
  }

  lemma RenderNone()
    ensures RenderAll([]) == ""
  {
  }

  /** Where segment j starts in the text. */
  function Start(segments: seq<Segment>, j: nat): nat
    requires j <= |segments|
  {
    1 + |RenderAll(segments[..j])|
  }

  lemma Layout(segments: seq<Segment>, j: nat)
    requires j <= |segments|
    ensures Start(segments, j) <= |Render(segments)|
    ensures Render(segments)[Start(segments, j)..] == RenderAll(segments[j..])
    ensures Start(segments, |segments|) == |Render(segments)|
  {
    hide RenderAll;
    assert segments == segments[..j] + segments[j..];
    RenderAppend(segments[..j], segments[j..]);
    assert segments[..|segments|] == segments;
  }

  lemma SegmentStands(segments: seq<Segment>, j: nat)
    requires j < |segments|
    ensures Start(segments, j + 1) == Start(segments, j) + |RenderSegment(segments[j])| <= |Render(segments)|
    ensures Render(segments)[Start(segments, j)..Start(segments, j + 1)] == RenderSegment(segments[j])
  {
    hide RenderAll, RenderSegment;
    Layout(segments, j);
    Layout(segments, j + 1);
    assert segments[..j + 1] == segments[..j] + [segments[j]];
    RenderAppend(segments[..j], [segments[j]]);
    RenderAllIs([segments[j]]);
    RenderNone();
    assert [segments[j]][1..] == [];
    assert RenderSegment(segments[j]) + "" == RenderSegment(segments[j]);
    RenderAllIs(segments[j..]);
    var s := Render(segments);
    assert segments[j..][0] == segments[j];
    assert s[Start(segments, j)..][..|RenderSegment(segments[j])|] == RenderSegment(segments[j]);
    assert s[Start(segments, j)..Start(segments, j + 1)] == s[Start(segments, j)..][..|RenderSegment(segments[j])|];
  }

  lemma CharStands(segments: seq<Segment>, j: nat, x: nat)
    requires j < |segments| && x < |RenderSegment(segments[j])|
    ensures Start(segments, j) + x < Start(segments, j + 1) <= |Render(segments)|
    ensures Render(segments)[Start(segments, j) + x] == RenderSegment(segments[j])[x]
  {
    hide Start, Render, RenderSegment;
    SegmentStands(segments, j);
    var s := Render(segments);
    assert s[Start(segments, j)..Start(segments, j + 1)][x] == s[Start(segments, j) + x];
  }

  lemma NothingBefore(segments: seq<Segment>)
    ensures Start(segments, 0) == 1
  {
    assert segments[..0] == [];
  }

  // ---------------------------------------------------------------- written segments

  /** Counting a character that is neither a quote nor a backslash. */
  lemma {:induction false} EscapeCounts(x: char, name: string)
    requires x != '\'' && x != '\\'
    ensures Count(x, Escape(name)) == Count(x, name)
  {
    hide Count;
    CountFirst(x, x, "");
    if name != "" {
      EscapeCounts(x, name[1..]);
      EscapeFirst(name);
      assert name == [name[0]] + name[1..];
      CountFirst(x, name[0], name[1..]);
      hide *;
      if name[0] == '\'' {
        assert "\\'" + Escape(name[1..]) == ['\\'] + (['\''] + Escape(name[1..]));
        CountFirst(x, '\'', Escape(name[1..]));
        CountFirst(x, '\\', ['\''] + Escape(name[1..]));
      } else {
        CountFirst(x, name[0], Escape(name[1..]));
      }
    }
  }

  lemma {:induction false} QuotesCounted(name: string)
    ensures QuoteCount(name) == Count('\'', name)
  {
    if name != "" {
      QuotesCounted(name[1..]);
    }
  }

  /** The three ways in which a selector is written. */
  lemma WrittenChild(name: string)
    ensures var r := RenderSegment(Child(name));
            if NeedsQuotes(name) && !Quoted(name) then r == Quote(name) && |r| == 3 + |name| + QuoteCount(name)
            else r == "." + name && |r| == 1 + |name|
    ensures '.' in name ==> NeedsQuotes(name) && name != ""
  {
    hide Escape, QuoteCount;
  }

  lemma DottedQuoted(name: string)
    requires Quoted(name) && '.' in name
    ensures |name| >= 3 && name[0] == '\''
  {
  }

  /** A selector with a dot is written with a quote in front, and at least four characters. */
  lemma DottedChild(name: string)
    requires '.' in name
    ensures var r := RenderSegment(Child(name)); |r| >= 4 && r[0] == '.' && r[1] == '\''
  {
    WrittenChild(name);
    hide RenderSegment, Escape, QuoteCount, Quote;
    if Quoted(name) {
      DottedQuoted(name);
    } else {
      QuoteIs(name);
      QuoteStarts(name);
    }
  }

  lemma QuoteStarts(name: string)
    ensures Quote(name)[0] == '.' && Quote(name)[1] == '\''
  {
    hide Escape;
  }

  lemma FirstChar(segments: seq<Segment>, j: nat)
    requires j < |segments|
    ensures Start(segments, j) < Start(segments, j + 1) <= |Render(segments)|
    ensures Render(segments)[Start(segments, j)] == if segments[j].Index? then '[' else '.'
  {
    SegmentStarts(segments[j]);
    SegmentStands(segments, j);
    CharStands(segments, j, 0);
    hide Start, Render, RenderSegment;
  }

  lemma SegmentStarts(seg: Segment)
    ensures RenderSegment(seg) != "" && RenderSegment(seg)[0] == if seg.Index? then '[' else '.'
  {
    hide Itoa, Normalize;
  }

  // ---------------------------------------------------------------- a reader that is behind stays behind

  lemma BehindIndex(segments: seq<Segment>, j: nat, c: nat)
    requires j < |segments| && segments[j].Index?
    requires c < Start(segments, j) && c < |Render(segments)| && BracketNumber(Render(segments), c).Number?
    ensures BracketNumber(Render(segments), c).next < Start(segments, j + 1)
  {
    hide Start, Render, RenderSegment, DecimalValue;
    FirstChar(segments, j);
    var s := Render(segments);
    var stop := DigitsStop(s, c + 1);
    assert s[stop] == ']' && s[Start(segments, j)] == '[';
  }

  /** What is written for the name of segment j, from where it starts. */
  lemma ChildStands(segments: seq<Segment>, j: nat)
    requires j < |segments| && segments[j].Child?
    ensures Start(segments, j + 1) == Start(segments, j) + |RenderSegment(segments[j])| <= |Render(segments)|
    ensures Start(segments, j + 1) >= Start(segments, j) + 1 + |segments[j].name|
    ensures Render(segments)[Start(segments, j)] == '.'
    ensures '.' in segments[j].name ==>
              Start(segments, j + 1) >= Start(segments, j) + 4 && Render(segments)[Start(segments, j) + 1] == '\''
  {
    hide *;
    var name := segments[j].name;
    ChildIs(segments[j]);
    FirstChar(segments, j);
    SegmentStands(segments, j);
    WrittenChild(name);
    if '.' in name {
      DottedChild(name);
      CharStands(segments, j, 1);
    }
  }

  lemma ChildIs(seg: Segment)
    ensures seg.Child? ==> seg == Child(seg.name)
  {
  }

  lemma BehindKey(segments: seq<Segment>, j: nat, c: nat)
    requires j < |segments| && segments[j].Child?
    requires c < Start(segments, j) && c < |Render(segments)| && Render(segments)[c] == '.'
    requires DotKey(Render(segments), c).Key? && DotKey(Render(segments), c).name == segments[j].name
    ensures DotKey(Render(segments), c).next < Start(segments, j + 1)
    ensures j + 1 == |segments| ==> DotKey(Render(segments), c).next < DotKey(Render(segments), c).length
  {
    hide *;
    var s, y, name := Render(segments), Start(segments, j), segments[j].name;
    ChildStands(segments, j);
    Layout(segments, |segments|);
    if c + 1 < |s| && s[c + 1] == '\'' {
      QuotedKeyScans(s, c);
      assert c + 2 <= y;
      var t := s[c + 2..];
      ScanBounds(t);
      assert t[y - c - 2] == s[y];
      if '.' in name {
        assert t[y - c - 1] == s[y + 1];
        DotQuoteStops(t, y - c - 2);
      } else {
        MissingStops(t, y - c - 2, '.');
      }
    } else {
      PlainKeyStops(s, c);
    }
  }

  /** A reader that stands before the end of the text of segments[..j] with segments[j..] still to be
      read never finds exactly those. */
  lemma {:induction false} BehindForever(segments: seq<Segment>, j: nat, length: nat, c: nat)
    requires j <= |segments| && 1 <= c <= length <= |Render(segments)|
    requires c < Start(segments, j) && (j == |segments| ==> c < length)
    ensures !ReadsTo(Render(segments), length, c, segments[j..])
    decreases |Render(segments)| - c
  {
    hide Start, Render, DotKey, BracketNumber;
    var s := Render(segments);
    if c < length && j < |segments| {
      assert segments[j..][0] == segments[j] && segments[j..][1..] == segments[j + 1..];
      Layout(segments, |segments|);
      if s[c] == '.' && DotKey(s, c).Key? && segments[j] == Child(DotKey(s, c).name) {
        var key := DotKey(s, c);
        BehindKey(segments, j, c);
        BehindForever(segments, j + 1, key.length, key.next);
      } else if s[c] == '[' && BracketNumber(s, c).Number? && segments[j] == Index(BracketNumber(s, c).value) {
        BehindIndex(segments, j, c);
        BehindForever(segments, j + 1, |s|, BracketNumber(s, c).next);
      }
    }
  }

  // ---------------------------------------------------------------- a reader that is in place

  /** Counting what stands behind the first two characters of a selector that starts with a quote. */
  lemma InsideCounts(name: string, x: char)
    requires x != '\'' && x != '\\'
    requires var r := RenderSegment(Child(name)); |r| >= 2 && r[1] == '\''
    ensures Count(x, RenderSegment(Child(name))[2..]) == Count(x, name)
  {
    hide *;
    var r := RenderSegment(Child(name));
    WrittenChild(name);
    CountFirst(x, x, "");
    if NeedsQuotes(name) && !Quoted(name) {
      QuoteIs(name);
      assert r[2..] == Escape(name) + "'";
      EscapeCounts(x, name);
      CountAppend(x, Escape(name), "'");
      assert "'" == ['\''] + "";
      CountFirst(x, '\'', "");
    } else {
      assert r[2..] == name[1..] && name == [name[0]] + name[1..] && name[0] == '\'';
      CountFirst(x, name[0], name[1..]);
    }
  }

  /** A quoted key that is read in place as the segment that stands there ends inside that segment. */
  lemma EndsInside(segments: seq<Segment>, j: nat)
    requires j < |segments| && segments[j].Child?
    requires var s, y := Render(segments), Start(segments, j);
             && y + 1 < |s| && s[y + 1] == '\'' && y + 1 < Start(segments, j + 1)
             && Unescape(s[y + 2..]).Scan? && Unescape(s[y + 2..]).name == segments[j].name
    ensures Start(segments, j) + 2 + Unescape(Render(segments)[Start(segments, j) + 2..]).raw < Start(segments, j + 1)
  {
    hide *;
    var s, y, e, name := Render(segments), Start(segments, j), Start(segments, j + 1), segments[j].name;
    var t := s[y + 2..];
    var raw := Unescape(t).raw;
    ScanBounds(t);
    ChildIs(segments[j]);
    SegmentStands(segments, j);
    Layout(segments, |segments|);
    var r := RenderSegment(segments[j]);
    assert s[y..e] == r && s[y..e][1] == s[y + 1];
    assert s[y + 2..e] == r[2..];
    if y + 2 + raw >= e {
      assert t[raw] == s[y + 2 + raw];
      assert e < |s|;
      NextSegment(segments, j);
      FirstChar(segments, j + 1);
      var x := s[e];
      assert y + 2 + raw > e;
      ScanCounts(t, x);
      InsideCounts(name, x);
      CountSlices(x, s, y + 2, e, y + 2 + raw);
      assert t[..raw] == s[y + 2..y + 2 + raw];
      assert s[e..y + 2 + raw][0] == x;
      CountSome(x, s[e..y + 2 + raw]);
    }
  }

  lemma NextSegment(segments: seq<Segment>, j: nat)
    requires j < |segments| && Start(segments, j + 1) < |Render(segments)|
    ensures j + 1 < |segments|
  {
    hide Start, Render;
    Layout(segments, |segments|);
  }

  /** Read in place, only a plain or a quoted name is found as it is. */
  lemma InPlaceKey(segments: seq<Segment>, j: nat)
    requires j < |segments| && segments[j].Child? && Start(segments, j) < |Render(segments)|
    requires DotKey(Render(segments), Start(segments, j)).Key?
    requires DotKey(Render(segments), Start(segments, j)).name == segments[j].name
    ensures Writable(segments[j])
  {
    hide *;
    var s, y, name := Render(segments), Start(segments, j), segments[j].name;
    var e, r := Start(segments, j + 1), RenderSegment(segments[j]);
    ChildIs(segments[j]);
    ChildStands(segments, j);
    SegmentStands(segments, j);
    WrittenChild(name);
    assert |r| > 1 ==> y + 1 < e && s[y + 1] == r[1] by {
      if |r| > 1 {
        CharStands(segments, j, 1);
      }
    }
    if y + 1 < |s| && s[y + 1] == '\'' {
      QuotedKeyScans(s, y);
      ScanBounds(s[y + 2..]);
      ShortNotQuoted(segments, j);
      EndsInside(segments, j);
      ScanTakesOut(s[y + 2..]);
      QuotesCounted(name);
      CountSome('\\', name);
      if NeedsQuotes(name) && !Quoted(name) {
        QuotedWritable(name);
      }
    } else {
      PlainKeyStops(s, y);
      if NeedsQuotes(name) || name[0] == '\'' {
        QuoteSecond(name);
      }
      PlainWritable(name);
    }
  }

  /** What is written for such a name starts with a quote. */
  lemma QuoteSecond(name: string)
    requires name != "" && (NeedsQuotes(name) || name[0] == '\'')
    ensures var r := RenderSegment(Child(name)); |r| > 1 && r[1] == '\''
  {
    WrittenChild(name);
    QuoteStarts(name);
    hide RenderSegment, Escape, QuoteCount, Quote, NeedsQuotes;
  }

  lemma PlainWritable(name: string)
    requires name != "" && name[0] != '\'' && !NeedsQuotes(name)
    requires forall i :: 0 <= i < |name| ==> name[i] !in {'$', '.', '[', ']'}
    ensures Writable(Child(name))
  {
    forall i | 0 <= i < |name| ensures name[i] != '*' {
      assert name[i] in name;
    }
  }

  /** Nothing stands between the dot of an empty name and the next segment. */
  lemma ShortNotQuoted(segments: seq<Segment>, j: nat)
    requires j < |segments| && segments[j].Child? && Start(segments, j) + 1 < |Render(segments)|
    requires Render(segments)[Start(segments, j) + 1] == '\''
    ensures Start(segments, j) + 1 < Start(segments, j + 1)
  {
    hide *;
    SegmentStarts(segments[j]);
    SegmentStands(segments, j);
    if Start(segments, j + 1) == Start(segments, j) + 1 {
      NextSegment(segments, j);
      FirstChar(segments, j + 1);
    }
  }

  lemma QuotedWritable(name: string)
    requires NeedsQuotes(name) && !Quoted(name) && '\\' !in name
    ensures Writable(Child(name))
  {
  }

  /** A segment that cannot be written so is not read in place. */
  lemma NotInPlace(segments: seq<Segment>, i: nat)
    requires i < |segments| && !Writable(segments[i])
    ensures Start(segments, i) <= |Render(segments)|
    ensures !ReadsTo(Render(segments), |Render(segments)|, Start(segments, i), segments[i..])
  {
    FirstChar(segments, i);
    hide Start, Render, DotKey, Writable;
    var s, y := Render(segments), Start(segments, i);
    assert segments[i..][0] == segments[i];
    if s[y] == '.' && DotKey(s, y).Key? && segments[i] == Child(DotKey(s, y).name) {
      InPlaceKey(segments, i);
    } else if s[y] == '[' && BracketNumber(s, y).Number? && segments[i] == Index(BracketNumber(s, y).value) {
      SmallIndex(s, y);
    }
  }

  lemma SmallIndex(s: string, c: nat)
    requires c < |s| && BracketNumber(s, c).Number?
    ensures Writable(Index(BracketNumber(s, c).value))
  {
    hide DecimalValue, DigitsStop;
  }

  // ---------------------------------------------------------------- a new root in the middle leads nowhere

  function Dollars(segments: seq<Segment>): nat {
    if segments == [] then 0 else DollarsIn(segments[0]) + Dollars(segments[1..])
  }

  function DollarsIn(seg: Segment): nat {
    match seg
    case Child(name) => Count('$', name)
    case Index(_) => 0
  }

  lemma SegmentDollars(seg: Segment)
    ensures Count('$', RenderSegment(seg)) == DollarsIn(seg)
  {
    hide *;
    match seg
    case Index(i) => IndexDollars(i);
    case Child(name) =>
      ChildDollars(name);
  }

  lemma IndexDollars(i: nat)
    ensures Count('$', RenderSegment(Index(i))) == DollarsIn(Index(i))
  {
    hide Itoa, Count;
    assert AllDigits(Itoa(i));
    CountSome('$', RenderSegment(Index(i)));
  }

  lemma ChildDollars(name: string)
    ensures Count('$', RenderSegment(Child(name))) == DollarsIn(Child(name))
  {
    assert DollarsIn(Child(name)) == Count('$', name);
    hide *;
    WrittenChild(name);
    CountFirst('$', '\'', "");
    assert "'" == ['\''] + "";
    if NeedsQuotes(name) && !Quoted(name) {
      QuoteIs(name);
      EscapeCounts('$', name);
      assert Quote(name) == ['.'] + (['\''] + (Escape(name) + "'"));
      CountFirst('$', '.', ['\''] + (Escape(name) + "'"));
      CountFirst('$', '\'', Escape(name) + "'");
      CountAppend('$', Escape(name), "'");
    } else {
      assert "." + name == ['.'] + name;
      CountFirst('$', '.', name);
    }
  }

  lemma {:induction false} RenderDollars(segments: seq<Segment>)
    ensures Count('$', RenderAll(segments)) == Dollars(segments)
  {
    hide Count, RenderSegment, RenderAll, DollarsIn;
    CountFirst('$', '$', "");
    if segments == [] {
      RenderNone();
    } else {
      RenderDollars(segments[1..]);
      RenderAllIs(segments);
      SegmentDollars(segments[0]);
      CountAppend('$', RenderSegment(segments[0]), RenderAll(segments[1..]));
    }
  }

  /** No quoted key starts between c and p. */
  predicate NoKeysIn(s: string, c: nat, p: nat) {
    forall d: nat :: c <= d < p && d + 1 < |s| ==> !KeyStart(s, d)
  }

  predicate KeyStart(s: string, d: nat) {
    d + 1 < |s| && s[d] == '.' && s[d + 1] == '\''
  }

  lemma CountTail(x: char, s: string, a: nat, b: nat)
    requires a <= b <= |s|
    ensures Count(x, s[b..]) <= Count(x, s[a..])
  {
    hide Count;
    CountSlices(x, s, a, b, |s|);
    assert s[a..|s|] == s[a..] && s[b..|s|] == s[b..];
  }

  /** Where the next key after a quoted one can start without reading something twice. */
  function Passed(s: string, e: nat): nat
    requires 0 < e < |s|
  {
    if s[e - 1] == '.' then e - 1 else e
  }

  /** After a key in quotes no key starts that would read any of it again. */
  lemma KeyPasses(s: string, c: nat)
    requires c + 1 < |s| && s[c] == '.' && s[c + 1] == '\'' && DotKey(s, c).Key?
    ensures var r := Unescape(s[c + 2..]);
            && r.Scan? && c + 2 + r.raw < |s|
            && var p := Passed(s, c + 2 + r.raw);
               && c + 2 <= p && NoKeysIn(s, DotKey(s, c).next, p)
               && Count('$', DotKey(s, c).name) + Count('$', s[p..]) <= Count('$', s[c..])
  {
    hide *;
    QuotedKeyScans(s, c);
    var t := s[c + 2..];
    ScanBounds(t);
    var e := c + 2 + Unescape(t).raw;
    PassedIs(s, e);
    var p := Passed(s, e);
    ScanCounts(t, '$');
    assert t[..Unescape(t).raw] == s[c + 2..e];
    CountSlices('$', s, c + 2, p, e);
    PassedCount(s, e);
    CountSlices('$', s, c + 2, p, |s|);
    assert s[c + 2..|s|] == s[c + 2..] && s[p..|s|] == s[p..];
    CountTail('$', s, c, c + 2);
    forall d: nat | DotKey(s, c).next <= d < p && d + 1 < |s| ensures !KeyStart(s, d) {
      if s[d] == '.' && s[d + 1] == '\'' {
        assert t[d - c - 2] == '.' && t[d - c - 1] == '\'';
        DotQuoteStops(t, d - c - 2);
      }
      KeyStartIs(s, d);
    }
    NoKeysIs(s, DotKey(s, c).next, p);
  }

  lemma PassedIs(s: string, e: nat)
    requires 0 < e < |s|
    ensures Passed(s, e) == if s[e - 1] == '.' then e - 1 else e
  {
  }

  lemma PassedCount(s: string, e: nat)
    requires 0 < e < |s|
    ensures Count('$', s[Passed(s, e)..e]) == 0
  {
    hide Count;
    CountSome('$', s[Passed(s, e)..e]);
  }

  lemma KeyStartIs(s: string, d: nat)
    ensures KeyStart(s, d) <==> d + 1 < |s| && s[d] == '.' && s[d + 1] == '\''
  {
  }

  lemma NoKeysIs(s: string, c: nat, p: nat)
    ensures NoKeysIn(s, c, p) <==> forall d: nat :: c <= d < p && d + 1 < |s| ==> !KeyStart(s, d)
  {
    hide KeyStart;
  }

  function Max(a: nat, b: nat): nat {
    if a >= b then a else b
  }

  /** No '$' is read twice: what is still to be read has no more of them than the text behind p. */
  lemma {:induction false} DollarsLeft(s: string, length: nat, c: nat, todo: seq<Segment>, p: nat)
    requires c <= length <= |s| && p <= |s| && ReadsTo(s, length, c, todo) && NoKeysIn(s, c, p)
    ensures Dollars(todo) <= Count('$', s[Max(c, p)..])
    decreases |s| - c
  {
    hide Count, DotKey, BracketNumber, DollarsIn, Unescape, KeyStart;
    if c < length && s[c] == '.' {
      var key := DotKey(s, c);
      KeyStartIs(s, c);
      if c + 1 < |s| && s[c + 1] == '\'' {
        KeyPasses(s, c);
        var after := Passed(s, c + 2 + Unescape(s[c + 2..]).raw);
        PassedIs(s, c + 2 + Unescape(s[c + 2..]).raw);
        DollarsLeft(s, key.length, key.next, todo[1..], after);
        CountTail('$', s, after, Max(key.next, after));
        NameDollars(key.name);
      } else {
        PlainKeyStops(s, c);
        NoDollar(key.name);
        DollarsLeft(s, key.length, key.next, todo[1..], p);
        CountTail('$', s, Max(c, p), Max(key.next, p));
      }
    } else if c < length {
      var next := BracketNumber(s, c).next;
      DollarsLeft(s, |s|, next, todo[1..], p);
      CountTail('$', s, Max(c, p), Max(next, p));
      IndexHasNone(todo[0]);
    }
  }

  lemma NameDollars(name: string)
    ensures DollarsIn(Child(name)) == Count('$', name)
  {
    hide Count;
  }

  lemma NoDollar(name: string)
    requires forall i :: 0 <= i < |name| ==> name[i] !in {'$', '.', '[', ']'}
    ensures DollarsIn(Child(name)) == 0
  {
    hide Count;
    CountSome('$', name);
  }

  lemma IndexHasNone(seg: Segment)
    ensures seg.Index? ==> DollarsIn(seg) == 0
  {
  }

  /** Reading the whole path never starts over behind the root: the rest has a '$' too few. */
  lemma NoRestart(segments: seq<Segment>, r: nat, length: nat)
    requires r >= 1
    ensures !RestartsAt(Render(segments), r, length, segments)
  {
    hide *;
    var s := Render(segments);
    RestartsAtIs(s, r, length, segments);
    if RestartsAt(s, r, length, segments) {
      NoKeysNowhere(s, r + 1);
      DollarsLeft(s, length, r + 1, segments, 0);
      MaxZero(r + 1);
      RenderIs(segments);
      RenderDollars(segments);
      assert "$" + RenderAll(segments) == ['$'] + RenderAll(segments);
      CountFirst('$', '$', RenderAll(segments));
      TwoDollars(s, r);
    }
  }

  lemma TwoDollars(s: string, r: nat)
    requires 1 <= r < |s| && s[0] == '$' && s[r] == '$'
    ensures Count('$', s) >= 2 + Count('$', s[r + 1..])
  {
    hide *;
    CountSlices('$', s, 0, 1, |s|);
    CountSlices('$', s, 1, r, |s|);
    CountSlices('$', s, r, r + 1, |s|);
    assert s[0..|s|] == s && s[r + 1..|s|] == s[r + 1..];
    assert s[0..1] == ['$'] + "" && s[r..r + 1] == ['$'] + "";
    CountFirst('$', '$', "");
  }

  lemma MaxZero(c: nat)
    ensures Max(c, 0) == c
  {
  }

  lemma NoKeysNowhere(s: string, c: nat)
    ensures NoKeysIn(s, c, 0)
  {
  }

  lemma RestartsAtIs(s: string, r: nat, length: nat, result: seq<Segment>)
    ensures RestartsAt(s, r, length, result) ==> r < length <= |s| && s[r] == '$' && ReadsTo(s, length, r + 1, result)
  {
  }

  // ---------------------------------------------------------------- main results

  /** Read in place, and without getting behind. */
  predicate Good(seg: Segment) {
    Writable(seg) && Lost(seg) == 0
  }

  /** As long as all is good, the reader comes to where the next segment starts. */
  lemma {:induction false} ComesTo(segments: seq<Segment>, i: nat)
    requires i <= |segments| && forall k :: 0 <= k < i ==> Good(segments[k])
    ensures Start(segments, i) <= |Render(segments)|
    ensures Parse(Render(segments)) ==
            ParseFrom(Render(segments), |Render(segments)|, Start(segments, i), Some(segments[..i]))
    decreases i
  {
    hide *;
    if i == 0 {
      RootRead(segments);
      NothingBefore(segments);
      RenderIs(segments);
      assert segments[..0] == [];
    } else {
      ComesTo(segments, i - 1);
      GoodIs(segments[i - 1]);
      ReadOne(segments, i - 1);
    }
  }

  lemma GoodIs(seg: Segment)
    ensures Good(seg) <==> Writable(seg) && Lost(seg) == 0
  {
  }

  lemma RenderIs(segments: seq<Segment>)
    ensures Render(segments) == "$" + RenderAll(segments)
  {
  }

  lemma ReadOne(segments: seq<Segment>, i: nat)
    requires i < |segments| && Writable(segments[i])
    ensures Start(segments, i + 1) <= |Render(segments)| && Lost(segments[i]) < |RenderSegment(segments[i])|
    ensures Start(segments, i + 1) == Start(segments, i) + |RenderSegment(segments[i])|
    ensures var s := Render(segments);
            ParseFrom(s, |s|, Start(segments, i), Some(segments[..i])) ==
            ParseFrom(s, |s| - Lost(segments[i]), Start(segments, i + 1) - Lost(segments[i]), Some(segments[..i + 1]))
  {
    hide *;
    var s := Render(segments);
    Layout(segments, i);
    SegmentStands(segments, i);
    Layout(segments, i + 1);
    var pre, rest := s[..Start(segments, i)], s[Start(segments, i + 1)..];
    RenderFollows(segments[i + 1..]);
    assert s == pre + s[Start(segments, i)..Start(segments, i + 1)] + rest;
    SegmentRead(pre, segments[i], rest, segments[..i]);
    assert segments[..i] + [segments[i]] == segments[..i + 1];
  }

  lemma {:induction false} FirstBad(segments: seq<Segment>, n: nat) returns (i: nat)
    requires n <= |segments|
    ensures i <= n && (i < n ==> !Good(segments[i])) && forall k :: 0 <= k < i ==> Good(segments[k])
  {
    hide Good;
    i := 0;
    if n > 0 {
      i := FirstBad(segments, n - 1);
      if i == n - 1 && Good(segments[i]) {
        i := n;
      }
    }
  }

  lemma BadSegment(segments: seq<Segment>) returns (i: nat)
    requires !(AllWritable(segments) && QuotesAtEnd(segments))
    ensures i < |segments| && forall k :: 0 <= k < i ==> Good(segments[k])
    ensures !Writable(segments[i]) || (i < |segments| - 1 && Lost(segments[i]) > 0)
  {
    hide Lost, Writable;
    i := FirstBad(segments, |segments|);
  }

  lemma StartPositive(segments: seq<Segment>, m: nat)
    requires m <= |segments|
    ensures Start(segments, m) >= 1
  {
  }

  /** Read in place, a segment that is not writable does not come back. */
  lemma NotReadUnwritable(segments: seq<Segment>, i: nat)
    requires i < |segments| && !Writable(segments[i]) && forall k :: 0 <= k < i ==> Good(segments[k])
    ensures Parse(Render(segments)) != Segments(segments)
  {
    hide *;
    var s := Render(segments);
    ComesTo(segments, i);
    StartPositive(segments, i);
    if Parse(s) == Segments(segments) {
      ResultComesFrom(s, |s|, Start(segments, i), Some(segments[..i]), segments);
      NotInPlace(segments, i);
      var r, l :| Start(segments, i) <= r && RestartsAt(s, r, l, segments);
      NoRestart(segments, r, l);
    }
  }

  /** With a quote inside quotes before the last selector the reader gets behind. */
  lemma NotReadBehind(segments: seq<Segment>, i: nat)
    requires i < |segments| - 1 && Writable(segments[i]) && Lost(segments[i]) > 0
    requires forall k :: 0 <= k < i ==> Good(segments[k])
    ensures Parse(Render(segments)) != Segments(segments)
  {
    hide *;
    var s := Render(segments);
    ComesTo(segments, i);
    ReadOne(segments, i);
    Layout(segments, i + 1);
    StartPositive(segments, i);
    var length, c := |s| - Lost(segments[i]), Start(segments, i + 1) - Lost(segments[i]);
    if Parse(s) == Segments(segments) {
      ResultComesFrom(s, length, c, Some(segments[..i + 1]), segments);
      assert |segments[..i + 1]| == i + 1;
      BehindForever(segments, i + 1, length, c);
      var r, l :| c <= r && RestartsAt(s, r, l, segments);
      NoRestart(segments, r, l);
    }
  }

  /** Main theorem: a path is written and read back as the same segments if and only if every selector is a
      plain or a quoted name, every index fits, and no selector before the last one has a quote inside
      quotes. */
  lemma RoundTripExactly(segments: seq<Segment>)
    ensures Parse(Render(segments)) == Segments(segments) <==> AllWritable(segments) && QuotesAtEnd(segments)
  {
    hide *;
    if AllWritable(segments) && QuotesAtEnd(segments) {
      WrittenPathIsRead(segments);
    } else {
      var i := BadSegment(segments);
      if Writable(segments[i]) {
        NotReadBehind(segments, i);
      } else {
        NotReadUnwritable(segments, i);
      }
    }
  }

  // ---------------------------------------------------------------- a path that is silently misread

  lemma AnyLength(s: string, length: nat, c: nat, sofar: seq<Segment>)
    requires c < length <= |s| && s[c] == '.'
    ensures ParseFrom(s, length, c, Some(sofar)) == ParseFrom(s, |s|, c, Some(sofar))
  {
  }

  lemma MisreadEscaped()
    ensures Escape("'''.c") == "\\'\\'\\'" + ".c"
  {
    NoQuoteSame(".c");
    assert "'''.c"[1..] == "''.c" && "''.c"[1..] == "'.c" && "'.c"[1..] == ".c";
    hide *;
    EscapeFirst("'.c");
    EscapeFirst("''.c");
    EscapeFirst("'''.c");
  }

  lemma MisreadQuotes()
    ensures QuoteCount("'''.c") == 3 && QuotedName("'''.c")
  {
    assert "'''.c"[1..] == "''.c" && "''.c"[1..] == "'.c" && "'.c"[1..] == ".c";
    assert "'''.c"[3] == '.';
    EscapeLength(".c");
  }

  lemma MisreadName()
    ensures var name := "'''.c";
            && QuoteCount(name) == 3 && QuotedName(name) && PlainName("c'") && PlainName("e")
            && Quote(name) == ".'\\'\\'\\'" + ".c'"
  {
    MisreadEscaped();
    MisreadQuotes();
    hide Escape, QuoteCount, QuotedName;
  }

  lemma MisreadText()
    ensures AllWritable([Child("'''.c"), Child("e")])
    ensures Writable(Child("'''.c")) && Lost(Child("'''.c")) == 3 && |RenderSegment(Child("'''.c"))| == 11
    ensures Render([Child("'''.c"), Child("e")]) == "$.'\\'\\'\\'" + ".c'" + ".e"
  {
    MisreadName();
    hide QuoteCount, Quote, QuotedName, PlainName, RenderAll, RenderSegment;
    var first, last := Child("'''.c"), Child("e");
    assert first.name[3] == '.';
    RenderedSegment(first);
    RenderedSegment(last);
    RenderAllIs([first, last]);
    RenderAllIs([last]);
    RenderNone();
    assert [first, last][1..] == [last] && [last][1..] == [];
    assert RenderSegment(last) + "" == ".e";
    assert "$" + (".'\\'\\'\\'" + ".c'" + ".e") == "$.'\\'\\'\\'" + ".c'" + ".e";
  }

  /** With more quotes the text need not even be rejected: it can be read as another path. */
  lemma SilentlyMisread()
    ensures AllWritable([Child("'''.c"), Child("e")])
    ensures Parse(Render([Child("'''.c"), Child("e")])) == Segments([Child("'''.c"), Child("c'"), Child("e")])
  {
    hide *;
    MisreadName();
    MisreadText();
    var first, last := Child("'''.c"), Child("e");
    var segments := [first, last];
    var s := Render(segments);
    var pre := "$.'\\'\\'\\'";
    ComesTo(segments, 0);
    ReadOne(segments, 0);
    NothingBefore(segments);
    assert segments[..0] == [] && segments[..1] == [first];
    assert s == pre + ("." + "c'") + ".e" && s == (pre + ".c'") + ("." + "e") + "";
    assert |pre| == 9 && |s| == 14 && s[|pre|] == '.';
    assert Parse(s) == ParseFrom(s, |s| - 3, |pre|, Some([first]));
    AnyLength(s, |s| - 3, |pre|, [first]);
    PlainNext(pre, "c'", ".e", [first]);
    PlainNext(pre + ".c'", "e", "", [first, Child("c'")]);
    assert |pre + ".c'"| == 12;
    assert Parse(s) == ParseFrom(s, |s|, 12, Some([first] + [Child("c'")]));
    assert [first] + [Child("c'")] == [first, Child("c'")];
    assert Parse(s) == ParseFrom(s, |s|, 14, Some([first, Child("c'")] + [last]));
    EndRead(s, |s|, [first, Child("c'"), last]);
    assert [first, Child("c'")] + [last] == [first, Child("c'"), last];
  }

  lemma PlainNext(pre: string, name: string, t: string, sofar: seq<Segment>)
    requires PlainName(name) && (t == "" || t[0] == '.')
    ensures var s := pre + ("." + name) + t;
            ParseFrom(s, |s|, |pre|, Some(sofar)) == ParseFrom(s, |s|, |pre| + 1 + |name|, Some(sofar + [Child(name)]))
  {
    hide ParseFrom;
    PlainRead(pre, name, t, sofar);
  }
}
