/** Writing a path and reading it back: which paths survive. */
module PathRoundTrip {
  import opened Options
  import opened Strings
  import opened PathText
  import opened PathParse

  // ---------------------------------------------------------------- names

  /** Written as it is. */
  predicate PlainName(name: string) {
    name != "" && name[0] != '\'' && forall i :: 0 <= i < |name| ==> name[i] !in {'.', '*', '[', ']', '$'}
  }

  predicate HasDotOrStar(name: string) {
    '.' in name || '*' in name
  }

  /** Written in quotes, with every single quote escaped. */
  predicate QuotedName(name: string) {
    HasDotOrStar(name) && !(name[0] == '\'' && name[|name| - 1] == '\'') && '\\' !in name
  }

  predicate Writable(s: Segment) {
    match s
    case Child(name) => PlainName(name) || QuotedName(name)
    case Index(i) => i < INT64_LIMIT
  }

  predicate AllWritable(segments: seq<Segment>) {
    forall i :: 0 <= i < |segments| ==> Writable(segments[i])
  }

  function QuoteCount(name: string): nat {
    if name == "" then 0 else (if name[0] == '\'' then 1 else 0) + QuoteCount(name[1..])
  }

  lemma {:induction false} NoQuoteSame(name: string)
    requires '\'' !in name
    ensures Escape(name) == name
  {
    if name != "" {
      NoQuoteSame(name[1..]);
      assert name == [name[0]] + name[1..];
    }
  }

  lemma {:induction false} EscapeLength(name: string)
    ensures |Escape(name)| == |name| + QuoteCount(name)
    ensures QuoteCount(name) > 0 <==> '\'' in name
  {
    if name != "" {
      EscapeLength(name[1..]);
      assert name == [name[0]] + name[1..];
    }
  }

  lemma QuotedStopStep(buf: string, i: nat)
    requires i < |buf|
    ensures QuotedStop(buf, i) ==
            if buf[i] == '\\' then QuotedStop(buf[..i] + buf[i + 1..], i + 1)
            else if buf[i] == '\'' then Closing(buf, i)
            else QuotedStop(buf, i + 1)
  {
    hide QuotedStop;
    QuotedStopUnfolds(buf, i);
  }

  lemma QuotedStopUnfolds(buf: string, i: nat)
    requires i < |buf|
    ensures buf[i] == '\\' ==> QuotedStop(buf, i) == QuotedStop(buf[..i] + buf[i + 1..], i + 1)
    ensures buf[i] == '\'' ==> QuotedStop(buf, i) == Closing(buf, i)
    ensures buf[i] !in {'\\', '\''} ==> QuotedStop(buf, i) == QuotedStop(buf, i + 1)
  {
  }

  lemma EscapeFirst(name: string)
    requires name != ""
    ensures Escape(name) == (if name[0] == '\'' then "\\'" else [name[0]]) + Escape(name[1..])
    ensures Escape("") == ""
  {
  }

  /** Reading an escaped name gives the name back and shortens the text by its quotes. */
  lemma {:induction false} QuotedStopOf(a: string, name: string, t: string)
    requires '\\' !in name
    ensures QuotedStop(a + Escape(name) + "'" + t, |a|) == Closing(a + name + "'" + t, |a| + |name|)
    decreases |name|
  {
    hide *;
    var buf := a + Escape(name) + "'" + t;
    if name == "" {
      EscapeFirst("x");
      assert buf == a + "'" + t && buf == a + name + "'" + t;
      QuotedStopStep(buf, |a|);
    } else {
      var rest := name[1..];
      EscapeFirst(name);
      var a' := a + [name[0]];
      assert name == [name[0]] + rest;
      assert a' + rest + "'" + t == a + name + "'" + t;
      QuotedStopOf(a', rest, t);
      var after, more := a' + Escape(rest) + "'" + t, Escape(rest) + "'" + t;
      if name[0] == '\'' {
        assert a + "\\'" + more == buf;
        DropBackslash(a, more);
        assert a + "'" + more == after;
        QuotedStopStep(buf, |a|);
      } else {
        assert buf == after && buf[|a|] == name[0];
        QuotedStopStep(buf, |a|);
      }
    }
  }

  lemma DropBackslash(a: string, t: string)
    ensures var buf := a + "\\'" + t;
            buf[|a|] == '\\' && buf[..|a|] + buf[|a| + 1..] == a + "'" + t
  {
  }

  // ---------------------------------------------------------------- single segments

  /** What can follow a segment. */
  predicate Follows(t: string) {
    t == "" || t[0] == '.' || t[0] == '['
  }

  lemma PlainStopAt(s: string, i: nat, n: nat)
    requires i <= n <= |s| && (n < |s| ==> s[n] in {'.', '['})
    requires forall j :: i <= j < n ==> s[j] !in {'$', '.', '[', ']'}
    ensures PlainStop(s, i) == n
  {
  }

  lemma PlainDotKey(pre: string, name: string, t: string)
    requires PlainName(name) && Follows(t)
    ensures DotKey(pre + ("." + name) + t, |pre|) == Key(name, |pre| + 1 + |name| + |t|, |pre| + 1 + |name|)
  {
    var s := pre + ("." + name) + t;
    var start := |pre| + 1;
    NameAt(pre, name, t);
    assert t != "" ==> s[start + |name|] == s[start + |name|..][0];
    PlainStopAt(s, start, start + |name|);
  }

  lemma NameAt(pre: string, name: string, t: string)
    ensures var s, start := pre + ("." + name) + t, |pre| + 1;
            && s[start..start + |name|] == name && s[start + |name|..] == t
            && forall j :: start <= j < start + |name| ==> s[j] == name[j - start]
  {
  }

  /** The written form of a name in quotes. */
  function Quote(name: string): (q: string)
    ensures |q| == |name| + QuoteCount(name) + 3
  {
    EscapeLength(name);
    ".'" + Escape(name) + "'"
  }

  lemma QuoteIs(name: string)
    ensures Quote(name) == ".'" + Escape(name) + "'" && Quote(name)[0] == '.'
  {
  }

  lemma QuotedKeyIs(s: string, cursor: nat, buf: string, at: nat)
    requires cursor < |s| && QuotedStop(s, cursor + 1) == Closing(buf, at)
    requires cursor + 1 < at && (at + 1 < |buf| ==> buf[at + 1] in {'.', '['})
    ensures at < |buf| && QuotedKey(s, cursor) == Key(buf[cursor + 1..at], |buf|, at + 1)
  {
    hide QuotedStop;
  }

  lemma FollowsAfter(head: string, t: string)
    requires Follows(t)
    ensures |head| < |head + t| ==> (head + t)[|head|] in {'.', '['}
  {
  }

  lemma QuotedKeyOf(a: string, name: string, t: string)
    requires '\\' !in name && name != "" && Follows(t) && a != ""
    ensures var s := a + Escape(name) + "'" + t;
            |a| <= |s| && QuotedKey(s, |a| - 1) == Key(name, |a| + |name| + 1 + |t|, |a| + |name| + 1)
  {
    hide *;
    QuotedStopOf(a, name, t);
    var s := a + Escape(name) + "'" + t;
    var buf := a + name + "'" + t;
    var at := |a| + |name|;
    FollowsAfter(a + name + "'", t);
    QuotedKeyIs(s, |a| - 1, buf, at);
    assert buf[|a|..at] == name;
  }

  lemma QuotedDot(s: string, cursor: nat)
    requires cursor + 1 < |s| && s[cursor + 1] == '\''
    ensures DotKey(s, cursor) == QuotedKey(s, cursor + 1)
  {
    hide QuotedKey;
  }

  lemma QuotedDotKey(pre: string, name: string, t: string)
    requires '\\' !in name && name != "" && Follows(t)
    ensures DotKey(pre + Quote(name) + t, |pre|) == Key(name, |pre| + 3 + |name| + |t|, |pre| + 3 + |name|)
  {
    hide *;
    QuoteIs(name);
    var s := pre + Quote(name) + t;
    var a := pre + ".'";
    assert s == a + Escape(name) + "'" + t;
    QuotedKeyOf(a, name, t);
    assert s[|pre| + 1] == '\'';
    QuotedDot(s, |pre|);
  }

  lemma DigitsStopAt(s: string, i: nat, n: nat)
    requires i <= n < |s| && !IsDigit(s[n]) && forall j :: i <= j < n ==> IsDigit(s[j])
    ensures DigitsStop(s, i) == n
  {
  }

  lemma WrittenNumber(pre: string, i: nat, t: string)
    requires i < INT64_LIMIT
    ensures BracketNumber(pre + ("[" + Itoa(i) + "]") + t, |pre|) == Number(i, |pre| + 2 + |Itoa(i)|)
  {
    hide Itoa, DecimalValue;
    var digits := Itoa(i);
    var s := pre + ("[" + digits + "]") + t;
    var start := |pre| + 1;
    assert forall j :: start <= j < start + |digits| ==> s[j] == digits[j - start];
    assert s[start + |digits|] == ']';
    assert s[start..start + |digits|] == digits;
    DigitsStopAt(s, start, start + |digits|);
    DecimalRoundTrip(i);
  }

  lemma RenderFollows(segments: seq<Segment>)
    ensures Follows(RenderAll(segments))
  {
  }

  /** How many characters the reader is short of after a segment: the backslashes in it. */
  function Lost(seg: Segment): nat {
    if seg.Child? && HasDotOrStar(seg.name) then QuoteCount(seg.name) else 0
  }

  lemma LostIs(seg: Segment)
    ensures Lost(seg) == if seg.Child? && NeedsQuotes(seg.name) then QuoteCount(seg.name) else 0
  {
  }

  lemma RenderedSegment(seg: Segment)
    requires Writable(seg)
    ensures match seg
            case Index(i) => RenderSegment(seg) == "[" + Itoa(i) + "]" && i < INT64_LIMIT
            case Child(name) =>
              if NeedsQuotes(name) then RenderSegment(seg) == Quote(name) && '\\' !in name && name != ""
              else RenderSegment(seg) == "." + name && PlainName(name)
  {
  }

  lemma DotStep(s: string, cursor: nat, sofar: seq<Segment>)
    requires cursor < |s| && s[cursor] == '.' && DotKey(s, cursor).Key?
    ensures var key := DotKey(s, cursor);
            ParseFrom(s, |s|, cursor, Some(sofar)) == ParseFrom(s, key.length, key.next, Some(sofar + [Child(key.name)]))
  {
  }

  lemma BracketStep(s: string, cursor: nat, sofar: seq<Segment>)
    requires cursor < |s| && s[cursor] == '[' && BracketNumber(s, cursor).Number?
    ensures var number := BracketNumber(s, cursor);
            ParseFrom(s, |s|, cursor, Some(sofar)) == ParseFrom(s, |s|, number.next, Some(sofar + [Index(number.value)]))
  {
  }

  lemma IndexRead(pre: string, i: nat, t: string, sofar: seq<Segment>)
    requires i < INT64_LIMIT
    ensures var r := "[" + Itoa(i) + "]";
            var s := pre + r + t;
            ParseFrom(s, |s|, |pre|, Some(sofar)) == ParseFrom(s, |s|, |pre| + |r|, Some(sofar + [Index(i)]))
  {
    hide *;
    WrittenNumber(pre, i, t);
    BracketStep(pre + ("[" + Itoa(i) + "]") + t, |pre|, sofar);
  }

  lemma PlainRead(pre: string, name: string, t: string, sofar: seq<Segment>)
    requires PlainName(name) && Follows(t)
    ensures var r := "." + name;
            var s := pre + r + t;
            ParseFrom(s, |s|, |pre|, Some(sofar)) == ParseFrom(s, |s|, |pre| + |r|, Some(sofar + [Child(name)]))
  {
    hide *;
    PlainDotKey(pre, name, t);
    DotStep(pre + ("." + name) + t, |pre|, sofar);
  }

  lemma QuotedRead(pre: string, name: string, t: string, sofar: seq<Segment>)
    requires '\\' !in name && name != "" && Follows(t)
    ensures var r := Quote(name);
            var s := pre + r + t;
            && r != "" && QuoteCount(name) < |r|
            && ParseFrom(s, |s|, |pre|, Some(sofar)) ==
               ParseFrom(s, |s| - QuoteCount(name), |pre| + |r| - QuoteCount(name), Some(sofar + [Child(name)]))
  {
    hide *;
    QuoteIs(name);
    QuotedDotKey(pre, name, t);
    DotStep(pre + Quote(name) + t, |pre|, sofar);
  }

  /** Reading one written segment, wherever it stands. A quote inside a quoted name leaves the reader
      short by the backslashes that were written. */
  lemma SegmentRead(pre: string, seg: Segment, t: string, sofar: seq<Segment>)
    requires Writable(seg) && Follows(t)
    ensures Lost(seg) < |RenderSegment(seg)|
    ensures var s := pre + RenderSegment(seg) + t;
            ParseFrom(s, |s|, |pre|, Some(sofar)) ==
            ParseFrom(s, |s| - Lost(seg), |pre| + |RenderSegment(seg)| - Lost(seg), Some(sofar + [seg]))
  {
    hide *;
    RenderedSegment(seg);
    LostIs(seg);
    match seg
    case Index(i) => IndexRead(pre, i, t, sofar);
    case Child(name) =>
      if NeedsQuotes(name) {
        QuotedRead(pre, name, t, sofar);
      } else {
        PlainRead(pre, name, t, sofar);
      }
  }

  // ---------------------------------------------------------------- whole paths

  lemma RenderSplit(pre: string, segments: seq<Segment>)
    requires segments != []
    ensures pre + RenderAll(segments) == pre + RenderSegment(segments[0]) + RenderAll(segments[1..])
    ensures pre + RenderAll(segments) == (pre + RenderSegment(segments[0])) + RenderAll(segments[1..])
    ensures segments == [segments[0]] + segments[1..]
  {
    hide *;
    RenderAllIs(segments);
  }

  lemma RenderAllIs(segments: seq<Segment>)
    requires segments != []
    ensures RenderAll(segments) == RenderSegment(segments[0]) + RenderAll(segments[1..])
  {
    hide RenderSegment;
  }

  lemma EndRead(pre: string, n: nat, sofar: seq<Segment>)
    requires n <= |pre|
    ensures ParseFrom(pre, n, n, Some(sofar)) == Segments(sofar)
    ensures RenderAll([]) == "" && pre + "" == pre
  {
  }

  /** Only the last selector may have quotes inside quotes. */
  predicate QuotesAtEnd(segments: seq<Segment>) {
    forall i :: 0 <= i < |segments| - 1 ==> Lost(segments[i]) == 0
  }

  lemma {:induction false} SuffixRead(pre: string, segments: seq<Segment>, sofar: seq<Segment>)
    requires AllWritable(segments) && QuotesAtEnd(segments)
    ensures var s := pre + RenderAll(segments);
            ParseFrom(s, |s|, |pre|, Some(sofar)) == Segments(sofar + segments)
    decreases |segments|
  {
    hide ParseFrom, RenderAll, RenderSegment, Writable, Follows, Lost;
    if segments == [] {
      EndRead(pre, |pre|, sofar);
      assert sofar + segments == sofar;
    } else {
      var seg, rest := segments[0], segments[1..];
      RenderSplit(pre, segments);
      RenderFollows(rest);
      SegmentRead(pre, seg, RenderAll(rest), sofar);
      assert sofar + segments == (sofar + [seg]) + rest;
      if Lost(seg) == 0 {
        SuffixRead(pre + RenderSegment(seg), rest, sofar + [seg]);
      } else {
        assert rest == [];
        var s := pre + RenderSegment(seg);
        EndRead(s, |s| - Lost(seg), sofar + [seg]);
        assert (sofar + [seg]) + [] == sofar + [seg];
      }
    }
  }

  lemma RootRead(segments: seq<Segment>)
    ensures var s := "$" + RenderAll(segments);
            Parse(Render(segments)) == ParseFrom(s, |s|, 1, Some([]))
  {
    hide RenderAll;
  }

  /** Main theorem: a written path is read back as the same segments, as long as quotes inside quoted
      selectors occur in the last one only. */
  lemma WrittenPathIsRead(segments: seq<Segment>)
    requires AllWritable(segments) && QuotesAtEnd(segments)
    ensures Parse(Render(segments)) == Segments(segments)
  {
    hide ParseFrom, RenderAll, AllWritable, QuotesAtEnd;
    RootRead(segments);
    SuffixRead("$", segments, []);
    assert [] + segments == segments;
  }

  lemma QuoteEnd(pre: string, name: string, t: string)
    ensures var s := pre + Quote(name) + t;
            |Quote(name)| > 0 && s[|pre| + |Quote(name)| - 1] == '\''
  {
  }

  lemma StuckAtQuote(s: string, length: nat, cursor: nat, sofar: seq<Segment>)
    requires cursor < length <= |s| && s[cursor] == '\''
    ensures ParseFrom(s, length, cursor, Some(sofar)) == Invalid
  {
  }

  lemma RenderNotEmpty(segments: seq<Segment>)
    requires segments != []
    ensures RenderAll(segments) != ""
  {
  }

  lemma LostIsQuoted(seg: Segment)
    requires Writable(seg) && Lost(seg) > 0
    ensures seg.Child? && RenderSegment(seg) == Quote(seg.name)
  {
    hide *;
    LostIs(seg);
    RenderedSegment(seg);
  }

  /** With one quote inside a quoted selector that is not the last, the reader stops at its closing
      quote. */
  lemma {:induction false} SuffixStuck(pre: string, segments: seq<Segment>, sofar: seq<Segment>)
    requires AllWritable(segments) && !QuotesAtEnd(segments)
    requires forall i :: 0 <= i < |segments| ==> Lost(segments[i]) <= 1
    ensures var s := pre + RenderAll(segments);
            ParseFrom(s, |s|, |pre|, Some(sofar)) == Invalid
    decreases |segments|
  {
    hide ParseFrom, RenderAll, RenderSegment, Writable, Follows, Lost, Quote;
    var seg, rest := segments[0], segments[1..];
    RenderSplit(pre, segments);
    RenderFollows(rest);
    SegmentRead(pre, seg, RenderAll(rest), sofar);
    if Lost(seg) == 0 {
      SuffixStuck(pre + RenderSegment(seg), rest, sofar + [seg]);
    } else {
      assert rest != [];
      RenderNotEmpty(rest);
      LostIsQuoted(seg);
      QuoteEnd(pre, seg.name, RenderAll(rest));
      var s := pre + RenderAll(segments);
      StuckAtQuote(s, |s| - 1, |pre| + |RenderSegment(seg)| - 1, sofar + [seg]);
    }
  }

  predicate FewQuotes(segments: seq<Segment>) {
    forall i :: 0 <= i < |segments| ==> Lost(segments[i]) <= 1
  }

  /** For selectors with at most one quote each, the text is rejected if and only if some selector
      before the last one has a quote inside quotes. */
  lemma RejectedExactly(segments: seq<Segment>)
    requires AllWritable(segments) && FewQuotes(segments)
    ensures Parse(Render(segments)) == Invalid <==> !QuotesAtEnd(segments)
  {
    hide ParseFrom, RenderAll, AllWritable, QuotesAtEnd, Lost;
    if QuotesAtEnd(segments) {
      WrittenPathIsRead(segments);
    } else {
      RootRead(segments);
      SuffixStuck("$", segments, []);
    }
  }

  lemma DocumentedName()
    ensures QuotedName("bar.baz's value") && QuoteCount("bar.baz's value") == 1
  {
    hide QuoteCount;
    var name := "bar.baz's value";
    assert name[3] == '.' && name[7] == '\'';
    OneQuote(name, 7);
  }

  lemma DocumentedNames()
    ensures PlainName("foo") && PlainName("name")
  {
  }

  lemma PlainSegment(name: string)
    requires PlainName(name)
    ensures Writable(Child(name)) && Lost(Child(name)) == 0
  {
  }

  lemma QuotedSegment(name: string)
    requires QuotedName(name)
    ensures Writable(Child(name)) && Lost(Child(name)) == QuoteCount(name)
  {
    hide QuoteCount;
  }

  /** The path $.foo.'bar.baz\'s value'.name of the parser's own documentation is one of those. */
  lemma DocumentedPathRejected()
    ensures Parse(Render([Child("foo"), Child("bar.baz's value"), Child("name")])) == Invalid
  {
    hide Parse, Render, Lost, Writable, PlainName, QuotedName, QuoteCount;
    var segments := [Child("foo"), Child("bar.baz's value"), Child("name")];
    DocumentedName();
    DocumentedNames();
    PlainSegment("foo");
    QuotedSegment("bar.baz's value");
    PlainSegment("name");
    assert Lost(segments[1]) == 1;
    RejectedExactly(segments);
  }

  lemma {:induction false} OneQuote(name: string, k: nat)
    requires k < |name| && name[k] == '\'' && forall i :: 0 <= i < |name| && i != k ==> name[i] != '\''
    ensures QuoteCount(name) == 1
  {
    if k == 0 {
      EscapeLength(name[1..]);
    } else {
      OneQuote(name[1..], k - 1);
    }
  }
}
