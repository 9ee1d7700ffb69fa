/** What one step of reading a path accepts, and texts on which it is an error or a run-time panic. */
module PathErrors {
  import opened Options
  import opened Strings
  import opened PathText
  import opened PathParse
  import opened PathRoundTrip
  import opened PathMisread

  /** Good segments are read one by one in front of anything that can follow a segment. */
  lemma {:induction false} GoodRead(pre: string, segments: seq<Segment>, rest: string, sofar: seq<Segment>)
    requires Follows(rest) && forall i :: 0 <= i < |segments| ==> Good(segments[i])
    ensures var s := pre + RenderAll(segments) + rest;
            ParseFrom(s, |s|, |pre|, Some(sofar)) == ParseFrom(s, |s|, |pre + RenderAll(segments)|, Some(sofar + segments))
    decreases |segments|
  {
    hide *;
    if segments == [] {
      RenderNone();
      assert pre + "" == pre && sofar + [] == sofar;
    } else {
      var first, others := segments[0], segments[1..];
      var r, more := RenderSegment(first), RenderAll(others);
      RenderAllIs(segments);
      GoodIs(first);
      FollowsOn(others, rest);
      SegmentRead(pre, first, more + rest, sofar);
      GoodRead(pre + r, others, rest, sofar + [first]);
      var s := pre + r + (more + rest);
      assert s == pre + (r + more) + rest && s == (pre + r) + more + rest;
      assert pre + (r + more) == (pre + r) + more;
      assert sofar + [first] + others == sofar + segments;
    }
  }

  lemma FollowsOn(segments: seq<Segment>, rest: string)
    requires Follows(rest)
    ensures Follows(RenderAll(segments) + rest)
  {
    RenderFollows(segments);
    hide RenderAll;
    assert RenderAll(segments) == "" ==> RenderAll(segments) + rest == rest;
  }

  lemma {:induction false} DigitsToEnd(s: string, i: nat)
    requires i <= |s| && forall j :: i <= j < |s| ==> IsDigit(s[j])
    ensures DigitsStop(s, i) == |s|
    decreases |s| - i
  {
    if i < |s| {
      DigitsToEnd(s, i + 1);
    }
  }

  lemma OpenIndex(pre: string, digits: string, sofar: seq<Segment>)
    requires digits != "" && AllDigits(digits)
    ensures var s := pre + ("[" + digits); ParseFrom(s, |s|, |pre|, Some(sofar)) == Crashed
  {
    var s := pre + ("[" + digits);
    assert forall j :: |pre| + 1 <= j < |s| ==> s[j] == digits[j - |pre| - 1];
    DigitsToEnd(s, |pre| + 1);
    hide DigitsStop, DecimalValue;
  }

  /** Behind any path that is read in place, an index without its closing bracket runs off the text. */
  lemma UnclosedIndexPanics(segments: seq<Segment>, digits: string)
    requires (forall i :: 0 <= i < |segments| ==> Good(segments[i])) && digits != "" && AllDigits(digits)
    ensures Parse(Render(segments) + ("[" + digits)) == Crashed
  {
    hide *;
    var rest := "[" + digits;
    StartsFollowing(digits);
    GoodRead("$", segments, rest, []);
    RenderIs(segments);
    OpenIndex(Render(segments), digits, [] + segments);
    assert "$" + RenderAll(segments) == Render(segments);
    DollarFirst(Render(segments) + rest);
  }

  lemma StartsFollowing(digits: string)
    ensures Follows("[" + digits)
  {
  }

  lemma DollarFirst(s: string)
    requires s != "" && s[0] == '$'
    ensures Parse(s) == ParseFrom(s, |s|, 1, Some([]))
  {
  }

  /** Without a root the first segment is given to nothing. */
  lemma RootlessPanics(seg: Segment, rest: string)
    requires Writable(seg) && Follows(rest)
    ensures Parse(RenderSegment(seg) + rest) == Crashed
  {
    hide *;
    var s := RenderSegment(seg) + rest;
    assert "" + RenderSegment(seg) + rest == s;
    RenderedSegment(seg);
    match seg {
      case Index(i) =>
        WrittenNumber("", i, rest);
        FirstBracket(s);
      case Child(name) =>
        SegmentStarts(seg);
        if NeedsQuotes(name) {
          QuotedDotKey("", name, rest);
        } else {
          PlainDotKey("", name, rest);
        }
        FirstDot(s);
    }
  }

  lemma FirstBracket(s: string)
    requires s != "" && s[0] == '[' && BracketNumber(s, 0).Number?
    ensures Parse(s) == Crashed
  {
    hide BracketNumber;
  }

  lemma FirstDot(s: string)
    requires s != "" && s[0] == '.' && DotKey(s, 0).Key?
    ensures Parse(s) == Crashed
  {
    hide DotKey;
  }

  // ---------------------------------------------------------------- what one step reads

  /** A plain key after the dot at cursor ends in front of k. */
  predicate PlainEnds(s: string, cursor: nat, k: nat) {
    && cursor + 1 < k <= |s| && s[cursor + 1] != '\''
    && (forall j :: cursor < j < k ==> s[j] !in {'$', '.', '[', ']'})
    && (k == |s| || s[k] in {'.', '['})
  }

  /** A key in quotes after the dot at cursor has its closing quote at k. */
  predicate QuotesEnd(s: string, cursor: nat, k: nat) {
    && cursor + 2 < k < |s| && s[cursor + 1] == '\'' && s[k] == '\''
    && (forall j :: cursor + 1 < j < k ==> s[j] != '\'')
    && (k + 1 < |s| ==> s[k + 1] !in {'$', ']'})
  }

  /** The number after the bracket at cursor has its closing bracket at k, and it fits. */
  predicate NumberEnds(s: string, cursor: nat, k: nat) {
    && cursor + 1 < k < |s| && s[k] == ']'
    && (forall j :: cursor < j < k ==> IsDigit(s[j]))
    && DecimalValue(s[cursor + 1..k]) < 0x8000_0000_0000_0000
  }

  lemma {:induction false} StopWithoutQuote(buf: string, cursor: nat)
    requires forall j :: cursor <= j < |buf| ==> buf[j] !in {'\'', '\\'}
    ensures QuotedStop(buf, cursor) == Unclosed
    decreases |buf| - cursor
  {
    if cursor < |buf| {
      StopWithoutQuote(buf, cursor + 1);
    }
  }

  lemma {:induction false} StopAtQuote(buf: string, cursor: nat, at: nat)
    requires cursor <= at < |buf| && buf[at] == '\''
    requires forall j :: cursor <= j < at ==> buf[j] !in {'\'', '\\'}
    ensures QuotedStop(buf, cursor) == Closing(buf, at)
    decreases at - cursor
  {
    if cursor < at {
      StopAtQuote(buf, cursor + 1, at);
    }
  }

  /** Some quote is the first one from here on, or there is none. */
  lemma {:induction false} FirstQuote(s: string, i: nat) returns (k: nat)
    requires i <= |s|
    ensures i <= k <= |s| && (k < |s| ==> s[k] == '\'')
    ensures forall j :: i <= j < k ==> s[j] != '\''
    decreases |s| - i
  {
    k := i;
    if i < |s| && s[i] != '\'' {
      k := FirstQuote(s, i + 1);
    }
  }

  /** Exactly which plain keys are read. */
  lemma PlainKeyExactly(s: string, cursor: nat)
    requires cursor < |s| && !(cursor + 1 < |s| && s[cursor + 1] == '\'')
    ensures forall k: nat :: PlainEnds(s, cursor, k) ==> DotKey(s, cursor) == Key(s[cursor + 1..k], |s|, k)
    ensures DotKey(s, cursor).Key? ==> exists k: nat :: PlainEnds(s, cursor, k)
  {
    var stop := PlainStop(s, cursor + 1);
    forall k: nat | PlainEnds(s, cursor, k) ensures DotKey(s, cursor) == Key(s[cursor + 1..k], |s|, k) {
      assert stop == k;
    }
    if DotKey(s, cursor).Key? {
      assert PlainEnds(s, cursor, stop);
    }
  }

  /** Exactly which keys in quotes are read, backslashes apart. */
  lemma QuotedKeyExactly(s: string, cursor: nat)
    requires cursor + 1 < |s| && s[cursor + 1] == '\'' && forall j :: cursor < j < |s| ==> s[j] != '\\'
    ensures forall k: nat :: QuotesEnd(s, cursor, k) ==> DotKey(s, cursor) == Key(s[cursor + 2..k], |s|, k + 1)
    ensures DotKey(s, cursor).Key? ==> exists k: nat :: QuotesEnd(s, cursor, k)
  {
    hide QuotedStop;
    var at := FirstQuote(s, cursor + 2);
    if at == |s| {
      StopWithoutQuote(s, cursor + 2);
    } else {
      StopAtQuote(s, cursor + 2, at);
      if DotKey(s, cursor).Key? {
        assert QuotesEnd(s, cursor, at);
      }
    }
    forall k: nat | QuotesEnd(s, cursor, k) ensures DotKey(s, cursor) == Key(s[cursor + 2..k], |s|, k + 1) {
      StopAtQuote(s, cursor + 2, k);
    }
  }

  /** Exactly which subscripts are read, and which run off the text. */
  lemma SubscriptExactly(s: string, cursor: nat)
    requires cursor < |s|
    ensures forall k: nat :: NumberEnds(s, cursor, k) ==> BracketNumber(s, cursor) == Number(DecimalValue(s[cursor + 1..k]), k + 1)
    ensures BracketNumber(s, cursor).Number? ==> exists k: nat :: NumberEnds(s, cursor, k)
    ensures BracketNumber(s, cursor).OutOfRange? <==> cursor + 1 < |s| && forall j :: cursor < j < |s| ==> IsDigit(s[j])
  {
    hide DecimalValue;
    var stop := DigitsStop(s, cursor + 1);
    forall k: nat | NumberEnds(s, cursor, k)
      ensures BracketNumber(s, cursor) == Number(DecimalValue(s[cursor + 1..k]), k + 1)
    {
      assert !IsDigit(s[k]);
      assert stop == k;
    }
    if BracketNumber(s, cursor).Number? {
      assert NumberEnds(s, cursor, stop);
    }
  }

  // ---------------------------------------------------------------- errors

  /** Nothing that can be read: no key behind a dot, or no number behind a bracket. */
  ghost predicate Unreadable(s: string, cursor: nat)
    requires cursor < |s|
  {
    if s[cursor] == '.' then
      forall k: nat :: !PlainEnds(s, cursor, k) && !QuotesEnd(s, cursor, k)
    else
      && s[cursor] == '['
      && (forall k: nat :: !NumberEnds(s, cursor, k))
      && !(cursor + 1 < |s| && forall j :: cursor < j < |s| ==> IsDigit(s[j]))
  }

  /** Behind any path that is read in place, this is an error. */
  lemma UnreadableRejected(segments: seq<Segment>, rest: string)
    requires (forall i :: 0 <= i < |segments| ==> Good(segments[i])) && Follows(rest) && rest != ""
    requires '\\' !in rest && Unreadable(Render(segments) + rest, |Render(segments)|)
    ensures Parse(Render(segments) + rest) == Invalid
  {
    hide *;
    var s, cursor := Render(segments) + rest, |Render(segments)|;
    GoodRead("$", segments, rest, []);
    RenderIs(segments);
    assert "$" + RenderAll(segments) == Render(segments);
    DollarFirst(s);
    assert forall j :: cursor <= j < |s| ==> s[j] == rest[j - cursor];
    UnreadableStep(s, cursor, [] + segments);
  }

  lemma UnreadableStep(s: string, cursor: nat, sofar: seq<Segment>)
    requires cursor < |s| && Unreadable(s, cursor) && forall j :: cursor < j < |s| ==> s[j] != '\\'
    ensures ParseFrom(s, |s|, cursor, Some(sofar)) == Invalid
  {
    hide DotKey, BracketNumber, PlainEnds, QuotesEnd, NumberEnds;
    if s[cursor] == '.' {
      if cursor + 1 < |s| && s[cursor + 1] == '\'' {
        QuotedKeyExactly(s, cursor);
      } else {
        PlainKeyExactly(s, cursor);
      }
    } else {
      SubscriptExactly(s, cursor);
    }
  }
}
