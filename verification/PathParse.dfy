/** Reading a path from its text. The text is re-read from its original form after a quoted key even
    though backslashes were taken out of a working copy, and the cursor and length are the copy's. */
module PathParse {
  import opened Options
  import opened Strings
  import opened PathText
  import opened YamlPath
  import opened PathBuilding

  /** Largest number that fits a signed 64-bit integer, plus one. */
  const INT64_LIMIT := 0x8000_0000_0000_0000

  /** A key, the length of the text as the parser now believes it, and where to go on. */
  datatype Key = Key(name: string, length: nat, next: nat) | NoKey

  /** Crashed is a run-time panic; Blank is a path object without any node. */
  datatype Outcome = Segments(segments: seq<Segment>) | Blank | Invalid | Crashed

  // ---------------------------------------------------------------- keys

  /** The first character that ends a plain key, from i on. */
  function PlainStop(s: string, i: nat): (r: nat)
    requires i <= |s|
    ensures i <= r <= |s| && (r < |s| ==> s[r] in {'$', '.', '[', ']'})
    ensures forall j :: i <= j < r ==> s[j] !in {'$', '.', '[', ']'}
    decreases |s| - i
  {
    if i == |s| || s[i] in {'$', '.', '[', ']'} then i else PlainStop(s, i + 1)
  }

  /** The text without its escaping backslashes, and where the closing quote is in it. */
  datatype Closing = Closing(buf: string, at: nat) | Unclosed

  function QuotedStop(buf: string, cursor: nat): (r: Closing)
    ensures r.Closing? ==> cursor <= r.at < |r.buf| <= |buf| && r.buf[r.at] == '\''
    decreases |buf| - cursor
  {
    if cursor >= |buf| then Unclosed
    else if buf[cursor] == '\\' then QuotedStop(buf[..cursor] + buf[cursor + 1..], cursor + 1)
    else if buf[cursor] == '\'' then Closing(buf, cursor)
    else QuotedStop(buf, cursor + 1)
  }

  /** A key in quotes; cursor is at the opening quote. */
  function QuotedKey(s: string, cursor: nat): (r: Key)
    requires cursor < |s|
    ensures r.Key? ==> cursor < r.next <= r.length <= |s|
  {
    match QuotedStop(s, cursor + 1)
    case Unclosed => NoKey
    case Closing(buf, at) =>
      if at == cursor + 1 then NoKey
      else if at + 1 < |buf| && buf[at + 1] in {'$', ']'} then NoKey
      else Key(buf[cursor + 1..at], |buf|, at + 1)
  }

  /** The key after the dot at cursor. */
  function DotKey(s: string, cursor: nat): (r: Key)
    requires cursor < |s|
    ensures r.Key? ==> cursor < r.next <= r.length <= |s|
  {
    var start := cursor + 1;
    if start < |s| && s[start] == '\'' then QuotedKey(s, start)
    else
      var stop := PlainStop(s, start);
      if (stop < |s| && s[stop] in {'$', ']'}) || stop == start then NoKey
      else Key(s[start..stop], |s|, stop)
  }

  method ParseQuotedKey(s: string, start: nat) returns (r: Key)
    requires start < |s|
    ensures r == QuotedKey(s, start)
  {
    var buf := s;
    var cursor := start + 1;
    var foundEndDelim := false;
    while cursor < |buf|
      invariant start + 1 <= cursor && |buf| <= |s|
      invariant QuotedStop(s, start + 1) == QuotedStop(buf, cursor)
      decreases |buf| - cursor
    {
      if buf[cursor] == '\\' {
        buf := buf[..cursor] + buf[cursor + 1..];
      } else if buf[cursor] == '\'' {
        foundEndDelim := true;
        break;
      }
      cursor := cursor + 1;
    }
    if !foundEndDelim || cursor == start + 1 {
      return NoKey;
    }
    var selector := buf[start + 1..cursor];
    cursor := cursor + 1;
    if cursor < |buf| {
      if buf[cursor] == '$' || buf[cursor] == ']' {
        return NoKey;
      }
    }
    r := Key(selector, |buf|, cursor);
  }

  method ParseDotKey(s: string, dot: nat) returns (r: Key)
    requires dot < |s|
    ensures r == DotKey(s, dot)
  {
    var start := dot + 1;
    if start < |s| && s[start] == '\'' {
      r := ParseQuotedKey(s, start);
      return;
    }
    var cursor := start;
    while cursor < |s| && s[cursor] != '.' && s[cursor] != '['
      invariant start <= cursor <= |s| && PlainStop(s, start) == PlainStop(s, cursor)
    {
      if s[cursor] == '$' || s[cursor] == ']' {
        return NoKey;
      }
      cursor := cursor + 1;
    }
    if start == cursor {
      return NoKey;
    }
    r := Key(s[start..cursor], |s|, cursor);
  }

  // ---------------------------------------------------------------- subscripts

  datatype Number = Number(value: nat, next: nat) | BadNumber | OutOfRange

  function DigitsStop(s: string, i: nat): (r: nat)
    requires i <= |s|
    ensures i <= r <= |s| && (r < |s| ==> !IsDigit(s[r]))
    ensures forall j :: i <= j < r ==> IsDigit(s[j])
    decreases |s| - i
  {
    if i < |s| && IsDigit(s[i]) then DigitsStop(s, i + 1) else i
  }

  /** The number after the bracket at cursor; digits up to the end of the text run off it. */
  function BracketNumber(s: string, cursor: nat): (r: Number)
    requires cursor < |s|
    ensures r.Number? ==> cursor < r.next <= |s|
  {
    var start := cursor + 1;
    if start >= |s| || !IsDigit(s[start]) then BadNumber
    else
      var stop := DigitsStop(s, start);
      if stop == |s| then OutOfRange
      else if s[stop] != ']' || DecimalValue(s[start..stop]) >= INT64_LIMIT then BadNumber
      else Number(DecimalValue(s[start..stop]), stop + 1)
  }

  method ParsePathIndex(s: string, bracket: nat) returns (r: Number)
    requires bracket < |s|
    ensures r == BracketNumber(s, bracket)
  {
    var cursor := bracket + 1;
    if |s| <= cursor {
      return BadNumber;
    }
    if !IsDigit(s[cursor]) {
      return BadNumber;
    }
    var start := cursor;
    cursor := cursor + 1;
    while cursor < |s|
      invariant start < cursor <= |s| && DigitsStop(s, start) == DigitsStop(s, cursor)
    {
      if IsDigit(s[cursor]) {
        cursor := cursor + 1;
        continue;
      }
      break;
    }
    if cursor >= |s| {
      return OutOfRange;
    }
    if s[cursor] != ']' {
      return BadNumber;
    }
    var num := DecimalValue(s[start..cursor]);
    if num >= INT64_LIMIT {
      return BadNumber;
    }
    r := Number(num, cursor + 1);
  }

  // ---------------------------------------------------------------- whole texts

  /** Parsing goes on at cursor; the segments so far are None before the first '$'. */
  function ParseFrom(s: string, length: nat, cursor: nat, sofar: Option<seq<Segment>>): Outcome
    requires cursor <= length <= |s|
    decreases |s| - cursor
  {
    if cursor == length then
      match sofar
      case None => Blank
      case Some(segments) => Segments(segments)
    else if s[cursor] == '$' then ParseFrom(s, length, cursor + 1, Some([]))
    else if s[cursor] == '.' then
      match DotKey(s, cursor)
      case NoKey => Invalid
      case Key(name, newLength, next) =>
        if sofar.None? then Crashed
        else ParseFrom(s, newLength, next, Some(sofar.value + [Child(name)]))
    else if s[cursor] == '[' then
      match BracketNumber(s, cursor)
      case BadNumber => Invalid
      case OutOfRange => Crashed
      case Number(n, next) =>
        if sofar.None? then Crashed
        else ParseFrom(s, |s|, next, Some(sofar.value + [Index(n)]))
    else Invalid
  }

  function Parse(s: string): Outcome {
    ParseFrom(s, |s|, 0, None)
  }

  datatype Read = Built(path: Path?) | Rejected | Panicked

  /** The builder, as the path that is read so far. */
  ghost predicate Builds(b: PathBuilder, sofar: Option<seq<Segment>>)
    reads b, b.spine
  {
    match sofar
    case None => b.root == null && b.node == null
    case Some(segments) => b.root != null && b.Valid() && b.Steps() == segments
  }

  /** One turn of the parser's loop. */
  method ParseStep(s: string, length: nat, cursor: nat, b: PathBuilder, ghost sofar: Option<seq<Segment>>)
    returns (ok: bool, failed: Read, next: nat, newLength: nat, builder: PathBuilder, ghost more: Option<seq<Segment>>)
    requires cursor < length <= |s| && Builds(b, sofar)
    modifies b, b.spine
    ensures ok ==>
      && cursor < next <= newLength <= |s|
      && Builds(builder, more)
      && (builder == b || (fresh(builder) && fresh(builder.spine)))
      && (builder == b ==> fresh(set n | n in b.spine && n !in old(b.spine)))
      && ParseFrom(s, length, cursor, sofar) == ParseFrom(s, newLength, next, more)
    ensures !ok ==> (failed == Rejected && ParseFrom(s, length, cursor, sofar) == Invalid)
                    || (failed == Panicked && ParseFrom(s, length, cursor, sofar) == Crashed)
  {
    ok, failed, next, newLength, builder, more := false, Rejected, cursor + 1, length, b, sofar;
    match s[cursor] {
      case '$' =>
        builder := b.Root();
        ok, more := true, Some([]);
      case '.' =>
        var key := ParseDotKey(s, cursor);
        if key.Key? {
          if b.node == null {
            failed := Panicked;
            return;
          }
          b.Child(key.name);
          ok, more := true, Some(sofar.value + [Segment.Child(key.name)]);
          newLength, next := key.length, key.next;
        }
      case '[' =>
        var number := ParsePathIndex(s, cursor);
        if number.OutOfRange? {
          failed := Panicked;
        } else if number.Number? {
          if b.node == null {
            failed := Panicked;
            return;
          }
          b.Index(number.value);
          ok, more := true, Some(sofar.value + [Segment.Index(number.value)]);
          newLength, next := |s|, number.next;
        }
      case _ =>
    }
  }

  method FromString(s: string) returns (r: Read)
    ensures match Parse(s)
            case Segments(segments) => r.Built? && r.path != null && fresh(r.path) && r.path.Valid() && r.path.Steps() == segments
            case Blank => r == Built(null)
            case Invalid => r == Rejected
            case Crashed => r == Panicked
  {
    var length := |s|;
    var cursor := 0;
    var builder := new PathBuilder();
    ghost var sofar: Option<seq<Segment>> := None;
    hide *;
    NothingBuilt(builder);
    while cursor < length
      invariant cursor <= length <= |s|
      invariant fresh(builder) && fresh(builder.spine) && Builds(builder, sofar)
      invariant ParseFrom(s, |s|, 0, None) == ParseFrom(s, length, cursor, sofar)
      decreases |s| - cursor
    {
      var ok, failed;
      ok, failed, cursor, length, builder, sofar := ParseStep(s, length, cursor, builder, sofar);
      if !ok {
        ParseIs(s);
        return failed;
      }
    }
    ParseEnd(s, length, sofar);
    BuildsIs(builder, sofar);
    ParseIs(s);
    if builder.root == null {
      return Built(null);
    }
    var path := builder.Build();
    r := Built(path);
  }

  lemma NothingBuilt(b: PathBuilder)
    requires b.root == null && b.node == null
    ensures Builds(b, None)
  {
  }

  lemma BuildsIs(b: PathBuilder, sofar: Option<seq<Segment>>)
    requires Builds(b, sofar)
    ensures match sofar
            case None => b.root == null && b.node == null
            case Some(segments) => b.root != null && b.Valid() && b.Steps() == segments
  {
  }

  lemma ParseIs(s: string)
    ensures Parse(s) == ParseFrom(s, |s|, 0, None)
  {
    hide ParseFrom;
  }

  lemma ParseEnd(s: string, length: nat, sofar: Option<seq<Segment>>)
    requires length <= |s|
    ensures ParseFrom(s, length, length, sofar) == match sofar case None => Blank case Some(segments) => Segments(segments)
  {
  }
}
