/** What the scan for a closing quote does to the text it passes: which characters come through, how many
    are taken out, and where it cannot pass. */
module QuotedScan {
  import opened PathParse

  // ---------------------------------------------------------------- counting

  function Count(x: char, s: string): nat {
    if s == "" then 0 else (if s[0] == x then 1 else 0) + Count(x, s[1..])
  }

  lemma CountFirst(x: char, c: char, s: string)
    ensures Count(x, [c] + s) == (if c == x then 1 else 0) + Count(x, s)
    ensures Count(x, "") == 0
  {
    assert ([c] + s)[1..] == s;
  }

  lemma {:induction false} CountAppend(x: char, a: string, b: string)
    ensures Count(x, a + b) == Count(x, a) + Count(x, b)
    decreases |a|
  {
    hide *;
    if a == "" {
      assert a + b == b;
      CountFirst(x, x, "");
    } else {
      CountAppend(x, a[1..], b);
      assert a == [a[0]] + a[1..] && a + b == [a[0]] + (a[1..] + b);
      CountFirst(x, a[0], a[1..]);
      CountFirst(x, a[0], a[1..] + b);
    }
  }

  lemma {:induction false} CountSome(x: char, s: string)
    ensures Count(x, s) > 0 <==> x in s
  {
    if s != "" {
      CountSome(x, s[1..]);
      assert s == [s[0]] + s[1..];
    }
  }

  /** A longer stretch has at least as many. */
  lemma CountSlices(x: char, s: string, a: nat, b: nat, e: nat)
    requires a <= b <= e <= |s|
    ensures Count(x, s[a..e]) == Count(x, s[a..b]) + Count(x, s[b..e])
  {
    assert s[a..e] == s[a..b] + s[b..e];
    CountAppend(x, s[a..b], s[b..e]);
  }

  // ---------------------------------------------------------------- the scan

  /** The name that is read from a text behind an opening quote, and where the closing quote is. */
  datatype Scan = Scan(name: string, raw: nat) | Open

  function Unescape(t: string): (r: Scan)
    ensures r.Scan? ==> |r.name| <= r.raw < |t| && t[r.raw] == '\''
  {
    if t == "" then Open
    else if t[0] == '\\' then
      if |t| == 1 then Open
      else match Unescape(t[2..])
        case Open => Open
        case Scan(name, raw) => Scan([t[1]] + name, raw + 2)
    else if t[0] == '\'' then Scan("", 0)
    else match Unescape(t[1..])
      case Open => Open
      case Scan(name, raw) => Scan([t[0]] + name, raw + 1)
  }

  lemma UnescapeIs(t: string)
    ensures if t == "" then Unescape(t) == Open
            else if t[0] == '\\' then
              if |t| == 1 || Unescape(t[2..]).Open? then Unescape(t) == Open
              else Unescape(t) == Scan([t[1]] + Unescape(t[2..]).name, Unescape(t[2..]).raw + 2)
            else if t[0] == '\'' then Unescape(t) == Scan("", 0)
            else if Unescape(t[1..]).Open? then Unescape(t) == Open
            else Unescape(t) == Scan([t[0]] + Unescape(t[1..]).name, Unescape(t[1..]).raw + 1)
  {
  }

  lemma StopIs(buf: string, c: nat)
    ensures QuotedStop(buf, c) ==
            if c >= |buf| then Unclosed
            else if buf[c] == '\\' then QuotedStop(buf[..c] + buf[c + 1..], c + 1)
            else if buf[c] == '\'' then Closing(buf, c)
            else QuotedStop(buf, c + 1)
  {
  }

  /** What the parser's loop yields for a scan result behind position c. */
  function Stopped(buf: string, c: nat, r: Scan): Closing
    requires c <= |buf| && (r.Scan? ==> c + r.raw < |buf|)
  {
    match r
    case Open => Unclosed
    case Scan(name, raw) => Closing(buf[..c] + name + buf[c + raw..], c + |name|)
  }

  /** Taking out a backslash, and keeping the character behind it. */
  lemma StoppedEscaped(buf: string, c: nat, r: Scan)
    requires c + 1 < |buf| && (r.Scan? ==> c + 2 + r.raw < |buf|)
    ensures var rest := buf[..c] + buf[c + 1..];
            && rest[c + 1..] == buf[c + 2..] && |rest| == |buf| - 1
            && (r.Scan? ==> Stopped(rest, c + 1, r) == Stopped(buf, c, Scan([buf[c + 1]] + r.name, r.raw + 2)))
  {
    var rest := buf[..c] + buf[c + 1..];
    assert rest[..c + 1] == buf[..c] + [buf[c + 1]];
    if r.Scan? {
      assert rest[c + 1 + r.raw..] == buf[c + (r.raw + 2)..];
      assert buf[..c] + [buf[c + 1]] + r.name == buf[..c] + ([buf[c + 1]] + r.name);
    }
  }

  lemma StoppedPlain(buf: string, c: nat, r: Scan)
    requires c < |buf| && r.Scan? && c + 1 + r.raw < |buf|
    ensures Stopped(buf, c + 1, r) == Stopped(buf, c, Scan([buf[c]] + r.name, r.raw + 1))
  {
    assert buf[..c + 1] == buf[..c] + [buf[c]];
    assert buf[c + 1 + r.raw..] == buf[c + (r.raw + 1)..];
    assert buf[..c] + [buf[c]] + r.name == buf[..c] + ([buf[c]] + r.name);
  }

  lemma StoppedHere(buf: string, c: nat)
    requires c < |buf|
    ensures Stopped(buf, c, Scan("", 0)) == Closing(buf, c)
  {
    assert buf[..c] + "" + buf[c + 0..] == buf;
  }

  lemma ScanInside(buf: string, c: nat)
    requires c <= |buf|
    ensures Unescape(buf[c..]).Scan? ==> c + Unescape(buf[c..]).raw < |buf|
  {
    hide *;
  }

  lemma StoppedOpen(buf: string, c: nat)
    requires c <= |buf|
    ensures Stopped(buf, c, Open) == Unclosed
  {
  }

  lemma Tails(buf: string, c: nat)
    requires c < |buf|
    ensures buf[c..] != "" && buf[c..][0] == buf[c] && buf[c..][1..] == buf[c + 1..] && |buf[c..]| == |buf| - c
    ensures c + 1 < |buf| ==> buf[c..][1] == buf[c + 1] && buf[c..][2..] == buf[c + 2..]
  {
  }

  /** The parser's loop over a copy of the text does that. */
  lemma {:induction false} StopUnescapes(buf: string, c: nat)
    requires c <= |buf|
    ensures Unescape(buf[c..]).Scan? ==> c + Unescape(buf[c..]).raw < |buf|
    ensures QuotedStop(buf, c) == Stopped(buf, c, Unescape(buf[c..]))
    decreases |buf| - c
  {
    hide *;
    UnescapeIs(buf[c..]);
    ScanInside(buf, c);
    StopIs(buf, c);
    StoppedOpen(buf, c);
    if c < |buf| {
      Tails(buf, c);
      if buf[c] == '\\' {
        var rest := buf[..c] + buf[c + 1..];
        StopIs(rest, c + 1);
        if c + 1 < |buf| {
          var r := Unescape(buf[c + 2..]);
          ScanInside(buf, c + 2);
          StoppedEscaped(buf, c, r);
          StopUnescapes(rest, c + 1);
          StoppedOpen(rest, c + 1);
        }
      } else if buf[c] == '\'' {
        StoppedHere(buf, c);
      } else {
        StopUnescapes(buf, c + 1);
        StoppedOpen(buf, c + 1);
        if Unescape(buf[c + 1..]).Scan? {
          StoppedPlain(buf, c, Unescape(buf[c + 1..]));
        }
      }
    }
  }

  // ---------------------------------------------------------------- what comes through

  lemma PrefixFirst(t: string, k: nat, raw: nat)
    requires k <= raw <= |t| && k <= 2
    ensures t[..raw] == t[..k] + t[k..][..raw - k]
    ensures k == 1 ==> t[..k] == [t[0]]
    ensures k == 2 ==> t[..k] == [t[0]] + [t[1]]
  {
  }

  /** Characters other than quotes and backslashes come through, each once. */
  lemma {:induction false} ScanCounts(t: string, x: char)
    requires x != '\'' && x != '\\' && Unescape(t).Scan?
    ensures Count(x, Unescape(t).name) == Count(x, t[..Unescape(t).raw])
    decreases |t|
  {
    hide *;
    UnescapeIs(t);
    CountFirst(x, x, "");
    var raw := Unescape(t).raw;
    if t[0] == '\\' {
      var r := Unescape(t[2..]);
      ScanCounts(t[2..], x);
      PrefixFirst(t, 2, raw);
      CountFirst(x, t[1], r.name);
      CountFirst(x, t[1], t[2..][..r.raw]);
      CountFirst(x, t[0], [t[1]] + t[2..][..r.raw]);
      assert [t[0]] + [t[1]] + t[2..][..r.raw] == [t[0]] + ([t[1]] + t[2..][..r.raw]);
    } else if t[0] != '\'' {
      var r := Unescape(t[1..]);
      ScanCounts(t[1..], x);
      PrefixFirst(t, 1, raw);
      CountFirst(x, t[0], r.name);
      CountFirst(x, t[0], t[1..][..r.raw]);
    } else {
      assert t[..0] == "";
    }
  }

  /** For every quote and every backslash in the name, a backslash was taken out. */
  lemma {:induction false} ScanTakesOut(t: string)
    requires Unescape(t).Scan?
    ensures Unescape(t).raw >= |Unescape(t).name| + Count('\'', Unescape(t).name) + Count('\\', Unescape(t).name)
    decreases |t|
  {
    hide *;
    UnescapeIs(t);
    CountFirst('\'', 'x', "");
    CountFirst('\\', 'x', "");
    if t[0] == '\\' {
      var r := Unescape(t[2..]);
      ScanTakesOut(t[2..]);
      CountFirst('\'', t[1], r.name);
      CountFirst('\\', t[1], r.name);
    } else if t[0] != '\'' {
      var r := Unescape(t[1..]);
      ScanTakesOut(t[1..]);
      CountFirst('\'', t[0], r.name);
      CountFirst('\\', t[0], r.name);
    }
  }

  /** The scan does not get beyond a quote with a dot in front of it. */
  lemma {:induction false} DotQuoteStops(t: string, y: nat)
    requires y + 1 < |t| && t[y] == '.' && t[y + 1] == '\'' && Unescape(t).Scan?
    ensures Unescape(t).raw <= y + 1
    decreases |t|
  {
    hide *;
    UnescapeIs(t);
    if t[0] == '\\' {
      if y >= 2 {
        assert t[2..][y - 2] == '.' && t[2..][y - 1] == '\'';
        DotQuoteStops(t[2..], y - 2);
      } else {
        assert y == 1 && t[2..][0] == '\'';
        UnescapeIs(t[2..]);
      }
    } else if t[0] != '\'' {
      if y >= 1 {
        assert t[1..][y - 1] == '.' && t[1..][y] == '\'';
        DotQuoteStops(t[1..], y - 1);
      } else {
        assert t[1..][0] == '\'';
        UnescapeIs(t[1..]);
      }
    }
  }

  /** Nor beyond a character that the name does not have. */
  lemma MissingStops(t: string, y: nat, x: char)
    requires y < |t| && t[y] == x && x != '\'' && x != '\\' && Unescape(t).Scan?
    requires x !in Unescape(t).name
    ensures Unescape(t).raw < y
  {
    hide *;
    ScanBounds(t);
    var raw := Unescape(t).raw;
    if raw > y {
      assert t[..raw][y] == x;
      CountSome(x, t[..raw]);
      ScanCounts(t, x);
      CountSome(x, Unescape(t).name);
    }
  }

  lemma ScanBounds(t: string)
    requires Unescape(t).Scan?
    ensures |Unescape(t).name| <= Unescape(t).raw < |t| && t[Unescape(t).raw] == '\''
  {
    hide *;
  }

  /** A key in quotes, as the parser reads it. */
  lemma QuotedKeyScans(s: string, c: nat)
    requires c + 1 < |s| && s[c + 1] == '\'' && DotKey(s, c).Key?
    ensures var r := Unescape(s[c + 2..]);
            && r.Scan? && c + 2 + r.raw < |s| && DotKey(s, c).name == r.name
            && DotKey(s, c).next == c + 3 + |r.name|
            && DotKey(s, c).length == |s| - (r.raw - |r.name|)
  {
    StopUnescapes(s, c + 2);
    hide QuotedStop, Unescape;
    var r := Unescape(s[c + 2..]);
    if r.Scan? {
      assert (s[..c + 2] + r.name + s[c + 2 + r.raw..])[c + 2..c + 2 + |r.name|] == r.name;
    }
  }

  lemma PlainKeyStops(s: string, c: nat)
    requires c < |s| && !(c + 1 < |s| && s[c + 1] == '\'') && DotKey(s, c).Key?
    ensures var key := DotKey(s, c);
            && c + 1 < key.next <= |s| == key.length && key.name == s[c + 1..key.next]
            && forall i :: 0 <= i < |key.name| ==> key.name[i] !in {'$', '.', '[', ']'}
  {
    hide QuotedStop;
  }
}
