/** The few string operations of Go's standard library that the modelled code relies on.
    Text is a sequence of single-byte characters. */
module Strings {

  /** Go's unicode.IsSpace on ASCII. */
  predicate IsSpace(c: char) {
    c == ' ' || c == '\t' || c == '\n' || c == '\U{0B}' || c == '\U{0C}' || c == '\r'
  }

  function Spaces(n: nat): (s: string)
    ensures |s| == n && forall i :: 0 <= i < n ==> s[i] == ' '
  {
    seq(n, _ => ' ')
  }

  /** The number of leading white-space characters. */
  function Indent(s: string): (n: nat)
    ensures n <= |s|
    ensures forall i :: 0 <= i < n ==> IsSpace(s[i])
    ensures n < |s| ==> !IsSpace(s[n])
  {
    if s == "" || !IsSpace(s[0]) then 0 else 1 + Indent(s[1..])
  }

  function TrimRight(s: string): (t: string)
    ensures t <= s && (t == "" || !IsSpace(t[|t| - 1]))
    ensures forall i :: |t| <= i < |s| ==> IsSpace(s[i])
  {
    if s == "" || !IsSpace(s[|s| - 1]) then s else TrimRight(s[..|s| - 1])
  }

  /** strings.TrimSpace. */
  function TrimSpace(s: string): string {
    TrimRight(s[Indent(s)..])
  }

  /** The position of the first c, or -1. */
  function IndexOf(s: string, c: char): (r: int)
    ensures -1 <= r < |s|
    ensures r == -1 <==> c !in s
    ensures r >= 0 ==> s[r] == c && c !in s[..r]
  {
    if s == "" then -1
    else if s[0] == c then 0
    else
      var r := IndexOf(s[1..], c);
      if r == -1 then -1 else assert s[..r + 1] == [s[0]] + s[1..][..r]; r + 1
  }

  /** The position of the last c, or -1. */
  function LastIndexOf(s: string, c: char): (r: int)
    ensures -1 <= r < |s|
    ensures r == -1 <==> c !in s
    ensures r >= 0 ==> s[r] == c && c !in s[r + 1..]
  {
    if s == "" then -1
    else if s[|s| - 1] == c then |s| - 1
    else
      var t := s[..|s| - 1];
      var r := LastIndexOf(t, c);
      assert s == t + [s[|s| - 1]];
      if r == -1 then -1 else assert s[r + 1..] == t[r + 1..] + [s[|s| - 1]]; r
  }

  /** Everything before the last c of s + [c] + tail, when the tail has no c, is s. */
  lemma {:induction false} LastIndexOfSplit(s: string, c: char, tail: string)
    requires c !in tail
    ensures LastIndexOf(s + [c] + tail, c) == |s|
    decreases |tail|
  {
    var w := s + [c] + tail;
    if tail != "" {
      var rest := tail[..|tail| - 1];
      assert w[..|w| - 1] == s + [c] + rest;
      assert w[|w| - 1] == tail[|tail| - 1];
      LastIndexOfSplit(s, c, rest);
    }
  }

  lemma IndexOfSplit(s: string, c: char, tail: string)
    requires c !in s
    ensures IndexOf(s + [c] + tail, c) == |s|
  {
    var w := s + [c] + tail;
    var r := IndexOf(w, c);
    assert w[|s|] == c;
    assert forall i :: 0 <= i < r ==> w[i] == w[..r][i];
    assert forall i :: 0 <= i < |s| ==> w[i] == s[i];
  }

  lemma IndentSpaces(n: nat, s: string)
    requires s == "" || !IsSpace(s[0])
    ensures Indent(Spaces(n) + s) == n && (Spaces(n) + s)[n..] == s
  {
    var w := Spaces(n) + s;
    assert forall i :: 0 <= i < n ==> w[i] == ' ';
    assert s != "" ==> w[n] == s[0];
  }

  lemma TrimSpaceIdentity(s: string)
    requires s != "" && !IsSpace(s[0]) && !IsSpace(s[|s| - 1])
    ensures TrimSpace(s) == s
  {
    assert s[Indent(s)..] == s;
  }

  lemma TrimBlank(y: string)
    ensures TrimSpace(" " + y) == TrimSpace(y)
  {
    assert (" " + y)[1..] == y;
    assert (" " + y)[Indent(" " + y)..] == y[Indent(y)..];
  }

  // ---------------------------------------------------------------- decimal numbers

  predicate IsDigit(c: char) {
    '0' <= c <= '9'
  }

  function DigitValue(c: char): (d: nat)
    requires IsDigit(c)
    ensures d < 10
  {
    c as int - '0' as int
  }

  function DigitChar(d: nat): (c: char)
    requires d < 10
    ensures IsDigit(c) && DigitValue(c) == d
  {
    (d + '0' as int) as char
  }

  predicate AllDigits(s: string) {
    forall i :: 0 <= i < |s| ==> IsDigit(s[i])
  }

  /** strconv.Itoa on a number that is not negative. */
  function Itoa(n: nat): (s: string)
    ensures s != "" && AllDigits(s)
  {
    if n < 10 then [DigitChar(n)] else Itoa(n / 10) + [DigitChar(n % 10)]
  }

  function DecimalValue(s: string): nat
    requires AllDigits(s)
  {
    if s == "" then 0 else 10 * DecimalValue(s[..|s| - 1]) + DigitValue(s[|s| - 1])
  }

  lemma {:induction false} DecimalRoundTrip(n: nat)
    ensures DecimalValue(Itoa(n)) == n
  {
    if n < 10 {
      assert Itoa(n)[..0] == "";
      assert DecimalValue(Itoa(n)) == 10 * DecimalValue(Itoa(n)[..0]) + n;
    } else {
      DecimalRoundTrip(n / 10);
      var t := Itoa(n / 10);
      assert Itoa(n)[..|Itoa(n)| - 1] == t;
    }
  }

  lemma ItoaInjective(m: nat, n: nat)
    requires Itoa(m) == Itoa(n)
    ensures m == n
  {
    DecimalRoundTrip(m);
    DecimalRoundTrip(n);
  }

  // ---------------------------------------------------------------- lines

  /** strings.Split(s, "\n"): always at least one line. */
  function Lines(s: string): (ls: seq<string>)
    ensures |ls| >= 1
    ensures forall i :: 0 <= i < |ls| ==> '\n' !in ls[i]
  {
    if s == "" then [""]
    else
      var rest := Lines(s[1..]);
      if s[0] == '\n' then [""] + rest else [[s[0]] + rest[0]] + rest[1..]
  }

  function Join(ls: seq<string>): string
    requires |ls| >= 1
  {
    if |ls| == 1 then ls[0] else ls[0] + "\n" + Join(ls[1..])
  }

  lemma {:induction false} JoinLines(s: string)
    ensures Join(Lines(s)) == s
  {
    if s != "" {
      JoinLines(s[1..]);
      var rest := Lines(s[1..]);
      if s[0] == '\n' {
        assert Lines(s)[1..] == rest;
      } else {
        var ls := Lines(s);
        assert ls[1..] == rest[1..];
        if |rest| > 1 {
          assert ls[0] + "\n" + Join(ls[1..]) == [s[0]] + (rest[0] + "\n" + Join(rest[1..]));
        }
      }
      assert s == [s[0]] + s[1..];
    }
  }

  lemma {:induction false} LinesOfPrefix(l: string, s: string)
    requires '\n' !in l
    ensures Lines(l + s) == [l + Lines(s)[0]] + Lines(s)[1..]
    decreases |l|
  {
    if l == "" {
      assert l + s == s;
      assert l + Lines(s)[0] == Lines(s)[0];
    } else {
      LinesOfPrefix(l[1..], s);
      assert (l + s)[1..] == l[1..] + s;
      assert [l[0]] + (l[1..] + Lines(s)[0]) == l + Lines(s)[0];
    }
  }

  lemma {:induction false} LinesOfJoin(ls: seq<string>)
    requires |ls| >= 1 && forall i :: 0 <= i < |ls| ==> '\n' !in ls[i]
    ensures Lines(Join(ls)) == ls
  {
    if |ls| == 1 {
      LinesOfPrefix(ls[0], "");
      assert ls[0] + "" == ls[0];
      assert ls == [ls[0]];
    } else {
      LinesOfJoin(ls[1..]);
      var rest := "\n" + Join(ls[1..]);
      LinesOfPrefix(ls[0], rest);
      assert rest[1..] == Join(ls[1..]);
      assert Lines(rest) == [""] + ls[1..];
      assert Join(ls) == ls[0] + rest;
      assert ls[0] + "" == ls[0];
    }
  }
}
