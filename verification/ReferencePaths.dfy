/** A reference's project and SLO paths stay in the list elements of the line they are computed for. */
module ReferencePaths {
  import opened Strings
  import opened GeneralPaths
  import opened ObjectRef

  /** A path with numbers between its pieces. */
  function Shaped(ps: seq<string>, ns: seq<nat>): string
    requires |ps| == |ns| + 1
  {
    if ns == [] then ps[0]
    else Shaped(ps[..|ps| - 1], ns[..|ns| - 1]) + "[" + Itoa(ns[|ns| - 1]) + "]" + ps[|ps| - 1]
  }

  /** Everything of a path up to its last subscript. */
  function Elements(ps: seq<string>, ns: seq<nat>): string
    requires |ps| == |ns| + 1
  {
    if ns == [] then "" else Shaped(ps[..|ps| - 1], ns[..|ns| - 1]) + "[" + Itoa(ns[|ns| - 1]) + "]"
  }

  predicate PlainPiece(p: string) {
    forall i :: 0 <= i < |p| ==> p[i] !in {'[', ']', '%'}
  }

  predicate NoBrackets(p: string) {
    forall i :: 0 <= i < |p| ==> p[i] !in {'[', ']'}
  }

  predicate PiecesWithoutBrackets(ps: seq<string>) {
    forall i :: 0 <= i < |ps| ==> NoBrackets(ps[i])
  }

  predicate PlainPieces(ps: seq<string>) {
    forall i :: 0 <= i < |ps| ==> PlainPiece(ps[i])
  }

  // ---------------------------------------------------------------- generalising

  lemma DigitsNoBrackets(n: nat)
    ensures NoBrackets(Itoa(n))
  {
    hide Itoa;
    assert AllDigits(Itoa(n));
  }

  lemma {:induction false} OutsidePlain(p: string)
    requires NoBrackets(p)
    ensures OpenAfter(p, false) == false && Wild(p, false) == p
  {
    if p != "" {
      OutsidePlain(p[1..]);
      assert p == [p[0]] + p[1..];
    }
  }

  lemma WildSubscript(digits: string)
    requires NoBrackets(digits)
    ensures Wild("[" + digits + "]", false) == "[*]" && OpenAfter("[" + digits + "]", false) == false
  {
    hide *;
    NoBracketsIs(digits);
    WildPlain(digits, "");
    WildOpen(digits + "]");
    assert digits + "]" + "" == digits + "]";
    NothingWild(false);
    assert "[" + digits + "]" == "[" + (digits + "]");
    assert "[" + ("*]" + "") == "[*]";
    CloseEnds("[" + digits);
  }

  lemma NoBracketsIs(p: string)
    requires NoBrackets(p)
    ensures forall i :: 0 <= i < |p| ==> p[i] !in {'[', ']'}
  {
  }

  lemma CloseEnds(p: string)
    ensures OpenAfter(p + "]", false) == false
  {
    WildAppend(p, "]", false);
  }

  lemma {:induction false} WildShaped(ps: seq<string>, ns: seq<nat>)
    requires |ps| == |ns| + 1 && PiecesWithoutBrackets(ps)
    ensures Wild(Shaped(ps, ns), false) == Fill(ps, "[*]") && OpenAfter(Shaped(ps, ns), false) == false
    decreases |ns|
  {
    hide Wild, OpenAfter, Itoa, NoBrackets;
    if ns == [] {
      OutsidePlain(ps[0]);
    } else {
      var init, last := Shaped(ps[..|ps| - 1], ns[..|ns| - 1]), ps[|ps| - 1];
      var sub := "[" + Itoa(ns[|ns| - 1]) + "]";
      WildShaped(ps[..|ps| - 1], ns[..|ns| - 1]);
      DigitsNoBrackets(ns[|ns| - 1]);
      WildSubscript(Itoa(ns[|ns| - 1]));
      OutsidePlain(last);
      WildAppend(init, sub, false);
      WildAppend(init + sub, last, false);
      assert Shaped(ps, ns) == (init + sub) + last;
    }
  }

  lemma {:induction false} FillInjective(ps: seq<string>, qs: seq<string>)
    requires ps != [] && qs != [] && PiecesWithoutBrackets(ps) && PiecesWithoutBrackets(qs)
    requires Fill(ps, "[*]") == Fill(qs, "[*]")
    ensures ps == qs
    decreases |ps|
  {
    FillEnds(ps);
    FillEnds(qs);
    hide Fill, NoBrackets, LastIndexOf;
    var p, q := ps[|ps| - 1], qs[|qs| - 1];
    assert ps == ps[..|ps| - 1] + [p] && qs == qs[..|qs| - 1] + [q];
    if |ps| > 1 && |qs| > 1 {
      var a, b := Fill(ps[..|ps| - 1], "[*]"), Fill(qs[..|qs| - 1], "[*]");
      assert Fill(ps, "[*]")[..|a|] == a && Fill(qs, "[*]")[..|b|] == b;
      assert Fill(ps, "[*]")[|a| + 3..] == p && Fill(qs, "[*]")[|b| + 3..] == q;
      FillInjective(ps[..|ps| - 1], qs[..|qs| - 1]);
    }
  }

  lemma FillEnds(ps: seq<string>)
    requires ps != [] && PiecesWithoutBrackets(ps)
    ensures |ps| == 1 ==> Fill(ps, "[*]") == ps[0] && '[' !in Fill(ps, "[*]")
    ensures |ps| > 1 ==>
      && Fill(ps, "[*]") == Fill(ps[..|ps| - 1], "[*]") + "[*]" + ps[|ps| - 1]
      && LastIndexOf(Fill(ps, "[*]"), '[') == |Fill(ps[..|ps| - 1], "[*]")|
      && '[' in Fill(ps, "[*]")
  {
    hide LastIndexOf;
    var last := ps[|ps| - 1];
    assert NoBrackets(last);
    if |ps| > 1 {
      var init := Fill(ps[..|ps| - 1], "[*]");
      assert init + "[*]" + last == init + ['['] + ("*]" + last);
      LastIndexOfSplit(init, '[', "*]" + last);
      assert (init + "[*]" + last)[|init|] == '[';
    }
  }

  // ---------------------------------------------------------------- the numbers of a path

  lemma {:induction false} WalkPlain(a: string, t: string)
    requires NoBrackets(t)
    ensures var w := WalkOf(a);
            WalkOf(a + t) == if w.inside then w.(digits := w.digits + t) else w
    decreases |t|
  {
    hide WalkOf, Atoi;
    var digits := WalkOf(a).digits;
    if t == "" {
      assert a + t == a;
      assert digits + t == digits;
    } else {
      var init, c := t[..|t| - 1], t[|t| - 1];
      WalkPlain(a, init);
      WalkChar(a + init, c);
      assert a + t == (a + init) + [c];
      assert (digits + init) + [c] == digits + t;
    }
  }

  lemma WalkChar(a: string, c: char)
    ensures WalkOf(a + [c]) == Advance(WalkOf(a), c)
  {
    hide Advance;
    assert (a + [c])[..|a|] == a;
  }

  function Integers(ns: seq<nat>): (ints: seq<int>)
    ensures |ints| == |ns| && forall i :: 0 <= i < |ns| ==> ints[i] == ns[i]
  {
    seq(|ns|, i requires 0 <= i < |ns| => ns[i])
  }

  lemma AtoiOfItoa(n: nat)
    requires n <= MAX_INT
    ensures Atoi(Itoa(n)) == n
  {
    hide Itoa, DecimalValue;
    DecimalRoundTrip(n);
    assert IsDigit(Itoa(n)[0]);
  }

  lemma WalkSubscript(base: string, ns: seq<int>, n: nat)
    requires WalkOf(base) == Walk(false, "", ns) && n <= MAX_INT
    ensures WalkOf(base + "[" + Itoa(n) + "]") == Walk(false, "", ns + [n])
  {
    hide WalkOf, Itoa, Atoi;
    WalkChar(base, '[');
    DigitsNoBrackets(n);
    WalkPlain(base + "[", Itoa(n));
    assert "" + Itoa(n) == Itoa(n);
    WalkChar(base + "[" + Itoa(n), ']');
    AtoiOfItoa(n);
  }

  lemma {:induction false} WalkShaped(ps: seq<string>, ns: seq<nat>)
    requires |ps| == |ns| + 1 && PiecesWithoutBrackets(ps) && forall i :: 0 <= i < |ns| ==> ns[i] <= MAX_INT
    ensures WalkOf(Shaped(ps, ns)) == Walk(false, "", Integers(ns))
    decreases |ns|
  {
    hide WalkOf, Itoa, NoBrackets;
    if ns == [] {
      WalkNothing();
      WalkPlain("", ps[0]);
      assert "" + ps[0] == ps[0];
    } else {
      var init, last := Shaped(ps[..|ps| - 1], ns[..|ns| - 1]), ps[|ps| - 1];
      WalkShaped(ps[..|ps| - 1], ns[..|ns| - 1]);
      WalkSubscript(init, Integers(ns[..|ns| - 1]), ns[|ns| - 1]);
      WalkPlain(init + "[" + Itoa(ns[|ns| - 1]) + "]", last);
      assert Integers(ns) == Integers(ns[..|ns| - 1]) + [ns[|ns| - 1]];
    }
  }

  lemma WalkNothing()
    ensures WalkOf("") == Walk(false, "", [])
  {
  }

  // ---------------------------------------------------------------- filling a template

  lemma PrintOne(a: string, c: char, args: seq<int>)
    ensures PrintAll(a + [c], args) == PrintChar(PrintAll(a, args), c, args)
  {
    hide PrintChar;
    assert (a + [c])[..|a|] == a;
  }

  lemma {:induction false} PrintPlain(a: string, t: string, args: seq<int>)
    requires PlainPiece(t) && !PrintAll(a, args).open
    ensures PrintAll(a + t, args) == PrintAll(a, args).(text := PrintAll(a, args).text + t)
    decreases |t|
  {
    hide PrintAll, FormatInt;
    var p := PrintAll(a, args);
    if t == "" {
      assert a + t == a && p.text + t == p.text;
    } else {
      var init, c := t[..|t| - 1], t[|t| - 1];
      PrintPlain(a, init, args);
      PrintOne(a + init, c, args);
      assert a + t == (a + init) + [c] && t == init + [c];
      assert (p.text + init) + [c] == p.text + t;
    }
  }

  lemma PrintVerb(a: string, args: seq<int>, text: string, used: nat)
    requires PrintAll(a, args) == Print(text, used, false) && used < |args|
    ensures PrintAll(a + "[%d]", args) == Print(text + "[" + FormatInt(args[used]) + "]", used + 1, false)
  {
    hide PrintAll, FormatInt;
    PrintOne(a, '[', args);
    PrintOne(a + "[", '%', args);
    PrintOne(a + "[" + "%", 'd', args);
    PrintOne(a + "[" + "%" + "d", ']', args);
    assert a + "[" + "%" + "d" + "]" == a + "[%d]";
  }

  lemma {:induction false} PrintShaped(ts: seq<string>, ns: seq<nat>, args: seq<int>)
    requires |ts| == |ns| + 1 && PlainPieces(ts) && Integers(ns) <= args
    ensures PrintAll(Fill(ts, "[%d]"), args) == Print(Shaped(ts, ns), |ns|, false)
    decreases |ns|
  {
    hide PrintAll, Itoa, PlainPiece;
    if ns == [] {
      PrintNothing(args);
      PrintPlain("", ts[0], args);
      assert "" + ts[0] == ts[0];
    } else {
      var init, last := Fill(ts[..|ts| - 1], "[%d]"), ts[|ts| - 1];
      var ms := ns[..|ns| - 1];
      assert Integers(ms) <= args && args[|ms|] == Integers(ns)[|ms|];
      PrintShaped(ts[..|ts| - 1], ms, args);
      PrintVerb(init, args, Shaped(ts[..|ts| - 1], ms), |ms|);
      PrintPlain(init + "[%d]", last, args);
    }
  }

  lemma PrintNothing(args: seq<int>)
    ensures PrintAll("", args) == Print("", 0, false)
  {
  }

  /** Formatting a template with as many numbers as it has verbs: none is missing, none is left. */
  lemma SprintfShaped(ts: seq<string>, ns: seq<nat>)
    requires |ts| == |ns| + 1 && PlainPieces(ts)
    ensures Sprintf(Fill(ts, "[%d]"), Integers(ns)) == Shaped(ts, ns)
  {
    hide PrintAll, Fill, Shaped, PlainPieces;
    PrintShaped(ts, ns, Integers(ns));
    assert Shaped(ts, ns) + "" + "" == Shaped(ts, ns);
  }
}
