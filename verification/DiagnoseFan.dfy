/** Diagnosing a file: one goroutine per object sends its list of diagnostics into a channel as large
    as the number of objects; the collector waits for all of them and then receives as many lists. */
module DiagnoseFan {
  import opened Deprecation

  // ---------------------------------------------------------------- the machine

  /** A worker that panicked has signalled the wait group but has sent nothing. */
  datatype Worker = Working | Sent | Finished | Panicking | Gone

  datatype Collector = Waiting | Collecting(got: nat, diagnostics: seq<Diagnostic>) | Returned(diagnostics: seq<Diagnostic>)

  /** waits is the wait group's counter; order lists the workers that have sent, in the order of their
      sends. */
  datatype State = State(workers: seq<Worker>, waits: int, channel: seq<seq<Diagnostic>>, collector: Collector, order: seq<nat>)

  datatype Action = Send(i: nat) | Finish(i: nat) | Panic(i: nat) | Wake | Receive | Return

  function Repeat(n: nat): (ws: seq<Worker>)
    ensures |ws| == n && forall i :: 0 <= i < n ==> ws[i] == Working
  {
    seq(n, i => Working)
  }

  function Start(n: nat): State {
    State(Repeat(n), n, [], Waiting, [])
  }

  /** out has the list of every worker; its size is the channel's capacity too. */
  predicate Enabled(out: seq<seq<Diagnostic>>, s: State, a: Action) {
    && |s.workers| == |out|
    && match a
       case Send(i) => i < |out| && s.workers[i].Working? && |s.channel| < |out|
       case Finish(i) => i < |out| && (s.workers[i].Sent? || s.workers[i].Panicking?)
       case Panic(i) => i < |out| && s.workers[i].Working?
       case Wake => s.collector.Waiting? && s.waits == 0
       case Receive => s.collector.Collecting? && s.collector.got < |out| && s.channel != []
       case Return => s.collector.Collecting? && s.collector.got == |out|
  }

  function Apply(out: seq<seq<Diagnostic>>, s: State, a: Action): State
    requires Enabled(out, s, a)
  {
    match a
    case Send(i) => s.(workers := s.workers[i := Sent], channel := s.channel + [out[i]], order := s.order + [i])
    case Finish(i) => s.(workers := s.workers[i := if s.workers[i].Sent? then Finished else Gone], waits := s.waits - 1)
    case Panic(i) => s.(workers := s.workers[i := Panicking])
    case Wake => s.(collector := Collecting(0, []))
    case Receive =>
      s.(collector := Collecting(s.collector.got + 1, s.collector.diagnostics + s.channel[0]), channel := s.channel[1..])
    case Return => s.(collector := Returned(s.collector.diagnostics))
  }

  predicate Possible(out: seq<seq<Diagnostic>>, run: seq<Action>)
    decreases |run|, 0
  {
    run == [] || (Possible(out, run[..|run| - 1]) && Enabled(out, After(out, run[..|run| - 1]), run[|run| - 1]))
  }

  function After(out: seq<seq<Diagnostic>>, run: seq<Action>): State
    requires Possible(out, run)
    decreases |run|, 1
  {
    if run == [] then Start(|out|) else Apply(out, After(out, run[..|run| - 1]), run[|run| - 1])
  }

  // ---------------------------------------------------------------- the invariant

  predicate HasSent(w: Worker) {
    w.Sent? || w.Finished?
  }

  predicate Signalled(w: Worker) {
    w.Finished? || w.Gone?
  }

  predicate Failing(w: Worker) {
    w.Panicking? || w.Gone?
  }

  predicate Unsignalled(w: Worker) {
    !Signalled(w)
  }

  function Count(ws: seq<Worker>, p: Worker -> bool): (c: nat)
    ensures c <= |ws|
  {
    if ws == [] then 0 else Count(ws[..|ws| - 1], p) + (if p(ws[|ws| - 1]) then 1 else 0)
  }

  /** The lists of these workers, one after the other. */
  function Lists(out: seq<seq<Diagnostic>>, order: seq<nat>): (ls: seq<seq<Diagnostic>>)
    requires forall k :: 0 <= k < |order| ==> order[k] < |out|
    ensures |ls| == |order| && forall k :: 0 <= k < |order| ==> ls[k] == out[order[k]]
  {
    seq(|order|, k requires 0 <= k < |order| => out[order[k]])
  }

  function Flatten(ls: seq<seq<Diagnostic>>): seq<Diagnostic> {
    if ls == [] then [] else Flatten(ls[..|ls| - 1]) + ls[|ls| - 1]
  }

  /** The workers that have sent are those in the order, each once. */
  predicate OrderKept(ws: seq<Worker>, order: seq<nat>) {
    && (forall k :: 0 <= k < |order| ==> order[k] < |ws| && HasSent(ws[order[k]]))
    && (forall j, k :: 0 <= j < k < |order| ==> order[j] != order[k])
    && (forall i :: 0 <= i < |ws| && HasSent(ws[i]) ==> i in order)
  }

  /** How many lists the collector has taken out of the channel. */
  function Taken(s: State, n: nat): nat {
    match s.collector
    case Waiting => 0
    case Collecting(got, _) => got
    case Returned(_) => n
  }

  function Collected(s: State): seq<Diagnostic> {
    match s.collector
    case Waiting => []
    case Collecting(_, ds) => ds
    case Returned(ds) => ds
  }

  ghost predicate Inv(out: seq<seq<Diagnostic>>, s: State) {
    && |s.workers| == |out|
    && OrderKept(s.workers, s.order)
    && s.waits == Count(s.workers, Unsignalled)
    && |s.order| == Count(s.workers, HasSent)
    && (!s.collector.Waiting? ==> s.waits == 0)
    && Taken(s, |out|) + |s.channel| == |s.order|
    && s.channel == Lists(out, s.order)[Taken(s, |out|)..]
    && Collected(s) == Flatten(Lists(out, s.order)[..Taken(s, |out|)])
  }

  lemma {:induction false} CountChanged(ws: seq<Worker>, i: nat, w: Worker, p: Worker -> bool)
    requires i < |ws|
    ensures Count(ws[i := w], p) == Count(ws, p) - (if p(ws[i]) then 1 else 0) + (if p(w) then 1 else 0)
  {
    var vs := ws[i := w];
    if i < |ws| - 1 {
      CountChanged(ws[..|ws| - 1], i, w, p);
      assert vs[..|vs| - 1] == ws[..|ws| - 1][i := w];
    } else {
      assert vs[..|vs| - 1] == ws[..|ws| - 1];
    }
  }

  lemma {:induction false} CountZero(ws: seq<Worker>, i: nat, p: Worker -> bool)
    requires Count(ws, p) == 0 && i < |ws|
    ensures !p(ws[i])
  {
    if i < |ws| - 1 {
      CountZero(ws[..|ws| - 1], i, p);
    }
  }

  lemma {:induction false} CountFull(ws: seq<Worker>, p: Worker -> bool)
    ensures Count(ws, p) == |ws| <==> forall i :: 0 <= i < |ws| ==> p(ws[i])
  {
    if ws != [] {
      CountFull(ws[..|ws| - 1], p);
    }
  }

  lemma {:induction false} CountStart(n: nat)
    ensures Count(Repeat(n), Unsignalled) == n && Count(Repeat(n), HasSent) == 0
  {
    if n > 0 {
      CountStart(n - 1);
      assert Repeat(n)[..n - 1] == Repeat(n - 1);
    }
  }

  lemma StartKept(out: seq<seq<Diagnostic>>)
    ensures Inv(out, Start(|out|))
  {
    CountStart(|out|);
  }

  lemma OrderGrows(ws: seq<Worker>, order: seq<nat>, i: nat)
    requires OrderKept(ws, order) && i < |ws| && ws[i].Working?
    ensures OrderKept(ws[i := Sent], order + [i])
  {
  }

  lemma SendKept(out: seq<seq<Diagnostic>>, s: State, i: nat)
    requires Inv(out, s) && Enabled(out, s, Send(i))
    ensures Inv(out, Apply(out, s, Send(i)))
  {
    hide Count, Flatten, OrderKept;
    var t := Apply(out, s, Send(i));
    CountChanged(s.workers, i, Sent, Unsignalled);
    CountChanged(s.workers, i, Sent, HasSent);
    OrderGrows(s.workers, s.order, i);
    OrderInside(s.workers, s.order);
    OrderInside(t.workers, t.order);
    if !s.collector.Waiting? {
      CountZero(s.workers, i, Unsignalled);
    }
    assert s.collector.Waiting? && Taken(s, |out|) == 0;
    assert Lists(out, t.order) == Lists(out, s.order) + [out[i]];
    assert Lists(out, t.order)[..0] == [] && Lists(out, s.order)[..0] == [];
    assert Lists(out, t.order)[0..] == Lists(out, t.order) && Lists(out, s.order)[0..] == Lists(out, s.order);
  }

  lemma OrderInside(ws: seq<Worker>, order: seq<nat>)
    requires OrderKept(ws, order)
    ensures forall k :: 0 <= k < |order| ==> order[k] < |ws|
  {
  }

  lemma OrderSame(ws: seq<Worker>, order: seq<nat>, i: nat, w: Worker)
    requires OrderKept(ws, order) && i < |ws| && HasSent(ws[i]) == HasSent(w)
    ensures OrderKept(ws[i := w], order)
  {
  }

  lemma WorkerKept(out: seq<seq<Diagnostic>>, s: State, i: nat, a: Action)
    requires Inv(out, s) && Enabled(out, s, a) && (a == Finish(i) || a == Panic(i))
    ensures Inv(out, Apply(out, s, a))
  {
    hide Count, Flatten, OrderKept;
    var t := Apply(out, s, a);
    CountChanged(s.workers, i, t.workers[i], Unsignalled);
    CountChanged(s.workers, i, t.workers[i], HasSent);
    OrderSame(s.workers, s.order, i, t.workers[i]);
    OrderInside(s.workers, s.order);
    if !s.collector.Waiting? {
      CountZero(s.workers, i, Unsignalled);
    }
  }

  lemma CollectorKept(out: seq<seq<Diagnostic>>, s: State, a: Action)
    requires Inv(out, s) && Enabled(out, s, a) && (a.Wake? || a.Receive? || a.Return?)
    ensures Inv(out, Apply(out, s, a))
  {
    hide Count, OrderKept;
    OrderInside(s.workers, s.order);
    if a.Receive? {
      var ls, got := Lists(out, s.order), s.collector.got;
      assert ls[..got + 1][..got] == ls[..got];
      assert s.channel[0] == ls[got] && s.channel[1..] == ls[got + 1..];
    }
  }

  lemma StepKept(out: seq<seq<Diagnostic>>, s: State, a: Action)
    requires Inv(out, s) && Enabled(out, s, a)
    ensures Inv(out, Apply(out, s, a))
  {
    hide Inv, Enabled, Apply;
    match a
    case Send(i) => SendKept(out, s, i);
    case Finish(i) => WorkerKept(out, s, i, a);
    case Panic(i) => WorkerKept(out, s, i, a);
    case _ => CollectorKept(out, s, a);
  }

  lemma {:induction false} RunKept(out: seq<seq<Diagnostic>>, run: seq<Action>)
    requires Possible(out, run)
    ensures Inv(out, After(out, run))
  {
    hide Inv, Enabled, Apply;
    if run == [] {
      StartKept(out);
    } else {
      RunKept(out, run[..|run| - 1]);
      StepKept(out, After(out, run[..|run| - 1]), run[|run| - 1]);
    }
  }

  // ---------------------------------------------------------------- main results

  lemma SendersLeft(ws: seq<Worker>, i: nat)
    requires i < |ws| && ws[i].Working?
    ensures Count(ws, HasSent) < |ws|
  {
    CountFull(ws, HasSent);
  }

  /** No send ever blocks. */
  lemma SendsNeverBlock(out: seq<seq<Diagnostic>>, run: seq<Action>, i: nat)
    requires Possible(out, run) && i < |out| && After(out, run).workers[i].Working?
    ensures Enabled(out, After(out, run), Send(i))
  {
    RunKept(out, run);
    hide Possible, After, Count, Flatten, OrderKept, Lists;
    SendersLeft(After(out, run).workers, i);
  }

  /** Steps that are left. */
  function Work(s: State): nat {
    2 * Count(s.workers, IsWorking) + Count(s.workers, MustSignal)
    + match s.collector
      case Waiting => |s.workers| + 2
      case Collecting(got, _) => if got <= |s.workers| then |s.workers| - got + 1 else 0
      case Returned(_) => 0
  }

  predicate IsWorking(w: Worker) {
    w.Working?
  }

  predicate MustSignal(w: Worker) {
    w.Sent? || w.Panicking?
  }

  lemma StepWorks(out: seq<seq<Diagnostic>>, s: State, a: Action)
    requires Enabled(out, s, a)
    ensures Work(Apply(out, s, a)) == Work(s) - 1
  {
    hide Count;
    var t := Apply(out, s, a);
    if a.Send? || a.Finish? || a.Panic? {
      CountChanged(s.workers, a.i, t.workers[a.i], IsWorking);
      CountChanged(s.workers, a.i, t.workers[a.i], MustSignal);
    }
  }

  lemma {:induction false} StartWork(n: nat)
    ensures Count(Repeat(n), IsWorking) == n && Count(Repeat(n), MustSignal) == 0
  {
    if n > 0 {
      StartWork(n - 1);
      assert Repeat(n)[..n - 1] == Repeat(n - 1);
    }
  }

  /** Every run is finite: it has at most three steps per worker and two more. */
  lemma {:induction false} RunsEnd(out: seq<seq<Diagnostic>>, run: seq<Action>)
    requires Possible(out, run)
    ensures |run| + Work(After(out, run)) == 3 * |out| + 2
  {
    hide Work, Enabled, Apply, Count;
    if run == [] {
      StartWork(|out|);
      StartWorkIs(|out|);
    } else {
      RunsEnd(out, run[..|run| - 1]);
      StepWorks(out, After(out, run[..|run| - 1]), run[|run| - 1]);
    }
  }

  lemma StartWorkIs(n: nat)
    ensures Work(Start(n)) == 2 * Count(Repeat(n), IsWorking) + Count(Repeat(n), MustSignal) + n + 2
  {
    hide Count;
  }

  /** No step is possible any more. */
  ghost predicate AtEnd(out: seq<seq<Diagnostic>>, s: State) {
    forall a :: !Enabled(out, s, a)
  }

  predicate NoPanics(ws: seq<Worker>) {
    forall i :: 0 <= i < |ws| ==> !Failing(ws[i])
  }

  lemma EndWorkers(out: seq<seq<Diagnostic>>, s: State, i: nat)
    requires Inv(out, s) && AtEnd(out, s) && i < |out|
    ensures Signalled(s.workers[i])
  {
    hide Count, Flatten, OrderKept, Lists;
    assert !Enabled(out, s, Send(i));
    assert !Enabled(out, s, Finish(i));
    if s.workers[i].Working? {
      SendersLeft(s.workers, i);
    }
  }

  lemma {:induction false} NoneUnsignalled(ws: seq<Worker>)
    requires forall i :: 0 <= i < |ws| ==> Signalled(ws[i])
    ensures Count(ws, Unsignalled) == 0
  {
    if ws != [] {
      NoneUnsignalled(ws[..|ws| - 1]);
    }
  }

  lemma EndCollector(out: seq<seq<Diagnostic>>, s: State)
    requires Inv(out, s) && AtEnd(out, s)
    ensures !s.collector.Waiting?
    ensures s.collector.Collecting? ==> s.collector.got < |out| && s.channel == []
  {
    forall i | 0 <= i < |s.workers| ensures Signalled(s.workers[i]) {
      EndWorkers(out, s, i);
    }
    NoneUnsignalled(s.workers);
    hide Count, Flatten, OrderKept, Lists;
    assert !Enabled(out, s, Wake);
    assert !Enabled(out, s, Receive);
    assert !Enabled(out, s, Return);
  }

  lemma SentOrFailed(ws: seq<Worker>)
    requires forall i :: 0 <= i < |ws| ==> Signalled(ws[i])
    ensures Count(ws, HasSent) == |ws| <==> NoPanics(ws)
  {
    CountFull(ws, HasSent);
  }

  /** Main theorem: a run that has come to its end has returned if and only if no worker panicked;
      otherwise the collector waits for a list that never comes. */
  lemma ReturnsExactlyWithoutPanics(out: seq<seq<Diagnostic>>, run: seq<Action>)
    requires Possible(out, run) && AtEnd(out, After(out, run))
    ensures After(out, run).collector.Returned? <==> NoPanics(After(out, run).workers)
  {
    RunKept(out, run);
    hide Possible, After, Count, Flatten, OrderKept, Lists, AtEnd, NoPanics;
    var s := After(out, run);
    forall i | 0 <= i < |s.workers| ensures Signalled(s.workers[i]) {
      EndWorkers(out, s, i);
    }
    EndCollector(out, s);
    SentOrFailed(s.workers);
  }

  // ---------------------------------------------------------------- what is returned

  lemma {:induction false} FlattenRemove(ls: seq<seq<Diagnostic>>, k: nat)
    requires k < |ls|
    ensures multiset(Flatten(ls)) == multiset(Flatten(ls[..k] + ls[k + 1..])) + multiset(ls[k])
  {
    var init, last := ls[..|ls| - 1], ls[|ls| - 1];
    if k < |ls| - 1 {
      FlattenRemove(init, k);
      var rest := ls[..k] + ls[k + 1..];
      assert rest[..|rest| - 1] == init[..k] + init[k + 1..];
    } else {
      assert ls[..k] + ls[k + 1..] == init;
    }
  }

  predicate Permutes(order: seq<nat>, n: nat) {
    && (forall k :: 0 <= k < |order| ==> order[k] < n)
    && (forall j, k :: 0 <= j < k < |order| ==> order[j] != order[k])
    && (forall i :: 0 <= i < n ==> i in order)
  }

  lemma RemoveLargest(order: seq<nat>, n: nat) returns (k: nat)
    requires n > 0 && Permutes(order, n)
    ensures k < |order| && order[k] == n - 1 && Permutes(order[..k] + order[k + 1..], n - 1)
    ensures forall j :: 0 <= j < |order| && j != k ==> order[j] < n - 1
  {
    assert n - 1 in order;
    k :| k < |order| && order[k] == n - 1;
    var rest := order[..k] + order[k + 1..];
    forall i | 0 <= i < n - 1 ensures i in rest {
      assert i in order;
      var j :| 0 <= j < |order| && order[j] == i;
      assert rest[if j < k then j else j - 1] == i;
    }
  }

  lemma {:induction false} PermutedLists(out: seq<seq<Diagnostic>>, order: seq<nat>)
    requires Permutes(order, |out|)
    ensures multiset(Flatten(Lists(out, order))) == multiset(Flatten(out))
    decreases |out|
  {
    hide *;
    NothingPermuted(order, |out|);
    if order == [] {
      assert Lists(out, order) == out;
    } else {
      var n := |out|;
      var k := RemoveLargest(order, n);
      var rest := order[..k] + order[k + 1..];
      PermutesBelow(rest, n - 1);
      PermutesBelow(order, n);
      PermutedLists(out[..n - 1], rest);
      FlattenRemove(Lists(out, order), k);
      ListsWithout(out, order, k, rest);
      FlattenLast(out);
    }
  }

  lemma NothingPermuted(order: seq<nat>, n: nat)
    requires Permutes(order, n)
    ensures order == [] <==> n == 0
  {
    assert 0 < n ==> 0 in order;
    if order != [] {
      assert order[0] < n;
    }
  }

  lemma ListsWithout(out: seq<seq<Diagnostic>>, order: seq<nat>, k: nat, rest: seq<nat>)
    requires k < |order| && (forall j :: 0 <= j < |order| ==> order[j] < |out|)
    requires forall j :: 0 <= j < |order| && j != k ==> order[j] < |out| - 1
    requires rest == order[..k] + order[k + 1..]
    ensures forall j :: 0 <= j < |rest| ==> rest[j] < |out| - 1
    ensures Lists(out, order)[..k] + Lists(out, order)[k + 1..] == Lists(out[..|out| - 1], rest)
    ensures Lists(out, order)[k] == out[order[k]]
  {
  }

  lemma FlattenLast(out: seq<seq<Diagnostic>>)
    requires out != []
    ensures Flatten(out) == Flatten(out[..|out| - 1]) + out[|out| - 1]
  {
  }

  lemma PermutesBelow(order: seq<nat>, n: nat)
    requires Permutes(order, n)
    ensures forall k :: 0 <= k < |order| ==> order[k] < n
  {
  }

  lemma AllSentPermutes(ws: seq<Worker>, order: seq<nat>)
    requires OrderKept(ws, order) && |ws| == Count(ws, HasSent)
    ensures Permutes(order, |ws|)
  {
    CountFull(ws, HasSent);
  }

  /** Main theorem: in every interleaving, what is returned has all workers' diagnostics, each list in
      one piece, and nothing else. */
  lemma ReturnsAllDiagnostics(out: seq<seq<Diagnostic>>, run: seq<Action>)
    requires Possible(out, run) && After(out, run).collector.Returned?
    ensures var s := After(out, run);
            && Permutes(s.order, |out|)
            && s.collector.diagnostics == Flatten(Lists(out, s.order))
            && multiset(s.collector.diagnostics) == multiset(Flatten(out))
  {
    RunKept(out, run);
    hide Possible, After, Count, Flatten, OrderKept, Permutes;
    var s := After(out, run);
    AllSentPermutes(s.workers, s.order);
    PermutesBelow(s.order, |out|);
    var ls := Lists(out, s.order);
    assert ls[..|out|] == ls;
    PermutedLists(out, s.order);
  }

  // ---------------------------------------------------------------- the handler's sort

  function CompareInts(a: int, b: int): int {
    if a < b then -1 else if a > b then 1 else 0
  }

  /** The comparison that the handler sorts by. */
  function Compare(a: Diagnostic, b: Diagnostic): int {
    var lines := CompareInts(a.range.start.line, b.range.start.line);
    if lines != 0 then lines else CompareInts(a.range.start.character, b.range.start.character)
  }

  predicate NotAfterPosition(a: Position, b: Position) {
    a.line < b.line || (a.line == b.line && a.character <= b.character)
  }

  function Starts(ds: seq<Diagnostic>): (ps: seq<Position>)
    ensures |ps| == |ds| && forall i :: 0 <= i < |ds| ==> ps[i] == ds[i].range.start
  {
    seq(|ds|, i requires 0 <= i < |ds| => ds[i].range.start)
  }

  predicate Ordered(ps: seq<Position>) {
    forall i, j :: 0 <= i < j < |ps| ==> NotAfterPosition(ps[i], ps[j])
  }

  /** What the library's sort, which is not stable, may leave. */
  predicate SortOf(sorted: seq<Diagnostic>, ds: seq<Diagnostic>) {
    multiset(sorted) == multiset(ds) && forall i, j :: 0 <= i < j < |sorted| ==> Compare(sorted[i], sorted[j]) <= 0
  }

  lemma SortedStarts(sorted: seq<Diagnostic>, ds: seq<Diagnostic>)
    requires SortOf(sorted, ds)
    ensures multiset(sorted) == multiset(ds) && Ordered(Starts(sorted))
  {
    forall i, j | 0 <= i < j < |sorted| ensures NotAfterPosition(Starts(sorted)[i], Starts(sorted)[j]) {
      assert Compare(sorted[i], sorted[j]) <= 0;
    }
  }

  lemma OrderedStarts(ds: seq<Diagnostic>)
    requires Ordered(Starts(ds))
    ensures forall i, j :: 0 <= i < j < |ds| ==> NotAfterPosition(ds[i].range.start, ds[j].range.start)
  {
    assert forall i, j :: 0 <= i < j < |ds| ==> NotAfterPosition(Starts(ds)[i], Starts(ds)[j]);
  }

  lemma {:induction false} OrderedUnique(a: seq<Position>, b: seq<Position>)
    requires Ordered(a) && Ordered(b) && multiset(a) == multiset(b)
    ensures a == b
  {
    hide *;
    SameElements(a, b);
    if a != [] {
      SameFirst(a, b);
      OrderedRest(a);
      OrderedRest(b);
      SameTails(a, b);
      OrderedUnique(a[1..], b[1..]);
      SameHeadAndTail(a, b);
    }
  }

  lemma SameHeadAndTail<T>(a: seq<T>, b: seq<T>)
    requires a != [] && b != [] && a[0] == b[0] && a[1..] == b[1..]
    ensures a == b
  {
    assert a == [a[0]] + a[1..] && b == [b[0]] + b[1..];
  }

  lemma SameTails<T>(a: seq<T>, b: seq<T>)
    requires a != [] && b != [] && a[0] == b[0] && multiset(a) == multiset(b)
    ensures multiset(a[1..]) == multiset(b[1..])
  {
    var ta, tb := a[1..], b[1..];
    First(a);
    First(b);
    SameRest(multiset(ta), multiset(tb), a[0]);
  }

  lemma First<T>(s: seq<T>)
    requires s != []
    ensures multiset(s) == multiset(s[1..]) + multiset{s[0]}
  {
    assert s == [s[0]] + s[1..];
  }

  lemma SameElements<T>(a: seq<T>, b: seq<T>)
    requires multiset(a) == multiset(b)
    ensures |a| == |b| && (a != [] ==> a[0] in b && b[0] in a)
  {
    assert |multiset(a)| == |a| && |multiset(b)| == |b|;
    if a != [] {
      assert a[0] in multiset(a) && b[0] in multiset(b);
    }
  }

  lemma OrderedRest(a: seq<Position>)
    requires Ordered(a) && a != []
    ensures Ordered(a[1..])
  {
  }

  lemma SameFirst(a: seq<Position>, b: seq<Position>)
    requires a != [] && b != [] && Ordered(a) && Ordered(b) && a[0] in b && b[0] in a
    ensures a[0] == b[0]
  {
    assert NotAfterPosition(a[0], b[0]);
    assert NotAfterPosition(b[0], a[0]);
  }

  lemma {:induction false} StartsOfPermutation(a: seq<Diagnostic>, b: seq<Diagnostic>)
    requires multiset(a) == multiset(b)
    ensures multiset(Starts(a)) == multiset(Starts(b))
    decreases |a|
  {
    hide *;
    SameElements(a, b);
    if a == [] {
      assert a == b;
    } else {
      var k := Removal(a, b);
      var rest := b[..k] + b[k + 1..];
      StartsOfPermutation(a[1..], rest);
      StartsFirst(a);
      StartsSplit(b, k);
    }
  }

  lemma Without<T>(s: seq<T>, k: nat)
    requires k < |s|
    ensures multiset(s) == multiset(s[..k] + s[k + 1..]) + multiset{s[k]}
  {
    assert s == s[..k] + [s[k]] + s[k + 1..];
  }

  lemma Removal(a: seq<Diagnostic>, b: seq<Diagnostic>) returns (k: nat)
    requires a != [] && multiset(a) == multiset(b)
    ensures k < |b| && b[k] == a[0] && multiset(a[1..]) == multiset(b[..k] + b[k + 1..])
  {
    assert a[0] in multiset(b);
    k :| k < |b| && b[k] == a[0];
    First(a);
    Without(b, k);
    var ra, rb := a[1..], b[..k] + b[k + 1..];
    SameRest(multiset(ra), multiset(rb), a[0]);
  }

  lemma SameRest<T>(a: multiset<T>, b: multiset<T>, x: T)
    requires a + multiset{x} == b + multiset{x}
    ensures a == b
  {
    assert a == a + multiset{x} - multiset{x};
  }

  lemma StartsSplit(ds: seq<Diagnostic>, k: nat)
    requires k < |ds|
    ensures multiset(Starts(ds)) == multiset(Starts(ds[..k] + ds[k + 1..])) + multiset{ds[k].range.start}
  {
    Without(Starts(ds), k);
    assert Starts(ds[..k] + ds[k + 1..]) == Starts(ds)[..k] + Starts(ds)[k + 1..];
  }

  lemma StartsFirst(ds: seq<Diagnostic>)
    requires ds != []
    ensures multiset(Starts(ds)) == multiset(Starts(ds[1..])) + multiset{ds[0].range.start}
  {
    hide Starts;
    StartsSplit(ds, 0);
    assert ds[..0] + ds[1..] == ds[1..];
  }

  /** Main theorem: whatever the interleavings, two runs that return publish diagnostics at the same
      positions in the same order, by line and then by character. */
  lemma PublishedOrderIsFixed(out: seq<seq<Diagnostic>>, run1: seq<Action>, run2: seq<Action>,
                              sorted1: seq<Diagnostic>, sorted2: seq<Diagnostic>)
    requires Possible(out, run1) && After(out, run1).collector.Returned?
    requires Possible(out, run2) && After(out, run2).collector.Returned?
    requires SortOf(sorted1, After(out, run1).collector.diagnostics)
    requires SortOf(sorted2, After(out, run2).collector.diagnostics)
    ensures multiset(sorted1) == multiset(Flatten(out)) && multiset(sorted2) == multiset(Flatten(out))
    ensures Starts(sorted1) == Starts(sorted2)
    ensures forall i, j :: 0 <= i < j < |sorted1| ==> NotAfterPosition(sorted1[i].range.start, sorted1[j].range.start)
  {
    hide Possible, After, Flatten, Ordered, Starts, SortOf;
    SortedStarts(sorted1, After(out, run1).collector.diagnostics);
    OrderedStarts(sorted1);
    SortedStarts(sorted2, After(out, run2).collector.diagnostics);
    ReturnsAllDiagnostics(out, run1);
    ReturnsAllDiagnostics(out, run2);
    StartsOfPermutation(sorted1, sorted2);
    OrderedUnique(Starts(sorted1), Starts(sorted2));
  }
}
