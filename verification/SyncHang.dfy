/** What becomes of the server when a goroutine of a diagnosis panics: the worker waits for ever, nothing
    is published again, and after a few more requests the handler is blocked for good. */
module SyncHang {
  import opened Options
  import opened FileStore
  import opened SyncProtocol
  import opened SyncSafety
  import opened SyncTexts
  import opened SyncHistory
  import opened SyncConvergence
  import opened SyncReach
  import opened SyncVersions

  // ---------------------------------------------------------------- for ever

  /** A worker that hangs does so in every continuation, and publishes nothing more. */
  lemma {:induction false} HungForever(c: Config, run: seq<Action>, more: seq<Action>)
    requires Possible(c, START, run) && Possible(c, START, run + more) && After(c, START, run).worker.Hung?
    ensures After(c, START, run + more).worker.Hung?
    ensures After(c, START, run + more).published == After(c, START, run).published
    decreases |more|
  {
    hide Apply, Enabled, Possible, After;
    if more == [] {
      assert run + more == run;
    } else {
      var init, a := more[..|more| - 1], more[|more| - 1];
      assert run + more == (run + init) + [a];
      Unsnoc(c, START, run + init, a);
      HungForever(c, run, init);
      HungStep(c, After(c, START, run + init), a);
    }
  }

  lemma HungStep(c: Config, s: State, a: Action)
    requires Enabled(s, a) && s.worker.Hung?
    ensures Apply(c, s, a).worker.Hung? && Apply(c, s, a).published == s.published
  {
    hide Perform, Published;
  }

  /** Main theorem: left alone after a run, the system can come to rest if and only if its worker does not
      hang. */
  lemma RestsExactly(c: Config, run: seq<Action>)
    requires Possible(c, START, run)
    ensures (exists more :: Possible(c, START, run + more) && Internal(more) && Quiescent(After(c, START, run + more)))
            <==> !After(c, START, run).worker.Hung?
  {
    hide Possible, After, Internal;
    if After(c, START, run).worker.Hung? {
      forall more | Possible(c, START, run + more) ensures !Quiescent(After(c, START, run + more)) {
        HungForever(c, run, more);
      }
    } else {
      var more := ComesToRest(c, run);
    }
  }

  // ---------------------------------------------------------------- the handler

  /** Nothing can happen any more. */
  ghost predicate Stuck(s: State) {
    forall a :: !Enabled(s, a)
  }

  /** With a worker that hangs, nothing can happen exactly when the queue and the handler are full. */
  lemma StuckExactly(c: Config, run: seq<Action>)
    requires Possible(c, START, run) && After(c, START, run).worker.Hung?
    ensures |Backlog(After(c, START, run))| <= QUEUE_CAPACITY + 1
    ensures Stuck(After(c, START, run)) <==> |Backlog(After(c, START, run))| == QUEUE_CAPACITY + 1
  {
    QueueBounded(c, run);
    hide Possible, After;
    var s := After(c, START, run);
    if s.handler.Idle? {
      assert Enabled(s, DidClose(""));
    } else if |s.queue| < QUEUE_CAPACITY {
      assert Enabled(s, Push);
    }
  }

  /** The requests that a continuation accepts. */
  function Since(log: seq<Op>, more: seq<Op>): seq<Op>
    requires log <= more
  {
    more[|log|..]
  }

  lemma {:induction false} HungBacklog(c: Config, run: seq<Action>, more: seq<Action>)
    requires Possible(c, START, run) && Possible(c, START, run + more) && After(c, START, run).worker.Hung?
    ensures After(c, START, run).log <= After(c, START, run + more).log
    ensures |Backlog(After(c, START, run + more))| ==
            |Backlog(After(c, START, run))| + |SendEvents(Since(After(c, START, run).log, After(c, START, run + more).log))|
    decreases |more|
  {
    hide Apply, Enabled, Possible, After, SendEvents, Backlog;
    var log := After(c, START, run).log;
    if more == [] {
      assert run + more == run;
      assert Since(log, log) == [];
      NoEvents();
    } else {
      var init, a := more[..|more| - 1], more[|more| - 1];
      assert run + more == (run + init) + [a];
      Unsnoc(c, START, run + init, a);
      HungForever(c, run, init);
      HungBacklog(c, run, init);
      var s := After(c, START, run + init);
      var op := BacklogStep(c, s, a);
      if op.Some? {
        assert Since(log, s.log + [op.value]) == Since(log, s.log) + [op.value];
        SendEventsSnoc(Since(log, s.log), op.value);
      }
    }
  }

  lemma BacklogStep(c: Config, s: State, a: Action) returns (op: Option<Op>)
    requires Enabled(s, a) && s.worker.Hung?
    ensures var t := Apply(c, s, a);
            if op.None? then t.log == s.log && |Backlog(t)| == |Backlog(s)|
            else t.log == s.log + [op.value] && |Backlog(t)| == |Backlog(s)| + if op.value.Closed? then 0 else 1
  {
    hide Perform;
    op := None;
    if a.FromClient() {
      ClientStep(c, s, a);
      if OpOf(a).Some? && Perform(c.env, s.store, OpOf(a).value).1 == Fine {
        op := OpOf(a);
      }
    }
  }

  /** Main theorem: after the hang the server accepts at most as many more opens and changes as the queue
      has room for and one; with the last of them it is stuck, and so is it only then. */
  lemma HandlerBlocks(c: Config, run: seq<Action>, more: seq<Action>)
    requires Possible(c, START, run) && Possible(c, START, run + more) && After(c, START, run).worker.Hung?
    ensures var s, t := After(c, START, run), After(c, START, run + more);
            && s.log <= t.log
            && |SendEvents(Since(s.log, t.log))| <= QUEUE_CAPACITY + 1 - |Backlog(s)|
            && (Stuck(t) <==> |SendEvents(Since(s.log, t.log))| == QUEUE_CAPACITY + 1 - |Backlog(s)|)
  {
    hide Possible, After, SendEvents, Backlog, Stuck, Since;
    HungForever(c, run, more);
    HungBacklog(c, run, more);
    StuckExactly(c, run + more);
  }

  // ---------------------------------------------------------------- when it can happen

  /** At some point of these requests the store has a file whose diagnosis starts goroutines. */
  ghost predicate CanHang(c: Config, log: seq<Op>) {
    exists n: nat, uri: Uri :: HangsAt(c, log, n, uri)
  }

  predicate HangsAt(c: Config, log: seq<Op>, n: nat, uri: Uri) {
    n <= |log| && var a := Stored(c, log, n, uri); a.Some? && !a.value.skip && HasGoroutines(a.value)
  }

  ghost predicate Hangs(c: Config, log: seq<Op>) {
    exists run: seq<Action> :: Possible(c, START, run) && After(c, START, run).log <= log && After(c, START, run).worker.Hung?
  }

  lemma HangsLater(c: Config, log: seq<Op>, more: seq<Op>)
    requires log <= more && CanHang(c, log)
    ensures CanHang(c, more)
  {
    hide StoreRun;
    var n: nat, uri: Uri :| HangsAt(c, log, n, uri);
    assert more[..n] == log[..n];
    assert HangsAt(c, more, n, uri);
  }

  lemma {:induction false} HungCanHang(c: Config, run: seq<Action>)
    requires Possible(c, START, run) && After(c, START, run).worker.Hung?
    ensures CanHang(c, After(c, START, run).log)
  {
    hide CanHang, Apply, Enabled;
    var init, a := run[..|run| - 1], run[|run| - 1];
    var s := After(c, START, init);
    LogNotShorter(c, s, a);
    if s.worker.Hung? {
      HungCanHang(c, init);
      HangsLater(c, s.log, After(c, START, run).log);
    } else {
      HangStep(c, s, a);
      RunHistory(c, init);
      HangFromHistory(c, s);
    }
  }

  lemma HangStep(c: Config, s: State, a: Action)
    requires Enabled(s, a) && !s.worker.Hung? && Apply(c, s, a).worker.Hung?
    ensures s.worker.Reading? && HasGoroutines(s.worker.snap) && Apply(c, s, a).log == s.log
  {
    hide Perform;
  }

  lemma HangFromHistory(c: Config, s: State)
    requires History(c, s) && s.worker.Reading? && HasGoroutines(s.worker.snap)
    ensures CanHang(c, s.log)
  {
    hide SendEvents, StoreRun, EndsIn, Diagnose;
    var i: nat, k: nat :| TakenAt(c, s.log, s.worker.event, s.worker.snap, |Backlog(s)|, i, k);
    assert HangsAt(c, s.log, k, s.worker.event.uri);
  }

  lemma HangReached(c: Config, log: seq<Op>, n: nat, uri: Uri) returns (run: seq<Action>)
    requires AllAccepted(c, log) && HangsAt(c, log, n, uri)
    ensures Possible(c, START, run) && After(c, START, run).log <= log && After(c, START, run).worker.Hung?
  {
    hide Possible, After, StoreRun, AllAccepted, Changes, Stored;
    NothingStored(c, log, uri);
    var j := LastChange(c, log, 0, n, uri);
    ChangeIs(c, log, j, uri);
    var a := Stored(c, log, j + 1, uri).value;
    StoredIs(c, log, j + 1, uri);
    run := TakenUp(c, log, j);
    ThroughStore(c, log, j + 1, run);
    run := ReadAfterFeed(c, log, j + 1, run, EventOf(log[j]), a);
    Snoc(c, START, run, Hang);
    run := run + [Hang];
    assert log[..j + 1] <= log;
  }

  /** Main theorem: if any goroutine may panic, some run of these requests hangs if and only if they put a
      file into the store that is not skipped, is parsed without an error and has an object. */
  lemma HangsExactly(c: Config, log: seq<Op>)
    requires AllAccepted(c, log)
    ensures Hangs(c, log) <==> CanHang(c, log)
  {
    hide Possible, After, AllAccepted, HangsAt;
    if Hangs(c, log) {
      var run: seq<Action> :| Possible(c, START, run) && After(c, START, run).log <= log && After(c, START, run).worker.Hung?;
      HungCanHang(c, run);
      HangsLater(c, After(c, START, run).log, log);
    }
    if CanHang(c, log) {
      var n: nat, uri: Uri :| HangsAt(c, log, n, uri);
      var run := HangReached(c, log, n, uri);
    }
  }
}
