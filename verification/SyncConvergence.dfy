/** Liveness of the protocol: left alone, it comes to rest unless its worker hangs, and then every open
    file's last publication is current. */
module SyncConvergence {
  import opened Options
  import opened FileStore
  import opened FileRuns
  import opened SyncProtocol
  import opened SyncSafety
  import opened SyncTexts
  import opened SyncHistory

  // ---------------------------------------------------------------- coming to rest

  predicate Quiescent(s: State) {
    s.handler.Idle? && s.queue == [] && s.worker.Waiting?
  }

  /** An upper bound on the steps that are left without new client messages. */
  function Work(s: State): nat {
    (if s.handler.Pushing? then 6 else 0) + 5 * |s.queue|
    + match s.worker
      case NotStarted => 1
      case Waiting => 0
      case Got(_) => 4
      case Reading(_, _) => 3
      case Publishing(_, _, _) => 2
      case Hung => 0
  }

  predicate Internal(actions: seq<Action>) {
    forall i :: 0 <= i < |actions| ==> !actions[i].FromClient() && !actions[i].Fails()
  }

  lemma WorkShrinks(c: Config, s: State, a: Action)
    requires Enabled(s, a) && !a.FromClient()
    ensures Work(Apply(c, s, a)) < Work(s)
  {
  }

  /** Some step is possible until the system is at rest: a full queue never blocks both sides. */
  function NextStep(s: State): (a: Action)
    requires !Quiescent(s) && !s.worker.Hung? && |s.queue| <= QUEUE_CAPACITY
    ensures Enabled(s, a) && !a.FromClient() && !a.Fails()
  {
    match s.worker
    case NotStarted => Launch
    case Waiting => if s.queue != [] then Take else Push
    case Got(_) => FirstRead
    case Reading(_, _) => SecondRead
    case Publishing(_, _, _) => Publish
  }

  lemma Snoc(c: Config, s: State, run: seq<Action>, a: Action)
    requires Possible(c, s, run) && Enabled(After(c, s, run), a)
    ensures Possible(c, s, run + [a]) && After(c, s, run + [a]) == Apply(c, After(c, s, run), a)
  {
    hide Enabled, Apply;
    assert (run + [a])[..|run|] == run;
  }

  lemma Unsnoc(c: Config, s: State, run: seq<Action>, a: Action)
    requires Possible(c, s, run + [a])
    ensures Possible(c, s, run) && Enabled(After(c, s, run), a)
    ensures After(c, s, run + [a]) == Apply(c, After(c, s, run), a)
  {
    hide Enabled, Apply;
    assert (run + [a])[..|run|] == run;
  }

  /** Without client messages no run goes on for longer than the work that is left. */
  lemma {:induction false} InternalWork(c: Config, run: seq<Action>, more: seq<Action>)
    requires Possible(c, START, run) && Possible(c, START, run + more)
    requires forall i :: 0 <= i < |more| ==> !more[i].FromClient()
    ensures |more| + Work(After(c, START, run + more)) <= Work(After(c, START, run))
  {
    if more == [] {
      assert run + more == run;
    } else {
      hide Apply, Enabled, Work, Possible, After;
      var init, a := more[..|more| - 1], more[|more| - 1];
      assert run + more == (run + init) + [a];
      Unsnoc(c, START, run + init, a);
      InternalWork(c, run, init);
      WorkShrinks(c, After(c, START, run + init), a);
    }
  }

  lemma {:induction false} QueueBounded(c: Config, run: seq<Action>)
    requires Possible(c, START, run)
    ensures |After(c, START, run).queue| <= QUEUE_CAPACITY
  {
    if run != [] {
      QueueBounded(c, run[..|run| - 1]);
    }
  }

  /** Left alone after any run in which the worker does not hang, the system comes to rest without losing
      anything. */
  lemma {:induction false} ComesToRest(c: Config, run: seq<Action>) returns (more: seq<Action>)
    requires Possible(c, START, run) && !After(c, START, run).worker.Hung?
    ensures Possible(c, START, run + more) && Internal(more)
    ensures var s, t := After(c, START, run), After(c, START, run + more);
            Quiescent(t) && t.store == s.store && t.log == s.log && t.failures == s.failures
    ensures After(c, START, run).published <= After(c, START, run + more).published
    decreases Work(After(c, START, run))
  {
    hide Apply, Enabled, Work, Quiescent, Possible, After;
    var s := After(c, START, run);
    if Quiescent(s) {
      more := [];
      assert run + more == run;
    } else {
      QueueBounded(c, run);
      var a := NextStep(s);
      WorkShrinks(c, s, a);
      Snoc(c, START, run, a);
      StepKeepsStore(c, s, a);
      var rest := ComesToRest(c, run + [a]);
      more := [a] + rest;
      assert (run + [a]) + rest == run + more;
    }
  }

  lemma StepKeepsStore(c: Config, s: State, a: Action)
    requires Enabled(s, a) && !a.FromClient() && !a.Fails() && !s.worker.Hung?
    ensures var t := Apply(c, s, a);
            t.store == s.store && t.log == s.log && t.failures == s.failures && !t.worker.Hung? && s.published <= t.published
  {
  }

  // ---------------------------------------------------------------- nothing is forgotten

  /** The event announces the file's present version. */
  predicate Announced(s: State, uri: Uri, e: Event)
    requires uri in s.store
  {
    e.uri == uri && e.version == s.store[uri].version
  }

  predicate Ahead(s: State, uri: Uri)
    requires uri in s.store
  {
    (s.handler.Pushing? && Announced(s, uri, s.handler.event))
    || exists k :: 0 <= k < |s.queue| && Announced(s, uri, s.queue[k])
  }

  /** The worker holds an event for the file's present version, and a copy, if it has one, is the file. */
  ghost predicate InWorker(s: State, uri: Uri)
    requires uri in s.store
  {
    s.worker.Busy() && Announced(s, uri, s.worker.event) && (s.worker.Holds() ==> s.worker.snap == s.store[uri])
  }

  function LastFor(published: seq<Publication>, uri: Uri): Option<Publication> {
    if published == [] then None
    else if published[|published| - 1].uri == uri then Some(published[|published| - 1])
    else LastFor(published[..|published| - 1], uri)
  }

  /** The last publication shows the file as it is. */
  ghost predicate UpToDate(s: State, uri: Uri)
    requires uri in s.store
  {
    var last := LastFor(s.published, uri);
    last.Some? && last.value.version == s.store[uri].version && last.value.source == s.store[uri]
  }

  /** And what the worker has in hand for the file would not change that. */
  ghost predicate Settled(s: State, uri: Uri)
    requires uri in s.store
  {
    && UpToDate(s, uri)
    && (s.worker.Holds() && s.worker.event.uri == uri ==>
          && s.worker.snap == s.store[uri]
          && (s.worker.Publishing? ==> s.worker.event.version == s.store[uri].version))
  }

  ghost predicate Covered(s: State, uri: Uri)
    requires uri in s.store
  {
    Ahead(s, uri) || InWorker(s, uri) || Settled(s, uri)
  }

  /** The file is open, not skipped, and has a version that a client can have meant: below 0 are only the
      blank files of refused first versions. */
  predicate Shown(s: State, uri: Uri) {
    uri in s.store && !s.store[uri].skip && s.store[uri].version >= 0
  }

  ghost predicate AllCovered(s: State) {
    forall u :: Shown(s, u) ==> Covered(s, u)
  }

  lemma RequestCovered(c: Config, s: State, op: Op, next: Handler)
    requires AllCovered(s) && s.handler.Idle? && Announces(op, next)
    ensures AllCovered(Requested(c, s, op, next))
  {
    hide StoreAfter, UpToDate;
    var t := Requested(c, s, op, next);
    forall u | Shown(t, u) ensures Covered(t, u) {
      if u in s.store && t.store[u] == s.store[u] {
        assert Covered(s, u);
        SameUpToDate(s, t, u);
      } else {
        NewVersionAnnounced(c, s, op, u);
      }
    }
  }

  lemma SameUpToDate(s: State, t: State, u: Uri)
    requires u in s.store && u in t.store && s.store[u] == t.store[u] && s.published == t.published
    ensures UpToDate(s, u) == UpToDate(t, u)
  {
  }

  lemma NewVersionAnnounced(c: Config, s: State, op: Op, u: Uri)
    requires u in StoreAfter(c.env, s.store, op) && StoreAfter(c.env, s.store, op)[u].version >= 0
    requires u in s.store ==> StoreAfter(c.env, s.store, op)[u] != s.store[u]
    ensures Sends(op, u) && StoreAfter(c.env, s.store, op)[u].version == op.version
  {
    hide StoreAfter, SkipFile;
    StepOn(c.env, s.store, op, u);
  }

  lemma LastForSnoc(published: seq<Publication>, p: Publication, uri: Uri)
    ensures LastFor(published + [p], uri) == if p.uri == uri then Some(p) else LastFor(published, uri)
  {
    assert (published + [p])[..|published|] == published;
  }

  lemma PublishCovered(c: Config, s: State, u: Uri)
    requires s.worker.Publishing? && u in s.store && Covered(s, u)
    ensures Covered(Apply(c, s, Publish), u)
  {
    hide LastFor, Diagnose;
    LastForSnoc(s.published, Published(c, s.worker), u);
  }

  lemma ReadCovered(c: Config, s: State, a: Action, u: Uri)
    requires Enabled(s, a) && (a.FirstRead? || a.SecondRead?)
    requires u in s.store && !s.store[u].skip && Covered(s, u)
    ensures Covered(Apply(c, s, a), u)
  {
    hide LastFor;
    var t := Apply(c, s, a);
    assert UpToDate(s, u) == UpToDate(t, u);
    assert Ahead(s, u) ==> Ahead(t, u);
  }

  lemma MoveCovered(c: Config, s: State, a: Action, u: Uri)
    requires Enabled(s, a) && (a.Push? || a.Launch? || a.Take?)
    requires u in s.store && Covered(s, u)
    ensures Covered(Apply(c, s, a), u)
  {
    hide UpToDate;
    var t := Apply(c, s, a);
    SameUpToDate(s, t, u);
    if a.Push? {
      assert forall k :: 0 <= k < |s.queue| ==> t.queue[k] == s.queue[k];
      assert t.queue[|s.queue|] == s.handler.event;
    }
    if a.Take? {
      assert forall k :: 1 <= k < |s.queue| ==> t.queue[k - 1] == s.queue[k];
    }
  }

  lemma InternalCovered(c: Config, s: State, a: Action)
    requires AllCovered(s) && Enabled(s, a) && !a.FromClient() && !a.Fails()
    ensures AllCovered(Apply(c, s, a))
  {
    InternalKeepsStore(c, s, a);
    hide Covered, Apply, Enabled;
    forall u | Shown(Apply(c, s, a), u) ensures Covered(Apply(c, s, a), u) {
      assert Shown(s, u);
      match a
      case Publish => PublishIs(s); PublishCovered(c, s, u);
      case FirstRead => ReadCovered(c, s, a, u);
      case SecondRead => ReadCovered(c, s, a, u);
      case _ => MoveCovered(c, s, a, u);
    }
  }

  lemma PublishIs(s: State)
    requires Enabled(s, Publish)
    ensures s.worker.Publishing?
  {
  }

  lemma {:induction false} RunCovered(c: Config, actions: seq<Action>)
    requires Possible(c, START, actions) && After(c, START, actions).failures == 0
    ensures AllCovered(After(c, START, actions))
  {
    hide Apply, Enabled, AllCovered, Perform;
    if actions == [] {
      StartCovered();
    } else {
      var init := actions[..|actions| - 1];
      var s := After(c, START, init);
      var a := actions[|actions| - 1];
      NoFailure(c, s, a);
      RunCovered(c, init);
      if a.FromClient() {
        EnabledIdle(s, a);
        ClientStep(c, s, a);
        if Apply(c, s, a) != s {
          RequestCovered(c, s, OpOf(a).value, NextOf(a));
        }
      } else {
        InternalCovered(c, s, a);
      }
    }
  }

  lemma StartCovered()
    ensures AllCovered(START)
  {
  }

  lemma EnabledIdle(s: State, a: Action)
    requires Enabled(s, a) && a.FromClient()
    ensures s.handler.Idle?
  {
  }

  lemma NoFailure(c: Config, s: State, a: Action)
    requires Enabled(s, a) && Apply(c, s, a).failures == 0
    ensures s.failures == 0 && !a.Fails()
  {
  }

  /** Main theorem: in every run without failures that has come to rest, the last publication for
      every open file that is not skipped carries its version and the diagnostics of its text, however
      often and with whatever versions it and other files were closed and opened again. */
  lemma RestIsUpToDate(c: Config, actions: seq<Action>, uri: Uri)
    requires Possible(c, START, actions)
    requires After(c, START, actions).failures == 0 && Quiescent(After(c, START, actions))
    ensures var s := After(c, START, actions);
            Shown(s, uri) ==>
              var last := LastFor(s.published, uri);
              && last.Some?
              && last.value.version == s.store[uri].version
              && last.value.report == ReportOf(c, s.store[uri].content)
  {
    hide *;
    RunCovered(c, actions);
    RunHistory(c, actions);
    LogAccepted(c, actions);
    var s := After(c, START, actions);
    if Shown(s, uri) {
      RestSettled(s, uri);
      RunCoherent(c.env, s.log, uri);
      ShownCoherent(c, s, uri);
      LastForIn(s.published, uri);
      PublishedReport(c, s, LastFor(s.published, uri).value);
      CoherentReport(c, uri, s.store[uri]);
    }
  }

  lemma RestSettled(s: State, uri: Uri)
    requires Quiescent(s) && AllCovered(s) && Shown(s, uri)
    ensures uri in s.store && !s.store[uri].skip
    ensures var last := LastFor(s.published, uri);
            last.Some? && last.value.version == s.store[uri].version && last.value.source == s.store[uri]
  {
    assert Covered(s, uri);
  }

  lemma ShownCoherent(c: Config, s: State, uri: Uri)
    requires CoherentAt(c.env, s.store, uri) && Shown(s, uri)
    ensures Coherent(c.env, uri, s.store[uri])
  {
    hide Coherent;
  }

  lemma PublishedReport(c: Config, s: State, p: Publication)
    requires History(c, s) && p in s.published
    ensures p.report == Diagnose(c, p.source)
  {
    assert CanArise(c, s.log, p);
    hide Diagnose, SendEvents, StoreRun;
  }

  lemma {:induction false} LastForIn(published: seq<Publication>, uri: Uri)
    requires LastFor(published, uri).Some?
    ensures LastFor(published, uri).value in published && LastFor(published, uri).value.uri == uri
  {
    if published[|published| - 1].uri != uri {
      LastForIn(published[..|published| - 1], uri);
    }
  }

  /** Whatever has happened, as long as nothing failed: left alone, the system shows every open file
      as it is. */
  lemma LeftAloneCatchesUp(c: Config, run: seq<Action>, uri: Uri) returns (more: seq<Action>)
    requires Possible(c, START, run) && After(c, START, run).failures == 0
    ensures Possible(c, START, run + more) && Internal(more)
    ensures |more| <= Work(After(c, START, run))
    ensures var s, t := After(c, START, run), After(c, START, run + more);
            Shown(s, uri) ==>
              var last := LastFor(t.published, uri);
              && last.Some?
              && last.value.version == s.store[uri].version
              && last.value.report == ReportOf(c, s.store[uri].content)
  {
    hide *;
    NotHung(c, run);
    more := ComesToRest(c, run);
    InternalNoClient(more);
    InternalWork(c, run, more);
    RestIsUpToDate(c, run + more, uri);
    SameShown(After(c, START, run), After(c, START, run + more), uri);
  }

  lemma SameShown(s: State, t: State, uri: Uri)
    requires s.store == t.store
    ensures Shown(s, uri) <==> Shown(t, uri)
    ensures Shown(s, uri) ==> uri in s.store
  {
  }

  lemma {:induction false} NotHung(c: Config, run: seq<Action>)
    requires Possible(c, START, run) && After(c, START, run).failures == 0
    ensures !After(c, START, run).worker.Hung?
  {
    if run != [] {
      NotHung(c, run[..|run| - 1]);
    }
  }

  lemma InternalNoClient(more: seq<Action>)
    requires Internal(more)
    ensures forall i :: 0 <= i < |more| ==> !more[i].FromClient()
  {
  }
}
