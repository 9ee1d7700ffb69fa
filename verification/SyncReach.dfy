/** And the other way round: every publication that the requests allow does occur in some run. */
module SyncReach {
  import opened FileStore
  import opened SyncProtocol
  import opened SyncSafety
  import opened SyncTexts
  import opened SyncConvergence
  import opened SyncHistory

  /** The client message behind a request. */
  function ActionOf(op: Op): Action {
    match op
    case Opened(uri, content, version) => DidOpen(LANGUAGE, uri, content, version)
    case Changed(uri, content, version) => DidChange(uri, [content], version)
    case Closed(uri) => DidClose(uri)
  }

  function NextFor(op: Op): Handler {
    if op.Closed? then Idle else Pushing(EventOf(op))
  }

  /** The run has come through the first m requests. */
  predicate Through(c: Config, log: seq<Op>, m: nat, run: seq<Action>)
    requires m <= |log|
  {
    Possible(c, START, run) && After(c, START, run).log == log[..m]
  }

  lemma ThroughStore(c: Config, log: seq<Op>, m: nat, run: seq<Action>)
    requires m <= |log| && Through(c, log, m, run)
    ensures After(c, START, run).store == StoreRun(c.env, map[], log[..m])
  {
    LogAccepted(c, run);
  }

  lemma ActionAccepted(c: Config, s: State, op: Op)
    requires s.handler.Idle? && Perform(c.env, s.store, op).1 == Fine
    ensures Enabled(s, ActionOf(op)) && Apply(c, s, ActionOf(op)) == Requested(c, s, op, NextFor(op))
  {
    hide Perform;
  }

  /** One more request, when the handler is idle. */
  lemma NextRequest(c: Config, log: seq<Op>, m: nat, run: seq<Action>) returns (more: seq<Action>)
    requires AllAccepted(c, log) && m < |log| && Through(c, log, m, run)
    requires After(c, START, run).handler.Idle?
    ensures Through(c, log, m + 1, more)
    ensures var s, t := After(c, START, run), After(c, START, more);
            t == s.(store := t.store, handler := NextFor(log[m]), log := log[..m + 1])
  {
    hide Possible, After, Enabled, Apply, Perform, StoreAfter;
    var s := After(c, START, run);
    assert AcceptedAt(c, log, m);
    ThroughStore(c, log, m, run);
    ActionAccepted(c, s, log[m]);
    Snoc(c, START, run, ActionOf(log[m]));
    assert log[..m] + [log[m]] == log[..m + 1];
    more := run + [ActionOf(log[m])];
  }

  /** A run through the first m requests that does not hang goes on to serve the first t, and rests. */
  lemma {:induction false} RestOn(c: Config, log: seq<Op>, m: nat, t: nat, run: seq<Action>) returns (more: seq<Action>)
    requires AllAccepted(c, log) && m <= t <= |log| && Through(c, log, m, run) && !After(c, START, run).worker.Hung?
    ensures Through(c, log, t, more) && Quiescent(After(c, START, more))
    ensures After(c, START, run).published <= After(c, START, more).published
    decreases t
  {
    hide Possible, After, AllAccepted;
    more := run;
    if t > m {
      more := RestOn(c, log, m, t - 1, run);
      more := NextRequest(c, log, t - 1, more);
    }
    var rest := ComesToRest(c, more);
    more := more + rest;
  }

  /** Some run has served the first m requests and is at rest. */
  lemma RestAfter(c: Config, log: seq<Op>, m: nat) returns (run: seq<Action>)
    requires AllAccepted(c, log) && m <= |log|
    ensures Through(c, log, m, run) && Quiescent(After(c, START, run))
  {
    hide Possible, After, AllAccepted;
    NothingRun(c);
    assert log[..0] == [];
    run := RestOn(c, log, 0, m, []);
  }

  lemma NothingRun(c: Config)
    ensures Possible(c, START, []) && After(c, START, []) == START
  {
  }

  /** At rest, request i comes in, and the worker takes its event. */
  lemma TakeNext(c: Config, log: seq<Op>, i: nat, run: seq<Action>) returns (more: seq<Action>)
    requires AllAccepted(c, log) && i < |log| && !log[i].Closed?
    requires Through(c, log, i, run) && Quiescent(After(c, START, run))
    ensures Through(c, log, i + 1, more) && After(c, START, more).published == After(c, START, run).published
    ensures var s := After(c, START, more);
            s.handler.Idle? && s.queue == [] && s.worker == Got(EventOf(log[i]))
  {
    hide Possible, After, AllAccepted;
    more := NextRequest(c, log, i, run);
    Snoc(c, START, more, Push);
    more := more + [Push];
    Snoc(c, START, more, Take);
    more := more + [Take];
  }

  /** Some run is at rest but for the worker, which has just taken the event of request i. */
  lemma TakenUp(c: Config, log: seq<Op>, i: nat) returns (run: seq<Action>)
    requires AllAccepted(c, log) && i < |log| && !log[i].Closed?
    ensures Through(c, log, i + 1, run)
    ensures var s := After(c, START, run);
            s.handler.Idle? && s.queue == [] && s.worker == Got(EventOf(log[i]))
  {
    hide Possible, After, AllAccepted;
    run := RestAfter(c, log, i);
    run := TakeNext(c, log, i, run);
  }

  /** The worker stays where it is while the requests up to t come in; the queue has room for them. */
  lemma {:induction false} Feed(c: Config, log: seq<Op>, i: nat, m: nat, t: nat, run: seq<Action>) returns (more: seq<Action>)
    requires AllAccepted(c, log) && i < m <= t <= |log| && Through(c, log, m, run)
    requires |Backlog(After(c, START, run))| == |SendEvents(log[i + 1..m])|
    requires t > m ==> |SendEvents(log[i + 1..t - 1])| <= QUEUE_CAPACITY
    ensures Through(c, log, t, more)
    ensures After(c, START, more).worker == After(c, START, run).worker
    ensures |Backlog(After(c, START, more))| == |SendEvents(log[i + 1..t])|
    decreases t
  {
    hide Possible, After, AllAccepted, SendEvents;
    if t == m {
      more := run;
    } else {
      var last := log[t - 1];
      assert log[i + 1..t] == log[i + 1..t - 1] + [last];
      SendEventsSnoc(log[i + 1..t - 1], last);
      if t - 1 > m {
        assert log[i + 1..t - 1] == log[i + 1..t - 2] + [log[t - 2]];
        SendEventsSnoc(log[i + 1..t - 2], log[t - 2]);
      }
      more := Feed(c, log, i, m, t - 1, run);
      if After(c, START, more).handler.Pushing? {
        Snoc(c, START, more, Push);
        more := more + [Push];
      }
      more := NextRequest(c, log, t - 1, more);
    }
  }

  lemma {:induction false} FewerEvents(log: seq<Op>, i: nat, k: nat, n: nat)
    requires i <= k <= n <= |log|
    ensures |SendEvents(log[i..k])| <= |SendEvents(log[i..n])|
  {
    assert log[i..n] == log[i..k] + log[k..n];
    SendEventsAppend(log[i..k], log[k..n]);
  }

  lemma NoBacklog(log: seq<Op>, s: State, i: nat)
    requires i < |log| && s.queue == [] && s.handler.Idle?
    ensures |Backlog(s)| == |SendEvents(log[i + 1..i + 1])|
  {
    assert log[i + 1..i + 1] == [];
  }

  lemma ArisesParts(c: Config, log: seq<Op>, p: Publication, i: nat, k: nat, n: nat)
    requires Arises(c, log, p, i, k, n)
    ensures i < k <= n <= |log| && !log[i].Closed?
    ensures EventOf(log[i]).uri == p.uri && EventOf(log[i]).version == p.version
    ensures StoredAfter(c, log, k, p.uri, p.source) && !p.source.skip
    ensures n > i + 1 ==> |SendEvents(log[i + 1..n - 1])| <= QUEUE_CAPACITY
    ensures p.report == Diagnose(c, p.source) && p.seen == Stored(c, log, n, p.uri)
    ensures p.seen.Some? ==> p.seen.value.version == p.version
  {
    hide StoredAfter, SendEvents, Diagnose, Stored;
  }

  /** The worker takes its copy after k requests. */
  lemma ReadAfterFeed(c: Config, log: seq<Op>, k: nat, run: seq<Action>, e: Event, snap: Snapshot) returns (more: seq<Action>)
    requires k <= |log| && Through(c, log, k, run) && After(c, START, run).worker == Got(e)
    requires After(c, START, run).store == StoreRun(c.env, map[], log[..k])
    requires StoredAfter(c, log, k, e.uri, snap) && !snap.skip
    ensures Through(c, log, k, more) && After(c, START, more).worker == Reading(e, snap)
    ensures Backlog(After(c, START, more)) == Backlog(After(c, START, run))
    ensures After(c, START, more).published == After(c, START, run).published
  {
    hide Possible, After, StoreRun;
    Snoc(c, START, run, FirstRead);
    more := run + [FirstRead];
  }

  /** The worker reads the version after n requests and publishes. */
  lemma PublishAfterFeed(c: Config, log: seq<Op>, n: nat, run: seq<Action>, e: Event, p: Publication) returns (more: seq<Action>)
    requires n <= |log| && Through(c, log, n, run) && After(c, START, run).worker == Reading(e, p.source)
    requires After(c, START, run).store == StoreRun(c.env, map[], log[..n])
    requires e.uri == p.uri && e.version == p.version
    requires p.report == Diagnose(c, p.source) && p.seen == Stored(c, log, n, p.uri)
    requires p.seen.Some? ==> p.seen.value.version == p.version
    ensures Through(c, log, n, more) && After(c, START, more).worker.Waiting?
    ensures After(c, START, more).published == After(c, START, run).published + [p]
  {
    hide Possible, After, StoreRun, Diagnose;
    Snoc(c, START, run, SecondRead);
    more := run + [SecondRead];
    Snoc(c, START, more, Publish);
    more := more + [Publish];
  }

  /** Whatever arises from requests that were all accepted is published in some run through the first
      n of them. */
  lemma Occurs(c: Config, log: seq<Op>, p: Publication, i: nat, k: nat, n: nat) returns (run: seq<Action>)
    requires AllAccepted(c, log) && Arises(c, log, p, i, k, n)
    ensures Through(c, log, n, run) && p in After(c, START, run).published
  {
    hide Arises, SendEvents, Possible, After, StoreRun, Diagnose, Stored, StoredAfter, AllAccepted, Backlog, Carries, Sends;
    ArisesParts(c, log, p, i, k, n);
    var e := EventOf(log[i]);
    run := TakenUp(c, log, i);
    NoBacklog(log, After(c, START, run), i);
    if k > i + 1 && n > k {
      FewerEvents(log, i + 1, k - 1, n - 1);
    }
    run := Feed(c, log, i, i + 1, k, run);
    ThroughStore(c, log, k, run);
    run := ReadAfterFeed(c, log, k, run, e, p.source);
    run := Feed(c, log, i, k, n, run);
    ThroughStore(c, log, n, run);
    run := PublishAfterFeed(c, log, n, run, e, p);
  }
}
