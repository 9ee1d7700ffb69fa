/** Where publications come from: in every run each one belongs to a request, a copy taken later, and a
    second read later still, with no more events in between than the queue can hold. */
module SyncHistory {
  import opened Options
  import opened FileStore
  import opened SyncProtocol
  import opened SyncSafety
  import opened SyncTexts

  // ---------------------------------------------------------------- events of a log

  function EventOf(op: Op): Event
    requires !op.Closed?
  {
    Event(op.uri, op.version, op.content)
  }

  /** The events that these requests send, in order. */
  function SendEvents(log: seq<Op>): seq<Event> {
    if log == [] then []
    else SendEvents(log[..|log| - 1]) + (if log[|log| - 1].Closed? then [] else [EventOf(log[|log| - 1])])
  }

  lemma SendEventsSnoc(log: seq<Op>, op: Op)
    ensures SendEvents(log + [op]) == SendEvents(log) + (if op.Closed? then [] else [EventOf(op)])
  {
    assert (log + [op])[..|log|] == log;
  }

  lemma {:induction false} SendEventsAppend(a: seq<Op>, b: seq<Op>)
    ensures SendEvents(a + b) == SendEvents(a) + SendEvents(b)
    decreases |b|
  {
    hide *;
    NoEvents();
    if b == [] {
      assert a + b == a;
      assert SendEvents(a) + [] == SendEvents(a);
    } else {
      var init, last := b[..|b| - 1], b[|b| - 1];
      SendEventsAppend(a, init);
      SendEventsSnoc(a + init, last);
      SendEventsSnoc(init, last);
      assert b == init + [last] && a + b == (a + init) + [last];
    }
  }

  lemma NoEvents()
    ensures SendEvents([]) == []
  {
  }

  /** Request i sends this event. */
  predicate Carries(log: seq<Op>, i: nat, e: Event) {
    i < |log| && !log[i].Closed? && EventOf(log[i]) == e
  }

  predicate EndsIn(all: seq<Event>, tail: seq<Event>) {
    |tail| <= |all| && all[|all| - |tail|..] == tail
  }

  lemma CarriesLonger(log: seq<Op>, op: Op, i: nat, e: Event)
    requires Carries(log, i, e)
    ensures Carries(log + [op], i, e)
    ensures |SendEvents((log + [op])[i + 1..])| == |SendEvents(log[i + 1..])| + if op.Closed? then 0 else 1
  {
    hide SendEvents;
    assert (log + [op])[i + 1..] == log[i + 1..] + [op];
    SendEventsSnoc(log[i + 1..], op);
  }

  lemma CarriesLast(log: seq<Op>, op: Op)
    requires !op.Closed?
    ensures Carries(log + [op], |log|, EventOf(op)) && SendEvents((log + [op])[|log| + 1..]) == []
  {
    assert (log + [op])[|log| + 1..] == [];
  }

  lemma EndsInLast(all: seq<Event>, last: Event, e: Event)
    requires EndsIn(all + [last], [e])
    ensures last == e
  {
    var more := all + [last];
    assert more[|more| - 1..] == [last];
  }

  /** The request that sends an event with so many more behind it. */
  lemma {:induction false} FindRequest(log: seq<Op>, e: Event, rest: seq<Event>) returns (i: nat)
    requires EndsIn(SendEvents(log), [e] + rest)
    ensures Carries(log, i, e) && |SendEvents(log[i + 1..])| == |rest|
  {
    NoEvents();
    assert log != [] by {
      hide SendEvents;
    }
    hide *;
    var init, last := log[..|log| - 1], log[|log| - 1];
    assert log == init + [last];
    SendEventsSnoc(init, last);
    if last.Closed? {
      assert SendEvents(init) + [] == SendEvents(init);
      i := FindRequest(init, e, rest);
      CarriesLonger(init, last, i, e);
    } else if rest == [] {
      assert [e] + rest == [e];
      EndsInLast(SendEvents(init), EventOf(last), e);
      i := |init|;
      CarriesLast(init, last);
    } else {
      var fewer := rest[..|rest| - 1];
      EndsInInit(SendEvents(init), EventOf(last), [e] + rest);
      assert ([e] + rest)[..|rest|] == [e] + fewer;
      i := FindRequest(init, e, fewer);
      CarriesLonger(init, last, i, e);
    }
  }

  lemma EndsInInit(all: seq<Event>, last: Event, tail: seq<Event>)
    requires EndsIn(all + [last], tail) && |tail| > 1
    ensures EndsIn(all, tail[..|tail| - 1]) && tail[|tail| - 1] == last
  {
    var more := all + [last];
    assert tail[|tail| - 1] == more[|more| - 1];
    assert all[|all| - (|tail| - 1)..] == more[|more| - |tail|..][..|tail| - 1];
  }

  // ---------------------------------------------------------------- where a publication comes from

  /** The publication answers request i with a copy of the file as it was after k requests; after n
      requests the second read found seen. Until the last of these, at most as many events were sent as
      the queue can hold. */
  ghost predicate Arises(c: Config, log: seq<Op>, p: Publication, i: nat, k: nat, n: nat) {
    && i < k <= n <= |log|
    && Sends(log[i], p.uri) && log[i].version == p.version
    && StoredAfter(c, log, k, p.uri, p.source) && !p.source.skip
    && p.report == Diagnose(c, p.source)
    && p.seen == Stored(c, log, n, p.uri)
    && (p.seen.Some? ==> p.seen.value.version == p.version)
    && (n > i + 1 ==> |SendEvents(log[i + 1..n - 1])| <= QUEUE_CAPACITY)
  }

  /** The file after n requests, if it is open. */
  function Stored(c: Config, log: seq<Op>, n: nat, uri: Uri): Option<Snapshot>
    requires n <= |log|
  {
    var store := StoreRun(c.env, map[], log[..n]);
    if uri in store then Some(store[uri]) else None
  }

  ghost predicate CanArise(c: Config, log: seq<Op>, p: Publication) {
    exists i: nat, k: nat, n: nat :: Arises(c, log, p, i, k, n)
  }

  lemma CanAriseGrows(c: Config, log: seq<Op>, op: Op, p: Publication)
    requires CanArise(c, log, p)
    ensures CanArise(c, log + [op], p)
  {
    hide SendEvents, StoreRun, Diagnose;
    var i: nat, k: nat, n: nat :| Arises(c, log, p, i, k, n);
    var all := log + [op];
    assert all[..k] == log[..k] && all[..n] == log[..n];
    assert n > i + 1 ==> all[i + 1..n - 1] == log[i + 1..n - 1];
    assert Arises(c, all, p, i, k, n);
  }

  // ---------------------------------------------------------------- what every run keeps

  /** Events that are pushed or to be pushed. */
  function Backlog(s: State): seq<Event> {
    s.queue + (if s.handler.Pushing? then [s.handler.event] else [])
  }

  function Unserved(s: State): seq<Event> {
    (if s.worker.Busy() then [s.worker.event] else []) + Backlog(s)
  }

  /** The copy was taken after k requests for the event of request i, behind which this many events
      were sent so far. */
  ghost predicate TakenAt(c: Config, log: seq<Op>, e: Event, snap: Snapshot, behind: nat, i: nat, k: nat) {
    && i < k <= |log|
    && Carries(log, i, e)
    && StoredAfter(c, log, k, e.uri, snap) && !snap.skip
    && |SendEvents(log[i + 1..])| == behind
  }

  ghost predicate Taken(c: Config, log: seq<Op>, e: Event, snap: Snapshot, behind: nat) {
    exists i: nat, k: nat :: TakenAt(c, log, e, snap, behind, i, k)
  }

  ghost predicate WorkerHistory(c: Config, s: State) {
    match s.worker
    case Reading(e, snap) => Taken(c, s.log, e, snap, |Backlog(s)|)
    case Publishing(_, _, _) => CanArise(c, s.log, Published(c, s.worker))
    case _ => true
  }

  ghost predicate QueueHistory(s: State) {
    && |s.queue| <= QUEUE_CAPACITY
    && EndsIn(SendEvents(s.log), Unserved(s))
    && (s.handler.Pushing? ==> s.log != [] && Carries(s.log, |s.log| - 1, s.handler.event))
  }

  ghost predicate PublishedHistory(c: Config, s: State) {
    forall p :: p in s.published ==> CanArise(c, s.log, p)
  }

  ghost predicate History(c: Config, s: State) {
    && s.store == StoreRun(c.env, map[], s.log)
    && QueueHistory(s)
    && WorkerHistory(c, s)
    && PublishedHistory(c, s)
  }

  // ---------------------------------------------------------------- requests

  lemma EndsInMore(all: seq<Event>, tail: seq<Event>, e: Event)
    requires EndsIn(all, tail)
    ensures EndsIn(all + [e], tail + [e])
  {
    var more := all + [e];
    assert more[|more| - |tail| - 1..] == all[|all| - |tail|..] + [e];
  }

  /** The log's last request and the event that is being pushed fit together. */
  predicate Follows(op: Op, next: Handler) {
    if op.Closed? then next == Idle else next == Pushing(EventOf(op))
  }

  lemma QueueRequest(c: Config, s: State, op: Op, next: Handler)
    requires QueueHistory(s) && s.handler.Idle? && Follows(op, next)
    ensures QueueHistory(Requested(c, s, op, next))
    ensures |Backlog(Requested(c, s, op, next))| == |Backlog(s)| + (if op.Closed? then 0 else 1)
  {
    hide SendEvents, StoreAfter, EndsIn;
    var t := Requested(c, s, op, next);
    SendEventsSnoc(s.log, op);
    if op.Closed? {
      assert SendEvents(s.log) + [] == SendEvents(s.log);
    } else {
      EndsInMore(SendEvents(s.log), Unserved(s), EventOf(op));
      assert s.queue + [] == s.queue;
      assert Unserved(t) == Unserved(s) + [EventOf(op)];
    }
  }

  lemma TakenGrows(c: Config, log: seq<Op>, op: Op, e: Event, snap: Snapshot, behind: nat)
    requires Taken(c, log, e, snap, behind)
    ensures Taken(c, log + [op], e, snap, behind + if op.Closed? then 0 else 1)
  {
    hide SendEvents, StoreRun;
    var i: nat, k: nat :| TakenAt(c, log, e, snap, behind, i, k);
    var all := log + [op];
    assert all[..k] == log[..k];
    assert all[i + 1..] == log[i + 1..] + [op];
    SendEventsSnoc(log[i + 1..], op);
    assert TakenAt(c, all, e, snap, behind + if op.Closed? then 0 else 1, i, k);
  }

  lemma RequestHistory(c: Config, s: State, op: Op, next: Handler)
    requires History(c, s) && s.handler.Idle? && Follows(op, next)
    ensures History(c, Requested(c, s, op, next))
  {
    hide QueueHistory, CanArise, Taken, StoreRun, StoreAfter, Backlog, Diagnose;
    var t := Requested(c, s, op, next);
    StoreSnoc(c, s.log, op);
    QueueRequest(c, s, op, next);
    match s.worker {
      case Reading(e, snap) => TakenGrows(c, s.log, op, e, snap, |Backlog(s)|);
      case Publishing(_, _, _) => CanAriseGrows(c, s.log, op, Published(c, s.worker));
      case _ =>
    }
    forall p | p in t.published ensures CanArise(c, t.log, p) {
      CanAriseGrows(c, s.log, op, p);
    }
  }

  // ---------------------------------------------------------------- steps between requests

  lemma EndsInLess(all: seq<Event>, e: Event, tail: seq<Event>)
    requires EndsIn(all, [e] + tail)
    ensures EndsIn(all, tail)
  {
    assert all[|all| - |tail|..] == all[|all| - |tail| - 1..][1..];
  }

  lemma QueueStep(c: Config, s: State, a: Action)
    requires QueueHistory(s) && Enabled(s, a) && !a.FromClient()
    ensures QueueHistory(Apply(c, s, a))
    ensures a.Push? || a.Launch? || a.FirstRead? || a.SecondRead? ==> |Backlog(Apply(c, s, a))| == |Backlog(s)|
  {
    hide SendEvents, EndsIn, Diagnose;
    var t := Apply(c, s, a);
    if s.worker.Busy() && !t.worker.Busy() {
      EndsInLess(SendEvents(s.log), s.worker.event, Backlog(s));
    }
    assert [] + Backlog(s) == Backlog(s);
    if a.Push? {
      assert s.queue + [s.handler.event] + [] == s.queue + [s.handler.event];
      assert Backlog(t) == Backlog(s);
    } else if a.Take? {
      assert s.queue == [s.queue[0]] + s.queue[1..];
      assert Unserved(t) == Backlog(s);
    }
    assert Unserved(t) == Unserved(s) || (!t.worker.Busy() && Unserved(t) == Backlog(s));
  }

  lemma FirstReadHistory(c: Config, s: State)
    requires History(c, s) && s.worker.Got?
    ensures WorkerHistory(c, Apply(c, s, FirstRead))
  {
    hide SendEvents, StoreRun, EndsIn, Diagnose;
    var e, t := s.worker.event, Apply(c, s, FirstRead);
    if t.worker.Reading? {
      var i := FindRequest(s.log, e, Backlog(s));
      assert s.log[..|s.log|] == s.log;
      assert TakenAt(c, s.log, e, t.worker.snap, |Backlog(s)|, i, |s.log|);
    }
  }

  /** Before its last request, no more events than the queue holds were sent behind the worker's. */
  lemma BehindBounded(s: State, i: nat)
    requires QueueHistory(s) && i < |s.log| && |SendEvents(s.log[i + 1..])| == |Backlog(s)|
    ensures |s.log| > i + 1 ==> |SendEvents(s.log[i + 1..|s.log| - 1])| <= QUEUE_CAPACITY
  {
    hide SendEvents, EndsIn;
    if |s.log| > i + 1 {
      var front, last := s.log[i + 1..|s.log| - 1], s.log[|s.log| - 1];
      assert s.log[i + 1..] == front + [last];
      SendEventsSnoc(front, last);
    }
  }

  lemma SecondReadHistory(c: Config, s: State)
    requires History(c, s) && s.worker.Reading?
    ensures WorkerHistory(c, Apply(c, s, SecondRead))
  {
    hide SendEvents, StoreRun, Diagnose, EndsIn;
    var t := Apply(c, s, SecondRead);
    if t.worker.Publishing? {
      var e, snap := s.worker.event, s.worker.snap;
      var i: nat, k: nat :| TakenAt(c, s.log, e, snap, |Backlog(s)|, i, k);
      BehindBounded(s, i);
      assert s.log[..|s.log|] == s.log;
      assert Arises(c, s.log, Published(c, t.worker), i, k, |s.log|);
    }
  }

  lemma StepHistory(c: Config, s: State, a: Action)
    requires History(c, s) && Enabled(s, a) && !a.FromClient()
    ensures History(c, Apply(c, s, a))
  {
    QueueStep(c, s, a);
    if a.FirstRead? {
      FirstReadHistory(c, s);
    } else if a.SecondRead? {
      SecondReadHistory(c, s);
    }
    hide QueueHistory, CanArise, Taken, StoreRun, Backlog, Diagnose;
  }

  lemma ClientHistory(c: Config, s: State, a: Action)
    requires History(c, s) && Enabled(s, a) && a.FromClient()
    ensures History(c, Apply(c, s, a))
  {
    ClientStep(c, s, a);
    ClientFollows(s, a);
    hide History, Apply, Perform;
    if Apply(c, s, a) != s {
      RequestHistory(c, s, OpOf(a).value, NextOf(a));
    }
  }

  lemma ClientFollows(s: State, a: Action)
    requires Enabled(s, a) && a.FromClient()
    ensures s.handler.Idle? && (OpOf(a).Some? ==> Follows(OpOf(a).value, NextOf(a)))
  {
  }

  lemma StartHistory(c: Config)
    ensures History(c, START)
  {
  }

  /** In every run, failures included, every publication arises from the accepted requests. */
  lemma {:induction false} RunHistory(c: Config, run: seq<Action>)
    requires Possible(c, START, run)
    ensures History(c, After(c, START, run))
  {
    hide History, Enabled, Apply;
    if run == [] {
      StartHistory(c);
    } else {
      var s, a := After(c, START, run[..|run| - 1]), run[|run| - 1];
      RunHistory(c, run[..|run| - 1]);
      if a.FromClient() {
        ClientHistory(c, s, a);
      } else {
        StepHistory(c, s, a);
      }
    }
  }
}
