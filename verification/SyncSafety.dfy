/** What every interleaving keeps for a file that is opened again only above its earlier versions: events
    and copies never run ahead of it. */
module SyncSafety {
  import opened Options
  import opened FileStore
  import opened FileRuns
  import opened SyncProtocol

  // ---------------------------------------------------------------- the invariant

  predicate InFlight(s: State, e: Event) {
    s.handler == Pushing(e) || e in s.queue || (s.worker.Busy() && s.worker.event == e)
  }

  /** The store held this file at some point of the run. */
  ghost predicate WasStored(c: Config, log: seq<Op>, uri: Uri, snap: Snapshot) {
    exists n :: 0 <= n <= |log| && StoredAfter(c, log, n, uri, snap)
  }

  ghost predicate StoredAfter(c: Config, log: seq<Op>, n: nat, uri: Uri, snap: Snapshot)
    requires n <= |log|
  {
    var store := StoreRun(c.env, map[], log[..n]);
    uri in store && store[uri] == snap
  }

  /** The store is what the accepted requests make of it, and the file's version was sent. */
  ghost predicate LogKept(c: Config, s: State, uri: Uri) {
    && s.store == StoreRun(c.env, map[], s.log)
    && (uri in s.store ==> Sent(s.log, uri, s.store[uri].version))
  }

  /** An event never runs ahead of its file. */
  ghost predicate EventKept(s: State, e: Event) {
    && Sent(s.log, e.uri, e.version)
    && (e.uri in s.store ==> e.version <= s.store[e.uri].version)
  }

  ghost predicate EventsKept(s: State, uri: Uri) {
    forall e :: InFlight(s, e) && e.uri == uri ==> EventKept(s, e)
  }

  /** A copy in the worker's hands is a former or the present state of its file. */
  ghost predicate CopyKept(c: Config, s: State, uri: Uri, snap: Snapshot) {
    && WasStored(c, s.log, uri, snap)
    && Sent(s.log, uri, snap.version)
    && (uri in s.store ==>
          && snap.version <= s.store[uri].version
          && (snap.version == s.store[uri].version ==> snap == s.store[uri]))
  }

  ghost predicate WorkerKept(c: Config, s: State, uri: Uri) {
    s.worker.Holds() && s.worker.event.uri == uri ==>
      && CopyKept(c, s, uri, s.worker.snap)
      && !s.worker.snap.skip
      && s.worker.event.version <= s.worker.snap.version
      && (s.worker.Publishing? && s.worker.seen.Some? ==> s.worker.snap.version == s.worker.event.version)
  }

  ghost predicate PublicationSound(c: Config, log: seq<Op>, p: Publication) {
    && p.report == Diagnose(c, p.source)
    && !p.source.skip
    && WasStored(c, log, p.uri, p.source)
    && (p.seen.Some? ==> p.source.version == p.version)
  }

  ghost predicate PublishedKept(c: Config, s: State, uri: Uri) {
    forall p :: p in s.published && p.uri == uri ==> PublicationSound(c, s.log, p)
  }

  ghost predicate Inv(c: Config, s: State, uri: Uri) {
    LogKept(c, s, uri) && EventsKept(s, uri) && WorkerKept(c, s, uri) && PublishedKept(c, s, uri)
  }

  // ---------------------------------------------------------------- requests

  lemma StoredGrows(c: Config, log: seq<Op>, op: Op, uri: Uri, snap: Snapshot)
    requires WasStored(c, log, uri, snap)
    ensures WasStored(c, log + [op], uri, snap)
  {
    var n :| 0 <= n <= |log| && StoredAfter(c, log, n, uri, snap);
    assert (log + [op])[..n] == log[..n];
    assert StoredAfter(c, log + [op], n, uri, snap);
  }

  lemma StoredNow(c: Config, s: State, uri: Uri)
    requires LogKept(c, s, uri) && uri in s.store
    ensures WasStored(c, s.log, uri, s.store[uri])
  {
    assert s.log[..|s.log|] == s.log;
    assert StoredAfter(c, s.log, |s.log|, uri, s.store[uri]);
  }

  /** What one accepted request does to one file. */
  lemma RequestOn(c: Config, s: State, op: Op, uri: Uri)
    requires Perform(c.env, s.store, op).1 == Fine && FreshOpens(s.log + [op], uri)
    ensures var after := StoreAfter(c.env, s.store, op);
            && (uri in s.store && uri in after ==>
                  after[uri].version >= s.store[uri].version
                  && (after[uri].version == s.store[uri].version ==> after[uri] == s.store[uri]))
            && (uri !in s.store && uri in after ==> op.Opened? && op.uri == uri)
            && (Sends(op, uri) ==> (uri in after && after[uri].version >= op.version))
            && (op.Opened? && op.uri == uri ==> uri !in s.store && after[uri].version == op.version)
            && (uri in after && after[uri] != (if uri in s.store then s.store[uri] else NEW_FILE) ==>
                  Sends(op, uri) && after[uri].version == op.version)
  {
    hide SkipFile;
    FreshPrefix(s.log, op, uri);
    StepOn(c.env, s.store, op, uri);
    if uri in s.store && uri in StoreAfter(c.env, s.store, op) {
      StepMonotone(c.env, s.store, op, uri);
    }
  }

  /** The state after an accepted request. */
  function Requested(c: Config, s: State, op: Op, next: Handler): State {
    s.(store := StoreAfter(c.env, s.store, op), handler := next, log := s.log + [op])
  }

  lemma LogStep(c: Config, s: State, op: Op, next: Handler, uri: Uri)
    requires LogKept(c, s, uri) && FreshOpens(s.log + [op], uri) && Perform(c.env, s.store, op).1 == Fine
    ensures LogKept(c, Requested(c, s, op, next), uri)
  {
    hide StoreAfter, Sent, Perform, FreshOpens;
    var t := Requested(c, s, op, next);
    assert t.log[..|t.log| - 1] == s.log;
    RequestOn(c, s, op, uri);
    if uri in s.store && uri in t.store && t.store[uri] == s.store[uri] {
      SentGrows(s.log, op, uri, s.store[uri].version);
    } else if uri in t.store {
      SentLast(s.log, op);
    }
  }

  lemma EventStep(c: Config, s: State, op: Op, next: Handler, e: Event)
    requires EventKept(s, e) && FreshOpens(s.log + [op], e.uri) && Perform(c.env, s.store, op).1 == Fine
    ensures EventKept(Requested(c, s, op, next), e)
  {
    hide StoreAfter, Sent, Perform, FreshOpens;
    SentGrows(s.log, op, e.uri, e.version);
    RequestOn(c, s, op, e.uri);
    FreshPrefix(s.log, op, e.uri);
  }

  lemma NewEvent(c: Config, s: State, op: Op, e: Event)
    requires !op.Closed? && e.uri == op.uri && e.version == op.version
    requires FreshOpens(s.log + [op], e.uri) && Perform(c.env, s.store, op).1 == Fine
    ensures EventKept(Requested(c, s, op, Pushing(e)), e)
  {
    hide StoreAfter, Sent, Perform, FreshOpens;
    SentLast(s.log, op);
    RequestOn(c, s, op, e.uri);
  }

  lemma CopyStep(c: Config, s: State, op: Op, next: Handler, uri: Uri, snap: Snapshot)
    requires CopyKept(c, s, uri, snap) && FreshOpens(s.log + [op], uri) && Perform(c.env, s.store, op).1 == Fine
    ensures CopyKept(c, Requested(c, s, op, next), uri, snap)
  {
    hide StoreAfter, Sent, Perform, FreshOpens, WasStored;
    StoredGrows(c, s.log, op, uri, snap);
    SentGrows(s.log, op, uri, snap.version);
    RequestOn(c, s, op, uri);
    FreshPrefix(s.log, op, uri);
  }

  /** An accepted request and the event that announces it. */
  predicate Announces(op: Op, next: Handler) {
    match next
    case Idle => op.Closed?
    case Pushing(e) => !op.Closed? && e.uri == op.uri && e.version == op.version
  }

  lemma RequestStep(c: Config, s: State, op: Op, next: Handler, uri: Uri)
    requires Inv(c, s, uri) && s.handler.Idle? && Announces(op, next)
    requires FreshOpens(s.log + [op], uri) && Perform(c.env, s.store, op).1 == Fine
    ensures Inv(c, Requested(c, s, op, next), uri)
  {
    hide StoreAfter, Perform, FreshOpens, EventKept, CopyKept, LogKept, PublicationSound;
    var t := Requested(c, s, op, next);
    LogStep(c, s, op, next, uri);
    forall e | InFlight(t, e) && e.uri == uri ensures EventKept(t, e) {
      if next == Pushing(e) {
        NewEvent(c, s, op, e);
      } else {
        assert InFlight(s, e);
        EventStep(c, s, op, next, e);
      }
    }
    if s.worker.Holds() && s.worker.event.uri == uri {
      CopyStep(c, s, op, next, uri, s.worker.snap);
    }
    forall p | p in t.published && p.uri == uri ensures PublicationSound(c, t.log, p) {
      PublicationStep(c, s.log, op, p);
    }
  }

  lemma PublicationStep(c: Config, log: seq<Op>, op: Op, p: Publication)
    requires PublicationSound(c, log, p)
    ensures PublicationSound(c, log + [op], p)
  {
    StoredGrows(c, log, op, p.uri, p.source);
  }

  // ---------------------------------------------------------------- steps between client messages

  lemma ReadFirstKept(c: Config, s: State, uri: Uri)
    requires Inv(c, s, uri) && s.worker.Got?
    ensures Inv(c, Apply(c, s, FirstRead), uri)
  {
    hide StoreRun, Sent, WasStored, PublicationSound;
    var t := Apply(c, s, FirstRead);
    var e := s.worker.event;
    assert InFlight(s, e);
    if e.uri == uri && uri in s.store {
      assert EventKept(s, e);
      StoredNow(c, s, uri);
    }
    assert forall d :: InFlight(t, d) ==> InFlight(s, d);
  }

  lemma OtherStepKept(c: Config, s: State, a: Action, uri: Uri)
    requires Inv(c, s, uri) && Enabled(s, a) && !a.FromClient() && !a.FirstRead?
    ensures Inv(c, Apply(c, s, a), uri)
  {
    hide StoreRun, Sent, WasStored;
    var t := Apply(c, s, a);
    assert forall d :: InFlight(t, d) ==> InFlight(s, d);
    if a.Publish? && s.worker.event.uri == uri {
      assert PublicationSound(c, s.log, Published(c, s.worker));
    }
  }

  function OpOf(a: Action): Option<Op> {
    match a
    case DidOpen(lang, uri, text, version) => if lang == LANGUAGE then Some(Opened(uri, text, version)) else None
    case DidChange(uri, texts, version) => if |texts| == 1 then Some(Changed(uri, texts[0], version)) else None
    case DidClose(uri) => Some(Closed(uri))
    case _ => None
  }

  function NextOf(a: Action): Handler {
    match a
    case DidOpen(_, uri, text, version) => Pushing(Event(uri, version, text))
    case DidChange(uri, texts, version) => if |texts| == 1 then Pushing(Event(uri, version, texts[0])) else Idle
    case _ => Idle
  }

  /** A client message does nothing, or it is an accepted request with its event. */
  lemma ClientStep(c: Config, s: State, a: Action)
    requires Enabled(s, a) && a.FromClient()
    ensures OpOf(a).Some? ==> Announces(OpOf(a).value, NextOf(a))
    ensures Apply(c, s, a) ==
            if OpOf(a).Some? && Perform(c.env, s.store, OpOf(a).value).1 == Fine
            then Requested(c, s, OpOf(a).value, NextOf(a)) else s
  {
    hide Perform;
  }

  lemma StepKept(c: Config, s: State, a: Action, uri: Uri)
    requires Inv(c, s, uri) && Enabled(s, a) && FreshOpens(Apply(c, s, a).log, uri)
    ensures Inv(c, Apply(c, s, a), uri)
  {
    if a.FromClient() {
      ClientStep(c, s, a);
      hide Inv, Apply, Perform, FreshOpens;
      if Apply(c, s, a) != s {
        RequestStep(c, s, OpOf(a).value, NextOf(a), uri);
      }
    } else {
      hide Inv, FreshOpens;
      if a.FirstRead? {
        ReadFirstKept(c, s, uri);
      } else {
        OtherStepKept(c, s, a, uri);
      }
    }
  }

  lemma StartKept(c: Config, uri: Uri)
    ensures Inv(c, START, uri)
  {
  }

  lemma {:induction false} RunKept(c: Config, actions: seq<Action>, uri: Uri)
    requires Possible(c, START, actions) && FreshOpens(After(c, START, actions).log, uri)
    ensures Inv(c, After(c, START, actions), uri)
  {
    hide Inv, Apply, Enabled, FreshOpens;
    if actions == [] {
      StartKept(c, uri);
    } else {
      var s := After(c, START, actions[..|actions| - 1]);
      var a := actions[|actions| - 1];
      LogGrows(c, s, a, uri);
      RunKept(c, actions[..|actions| - 1], uri);
      StepKept(c, s, a, uri);
    }
  }

  lemma LogGrows(c: Config, s: State, a: Action, uri: Uri)
    requires Enabled(s, a) && FreshOpens(Apply(c, s, a).log, uri)
    ensures s.log <= Apply(c, s, a).log && FreshOpens(s.log, uri)
  {
    if a.FromClient() {
      ClientStep(c, s, a);
      hide Apply, Perform, FreshOpens;
      if Apply(c, s, a) != s {
        FreshPrefix(s.log, OpOf(a).value, uri);
      }
    } else {
      hide FreshOpens;
    }
  }
}
