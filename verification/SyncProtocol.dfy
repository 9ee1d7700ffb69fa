/** The document protocol as a machine: one thread handles client messages and pushes events into
    a bounded queue, one worker takes them out, reads a copy of the file, diagnoses it, reads the
    version again and publishes. Every interleaving is a sequence of actions. */
module SyncProtocol {
  import opened Options
  import opened FileStore
  import opened FileRuns

  /** A sorted list of diagnostics; left open. */
  type Report(==, 0, !new)

  /** Diagnosing looks at the error if there is one, and at the parsed file otherwise. */
  datatype Config = Config(
    env: Environment,
    broken: (ParseError, string) -> Report,
    full: (Option<Tree>, seq<Object>) -> Report)

  function Diagnose(c: Config, s: Snapshot): Report {
    if s.err != NoError then c.broken(s.err, s.content) else c.full(s.tree, s.objects)
  }

  const LANGUAGE := "yaml"
  const QUEUE_CAPACITY := 10

  // ---------------------------------------------------------------- states

  datatype Event = Event(uri: Uri, version: int, text: string)

  datatype Handler = Idle | Pushing(event: Event)

  /** The worker between its steps; seen is the file as the second read found it, if it was open. Hung is
      the wait for the diagnostics of an object whose goroutine panicked: nothing ends it. */
  datatype Worker =
    | NotStarted
    | Waiting
    | Got(event: Event)
    | Reading(event: Event, snap: Snapshot)
    | Publishing(event: Event, snap: Snapshot, seen: Option<Snapshot>)
    | Hung
  {
    predicate Busy() {
      Got? || Reading? || Publishing?
    }

    predicate Holds() {
      Reading? || Publishing?
    }
  }

  /** The report was computed from source; seen is the file as it was just before, if it was open. */
  datatype Publication =
    Publication(uri: Uri, version: int, report: Report, source: Snapshot, seen: Option<Snapshot>)

  /** The log has every request that the store accepted, failures the recovered panics and lost
      notifications. */
  datatype State = State(
    store: Store,
    handler: Handler,
    queue: seq<Event>,
    worker: Worker,
    published: seq<Publication>,
    log: seq<Op>,
    failures: nat)

  const START := State(map[], Idle, [], NotStarted, [], [], 0)

  // ---------------------------------------------------------------- steps

  datatype Action =
    | DidOpen(lang: string, uri: Uri, text: string, version: int)
    | DidChange(uri: Uri, texts: seq<string>, version: int)
    | DidClose(uri: Uri)
    | Push
    | Launch
    | Take
    | FirstRead
    | SecondRead
    | Publish
    | Fail
    | Hang
  {
    predicate FromClient() {
      DidOpen? || DidChange? || DidClose?
    }

    predicate Fails() {
      Fail? || Hang?
    }
  }

  /** Only the diagnosis of a file that was parsed starts goroutines, one for each object. */
  predicate HasGoroutines(snap: Snapshot) {
    snap.err == NoError && snap.objects != []
  }

  predicate Enabled(s: State, a: Action) {
    match a
    case DidOpen(_, _, _, _) => s.handler.Idle?
    case DidChange(_, _, _) => s.handler.Idle?
    case DidClose(_) => s.handler.Idle?
    case Push => s.handler.Pushing? && |s.queue| < QUEUE_CAPACITY
    case Launch => s.worker.NotStarted?
    case Take => s.worker.Waiting? && s.queue != []
    case FirstRead => s.worker.Got?
    case SecondRead => s.worker.Reading?
    case Publish => s.worker.Publishing?
    case Fail => s.worker.Busy()
    case Hang => s.worker.Reading? && HasGoroutines(s.worker.snap)
  }

  /** A request for the store, and the event that follows if the store accepts it. */
  function Request(c: Config, s: State, op: Op, next: Handler): State {
    var (store, err) := Perform(c.env, s.store, op);
    if err == Fine then s.(store := store, handler := next, log := s.log + [op]) else s
  }

  function HandleDidOpen(c: Config, s: State, lang: string, uri: Uri, text: string, version: int): State {
    if lang != LANGUAGE then s
    else Request(c, s, Opened(uri, text, version), Pushing(Event(uri, version, text)))
  }

  function HandleDidChange(c: Config, s: State, uri: Uri, texts: seq<string>, version: int): State {
    if |texts| != 1 then s
    else Request(c, s, Changed(uri, texts[0], version), Pushing(Event(uri, version, texts[0])))
  }

  function HandleDidClose(c: Config, s: State, uri: Uri): State {
    Request(c, s, Closed(uri), Idle)
  }

  /** The snapshot is taken, or there is nothing to diagnose. */
  function ReadFirst(s: State): Worker
    requires s.worker.Got?
  {
    var e := s.worker.event;
    if e.uri !in s.store || s.store[e.uri].skip then Waiting else Reading(e, s.store[e.uri])
  }

  /** The version is looked at again; a file that is gone does not stop the publication. */
  function ReadSecond(s: State): Worker
    requires s.worker.Reading?
  {
    var e := s.worker.event;
    if e.uri in s.store && s.store[e.uri].version != e.version then Waiting
    else Publishing(e, s.worker.snap, if e.uri in s.store then Some(s.store[e.uri]) else None)
  }

  function Published(c: Config, w: Worker): Publication
    requires w.Publishing?
  {
    Publication(w.event.uri, w.event.version, Diagnose(c, w.snap), w.snap, w.seen)
  }

  function Apply(c: Config, s: State, a: Action): State
    requires Enabled(s, a)
  {
    match a
    case DidOpen(lang, uri, text, version) => HandleDidOpen(c, s, lang, uri, text, version)
    case DidChange(uri, texts, version) => HandleDidChange(c, s, uri, texts, version)
    case DidClose(uri) => HandleDidClose(c, s, uri)
    case Push => s.(queue := s.queue + [s.handler.event], handler := Idle)
    case Launch => s.(worker := Waiting)
    case Take => s.(worker := Got(s.queue[0]), queue := s.queue[1..])
    case FirstRead => s.(worker := ReadFirst(s))
    case SecondRead => s.(worker := ReadSecond(s))
    case Publish => s.(worker := Waiting, published := s.published + [Published(c, s.worker)])
    case Fail => s.(worker := Waiting, failures := s.failures + 1)
    case Hang => s.(worker := Hung, failures := s.failures + 1)
  }

  /** These actions can happen in this order. */
  predicate Possible(c: Config, s: State, actions: seq<Action>)
    decreases |actions|, 0
  {
    actions == [] ||
    (Possible(c, s, actions[..|actions| - 1])
     && Enabled(After(c, s, actions[..|actions| - 1]), actions[|actions| - 1]))
  }

  function After(c: Config, s: State, actions: seq<Action>): State
    requires Possible(c, s, actions)
    decreases |actions|, 1
  {
    if actions == [] then s
    else Apply(c, After(c, s, actions[..|actions| - 1]), actions[|actions| - 1])
  }

  // ---------------------------------------------------------------- what the client promises

  predicate Sends(op: Op, uri: Uri) {
    !op.Closed? && op.uri == uri
  }

  /** This file's versions start at 0 or above, and when it is opened again it starts above all versions
      it had before. */
  predicate FreshOpens(log: seq<Op>, uri: Uri) {
    forall j :: 0 <= j < |log| && log[j].Opened? && log[j].uri == uri ==>
      && log[j].version >= 0
      && forall i :: 0 <= i < j && Sends(log[i], uri) ==> log[i].version < log[j].version
  }

  /** Some accepted request for this file carried this version. */
  predicate Sent(log: seq<Op>, uri: Uri, version: int) {
    exists i :: 0 <= i < |log| && Sends(log[i], uri) && log[i].version == version
  }

  lemma FreshPrefix(log: seq<Op>, op: Op, uri: Uri)
    requires FreshOpens(log + [op], uri)
    ensures FreshOpens(log, uri)
    ensures op.Opened? && op.uri == uri ==> op.version >= 0 && forall v :: Sent(log, uri, v) ==> v < op.version
  {
    var all := log + [op];
    assert all[|log|] == op;
    forall j | 0 <= j < |log| && log[j].Opened? && log[j].uri == uri
      ensures log[j].version >= 0
      ensures forall i :: 0 <= i < j && Sends(log[i], uri) ==> log[i].version < log[j].version
    {
      assert all[j] == log[j];
      assert forall i :: 0 <= i < j ==> all[i] == log[i];
    }
    assert forall i :: 0 <= i < |log| ==> all[i] == log[i];
  }

  lemma FreshNatural(log: seq<Op>, uri: Uri)
    requires FreshOpens(log, uri)
    ensures NaturalVersions(log, uri)
  {
  }

  lemma SentGrows(log: seq<Op>, op: Op, uri: Uri, version: int)
    requires Sent(log, uri, version)
    ensures Sent(log + [op], uri, version)
  {
    var i :| 0 <= i < |log| && Sends(log[i], uri) && log[i].version == version;
    assert (log + [op])[i] == log[i];
  }

  lemma SentLast(log: seq<Op>, op: Op)
    requires !op.Closed?
    ensures Sent(log + [op], op.uri, op.version)
  {
    assert (log + [op])[|log|] == op;
  }
}
