/** When a publication shows the text that its version stands for: exactly unless a version comes back
    in a later session of its file, or the file is closed before the second read. */
module SyncVersions {
  import opened Options
  import opened FileStore
  import opened FileRuns
  import opened SyncProtocol
  import opened SyncSafety
  import opened SyncTexts
  import opened SyncHistory
  import opened SyncReach

  // ---------------------------------------------------------------- publications and requests

  /** Some run that accepts no other requests than these, in this order, publishes p. */
  ghost predicate Reachable(c: Config, log: seq<Op>, p: Publication) {
    exists run: seq<Action> :: Possible(c, START, run) && After(c, START, run).log <= log && p in After(c, START, run).published
  }

  lemma {:induction false} CanAriseLonger(c: Config, log: seq<Op>, more: seq<Op>, p: Publication)
    requires CanArise(c, log, p)
    ensures CanArise(c, log + more, p)
    decreases |more|
  {
    hide CanArise;
    if more == [] {
      assert log + more == log;
    } else {
      var init, last := more[..|more| - 1], more[|more| - 1];
      CanAriseLonger(c, log, init, p);
      CanAriseGrows(c, log + init, last, p);
      assert (log + init) + [last] == log + more;
    }
  }

  /** Main theorem: a publication occurs in some run of these requests exactly when it arises from
      them. */
  lemma PublicationsExactly(c: Config, log: seq<Op>, p: Publication)
    requires AllAccepted(c, log)
    ensures Reachable(c, log, p) <==> CanArise(c, log, p)
  {
    hide Possible, After, AllAccepted, Arises;
    if Reachable(c, log, p) {
      var run: seq<Action> :| Possible(c, START, run) && After(c, START, run).log <= log && p in After(c, START, run).published;
      RunHistory(c, run);
      var s := After(c, START, run);
      assert CanArise(c, s.log, p);
      CanAriseLonger(c, s.log, log[|s.log|..], p);
      assert s.log + log[|s.log|..] == log;
    }
    if CanArise(c, log, p) {
      var i: nat, k: nat, n: nat :| Arises(c, log, p, i, k, n);
      ArisesParts(c, log, p, i, k, n);
      var run := Occurs(c, log, p, i, k, n);
      assert log[..n] <= log;
    }
  }

  // ---------------------------------------------------------------- one file along the log

  lemma StoredStep(c: Config, log: seq<Op>, m: nat, uri: Uri)
    requires m < |log|
    ensures Stored(c, log, m + 1, uri).Some? <==> uri in StoreAfter(c.env, StoreRun(c.env, map[], log[..m]), log[m])
    ensures Stored(c, log, m + 1, uri).Some? ==>
              Stored(c, log, m + 1, uri).value == StoreAfter(c.env, StoreRun(c.env, map[], log[..m]), log[m])[uri]
  {
    hide StoreAfter;
    assert log[..m] + [log[m]] == log[..m + 1];
    StoreSnoc(c, log[..m], log[m]);
  }

  /** While a file is not closed it stays, and its version names one state. */
  lemma {:induction false} SessionMonotone(c: Config, log: seq<Op>, uri: Uri, m: nat, n: nat)
    requires m <= n <= |log| && Stored(c, log, m, uri).Some?
    requires forall x :: m <= x < n ==> log[x] != Closed(uri)
    ensures var a, b := Stored(c, log, m, uri), Stored(c, log, n, uri);
            b.Some? && b.value.version >= a.value.version && (b.value.version == a.value.version ==> b == a)
    decreases n
  {
    if n > m {
      hide StoreRun, StoreAfter;
      SessionMonotone(c, log, uri, m, n - 1);
      var before := StoreRun(c.env, map[], log[..n - 1]);
      StoredStep(c, log, n - 1, uri);
      StepOn(c.env, before, log[n - 1], uri);
      StepMonotone(c.env, before, log[n - 1], uri);
    }
  }

  /** After an accepted request the file is open with that version or a higher one. */
  lemma SentReaches(c: Config, log: seq<Op>, i: nat, uri: Uri)
    requires AllAccepted(c, log) && i < |log| && Sends(log[i], uri)
    ensures var a := Stored(c, log, i + 1, uri); a.Some? && a.value.version >= log[i].version
  {
    hide StoreRun, SkipFile;
    assert AcceptedAt(c, log, i);
    StoredStep(c, log, i, uri);
  }

  /** Request j changes this file. */
  predicate Changes(c: Config, log: seq<Op>, j: nat, uri: Uri) {
    j < |log| && Stored(c, log, j + 1, uri) != Stored(c, log, j, uri)
  }

  /** The request that made the file what it is. */
  lemma {:induction false} LastChange(c: Config, log: seq<Op>, k: nat, n: nat, uri: Uri) returns (j: nat)
    requires k <= n <= |log| && Stored(c, log, k, uri) != Stored(c, log, n, uri)
    ensures k <= j < n && Changes(c, log, j, uri) && Stored(c, log, j + 1, uri) == Stored(c, log, n, uri)
    decreases n
  {
    hide Stored;
    if Stored(c, log, n - 1, uri) == Stored(c, log, n, uri) {
      j := LastChange(c, log, k, n - 1, uri);
    } else {
      j := n - 1;
    }
  }

  lemma ChangeIs(c: Config, log: seq<Op>, j: nat, uri: Uri)
    requires Changes(c, log, j, uri)
    ensures var a, b := Stored(c, log, j, uri), Stored(c, log, j + 1, uri);
            if b.None? then log[j] == Closed(uri)
            else Sends(log[j], uri)
                 && (a.Some? ==> a.value.version < b.value.version)
                 && (b.value.version >= 0 || a.Some? ==> b.value.version == log[j].version && b.value.content == log[j].content)
  {
    hide StoreRun, SkipFile;
    StoredStep(c, log, j, uri);
  }

  // ---------------------------------------------------------------- a version that comes back

  predicate ClosedBetween(log: seq<Op>, i: nat, j: nat, uri: Uri)
    requires i <= j <= |log|
  {
    Closed(uri) in log[i..j]
  }

  lemma ClosedAt(log: seq<Op>, i: nat, j: nat, uri: Uri)
    requires i <= j <= |log|
    ensures ClosedBetween(log, i, j, uri) <==> exists x :: i <= x < j && log[x] == Closed(uri)
  {
    forall x | i <= x < j ensures log[x] == log[i..j][x - i] {
    }
  }

  lemma NotClosed(c: Config, log: seq<Op>, uri: Uri, m: nat, n: nat)
    requires m <= n <= |log| && Stored(c, log, m, uri).Some? && !ClosedBetween(log, m, n, uri)
    ensures var a, b := Stored(c, log, m, uri), Stored(c, log, n, uri);
            b.Some? && b.value.version >= a.value.version && (b.value.version == a.value.version ==> b == a)
  {
    hide Stored;
    ClosedAt(log, m, n, uri);
    SessionMonotone(c, log, uri, m, n);
  }

  /** Request i sends a version, and request j, behind a close of the file, gives it to another state
      than the file had after k requests in between. */
  ghost predicate ComesBack(c: Config, log: seq<Op>, uri: Uri, i: nat, k: nat, j: nat) {
    && i < k <= j && Changes(c, log, j, uri) && Sends(log[i], uri)
    && ClosedBetween(log, i + 1, j, uri)
    && var a, b := Stored(c, log, k, uri), Stored(c, log, j + 1, uri);
       && a.Some? && !a.value.skip
       && b.Some? && b.value.version == log[i].version && b != a
  }

  /** Until then, no more events are sent than the queue can hold. */
  predicate InTime(log: seq<Op>, i: nat, j: nat) {
    i < j <= |log| && |SendEvents(log[i + 1..j])| <= QUEUE_CAPACITY
  }

  lemma StoredIs(c: Config, log: seq<Op>, n: nat, uri: Uri)
    requires n <= |log| && Stored(c, log, n, uri).Some?
    ensures StoredAfter(c, log, n, uri, Stored(c, log, n, uri).value)
  {
    hide StoreRun;
  }

  lemma ArisesStored(c: Config, log: seq<Op>, p: Publication, i: nat, k: nat, n: nat)
    requires Arises(c, log, p, i, k, n)
    ensures Stored(c, log, k, p.uri) == Some(p.source)
  {
    hide StoreRun, SendEvents, Diagnose;
  }

  /** A publication whose copy is not the file that the second read saw belongs to a version that came
      back. */
  lemma StaleComesBack(c: Config, log: seq<Op>, p: Publication, i: nat, k: nat, n: nat) returns (j: nat)
    requires AllAccepted(c, log) && Arises(c, log, p, i, k, n)
    requires p.seen.Some? && p.source != p.seen.value
    ensures ComesBack(c, log, p.uri, i, k, j) && InTime(log, i, j) && j < n
    ensures Stored(c, log, j + 1, p.uri) == p.seen && Stored(c, log, k, p.uri) == Some(p.source)
  {
    hide Stored, StoreRun, Diagnose, SendEvents, AllAccepted, ClosedBetween, Changes, Arises, StoredAfter;
    ArisesParts(c, log, p, i, k, n);
    ArisesStored(c, log, p, i, k, n);
    j := LastChange(c, log, k, n, p.uri);
    FewerEvents(log, i + 1, j, n - 1);
    if !ClosedBetween(log, i + 1, j, p.uri) {
      SentReaches(c, log, i, p.uri);
      NotClosed(c, log, p.uri, i + 1, j);
      ChangeIs(c, log, j, p.uri);
      assert false;
    }
  }

  /** Conversely, such a version is published with the old copy. */
  lemma ComesBackStale(c: Config, log: seq<Op>, uri: Uri, i: nat, k: nat, j: nat) returns (p: Publication)
    requires ComesBack(c, log, uri, i, k, j) && InTime(log, i, j)
    ensures Arises(c, log, p, i, k, j + 1) && p.uri == uri
    ensures Some(p.source) == Stored(c, log, k, uri) && p.seen == Stored(c, log, j + 1, uri)
  {
    var a := Stored(c, log, k, uri).value;
    p := Publication(uri, log[i].version, Diagnose(c, a), a, Stored(c, log, j + 1, uri));
    hide StoreRun, Diagnose, SendEvents, ClosedBetween, Changes;
  }

  ghost predicate StalePublished(c: Config, log: seq<Op>, uri: Uri) {
    exists p: Publication :: Reachable(c, log, p) && p.uri == uri && p.seen.Some? && p.source != p.seen.value
  }

  /** Main theorem: some run of these requests publishes, for an open file, diagnostics of another
      state than the second read saw exactly when a version comes back in time. */
  lemma StaleExactly(c: Config, log: seq<Op>, uri: Uri)
    requires AllAccepted(c, log)
    ensures StalePublished(c, log, uri) <==> exists i: nat, k: nat, j: nat :: ComesBack(c, log, uri, i, k, j) && InTime(log, i, j)
  {
    hide Reachable, Arises, ComesBack, InTime, AllAccepted;
    if StalePublished(c, log, uri) {
      var p: Publication :| Reachable(c, log, p) && p.uri == uri && p.seen.Some? && p.source != p.seen.value;
      PublicationsExactly(c, log, p);
      var i: nat, k: nat, n: nat :| Arises(c, log, p, i, k, n);
      var j := StaleComesBack(c, log, p, i, k, n);
    }
    if i: nat, k: nat, j: nat :| ComesBack(c, log, uri, i, k, j) && InTime(log, i, j) {
      var p := ComesBackStale(c, log, uri, i, k, j);
      PublicationsExactly(c, log, p);
      ComesBackDiffers(c, log, uri, i, k, j);
    }
  }

  lemma ComesBackDiffers(c: Config, log: seq<Op>, uri: Uri, i: nat, k: nat, j: nat)
    requires ComesBack(c, log, uri, i, k, j)
    ensures Stored(c, log, j + 1, uri).Some? && Stored(c, log, j + 1, uri) != Stored(c, log, k, uri)
  {
    hide Stored, ClosedBetween, Changes;
  }

  // ---------------------------------------------------------------- a file closed before the second read

  /** The file had another version than request i when it was copied, and is closed afterwards. */
  ghost predicate ClosedUnder(c: Config, log: seq<Op>, uri: Uri, i: nat, k: nat, x: nat) {
    && i < k <= x < |log| && Sends(log[i], uri) && log[x] == Closed(uri)
    && var a := Stored(c, log, k, uri);
       a.Some? && !a.value.skip && a.value.version != log[i].version
  }

  lemma CloseGone(c: Config, log: seq<Op>, x: nat, uri: Uri)
    requires x < |log| && log[x] == Closed(uri)
    ensures Stored(c, log, x + 1, uri) == None
  {
    hide StoreRun;
    StoredStep(c, log, x, uri);
  }

  /** When the second read does not find the file, it was closed after it was copied. */
  lemma UncheckedClosed(c: Config, log: seq<Op>, p: Publication, i: nat, k: nat, n: nat) returns (x: nat)
    requires Arises(c, log, p, i, k, n) && p.seen.None?
    ensures k <= x < n && log[x] == Closed(p.uri) && InTime(log, i, x)
    ensures Stored(c, log, k, p.uri) == Some(p.source)
  {
    hide Stored, StoreRun, Diagnose, SendEvents, Arises, StoredAfter, Changes;
    ArisesParts(c, log, p, i, k, n);
    ArisesStored(c, log, p, i, k, n);
    x := LastChange(c, log, k, n, p.uri);
    ChangeIs(c, log, x, p.uri);
    FewerEvents(log, i + 1, x, n - 1);
  }

  ghost predicate UnseenPublished(c: Config, log: seq<Op>, uri: Uri) {
    exists p: Publication :: Reachable(c, log, p) && p.uri == uri && p.seen.None? && p.source.version != p.version
  }

  /** Main theorem: some run publishes, for a file that is gone, a version other than its copy's
      exactly when the file is closed in time under such a copy. */
  lemma UnseenExactly(c: Config, log: seq<Op>, uri: Uri)
    requires AllAccepted(c, log)
    ensures UnseenPublished(c, log, uri) <==> exists i: nat, k: nat, x: nat :: ClosedUnder(c, log, uri, i, k, x) && InTime(log, i, x)
  {
    hide Reachable, Arises, InTime, AllAccepted, Stored, Diagnose;
    if UnseenPublished(c, log, uri) {
      var p: Publication :| Reachable(c, log, p) && p.uri == uri && p.seen.None? && p.source.version != p.version;
      PublicationsExactly(c, log, p);
      var i: nat, k: nat, n: nat :| Arises(c, log, p, i, k, n);
      ArisesParts(c, log, p, i, k, n);
      var x := UncheckedClosed(c, log, p, i, k, n);
      assert ClosedUnder(c, log, uri, i, k, x);
    }
    if i: nat, k: nat, x: nat :| ClosedUnder(c, log, uri, i, k, x) && InTime(log, i, x) {
      var p := ClosedUnderUnseen(c, log, uri, i, k, x);
      PublicationsExactly(c, log, p);
    }
  }

  lemma ClosedUnderUnseen(c: Config, log: seq<Op>, uri: Uri, i: nat, k: nat, x: nat) returns (p: Publication)
    requires ClosedUnder(c, log, uri, i, k, x) && InTime(log, i, x)
    ensures Arises(c, log, p, i, k, x + 1) && p.uri == uri && p.seen.None? && p.source.version != p.version
  {
    var a := Stored(c, log, k, uri).value;
    p := Publication(uri, log[i].version, Diagnose(c, a), a, None);
    CloseGone(c, log, x, uri);
    hide StoreRun, Diagnose, SendEvents;
  }

  // ---------------------------------------------------------------- what a client has to keep

  /** No request changes the file with a version that was sent in an earlier session of it. */
  predicate FreshVersions(c: Config, log: seq<Op>, uri: Uri) {
    forall i: nat, j: nat :: i < j < |log| && Changes(c, log, j, uri) && Sends(log[i], uri) && ClosedBetween(log, i + 1, j, uri) && Sends(log[j], uri) ==>
      log[i].version != log[j].version
  }

  /** A change makes the version and the text of its request the file's. */
  lemma ChangeSends(c: Config, log: seq<Op>, j: nat, uri: Uri)
    requires AllAccepted(c, log) && Changes(c, log, j, uri)
    requires Stored(c, log, j + 1, uri).Some? && Stored(c, log, j + 1, uri).value.version >= 0
    ensures Sends(log[j], uri)
    ensures var b := Stored(c, log, j + 1, uri).value; b.version == log[j].version && b.content == log[j].content
  {
    hide Stored, AllAccepted;
    ChangeIs(c, log, j, uri);
  }

  /** The request that a change comes from is the first one for its version. */
  lemma ChangeIntroduces(c: Config, log: seq<Op>, j: nat, uri: Uri)
    requires AllAccepted(c, log) && FreshVersions(c, log, uri) && Changes(c, log, j, uri)
    requires Stored(c, log, j + 1, uri).Some? && Stored(c, log, j + 1, uri).value.version >= 0
    ensures Sends(log[j], uri) && Introduces(log, j, uri, log[j].version)
  {
    ChangeSends(c, log, j, uri);
    ChangeIs(c, log, j, uri);
    hide Stored, AllAccepted, ClosedBetween;
    forall i | 0 <= i < j && Sends(log[i], uri) ensures log[i].version != log[j].version {
      if !ClosedBetween(log, i + 1, j, uri) {
        SentReaches(c, log, i, uri);
        NotClosed(c, log, uri, i + 1, j);
      }
    }
  }

  lemma StoredCoherent(c: Config, log: seq<Op>, n: nat, uri: Uri)
    requires n <= |log| && Stored(c, log, n, uri).Some? && Stored(c, log, n, uri).value.version >= 0
    ensures Coherent(c.env, uri, Stored(c, log, n, uri).value)
  {
    hide Coherent, StoreRun;
    RunCoherent(c.env, log[..n], uri);
  }

  /** Main theorem: with fresh versions, diagnostics published for an open file are those of the text
      that the client sent with their version; for a file that is never closed this needs no second
      read. */
  lemma PublishedVersionMatchesText(c: Config, run: seq<Action>, p: Publication) returns (j: nat)
    requires Possible(c, START, run) && p in After(c, START, run).published
    requires FreshVersions(c, After(c, START, run).log, p.uri) && p.version >= 0
    requires p.seen.Some? || Closed(p.uri) !in After(c, START, run).log
    ensures p.seen == Some(p.source)
    ensures Introduces(After(c, START, run).log, j, p.uri, p.version)
    ensures p.report == ReportOf(c, After(c, START, run).log[j].content)
  {
    hide *;
    PublishedArises(c, run, p);
    LogAccepted(c, run);
    j := ArisenText(c, After(c, START, run).log, p);
  }

  lemma PublishedArises(c: Config, run: seq<Action>, p: Publication)
    requires Possible(c, START, run) && p in After(c, START, run).published
    ensures CanArise(c, After(c, START, run).log, p)
  {
    hide CanArise, Possible, After;
    RunHistory(c, run);
  }

  lemma ArisenText(c: Config, log: seq<Op>, p: Publication) returns (j: nat)
    requires AllAccepted(c, log) && FreshVersions(c, log, p.uri) && p.version >= 0 && CanArise(c, log, p)
    requires p.seen.Some? || Closed(p.uri) !in log
    ensures p.seen == Some(p.source)
    ensures Introduces(log, j, p.uri, p.version) && p.report == ReportOf(c, log[j].content)
  {
    hide Arises, AllAccepted, FreshVersions, Stored, Changes, Diagnose, Coherent, InTime, ClosedBetween;
    var i: nat, k: nat, n: nat :| Arises(c, log, p, i, k, n);
    ArisesParts(c, log, p, i, k, n);
    if p.seen.None? {
      var x := UncheckedClosed(c, log, p, i, k, n);
      assert false;
    }
    if p.source != p.seen.value {
      j := StaleComesBack(c, log, p, i, k, n);
      ChangeSends(c, log, j, p.uri);
      FreshAt(c, log, p.uri, i, j);
      assert false;
    }
    StoredCoherent(c, log, n, p.uri);
    CoherentReport(c, p.uri, p.source);
    NothingStored(c, log, p.uri);
    j := LastChange(c, log, 0, n, p.uri);
    ChangeSends(c, log, j, p.uri);
    ChangeIntroduces(c, log, j, p.uri);
  }

  lemma NothingStored(c: Config, log: seq<Op>, uri: Uri)
    ensures Stored(c, log, 0, uri) == None
  {
  }

  lemma FreshAt(c: Config, log: seq<Op>, uri: Uri, i: nat, j: nat)
    requires FreshVersions(c, log, uri) && i < j && Changes(c, log, j, uri)
    requires Sends(log[i], uri) && Sends(log[j], uri) && ClosedBetween(log, i + 1, j, uri)
    ensures log[i].version != log[j].version
  {
    hide Stored, ClosedBetween;
  }

  /** A client that opens a file again only above all its earlier versions has fresh versions. */
  lemma FreshOpensSuffice(c: Config, log: seq<Op>, uri: Uri)
    requires AllAccepted(c, log) && FreshOpens(log, uri)
    ensures FreshVersions(c, log, uri)
  {
    hide AllAccepted, ClosedBetween, FreshOpens;
    forall i: nat, j: nat | i < j < |log| && Changes(c, log, j, uri) && Sends(log[i], uri) && ClosedBetween(log, i + 1, j, uri) && Sends(log[j], uri)
      ensures log[i].version != log[j].version
    {
      HigherVersion(c, log, uri, i, j);
    }
  }

  lemma HigherVersion(c: Config, log: seq<Op>, uri: Uri, i: nat, j: nat)
    requires AllAccepted(c, log) && FreshOpens(log, uri)
    requires i < j && Changes(c, log, j, uri) && Sends(log[i], uri) && Sends(log[j], uri) && ClosedBetween(log, i + 1, j, uri)
    ensures log[i].version < log[j].version
  {
    hide AllAccepted, StoreRun, Effective;
    ChangeIs(c, log, j, uri);
    ClosedAt(log, i + 1, j, uri);
    var pre := log[..j + 1];
    SentReaches(c, log, j, uri);
    FreshNatural(log, uri);
    NaturalPrefix(log, j + 1, uri);
    NaturalNotBlank(c.env, pre, uri);
    ChangeSends(c, log, j, uri);
    var o, t := RunCurrent(c.env, pre, uri);
    var x :| i + 1 <= x < j && log[x] == Closed(uri);
    assert pre[x] == log[x] && pre[o] == log[o] && pre[t] == log[t];
  }

  // ---------------------------------------------------------------- versions that fail

  /** With a version that comes back for another text, the old text's diagnostics can be published
      under it. */
  lemma ReusedVersionIsStale(c: Config, log: seq<Op>, uri: Uri, i: nat, j: nat)
    requires AllAccepted(c, log) && i < j
    requires Changes(c, log, i, uri) && Sends(log[i], uri) && log[i].version >= 0
    requires Stored(c, log, i + 1, uri).Some? && !Stored(c, log, i + 1, uri).value.skip
    requires Changes(c, log, j, uri) && Sends(log[j], uri) && log[j].version == log[i].version
    requires log[j].content != log[i].content && ClosedBetween(log, i + 1, j, uri) && InTime(log, i, j)
    ensures StalePublished(c, log, uri)
  {
    hide Stored, AllAccepted, ClosedBetween, InTime, StalePublished;
    SentReaches(c, log, i, uri);
    SentReaches(c, log, j, uri);
    ChangeSends(c, log, i, uri);
    ChangeSends(c, log, j, uri);
    assert ComesBack(c, log, uri, i, i + 1, j);
    StaleExactly(c, log, uri);
  }

  predicate Plain(c: Config, text: string) {
    c.env.patterns == [] && ACTIVATE_COMMENT <= text
  }

  lemma PlainNotSkipped(c: Config, uri: Uri, text: string)
    requires Plain(c, text)
    ensures SkipFile(c.env, uri, text) == Some(false)
  {
  }

  /** The store along a log, request by request. */
  predicate Stores(c: Config, log: seq<Op>, m: nat, store: Store) {
    m <= |log| && StoreRun(c.env, map[], log[..m]) == store
  }

  lemma StoresNext(c: Config, log: seq<Op>, m: nat, store: Store)
    requires m < |log| && Stores(c, log, m, store) && Perform(c.env, store, log[m]).1 == Fine
    ensures AcceptedAt(c, log, m) && Stores(c, log, m + 1, StoreAfter(c.env, store, log[m]))
  {
    hide Perform, StoreAfter;
    assert log[..m] + [log[m]] == log[..m + 1];
    StoreSnoc(c, log[..m], log[m]);
  }

  lemma StoresOf(c: Config, log: seq<Op>, m: nat, store: Store, uri: Uri)
    requires Stores(c, log, m, store)
    ensures Stored(c, log, m, uri) == if uri in store then Some(store[uri]) else None
  {
    hide StoreRun;
  }

  lemma OpensPlain(c: Config, store: Store, uri: Uri, text: string, version: nat)
    requires Plain(c, text) && uri !in store
    ensures Perform(c.env, store, Opened(uri, text, version)).1 == Fine
    ensures StoreAfter(c.env, store, Opened(uri, text, version)) == store[uri := Parsed(c.env, NEW_FILE, version, text)]
  {
    hide SkipFile;
    PlainNotSkipped(c, uri, text);
  }

  lemma ChangesPlain(c: Config, store: Store, uri: Uri, text: string, version: int)
    requires Plain(c, text) && uri in store && store[uri].version < version
    ensures Perform(c.env, store, Changed(uri, text, version)).1 == Fine
    ensures StoreAfter(c.env, store, Changed(uri, text, version)) == store[uri := Parsed(c.env, store[uri], version, text)]
  {
    hide SkipFile;
    PlainNotSkipped(c, uri, text);
  }

  lemma FewEvents(log: seq<Op>)
    ensures |SendEvents(log)| <= |log|
  {
  }

  /** A file that is opened again with a lower version and changed up to its old one. */
  function Reopening(uri: Uri, a: string, b: string): seq<Op> {
    [Opened(uri, a, 5), Closed(uri), Opened(uri, b, 3), Changed(uri, b, 5)]
  }

  lemma ReopeningAccepted(c: Config, uri: Uri, a: string, b: string)
    requires Plain(c, a) && Plain(c, b)
    ensures AllAccepted(c, Reopening(uri, a, b))
    ensures var log := Reopening(uri, a, b);
            Stored(c, log, 1, uri) == Some(Parsed(c.env, NEW_FILE, 5, a)) && Stored(c, log, 3, uri) == Some(Parsed(c.env, NEW_FILE, 3, b))
  {
    hide Stores, Stored, AcceptedAt, Parsed, SkipFile, Plain;
    var log := Reopening(uri, a, b);
    StoresStart(c, log);
    OpensPlain(c, map[], uri, a, 5);
    StoresNext(c, log, 0, map[]);
    var first: Store := map[][uri := Parsed(c.env, NEW_FILE, 5, a)];
    StoresOf(c, log, 1, first, uri);
    StoresNext(c, log, 1, first);
    assert StoreAfter(c.env, first, log[1]) == map[];
    OpensPlain(c, map[], uri, b, 3);
    StoresNext(c, log, 2, map[]);
    var second: Store := map[][uri := Parsed(c.env, NEW_FILE, 3, b)];
    StoresOf(c, log, 3, second, uri);
    ParsedHas(c, NEW_FILE, 3, b);
    ChangesPlain(c, second, uri, b, 5);
    StoresNext(c, log, 3, second);
  }

  lemma ParsedHas(c: Config, s: Snapshot, version: int, text: string)
    ensures var t := Parsed(c.env, s, version, text); t.version == version && t.content == text && !t.skip
  {
  }

  lemma StoresStart(c: Config, log: seq<Op>)
    ensures Stores(c, log, 0, map[])
  {
  }

  /** Whatever the two texts are, the old one's diagnostics can be published for the new one. */
  lemma ReopenShowsOldText(c: Config, uri: Uri, a: string, b: string)
    requires Plain(c, a) && Plain(c, b) && a != b
    ensures AllAccepted(c, Reopening(uri, a, b)) && StalePublished(c, Reopening(uri, a, b), uri)
  {
    hide Plain, Parsed, Stored, AllAccepted, StalePublished, SendEvents;
    var log := Reopening(uri, a, b);
    ReopeningAccepted(c, uri, a, b);
    ParsedHas(c, NEW_FILE, 5, a);
    ParsedHas(c, NEW_FILE, 3, b);
    NothingStored(c, log, uri);
    SentReaches(c, log, 3, uri);
    assert log[1] in log[1..3];
    FewEvents(log[1..3]);
    ReusedVersionIsStale(c, log, uri, 0, 3);
  }

  /** A file that is changed and closed. */
  function Closing(uri: Uri, a: string, b: string): seq<Op> {
    [Opened(uri, a, 1), Changed(uri, b, 2), Closed(uri)]
  }

  lemma ClosingAccepted(c: Config, uri: Uri, a: string, b: string)
    requires Plain(c, a) && Plain(c, b)
    ensures AllAccepted(c, Closing(uri, a, b))
    ensures Stored(c, Closing(uri, a, b), 2, uri) == Some(Parsed(c.env, Parsed(c.env, NEW_FILE, 1, a), 2, b))
  {
    hide Stores, Stored, AcceptedAt, Parsed, SkipFile, Plain;
    var log := Closing(uri, a, b);
    StoresStart(c, log);
    OpensPlain(c, map[], uri, a, 1);
    StoresNext(c, log, 0, map[]);
    var first: Store := map[][uri := Parsed(c.env, NEW_FILE, 1, a)];
    ParsedHas(c, NEW_FILE, 1, a);
    ChangesPlain(c, first, uri, b, 2);
    StoresNext(c, log, 1, first);
    var second: Store := first[uri := Parsed(c.env, first[uri], 2, b)];
    StoresOf(c, log, 2, second, uri);
    StoresNext(c, log, 2, second);
  }

  /** The new text's diagnostics can be published under the old version. */
  lemma CloseShowsOtherVersion(c: Config, uri: Uri, a: string, b: string)
    requires Plain(c, a) && Plain(c, b)
    ensures AllAccepted(c, Closing(uri, a, b)) && UnseenPublished(c, Closing(uri, a, b), uri)
  {
    hide Plain, Parsed, Stored, AllAccepted, UnseenPublished, SendEvents;
    var log := Closing(uri, a, b);
    ClosingAccepted(c, uri, a, b);
    ParsedHas(c, Parsed(c.env, NEW_FILE, 1, a), 2, b);
    FewEvents(log[1..2]);
    assert ClosedUnder(c, log, uri, 0, 2, 2);
    UnseenExactly(c, log, uri);
  }
}
