/** The order of publications: for an open file they go back in version only if the file itself does. */
module SyncOrder {
  import opened Options
  import opened FileStore
  import opened FileRuns
  import opened SyncProtocol
  import opened SyncSafety
  import opened SyncTexts
  import opened SyncHistory
  import opened SyncConvergence
  import opened SyncReach
  import opened SyncVersions

  /** The version that the store has for this file never goes down, over closing and opening again. */
  predicate VersionsRise(c: Config, log: seq<Op>, uri: Uri) {
    forall m: nat, n: nat :: m <= n <= |log| && Stored(c, log, m, uri).Some? && Stored(c, log, n, uri).Some? ==>
      Stored(c, log, m, uri).value.version <= Stored(c, log, n, uri).value.version
  }

  /** The publications for this file whose second read found it open never go back in version. */
  predicate Forward(published: seq<Publication>, uri: Uri) {
    forall i, j :: 0 <= i < j < |published| && published[i].uri == uri == published[j].uri
                   && published[i].seen.Some? && published[j].seen.Some? ==>
      published[i].version <= published[j].version
  }

  // ---------------------------------------------------------------- forward

  ghost predicate HadVersion(c: Config, log: seq<Op>, uri: Uri, version: int) {
    exists n: nat :: n <= |log| && Stored(c, log, n, uri).Some? && Stored(c, log, n, uri).value.version == version
  }

  /** Whatever was published or is about to be had a version of the file, and what is about to be has the
      highest. */
  ghost predicate Below(c: Config, s: State, uri: Uri) {
    && (s.worker.Publishing? && s.worker.seen.Some? && s.worker.event.uri == uri ==>
          HadVersion(c, s.log, uri, s.worker.event.version))
    && (forall p :: p in s.published && p.uri == uri && p.seen.Some? ==>
          && HadVersion(c, s.log, uri, p.version)
          && (s.worker.Publishing? && s.worker.seen.Some? && s.worker.event.uri == uri ==> p.version <= s.worker.event.version))
  }

  lemma RisePrefix(c: Config, log: seq<Op>, more: seq<Op>, uri: Uri)
    requires log <= more && VersionsRise(c, more, uri)
    ensures VersionsRise(c, log, uri)
  {
    hide Stored;
    forall n: nat | n <= |log| ensures Stored(c, log, n, uri) == Stored(c, more, n, uri) {
      StoredPrefix(c, log, more, n, uri);
    }
  }

  lemma StoredPrefix(c: Config, log: seq<Op>, more: seq<Op>, n: nat, uri: Uri)
    requires log <= more && n <= |log|
    ensures Stored(c, log, n, uri) == Stored(c, more, n, uri)
  {
    hide StoreRun;
    assert log[..n] == more[..n];
  }

  lemma HadVersionGrows(c: Config, log: seq<Op>, more: seq<Op>, uri: Uri, version: int)
    requires log <= more && HadVersion(c, log, uri, version)
    ensures HadVersion(c, more, uri, version)
  {
    hide Stored;
    var n: nat :| n <= |log| && Stored(c, log, n, uri).Some? && Stored(c, log, n, uri).value.version == version;
    StoredPrefix(c, log, more, n, uri);
  }

  lemma HasVersion(c: Config, s: State, uri: Uri)
    requires s.store == StoreRun(c.env, map[], s.log) && uri in s.store
    ensures HadVersion(c, s.log, uri, s.store[uri].version)
    ensures VersionsRise(c, s.log, uri) ==>
              forall v :: HadVersion(c, s.log, uri, v) ==> v <= s.store[uri].version
  {
    hide StoreRun;
    assert s.log[..|s.log|] == s.log;
    assert Stored(c, s.log, |s.log|, uri) == Some(s.store[uri]);
  }

  lemma SecondReadBelow(c: Config, s: State, uri: Uri)
    requires s.store == StoreRun(c.env, map[], s.log) && VersionsRise(c, s.log, uri)
    requires Below(c, s, uri) && s.worker.Reading?
    ensures Below(c, Apply(c, s, SecondRead), uri)
  {
    hide VersionsRise, HadVersion, StoreRun;
    if uri in s.store {
      HasVersion(c, s, uri);
    }
  }

  lemma PublishForward(c: Config, s: State, uri: Uri)
    requires s.worker.Publishing? && Below(c, s, uri) && Forward(s.published, uri)
    ensures Below(c, Apply(c, s, Publish), uri) && Forward(Apply(c, s, Publish).published, uri)
  {
    hide HadVersion, Diagnose;
  }

  lemma OtherBelow(c: Config, s: State, a: Action, uri: Uri)
    requires Below(c, s, uri) && Enabled(s, a) && !a.SecondRead? && !a.Publish?
    requires s.log <= Apply(c, s, a).log
    ensures Below(c, Apply(c, s, a), uri) && Apply(c, s, a).published == s.published
  {
    SameWorker(c, s, a);
    hide Apply, Enabled, HadVersion;
    var t := Apply(c, s, a);
    if s.worker.Publishing? && s.worker.seen.Some? && s.worker.event.uri == uri {
      HadVersionGrows(c, s.log, t.log, uri, s.worker.event.version);
    }
    forall p | p in s.published && p.uri == uri && p.seen.Some? ensures HadVersion(c, t.log, uri, p.version) {
      HadVersionGrows(c, s.log, t.log, uri, p.version);
    }
  }

  lemma SameWorker(c: Config, s: State, a: Action)
    requires Enabled(s, a) && !a.SecondRead? && !a.Publish?
    ensures var t := Apply(c, s, a); t.published == s.published && (t.worker.Publishing? ==> t.worker == s.worker)
  {
    hide Perform;
  }

  lemma StepForward(c: Config, s: State, a: Action, uri: Uri)
    requires s.store == StoreRun(c.env, map[], s.log) && VersionsRise(c, s.log, uri)
    requires Enabled(s, a) && Below(c, s, uri) && Forward(s.published, uri)
    ensures Below(c, Apply(c, s, a), uri) && Forward(Apply(c, s, a).published, uri)
  {
    hide Below, Forward, VersionsRise, Apply, Enabled;
    EnabledWorker(s, a);
    LogNotShorter(c, s, a);
    if a.SecondRead? {
      SecondReadBelow(c, s, uri);
      InternalPublishes(c, s);
    } else if a.Publish? {
      PublishForward(c, s, uri);
    } else {
      OtherBelow(c, s, a, uri);
    }
  }

  lemma EnabledWorker(s: State, a: Action)
    requires Enabled(s, a)
    ensures (a.SecondRead? ==> s.worker.Reading?) && (a.Publish? ==> s.worker.Publishing?)
  {
  }

  lemma InternalPublishes(c: Config, s: State)
    requires s.worker.Reading?
    ensures Apply(c, s, SecondRead).published == s.published
  {
  }

  lemma StartForward(c: Config, uri: Uri)
    ensures Below(c, START, uri) && Forward(START.published, uri)
  {
  }

  /** Main theorem: in every interleaving, failures included, the publications for an open file never go
      back in version if the file's own version does not. */
  lemma {:induction false} PublicationsGoForward(c: Config, actions: seq<Action>, uri: Uri)
    requires Possible(c, START, actions) && VersionsRise(c, After(c, START, actions).log, uri)
    ensures Below(c, After(c, START, actions), uri) && Forward(After(c, START, actions).published, uri)
  {
    hide Apply, Enabled, Below, Forward, VersionsRise;
    if actions == [] {
      StartForward(c, uri);
    } else {
      var init := actions[..|actions| - 1];
      var s := After(c, START, init);
      LogNotShorter(c, s, actions[|actions| - 1]);
      RisePrefix(c, s.log, After(c, START, actions).log, uri);
      LogAccepted(c, init);
      PublicationsGoForward(c, init, uri);
      StepForward(c, s, actions[|actions| - 1], uri);
    }
  }

  // ---------------------------------------------------------------- clients

  /** A file that is opened again only above all its earlier versions keeps the condition. */
  lemma FreshOpensRise(c: Config, log: seq<Op>, uri: Uri)
    requires FreshOpens(log, uri)
    ensures VersionsRise(c, log, uri)
  {
    hide Stored, FreshOpens;
    forall m: nat, n: nat | m <= n <= |log| && Stored(c, log, m, uri).Some? && Stored(c, log, n, uri).Some?
      ensures Stored(c, log, m, uri).value.version <= Stored(c, log, n, uri).value.version
    {
      FreshRises(c, log, uri, m, n);
    }
  }

  lemma FreshRises(c: Config, log: seq<Op>, uri: Uri, m: nat, n: nat)
    requires FreshOpens(log, uri) && m <= n <= |log|
    requires Stored(c, log, m, uri).Some? && Stored(c, log, n, uri).Some?
    ensures Stored(c, log, m, uri).value.version <= Stored(c, log, n, uri).value.version
  {
    if ClosedBetween(log, m, n, uri) {
      ClosedAt(log, m, n, uri);
      FreshNatural(log, uri);
      NaturalPrefix(log, m, uri);
      NaturalPrefix(log, n, uri);
      NaturalNotBlank(c.env, log[..m], uri);
      NaturalNotBlank(c.env, log[..n], uri);
      hide StoreRun, Effective;
      var o, i := RunCurrent(c.env, log[..m], uri);
      var o', i' := RunCurrent(c.env, log[..n], uri);
      var x :| m <= x < n && log[x] == Closed(uri);
      assert log[..n][x] == log[x] && log[..n][o'] == log[o'] && log[..n][i'] == log[i'] && log[..m][i] == log[i];
    } else {
      NotClosed(c, log, uri, m, n);
    }
  }

  // ---------------------------------------------------------------- backward

  /** Request j gives the file a state that is not skipped, and by itself it is then published. */
  predicate Gives(c: Config, log: seq<Op>, j: nat, uri: Uri) {
    && j < |log| && Changes(c, log, j, uri) && Stored(c, log, j + 1, uri).Some?
    && !Stored(c, log, j + 1, uri).value.skip && Stored(c, log, j + 1, uri).value.version >= 0
  }

  /** From rest, request j is served and published at once. */
  lemma PublishNext(c: Config, log: seq<Op>, j: nat, uri: Uri, run: seq<Action>) returns (more: seq<Action>, p: Publication)
    requires AllAccepted(c, log) && Gives(c, log, j, uri)
    requires Through(c, log, j, run) && Quiescent(After(c, START, run))
    ensures Through(c, log, j + 1, more) && !After(c, START, more).worker.Hung?
    ensures After(c, START, more).published == After(c, START, run).published + [p]
    ensures p.uri == uri && p.seen == Stored(c, log, j + 1, uri) && p.seen.Some? && p.version == p.seen.value.version
  {
    var a := Stored(c, log, j + 1, uri).value;
    ChangeIs(c, log, j, uri);
    ChangeSends(c, log, j, uri);
    StoredIs(c, log, j + 1, uri);
    p := Publication(uri, a.version, Diagnose(c, a), a, Some(a));
    hide Possible, After, StoreRun, AllAccepted, Changes, Stored, StoredAfter, Diagnose;
    more := TakeNext(c, log, j, run);
    ThroughStore(c, log, j + 1, more);
    more := ReadAfterFeed(c, log, j + 1, more, EventOf(log[j]), a);
    ThroughStore(c, log, j + 1, more);
    more := PublishAfterFeed(c, log, j + 1, more, EventOf(log[j]), p);
  }

  ghost predicate BackwardPublished(c: Config, log: seq<Op>, uri: Uri) {
    exists run: seq<Action> :: Possible(c, START, run) && After(c, START, run).log <= log && !Forward(After(c, START, run).published, uri)
  }

  /** Two states, the later one with the lower version, can be published in this order. */
  lemma FallingIsBackward(c: Config, log: seq<Op>, uri: Uri, j: nat, k: nat)
    requires AllAccepted(c, log) && j < k && Gives(c, log, j, uri) && Gives(c, log, k, uri)
    requires Stored(c, log, k + 1, uri).value.version < Stored(c, log, j + 1, uri).value.version
    ensures BackwardPublished(c, log, uri)
  {
    hide Possible, After, AllAccepted, Changes, Stored, Quiescent;
    var run := RestAfter(c, log, j);
    var p, q;
    run, p := PublishNext(c, log, j, uri, run);
    var first := After(c, START, run).published;
    run := RestOn(c, log, j + 1, k, run);
    var rest := After(c, START, run).published;
    run, q := PublishNext(c, log, k, uri, run);
    var published := After(c, START, run).published;
    assert published[|first| - 1] == p && published[|rest|] == q;
    assert !Forward(published, uri);
    assert log[..k + 1] <= log;
  }

  predicate NeverSkipped(c: Config, log: seq<Op>, uri: Uri) {
    forall n: nat :: n <= |log| && Stored(c, log, n, uri).Some? ==> !Stored(c, log, n, uri).value.skip
  }

  /** Main theorem: for a file that is never skipped and opened with versions from 0 on, some run of these
      requests publishes backward if and only if the file's own version goes down at some point. */
  lemma BackwardExactly(c: Config, log: seq<Op>, uri: Uri)
    requires AllAccepted(c, log) && NaturalVersions(log, uri) && NeverSkipped(c, log, uri)
    ensures BackwardPublished(c, log, uri) <==> !VersionsRise(c, log, uri)
  {
    hide Possible, After, AllAccepted, Stored, NeverSkipped, Changes, NaturalVersions, Forward;
    if BackwardPublished(c, log, uri) && VersionsRise(c, log, uri) {
      var run: seq<Action> :| Possible(c, START, run) && After(c, START, run).log <= log && !Forward(After(c, START, run).published, uri);
      RisePrefix(c, After(c, START, run).log, log, uri);
      PublicationsGoForward(c, run, uri);
    }
    if !VersionsRise(c, log, uri) {
      var m: nat, n: nat :| m <= n <= |log| && Stored(c, log, m, uri).Some? && Stored(c, log, n, uri).Some?
                            && Stored(c, log, m, uri).value.version > Stored(c, log, n, uri).value.version;
      NothingStored(c, log, uri);
      var j := LastChange(c, log, 0, m, uri);
      var k := LastChange(c, log, m, n, uri);
      GivesAt(c, log, uri, j);
      GivesAt(c, log, uri, k);
      FallingIsBackward(c, log, uri, j, k);
    }
  }

  lemma GivesAt(c: Config, log: seq<Op>, uri: Uri, j: nat)
    requires NaturalVersions(log, uri) && NeverSkipped(c, log, uri)
    requires Changes(c, log, j, uri) && Stored(c, log, j + 1, uri).Some?
    ensures Gives(c, log, j, uri)
  {
    hide StoreRun;
    NaturalPrefix(log, j + 1, uri);
    NaturalNotBlank(c.env, log[..j + 1], uri);
  }

  /** An instance: opened at 5, closed, opened at 1. */
  function Lowering(uri: Uri, a: string, b: string): seq<Op> {
    [Opened(uri, a, 5), Closed(uri), Opened(uri, b, 1)]
  }

  lemma LoweringAccepted(c: Config, uri: Uri, a: string, b: string)
    requires Plain(c, a) && Plain(c, b)
    ensures var log := Lowering(uri, a, b);
            && AllAccepted(c, log)
            && Stored(c, log, 0, uri) == None && Stored(c, log, 1, uri) == Some(Parsed(c.env, NEW_FILE, 5, a))
            && Stored(c, log, 2, uri) == None && Stored(c, log, 3, uri) == Some(Parsed(c.env, NEW_FILE, 1, b))
  {
    hide Stores, Stored, AcceptedAt, Parsed, SkipFile, Plain;
    var log := Lowering(uri, a, b);
    StoresStart(c, log);
    StoresOf(c, log, 0, map[], uri);
    OpensPlain(c, map[], uri, a, 5);
    StoresNext(c, log, 0, map[]);
    var first: Store := map[][uri := Parsed(c.env, NEW_FILE, 5, a)];
    StoresOf(c, log, 1, first, uri);
    StoresNext(c, log, 1, first);
    assert StoreAfter(c.env, first, log[1]) == map[];
    StoresOf(c, log, 2, map[], uri);
    OpensPlain(c, map[], uri, b, 1);
    StoresNext(c, log, 2, map[]);
    var second: Store := map[][uri := Parsed(c.env, NEW_FILE, 1, b)];
    StoresOf(c, log, 3, second, uri);
  }

  /** Publications go back for a file that is opened again at a lower version, whatever its texts. */
  lemma LoweringGoesBack(c: Config, uri: Uri, a: string, b: string)
    requires Plain(c, a) && Plain(c, b)
    ensures AllAccepted(c, Lowering(uri, a, b)) && BackwardPublished(c, Lowering(uri, a, b), uri)
  {
    hide Plain, Parsed, Stored, AllAccepted, BackwardPublished;
    LoweringAccepted(c, uri, a, b);
    ParsedHas(c, NEW_FILE, 5, a);
    ParsedHas(c, NEW_FILE, 1, b);
    FallingIsBackward(c, Lowering(uri, a, b), uri, 0, 2);
  }
}
