/** Which requests the store accepts, told of the requests alone. */
module SyncSessions {
  import opened FileStore
  import opened SyncProtocol
  import opened SyncTexts
  import opened SyncHistory
  import opened SyncVersions

  /** The file was opened before request n and not closed since. */
  predicate IsOpen(log: seq<Op>, n: nat, uri: Uri)
    requires n <= |log|
  {
    exists o :: 0 <= o < n && log[o].Opened? && log[o].uri == uri && Closed(uri) !in log[o + 1..n]
  }

  /** A file that is open cannot be opened, one that is not cannot be changed or closed, and the patterns
      must not fail on a file that is opened or changed. */
  predicate Acceptable(c: Config, log: seq<Op>, j: nat)
    requires j < |log|
  {
    match log[j]
    case Opened(uri, content, _) => !IsOpen(log, j, uri) && SkipFile(c.env, uri, content).Some?
    case Changed(uri, content, _) => IsOpen(log, j, uri) && SkipFile(c.env, uri, content).Some?
    case Closed(uri) => IsOpen(log, j, uri)
  }

  lemma OpenStep(log: seq<Op>, n: nat, uri: Uri)
    requires n < |log|
    ensures IsOpen(log, n + 1, uri) <==>
            (log[n].Opened? && log[n].uri == uri) || (IsOpen(log, n, uri) && log[n] != Closed(uri))
  {
    if IsOpen(log, n + 1, uri) {
      var o :| 0 <= o < n + 1 && log[o].Opened? && log[o].uri == uri && Closed(uri) !in log[o + 1..n + 1];
      if o < n {
        assert log[o + 1..n + 1] == log[o + 1..n] + [log[n]];
      }
    }
    if log[n].Opened? && log[n].uri == uri {
      assert log[n + 1..n + 1] == [];
    }
    if IsOpen(log, n, uri) && log[n] != Closed(uri) {
      var o :| 0 <= o < n && log[o].Opened? && log[o].uri == uri && Closed(uri) !in log[o + 1..n];
      assert log[o + 1..n + 1] == log[o + 1..n] + [log[n]];
    }
  }

  lemma NothingOpen(log: seq<Op>, uri: Uri)
    ensures !IsOpen(log, 0, uri)
  {
  }

  /** While the requests are accepted, the store has exactly the files that are open. */
  lemma {:induction false} StoreIsOpen(c: Config, log: seq<Op>, n: nat, uri: Uri)
    requires n <= |log| && forall j :: 0 <= j < n ==> AcceptedAt(c, log, j)
    ensures Stored(c, log, n, uri).Some? <==> IsOpen(log, n, uri)
  {
    hide AcceptedAt, IsOpen, Stored;
    if n == 0 {
      NothingOpen(log, uri);
      NothingStored(c, log, uri);
    } else {
      StoreIsOpen(c, log, n - 1, uri);
      OpenStep(log, n - 1, uri);
      StoredStep(c, log, n - 1, uri);
      AcceptedIs(c, log, n - 1, log[n - 1].uri);
      AcceptedStores(c, log, n - 1, uri);
    }
  }

  lemma AcceptedStores(c: Config, log: seq<Op>, n: nat, uri: Uri)
    requires n < |log| && AcceptedAt(c, log, n)
    ensures uri in StoreAfter(c.env, StoreRun(c.env, map[], log[..n]), log[n]) <==>
            (log[n].Opened? && log[n].uri == uri) || (Stored(c, log, n, uri).Some? && log[n] != Closed(uri))
  {
    hide SkipFile, StoreRun;
  }

  /** What acceptance asks of the store. */
  lemma AcceptedIs(c: Config, log: seq<Op>, j: nat, uri: Uri)
    requires j < |log| && log[j].uri == uri
    ensures AcceptedAt(c, log, j) <==>
            match log[j]
            case Opened(_, content, _) => Stored(c, log, j, uri).None? && SkipFile(c.env, uri, content).Some?
            case Changed(_, content, _) => Stored(c, log, j, uri).Some? && SkipFile(c.env, uri, content).Some?
            case Closed(_) => Stored(c, log, j, uri).Some?
  {
    hide SkipFile, StoreRun;
  }

  /** Main theorem: all requests are accepted if and only if opens and closes of each file alternate, changes
      lie between them, and no pattern fails. */
  lemma AcceptedExactly(c: Config, log: seq<Op>)
    ensures AllAccepted(c, log) <==> forall j :: 0 <= j < |log| ==> Acceptable(c, log, j)
  {
    if AllAccepted(c, log) {
      forall j | 0 <= j < |log| ensures Acceptable(c, log, j) {
        StepAcceptable(c, log, j);
      }
    } else if forall j :: 0 <= j < |log| ==> Acceptable(c, log, j) {
      AcceptableAccepted(c, log, |log|);
    }
  }

  lemma StepAcceptable(c: Config, log: seq<Op>, j: nat)
    requires j < |log| && forall k :: 0 <= k < j ==> AcceptedAt(c, log, k)
    ensures AcceptedAt(c, log, j) <==> Acceptable(c, log, j)
  {
    hide AcceptedAt, IsOpen, Stored, SkipFile;
    StoreIsOpen(c, log, j, log[j].uri);
    AcceptedIs(c, log, j, log[j].uri);
  }

  lemma {:induction false} AcceptableAccepted(c: Config, log: seq<Op>, n: nat)
    requires n <= |log| && forall j :: 0 <= j < n ==> Acceptable(c, log, j)
    ensures forall j :: 0 <= j < n ==> AcceptedAt(c, log, j)
  {
    hide AcceptedAt, Acceptable;
    if n > 0 {
      AcceptableAccepted(c, log, n - 1);
      StepAcceptable(c, log, n - 1);
    }
  }
}
