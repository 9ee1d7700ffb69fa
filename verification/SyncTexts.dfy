/** The accepted requests of a run, and the text that the store has for a version. */
module SyncTexts {
  import opened FileStore
  import opened FileRuns
  import opened SyncProtocol
  import opened SyncSafety

  // ---------------------------------------------------------------- the log

  /** Every request in the log was accepted when it came. */
  ghost predicate AllAccepted(c: Config, log: seq<Op>) {
    forall i :: 0 <= i < |log| ==> AcceptedAt(c, log, i)
  }

  ghost predicate AcceptedAt(c: Config, log: seq<Op>, i: nat)
    requires i < |log|
  {
    Perform(c.env, StoreRun(c.env, map[], log[..i]), log[i]).1 == Fine
  }

  lemma AcceptedSnoc(c: Config, log: seq<Op>, op: Op)
    requires AllAccepted(c, log) && Perform(c.env, StoreRun(c.env, map[], log), op).1 == Fine
    ensures AllAccepted(c, log + [op])
  {
    var all := log + [op];
    forall i | 0 <= i < |all| ensures AcceptedAt(c, all, i) {
      if i < |log| {
        assert all[..i] == log[..i];
        assert AcceptedAt(c, log, i);
      } else {
        assert all[..i] == log;
      }
    }
  }

  lemma StoreSnoc(c: Config, log: seq<Op>, op: Op)
    ensures StoreRun(c.env, map[], log + [op]) == StoreAfter(c.env, StoreRun(c.env, map[], log), op)
  {
    assert (log + [op])[..|log|] == log;
  }

  lemma {:induction false} LogAccepted(c: Config, actions: seq<Action>)
    requires Possible(c, START, actions)
    ensures var s := After(c, START, actions);
            AllAccepted(c, s.log) && s.store == StoreRun(c.env, map[], s.log)
  {
    hide AllAccepted, Perform, Apply, StoreRun, Enabled;
    if actions == [] {
      NothingAccepted(c);
    } else {
      LogAccepted(c, actions[..|actions| - 1]);
      var s := After(c, START, actions[..|actions| - 1]);
      var a := actions[|actions| - 1];
      if a.FromClient() {
        ClientStep(c, s, a);
        if Apply(c, s, a) != s {
          AcceptedSnoc(c, s.log, OpOf(a).value);
          StoreSnoc(c, s.log, OpOf(a).value);
        }
      } else {
        InternalKeepsStore(c, s, a);
      }
    }
  }

  lemma NothingAccepted(c: Config)
    ensures AllAccepted(c, []) && StoreRun(c.env, map[], []) == map[]
  {
  }

  lemma InternalKeepsStore(c: Config, s: State, a: Action)
    requires Enabled(s, a) && !a.FromClient()
    ensures Apply(c, s, a).store == s.store && Apply(c, s, a).log == s.log
  {
  }

  lemma LogNotShorter(c: Config, s: State, a: Action)
    requires Enabled(s, a)
    ensures s.log <= Apply(c, s, a).log
  {
    hide Perform;
  }

  /** The client message that a request in the log comes from: opened as a file of the server's language,
      or changed as a whole by a single change. */
  predicate ComesFrom(op: Op, a: Action) {
    match op
    case Opened(uri, content, version) => a == DidOpen("yaml", uri, content, version)
    case Changed(uri, content, version) => a == DidChange(uri, [content], version)
    case Closed(uri) => a == DidClose(uri)
  }

  /** Every request in the log comes from a client message of the run, and they come in the same order. */
  lemma {:induction false} LogFromMessages(c: Config, run: seq<Action>) returns (at: seq<nat>)
    requires Possible(c, START, run)
    ensures |at| == |After(c, START, run).log|
    ensures forall i :: 0 <= i < |at| ==> at[i] < |run| && ComesFrom(After(c, START, run).log[i], run[at[i]])
    ensures forall i, j :: 0 <= i < j < |at| ==> at[i] < at[j]
  {
    hide Enabled, Apply, Perform, ComesFrom;
    at := [];
    if run != [] {
      var init, a := run[..|run| - 1], run[|run| - 1];
      var s := After(c, START, init);
      at := LogFromMessages(c, init);
      if a.FromClient() {
        ClientStep(c, s, a);
        if Apply(c, s, a) != s {
          OpComesFrom(a);
          at := at + [|init|];
        }
      } else {
        InternalKeepsStore(c, s, a);
      }
    }
  }

  lemma OpComesFrom(a: Action)
    ensures OpOf(a).Some? ==> ComesFrom(OpOf(a).value, a)
  {
  }

  // ---------------------------------------------------------------- published texts

  /** The diagnostics of a text parsed from scratch. */
  function ReportOf(c: Config, text: string): Report {
    Diagnose(c, Parsed(c.env, NEW_FILE, 0, text))
  }

  /** What is reported for a stored file depends on its text alone: the error of a text that cannot be
      parsed, and otherwise what the diagnosis of its tree and objects finds. */
  lemma CoherentReport(c: Config, uri: Uri, s: Snapshot)
    requires Coherent(c.env, uri, s) && !s.skip
    ensures Diagnose(c, s) == ReportOf(c, s.content)
    ensures Diagnose(c, s) ==
            if c.env.parseTree(s.content).None? then c.broken(TreeError, s.content)
            else match c.env.parseNodes(s.content)
              case None => c.broken(SyntaxError, s.content)
              case Some(nodes) => c.full(c.env.parseTree(s.content), Decoded(c.env, nodes))
  {
    hide SkipFile;
  }

  /** Request i is the first one for this file with this version, so its text is the text that was
      accepted for the version. */
  predicate Introduces(log: seq<Op>, i: nat, uri: Uri, version: int) {
    && i < |log|
    && Sends(log[i], uri) && log[i].version == version
    && forall j :: 0 <= j < i && Sends(log[j], uri) ==> log[j].version != version
  }

  // ---------------------------------------------------------------- clients that open a file once

  predicate OpenedOnce(log: seq<Op>, uri: Uri) {
    forall i, j :: 0 <= i < j < |log| && log[i].Opened? && log[i].uri == uri ==> !(log[j].Opened? && log[j].uri == uri)
  }

  /** A file that is opened once, with a version that is not negative, is opened freshly. */
  lemma OnceIsFresh(c: Config, log: seq<Op>, uri: Uri)
    requires AllAccepted(c, log) && NaturalVersions(log, uri) && OpenedOnce(log, uri)
    ensures FreshOpens(log, uri)
  {
    hide AllAccepted;
    forall i, j | 0 <= i < j < |log| ensures !(log[j].Opened? && log[j].uri == uri && Sends(log[i], uri)) {
      if log[i].Changed? && log[i].uri == uri {
        var o := OpenBefore(c, log, i);
      }
    }
  }

  lemma OpenBefore(c: Config, log: seq<Op>, i: nat) returns (o: nat)
    requires AllAccepted(c, log) && i < |log| && log[i].Changed? && NaturalVersions(log, log[i].uri)
    ensures o < i && log[o].Opened? && log[o].uri == log[i].uri
  {
    hide AllAccepted, Effective;
    ChangedIsOpen(c, log, i);
    NaturalPrefix(log, i, log[i].uri);
    NaturalNotBlank(c.env, log[..i], log[i].uri);
    var k;
    o, k := RunCurrent(c.env, log[..i], log[i].uri);
    assert log[o] == log[..i][o];
  }

  lemma NaturalPrefix(log: seq<Op>, n: nat, uri: Uri)
    requires NaturalVersions(log, uri) && n <= |log|
    ensures NaturalVersions(log[..n], uri)
  {
  }

  lemma ChangedIsOpen(c: Config, log: seq<Op>, i: nat)
    requires AllAccepted(c, log) && i < |log| && log[i].Changed?
    ensures log[i].uri in StoreRun(c.env, map[], log[..i])
  {
    hide StoreRun;
    assert AcceptedAt(c, log, i);
  }
}
