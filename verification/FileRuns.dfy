/** What every sequence of open, change and close requests leaves in the store. */
module FileRuns {
  import opened Options
  import opened FileStore

  // ---------------------------------------------------------------- coherence

  /** Everything in the file belongs to its content; after a failed parse only the objects may not. */
  ghost predicate Coherent(env: Environment, uri: Uri, s: Snapshot) {
    && SkipFile(env, uri, s.content) == Some(s.skip)
    && (!s.skip ==>
          && s.tree == env.parseTree(s.content)
          && (s.err == TreeError <==> s.tree.None?)
          && (s.err == SyntaxError <==> s.tree.Some? && env.parseNodes(s.content).None?)
          && (s.err == NoError ==> s.objects == Decoded(env, env.parseNodes(s.content).value)))
  }

  /** This file is opened with versions from 0 on. */
  predicate NaturalVersions(ops: seq<Op>, uri: Uri) {
    forall i :: 0 <= i < |ops| && ops[i].Opened? && ops[i].uri == uri ==> ops[i].version >= 0
  }

  lemma UpdatedCoherent(env: Environment, uri: Uri, s: Snapshot, skip: bool, version: int, content: string)
    requires SkipFile(env, uri, content) == Some(skip)
    requires version > s.version || Coherent(env, uri, s)
    ensures Coherent(env, uri, Updated(env, s, skip, version, content))
  {
    hide SkipFile;
  }

  /** The file, if it is open and has a version from 0 on, is coherent. */
  ghost predicate CoherentAt(env: Environment, store: Store, uri: Uri) {
    uri in store && store[uri].version >= 0 ==> Coherent(env, uri, store[uri])
  }

  lemma StepCoherent(env: Environment, store: Store, op: Op, uri: Uri)
    requires CoherentAt(env, store, uri)
    ensures CoherentAt(env, StoreAfter(env, store, op), uri)
  {
    StepVersion(env, store, op, uri);
    hide SkipFile, Coherent;
    if op.uri == uri && !op.Closed? && SkipFile(env, uri, op.content).Some? {
      var skip := SkipFile(env, uri, op.content).value;
      if op.version > NEW_FILE.version {
        UpdatedCoherent(env, uri, NEW_FILE, skip, op.version, op.content);
      }
      if uri in store && (op.version > store[uri].version || store[uri].version >= 0) {
        UpdatedCoherent(env, uri, store[uri], skip, op.version, op.content);
      }
    }
  }

  lemma StepVersion(env: Environment, store: Store, op: Op, uri: Uri)
    ensures var after := StoreAfter(env, store, op);
            uri in after && !(uri in store && after[uri] == store[uri]) ==>
              && !op.Closed? && op.uri == uri && SkipFile(env, uri, op.content).Some?
              && after[uri] == Updated(env, if uri in store then store[uri] else NEW_FILE,
                                       SkipFile(env, uri, op.content).value, op.version, op.content)
  {
    hide SkipFile, Updated;
  }

  /** Over every run a file stays coherent from its first version above those of blank files on. */
  lemma {:induction false} RunCoherent(env: Environment, ops: seq<Op>, uri: Uri)
    ensures CoherentAt(env, StoreRun(env, map[], ops), uri)
  {
    hide StoreAfter, Coherent;
    if ops != [] {
      RunCoherent(env, ops[..|ops| - 1], uri);
      StepCoherent(env, StoreRun(env, map[], ops[..|ops| - 1]), ops[|ops| - 1], uri);
    }
  }

  /** A file holds what it was opened with exactly when its first version is not negative (or
      happens to be that of a blank file). */
  lemma OpenedHolds(env: Environment, store: Store, uri: Uri, content: string, version: int)
    requires uri !in store && SkipFile(env, uri, content).Some?
    ensures var after := StoreAfter(env, store, Opened(uri, content, version));
            && uri in after
            && (after[uri].content == content && after[uri].version == version
                <==> version >= 0 || (version == -1 && content == ""))
  {
    hide SkipFile;
  }

  // ---------------------------------------------------------------- versions

  /** While a file stays open its version never decreases, and a version names one snapshot. */
  lemma StepMonotone(env: Environment, store: Store, op: Op, uri: Uri)
    requires uri in store && uri in StoreAfter(env, store, op)
    ensures StoreAfter(env, store, op)[uri].version >= store[uri].version
    ensures StoreAfter(env, store, op)[uri].version == store[uri].version ==> StoreAfter(env, store, op)[uri] == store[uri]
  {
    hide SkipFile;
  }

  /** A change request for this file that reaches it. */
  predicate Effective(env: Environment, op: Op, uri: Uri) {
    op.Changed? && op.uri == uri && SkipFile(env, uri, op.content).Some?
  }

  /** Opened by request o and never closed since, the file holds the text of request i, the first
      one with the highest version. */
  predicate IsCurrent(env: Environment, ops: seq<Op>, uri: Uri, s: Snapshot, o: nat, i: nat) {
    && o <= i < |ops|
    && ops[o].Opened? && ops[o].uri == uri
    && (i > o ==> Effective(env, ops[i], uri) && ops[o].version < s.version)
    && s.version == ops[i].version && s.content == ops[i].content
    && (forall j :: o < j < |ops| ==> ops[j] != Closed(uri))
    && (forall j :: o < j < |ops| && Effective(env, ops[j], uri) ==>
          ops[j].version <= s.version && (j < i ==> ops[j].version < s.version))
  }

  lemma CurrentKept(env: Environment, ops: seq<Op>, op: Op, uri: Uri, s: Snapshot, o: nat, i: nat)
    requires IsCurrent(env, ops, uri, s, o, i)
    requires op != Closed(uri) && (Effective(env, op, uri) ==> op.version <= s.version)
    ensures IsCurrent(env, ops + [op], uri, s, o, i)
  {
    hide SkipFile;
    var all := ops + [op];
    forall j | o < j < |all| && Effective(env, all[j], uri)
      ensures all[j].version <= s.version && (j < i ==> all[j].version < s.version)
    {
      if j < |ops| {
        assert all[j] == ops[j];
      }
    }
  }

  lemma CurrentReplaced(env: Environment, ops: seq<Op>, op: Op, uri: Uri, s: Snapshot, t: Snapshot, o: nat, i: nat)
    requires IsCurrent(env, ops, uri, s, o, i)
    requires Effective(env, op, uri) && op.version > s.version && t.version == op.version && t.content == op.content
    ensures IsCurrent(env, ops + [op], uri, t, o, |ops|)
  {
    var all := ops + [op];
    hide SkipFile;
    forall j | o < j < |all| && Effective(env, all[j], uri)
      ensures all[j].version <= t.version && (j < |ops| ==> all[j].version < t.version)
    {
      if j < |ops| {
        assert all[j] == ops[j];
      }
    }
  }

  lemma UpdatedHolds(env: Environment, s: Snapshot, skip: bool, version: int, content: string)
    ensures var t := Updated(env, s, skip, version, content);
            if version <= s.version then t == s else t.version == version && t.content == content
  {
  }

  /** How one request changes one file. */
  lemma StepOn(env: Environment, store: Store, op: Op, uri: Uri)
    ensures var after := StoreAfter(env, store, op);
            && (op == Closed(uri) ==> uri !in after)
            && (uri in store && op != Closed(uri) ==>
                  && uri in after
                  && if Effective(env, op, uri) && op.version > store[uri].version
                     then after[uri].version == op.version && after[uri].content == op.content
                     else after[uri] == store[uri])
            && (uri !in store && uri in after ==> op.Opened? && op.uri == uri && SkipFile(env, uri, op.content).Some?)
            && (uri !in store && uri in after ==>
                  if op.version >= 0 then after[uri].version == op.version && after[uri].content == op.content
                  else after[uri] == NEW_FILE)
  {
    hide SkipFile;
    UpdatedHolds(env, NEW_FILE, true, 0, "");
  }

  /** Opened by request o below version 0 and with nothing newer since, the file is blank. */
  predicate IsBlank(env: Environment, ops: seq<Op>, uri: Uri, s: Snapshot, o: nat) {
    && o < |ops|
    && ops[o].Opened? && ops[o].uri == uri && ops[o].version < 0
    && s == NEW_FILE
    && (forall j :: o < j < |ops| ==> ops[j] != Closed(uri))
    && (forall j :: o < j < |ops| && Effective(env, ops[j], uri) ==> ops[j].version < 0)
  }

  lemma BlankKept(env: Environment, ops: seq<Op>, op: Op, uri: Uri, s: Snapshot, o: nat)
    requires IsBlank(env, ops, uri, s, o)
    requires op != Closed(uri) && (Effective(env, op, uri) ==> op.version < 0)
    ensures IsBlank(env, ops + [op], uri, s, o)
  {
    hide SkipFile;
    var all := ops + [op];
    forall j | o < j < |all| && Effective(env, all[j], uri) ensures all[j].version < 0 {
      if j < |ops| {
        assert all[j] == ops[j];
      }
    }
  }

  lemma BlankReplaced(env: Environment, ops: seq<Op>, op: Op, uri: Uri, s: Snapshot, t: Snapshot, o: nat)
    requires IsBlank(env, ops, uri, s, o)
    requires Effective(env, op, uri) && op.version >= 0 && t.version == op.version && t.content == op.content
    ensures IsCurrent(env, ops + [op], uri, t, o, |ops|)
  {
    hide SkipFile;
    var all := ops + [op];
    forall j | o < j < |all| && Effective(env, all[j], uri)
      ensures all[j].version <= t.version && (j < |ops| ==> all[j].version < t.version)
    {
      if j < |ops| {
        assert all[j] == ops[j];
      }
    }
  }

  /** Over every run, an open file is blank exactly as long as nothing newer than a blank file has come
      in. */
  lemma {:induction false} RunBlank(env: Environment, ops: seq<Op>, uri: Uri) returns (o: nat)
    requires uri in StoreRun(env, map[], ops) && StoreRun(env, map[], ops)[uri].version < 0
    ensures IsBlank(env, ops, uri, StoreRun(env, map[], ops)[uri], o)
  {
    hide StoreAfter, SkipFile;
    var init, op := ops[..|ops| - 1], ops[|ops| - 1];
    var before := StoreRun(env, map[], init);
    assert init + [op] == ops;
    StepOn(env, before, op, uri);
    if uri in before {
      StepMonotone(env, before, op, uri);
      o := RunBlank(env, init, uri);
      hide IsBlank;
      BlankIs(env, init, uri, before[uri], o);
      BlankKept(env, init, op, uri, before[uri], o);
    } else {
      o := |init|;
    }
  }

  lemma BlankIs(env: Environment, ops: seq<Op>, uri: Uri, s: Snapshot, o: nat)
    requires IsBlank(env, ops, uri, s, o)
    ensures s == NEW_FILE && o < |ops| && ops[o].Opened? && ops[o].uri == uri && ops[o].version < 0
  {
  }

  /** Over every run, an open file's content and version, if from 0 on, are those of the first request
      with the highest version since it was opened. */
  lemma {:induction false} RunCurrent(env: Environment, ops: seq<Op>, uri: Uri) returns (o: nat, i: nat)
    requires uri in StoreRun(env, map[], ops) && StoreRun(env, map[], ops)[uri].version >= 0
    ensures IsCurrent(env, ops, uri, StoreRun(env, map[], ops)[uri], o, i)
  {
    hide StoreAfter, SkipFile;
    var init, op := ops[..|ops| - 1], ops[|ops| - 1];
    var before := StoreRun(env, map[], init);
    var after := StoreRun(env, map[], ops);
    assert init + [op] == ops;
    StepOn(env, before, op, uri);
    if uri in before && before[uri].version >= 0 {
      o, i := RunCurrent(env, init, uri);
      hide IsCurrent;
      if Effective(env, op, uri) && op.version > before[uri].version {
        CurrentReplaced(env, init, op, uri, before[uri], after[uri], o, i);
        i := |init|;
      } else {
        CurrentKept(env, init, op, uri, before[uri], o, i);
      }
    } else if uri in before {
      o := RunBlank(env, init, uri);
      i := |init|;
      BlankReplaced(env, init, op, uri, before[uri], after[uri], o);
    } else {
      o, i := |init|, |init|;
    }
  }

  /** A file that is opened with versions from 0 on never has another. */
  lemma NaturalNotBlank(env: Environment, ops: seq<Op>, uri: Uri)
    requires NaturalVersions(ops, uri) && uri in StoreRun(env, map[], ops)
    ensures StoreRun(env, map[], ops)[uri].version >= 0
  {
    hide StoreRun, IsBlank;
    if StoreRun(env, map[], ops)[uri].version < 0 {
      var o := RunBlank(env, ops, uri);
      BlankIs(env, ops, uri, StoreRun(env, map[], ops)[uri], o);
    }
  }
}
