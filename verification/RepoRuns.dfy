/** What any sequence of cached operations answers, told without a cache. */
module RepoRuns {
  import opened Options
  import opened RepoCache

  /** A call of one of the four operations, with the time of its lookup and the backend's answer, which
      would be stored later. */
  datatype Call =
    | NamesCall(kind: string, project: string, now: int, later: int, names: Option<seq<string>>)
    | ObjectCall(kind: string, name: string, project: string, now: int, later: int, objects: Option<seq<Object>>)
    | UserCall(id: string, now: int, later: int, users: Option<seq<User>>)
    | RolesCall(now: int, later: int, roles: Option<Roles>)
  {
    function Asked(): Query {
      match this
      case NamesCall(kind, project, _, _, _) => AllNames(kind, project)
      case ObjectCall(kind, name, project, _, _, _) => OneObject(kind, name, project)
      case UserCall(id, _, _, _) => OneUser(id)
      case RolesCall(_, _, _) => AllRoles
    }

    /** The backend's answer as the operation reports it; None where the call of the backend fails. */
    function Own(): Option<Data> {
      match this
      case NamesCall(_, _, _, _, names) => if names.Some? then Some(Names(names.value)) else None
      case ObjectCall(_, _, _, _, _, objects) =>
        if objects.None? then None
        else Some(if objects.value == [] then Nil else ObjectData(objects.value[0]))
      case UserCall(_, _, _, users) =>
        if users.None? then None
        else Some(if |users.value| == 1 then UserData(users.value[0]) else Nil)
      case RolesCall(_, _, roles) => if roles.Some? then Some(RolesData(roles.value)) else None
    }
  }

  // ---------------------------------------------------------------- the reference

  /** The backend's answer to the first call is good for the second: it was asked for the very same, and
      it is young enough. */
  predicate Answers(first: Call, second: Call) {
    first.Asked() == second.Asked() && first.Own().Some? && second.now <= first.later + RETENTION
  }

  /** The call asks the backend: the backend's answers to the calls before it are no good for it. */
  ghost predicate Asks(calls: seq<Call>, k: nat) {
    k < |calls| && forall i: nat :: i < k && Asks(calls, i) ==> !Answers(calls[i], calls[k])
  }

  /** The backend's answer to call i serves for call k. */
  ghost predicate Serves(calls: seq<Call>, i: nat, k: nat) {
    i < k < |calls| && Asks(calls, i) && Answers(calls[i], calls[k])
  }

  /** Call i stores an answer for this query. */
  ghost predicate Keeps(calls: seq<Call>, i: nat, q: Query) {
    Asks(calls, i) && calls[i].Asked() == q && calls[i].Own().Some?
  }

  /** A user is found exactly if the backend answers with this user alone, an object if it comes first. */
  lemma FoundExactly(call: Call, user: User, o: Object)
    ensures call.UserCall? ==> (call.Own() == Some(UserData(user)) <==> call.users == Some([user]))
    ensures call.ObjectCall? ==> (call.Own() == Some(ObjectData(o)) <==> call.objects.Some? && [o] <= call.objects.value)
  {
    if call.UserCall? && call.users.Some? && |call.users.value| == 1 {
      assert call.users.value == [call.users.value[0]];
    }
  }

  // ---------------------------------------------------------------- the operations

  function Reply(log: seq<Stored>, call: Call): Option<Data> {
    var hit := Cached(CacheAfter(log), Key(call.Asked()), call.now);
    if hit.Some? then hit else call.Own()
  }

  /** The look-up finds nothing, and the operation asks the backend. */
  predicate Misses(log: seq<Stored>, call: Call) {
    Cached(CacheAfter(log), Key(call.Asked()), call.now).None?
  }

  function LogNext(log: seq<Stored>, call: Call): seq<Stored> {
    if Cached(CacheAfter(log), Key(call.Asked()), call.now).Some? || call.Own().None? then log
    else log + [Stored(call.Asked(), call.Own().value, call.later)]
  }

  function LogOf(calls: seq<Call>): seq<Stored> {
    if calls == [] then [] else LogNext(LogOf(calls[..|calls| - 1]), calls[|calls| - 1])
  }

  lemma HitFits(repo: Repo, q: Query, now: int)
    requires repo.Valid()
    ensures var hit := Cached(CacheAfter(repo.log), Key(q), now); hit.Some? ==> Fits(q, hit.value)
  {
    hide Key, Fits;
    if Key(q) in CacheAfter(repo.log) {
      EntryFits(repo.log, q);
    }
  }

  /** One call, its result told as data. */
  method Perform(repo: Repo, call: Call) returns (r: Option<Data>)
    requires repo.Valid()
    modifies repo`log, repo.cache
    ensures repo.Valid()
    ensures r == Reply(old(repo.log), call) && repo.log == LogNext(old(repo.log), call)
  {
    hide Key, CacheAfter;
    HitFits(repo, call.Asked(), call.now);
    match call {
      case NamesCall(kind, project, now, later, names) =>
        var answer := repo.GetAllNames(kind, project, now, later, names);
        r := if answer.Some? then Some(Names(answer.value)) else None;
      case ObjectCall(kind, name, project, now, later, objects) =>
        var answer := repo.GetObject(kind, name, project, now, later, objects);
        r := if answer.None? then None else Some(if answer.value.Some? then ObjectData(answer.value.value) else Nil);
      case UserCall(id, now, later, users) =>
        var answer := repo.GetUser(id, now, later, users);
        r := if answer.None? then None else Some(if answer.value.Some? then UserData(answer.value.value) else Nil);
      case RolesCall(now, later, roles) =>
        var answer := repo.GetRoles(now, later, roles);
        r := if answer.None? then None else Some(if answer.value.Some? then RolesData(answer.value.value) else Nil);
    }
  }

  // ---------------------------------------------------------------- any sequence of calls

  /** Kinds and names have no colons. */
  predicate CleanCalls(calls: seq<Call>) {
    forall i :: 0 <= i < |calls| ==> Clean(calls[i].Asked())
  }

  /** The calls come one after the other and the clock never goes back. */
  predicate InOrder(calls: seq<Call>) {
    forall i :: 0 <= i < |calls| ==> calls[i].now <= calls[i].later && forall j :: i < j < |calls| ==> calls[i].later <= calls[j].now
  }

  /** The last of the first k calls that stores an answer for the query. */
  ghost predicate LastKeeps(calls: seq<Call>, k: nat, q: Query, i: nat) {
    && i < k <= |calls|
    && Keeps(calls, i, q)
    && forall j :: i < j < k ==> !Keeps(calls, j, q)
  }

  ghost predicate NoneKeeps(calls: seq<Call>, k: nat, q: Query) {
    forall i :: 0 <= i < k ==> !Keeps(calls, i, q)
  }

  /** What the cache has for a query after k calls. */
  ghost predicate CacheTold(calls: seq<Call>, k: nat, q: Query)
    requires k <= |calls|
  {
    var cache := CacheAfter(LogOf(calls[..k]));
    && (Key(q) !in cache <==> NoneKeeps(calls, k, q))
    && forall i: nat :: LastKeeps(calls, k, q, i) ==>
                     Key(q) in cache && cache[Key(q)] == CacheEntry(calls[i].Own().value, calls[i].later + RETENTION)
  }

  lemma {:induction false} LastOf(calls: seq<Call>, k: nat, q: Query) returns (i: nat)
    requires k <= |calls|
    ensures LastKeeps(calls, k, q, i) || NoneKeeps(calls, k, q)
  {
    hide Keeps;
    i := 0;
    if k > 0 {
      if Keeps(calls, k - 1, q) {
        i := k - 1;
      } else {
        i := LastOf(calls, k - 1, q);
      }
    }
  }

  lemma ServesIs(calls: seq<Call>, i: nat, k: nat)
    ensures Serves(calls, i, k) <==>
            i < k < |calls| && Keeps(calls, i, calls[k].Asked()) && calls[k].now <= calls[i].later + RETENTION
  {
  }

  lemma KeepsIs(calls: seq<Call>, i: nat, q: Query)
    requires Keeps(calls, i, q)
    ensures i < |calls| && Asks(calls, i) && calls[i].Own().Some? && calls[i].Asked() == q
  {
  }

  lemma AsksIs(calls: seq<Call>, k: nat)
    ensures Asks(calls, k) <==> k < |calls| && forall i: nat :: i < k ==> !Serves(calls, i, k)
  {
    if k < |calls| && !Asks(calls, k) {
      var i: nat :| i < k && Asks(calls, i) && Answers(calls[i], calls[k]);
      assert Serves(calls, i, k);
    }
  }

  lemma OrderedAt(calls: seq<Call>, i: nat, k: nat)
    requires InOrder(calls) && i < k < |calls|
    ensures calls[i].now <= calls[i].later <= calls[k].now
  {
  }

  lemma OnlyLastServes(calls: seq<Call>, k: nat, q: Query, i: nat, last: nat)
    requires InOrder(calls) && k < |calls| && q == calls[k].Asked()
    requires Serves(calls, i, k) && LastKeeps(calls, k, q, last)
    ensures i == last
  {
    hide Serves, Keeps, Asks;
    ServesIs(calls, i, k);
    KeepsIs(calls, last, q);
    if i < last {
      AsksIs(calls, last);
      ServesIs(calls, i, last);
      OrderedAt(calls, last, k);
    }
  }

  lemma AsksAfterNone(calls: seq<Call>, k: nat, q: Query)
    requires k < |calls| && q == calls[k].Asked() && NoneKeeps(calls, k, q)
    ensures Asks(calls, k)
  {
    hide Serves, Keeps, Asks;
    AsksIs(calls, k);
    forall i: nat | i < k ensures !Serves(calls, i, k) {
      ServesIs(calls, i, k);
    }
  }

  lemma AsksAfterLast(calls: seq<Call>, k: nat, q: Query, last: nat)
    requires InOrder(calls) && k < |calls| && q == calls[k].Asked() && LastKeeps(calls, k, q, last)
    ensures Asks(calls, k) <==> calls[k].now > calls[last].later + RETENTION
    ensures calls[last].Own().Some?
  {
    hide Serves, Keeps, Asks, InOrder;
    KeepsIs(calls, last, q);
    AsksIs(calls, k);
    ServesIs(calls, last, k);
    forall i: nat | i < k && Serves(calls, i, k) ensures i == last {
      OnlyLastServes(calls, k, q, i, last);
    }
  }

  lemma ToldHit(calls: seq<Call>, k: nat, q: Query, last: nat, now: int)
    requires k <= |calls| && CacheTold(calls, k, q)
    ensures var hit := Cached(CacheAfter(LogOf(calls[..k])), Key(q), now);
            && (NoneKeeps(calls, k, q) ==> hit == None)
            && (LastKeeps(calls, k, q, last) && calls[last].Own().Some? ==>
                  hit == if now <= calls[last].later + RETENTION then calls[last].Own() else None)
  {
    hide Key, CacheAfter, LogOf, Keeps;
  }

  /** The cache hits exactly when some earlier answer serves, and that answer is the hit. */
  lemma HitServes(calls: seq<Call>, k: nat)
    requires InOrder(calls) && k < |calls| && CacheTold(calls, k, calls[k].Asked())
    ensures var hit := Cached(CacheAfter(LogOf(calls[..k])), Key(calls[k].Asked()), calls[k].now);
            && (hit.None? <==> Asks(calls, k))
            && forall i: nat :: i < k && Serves(calls, i, k) ==> hit == calls[i].Own()
  {
    hide *;
    var q := calls[k].Asked();
    var last := LastOf(calls, k, q);
    ToldHit(calls, k, q, last, calls[k].now);
    AsksIs(calls, k);
    if NoneKeeps(calls, k, q) {
      AsksAfterNone(calls, k, q);
    } else {
      AsksAfterLast(calls, k, q, last);
      forall i: nat | i < k && Serves(calls, i, k) ensures i == last {
        OnlyLastServes(calls, k, q, i, last);
      }
    }
  }

  lemma LogOfNext(calls: seq<Call>, k: nat)
    requires k < |calls|
    ensures LogOf(calls[..k + 1]) == LogNext(LogOf(calls[..k]), calls[k])
  {
    assert calls[..k + 1][..k] == calls[..k];
  }

  lemma CacheAfterSnoc(log: seq<Stored>, last: Stored)
    ensures CacheAfter(log + [last]) == CacheAfter(log)[Key(last.query) := CacheEntry(last.data, last.time + RETENTION)]
  {
    assert (log + [last])[..|log|] == log;
  }

  lemma LogNextIs(calls: seq<Call>, k: nat)
    requires k < |calls|
    ensures var log := LogOf(calls[..k]);
            LogNext(log, calls[k]) ==
            if Cached(CacheAfter(log), Key(calls[k].Asked()), calls[k].now).Some? || calls[k].Own().None? then log
            else log + [Stored(calls[k].Asked(), calls[k].Own().value, calls[k].later)]
  {
    hide LogOf, CacheAfter;
  }

  lemma KeepsHere(calls: seq<Call>, k: nat)
    requires k < |calls|
    ensures Keeps(calls, k, calls[k].Asked()) <==> Asks(calls, k) && calls[k].Own().Some?
  {
    hide Asks;
  }

  /** The cache after one more call. */
  lemma CacheNext(calls: seq<Call>, k: nat)
    requires InOrder(calls) && k < |calls| && CacheTold(calls, k, calls[k].Asked())
    ensures CacheAfter(LogOf(calls[..k + 1])) ==
            if Keeps(calls, k, calls[k].Asked())
            then CacheAfter(LogOf(calls[..k]))[Key(calls[k].Asked()) := CacheEntry(calls[k].Own().value, calls[k].later + RETENTION)]
            else CacheAfter(LogOf(calls[..k]))
  {
    hide *;
    HitServes(calls, k);
    LogOfNext(calls, k);
    LogNextIs(calls, k);
    KeepsHere(calls, k);
    if Keeps(calls, k, calls[k].Asked()) {
      CacheAfterSnoc(LogOf(calls[..k]), Stored(calls[k].Asked(), calls[k].Own().value, calls[k].later));
    }
  }

  lemma {:induction false} CacheIsTold(calls: seq<Call>, k: nat, q: Query)
    requires CleanCalls(calls) && InOrder(calls) && Clean(q) && k <= |calls|
    ensures CacheTold(calls, k, q)
  {
    hide Key, Clean, CacheAfter, LogOf, Keeps, InOrder;
    if k == 0 {
      NothingCached(calls);
    } else {
      var r := calls[k - 1].Asked();
      CacheIsTold(calls, k - 1, q);
      CacheIsTold(calls, k - 1, r);
      CacheNext(calls, k - 1);
      if Keeps(calls, k - 1, r) && r != q && Key(r) == Key(q) {
        KeysInjective(r, q);
      }
      if Keeps(calls, k - 1, q) {
        KeepsIs(calls, k - 1, q);
      } else {
        ToldLonger(calls, k, q);
      }
    }
  }

  lemma NothingCached(calls: seq<Call>)
    ensures CacheAfter(LogOf(calls[..0])) == map[]
  {
  }

  lemma ToldLonger(calls: seq<Call>, k: nat, q: Query)
    requires 0 < k <= |calls| && !Keeps(calls, k - 1, q)
    ensures NoneKeeps(calls, k, q) <==> NoneKeeps(calls, k - 1, q)
    ensures forall i: nat :: LastKeeps(calls, k, q, i) <==> LastKeeps(calls, k - 1, q, i)
  {
    hide Keeps;
  }

  /** The reply to call k of the sequence. */
  function ReplyAt(calls: seq<Call>, k: nat): Option<Data>
    requires k < |calls|
  {
    Reply(LogOf(calls[..k]), calls[k])
  }

  /** Call k of the sequence asks the backend. */
  predicate MissesAt(calls: seq<Call>, k: nat)
    requires k < |calls|
  {
    Misses(LogOf(calls[..k]), calls[k])
  }

  /** Main theorem: in every sequence of the four operations a call answers with the backend's answer to
      it, or with the one to an earlier call for the very same arguments that is stored and at most one
      retention period old; it asks the backend exactly if there is none. */
  lemma RepliesExactly(calls: seq<Call>, k: nat)
    requires CleanCalls(calls) && InOrder(calls) && k < |calls|
    ensures MissesAt(calls, k) <==> Asks(calls, k)
    ensures Asks(calls, k) ==> ReplyAt(calls, k) == calls[k].Own()
    ensures forall i: nat :: i < k && Serves(calls, i, k) ==> ReplyAt(calls, k) == calls[i].Own()
  {
    hide Key, CacheAfter, LogOf, Asks, Serves, CacheTold;
    CacheIsTold(calls, k, calls[k].Asked());
    HitServes(calls, k);
    forall i: nat | i < k && Serves(calls, i, k) ensures calls[i].Own().Some? {
      ServesIs(calls, i, k);
      KeepsIs(calls, i, calls[k].Asked());
    }
  }

  /** A repository answers every sequence of calls so. */
  method Run(calls: seq<Call>) returns (replies: seq<Option<Data>>)
    ensures |replies| == |calls|
    ensures forall k :: 0 <= k < |calls| ==> replies[k] == ReplyAt(calls, k)
    ensures CleanCalls(calls) && InOrder(calls) ==>
              forall k :: 0 <= k < |calls| ==>
                && (MissesAt(calls, k) <==> Asks(calls, k))
                && (Asks(calls, k) ==> replies[k] == calls[k].Own())
                && (forall i: nat :: i < k && Serves(calls, i, k) ==> replies[k] == calls[i].Own())
  {
    hide Asks, Serves, LogNext, LogOf, Reply, InOrder, CleanCalls, Misses;
    var repo := new Repo();
    replies := [];
    NothingLogged(calls);
    for n := 0 to |calls|
      invariant repo.Valid() && fresh(repo) && fresh(repo.cache)
      invariant repo.log == LogOf(calls[..n]) && |replies| == n
      invariant forall k :: 0 <= k < n ==> replies[k] == ReplyAt(calls, k)
    {
      LogOfNext(calls, n);
      var reply := Perform(repo, calls[n]);
      replies := replies + [reply];
    }
    if CleanCalls(calls) && InOrder(calls) {
      forall k | 0 <= k < |calls|
        ensures MissesAt(calls, k) <==> Asks(calls, k)
        ensures Asks(calls, k) ==> replies[k] == calls[k].Own()
        ensures forall i: nat :: i < k && Serves(calls, i, k) ==> replies[k] == calls[i].Own()
      {
        RepliesExactly(calls, k);
      }
    }
  }

  lemma NothingLogged(calls: seq<Call>)
    ensures LogOf(calls[..0]) == []
  {
  }
}
