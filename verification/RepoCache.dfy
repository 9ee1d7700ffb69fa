/** The cache in front of the platform's API: what a hit may return. */
module RepoCache {
  import opened Options
  import opened Strings

  type Object(0)
  type User(0)
  type Roles(0)

  /** What the four cached operations ask for. */
  datatype Query =
    | AllNames(kind: string, project: string)
    | OneObject(kind: string, name: string, project: string)
    | OneUser(id: string)
    | AllRoles

  /** What they store; Nil stands for "not found". */
  datatype Data = Nil | Names(names: seq<string>) | ObjectData(object_: Object) | UserData(user: User) | RolesData(roles: Roles)

  function Key(q: Query): string {
    match q
    case AllNames(kind, project) => "GetAllNames:" + kind + ":" + project
    case OneObject(kind, name, project) => "GetObject:" + kind + ":" + name + ":" + project
    case OneUser(id) => "GetUser:" + id
    case AllRoles => "GetRoles"
  }

  predicate ColonFree(s: string) {
    ':' !in s
  }

  predicate Clean(q: Query) {
    match q
    case AllNames(kind, _) => ColonFree(kind)
    case OneObject(kind, name, _) => ColonFree(kind) && ColonFree(name)
    case _ => true
  }

  /** The data has the type that the operation stores. */
  predicate Fits(q: Query, d: Data) {
    match q
    case AllNames(_, _) => d.Names?
    case OneObject(_, _, _) => d.ObjectData? || d.Nil?
    case OneUser(_) => d.UserData? || d.Nil?
    case AllRoles => d.RolesData?
  }

  // ---------------------------------------------------------------- the cache

  /** Five minutes, in nanoseconds. */
  const RETENTION: int := 300_000_000_000

  datatype CacheEntry = CacheEntry(data: Data, expiresAt: int)

  class DataCache {
    var cache: map<string, CacheEntry>

    constructor ()
      ensures cache == map[]
    {
      cache := map[];
    }

    method Get(key: string, now: int) returns (data: Data, hit: bool)
      ensures (if hit then Some(data) else None) == Cached(cache, key, now)
    {
      if key !in cache {
        return Nil, false;
      }
      var entry := cache[key];
      if now > entry.expiresAt {
        return Nil, false;
      }
      return entry.data, true;
    }

    method Put(key: string, data: Data, now: int)
      modifies this
      ensures cache == old(cache)[key := CacheEntry(data, now + RETENTION)]
    {
      cache := cache[key := CacheEntry(data, now + RETENTION)];
    }
  }

  function Cached(cache: map<string, CacheEntry>, key: string, now: int): Option<Data> {
    if key in cache && now <= cache[key].expiresAt then Some(cache[key].data) else None
  }

  // ---------------------------------------------------------------- histories

  /** One store into the cache. */
  datatype Stored = Stored(query: Query, data: Data, time: int)

  /** The cache after these stores. */
  function CacheAfter(log: seq<Stored>): map<string, CacheEntry> {
    if log == [] then map[]
    else
      var last := log[|log| - 1];
      CacheAfter(log[..|log| - 1])[Key(last.query) := CacheEntry(last.data, last.time + RETENTION)]
  }

  /** The most recent store for exactly this query. */
  predicate IsLatest(log: seq<Stored>, q: Query, i: nat) {
    && i < |log| && log[i].query == q
    && forall j :: i < j < |log| ==> log[j].query != q
  }

  predicate CleanLog(log: seq<Stored>) {
    forall i :: 0 <= i < |log| ==> Clean(log[i].query)
  }

  /** Every store has the type that its operation stores. */
  predicate TypedLog(log: seq<Stored>) {
    forall i :: 0 <= i < |log| ==> Fits(log[i].query, log[i].data)
  }

  // ---------------------------------------------------------------- keys

  lemma SplitAtColon(a: string, b: string, c: string, d: string)
    requires ColonFree(a) && ColonFree(c) && a + ":" + b == c + ":" + d
    ensures a == c && b == d
  {
    var s := a + ":" + b;
    IndexOfSplit(a, ':', b);
    IndexOfSplit(c, ':', d);
    assert s[..|a|] == a && s[..|c|] == c;
    assert s[|a| + 1..] == b && s[|c| + 1..] == d;
  }

  lemma DropPrefix(p: string, a: string, b: string)
    requires p + a == p + b
    ensures a == b
  {
    assert (p + a)[|p|..] == a && (p + b)[|p|..] == b;
  }

  /** The operation behind a key shows in its letters. */
  lemma KeyLetters(q: Query)
    ensures |Key(q)| >= 8
    ensures Key(q)[3] == (match q case AllNames(_, _) => 'A' case OneObject(_, _, _) => 'O' case OneUser(_) => 'U' case AllRoles => 'R')
  {
  }

  lemma ObjectKeys(k1: string, n1: string, p1: string, k2: string, n2: string, p2: string)
    requires ColonFree(k1) && ColonFree(k2)
    requires Key(OneObject(k1, n1, p1)) == Key(OneObject(k2, n2, p2))
    ensures k1 == k2 && n1 + ":" + p1 == n2 + ":" + p2
  {
    assert Key(OneObject(k1, n1, p1)) == "GetObject:" + (k1 + ":" + (n1 + ":" + p1));
    assert Key(OneObject(k2, n2, p2)) == "GetObject:" + (k2 + ":" + (n2 + ":" + p2));
    DropPrefix("GetObject:", k1 + ":" + (n1 + ":" + p1), k2 + ":" + (n2 + ":" + p2));
    SplitAtColon(k1, n1 + ":" + p1, k2, n2 + ":" + p2);
  }

  lemma NamesKeys(k1: string, p1: string, k2: string, p2: string)
    requires ColonFree(k1) && ColonFree(k2) && Key(AllNames(k1, p1)) == Key(AllNames(k2, p2))
    ensures k1 == k2 && p1 == p2
  {
    assert Key(AllNames(k1, p1)) == "GetAllNames:" + (k1 + ":" + p1);
    assert Key(AllNames(k2, p2)) == "GetAllNames:" + (k2 + ":" + p2);
    DropPrefix("GetAllNames:", k1 + ":" + p1, k2 + ":" + p2);
    SplitAtColon(k1, p1, k2, p2);
  }

  predicate ColonFreeKind(q: Query) {
    (q.AllNames? || q.OneObject?) ==> ColonFree(q.kind)
  }

  lemma ObjectKeyShape(kind: string, n1: string, p1: string, n2: string, p2: string)
    requires n1 + ":" + p1 == n2 + ":" + p2
    ensures Key(OneObject(kind, n1, p1)) == Key(OneObject(kind, n2, p2))
  {
    assert Key(OneObject(kind, n1, p1)) == "GetObject:" + kind + ":" + (n1 + ":" + p1);
    assert Key(OneObject(kind, n2, p2)) == "GetObject:" + kind + ":" + (n2 + ":" + p2);
  }

  /** Kinds have no colons. Then two queries share a key exactly if they are the same, or look for objects
      of one kind whose names and projects read the same with a colon between them. */
  lemma KeysCollideExactly(q: Query, r: Query)
    requires ColonFreeKind(q) && ColonFreeKind(r)
    ensures Key(q) == Key(r) <==>
            q == r || (q.OneObject? && r.OneObject? && q.kind == r.kind && q.name + ":" + q.project == r.name + ":" + r.project)
  {
    KeyLetters(q);
    KeyLetters(r);
    hide Key;
    if q.OneObject? && r.OneObject? {
      if Key(q) == Key(r) {
        ObjectKeys(q.kind, q.name, q.project, r.kind, r.name, r.project);
      } else if q.kind == r.kind && q.name + ":" + q.project == r.name + ":" + r.project {
        ObjectKeyShape(q.kind, q.name, q.project, r.name, r.project);
      }
    } else if q.AllNames? && r.AllNames? && Key(q) == Key(r) {
      NamesKeys(q.kind, q.project, r.kind, r.project);
    } else if q.OneUser? && r.OneUser? && Key(q) == Key(r) {
      UserKeys(q.id, r.id);
    }
  }

  lemma UserKeys(a: string, b: string)
    requires Key(OneUser(a)) == Key(OneUser(b))
    ensures a == b
  {
    DropPrefix("GetUser:", a, b);
  }

  /** With colon-free kinds and names, keys are injective, also across the operations. */
  lemma KeysInjective(q: Query, r: Query)
    requires Clean(q) && Clean(r) && Key(q) == Key(r)
    ensures q == r
  {
    hide Key;
    KeysCollideExactly(q, r);
    if q.OneObject? && r.OneObject? {
      SplitAtColon(q.name, q.project, r.name, r.project);
    }
  }

  /** A name with a colon can hit another object's entry. */
  lemma ColonsCollide(kind: string)
    ensures OneObject(kind, "a:b", "c") != OneObject(kind, "a", "b:c")
    ensures Key(OneObject(kind, "a:b", "c")) == Key(OneObject(kind, "a", "b:c"))
  {
    assert "a:b" + ":" + "c" == "a" + ":" + "b:c";
    ObjectKeyShape(kind, "a:b", "c", "a", "b:c");
    assert |"a:b"| != |"a"|;
  }

  // ---------------------------------------------------------------- what a hit returns

  lemma {:induction false} CacheHas(log: seq<Stored>, q: Query) returns (i: nat)
    requires CleanLog(log) && Clean(q)
    ensures Key(q) in CacheAfter(log) <==> IsLatest(log, q, i)
    ensures IsLatest(log, q, i) ==> CacheAfter(log)[Key(q)] == CacheEntry(log[i].data, log[i].time + RETENTION)
    ensures !IsLatest(log, q, i) ==> forall j :: 0 <= j < |log| ==> log[j].query != q
  {
    hide Key, Clean, Fits;
    i := 0;
    if log != [] {
      var init, last := log[..|log| - 1], log[|log| - 1];
      if last.query == q {
        i := |init|;
      } else {
        if Key(last.query) == Key(q) {
          KeysInjective(last.query, q);
        }
        i := CacheHas(init, q);
        assert forall j :: 0 <= j < |init| ==> log[j] == init[j];
      }
    }
  }

  /** In every history of stores a lookup hits exactly if the most recent store for the very same
      arguments is at most one retention period old; it then returns what that store put there. */
  lemma HitIsLatestOwnStore(log: seq<Stored>, q: Query, now: int) returns (i: nat)
    requires CleanLog(log) && Clean(q)
    ensures var hit := Cached(CacheAfter(log), Key(q), now);
            && (hit.Some? <==> IsLatest(log, q, i) && now <= log[i].time + RETENTION)
            && (hit.Some? ==> hit.value == log[i].data)
            && (!IsLatest(log, q, i) ==> forall j :: 0 <= j < |log| ==> log[j].query != q)
  {
    hide Key, Clean, Fits, CacheAfter;
    i := CacheHas(log, q);
  }

  /** Whatever the arguments, an entry under a query's key has the type of the query's operation. */
  lemma {:induction false} EntryFits(log: seq<Stored>, q: Query)
    requires TypedLog(log) && Key(q) in CacheAfter(log)
    ensures Fits(q, CacheAfter(log)[Key(q)].data)
  {
    hide Key, Fits;
    var init, last := log[..|log| - 1], log[|log| - 1];
    if Key(last.query) == Key(q) {
      KeyLetters(q);
      KeyLetters(last.query);
      SameOperationFits(q, last.query, last.data);
    } else {
      EntryFits(init, q);
    }
  }

  lemma SameOperationFits(q: Query, r: Query, d: Data)
    requires Fits(r, d) && q.AllNames? == r.AllNames? && q.OneObject? == r.OneObject? && q.OneUser? == r.OneUser?
    ensures Fits(q, d)
  {
  }

  // ---------------------------------------------------------------- get or fetch

  /** The cached operations. The backend's answer is None where its call fails; later is the time at
      which that answer is stored. */
  class Repo {
    const cache: DataCache
    ghost var log: seq<Stored>

    constructor ()
      ensures Valid() && fresh(cache) && log == []
    {
      cache := new DataCache();
      log := [];
    }

    ghost predicate Valid()
      reads this, cache
    {
      cache.cache == CacheAfter(log) && TypedLog(log)
    }

    method Store(q: Query, data: Data, later: int)
      requires Valid() && Fits(q, data)
      modifies this`log, cache
      ensures Valid() && log == old(log) + [Stored(q, data, later)]
    {
      cache.Put(Key(q), data, later);
      log := log + [Stored(q, data, later)];
    }

    method GetAllNames(kind: string, project: string, now: int, later: int, answer: Option<seq<string>>) returns (r: Option<seq<string>>)
      requires Valid()
      modifies this`log, cache
      ensures Valid()
      ensures var q := AllNames(kind, project);
              match Cached(CacheAfter(old(log)), Key(q), now)
              case Some(data) => r == Some(if data.Names? then data.names else []) && log == old(log)
              case None => r == answer && log == old(log) + (if answer.Some? then [Stored(q, Names(answer.value), later)] else [])
    {
      hide Key;
      var q := AllNames(kind, project);
      var data, ok := cache.Get(Key(q), now);
      if ok {
        return Some(if data.Names? then data.names else []);
      }
      if answer.Some? {
        Store(q, Names(answer.value), later);
      }
      r := answer;
    }

    method GetObject(kind: string, name: string, project: string, now: int, later: int, answer: Option<seq<Object>>) returns (r: Option<Option<Object>>)
      requires Valid()
      modifies this`log, cache
      ensures Valid()
      ensures var q := OneObject(kind, name, project);
              match Cached(CacheAfter(old(log)), Key(q), now)
              case Some(data) => r == Some(if data.ObjectData? then Some(data.object_) else None) && log == old(log)
              case None =>
                (match answer
                 case None => r == None && log == old(log)
                 case Some(objects) =>
                   if objects == [] then r == Some(None) && log == old(log) + [Stored(q, Nil, later)]
                   else r == Some(Some(objects[0])) && log == old(log) + [Stored(q, ObjectData(objects[0]), later)])
    {
      hide Key;
      var q := OneObject(kind, name, project);
      var data, ok := cache.Get(Key(q), now);
      if ok {
        return Some(if data.ObjectData? then Some(data.object_) else None);
      }
      if answer.None? {
        return None;
      }
      if |answer.value| == 0 {
        Store(q, Nil, later);
        return Some(None);
      }
      Store(q, ObjectData(answer.value[0]), later);
      r := Some(Some(answer.value[0]));
    }

    method GetUser(id: string, now: int, later: int, answer: Option<seq<User>>) returns (r: Option<Option<User>>)
      requires Valid()
      modifies this`log, cache
      ensures Valid()
      ensures var q := OneUser(id);
              match Cached(CacheAfter(old(log)), Key(q), now)
              case Some(data) => r == Some(if data.UserData? then Some(data.user) else None) && log == old(log)
              case None =>
                (match answer
                 case None => r == None && log == old(log)
                 case Some(users) =>
                   if |users| == 1 then r == Some(Some(users[0])) && log == old(log) + [Stored(q, UserData(users[0]), later)]
                   else r == Some(None) && log == old(log) + [Stored(q, Nil, later)])
    {
      hide Key;
      var q := OneUser(id);
      var data, ok := cache.Get(Key(q), now);
      if ok {
        return Some(if data.UserData? then Some(data.user) else None);
      }
      if answer.None? {
        return None;
      }
      if |answer.value| == 1 {
        Store(q, UserData(answer.value[0]), later);
        return Some(Some(answer.value[0]));
      }
      Store(q, Nil, later);
      r := Some(None);
    }

    method GetRoles(now: int, later: int, answer: Option<Roles>) returns (r: Option<Option<Roles>>)
      requires Valid()
      modifies this`log, cache
      ensures Valid()
      ensures match Cached(CacheAfter(old(log)), Key(AllRoles), now)
              case Some(data) => r == Some(if data.RolesData? then Some(data.roles) else None) && log == old(log)
              case None =>
                (match answer
                 case None => r == None && log == old(log)
                 case Some(roles) => r == Some(Some(roles)) && log == old(log) + [Stored(AllRoles, RolesData(roles), later)])
    {
      hide Key;
      var data, ok := cache.Get(Key(AllRoles), now);
      if ok {
        return Some(if data.RolesData? then Some(data.roles) else None);
      }
      if answer.None? {
        return None;
      }
      Store(AllRoles, RolesData(answer.value), later);
      r := Some(answer);
    }
  }
}
