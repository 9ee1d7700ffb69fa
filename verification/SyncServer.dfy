/** The server object, whose methods change its fields and the file system in place, one atomic step
    at a time; every step is the protocol machine's. */
module SyncServer {
  import opened Options
  import opened FileStore
  import opened SyncProtocol

  class Server {
    const config: Config
    const files: FS
    var handler: Handler
    var documentUpdates: seq<Event>
    var worker: Worker
    var published: seq<Publication>
    ghost var log: seq<Op>
    ghost var failures: nat

    constructor (config: Config)
      ensures Valid() && fresh(files) && this.config == config && Abstract() == START
    {
      this.config := config;
      files := new FS(config.env);
      handler, documentUpdates, worker, published := Idle, [], NotStarted, [];
      log, failures := [], 0;
    }

    ghost predicate Valid()
      reads this, files
    {
      files.Valid() && files.env == config.env
    }

    ghost function Abstract(): State
      reads this, files, files.files.Values
    {
      State(files.Contents(), handler, documentUpdates, worker, published, log, failures)
    }

    /** Notes an accepted request and the event that is to be pushed. */
    method Accept(err: FsError, ghost op: Op, next: Handler)
      modifies this`handler, this`log
      ensures handler == (if err == Fine then next else old(handler))
      ensures log == (if err == Fine then old(log) + [op] else old(log))
    {
      if err == Fine {
        handler := next;
        log := log + [op];
      }
    }

    method DidOpen(lang: string, uri: Uri, text: string, version: int)
      requires Valid() && handler.Idle?
      modifies this, files
      ensures Valid() && Abstract() == HandleDidOpen(config, old(Abstract()), lang, uri, text, version)
      ensures fresh(files.files.Values - old(files.files.Values))
    {
      hide OpenIn;
      if lang != LANGUAGE {
        return;
      }
      var err := files.OpenFile(uri, text, version);
      Accept(err, Opened(uri, text, version), Pushing(Event(uri, version, text)));
      RefusedKeeps(config.env, old(files.Contents()), Opened(uri, text, version));
    }

    method DidChange(uri: Uri, texts: seq<string>, version: int)
      requires Valid() && handler.Idle?
      modifies this, files.files.Values
      ensures Valid() && Abstract() == HandleDidChange(config, old(Abstract()), uri, texts, version)
    {
      hide ChangeIn;
      if |texts| != 1 {
        return;
      }
      var err := files.UpdateFile(uri, texts[0], version);
      Accept(err, Changed(uri, texts[0], version), Pushing(Event(uri, version, texts[0])));
      RefusedKeeps(config.env, old(files.Contents()), Changed(uri, texts[0], version));
    }

    method DidClose(uri: Uri)
      requires Valid() && handler.Idle?
      modifies this, files
      ensures Valid() && Abstract() == HandleDidClose(config, old(Abstract()), uri)
      ensures files.files.Values <= old(files.files.Values)
    {
      var err := files.CloseFile(uri);
      Accept(err, Closed(uri), Idle);
    }

    /** The worker's first read: a copy of the file, unless there is nothing to diagnose. */
    method ReadSnapshot()
      requires Valid() && worker.Got?
      modifies this`worker
      ensures Valid() && Abstract() == old(Abstract()).(worker := ReadFirst(old(Abstract())))
    {
      var event := worker.event;
      var file := files.GetFile(event.uri);
      if file == null || file.skip {
        worker := Waiting;
      } else {
        worker := Reading(event, file.State());
      }
    }

    /** The worker's second read, after diagnosing: has the version changed? */
    method ReadVersion()
      requires Valid() && worker.Reading?
      modifies this`worker
      ensures Valid() && Abstract() == old(Abstract()).(worker := ReadSecond(old(Abstract())))
    {
      var event, snap := worker.event, worker.snap;
      var file := files.GetFile(event.uri);
      if file != null && file.version != event.version {
        worker := Waiting;
      } else {
        worker := Publishing(event, snap, if file != null then Some(file.State()) else None);
      }
    }

    /** The steps that only move events along. */
    method Move(a: Action)
      requires Valid() && Enabled(Abstract(), a) && (a.Push? || a.Launch? || a.Take? || a.Fails())
      modifies this`handler, this`documentUpdates, this`worker, this`failures
      ensures Valid() && Abstract() == Apply(config, old(Abstract()), a)
    {
      hide Published, HandleDidOpen, HandleDidChange, HandleDidClose, ReadFirst, ReadSecond, Perform, FS.Contents, FS.Valid;
      ghost var s := Abstract();
      match a {
        case Push => documentUpdates, handler := documentUpdates + [handler.event], Idle;
        case Launch => worker := Waiting;
        case Take => worker, documentUpdates := Got(documentUpdates[0]), documentUpdates[1..];
        case Fail => worker, failures := Waiting, failures + 1;
        case Hang => worker, failures := Hung, failures + 1;
      }
      assert files.Contents() == s.store;
    }

    method PublishReport()
      requires Valid() && worker.Publishing?
      modifies this`published, this`worker
      ensures Valid()
      ensures var s := old(Abstract());
              Abstract() == s.(worker := Waiting, published := s.published + [Published(config, s.worker)])
    {
      hide Published;
      published, worker := published + [Published(config, worker)], Waiting;
    }

    /** One step of the running server. */
    method Step(a: Action)
      requires Valid() && Enabled(Abstract(), a)
      modifies this, files, files.files.Values
      ensures Valid() && Abstract() == Apply(config, old(Abstract()), a)
      ensures fresh(files.files.Values - old(files.files.Values))
    {
      hide HandleDidOpen, HandleDidChange, HandleDidClose, ReadFirst, ReadSecond, Published;
      match a {
        case DidOpen(lang, uri, text, version) => DidOpen(lang, uri, text, version);
        case DidChange(uri, texts, version) => DidChange(uri, texts, version);
        case DidClose(uri) => DidClose(uri);
        case FirstRead => ReadSnapshot();
        case SecondRead => ReadVersion();
        case Publish => PublishReport();
        case _ => Move(a);
      }
    }

    /** A whole interleaving: the server object goes through the machine's states. */
    method Run(actions: seq<Action>)
      requires Valid() && Possible(config, START, actions) && Abstract() == START
      modifies this, files, files.files.Values
      ensures Valid() && Abstract() == After(config, START, actions)
    {
      hide Apply, Enabled;
      for i := 0 to |actions|
        invariant Valid() && fresh(files.files.Values - old(files.files.Values))
        invariant Possible(config, START, actions[..i]) && Abstract() == After(config, START, actions[..i])
      {
        PossiblePrefix(config, actions, i + 1);
        assert actions[..i + 1][..i] == actions[..i];
        Step(actions[i]);
      }
      assert actions[..|actions|] == actions;
    }
  }

  /** A refused request leaves the store as it was. */
  lemma RefusedKeeps(env: Environment, store: Store, op: Op)
    ensures Perform(env, store, op).1 != Fine ==> Perform(env, store, op).0 == store
  {
    hide SkipFile, Updated;
  }

  lemma {:induction false} PossiblePrefix(c: Config, actions: seq<Action>, n: nat)
    requires Possible(c, START, actions) && n <= |actions|
    ensures Possible(c, START, actions[..n])
    decreases |actions|
  {
    hide Apply, Enabled;
    if n == |actions| {
      assert actions[..n] == actions;
    } else {
      PossiblePrefix(c, actions[..|actions| - 1], n);
      assert actions[..|actions| - 1][..n] == actions[..n];
    }
  }
}
