/** The virtual file system: versioned files that are overwritten in place, and copies of them. */
module FileStore {
  import opened Options

  /** What the two YAML parsers make of a text; left open. */
  type Tree(0, !new)
  type RawNode(0, !new)
  type Object(0, !new)

  type Uri = string

  /** Which error the parsing of a file ended with. */
  datatype ParseError = NoError | TreeError | SyntaxError

  /** The code around the store: the file patterns and the foreign functions it calls. They yield None
      where the Go functions return an error. */
  datatype Environment = Environment(
    patterns: seq<string>,
    pathOf: Uri -> Option<string>,
    matches: (string, string) -> Option<bool>,
    parseTree: string -> Option<Tree>,
    parseNodes: string -> Option<seq<RawNode>>,
    decode: RawNode -> Object)

  /** The contents of a file. */
  datatype Snapshot = Snapshot(content: string, version: int, skip: bool, tree: Option<Tree>, objects: seq<Object>, err: ParseError)

  const NEW_FILE := Snapshot("", -1, false, None, [], NoError)

  // ---------------------------------------------------------------- which files are skipped

  const ACTIVATE_COMMENT := "# nobl9-language-server: activate"
  const API_VERSION_PREFIX := "apiVersion: n9/"

  predicate OccursAt(s: string, sub: string, i: nat) {
    i + |sub| <= |s| && s[i..i + |sub|] == sub
  }

  predicate Contains(s: string, sub: string) {
    exists i :: 0 <= i <= |s| && OccursAt(s, sub, i)
  }

  /** Pattern k decides: it matches or fails, and no earlier one does either. */
  predicate Decides(env: Environment, path: string, k: nat) {
    && k < |env.patterns|
    && env.matches(env.patterns[k], path) != Some(false)
    && forall j :: 0 <= j < k ==> env.matches(env.patterns[j], path) == Some(false)
  }

  /** The verdict of the patterns from k on. */
  function Verdict(env: Environment, path: string, k: nat): Option<bool>
    requires k <= |env.patterns|
    decreases |env.patterns| - k
  {
    if k == |env.patterns| then Some(true)
    else match env.matches(env.patterns[k], path)
      case None => None
      case Some(ok) => if ok then Some(false) else Verdict(env, path, k + 1)
  }

  /** None is the error case. */
  function SkipFile(env: Environment, uri: Uri, content: string): (r: Option<bool>) {
    if env.patterns == [] then
      Some(!(ACTIVATE_COMMENT <= content || Contains(content, API_VERSION_PREFIX)))
    else match env.pathOf(uri)
      case None => None
      case Some(path) => Verdict(env, path, 0)
  }

  lemma {:induction false} VerdictDecided(env: Environment, path: string, k: nat)
    requires k <= |env.patterns| && forall j :: 0 <= j < k ==> env.matches(env.patterns[j], path) == Some(false)
    ensures Verdict(env, path, k) == Some(false) <==>
            exists d: nat :: Decides(env, path, d) && env.matches(env.patterns[d], path).Some?
    ensures Verdict(env, path, k) == None <==>
            exists d: nat :: Decides(env, path, d) && env.matches(env.patterns[d], path).None?
    decreases |env.patterns| - k
  {
    if k < |env.patterns| {
      if env.matches(env.patterns[k], path) == Some(false) {
        VerdictDecided(env, path, k + 1);
      } else {
        assert Decides(env, path, k);
      }
    }
  }

  /** With patterns, a file is taken exactly when its path matches a pattern before any pattern
      fails; it is an error exactly when the path is unknown or a pattern fails first. */
  lemma PatternsDecide(env: Environment, uri: Uri, content: string)
    requires env.patterns != []
    ensures SkipFile(env, uri, content) == Some(false) <==>
            env.pathOf(uri).Some? && exists d: nat :: (Decides(env, env.pathOf(uri).value, d)
                                                       && env.matches(env.patterns[d], env.pathOf(uri).value).Some?)
    ensures SkipFile(env, uri, content) == None <==>
            env.pathOf(uri).None? || exists d: nat :: (Decides(env, env.pathOf(uri).value, d)
                                                       && env.matches(env.patterns[d], env.pathOf(uri).value).None?)
  {
    if env.pathOf(uri).Some? {
      VerdictDecided(env, env.pathOf(uri).value, 0);
    }
  }

  method ShouldSkipFile(env: Environment, uri: Uri, content: string) returns (r: Option<bool>)
    ensures r == SkipFile(env, uri, content)
  {
    if |env.patterns| == 0 {
      if ACTIVATE_COMMENT <= content || Contains(content, API_VERSION_PREFIX) {
        return Some(false);
      }
      return Some(true);
    }
    var fileName := env.pathOf(uri);
    if fileName.None? {
      return None;
    }
    for k := 0 to |env.patterns|
      invariant SkipFile(env, uri, content) == Verdict(env, fileName.value, k)
    {
      var ok := env.matches(env.patterns[k], fileName.value);
      if ok.None? {
        return None;
      }
      if ok.value {
        return Some(false);
      }
    }
    r := Some(true);
  }

  // ---------------------------------------------------------------- files

  function Decoded(env: Environment, nodes: seq<RawNode>): (objects: seq<Object>)
    ensures |objects| == |nodes| && forall i :: 0 <= i < |nodes| ==> objects[i] == env.decode(nodes[i])
  {
    seq(|nodes|, i requires 0 <= i < |nodes| => env.decode(nodes[i]))
  }

  /** A file after an update that is not skipped; an error leaves the old objects behind. */
  function Parsed(env: Environment, s: Snapshot, version: int, content: string): Snapshot {
    var tree := env.parseTree(content);
    if tree.None? then Snapshot(content, version, false, None, s.objects, TreeError)
    else match env.parseNodes(content)
      case None => Snapshot(content, version, false, tree, s.objects, SyntaxError)
      case Some(nodes) => Snapshot(content, version, false, tree, Decoded(env, nodes), NoError)
  }

  function Skipped(s: Snapshot, version: int, content: string): Snapshot {
    s.(content := content, version := version, skip := true)
  }

  /** Only newer versions count. */
  function Updated(env: Environment, s: Snapshot, skip: bool, version: int, content: string): Snapshot {
    if version <= s.version then s
    else if skip then Skipped(s, version, content)
    else Parsed(env, s, version, content)
  }

  class ObjectNode {
    const data: Object

    constructor (data: Object)
      ensures this.data == data
    {
      this.data := data;
    }
  }

  function Data(nodes: seq<ObjectNode>): (objects: seq<Object>)
    ensures |objects| == |nodes| && forall i :: 0 <= i < |nodes| ==> objects[i] == nodes[i].data
  {
    seq(|nodes|, i requires 0 <= i < |nodes| => nodes[i].data)
  }

  method ParseObjects(env: Environment, nodes: seq<RawNode>) returns (objects: seq<ObjectNode>)
    ensures fresh(objects) && Data(objects) == Decoded(env, nodes)
  {
    objects := [];
    for i := 0 to |nodes|
      invariant fresh(objects) && |objects| == i && forall k :: 0 <= k < i ==> objects[k].data == env.decode(nodes[k])
    {
      var node := new ObjectNode(env.decode(nodes[i]));
      objects := objects + [node];
    }
  }

  class File {
    const uri: Uri
    var content: string
    var version: int
    var skip: bool
    var objects: seq<ObjectNode>
    var tree: Option<Tree>
    var err: ParseError

    constructor (uri: Uri)
      ensures this.uri == uri && State() == NEW_FILE
    {
      this.uri := uri;
      content, version, skip, objects, tree, err := "", -1, false, [], None, NoError;
    }

    function State(): Snapshot
      reads this
    {
      Snapshot(content, version, skip, tree, Data(objects), err)
    }

    method Update(env: Environment, version: int, content: string)
      modifies this
      ensures State() == Updated(env, old(State()), false, version, content)
      ensures version <= old(this.version) ==> State() == old(State())
      ensures version > old(this.version) ==>
        && this.version == version && this.content == content && !skip && tree == env.parseTree(content)
        && (tree.None? ==> err == TreeError && objects == old(objects))
        && (tree.Some? && env.parseNodes(content).None? ==> err == SyntaxError && objects == old(objects))
        && (tree.Some? && env.parseNodes(content).Some? ==>
              err == NoError && Data(objects) == Decoded(env, env.parseNodes(content).value))
    {
      if !(version > this.version) {
        return;
      }
      this.version, this.content, this.skip := version, content, false;
      tree := env.parseTree(content);
      if tree.None? {
        err := TreeError;
        return;
      }
      var nodes := env.parseNodes(content);
      if nodes.None? {
        err := SyntaxError;
        return;
      }
      err := NoError;
      objects := ParseObjects(env, nodes.value);
    }

    method UpdateSkipped(version: int, content: string)
      modifies this
      ensures State() == if version <= old(this.version) then old(State()) else Skipped(old(State()), version, content)
      ensures tree == old(tree) && objects == old(objects) && err == old(err)
      ensures version > old(this.version) ==> this.version == version && this.content == content && skip
    {
      if !(version > this.version) {
        return;
      }
      this.version, this.content, this.skip := version, content, true;
    }

    method Copy() returns (c: File)
      ensures fresh(c) && fresh(c.objects) && c.uri == uri && c.State() == State()
    {
      var copied: seq<ObjectNode> := [];
      for i := 0 to |objects|
        invariant |copied| == i && fresh(copied) && forall k :: 0 <= k < i ==> copied[k].data == objects[k].data
      {
        var node := new ObjectNode(objects[i].data);
        copied := copied + [node];
      }
      c := new File(uri);
      c.content, c.version, c.skip, c.objects, c.tree, c.err := content, version, skip, copied, tree, err;
    }
  }

  // ---------------------------------------------------------------- the store

  type Store = map<Uri, Snapshot>

  datatype FsError = Fine | AlreadyExists | NotFound | AlreadyClosed | PatternError

  function OpenIn(env: Environment, store: Store, uri: Uri, content: string, version: int): (Store, FsError) {
    if uri in store then (store, AlreadyExists)
    else match SkipFile(env, uri, content)
      case None => (store, PatternError)
      case Some(skip) => (store[uri := Updated(env, NEW_FILE, skip, version, content)], Fine)
  }

  function ChangeIn(env: Environment, store: Store, uri: Uri, content: string, version: int): (Store, FsError) {
    if uri !in store then (store, NotFound)
    else match SkipFile(env, uri, content)
      case None => (store, PatternError)
      case Some(skip) => (store[uri := Updated(env, store[uri], skip, version, content)], Fine)
  }

  function CloseIn(store: Store, uri: Uri): (Store, FsError) {
    if uri !in store then (store, AlreadyClosed) else (store - {uri}, Fine)
  }

  class FS {
    const env: Environment
    var files: map<Uri, File>

    constructor (env: Environment)
      ensures Valid() && Contents() == map[] && this.env == env && files == map[]
    {
      this.env := env;
      files := map[];
    }

    /** Every URI has a file object of its own. */
    ghost predicate Valid()
      reads this
    {
      && (forall u :: u in files ==> files[u].uri == u)
      && (forall u, v :: u in files && v in files && u != v ==> files[u] != files[v])
    }

    function Contents(): Store
      reads this, files.Values
    {
      map u | u in files :: files[u].State()
    }

    /** A copy, so that later updates do not reach the reader. */
    method GetFile(uri: Uri) returns (file: File?)
      ensures file == null <==> uri !in files
      ensures file != null ==> fresh(file) && fresh(file.objects) && file.State() == Contents()[uri]
    {
      if uri !in files {
        return null;
      }
      file := files[uri].Copy();
    }

    predicate HasFile(uri: Uri)
      reads this
    {
      uri in files
    }

    method CloseFile(uri: Uri) returns (err: FsError)
      requires Valid()
      modifies this
      ensures Valid() && (Contents(), err) == CloseIn(old(Contents()), uri)
      ensures files.Values <= old(files.Values)
    {
      if !HasFile(uri) {
        return AlreadyClosed;
      }
      files := files - {uri};
      err := Fine;
      assert Contents() == old(Contents()) - {uri};
    }

    method UpdateOne(file: File, content: string, version: int) returns (err: FsError)
      modifies file
      ensures match SkipFile(env, file.uri, content)
              case None => err == PatternError && file.State() == old(file.State())
              case Some(skip) => err == Fine && file.State() == Updated(env, old(file.State()), skip, version, content)
    {
      var skip := ShouldSkipFile(env, file.uri, content);
      if skip.None? {
        return PatternError;
      }
      if skip.value {
        file.UpdateSkipped(version, content);
      } else {
        file.Update(env, version, content);
      }
      err := Fine;
    }

    method OpenFile(uri: Uri, content: string, version: int) returns (err: FsError)
      requires Valid()
      modifies this
      ensures Valid() && (Contents(), err) == OpenIn(env, old(Contents()), uri, content, version)
      ensures fresh(files.Values - old(files.Values))
    {
      hide Updated, SkipFile;
      if HasFile(uri) {
        return AlreadyExists;
      }
      var file := new File(uri);
      err := UpdateOne(file, content, version);
      if err != Fine {
        return;
      }
      files := files[uri := file];
      assert Contents() == old(Contents())[uri := file.State()];
    }

    method UpdateFile(uri: Uri, content: string, version: int) returns (err: FsError)
      requires Valid()
      modifies files.Values
      ensures Valid() && (Contents(), err) == ChangeIn(env, old(Contents()), uri, content, version)
    {
      hide Updated, SkipFile;
      if uri !in files {
        return NotFound;
      }
      var file := files[uri];
      err := UpdateOne(file, content, version);
      assert Contents() == old(Contents())[uri := file.State()];
      assert old(Contents())[uri := old(file.State())] == old(Contents());
    }

    method Perform(op: Op)
      requires Valid()
      modifies this, files.Values
      ensures Valid() && Contents() == StoreAfter(env, old(Contents()), op)
      ensures fresh(files.Values - old(files.Values))
    {
      hide Updated, SkipFile;
      var err;
      match op {
        case Opened(uri, content, version) => err := OpenFile(uri, content, version);
        case Changed(uri, content, version) => err := UpdateFile(uri, content, version);
        case Closed(uri) => err := CloseFile(uri);
      }
    }

    /** A copy taken before any number of operations still holds what was stored then. */
    method ReadThenPerform(uri: Uri, ops: seq<Op>) returns (file: File?)
      requires Valid()
      modifies this, files.Values
      ensures Valid() && Contents() == StoreRun(env, old(Contents()), ops)
      ensures file == null <==> uri !in old(Contents())
      ensures file != null ==> file.State() == old(Contents())[uri]
    {
      hide Updated, StoreAfter;
      file := GetFile(uri);
      for i := 0 to |ops|
        invariant Valid() && fresh(files.Values - old(files.Values))
        invariant file != null ==> file !in files.Values && file.State() == old(Contents())[uri]
        invariant Contents() == StoreRun(env, old(Contents()), ops[..i])
      {
        assert ops[..i + 1][..i] == ops[..i];
        Perform(ops[i]);
      }
      assert ops[..|ops|] == ops;
    }
  }

  // ---------------------------------------------------------------- runs

  /** A request that reaches the store. */
  datatype Op = Opened(uri: Uri, content: string, version: int) | Changed(uri: Uri, content: string, version: int) | Closed(uri: Uri)

  function Perform(env: Environment, store: Store, op: Op): (Store, FsError) {
    match op
    case Opened(uri, content, version) => OpenIn(env, store, uri, content, version)
    case Changed(uri, content, version) => ChangeIn(env, store, uri, content, version)
    case Closed(uri) => CloseIn(store, uri)
  }

  function StoreAfter(env: Environment, store: Store, op: Op): Store {
    Perform(env, store, op).0
  }

  function StoreRun(env: Environment, store: Store, ops: seq<Op>): Store {
    if ops == [] then store else StoreAfter(env, StoreRun(env, store, ops[..|ops| - 1]), ops[|ops| - 1])
  }
}
