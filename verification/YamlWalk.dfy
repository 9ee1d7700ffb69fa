/** What a path finds in a YAML tree: one step per segment. */
module YamlWalk {
  import opened Options
  import opened PathText

  datatype Entry = Entry(key: string, value: Ast)

  /** The shapes of nodes that a path tells apart; Single is a mapping with one entry. */
  datatype Ast =
    | Mapping(entries: seq<Entry>)
    | Single(entry: Entry)
    | Sequence(items: seq<Ast>)
    | Other(text: string)

  datatype Found = Node(node: Ast) | Missing | Failed

  /** One segment leads to a node as a whole and to the node where the next segment starts. */
  datatype Step = Hit(whole: Ast, inner: Ast) | NoKey | NoFit

  /** Go's unquoting of a double-quoted key; it may fail. */
  type Unquote = string -> Option<string>

  function Unquoted(name: string): string {
    if |name| > 1 && name[0] == '\'' && name[|name| - 1] == '\'' then name[1..|name| - 1] else name
  }

  function UnquoteKey(unquote: Unquote, key: string): Option<string> {
    if key == "" then Some(key)
    else if key[0] == '"' then unquote(key)
    else Some(Unquoted(key))
  }

  /** The first entry with the key; a key that cannot be unquoted before it is an error. */
  function StepInto(unquote: Unquote, entries: seq<Entry>, name: string): Step {
    if entries == [] then NoKey
    else
      match UnquoteKey(unquote, entries[0].key)
      case None => NoFit
      case Some(key) =>
        if key == name then Hit(Single(entries[0]), entries[0].value)
        else StepInto(unquote, entries[1..], name)
  }

  function StepOf(unquote: Unquote, s: Segment, node: Ast): Step {
    match s
    case Child(name) =>
      (match node
       case Mapping(entries) => StepInto(unquote, entries, Unquoted(name))
       case Single(entry) => if entry.key == Unquoted(name) then Hit(node, entry.value) else NoKey
       case _ => NoFit)
    case Index(i) =>
      if node.Sequence? && i < |node.items| then Hit(node.items[i], node.items[i]) else NoFit
  }

  function Walk(unquote: Unquote, segments: seq<Segment>, node: Ast): Found {
    if segments == [] then Node(node)
    else
      match StepOf(unquote, segments[0], node)
      case NoKey => Missing
      case NoFit => Failed
      case Hit(whole, inner) => if |segments| == 1 then Node(whole) else Walk(unquote, segments[1..], inner)
  }

  /** How many segments lead somewhere before one does not. */
  function Depth(unquote: Unquote, segments: seq<Segment>, node: Ast): (d: nat)
    ensures d <= |segments|
  {
    if segments == [] then 0
    else
      match StepOf(unquote, segments[0], node)
      case Hit(_, inner) => 1 + Depth(unquote, segments[1..], inner)
      case _ => 0
  }

  /** A path finds a node exactly as far as all its segments lead; a longer one ends the way the
      whole path does. */
  lemma {:induction false} WalkPrefix(unquote: Unquote, segments: seq<Segment>, node: Ast, k: nat)
    requires k <= |segments|
    ensures k <= Depth(unquote, segments, node) ==>
      Walk(unquote, segments[..k], node).Node? && Depth(unquote, segments[..k], node) == k
    ensures k > Depth(unquote, segments, node) ==>
      !Walk(unquote, segments, node).Node? && Walk(unquote, segments[..k], node) == Walk(unquote, segments, node)
  {
    if k > 0 {
      assert segments[..k][1..] == segments[1..][..k - 1];
      match StepOf(unquote, segments[0], node)
      case Hit(_, inner) => WalkPrefix(unquote, segments[1..], inner, k - 1);
      case _ =>
    }
  }

  /** A path finds a node if and only if every segment leads somewhere. */
  lemma WalkFinds(unquote: Unquote, segments: seq<Segment>, node: Ast)
    ensures Walk(unquote, segments, node).Node? <==> Depth(unquote, segments, node) == |segments|
  {
    assert segments[..|segments|] == segments;
    WalkPrefix(unquote, segments, node, |segments|);
  }
}
