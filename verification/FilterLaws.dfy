/** Which node a path finds, told of the tree itself: a tree is built around a node from the inside out,
    and with it the path that leads back to the node. */
module FilterLaws {
  import opened Options
  import opened PathText
  import opened YamlWalk
  import opened YamlPath

  // ---------------------------------------------------------------- keys

  /** The text of a key stands for this name: as it is, in single quotes, or in double quotes. */
  predicate Stands(unquote: Unquote, text: string, name: string) {
    || (text == name && (text == "" || text[0] !in {'"', '\''}))
    || text == "'" + name + "'"
    || (text != "" && text[0] == '"' && unquote(text) == Some(name))
  }

  /** The selector asks for this name, with or without single quotes. */
  predicate Selects(selector: string, name: string) {
    || (selector == name && !(|name| > 1 && name[0] == '\'' && name[|name| - 1] == '\''))
    || selector == "'" + name + "'"
  }

  /** The entries' keys all stand for other names. */
  ghost predicate OtherKeys(unquote: Unquote, entries: seq<Entry>, name: string) {
    forall i :: 0 <= i < |entries| ==> StandsForOther(unquote, entries[i].key, name)
  }

  ghost predicate StandsForOther(unquote: Unquote, text: string, name: string) {
    exists other: string :: other != name && Stands(unquote, text, other)
  }

  lemma StandsIs(unquote: Unquote, text: string, name: string)
    requires Stands(unquote, text, name)
    ensures UnquoteKey(unquote, text) == Some(name)
  {
    if text == "'" + name + "'" {
      assert text[1..|text| - 1] == name;
    }
  }

  lemma SelectsIs(selector: string, name: string)
    requires Selects(selector, name)
    ensures Unquoted(selector) == name
  {
    if selector == "'" + name + "'" {
      assert selector[1..|selector| - 1] == name;
    }
  }

  // ---------------------------------------------------------------- building

  /** One step outwards: the node is put between items of a sequence, behind entries with other keys of a
      mapping, or alone into a mapping of its own. */
  datatype Layer =
    | Between(items: seq<Ast>, others: seq<Ast>)
    | Under(entries: seq<Entry>, key: string, rest: seq<Entry>, selector: string)
    | Alone(key: string, selector: string)

  function Around(layer: Layer, node: Ast): Ast {
    match layer
    case Between(items, others) => Sequence(items + [node] + others)
    case Under(entries, key, rest, _) => Mapping(entries + [Entry(key, node)] + rest)
    case Alone(key, _) => Single(Entry(key, node))
  }

  /** What leads from the outer node to the inner one. */
  function Leading(layer: Layer): Segment {
    match layer
    case Between(items, _) => Index(|items|)
    case Under(_, _, _, selector) => Child(selector)
    case Alone(_, selector) => Child(selector)
  }

  /** The selector is for the key, and no entry before has a key for the same name. A mapping with one
      entry is looked up by the text of its key. */
  ghost predicate Leads(unquote: Unquote, layer: Layer) {
    match layer
    case Between(_, _) => true
    case Under(entries, key, _, selector) =>
      exists name: string :: Stands(unquote, key, name) && Selects(selector, name) && OtherKeys(unquote, entries, name)
    case Alone(key, selector) => Selects(selector, key)
  }

  /** The answer to a path that ends here: the item, or the entry with its key. */
  function Answer(layer: Layer, node: Ast): Ast {
    match layer
    case Between(_, _) => node
    case Under(_, key, _, _) => Single(Entry(key, node))
    case Alone(key, _) => Single(Entry(key, node))
  }

  /** The whole tree; the first layer is the outermost. */
  function Tree(layers: seq<Layer>, node: Ast): Ast {
    if layers == [] then node else Around(layers[0], Tree(layers[1..], node))
  }

  function PathTo(layers: seq<Layer>): (segments: seq<Segment>)
    ensures |segments| == |layers|
  {
    if layers == [] then [] else [Leading(layers[0])] + PathTo(layers[1..])
  }

  ghost predicate AllLead(unquote: Unquote, layers: seq<Layer>) {
    forall i :: 0 <= i < |layers| ==> Leads(unquote, layers[i])
  }

  function Target(layers: seq<Layer>, node: Ast): Ast {
    if layers == [] then node else Answer(layers[|layers| - 1], node)
  }

  // ---------------------------------------------------------------- finding

  lemma {:induction false} FirstWithKey(unquote: Unquote, entries: seq<Entry>, e: Entry, rest: seq<Entry>, name: string)
    requires Stands(unquote, e.key, name) && OtherKeys(unquote, entries, name)
    ensures StepInto(unquote, entries + [e] + rest, name) == Hit(Single(e), e.value)
  {
    hide Stands;
    if entries == [] {
      assert entries + [e] + rest == [e] + rest;
      StandsIs(unquote, e.key, name);
    } else {
      assert StandsForOther(unquote, entries[0].key, name);
      var other: string :| other != name && Stands(unquote, entries[0].key, other);
      StandsIs(unquote, entries[0].key, other);
      FirstWithKey(unquote, entries[1..], e, rest, name);
      assert (entries + [e] + rest)[1..] == entries[1..] + [e] + rest;
    }
  }

  lemma {:induction false} NoneWithKey(unquote: Unquote, entries: seq<Entry>, name: string)
    requires OtherKeys(unquote, entries, name)
    ensures StepInto(unquote, entries, name) == NoKey
  {
    hide Stands;
    if entries != [] {
      assert StandsForOther(unquote, entries[0].key, name);
      var other: string :| other != name && Stands(unquote, entries[0].key, other);
      StandsIs(unquote, entries[0].key, other);
      NoneWithKey(unquote, entries[1..], name);
    }
  }

  lemma StepLeads(unquote: Unquote, layer: Layer, node: Ast)
    requires Leads(unquote, layer)
    ensures StepOf(unquote, Leading(layer), Around(layer, node)) == Hit(Answer(layer, node), node)
  {
    hide Stands, Selects, OtherKeys, StepInto;
    match layer
    case Between(items, others) =>
    case Under(entries, key, rest, selector) =>
      var name: string :| Stands(unquote, key, name) && Selects(selector, name) && OtherKeys(unquote, entries, name);
      SelectsIs(selector, name);
      FirstWithKey(unquote, entries, Entry(key, node), rest, name);
    case Alone(key, selector) =>
      SelectsIs(selector, key);
  }

  /** Reading on behind the built path is reading from the node. */
  lemma {:induction false} WalkBuilt(unquote: Unquote, layers: seq<Layer>, node: Ast, more: seq<Segment>)
    requires AllLead(unquote, layers)
    ensures Walk(unquote, PathTo(layers) + more, Tree(layers, node)) ==
            if more == [] then Node(Target(layers, node)) else Walk(unquote, more, node)
    ensures Depth(unquote, PathTo(layers) + more, Tree(layers, node)) == |layers| + Depth(unquote, more, node)
    decreases |layers|
  {
    hide StepOf, Leads, Leading, Around, Answer;
    var path := PathTo(layers) + more;
    if layers == [] {
      assert path == more;
    } else {
      var inner := layers[1..];
      StepLeads(unquote, layers[0], Tree(inner, node));
      WalkBuilt(unquote, inner, node, more);
      assert path[0] == Leading(layers[0]) && path[1..] == PathTo(inner) + more;
    }
  }

  /** Main theorem: filtering a tree with the path to one of its nodes finds exactly that node for a last
      subscript, exactly that entry for a last key, at once and without shortening the path. */
  method FilterBuilt(p: Path, unquote: Unquote, ghost layers: seq<Layer>, ghost node: Ast, tree: Ast) returns (r: Filtered)
    requires p.Valid() && p.Steps() == PathTo(layers)
    requires AllLead(unquote, layers) && tree == Tree(layers, node)
    modifies p, p.spine
    ensures r == Filtered(Some(Target(layers, node)), true)
    ensures p.Valid() && p.Steps() == PathTo(layers)
  {
    hide *;
    ghost var attempts;
    ghost var steps := p.Steps();
    WalkBuilt(unquote, layers, node, []);
    NoMore(unquote, node);
    assert steps + [] == steps && steps[..|steps|] == steps;
    r, attempts := p.FilterNode(unquote, tree);
  }

  lemma NoMore(unquote: Unquote, node: Ast)
    ensures Depth(unquote, [], node) == 0 && Walk(unquote, [], node) == Node(node)
  {
  }

  /** A mapping without a key for this name; one with a single entry is asked for its key's text. */
  ghost predicate Lacks(unquote: Unquote, node: Ast, name: string) {
    match node
    case Mapping(entries) => OtherKeys(unquote, entries, name)
    case Single(entry) => entry.key != name
    case _ => false
  }

  lemma MissingKey(unquote: Unquote, node: Ast, name: string, selector: string, more: seq<Segment>)
    requires Selects(selector, name) && Lacks(unquote, node, name)
    ensures Walk(unquote, [Child(selector)] + more, node) == Missing
    ensures Depth(unquote, [Child(selector)] + more, node) == 0
  {
    hide Selects, OtherKeys, StepInto;
    SelectsIs(selector, name);
    if node.Mapping? {
      NoneWithKey(unquote, node.entries, name);
    }
  }

  /** With a key that a mapping does not have, and whatever comes behind it, the mapping's own place is
      found, and the path is cut to it. */
  method FilterMissing(p: Path, unquote: Unquote, ghost layers: seq<Layer>, ghost node: Ast, ghost name: string,
                       ghost selector: string, ghost more: seq<Segment>, tree: Ast) returns (r: Filtered)
    requires p.Valid() && p.Steps() == PathTo(layers) + ([Child(selector)] + more)
    requires AllLead(unquote, layers) && tree == Tree(layers, node)
    requires Selects(selector, name) && Lacks(unquote, node, name)
    modifies p, p.spine
    ensures r == Filtered(Some(Target(layers, node)), false)
    ensures p.Valid() && p.Steps() == PathTo(layers)
  {
    hide *;
    ghost var attempts;
    ghost var steps := p.Steps();
    WalkBuilt(unquote, layers, node, [Child(selector)] + more);
    MissingKey(unquote, node, name, selector, more);
    WalkBuilt(unquote, layers, node, []);
    assert steps[..|layers|] == PathTo(layers) && PathTo(layers) + [] == PathTo(layers);
    r, attempts := p.FilterNode(unquote, tree);
  }

  /** Key k is in double quotes and cannot be read, and no key before it is the one asked for. */
  ghost predicate BadKey(unquote: Unquote, entries: seq<Entry>, k: nat, selector: string) {
    && k < |entries|
    && entries[k].key != "" && entries[k].key[0] == '"' && unquote(entries[k].key) == None
    && exists name: string :: Selects(selector, name) && OtherKeys(unquote, entries[..k], name)
  }

  /** A subscript that the node does not have, a selector for a node that is no mapping, or one for a mapping
      with a key that cannot be read. */
  ghost predicate Unfit(unquote: Unquote, seg: Segment, node: Ast) {
    match seg
    case Index(i) => !(node.Sequence? && i < |node.items|)
    case Child(selector) =>
      node.Sequence? || node.Other? || (node.Mapping? && exists k: nat :: BadKey(unquote, node.entries, k, selector))
  }

  lemma OtherTail(unquote: Unquote, entries: seq<Entry>, name: string)
    requires entries != [] && OtherKeys(unquote, entries, name)
    ensures OtherKeys(unquote, entries[1..], name)
  {
    hide StandsForOther;
  }

  lemma {:induction false} BadKeyFails(unquote: Unquote, entries: seq<Entry>, k: nat, name: string)
    requires k < |entries| && OtherKeys(unquote, entries[..k], name)
    requires entries[k].key != "" && entries[k].key[0] == '"' && unquote(entries[k].key) == None
    ensures StepInto(unquote, entries, name) == NoFit
    decreases k
  {
    hide Stands;
    if k > 0 {
      assert entries[..k][0] == entries[0] && entries[..k][1..] == entries[1..][..k - 1];
      assert StandsForOther(unquote, entries[..k][0].key, name);
      var other: string :| other != name && Stands(unquote, entries[0].key, other);
      StandsIs(unquote, entries[0].key, other);
      OtherTail(unquote, entries[..k], name);
      BadKeyFails(unquote, entries[1..], k - 1, name);
    }
  }

  lemma UnfitFails(unquote: Unquote, node: Ast, seg: Segment, more: seq<Segment>)
    requires Unfit(unquote, seg, node)
    ensures Walk(unquote, [seg] + more, node) == Failed
  {
    hide Selects, OtherKeys, StepInto;
    if seg.Child? && node.Mapping? {
      var k: nat :| BadKey(unquote, node.entries, k, seg.name);
      var name: string :| Selects(seg.name, name) && OtherKeys(unquote, node.entries[..k], name);
      SelectsIs(seg.name, name);
      BadKeyFails(unquote, node.entries, k, name);
    }
  }

  /** With a segment that does not fit the node it is an error, and the path stays. */
  method FilterUnfit(p: Path, unquote: Unquote, ghost layers: seq<Layer>, ghost node: Ast, ghost seg: Segment,
                     ghost more: seq<Segment>, tree: Ast) returns (r: Filtered)
    requires p.Valid() && p.Steps() == PathTo(layers) + ([seg] + more)
    requires AllLead(unquote, layers) && tree == Tree(layers, node) && Unfit(unquote, seg, node)
    modifies p, p.spine
    ensures r == Filtered(None, true)
    ensures p.Valid() && p.Steps() == old(p.Steps())
  {
    hide *;
    ghost var attempts;
    WalkBuilt(unquote, layers, node, [seg] + more);
    UnfitFails(unquote, node, seg, more);
    r, attempts := p.FilterNode(unquote, tree);
  }
}
