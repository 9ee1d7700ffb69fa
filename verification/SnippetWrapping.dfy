/** Main results on inserted snippets: wrapping an object as a list element keeps every line's
    generalised path, kind and version, exactly when the object's own lists are nested. */
module SnippetWrapping {
  import opened Strings
  import opened YamlLines
  import opened BlockStyle
  import opened ParserInversion
  import opened Snippets
  import opened SnippetPaths

  // ---------------------------------------------------------------- all lines

  /** The structural lines before line i of the object. */
  function Before(ls: seq<string>, i: nat): seq<Placed>
    requires i <= |ls|
  {
    Trail([], Classified(ls)[..i])
  }

  /** The structural lines before the wrapped line i. */
  function WrappedBefore(ls: seq<string>, i: nat): seq<Placed>
    requires i <= |ls|
  {
    Trail([], Classified(WrapPrefix(ls, i)))
  }

  predicate NestedAt(ls: seq<string>, i: nat)
    requires i < |ls|
  {
    i > 0 ==> NestedLine(Before(ls, i), Classify(ls[i]))
  }

  /** No list line stands in its own parent's column. */
  predicate ListsNested(ls: seq<string>) {
    forall i :: 0 <= i < |ls| ==> NestedAt(ls, i)
  }

  lemma BeforeStep(ls: seq<string>, i: nat)
    requires i < |ls|
    ensures Before(ls, i + 1) == Extend(Before(ls, i), Classify(ls[i]))
  {
    TrailStep(Classified(ls), i);
  }

  lemma WrappedBeforeStep(ls: seq<string>, i: nat)
    requires PlainObject(ls) && i < |ls|
    ensures WrappedBefore(ls, i + 1) ==
            if ls[i] == "" then WrappedBefore(ls, i) else Extend(WrappedBefore(ls, i), WrapInfo(ls, i))
  {
    hide *;
    WrapPrefixStep(ls, i + 1);
    if ls[i] == "" {
      assert WrapPrefix(ls, i) + [] == WrapPrefix(ls, i);
      WrappedBeforeIs(ls, i);
      WrappedBeforeIs(ls, i + 1);
    } else {
      WrapLineRead(ls, i);
      InfosAppend(WrapPrefix(ls, i), WrapLine(ls, i));
      WrappedBeforeIs(ls, i);
      WrappedBeforeIs(ls, i + 1);
      TrailSnoc(Classified(WrapPrefix(ls, i)), Classify(WrapLine(ls, i)));
    }
  }

  lemma WrappedBeforeIs(ls: seq<string>, i: nat)
    requires i <= |ls|
    ensures WrappedBefore(ls, i) == Trail([], Classified(WrapPrefix(ls, i)))
  {
  }

  lemma InfosAppend(ls: seq<string>, l: string)
    ensures Classified(ls + [l]) == Classified(ls) + [Classify(l)]
  {
    hide Classify;
  }

  lemma TrailSnoc(infos: seq<LineInfo>, info: LineInfo)
    ensures Trail([], infos + [info]) == Extend(Trail([], infos), info)
  {
    hide Extend;
    assert (infos + [info])[..|infos|] == infos;
  }

  lemma KeyedLine(x: string)
    ensures Keyed(Classify(x))
  {
    hide Classify;
    if Classify(x).typ.Mapping? {
      MappingHasKey(x);
    }
  }

  lemma EmptyLine(h: seq<Placed>)
    ensures Extend(h, Classify("")) == h
  {
  }

  lemma TrailsStart(ls: seq<string>)
    requires PlainObject(ls)
    ensures RootObject(Before(ls, 1)) && WrappedBefore(ls, 1) == ShiftAll(Before(ls, 1))
  {
    KeyedLine(ls[0]);
    FirstLinePlaced(Classify(ls[0]));
    BeforeStep(ls, 0);
    WrappedBeforeStep(ls, 0);
    assert Before(ls, 0) == [] && WrappedBefore(ls, 0) == [];
    EmptyLine([]);
    hide Extend, Before, WrappedBefore, RootObject;
  }

  /** As long as lists are nested, the wrapped object's structural lines are the shifted ones. */
  lemma {:induction false} TrailsShift(ls: seq<string>, i: nat)
    requires PlainObject(ls) && 0 < i <= |ls|
    requires forall k :: 0 <= k < i ==> NestedAt(ls, k)
    ensures RootObject(Before(ls, i)) && WrappedBefore(ls, i) == ShiftAll(Before(ls, i))
  {
    if i == 1 {
      TrailsStart(ls);
    } else {
      hide *;
      TrailsShift(ls, i - 1);
      NestedAtIs(ls, i - 1);
      BeforeStep(ls, i - 1);
      WrappedBeforeStep(ls, i - 1);
      KeyedLine(ls[i - 1]);
      WrapInfoIs(ls, i - 1);
      EmptyLine(Before(ls, i - 1));
      ExtendShift(Before(ls, i - 1), Classify(ls[i - 1]));
    }
  }

  lemma NestedAtIs(ls: seq<string>, i: nat)
    requires 0 < i < |ls|
    ensures NestedAt(ls, i) <==> NestedLine(Before(ls, i), Classify(ls[i]))
  {
  }

  lemma WrapInfoIs(ls: seq<string>, i: nat)
    requires 0 < i < |ls|
    ensures WrapInfo(ls, i) == Deeper(Classify(ls[i]))
  {
  }

  // ---------------------------------------------------------------- positions of the lines

  /** The position of line i in the object as both passes find it. */
  function PlaceOf(ls: seq<string>, i: nat): Placed
    requires i < |Scan(ls)|
  {
    PlacedAt([], Scan(ls), i)
  }

  /** Line i keeps its place in the object, moved into element 0. */
  predicate KeepsPlace(ls: seq<string>, i: nat)
    requires PlainObject(ls) && i < |ls|
  {
    PlainScan(ls);
    WrappedPlain(ls);
    ls[i] != "" ==>
      && Landing(ls, i) < |Wrapped(ls)|
      && PlaceOf(Wrapped(ls), Landing(ls, i)) == ShiftPlaced(PlaceOf(ls, i))
  }

  lemma PlaceOfLine(ls: seq<string>, i: nat)
    requires PlainLines(ls) && i < |ls|
    ensures Scan(ls) == Classified(ls) && PlaceOf(ls, i) == Place(Before(ls, i), Classify(ls[i]))
  {
    PlainScan(ls);
  }

  lemma PlaceOfWrapped(ls: seq<string>, i: nat)
    requires PlainObject(ls) && i < |ls| && ls[i] != ""
    ensures Scan(Wrapped(ls)) == Classified(Wrapped(ls)) && Landing(ls, i) < |Wrapped(ls)|
    ensures PlaceOf(Wrapped(ls), Landing(ls, i)) == Place(WrappedBefore(ls, i), WrapInfo(ls, i))
    ensures Classified(Wrapped(ls))[Landing(ls, i)] == WrapInfo(ls, i)
  {
    WrappedPlain(ls);
    WrappedAt(ls, i);
    WrapLineRead(ls, i);
    hide PlainObject, Place, Classify, Wrapped, WrapPrefix, WrapInfo;
    assert Classified(Wrapped(ls))[..Landing(ls, i)] == Classified(WrapPrefix(ls, i));
  }

  lemma KeepsPlaceIs(ls: seq<string>, i: nat)
    requires PlainObject(ls) && i < |ls| && ls[i] != ""
    ensures KeepsPlace(ls, i) <==>
            Place(WrappedBefore(ls, i), WrapInfo(ls, i)) == ShiftPlaced(Place(Before(ls, i), Classify(ls[i])))
  {
    hide Place, Classify, WrapInfo, WrappedBefore, Before, PlaceOf, Wrapped, Landing, Scan;
    PlaceOfLine(ls, i);
    PlaceOfWrapped(ls, i);
  }

  lemma FirstKeepsPlace(ls: seq<string>)
    requires PlainObject(ls)
    ensures ls[0] != "" ==> KeepsPlace(ls, 0)
  {
    if ls[0] != "" {
      KeepsPlaceIs(ls, 0);
      KeyedLine(ls[0]);
      FirstLinePlaced(Classify(ls[0]));
      assert Before(ls, 0) == [] && WrappedBefore(ls, 0) == [];
    }
  }

  lemma NestedKeepsPlace(ls: seq<string>, i: nat)
    requires PlainObject(ls) && 0 < i < |ls| && ls[i] != ""
    requires RootObject(Before(ls, i)) && WrappedBefore(ls, i) == ShiftAll(Before(ls, i))
    ensures KeepsPlace(ls, i) <==> NestedAt(ls, i)
  {
    hide *;
    KeepsPlaceIs(ls, i);
    NestedAtIs(ls, i);
    WrapInfoIs(ls, i);
    var h, info := Before(ls, i), Classify(ls[i]);
    KeyedLine(ls[i]);
    if NestedLine(h, info) {
      PlaceShift(h, info);
    } else {
      PlaceUnnested(h, info);
      ShiftPlacedPath(Place(h, info));
    }
  }

  lemma ShiftPlacedPath(q: Placed)
    ensures ShiftPlaced(q).path == Shift(q.path)
  {
  }

  lemma EmptyNested(ls: seq<string>, i: nat)
    requires i < |ls| && ls[i] == ""
    ensures NestedAt(ls, i)
  {
  }

  /** The first list line that is not nested, if there is one. */
  lemma {:induction false} FirstUnnested(ls: seq<string>, i: nat) returns (r: nat)
    requires i <= |ls|
    ensures r <= i && (r < i ==> !NestedAt(ls, r)) && forall k :: 0 <= k < r ==> NestedAt(ls, k)
  {
    hide *;
    r := 0;
    if i > 0 {
      r := FirstUnnested(ls, i - 1);
      if r == i - 1 && NestedAt(ls, r) {
        r := i;
      }
    }
  }

  /** Main theorem: every line of the object is found again in element 0 of the list, in order,
      with the same path below the element, if and only if the object's lists are nested. */
  lemma WrappingKeepsPaths(ls: seq<string>)
    requires PlainObject(ls)
    ensures (forall i :: 0 <= i < |ls| ==> KeepsPlace(ls, i)) <==> ListsNested(ls)
  {
    hide KeepsPlace, NestedAt, PlainObject;
    if ListsNested(ls) {
      forall i | 0 <= i < |ls| ensures KeepsPlace(ls, i) {
        KeepsPlaceAt(ls, i);
      }
    } else {
      var r := FirstUnnested(ls, |ls|);
      assert !NestedAt(ls, r);
      FirstNested(ls);
      TrailsShift(ls, r);
      if ls[r] == "" {
        EmptyNested(ls, r);
      }
      NestedKeepsPlace(ls, r);
    }
  }

  lemma FirstNested(ls: seq<string>)
    requires ls != []
    ensures NestedAt(ls, 0)
  {
  }

  lemma EmptyKeepsPlace(ls: seq<string>, i: nat)
    requires PlainObject(ls) && i < |ls| && ls[i] == ""
    ensures KeepsPlace(ls, i)
  {
  }

  lemma KeepsPlaceAt(ls: seq<string>, i: nat)
    requires PlainObject(ls) && i < |ls| && ListsNested(ls)
    ensures KeepsPlace(ls, i)
  {
    hide KeepsPlace, NestedAt, PlainObject;
    if ls[i] == "" {
      EmptyKeepsPlace(ls, i);
    } else if i == 0 {
      FirstKeepsPlace(ls);
    } else {
      TrailsShift(ls, i);
      NestedKeepsPlace(ls, i);
    }
  }

  // ---------------------------------------------------------------- behind a comment

  /** The first two lines, read after each other, when no block scalar opens. */
  lemma FirstTwoLines(ls: seq<string>)
    requires |ls| >= 2 && ls[0] != SEPARATOR && ls[1] != SEPARATOR && !OpensBlock(ls[0])
    ensures DocLength(ls) >= 2 && Scan(ls)[0] == Classify(ls[0]) && Scan(ls)[1] == Classify(ls[1])
    ensures PlacedAt([], Scan(ls), 1) == Place(Extend([], Classify(ls[0])), Classify(ls[1]))
  {
    hide Classify, OpensBlock, Place, Extend;
    assert ls[..0] == [] && ls[..1][..0] == [];
    TrailStep(Scan(ls), 0);
    TrailStep(Scan(ls), 1);
    assert Scan(ls)[..0] == [];
  }

  lemma CommentLine(comment: string)
    requires "#" <= comment
    ensures comment != SEPARATOR && !OpensBlock(comment)
    ensures Classify(comment).typ == Comment && comment != ""
  {
    assert Indent(comment) == 0;
  }

  lemma WrappedStart(ls: seq<string>)
    requires |ls| >= 2 && ls[0] != "" && ls[1] != ""
    ensures |Wrapped(ls)| >= 2 && Wrapped(ls)[0] == "- " + ls[0] && Wrapped(ls)[1] == "  " + ls[1]
  {
    WrapPrefixStep(ls, 1);
    WrapPrefixStep(ls, 2);
    WrapPrefixGrows(ls, 2, |ls|);
    assert WrapPrefix(ls, 2) == [WrapLine(ls, 0), WrapLine(ls, 1)];
  }

  lemma ElementAtStart(text: string)
    ensures Extend([], LineInfo(List, text, 2, -1, "")) == [Placed(2, "$[0]", 0)]
  {
    assert "$[0]." + "" == "$[0]." && "$[0]."[..4] == "$[0]";
    assert Place([], LineInfo(List, text, 2, -1, "")) == Placed(2, DropDot("$[0]." + ""), 0);
  }

  lemma KeyBehindElement(key: string, text: string)
    requires PlainKey(key)
    ensures Place([Placed(2, "$[0]", 0)], LineInfo(Mapping, text, 2, |key|, key)).path == key
  {
    var h := [Placed(2, "$[0]", 0)];
    PreviousOfLast(h, 2);
    assert '.' !in "$[0]";
    assert key[|key| - 1] != '.';
    hide PlainKey;
  }

  lemma KeyAtStart(info: LineInfo, key: string)
    requires PlainKey(key) && info.typ.Mapping? && info.key == key
    ensures Place(Extend([], LineInfo(Comment, "", 0, -1, "")), info).path == "$." + key
  {
    assert ("$." + key)[|key| + 1] == key[|key| - 1] != '.';
    hide PlainKey;
  }

  lemma CommentExtends(info: LineInfo)
    requires info.typ.Comment?
    ensures Extend([], info) == Extend([], LineInfo(Comment, "", 0, -1, ""))
  {
  }

  lemma BehindComment(ls: seq<string>, key: string, text: string)
    requires |ls| >= 2 && "#" <= ls[0] && PlainKey(key) && ls[1] == key + ":" + text
    ensures DocLength(ls) >= 2 && PlacedAt([], Scan(ls), 1).path == "$." + key
  {
    hide *;
    CommentLine(ls[0]);
    NoSpaces(ls[1]);
    KeyLine(0, key, text);
    FirstTwoLines(ls);
    CommentExtends(Classify(ls[0]));
    KeyAtStart(Classify(ls[1]), key);
  }

  lemma NoSpaces(s: string)
    ensures Spaces(0) + s == s && Spaces(2) + s == "  " + s
  {
    assert Spaces(0) == "" && Spaces(2) == "  ";
  }

  lemma BehindElement(ls: seq<string>, comment: string, key: string, text: string)
    requires |ls| >= 2 && ls[0] == "- " + comment && ColonIndex(ls[0]) == -1
    requires PlainKey(key) && ls[1] == "  " + (key + ":" + text)
    ensures DocLength(ls) >= 2 && PlacedAt([], Scan(ls), 1).path == key
  {
    hide *;
    NoSpaces(ls[0]);
    ScalarLine(0, comment);
    NoSpaces(key + ":" + text);
    KeyLine(2, key, text);
    FirstTwoLines(ls);
    ElementAtStart(comment);
    KeyBehindElement(key, key + ":" + text);
  }

  /** A limit of the formatter, which only ever gets texts that start with a key: behind a leading comment
      the first key would lose its root, whatever else the object holds. The comment's line becomes the
      element, and the key a neighbour of it. */
  lemma LeadingComment(ls: seq<string>, key: string, text: string)
    requires |ls| >= 2 && "#" <= ls[0] && ColonIndex("- " + ls[0]) == -1
    requires PlainKey(key) && ls[1] == key + ":" + text
    ensures DocLength(ls) >= 2 && PlacedAt([], Scan(ls), 1).path == "$." + key
    ensures DocLength(Wrapped(ls)) >= 2 && Wrapped(ls)[1] == "  " + ls[1] && PlacedAt([], Scan(Wrapped(ls)), 1).path == key
  {
    hide *;
    BehindComment(ls, key, text);
    CommentLine(ls[0]);
    WrappedStart(ls);
    BehindElement(Wrapped(ls), ls[0], key, text);
  }
}
