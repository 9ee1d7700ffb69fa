/** Object nodes: one per document, or one per element of a document that is a root list. */
module SimpleObjects {
  import opened Strings
  import opened YamlLines
  import opened Documents

  // ---------------------------------------------------------------- where a root list is cut

  /** Long enough for "$[0]"; shorter paths belong to blank lines, comments and separators. */
  predicate Indexed(path: string) {
    |path| >= 4
  }

  /** No indexed path makes the cut fail: its first ']' is there, behind position 1. */
  predicate Splittable(paths: seq<string>) {
    forall i :: 0 <= i < |paths| ==> Indexed(paths[i]) ==> IndexOf(paths[i], ']') >= 2
  }

  function Mark(path: string): string
    requires IndexOf(path, ']') >= 2
  {
    path[2..IndexOf(path, ']')]
  }

  /** The root index of the last indexed line. */
  function LastMark(paths: seq<string>): string
    requires Splittable(paths)
  {
    if paths == [] then ""
    else
      var last := paths[|paths| - 1];
      if Indexed(last) then Mark(last) else LastMark(paths[..|paths| - 1])
  }

  /** Line i starts a new element: its root index differs from the one before. */
  predicate CutAt(paths: seq<string>, i: nat)
    requires Splittable(paths) && i < |paths|
  {
    && Indexed(paths[i])
    && LastMark(paths[..i]) != ""
    && Mark(paths[i]) != LastMark(paths[..i])
  }

  /** The lines where new elements start, in order. */
  function Cuts(paths: seq<string>): seq<nat>
    requires Splittable(paths)
  {
    if paths == [] then []
    else
      var init := paths[..|paths| - 1];
      Cuts(init) + (if CutAt(paths, |paths| - 1) then [|paths| - 1] else [])
  }

  function Paths(lines: seq<Line>): (ps: seq<string>)
    reads lines
    ensures |ps| == |lines| && forall i :: 0 <= i < |lines| ==> ps[i] == lines[i].path
  {
    if lines == [] then [] else Paths(lines[..|lines| - 1]) + [lines[|lines| - 1].path]
  }

  // ---------------------------------------------------------------- splitting

  /** MissingBracket is the source's error, SliceOutOfRange its run-time panic. */
  datatype Failure = Fine | MissingBracket | SliceOutOfRange

  datatype SplitResult = Split(docs: seq<Document>) | SplitFailed(why: Failure)

  /** The documents start where the cuts are. */
  ghost predicate StartAtCuts(docs: seq<Document>, offset: nat, cuts: seq<nat>)
    reads docs
  {
    && |docs| == |cuts| + 1
    && forall d :: 0 <= d < |docs| ==> docs[d].offset == offset + (if d == 0 then 0 else cuts[d - 1])
  }

  /** The splitting loop after i lines: what the finished and the current document hold. */
  ghost predicate SplitSoFar(doc: Document, i: nat, result: seq<Document>, current: Document)
    reads doc, result, current
  {
    && i <= |doc.lines|
    && Tiles(result, doc.offset, current.offset)
    && current.End() == doc.offset + i
    && AllLines(result) + current.lines == doc.lines[..i]
  }

  /** The documents finished so far and the current one start at the cuts. */
  ghost predicate CutSoFar(offset: nat, cuts: seq<nat>, result: seq<Document>, current: Document)
    reads result, current
  {
    && |result| == |cuts|
    && (forall d :: 0 <= d < |result| ==> result[d].offset == offset + (if d == 0 then 0 else cuts[d - 1]))
    && current.offset == offset + (if result == [] then 0 else cuts[|result| - 1])
  }

  lemma FinishDocument(doc: Document, i: nat, result: seq<Document>, current: Document)
    requires SplitSoFar(doc, i, result, current) && current.lines != []
    ensures Tiles(result + [current], doc.offset, doc.offset + i)
    ensures AllLines(result + [current]) == doc.lines[..i]
  {
    assert (result + [current])[..|result|] == result;
  }

  /** At a cut the current document is finished and a new one starts at line i. */
  method StartDocument(cut: bool, ghost doc: Document, ghost i: nat, ghost cuts: seq<nat>, result: seq<Document>, current: Document)
    returns (more: seq<Document>, next: Document)
    requires SplitSoFar(doc, i, result, current) && CutSoFar(doc.offset, cuts, result, current)
    requires current !in result && current != doc && (cut ==> current.lines != [])
    ensures next == current || fresh(next)
    ensures next !in more && next != doc
    ensures SplitSoFar(doc, i, more, next) && CutSoFar(doc.offset, if cut then cuts + [i] else cuts, more, next)
  {
    more, next := result, current;
    if cut {
      FinishDocument(doc, i, result, current);
      hide Tiles, AllLines;
      more := result + [current];
      next := new Document(current.offset + |current.lines|, []);
    }
  }

  method AppendLine(doc: Document, i: nat, ghost cuts: seq<nat>, ghost result: seq<Document>, current: Document)
    requires i < |doc.lines| && current !in result && current != doc
    requires SplitSoFar(doc, i, result, current) && CutSoFar(doc.offset, cuts, result, current)
    modifies current
    ensures current.lines != []
    ensures SplitSoFar(doc, i + 1, result, current) && CutSoFar(doc.offset, cuts, result, current)
  {
    hide Tiles, AllLines;
    current.lines := current.lines + [doc.lines[i]];
  }

  lemma FinishAll(doc: Document, cuts: seq<nat>, result: seq<Document>, current: Document)
    requires SplitSoFar(doc, |doc.lines|, result, current) && CutSoFar(doc.offset, cuts, result, current)
    requires current.lines != []
    ensures Tiles(result + [current], doc.offset, doc.End())
    ensures AllLines(result + [current]) == doc.lines
    ensures StartAtCuts(result + [current], doc.offset, cuts)
  {
    FinishDocument(doc, |doc.lines|, result, current);
    hide Tiles, AllLines;
    assert doc.lines[..|doc.lines|] == doc.lines;
  }

  /** One path more: what the loop does with the prefix and whether it cuts. */
  lemma PrefixStep(paths: seq<string>, i: nat)
    requires i < |paths| && Splittable(paths[..i])
    requires Indexed(paths[i]) ==> IndexOf(paths[i], ']') >= 2
    ensures Splittable(paths[..i + 1])
    ensures var before := LastMark(paths[..i]);
            if Indexed(paths[i]) then
              && LastMark(paths[..i + 1]) == Mark(paths[i])
              && Cuts(paths[..i + 1]) ==
                 (if before != "" && Mark(paths[i]) != before then Cuts(paths[..i]) + [i] else Cuts(paths[..i]))
            else LastMark(paths[..i + 1]) == before && Cuts(paths[..i + 1]) == Cuts(paths[..i])
  {
    assert paths[..i + 1][..i] == paths[..i];
  }

  lemma NotSplittable(paths: seq<string>, i: nat)
    requires i < |paths| && Indexed(paths[i]) && IndexOf(paths[i], ']') < 2
    ensures !Splittable(paths)
  {
  }

  /** The whole state of the splitting loop before line i. */
  ghost predicate LoopState(doc: Document, i: nat, listPrefix: string, result: seq<Document>, current: Document)
    reads doc, doc.lines, result, current
  {
    && i <= |doc.lines| && current !in result && current != doc
    && (i > 0 ==> current.lines != [])
    && SplitSoFar(doc, i, result, current)
    && var paths := Paths(doc.lines)[..i];
       && Splittable(paths)
       && listPrefix == LastMark(paths)
       && CutSoFar(doc.offset, Cuts(paths), result, current)
  }

  /** What the loop makes of one path: the new prefix and whether a new element starts. */
  method ReadMark(path: string, listPrefix: string, ghost paths: seq<string>, ghost i: nat)
    returns (failure: Failure, newPrefix: string, cut: bool)
    requires i < |paths| && paths[i] == path
    requires Splittable(paths[..i]) && listPrefix == LastMark(paths[..i])
    ensures failure.MissingBracket? <==> Indexed(path) && ']' !in path
    ensures !failure.Fine? ==> !Splittable(paths)
    ensures failure.Fine? ==>
      && Splittable(paths[..i + 1]) && newPrefix == LastMark(paths[..i + 1])
      && (cut ==> listPrefix != "")
      && Cuts(paths[..i + 1]) == if cut then Cuts(paths[..i]) + [i] else Cuts(paths[..i])
  {
    hide Cuts, LastMark;
    failure, newPrefix, cut := Fine, listPrefix, false;
    if |path| < 4 {
      PrefixStep(paths, i);
      return;
    }
    var closingBracketIdx := IndexOf(path, ']');
    if closingBracketIdx < 2 {
      NotSplittable(paths, i);
      failure := if closingBracketIdx == -1 then MissingBracket else SliceOutOfRange;
      return;
    }
    PrefixStep(paths, i);
    var newListPrefix := path[2..closingBracketIdx];
    if listPrefix == "" {
      newPrefix := newListPrefix;
    }
    if newPrefix != newListPrefix {
      newPrefix := newListPrefix;
      cut := true;
    }
  }

  /** Cut if a new element starts at line i, then take the line. */
  method Advance(cut: bool, doc: Document, i: nat, ghost newPrefix: string, result: seq<Document>, current: Document)
    returns (more: seq<Document>, next: Document)
    requires i < |doc.lines| && current !in result && current != doc && (cut ==> current.lines != [])
    requires SplitSoFar(doc, i, result, current)
    requires Splittable(Paths(doc.lines)[..i]) && Splittable(Paths(doc.lines)[..i + 1])
    requires CutSoFar(doc.offset, Cuts(Paths(doc.lines)[..i]), result, current)
    requires newPrefix == LastMark(Paths(doc.lines)[..i + 1])
    requires Cuts(Paths(doc.lines)[..i + 1]) ==
      if cut then Cuts(Paths(doc.lines)[..i]) + [i] else Cuts(Paths(doc.lines)[..i])
    modifies current
    ensures LoopState(doc, i + 1, newPrefix, more, next) && (next == current || fresh(next))
  {
    hide *;
    ghost var paths := Paths(doc.lines);
    more, next := StartDocument(cut, doc, i, Cuts(paths[..i]), result, current);
    AppendLine(doc, i, Cuts(paths[..i + 1]), more, next);
    LoopStateIs(doc, i + 1, newPrefix, more, next);
  }

  /** One turn of the splitting loop. */
  method SplitLine(doc: Document, i: nat, listPrefix: string, result: seq<Document>, current: Document)
    returns (failure: Failure, newPrefix: string, more: seq<Document>, next: Document)
    requires i < |doc.lines| && LoopState(doc, i, listPrefix, result, current)
    modifies current
    ensures failure.Fine? ==> LoopState(doc, i + 1, newPrefix, more, next) && (next == current || fresh(next))
    ensures !failure.Fine? ==> !Splittable(Paths(doc.lines))
    ensures failure.MissingBracket? <==> Indexed(doc.lines[i].path) && ']' !in doc.lines[i].path
  {
    hide *;
    ghost var paths := Paths(doc.lines);
    LoopStateParts(doc, i, listPrefix, result, current);
    var cut;
    failure, newPrefix, cut := ReadMark(doc.lines[i].path, listPrefix, paths, i);
    more, next := result, current;
    if failure.Fine? {
      more, next := Advance(cut, doc, i, newPrefix, result, current);
    }
  }

  lemma LoopStateParts(doc: Document, i: nat, listPrefix: string, result: seq<Document>, current: Document)
    requires LoopState(doc, i, listPrefix, result, current)
    ensures i <= |doc.lines| && current !in result && current != doc && (listPrefix != "" ==> current.lines != [])
    ensures SplitSoFar(doc, i, result, current)
    ensures Splittable(Paths(doc.lines)[..i]) && listPrefix == LastMark(Paths(doc.lines)[..i])
    ensures CutSoFar(doc.offset, Cuts(Paths(doc.lines)[..i]), result, current)
  {
    hide Tiles, AllLines, Cuts, CutSoFar, Paths;
    assert Paths(doc.lines)[..0] == [];
  }

  lemma LoopStateIs(doc: Document, i: nat, listPrefix: string, result: seq<Document>, current: Document)
    requires i <= |doc.lines| && current !in result && current != doc && current.lines != []
    requires SplitSoFar(doc, i, result, current)
    requires Splittable(Paths(doc.lines)[..i]) && listPrefix == LastMark(Paths(doc.lines)[..i])
    requires CutSoFar(doc.offset, Cuts(Paths(doc.lines)[..i]), result, current)
    ensures LoopState(doc, i, listPrefix, result, current)
  {
  }

  lemma LoopEnds(doc: Document, listPrefix: string, result: seq<Document>, current: Document)
    requires LoopState(doc, |doc.lines|, listPrefix, result, current) && doc.lines != []
    ensures Splittable(Paths(doc.lines))
    ensures Tiles(result + [current], doc.offset, doc.End())
    ensures AllLines(result + [current]) == doc.lines
    ensures StartAtCuts(result + [current], doc.offset, Cuts(Paths(doc.lines)))
  {
    hide Tiles, AllLines, Cuts, StartAtCuts, LastMark;
    assert Paths(doc.lines)[..|doc.lines|] == Paths(doc.lines);
    FinishAll(doc, Cuts(Paths(doc.lines)), result, current);
  }

  method SplitListDocument(doc: Document) returns (r: SplitResult)
    requires doc.lines != []
    ensures r.Split? <==> Splittable(Paths(doc.lines))
    ensures r.Split? ==>
      && Tiles(r.docs, doc.offset, doc.End())
      && AllLines(r.docs) == doc.lines
      && StartAtCuts(r.docs, doc.offset, Cuts(Paths(doc.lines)))
    ensures r == SplitFailed(MissingBracket) ==> exists l :: l in doc.lines && Indexed(l.path) && ']' !in l.path
  {
    var listPrefix, result := "", [];
    var currentDoc := new Document(doc.offset, []);
    assert LoopState(doc, 0, listPrefix, result, currentDoc);
    hide *;
    for i := 0 to |doc.lines|
      invariant fresh(currentDoc)
      invariant LoopState(doc, i, listPrefix, result, currentDoc)
    {
      var failure;
      failure, listPrefix, result, currentDoc := SplitLine(doc, i, listPrefix, result, currentDoc);
      if !failure.Fine? {
        return SplitFailed(failure);
      }
    }
    LoopEnds(doc, listPrefix, result, currentDoc);
    r := Split(result + [currentDoc]);
  }
}
