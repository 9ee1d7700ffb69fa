/** Main results on references between objects. */
module ReferenceResults {
  import opened Options
  import opened Strings
  import opened GeneralPaths
  import opened ObjectNodes
  import opened ObjectRef
  import opened ReferencePaths

  // ---------------------------------------------------------------- the paths of lines

  /** A line's path: in a root list the root index comes first. */
  function LinePath(root: Option<nat>, ps: seq<string>, ns: seq<nat>): string
    requires |ps| == |ns| + 1 && Shaped(ps, ns) != ""
  {
    match root
    case None => Shaped(ps, ns)
    case Some(r) => "$[" + Itoa(r) + "]" + Shaped(ps, ns)[1..]
  }

  predicate Small(ns: seq<nat>) {
    forall i :: 0 <= i < |ns| ==> ns[i] <= MAX_INT
  }

  /** Pieces of a path that starts at the root, with numbers between them. */
  predicate PathShape(ps: seq<string>, ns: seq<nat>) {
    && |ps| == |ns| + 1
    && PiecesWithoutBrackets(ps)
    && ps[0] != "" && ps[0][0] == '$'
    && Small(ns)
  }

  lemma {:induction false} ShapedStarts(ps: seq<string>, ns: seq<nat>)
    requires |ps| == |ns| + 1
    ensures ps[0] <= Shaped(ps, ns)
    decreases |ns|
  {
    hide Itoa;
    if ns != [] {
      ShapedStarts(ps[..|ps| - 1], ns[..|ns| - 1]);
    }
  }

  /** Dropping the first character of a path drops it from its first piece. */
  lemma {:induction false} ShapedRest(ps: seq<string>, ns: seq<nat>)
    requires |ps| == |ns| + 1 && ps[0] != ""
    ensures Shaped(ps, ns) != "" && Shaped(ps, ns)[1..] == Shaped(ps[0 := ps[0][1..]], ns)
    decreases |ns|
  {
    hide Itoa;
    if ns != [] {
      var init, ms := ps[..|ps| - 1], ns[..|ns| - 1];
      ShapedRest(init, ms);
      assert ps[0 := ps[0][1..]][..|ps| - 1] == init[0 := init[0][1..]];
      var s, sub, last := Shaped(init, ms), "[" + Itoa(ns[|ns| - 1]) + "]", ps[|ps| - 1];
      assert (s + sub + last)[1..] == s[1..] + sub + last;
    }
  }

  lemma RestWithoutBrackets(ps: seq<string>)
    requires ps != [] && PiecesWithoutBrackets(ps) && ps[0] != ""
    ensures PiecesWithoutBrackets(ps[0 := ps[0][1..]])
  {
    assert NoBrackets(ps[0]);
  }

  lemma RootIndexEnds(r: nat, rest: string)
    ensures var p := "$[" + Itoa(r) + "]" + rest;
            ']' in p && "$[" <= p && p[IndexOf(p, ']') + 1..] == rest
  {
    hide Itoa;
    DigitsNoBrackets(r);
    var p := "$[" + Itoa(r) + "]" + rest;
    assert p == ("$[" + Itoa(r)) + [']'] + rest;
    IndexOfSplit("$[" + Itoa(r), ']', rest);
    assert p[|Itoa(r)| + 2] == ']';
  }

  /** The generalised path has the line's pieces. */
  lemma LinePathGeneral(root: Option<nat>, ps: seq<string>, ns: seq<nat>)
    requires PathShape(ps, ns)
    requires root.None? ==> !("$[" <= Shaped(ps, ns))
    ensures Shaped(ps, ns) != "" && Generalize(LinePath(root, ps, ns)) == Fill(ps, "[*]")
  {
    hide Wild, Shaped, Fill, Itoa, NoBrackets, OpenAfter;
    ShapedStarts(ps, ns);
    WildShaped(ps, ns);
    var s := Shaped(ps, ns);
    assert s[0] == ps[0][0] == '$';
    match root
    case None =>
      if |s| < 2 {
        assert s == "$";
        DollarGeneral();
      }
    case Some(r) =>
      RootIndexEnds(r, s[1..]);
      assert "$" + s[1..] == s;
  }

  lemma DollarGeneral()
    ensures Wild("$", false) == "$"
  {
  }

  lemma BaseNumbers(root: Option<nat>, ps: seq<string>, ns: seq<nat>)
    requires PathShape(ps, ns)
    requires root.None? ==> !("$[" <= Shaped(ps, ns))
    ensures Shaped(ps, ns) != "" && WalkOf(BasePath(LinePath(root, ps, ns))).numbers == Integers(ns)
  {
    hide WalkOf, Shaped, Itoa, NoBrackets, Integers;
    ShapedStarts(ps, ns);
    match root
    case None => WalkShaped(ps, ns);
    case Some(r) =>
      RootIndexEnds(r, Shaped(ps, ns)[1..]);
      ShapedRest(ps, ns);
      RestWithoutBrackets(ps);
      WalkShaped(ps[0 := ps[0][1..]], ns);
  }

  // ---------------------------------------------------------------- the table

  /** A template takes as many numbers as its entry's path gives and stays in the same elements. */
  predicate TemplateFits(t: seq<string>, path: seq<string>) {
    t != [] ==>
      && |t| == |path|
      && PlainPieces(t)
      && "$." <= t[0]
      && t[..|t| - 1] == path[..|path| - 1]
  }

  predicate EntryFits(e: Entry) {
    && e.path != [] && PlainPieces(e.path)
    && TemplateFits(e.project, e.path) && TemplateFits(e.slo, e.path)
  }

  lemma {:induction false} FindIn(entries: seq<Entry>, kind: Kind, path: string)
    requires Find(entries, kind, path).Some?
    ensures var e := Find(entries, kind, path).value;
            e in entries && kind in e.appliesTo && e.Path() == path
  {
    hide Fill;
    var last := entries[|entries| - 1];
    if !(kind in last.appliesTo && last.Path() == path) {
      FindIn(entries[..|entries| - 1], kind, path);
    }
  }

  lemma PlainWithoutBrackets(ps: seq<string>)
    requires PlainPieces(ps)
    ensures PiecesWithoutBrackets(ps)
  {
    forall i | 0 <= i < |ps| ensures NoBrackets(ps[i]) {
      assert PlainPiece(ps[i]);
    }
  }

  lemma PlainPieces0()
    ensures PlainPiece(METADATA_PROJECT) && "$." <= METADATA_PROJECT
    ensures PlainPiece(SPEC_SLO) && "$." <= SPEC_SLO
    ensures PlainPiece(METHODS) && "$." <= METHODS
    ensures PlainPiece(FILTER_SLOS) && "$." <= FILTER_SLOS
    ensures PlainPiece(FILTER_SERVICES) && "$." <= FILTER_SERVICES
  {
  }

  lemma PlainPieces1()
    ensures PlainPiece(OBJECTIVES) && "$." <= OBJECTIVES
    ensures PlainPiece(COMPONENTS)
    ensures PlainPiece(NO_DATA_METHODS) && "$." <= NO_DATA_METHODS
    ensures PlainPiece(NAME)
    ensures PlainPiece(PROJECT)
  {
  }

  lemma PlainPieces2()
    ensures PlainPiece(".metadata.name")
    ensures PlainPiece(".metadata.project")
    ensures PlainPiece("$.spec.alertPolicy.name") && "$." <= "$.spec.alertPolicy.name"
    ensures PlainPiece("$.spec.alertPolicy.project") && "$." <= "$.spec.alertPolicy.project"
    ensures PlainPiece("$.spec.objectiveName") && "$." <= "$.spec.objectiveName"
  {
  }

  lemma PlainPieces3()
    ensures PlainPiece("$.spec.filters.projects") && "$." <= "$.spec.filters.projects"
    ensures PlainPiece("")
    ensures PlainPiece("$.spec.user") && "$." <= "$.spec.user"
    ensures PlainPiece("$.spec.groupRef") && "$." <= "$.spec.groupRef"
    ensures PlainPiece("$.spec.roleRef") && "$." <= "$.spec.roleRef"
  {
  }

  lemma PlainPieces4()
    ensures PlainPiece("$.spec.projectRef") && "$." <= "$.spec.projectRef"
    ensures PlainPiece("$.spec.members") && "$." <= "$.spec.members"
    ensures PlainPiece(".id")
    ensures PlainPiece("$.spec.service") && "$." <= "$.spec.service"
    ensures PlainPiece("$.spec.indicator.metricSource.name") && "$." <= "$.spec.indicator.metricSource.name"
  {
  }

  lemma PlainPieces5()
    ensures PlainPiece("$.spec.indicator.metricSource.project") && "$." <= "$.spec.indicator.metricSource.project"
    ensures PlainPiece("$.spec.alertPolicies") && "$." <= "$.spec.alertPolicies"
    ensures PlainPiece(".slo")
    ensures PlainPiece(".objective")
  {
  }

  lemma AllPlain()
    ensures PlainPiece(METADATA_PROJECT) && "$." <= METADATA_PROJECT
    ensures PlainPiece(SPEC_SLO) && "$." <= SPEC_SLO
    ensures PlainPiece(METHODS) && "$." <= METHODS
    ensures PlainPiece(FILTER_SLOS) && "$." <= FILTER_SLOS
    ensures PlainPiece(FILTER_SERVICES) && "$." <= FILTER_SERVICES
    ensures PlainPiece(OBJECTIVES) && "$." <= OBJECTIVES
    ensures PlainPiece(COMPONENTS)
    ensures PlainPiece(NO_DATA_METHODS) && "$." <= NO_DATA_METHODS
    ensures PlainPiece(NAME)
    ensures PlainPiece(PROJECT)
    ensures PlainPiece(".metadata.name")
    ensures PlainPiece(".metadata.project")
    ensures PlainPiece("$.spec.alertPolicy.name") && "$." <= "$.spec.alertPolicy.name"
    ensures PlainPiece("$.spec.alertPolicy.project") && "$." <= "$.spec.alertPolicy.project"
    ensures PlainPiece("$.spec.objectiveName") && "$." <= "$.spec.objectiveName"
    ensures PlainPiece("$.spec.filters.projects") && "$." <= "$.spec.filters.projects"
    ensures PlainPiece("")
    ensures PlainPiece("$.spec.user") && "$." <= "$.spec.user"
    ensures PlainPiece("$.spec.groupRef") && "$." <= "$.spec.groupRef"
    ensures PlainPiece("$.spec.roleRef") && "$." <= "$.spec.roleRef"
    ensures PlainPiece("$.spec.projectRef") && "$." <= "$.spec.projectRef"
    ensures PlainPiece("$.spec.members") && "$." <= "$.spec.members"
    ensures PlainPiece(".id")
    ensures PlainPiece("$.spec.service") && "$." <= "$.spec.service"
    ensures PlainPiece("$.spec.indicator.metricSource.name") && "$." <= "$.spec.indicator.metricSource.name"
    ensures PlainPiece("$.spec.indicator.metricSource.project") && "$." <= "$.spec.indicator.metricSource.project"
    ensures PlainPiece("$.spec.alertPolicies") && "$." <= "$.spec.alertPolicies"
    ensures PlainPiece(".slo")
    ensures PlainPiece(".objective")
  {
    hide PlainPiece;
    PlainPieces0();
    PlainPieces1();
    PlainPieces2();
    PlainPieces3();
    PlainPieces4();
    PlainPieces5();
  }

  lemma TableFits0(k: nat)
    requires 0 <= k < 10
    ensures EntryFits(REFERENCES[k])
  {
    hide PlainPiece, Fill;
    AllPlain();
  }

  lemma TableFits1(k: nat)
    requires 10 <= k < 20
    ensures EntryFits(REFERENCES[k])
  {
    hide PlainPiece, Fill;
    AllPlain();
  }

  lemma TableFits2(k: nat)
    requires 20 <= k < 29
    ensures EntryFits(REFERENCES[k])
  {
    hide PlainPiece, Fill;
    AllPlain();
  }

  lemma TableFits(k: nat)
    requires k < |REFERENCES|
    ensures EntryFits(REFERENCES[k])
  {
    hide EntryFits;
    if k < 10 {
      TableFits0(k);
    } else if k < 20 {
      TableFits1(k);
    } else {
      TableFits2(k);
    }
  }

  // ---------------------------------------------------------------- main results

  lemma FillStarts(t: seq<string>, between: string)
    requires t != []
    ensures t[0] <= Fill(t, between)
    decreases |t|
  {
    if |t| > 1 {
      FillStarts(t[..|t| - 1], between);
    }
  }

  lemma TemplateFilled(t: seq<string>, path: seq<string>, ns: seq<nat>, base: string)
    requires t != [] && TemplateFits(t, path) && |path| == |ns| + 1
    requires WalkOf(base).numbers == Integers(ns)
    ensures Fill(t, "[%d]") != "" && ReferencedPath(base, Fill(t, "[%d]")) == Shaped(t, ns)
  {
    hide WalkOf, PlainPiece, Sprintf, Itoa;
    FillStarts(t, "[%d]");
    if ns != [] {
      hide Fill, Shaped;
      assert Integers(ns)[0] == ns[0];
      SprintfShaped(t, ns);
    }
  }

  /** One computed path: filled with exactly the line's own numbers, it generalises to its template and
      has everything up to the last subscript in common with the line. */
  ghost predicate StaysInElements(result: string, t: seq<string>, ps: seq<string>, ns: seq<nat>)
    requires |ps| == |ns| + 1
  {
    if t == [] then result == ""
    else
      && |t| == |ps|
      && result == Shaped(t, ns)
      && Generalize(result) == Fill(t, "[*]")
      && result == Elements(ps, ns) + t[|t| - 1]
      && Shaped(ps, ns) == Elements(ps, ns) + ps[|ps| - 1]
  }

  lemma SameElements(t: seq<string>, ps: seq<string>, ns: seq<nat>)
    requires |t| == |ps| == |ns| + 1 && t[..|t| - 1] == ps[..|ps| - 1]
    ensures Shaped(t, ns) == Elements(ps, ns) + t[|t| - 1]
    ensures Shaped(ps, ns) == Elements(ps, ns) + ps[|ps| - 1]
  {
    hide Itoa;
    if ns == [] {
      assert "" + t[0] == t[0] && "" + ps[0] == ps[0];
    }
  }

  lemma TemplateStays(t: seq<string>, ps: seq<string>, ns: seq<nat>, base: string)
    requires TemplateFits(t, ps) && |ps| == |ns| + 1 && Small(ns)
    requires WalkOf(base).numbers == Integers(ns)
    ensures StaysInElements(if Fill(t, "[%d]") == "" then "" else ReferencedPath(base, Fill(t, "[%d]")), t, ps, ns)
  {
    hide WalkOf, PlainPiece, Itoa, ReferencedPath, Generalize;
    if t != [] {
      TemplateFilled(t, ps, ns, base);
      SameElements(t, ps, ns);
      PlainWithoutBrackets(t);
      ShapedStarts(t, ns);
      assert Shaped(t, ns)[1] == t[0][1] == '.';
      LinePathGeneral(None, t, ns);
    }
  }

  /** Main theorem: for every entry of the table and every line whose generalised path is the entry's,
      the project and SLO paths take the line's own indices, none missing and none left over, and so
      name siblings inside the same list elements. */
  lemma ReferencesStayInElements(e: Entry, root: Option<nat>, ps: seq<string>, ns: seq<nat>)
    requires e in REFERENCES && PathShape(ps, ns)
    requires root.None? ==> !("$[" <= Shaped(ps, ns))
    requires Shaped(ps, ns) != "" && Generalize(LinePath(root, ps, ns)) == e.Path()
    ensures ps == e.path
    ensures StaysInElements(Resolved(e, LinePath(root, ps, ns)).projectPath, e.project, ps, ns)
    ensures StaysInElements(Resolved(e, LinePath(root, ps, ns)).sloPath, e.slo, ps, ns)
  {
    hide *;
    var k :| 0 <= k < |REFERENCES| && REFERENCES[k] == e;
    TableFits(k);
    EntryParts(e);
    ShapeParts(ps, ns);
    LinePathGeneral(root, ps, ns);
    FillInjective(ps, e.path);
    BaseNumbers(root, ps, ns);
    var base := BasePath(LinePath(root, ps, ns));
    TemplateStays(e.project, ps, ns, base);
    TemplateStays(e.slo, ps, ns, base);
    ResolvedPaths(e, LinePath(root, ps, ns));
  }

  lemma EntryParts(e: Entry)
    requires EntryFits(e)
    ensures e.Path() == Fill(e.path, "[*]") && e.path != [] && PiecesWithoutBrackets(e.path)
    ensures TemplateFits(e.project, e.path) && TemplateFits(e.slo, e.path)
  {
    PlainWithoutBrackets(e.path);
  }

  lemma ShapeParts(ps: seq<string>, ns: seq<nat>)
    requires PathShape(ps, ns)
    ensures |ps| == |ns| + 1 && PiecesWithoutBrackets(ps) && Small(ns)
  {
  }

  lemma ResolvedPaths(e: Entry, path: string)
    ensures var r, base := Resolved(e, path), BasePath(path);
            && r.projectPath == (if Fill(e.project, "[%d]") == "" then "" else ReferencedPath(base, Fill(e.project, "[%d]")))
            && r.sloPath == (if Fill(e.slo, "[%d]") == "" then "" else ReferencedPath(base, Fill(e.slo, "[%d]")))
  {
    hide Fill, ReferencedPath;
  }

  /** A node of the line's own root element, or of its document outside root lists. */
  predicate HoldsLine(node: SimpleObjectNode, root: Option<nat>)
    reads node
  {
    match root
    case None => !node.isListElement
    case Some(r) => node.isListElement && node.listElementIndex == r
  }

  /** Looked up in the line's own node, a computed path gets the line's root index too: whatever line
      is found shares every index with the line the reference was found on. */
  lemma FoundInSameElements(node: SimpleObjectNode, root: Option<nat>, t: seq<string>, ps: seq<string>, ns: seq<nat>)
    requires HoldsLine(node, root) && t != [] && TemplateFits(t, ps) && |ps| == |ns| + 1
    ensures Shaped(t, ns) != "" && node.Resolve(Shaped(t, ns)) == LinePath(root, t, ns)
  {
    hide Shaped, Itoa, PlainPiece;
    ShapedStarts(t, ns);
    assert Shaped(t, ns)[1] == t[0][1] == '.';
  }

  /** What the table method and Get find for a kind and a line is an entry for both. */
  lemma ReferenceOfLine(kind: Kind, general: string)
    requires Find(REFERENCES, kind, general).Some?
    ensures var e := Find(REFERENCES, kind, general).value;
            e in REFERENCES && kind in e.appliesTo && e.Path() == general
  {
    FindIn(REFERENCES, kind, general);
  }

  /** The path of an entry other than the first is below the specification. */
  predicate BelowSpec(e: Entry) {
    e.path != [] && "$.s" <= e.path[0]
  }

  lemma OtherPaths0(k: nat)
    requires 1 <= k < 10
    ensures BelowSpec(REFERENCES[k])
  {
    hide Fill, PlainPiece;
  }

  lemma OtherPaths1(k: nat)
    requires 10 <= k < 20
    ensures BelowSpec(REFERENCES[k])
  {
    hide Fill, PlainPiece;
  }

  lemma OtherPaths2(k: nat)
    requires 20 <= k < 29
    ensures BelowSpec(REFERENCES[k])
  {
    hide Fill, PlainPiece;
  }

  lemma OtherPaths(k: nat)
    requires 1 <= k < |REFERENCES|
    ensures BelowSpec(REFERENCES[k])
  {
    hide BelowSpec;
    if k < 10 {
      OtherPaths0(k);
    } else if k < 20 {
      OtherPaths1(k);
    } else {
      OtherPaths2(k);
    }
  }

  lemma BelowSpecDiffers(e: Entry)
    requires BelowSpec(e) && EntryFits(e)
    ensures e.Path() != METADATA_PROJECT
  {
    hide *;
    EntryParts(e);
    MetadataPieces();
    if Fill(e.path, "[*]") == Fill([METADATA_PROJECT], "[*]") {
      FillInjective([METADATA_PROJECT], e.path);
      NotBelowSpec(e);
    }
  }

  lemma MetadataPieces()
    ensures PiecesWithoutBrackets([METADATA_PROJECT]) && Fill([METADATA_PROJECT], "[*]") == METADATA_PROJECT
  {
    PlainPieces0();
    hide PlainPiece;
    PlainWithoutBrackets([METADATA_PROJECT]);
  }

  lemma NotBelowSpec(e: Entry)
    requires BelowSpec(e)
    ensures e.path != [METADATA_PROJECT]
  {
    assert METADATA_PROJECT[2] == 'm';
  }

  lemma FirstPath()
    ensures REFERENCES[0].Path() == METADATA_PROJECT
  {
    hide PlainPiece;
    MetadataPieces();
  }

  /** Only the first entry of the table is for the project of the object itself. */
  lemma OnlyMetadataProject(e: Entry)
    requires e in REFERENCES
    ensures e.Path() == METADATA_PROJECT <==> e == REFERENCES[0]
  {
    hide *;
    var k :| 0 <= k < |REFERENCES| && REFERENCES[k] == e;
    FirstPath();
    TableSize();
    if k > 0 {
      OtherPaths(k);
      TableFits(k);
      BelowSpecDiffers(e);
    }
  }

  lemma TableSize()
    ensures |REFERENCES| == 29
  {
  }

  /** There is a fallback path exactly for the kinds whose objects stand in a project themselves, as the
      table has it, and only for references that are not to that project. */
  lemma FallbackIsReference(r: Reference, kind: Kind)
    ensures FallbackProjectPath(r, kind) in {"", METADATA_PROJECT}
    ensures FallbackProjectPath(r, kind) != "" <==>
            r.path != METADATA_PROJECT && exists e :: e in REFERENCES && kind in e.appliesTo && e.Path() == METADATA_PROJECT
  {
    hide *;
    FirstPath();
    TableSize();
    FallbackIs(r, kind);
    assert REFERENCES[0] in REFERENCES;
    forall e | e in REFERENCES && e.Path() == METADATA_PROJECT ensures e == REFERENCES[0] {
      OnlyMetadataProject(e);
    }
  }

  lemma FallbackIs(r: Reference, kind: Kind)
    ensures FallbackProjectPath(r, kind) in {"", METADATA_PROJECT} && METADATA_PROJECT != ""
    ensures FallbackProjectPath(r, kind) != "" <==> r.path != METADATA_PROJECT && kind in PROJECT_SCOPED
    ensures REFERENCES[0].appliesTo == PROJECT_SCOPED
  {
  }
}
