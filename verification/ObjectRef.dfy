/** References between objects: which line paths refer to other objects, and where the project and
    SLO that the reference belongs to are found. */
module ObjectRef {
  import opened Options
  import opened Strings
  import opened YamlLines

  datatype Kind =
    | NoKind | SLO | Service | Agent | AlertPolicy | AlertSilence | AlertMethod | Direct | DataExport
    | Annotation | Project | BudgetAdjustment | Report | RoleBinding | UserGroup | Alert

  /** Text with something between each two pieces. */
  function Fill(pieces: seq<string>, between: string): string {
    if pieces == [] then ""
    else if |pieces| == 1 then pieces[0]
    else Fill(pieces[..|pieces| - 1], between) + between + pieces[|pieces| - 1]
  }

  /** A reference in the table. Paths are given by their pieces between subscripts; no pieces stand
      for no path. */
  datatype Entry = Entry(path: seq<string>, project: seq<string>, slo: seq<string>, kind: Kind, appliesTo: seq<Kind>) {
    function Path(): string {
      Fill(path, "[*]")
    }

    function ProjectTemplate(): string {
      Fill(project, "[%d]")
    }

    function SloTemplate(): string {
      Fill(slo, "[%d]")
    }
  }

  const PROJECT_SCOPED := [SLO, Service, Agent, AlertPolicy, AlertSilence, AlertMethod, Direct, DataExport, Annotation]

  const METADATA_PROJECT := "$.metadata.project"
  const SPEC_SLO := "$.spec.slo"
  const METHODS := "$.spec.alertMethods"
  const FILTER_SLOS := "$.spec.filters.slos"
  const FILTER_SERVICES := "$.spec.filters.services"
  const OBJECTIVES := "$.spec.objectives"
  const COMPONENTS := ".composite.components.objectives"
  const NO_DATA_METHODS := "$.spec.anomalyConfig.noData.alertMethods"
  const NAME := ".name"
  const PROJECT := ".project"

  const REFERENCES: seq<Entry> := [
    Entry([METADATA_PROJECT], [], [], Project, PROJECT_SCOPED),
    Entry([METHODS, ".metadata.name"], [METHODS, ".metadata.project"], [], AlertMethod, [AlertPolicy]),
    Entry([METHODS, ".metadata.project"], [], [], Project, [AlertPolicy]),
    Entry([SPEC_SLO], [METADATA_PROJECT], [], SLO, [AlertSilence]),
    Entry(["$.spec.alertPolicy.name"], ["$.spec.alertPolicy.project"], [], AlertPolicy, [AlertSilence]),
    Entry(["$.spec.alertPolicy.project"], [], [], Project, [AlertSilence]),
    Entry([SPEC_SLO], [METADATA_PROJECT], [], SLO, [Annotation]),
    Entry(["$.spec.objectiveName"], [METADATA_PROJECT], [SPEC_SLO], NoKind, [Annotation]),
    Entry([FILTER_SLOS, NAME], [FILTER_SLOS, PROJECT], [], SLO, [BudgetAdjustment]),
    Entry([FILTER_SLOS, PROJECT], [], [], SLO, [BudgetAdjustment]),
    Entry(["$.spec.filters.projects", ""], [], [], Project, [Report]),
    Entry([FILTER_SERVICES, NAME], [FILTER_SERVICES, PROJECT], [], Service, [Report]),
    Entry([FILTER_SERVICES, PROJECT], [], [], Project, [Report]),
    Entry([FILTER_SLOS, NAME], [FILTER_SLOS, PROJECT], [], SLO, [Report]),
    Entry([FILTER_SLOS, PROJECT], [], [], Project, [Report]),
    Entry(["$.spec.user"], [], [], NoKind, [RoleBinding]),
    Entry(["$.spec.groupRef"], [], [], UserGroup, [RoleBinding]),
    Entry(["$.spec.roleRef"], [], [], NoKind, [RoleBinding]),
    Entry(["$.spec.projectRef"], [], [], Project, [RoleBinding]),
    Entry(["$.spec.members", ".id"], [], [], NoKind, [UserGroup]),
    Entry(["$.spec.service"], [METADATA_PROJECT], [], Service, [SLO]),
    Entry(["$.spec.indicator.metricSource.name"], ["$.spec.indicator.metricSource.project"], [], NoKind, [SLO]),
    Entry(["$.spec.indicator.metricSource.project"], [], [], Project, [SLO]),
    Entry(["$.spec.alertPolicies"], [METADATA_PROJECT], [], AlertPolicy, [SLO]),
    Entry([OBJECTIVES, COMPONENTS, PROJECT], [], [], Project, [SLO]),
    Entry([OBJECTIVES, COMPONENTS, ".slo"], [OBJECTIVES, COMPONENTS, PROJECT], [], SLO, [SLO]),
    Entry([OBJECTIVES, COMPONENTS, ".objective"], [OBJECTIVES, COMPONENTS, PROJECT], [OBJECTIVES, COMPONENTS, ".slo"], SLO, [SLO]),
    Entry([NO_DATA_METHODS, NAME], [NO_DATA_METHODS, PROJECT], [], AlertMethod, [SLO]),
    Entry([NO_DATA_METHODS, PROJECT], [], [], Project, [SLO])
  ]

  // ---------------------------------------------------------------- the table

  type Table = map<Kind, map<string, Entry>>

  /** The last entry for this kind and path. */
  function Find(entries: seq<Entry>, kind: Kind, path: string): Option<Entry> {
    if entries == [] then None
    else
      var last := entries[|entries| - 1];
      if kind in last.appliesTo && last.Path() == path then Some(last)
      else Find(entries[..|entries| - 1], kind, path)
  }

  predicate IsFor(e: Entry, kind: Kind, path: string) {
    kind in e.appliesTo && e.Path() == path
  }

  lemma {:induction false} FindsLast(entries: seq<Entry>, kind: Kind, path: string) returns (i: nat)
    ensures if exists e :: e in entries && IsFor(e, kind, path)
            then i < |entries| && Find(entries, kind, path) == Some(entries[i]) && IsFor(entries[i], kind, path)
                 && forall j :: i < j < |entries| ==> !IsFor(entries[j], kind, path)
            else Find(entries, kind, path) == None
  {
    hide Fill;
    i := 0;
    if entries != [] {
      var init, last := entries[..|entries| - 1], entries[|entries| - 1];
      assert entries == init + [last];
      if IsFor(last, kind, path) {
        i := |init|;
      } else {
        i := FindsLast(init, kind, path);
      }
    }
  }

  function InTable(m: Table, kind: Kind, path: string): Option<Entry> {
    if kind in m && path in m[kind] then Some(m[kind][path]) else None
  }

  /** The table holds the first entries and, for some kinds, one more. */
  ghost predicate Holds(m: Table, entries: seq<Entry>, more: Entry, kinds: seq<Kind>) {
    forall kind, path :: InTable(m, kind, path) ==
      if kind in kinds && more.Path() == path then Some(more) else Find(entries, kind, path)
  }

  lemma MoreHolds(m: Table, r: Table, entries: seq<Entry>, e: Entry, kinds: seq<Kind>, kind: Kind)
    requires Holds(m, entries, e, kinds)
    requires r == m[kind := (if kind in m then m[kind] else map[])[e.Path() := e]]
    ensures Holds(r, entries, e, kinds + [kind])
  {
    hide Find, Fill;
    forall k, path
      ensures InTable(r, k, path) ==
        (if k in kinds + [kind] && e.Path() == path then Some(e) else Find(entries, k, path))
    {
      assert InTable(m, k, path) == if k in kinds && e.Path() == path then Some(e) else Find(entries, k, path);
    }
  }

  method AddEntry(m: Table, ghost entries: seq<Entry>, e: Entry) returns (r: Table)
    requires forall kind, path :: InTable(m, kind, path) == Find(entries, kind, path)
    ensures forall kind, path :: InTable(r, kind, path) == Find(entries + [e], kind, path)
  {
    hide Find, Fill;
    r := m;
    for j := 0 to |e.appliesTo|
      invariant Holds(r, entries, e, e.appliesTo[..j])
    {
      var kind := e.appliesTo[j];
      assert e.appliesTo[..j + 1] == e.appliesTo[..j] + [kind];
      ghost var was := r;
      if kind !in r {
        r := r[kind := map[]];
      }
      r := r[kind := r[kind][e.Path() := e]];
      MoreHolds(was, r, entries, e, e.appliesTo[..j], kind);
    }
    FindMore(entries, e);
    assert e.appliesTo[..|e.appliesTo|] == e.appliesTo;
  }

  lemma FindMore(entries: seq<Entry>, e: Entry)
    ensures forall kind, path :: (Find(entries + [e], kind, path) ==
      if kind in e.appliesTo && e.Path() == path then Some(e) else Find(entries, kind, path))
  {
    hide Fill;
    assert (entries + [e])[..|entries|] == entries;
  }

  method BuildTable(references: seq<Entry>) returns (m: Table)
    ensures forall kind, path :: InTable(m, kind, path) == Find(references, kind, path)
  {
    m := map[];
    for i := 0 to |references|
      invariant forall kind, path :: InTable(m, kind, path) == Find(references[..i], kind, path)
    {
      m := AddEntry(m, references[..i], references[i]);
      assert references[..i + 1] == references[..i] + [references[i]];
    }
    assert references[..|references|] == references;
  }

  // ---------------------------------------------------------------- numbers in a path

  const MAX_INT := 0x7FFF_FFFF_FFFF_FFFF

  /** strconv.Atoi with its error ignored: 0 for no number, the nearest limit out of range. */
  function Atoi(s: string): int {
    if s == "" then 0
    else if s[0] == '-' || s[0] == '+' then
      (if s == [s[0]] || !AllDigits(s[1..]) then 0
       else if s[0] == '-' then -Min(DecimalValue(s[1..]), MAX_INT + 1) else Min(DecimalValue(s[1..]), MAX_INT))
    else if AllDigits(s) then Min(DecimalValue(s), MAX_INT)
    else 0
  }

  function Min(a: int, b: int): int {
    if a <= b then a else b
  }

  function FormatInt(n: int): string {
    if n < 0 then "-" + Itoa(-n) else Itoa(n)
  }

  /** The state of the walk over a path: inside a bracket or not, its text, the numbers so far. */
  datatype Walk = Walk(inside: bool, digits: string, numbers: seq<int>)

  function Advance(w: Walk, c: char): Walk {
    if c == '[' then w.(inside := true)
    else if c == ']' then Walk(false, "", w.numbers + [Atoi(w.digits)])
    else if w.inside then w.(digits := w.digits + [c])
    else w
  }

  function WalkOf(p: string): Walk {
    if p == "" then Walk(false, "", []) else Advance(WalkOf(p[..|p| - 1]), p[|p| - 1])
  }

  // ---------------------------------------------------------------- formatting

  /** fmt.Sprintf with integer arguments, for formats whose only verb is %d: the text so far, how
      many arguments are used, and whether a '%' is open. */
  datatype Print = Print(text: string, used: nat, open: bool)

  function PrintChar(p: Print, c: char, args: seq<int>): Print {
    if p.open then
      (if c == 'd'
       then Print(p.text + (if p.used < |args| then FormatInt(args[p.used]) else "%!d(MISSING)"), p.used + 1, false)
       else Print(p.text + "%" + [c], p.used, false))
    else if c == '%' then p.(open := true)
    else p.(text := p.text + [c])
  }

  function PrintAll(format: string, args: seq<int>): Print {
    if format == "" then Print("", 0, false)
    else PrintChar(PrintAll(format[..|format| - 1], args), format[|format| - 1], args)
  }

  function ExtraArgs(args: seq<int>): string {
    if args == [] then "" else "int=" + FormatInt(args[0]) + (if |args| == 1 then "" else ", " + ExtraArgs(args[1..]))
  }

  function Sprintf(format: string, args: seq<int>): string {
    var p := PrintAll(format, args);
    p.text + (if p.open then "%!(NOVERB)" else "")
    + (if p.used < |args| then "%!(EXTRA " + ExtraArgs(args[p.used..]) + ")" else "")
  }

  // ---------------------------------------------------------------- references

  function ReferencedPath(basePath: string, refPath: string): string {
    var numbers := WalkOf(basePath).numbers;
    if numbers == [] then refPath else Sprintf(refPath, numbers)
  }

  method CalculateReferencedPath(basePath: string, refPath: string) returns (r: string)
    ensures r == ReferencedPath(basePath, refPath)
  {
    hide Sprintf, Atoi;
    var arrStart := false;
    var nStr := "";
    var indexes := [];
    for i := 0 to |basePath|
      invariant Walk(arrStart, nStr, indexes) == WalkOf(basePath[..i])
    {
      assert basePath[..i + 1][..i] == basePath[..i];
      var ch := basePath[i];
      if ch == '[' {
        arrStart := true;
      } else if ch == ']' {
        arrStart := false;
        var n := Atoi(nStr);
        indexes := indexes + [n];
        nStr := "";
      } else if arrStart {
        nStr := nStr + [ch];
      }
    }
    assert basePath[..|basePath|] == basePath;
    if |indexes| == 0 {
      return refPath;
    }
    r := Sprintf(refPath, indexes);
  }

  datatype Reference = Reference(kind: Kind, path: string, projectPath: string, sloPath: string)

  /** A line's path without its root index. */
  function BasePath(path: string): string {
    if "$[" <= path && ']' in path then path[IndexOf(path, ']') + 1..] else path
  }

  function Resolved(e: Entry, linePath: string): Reference {
    var base := BasePath(linePath);
    Reference(e.kind, e.Path(),
              if e.ProjectTemplate() == "" then "" else ReferencedPath(base, e.ProjectTemplate()),
              if e.SloTemplate() == "" then "" else ReferencedPath(base, e.SloTemplate()))
  }

  method Get(table: Table, kind: Kind, line: Line) returns (r: Option<Reference>)
    ensures r == match InTable(table, kind, line.generalizedPath)
                 case None => None
                 case Some(e) => Some(Resolved(e, line.path))
  {
    hide ReferencedPath, Fill;
    if kind !in table || line.generalizedPath !in table[kind] {
      return None;
    }
    var ref := table[kind][line.generalizedPath];
    var project, slo := ref.ProjectTemplate(), ref.SloTemplate();
    if project == "" && slo == "" {
      return Some(Reference(ref.kind, ref.Path(), "", ""));
    }
    var linePath := line.path;
    if "$[" <= linePath {
      var closing := IndexOf(linePath, ']');
      if closing != -1 {
        linePath := linePath[closing + 1..];
      }
    }
    var projectPath, sloPath := "", "";
    if project != "" {
      projectPath := CalculateReferencedPath(linePath, project);
    }
    if slo != "" {
      sloPath := CalculateReferencedPath(linePath, slo);
    }
    r := Some(Reference(ref.kind, ref.Path(), projectPath, sloPath));
  }

  predicate IsProjectScoped(kind: Kind) {
    kind in PROJECT_SCOPED
  }

  /** Where the project of a project-scoped object stands, unless that is the reference itself. */
  function FallbackProjectPath(r: Reference, kind: Kind): string {
    if r.path != METADATA_PROJECT && IsProjectScoped(kind) then METADATA_PROJECT else ""
  }
}
