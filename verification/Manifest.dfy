/** The manifest file: what a run writes, section by section, and the reader a resume uses. */
module Manifest {
  import opened Schema
  import opened DdlText
  import opened ManifestText
  import opened ManifestValues
  import opened ManifestGraph
  import Rebuild
  import Plan

  // ----- the records -----

  datatype LoadFile = LoadFile(name: string, rows: nat, failed: nat)
  datatype Load = Load(files: seq<LoadFile>, loadedFiles: nat, totalRows: nat, totalFailed: nat)
  datatype EdgeResult = EdgeResult(edge: Ref, orphans: nat, skipped: bool)
  datatype Validation = Validation(edges: seq<EdgeResult>, exceptionsFile: string, validated: nat, skipped: nat, violated: nat,
                                   totalOrphans: nat)
  datatype Withheld = Withheld(edge: Ref, reason: string, readd: string)
  datatype FkRecord = FkRecord(defined: seq<Ref>, withheld: seq<Withheld>, exceptionsFile: string)
  datatype StatsFailure = StatsFailure(cls: string, reason: string)
  datatype Stats = Stats(updated: nat, failed: seq<StatsFailure>)
  datatype TriggerRecord = TriggerRecord(file: string, defined: nat, failed: nat)

  datatype SchemaLayout = Split(classFile: string, infoFile: string, applyOrder: seq<string>) | Default(file: string)

  /** The rostered dump: the target database and the files found. */
  datatype Roster = Roster(database: string, dumpDir: string, prefix: string, schema: SchemaLayout, indexFile: string,
                           triggerFile: string, perClass: bool, objectFiles: seq<string>)

  datatype Planned = Planned(levels: seq<seq<string>>, tasks: seq<Plan.Task>)

  /** What a run hands to the printer; an absent record has no section. */
  datatype Input = Input(roster: Roster, created: string, reached: Reached, plan: Option<Planned>, graph: Option<Graph>,
                         strip: Option<seq<Stripped>>, load: Option<Load>, rebuild: Option<Rebuild.Summary>,
                         validate: Option<Validation>, fkdefine: Option<FkRecord>, stats: Option<Stats>,
                         triggers: Option<TriggerRecord>)

  /** A phase, by its place among the names. */
  type Reached = n: nat | n < 8

  const PHASES := ["discovered", "defined", "stripped", "loaded", "rebuilt", "fk_defined", "stats_updated", "done"]
  // Long literals are put together from short ones, whose characters the verifier can look through.
  const PLACEHOLDER := "(placeholder: " + "topological order " + "assigned in WU-22)"

  // ----- the printer -----

  function Count(key: string, n: nat): Line { Pair(key, Dec(n)) }

  function OrNone(s: string): string { if s == "" then NONE else s }

  function KindName(k: Kind): string {
    match k case ForeignKey => "fk" case Unique => "unique" case PrimaryKey => "pk"
  }

  function SerialEdges(nodes: seq<Node>): nat {
    if nodes == [] then 0 else SerialEdges(nodes[..|nodes| - 1]) + |nodes[|nodes| - 1].serials|
  }

  /** Where a line of the file stands. */
  datatype Section = Start | SetPart | PlanPart | GraphPart | StripPart | LoadPart | RebuildPart | ValidatePart | FkPart
    | StatsPart | TriggerPart | PhasePart | Unknown

  function NameOf(p: Section): string {
    match p
    case SetPart => "[set]" case PlanPart => "[plan]" case GraphPart => "[graph]" case StripPart => "[strip]"
    case LoadPart => "[load]" case RebuildPart => "[rebuild]" case ValidatePart => "[validate]" case FkPart => "[fkdefine]"
    case StatsPart => "[stats]" case TriggerPart => "[triggers]" case PhasePart => "[phases]"
    case _ => ""
  }

  /** A header, what stands under it, and the empty line behind. */
  function Part(p: Section, body: seq<Line>): seq<Line> { [Header(NameOf(p))] + body + [Gap] }

  /** The lines of each item, one after the other. */
  function Each<T>(xs: seq<T>, f: T -> seq<Line>): seq<Line> {
    if xs == [] then [] else f(xs[0]) + Each(xs[1..], f)
  }

  function CycleLine(w: seq<string>): seq<Line> { [Pair("cycle", WalkText(w))] }

  function NodeLine(n: Node): seq<Line> { [Pair("gnode", NodeText(n))] }

  function EdgeLine(e: FkEdge): seq<Line> { [Pair("gfk", EdgeText(e))] }

  function InheritLine(e: InheritEdge): seq<Line> { [Pair("ginh", InheritText(e))] }

  function GraphCounts(g: Graph): seq<Line> {
    [Count("nodes", |g.nodes|), Count("fk_edges", |g.fkEdges|), Count("inherit_edges", |g.inheritEdges|),
     Count("serial_edges", SerialEdges(g.nodes))]
  }

  function CycleLines(g: Graph): seq<Line> { if g.cycles == [] then [Pair("cycles", NONE)] else Each(g.cycles, CycleLine) }

  function SkippedLine(g: Graph): seq<Line> { [Pair("skipped_classes", if g.skipped == [] then NONE else JoinList(g.skipped))] }

  function GraphBody(g: Graph): seq<Line> {
    GraphCounts(g) + CycleLines(g) + SkippedLine(g)
    + Each(g.nodes, NodeLine) + Each(g.fkEdges, EdgeLine) + Each(g.inheritEdges, InheritLine)
  }

  function LevelTexts(levels: seq<seq<string>>): seq<string> {
    if levels == [] then [] else [JoinList(levels[0])] + LevelTexts(levels[1..])
  }

  function JoinLevels(levels: seq<seq<string>>): string { Join(LevelTexts(levels), " | ") }

  function OfTask(tasks: seq<Plan.Task>, k: Plan.TaskKind): nat {
    if tasks == [] then 0 else OfTask(tasks[..|tasks| - 1], k) + if tasks[|tasks| - 1].kind == k then 1 else 0
  }

  function OrderLine(levels: seq<seq<string>>): seq<Line> {
    [Pair("planned_order", if levels == [] then NONE else JoinLevels(levels))]
  }

  function TaskCounts(p: Planned): seq<Line> {
    [Count("data_levels", |p.levels|), Count("terminal_tasks", |p.tasks|), Count("rebuild_pk", OfTask(p.tasks, Plan.RebuildPk)),
     Count("rebuild_unique", OfTask(p.tasks, Plan.RebuildUnique)), Count("build_index", OfTask(p.tasks, Plan.BuildIndex)),
     Count("fk_define", OfTask(p.tasks, Plan.FkDefine)), Count("stats", OfTask(p.tasks, Plan.Stats)),
     Count("define_triggers", OfTask(p.tasks, Plan.DefineTriggers))]
  }

  function PlanBody(plan: Option<Planned>): seq<Line> {
    match plan
    case None => [Pair("planned_order", PLACEHOLDER)]
    case Some(p) => OrderLine(p.levels) + TaskCounts(p)
  }

  function OfKind(s: seq<Stripped>, k: Kind): nat {
    if s == [] then 0 else OfKind(s[..|s| - 1], k) + if s[|s| - 1].kind == k then 1 else 0
  }

  function KeyRecord(x: Stripped): string { Record([KindName(x.kind), x.key.cls, x.key.name]) }

  function DropLine(x: Stripped): seq<Line> { [Pair("drop", KeyRecord(x))] }

  function StripCounts(s: seq<Stripped>): seq<Line> {
    [Count("stripped", |s|), Count("fk", OfKind(s, ForeignKey)), Count("unique", OfKind(s, Unique)),
     Count("pk", OfKind(s, PrimaryKey))]
  }

  function StripBody(s: seq<Stripped>): seq<Line> { StripCounts(s) + Each(s, DropLine) }

  function FileText(f: LoadFile): string { f.name + " " + (Dec(f.rows) + " " + Dec(f.failed)) }

  function FileLine(f: LoadFile): seq<Line> { [Pair("file", FileText(f))] }

  function LoadBody(l: Load): seq<Line> {
    [Count("loaded_files", l.loadedFiles)] + [Count("total_rows", l.totalRows)] + [Count("total_failed", l.totalFailed)]
    + Each(l.files, FileLine)
  }

  function OkLine(x: Stripped): seq<Line> { [Pair("ok", KeyRecord(x))] }

  function FailText(p: Rebuild.Pending): string { Record([KindName(p.what.kind), p.what.key.cls, p.what.key.name, p.reason]) }

  function PendingLine(p: Rebuild.Pending): seq<Line> { [Pair("fail", FailText(p))] + [Pair("fail_readd", OrNone(p.readd))] }

  function IndexLine(name: string): seq<Line> { [Pair("index", name)] }

  function FailedLine(f: Rebuild.FailedIndex): seq<Line> { [Pair("index_fail", Record([f.name, f.reason]))] }

  function CascadeLine(w: Rebuild.WithheldFk): seq<Line> { [Pair("withhold", Record([w.child, w.parent, w.name, w.reason]))] }

  function RebuildCounts(r: Rebuild.Summary): seq<Line> {
    [Count("rebuilt", |r.rebuilt|), Count("pending", |r.pending|), Count("indexes", |r.indexes|),
     Count("indexes_failed", |r.failedIndexes|), Count("withheld_fk", |r.withheld|)]
  }

  function RebuildBody(r: Rebuild.Summary): seq<Line> {
    RebuildCounts(r) + Each(r.rebuilt, OkLine) + Each(r.pending, PendingLine) + Each(r.indexes, IndexLine)
    + Each(r.failedIndexes, FailedLine) + Each(r.withheld, CascadeLine)
  }

  const SKIPPED := "skipped" + " (parent key " + "withheld)"

  function StatusText(e: EdgeResult): string {
    if e.skipped then SKIPPED else if e.orphans > 0 then "violated " + Dec(e.orphans) else "clean"
  }

  function ResultLine(e: EdgeResult): seq<Line> { [Pair("edge", RefText(e.edge) + " :: " + StatusText(e))] }

  function ValidateCounts(v: Validation): seq<Line> {
    [Count("edges", |v.edges|), Count("validated", v.validated), Count("skipped", v.skipped), Count("violated", v.violated),
     Count("orphans_total", v.totalOrphans)]
  }

  function ExceptionsLine(file: string): seq<Line> { [Pair("exceptions_file", OrNone(file))] }

  function ValidateBody(v: Validation): seq<Line> {
    ValidateCounts(v) + ExceptionsLine(v.exceptionsFile) + Each(v.edges, ResultLine)
  }

  function DefineLine(r: Ref): seq<Line> { [Pair("define", RefText(r))] }

  function WithholdLine(w: Withheld): seq<Line> {
    [Pair("withhold", RefText(w.edge) + " :: " + w.reason)] + [Pair("readd", w.readd)]
  }

  function FkCounts(f: FkRecord): seq<Line> { [Count("defined", |f.defined|), Count("withheld", |f.withheld|)] }

  function FkBody(f: FkRecord): seq<Line> {
    FkCounts(f) + ExceptionsLine(f.exceptionsFile) + Each(f.defined, DefineLine) + Each(f.withheld, WithholdLine)
  }

  function StatsLine(f: StatsFailure): seq<Line> { [Pair("fail", f.cls + " :: " + f.reason)] }

  function StatsBody(s: Stats): seq<Line> {
    [Count("updated", s.updated)] + [Count("failed", |s.failed|)] + Each(s.failed, StatsLine)
  }

  function TriggerBody(t: TriggerRecord): seq<Line> {
    [Pair("trigger_file", OrNone(t.file))] + [Count("defined", t.defined)] + [Count("failed", t.failed)]
  }

  function PhaseName(r: Reached): string { PHASES[r] }

  function PhaseLine(i: Reached, reached: nat): Line { Pair(PhaseName(i), if i <= reached then "complete" else "pending") }

  function PhaseLines(i: nat, reached: nat): seq<Line>
    decreases |PHASES| - i
  {
    if i >= |PHASES| then [] else [PhaseLine(i, reached)] + PhaseLines(i + 1, reached)
  }

  /** The last section; nothing follows it. */
  function PhaseSection(reached: Reached): seq<Line> {
    [Header(NameOf(PhasePart))] + [Pair("current", PhaseName(reached))] + PhaseLines(0, reached)
  }

  const NOTE_FORMAT := " CUBRID importdb" + " manifest (format" + " v3)"
  const NOTE_OWNER := " Written and" + " owned by importdb;" + " do not edit" + " by hand."
  const NOTE_RECORD := " Plan/progress" + " record for the" + " importdb directory" + " contract" + " (foundation N54" + " \U{00A7}4.4)."

  function Notes(): seq<Line> { [Note(NOTE_FORMAT), Note(NOTE_OWNER), Note(NOTE_RECORD)] }

  function Preamble(created: string): seq<Line> {
    Notes() + [Count("format_version", 3)] + [Pair("generator", "importdb"), Pair("created", created), Gap]
  }

  function NameLines(r: Roster): seq<Line> {
    [Pair("database", r.database)] + [Pair("dump_dir", r.dumpDir)] + [Pair("prefix", r.prefix)]
  }

  function SchemaLines(l: SchemaLayout): seq<Line> {
    match l
    case Split(classFile, infoFile, applyOrder) =>
      [Pair("schema_layout", "split"), Pair("schema_class_file", classFile), Pair("schema_info_file", infoFile),
       Pair("schema_apply_order", JoinList(applyOrder))]
    case Default(file) => [Pair("schema_layout", "default"), Pair("schema_file", file)]
  }

  function FilesFound(r: Roster): seq<Line> {
    [Pair("index_file", OrNone(r.indexFile)), Pair("trigger_file", OrNone(r.triggerFile)),
     Pair("object_layout", if r.perClass then "per-class" else "single"), Count("object_count", |r.objectFiles|),
     Pair("object_files", JoinList(r.objectFiles))]
  }

  function SetBody(r: Roster): seq<Line> { NameLines(r) + SchemaLines(r.schema) + FilesFound(r) }

  /** A record that is there has its section. */
  function Maybe<T>(p: Section, x: Option<T>, body: T -> seq<Line>): seq<Line> {
    if x.Some? then Part(p, body(x.value)) else []
  }

  function EarlySections(m: Input): seq<Line> {
    Maybe(GraphPart, m.graph, GraphBody) + Maybe(StripPart, m.strip, StripBody) + Maybe(LoadPart, m.load, LoadBody)
    + Maybe(RebuildPart, m.rebuild, RebuildBody)
  }

  function LateSections(m: Input): seq<Line> {
    Maybe(ValidatePart, m.validate, ValidateBody) + Maybe(FkPart, m.fkdefine, FkBody) + Maybe(StatsPart, m.stats, StatsBody)
    + Maybe(TriggerPart, m.triggers, TriggerBody)
  }

  /** Everything before the last section. */
  function Head(m: Input): seq<Line> {
    Preamble(m.created) + Part(SetPart, SetBody(m.roster)) + Part(PlanPart, PlanBody(m.plan)) + EarlySections(m) + LateSections(m)
  }

  function Lines(m: Input): seq<Line> { Head(m) + PhaseSection(m.reached) }

  function Render(m: Input): string { Unlines(RenderLines(Lines(m))) }

  // ----- the reader -----

  function SectionOf(name: string): Section {
    if name == "[set]" then SetPart else if name == "[plan]" then PlanPart else if name == "[graph]" then GraphPart
    else if name == "[strip]" then StripPart else if name == "[load]" then LoadPart else if name == "[rebuild]" then RebuildPart
    else if name == "[validate]" then ValidatePart else if name == "[fkdefine]" then FkPart
    else if name == "[stats]" then StatsPart else if name == "[triggers]" then TriggerPart
    else if name == "[phases]" then PhasePart else Unknown
  }

  /** The reader's state: the section it is in, the sections it has met, and the records. */
  datatype Doc = Doc(part: Section, has: set<Section>, version: nat, database: string, dumpDir: string, prefix: string,
                     reached: Option<nat>, graph: Graph, levels: seq<seq<string>>, strip: seq<Stripped>, load: Load,
                     rebuild: Rebuild.Summary, validate: Validation, fkdefine: FkRecord, stats: Stats, triggers: TriggerRecord)

  const EMPTY_LOAD := Load([], 0, 0, 0)
  const EMPTY_VALIDATION := Validation([], "", 0, 0, 0, 0)
  const BLANK := Doc(Start, {}, 0, "", "", "", None, Graph("", [], [], [], [], []), [], [], EMPTY_LOAD, Rebuild.EMPTY,
                     EMPTY_VALIDATION, FkRecord([], [], ""), Stats(0, []), TriggerRecord("", 0, 0))

  function KindOf(name: string): Option<Kind> {
    if name == "fk" then Some(ForeignKey) else if name == "unique" then Some(Unique)
    else if name == "pk" then Some(PrimaryKey) else None
  }

  /** A kind, a class and a name; the fields after them are the caller's. */
  function ReadKey(f: seq<string>): Option<Stripped> {
    if |f| < 3 || KindOf(f[0]).None? then None else Some(Stripped(KindOf(f[0]).value, Key(f[1], f[2])))
  }

  function PhaseOf(name: string, i: nat): Option<nat>
    decreases |PHASES| - i
  {
    if i >= |PHASES| then None else if name == PHASES[i] then Some(i) else PhaseOf(name, i + 1)
  }

  function PhaseNamed(name: string): Option<nat> { PhaseOf(name, 0) }

  function ReadSet(d: Doc, k: string, v: string): Doc {
    if k == "database" then d.(database := v) else if k == "dump_dir" then d.(dumpDir := v)
    else if k == "prefix" then d.(prefix := v) else d
  }

  function ReadGraph(g: Graph, k: string, v: string): Graph {
    if k == "gnode" then
      var n := ParseNode(v);
      if n.Some? then g.(nodes := g.nodes + [n.value]) else g
    else if k == "gfk" then
      var e := ParseEdge(v);
      if e.Some? then g.(fkEdges := g.fkEdges + [e.value]) else g
    else if k == "ginh" then
      var e := ParseInherit(v);
      if e.Some? then g.(inheritEdges := g.inheritEdges + [e.value]) else g
    else if k == "cycle" then g.(cycles := g.cycles + [ParseWalk(v)])
    else if k == "skipped_classes" then g.(skipped := ParseList(v))
    else g
  }

  function Levels(pieces: seq<string>): seq<seq<string>> {
    if pieces == [] then []
    else
      var level := ParseList(pieces[0]);
      (if level == [] then [] else [level]) + Levels(pieces[1..])
  }

  function ReadPlan(levels: seq<seq<string>>, k: string, v: string): seq<seq<string>> {
    if k == "planned_order" && v != NONE && v != PLACEHOLDER then levels + Levels(SplitChar(v, '|')) else levels
  }

  function ReadStrip(s: seq<Stripped>, k: string, v: string): seq<Stripped> {
    if k != "drop" then s
    else
      var x := ReadKey(SplitRecord(v));
      if x.Some? then s + [x.value] else s
  }

  function ReadFile(v: string): Option<LoadFile> {
    var f := SplitChar(v, ' ');
    if |f| < 3 then None else Some(LoadFile(f[|f| - 3], Number(f[|f| - 2]), Number(f[|f| - 1])))
  }

  function ReadLoad(l: Load, k: string, v: string): Load {
    if k == "loaded_files" then l.(loadedFiles := Number(v))
    else if k == "total_rows" then l.(totalRows := Number(v))
    else if k == "total_failed" then l.(totalFailed := Number(v))
    else if k == "file" then
      var f := ReadFile(v);
      if f.Some? then l.(files := l.files + [f.value]) else l
    else l
  }

  function Reason(f: seq<string>, i: nat): string { if |f| > i then f[i] else "" }

  function ReadRebuild(r: Rebuild.Summary, k: string, v: string): Rebuild.Summary {
    var f := SplitRecord(v);
    if k == "ok" then
      var x := ReadKey(f);
      if x.Some? then r.(rebuilt := r.rebuilt + [x.value]) else r
    else if k == "fail" then
      var x := ReadKey(f);
      if x.Some? then r.(pending := r.pending + [Rebuild.Pending(x.value, Reason(f, 3), "")]) else r
    else if k == "fail_readd" then
      if r.pending == [] then r
      else
        var last := |r.pending| - 1;
        r.(pending := r.pending[last := r.pending[last].(readd := v)])
    else if k == "index" then r.(indexes := r.indexes + [v])
    else if k == "index_fail" then
      if f == [] then r else r.(failedIndexes := r.failedIndexes + [Rebuild.FailedIndex(f[0], Reason(f, 1))])
    else if k == "withhold" then
      if |f| < 3 then r else r.(withheld := r.withheld + [Rebuild.WithheldFk(f[0], f[1], f[2], Reason(f, 3))])
    else r
  }

  function ReadValidate(x: Validation, k: string, v: string): Validation {
    if k == "exceptions_file" then if v != NONE then x.(exceptionsFile := v) else x
    else if k == "edge" then
      var (left, status) := SplitColons(v);
      var edge := ParseRef(left);
      if StartsWith(status, "skipped") then x.(edges := x.edges + [EdgeResult(edge, 0, true)], skipped := x.skipped + 1)
      else if StartsWith(status, "violated") then
        var n := Number(status[8..]);
        x.(edges := x.edges + [EdgeResult(edge, n, false)], violated := x.violated + 1, totalOrphans := x.totalOrphans + n)
      else x.(edges := x.edges + [EdgeResult(edge, 0, false)], validated := x.validated + 1)
    else x
  }

  function ReadFk(x: FkRecord, k: string, v: string): FkRecord {
    if k == "exceptions_file" then if v != NONE then x.(exceptionsFile := v) else x
    else if k == "define" then x.(defined := x.defined + [ParseRef(v)])
    else if k == "withhold" then
      var (left, reason) := SplitColons(v);
      x.(withheld := x.withheld + [Withheld(ParseRef(left), reason, "")])
    else if k == "readd" then
      if x.withheld == [] then x
      else
        var last := |x.withheld| - 1;
        x.(withheld := x.withheld[last := x.withheld[last].(readd := v)])
    else x
  }

  function ReadStats(s: Stats, k: string, v: string): Stats {
    if k == "updated" then s.(updated := Number(v))
    else if k == "fail" then
      var (cls, reason) := SplitColons(v);
      s.(failed := s.failed + [StatsFailure(cls, reason)])
    else s
  }

  function ReadTriggers(t: TriggerRecord, k: string, v: string): TriggerRecord {
    if k == "trigger_file" then if v != NONE then t.(file := v) else t
    else if k == "defined" then t.(defined := Number(v))
    else if k == "failed" then t.(failed := Number(v))
    else t
  }

  function ReadPair(d: Doc, k: string, v: string): Doc {
    match d.part
    case Start => if k == "format_version" then d.(version := Number(v)) else d
    case SetPart => ReadSet(d, k, v)
    case PlanPart => d.(levels := ReadPlan(d.levels, k, v))
    case GraphPart => d.(graph := ReadGraph(d.graph, k, v))
    case StripPart => d.(strip := ReadStrip(d.strip, k, v))
    case LoadPart => d.(load := ReadLoad(d.load, k, v))
    case RebuildPart => d.(rebuild := ReadRebuild(d.rebuild, k, v))
    case ValidatePart => d.(validate := ReadValidate(d.validate, k, v))
    case FkPart => d.(fkdefine := ReadFk(d.fkdefine, k, v))
    case StatsPart => d.(stats := ReadStats(d.stats, k, v))
    case TriggerPart => d.(triggers := ReadTriggers(d.triggers, k, v))
    case PhasePart => if k == "current" && PhaseNamed(v).Some? then d.(reached := PhaseNamed(v)) else d
    case Unknown => d
  }

  function ReadItem(d: Doc, l: Line): Doc {
    match l
    case Header(name) => d.(part := SectionOf(name), has := d.has + {SectionOf(name)})
    case Pair(k, v) => ReadPair(d, k, v)
    case _ => d
  }

  function ReadAll(d: Doc, lines: seq<Line>): Doc
    decreases |lines|
  {
    if lines == [] then d else ReadAll(ReadItem(d, lines[0]), lines[1..])
  }

  function Finish(d: Doc): Doc { d.(graph := d.graph.(database := d.database)) }

  function Read(text: string): Doc { Finish(ReadAll(BLANK, ReadLines(GetLines(text)))) }

  function AfterLine(text: string): string { if LineEnd(text) == |text| then "" else text[LineEnd(text) + 1..] }

  lemma NextLine(text: string)
    requires text != ""
    ensures GetLines(text) == [text[..LineEnd(text)]] + GetLines(AfterLine(text)) && |AfterLine(text)| < |text|
  {
    hide LineEnd;
  }

  lemma ReadsFirst(d: Doc, raw: string, raws: seq<string>)
    ensures ReadAll(d, ReadLines([raw] + raws)) == ReadAll(ReadItem(d, ReadLine(raw)), ReadLines(raws))
  {
    hide ReadItem, ReadLine;
    assert ([raw] + raws)[1..] == raws;
  }

  /** `read_manifest`: line by line, the state updated in place. */
  method ReadManifest(text: string) returns (d: Doc)
    ensures d == Read(text)
  {
    hide ReadAll, ReadItem, ReadLines, ReadLine, GetLines, LineEnd, BLANK;
    d := BLANK;
    var rest := text;
    while rest != ""
      invariant ReadAll(d, ReadLines(GetLines(rest))) == ReadAll(BLANK, ReadLines(GetLines(text)))
      decreases |rest|
    {
      NextLine(rest);
      ReadsFirst(d, rest[..LineEnd(rest)], GetLines(AfterLine(rest)));
      d := ReadItem(d, ReadLine(rest[..LineEnd(rest)]));
      rest := AfterLine(rest);
    }
    NoLines(d);
    d := d.(graph := d.graph.(database := d.database));
  }

  lemma NoLines(d: Doc)
    ensures ReadAll(d, ReadLines(GetLines(""))) == d
  {
    hide ReadItem, ReadLine;
  }
}
