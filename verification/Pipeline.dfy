/** The crash/resume protocol as a state machine. Durable state is the committed database
    and the manifest file; a running process holds an open transaction and its records in
    memory. Every phase works, commits, then marks the manifest; between any two steps the
    process may die, and any commit or manifest write may fail. */
module Pipeline {
  import opened Schema
  import opened Dump
  import opened Resume
  import Engine
  import Strip
  import Rebuild
  import FkDefine
  import Restore

  /** The markers, in pipeline order. */
  type Phase = n: nat | n <= 7
  const DISCOVERED: Phase := 0
  const DEFINED: Phase := 1
  const STRIPPED: Phase := 2
  const LOADED: Phase := 3
  const REBUILT: Phase := 4
  const FK_DEFINED: Phase := 5
  const STATS_UPDATED: Phase := 6
  const DONE: Phase := 7

  datatype Db = Db(classes: set<string>, catalog: set<Key>, rows: multiset<Row>, triggers: set<string>)

  datatype TriggerRecord = TriggerRecord(defined: nat, failed: nat)

  /** The work of the phases as the protocol sees it: what each makes of the committed database
      and the process's memory. */
  datatype Work = Work(order: Graph -> seq<Stripped>, strip: (Db, Mem) -> Option<set<Key>>, emptied: (Db, Mem) -> multiset<Row>,
                       rebuild: (Db, Mem) -> Option<Rebuild.State>, fk: (Db, Mem) -> Option<FkDefine.State>,
                       triggers: (Db, Mem) -> Triggers, restored: (Db, Mem) -> bool)

  /** One command over one dump, and the world it meets: what the definition phase leaves
      in an empty target, what a snapshot of a catalog yields, the server's verdicts. */
  datatype Env = Env(roster: ImportSet, files: Files, restart: bool, dryRun: bool, keepGoing: bool, artifactWritable: bool,
                     target: Db, snapshot: set<Key> -> Graph, layering: Graph -> seq<seq<string>>, rosterOk: Graph -> bool,
                     family: Key -> set<Key>, refs: seq<FkEdge>, verdict: (string, multiset<Row>) -> Engine.Verdict,
                     dumpRows: multiset<Row>, loads: bool, statsFailures: seq<string>,
                     triggers: seq<string>, triggerAccepted: string -> bool, work: Work)

  function Judging(verdict: (string, multiset<Row>) -> Engine.Verdict, rows: multiset<Row>): string -> Engine.Verdict {
    (t: string) => verdict(t, rows)
  }

  function Server(env: Env, rows: multiset<Row>): Engine.Engine {
    Engine.Engine(env.family, env.refs, Judging(env.verdict, rows))
  }

  // ----- the manifest -----

  datatype Manifest = Manifest(database: string, prefix: string, reached: Phase, graph: Option<Graph>,
                               plan: Option<seq<seq<string>>>, strip: Option<seq<Stripped>>, load: Option<nat>,
                               rebuild: Option<Rebuild.Summary>, validate: Option<FkDefine.Validation>,
                               fkdefine: Option<FkDefine.Summary>, stats: Option<seq<string>>,
                               triggers: Option<TriggerRecord>)

  predicate MarkedAt(man: Option<Manifest>, p: Phase) { man.Some? && man.value.reached == p }

  function ViolatedEdges(edges: seq<FkDefine.EdgeResult>): nat {
    if edges == [] then 0
    else ViolatedEdges(edges[..|edges| - 1]) + if edges[|edges| - 1].orphans > 0 then 1 else 0
  }

  function OrphanTotal(edges: seq<FkDefine.EdgeResult>): nat {
    if edges == [] then 0 else OrphanTotal(edges[..|edges| - 1]) + edges[|edges| - 1].orphans
  }

  lemma ViolatedAreEdges(edges: seq<FkDefine.EdgeResult>)
    ensures ViolatedEdges(edges) <= |edges|
  {
  }

  /** The per-edge lines carry the counts back; the orphan rows and the attempted-edge
      tally are not written. */
  function ReadBack(v: FkDefine.Validation): FkDefine.Validation {
    ViolatedAreEdges(v.edges);
    FkDefine.Validation(v.edges, [], |v.edges| - ViolatedEdges(v.edges), ViolatedEdges(v.edges), OrphanTotal(v.edges))
  }

  /** Everything a resume reconstructs is in the file, and it is this import's. */
  predicate Resumable(env: Env, m: Manifest) {
    && m.database == env.roster.database && m.prefix == env.roster.prefix
    && m.reached != DISCOVERED
    && (m.reached >= STRIPPED ==> m.graph.Some? && m.strip.Some?)
    && (m.reached >= LOADED ==> m.load.Some?)
    && (m.reached >= REBUILT ==> m.rebuild.Some?)
    && (m.reached >= FK_DEFINED ==> m.validate.Some? && m.fkdefine.Some?)
    && (m.reached >= STATS_UPDATED ==> m.stats.Some?)
  }

  /** The verdict a run over a finished manifest derives from its records. */
  predicate RecordsClean(m: Manifest) {
    && (m.rebuild.Some? ==> !m.rebuild.value.Incomplete())
    && (m.fkdefine.Some? ==> m.fkdefine.value.withheld == [])
    && (m.stats.Some? ==> m.stats.value == [])
    && (m.triggers.Some? ==> m.triggers.value.failed == 0)
    && (m.validate.Some? ==> ReadBack(m.validate.value).violated == 0)
  }

  datatype Decision = Fresh(preserve: bool) | AlreadyDone(success: bool) | Resume

  function Decide(env: Env, man: Option<Manifest>): Decision {
    match man
    case None => Fresh(false)
    case Some(m) =>
      if env.restart then Fresh(true)
      else if m.reached == DONE then AlreadyDone(RecordsClean(m))
      else if Resumable(env, m) then Resume
      else Fresh(true)
  }

  // ----- the process -----

  /** What the process holds in memory. `from` is the marker a resumed run started at,
      `present` the catalog it read then, `work` the open transaction. */
  datatype Mem = Mem(from: Option<Phase>, hasGraph: bool, graph: Graph, planned: seq<seq<string>>, present: set<Key>,
                     work: Db, strip: seq<Stripped>, load: nat, rebuild: Rebuild.Summary,
                     validate: FkDefine.Validation, violated: bool, fkdefine: FkDefine.Summary, stats: seq<string>,
                     triggers: TriggerRecord, restored: bool)

  datatype Pc =
    | Preserve | WriteDiscovered | Define | WriteDefined | TakeGraph | WriteGraph | WritePlan | Verify
    | StripWork | StripCommit | WriteStripped
    | TruncateWork | TruncateCommit | Loading(left: multiset<Row>) | WriteLoaded
    | RebuildWork | RebuildCommit | WriteRebuilt
    | FkWork | FkCommit | WriteFk
    | StatsWork | WriteStats
    | TriggerWork | TriggerCommit | CheckCatalog | WriteDone | Close

  datatype Proc = Idle | Running(pc: Pc, mem: Mem) | Exited(success: bool)

  datatype State = State(db: Db, man: Option<Manifest>, saved: seq<Manifest>, proc: Proc)

  const NO_GRAPH := Graph("", [], [], [], [], [])
  const NO_TRIGGERS := TriggerRecord(0, 0)
  const BLANK := Db({}, {}, multiset{}, {})

  function FreshMem(db: Db): Mem {
    Mem(None, false, NO_GRAPH, [], {}, db, [], 0, Rebuild.EMPTY, FkDefine.NOTHING_VALIDATED, false, FkDefine.EMPTY, [],
        NO_TRIGGERS, false)
  }

  /** A resumed run restores the record of every phase it skips. */
  function ResumedMem(db: Db, m: Manifest): Mem
  {
    Mem(Some(m.reached), m.graph.Some?, if m.graph.Some? then m.graph.value else NO_GRAPH,
        if m.plan.Some? then m.plan.value else [], {}, db,
        if m.reached >= STRIPPED && m.strip.Some? then m.strip.value else [],
        if m.reached >= LOADED && m.load.Some? then m.load.value else 0,
        if m.reached >= REBUILT && m.rebuild.Some? then m.rebuild.value else Rebuild.EMPTY,
        if m.reached >= FK_DEFINED && m.validate.Some? then ReadBack(m.validate.value) else FkDefine.NOTHING_VALIDATED,
        false,
        if m.reached >= FK_DEFINED && m.fkdefine.Some? then m.fkdefine.value else FkDefine.EMPTY,
        if m.reached >= STATS_UPDATED && m.stats.Some? then m.stats.value else [],
        NO_TRIGGERS, false)
  }

  /** The manifest a run writes on reaching `p`. */
  function Record(env: Env, p: Phase, mem: Mem): Manifest {
    Manifest(env.roster.database, env.roster.prefix, p, Some(mem.graph), Some(mem.planned),
             if p >= STRIPPED then Some(mem.strip) else None,
             if p >= LOADED then Some(mem.load) else None,
             if p >= REBUILT then Some(mem.rebuild) else None,
             if p >= FK_DEFINED then Some(mem.validate) else None,
             if p >= FK_DEFINED then Some(mem.fkdefine) else None,
             if p >= STATS_UPDATED then Some(mem.stats) else None,
             if p >= DONE then Some(mem.triggers) else None)
  }

  function EarlyRecord(env: Env, p: Phase): Manifest {
    Manifest(env.roster.database, env.roster.prefix, p, None, None, None, None, None, None, None, None, None)
  }

  predicate ResumedAt(mem: Mem, p: Phase) { mem.from == Some(p) }

  /** Only the phase right after the marker can be half done: it alone gets the guard. */
  function Guard(mem: Mem, p: Phase): Option<set<Key>> {
    if ResumedAt(mem, p) then Some(mem.present) else None
  }

  /** The exit status of a run that got to its end. */
  predicate Verdict(mem: Mem) {
    && mem.restored && !mem.rebuild.Incomplete() && !mem.violated && mem.fkdefine.withheld == []
    && mem.stats == [] && mem.triggers.failed == 0
  }

  // ----- the trigger phase -----

  datatype Triggers = Triggers(defs: set<string>, sum: TriggerRecord)

  function TriggerStep(env: Env, resumed: bool, st: Triggers, name: string): Triggers {
    if name in st.defs then
      if resumed then st.(sum := st.sum.(defined := st.sum.defined + 1)) else st.(sum := st.sum.(failed := st.sum.failed + 1))
    else if env.triggerAccepted(name) then Triggers(st.defs + {name}, st.sum.(defined := st.sum.defined + 1))
    else st.(sum := st.sum.(failed := st.sum.failed + 1))
  }

  function RunTriggers(env: Env, resumed: bool, st: Triggers, names: seq<string>): Triggers {
    if names == [] then st
    else TriggerStep(env, resumed, RunTriggers(env, resumed, st, names[..|names| - 1]), names[|names| - 1])
  }

  // ----- one step -----

  function Exit(s: State, success: bool): State { s.(proc := Exited(success)) }

  function Go(s: State, pc: Pc, mem: Mem): State { s.(proc := Running(pc, mem)) }

  function Write(s: State, m: Manifest, pc: Pc, mem: Mem): State { s.(man := Some(m), proc := Running(pc, mem)) }

  function Commit(s: State, pc: Pc, mem: Mem): State { s.(db := mem.work, proc := Running(pc, mem)) }

  function Begin(env: Env, s: State): State {
    if env.dryRun then
      if s.db.classes != {} then Exit(s, false) else Go(s, Define, FreshMem(s.db))
    else match Decide(env, s.man)
      case AlreadyDone(success) => Exit(s, success)
      case Fresh(preserve) =>
        if s.db.classes != {} then Exit(s, false)
        else Go(s, if preserve then Preserve else WriteDiscovered, FreshMem(s.db))
      case Resume => Go(s, TakeGraph, ResumedMem(s.db, s.man.value))
  }

  /** The phase after the marker a resumed run started at. */
  function Entry(p: Phase): Pc {
    if p == STRIPPED then TruncateWork
    else if p == LOADED then RebuildWork
    else if p == REBUILT then FkWork
    else if p == FK_DEFINED then StatsWork
    else if p == STATS_UPDATED then TriggerWork
    else StripWork
  }

  predicate TargetMatches(mem: Mem, db: Db) {
    Matches(mem.graph, mem.strip, ResumedAt(mem, STRIPPED), ResumedAt(mem, DEFINED), db.classes, db.catalog, db.rows)
  }

  function DefineSteps(env: Env, s: State, pc: Pc, mem: Mem): State {
    match pc
    case Preserve =>
      if s.man.None? then Exit(s, false)
      else s.(man := None, saved := s.saved + [s.man.value], proc := Running(WriteDiscovered, mem))
    case WriteDiscovered => Write(s, EarlyRecord(env, DISCOVERED), Define, mem)
    case Define =>
      if env.dryRun then Go(s, TakeGraph, mem.(work := env.target))
      else s.(db := env.target, proc := Running(WriteDefined, mem.(work := env.target)))
    case WriteDefined => Write(s, EarlyRecord(env, DEFINED), TakeGraph, mem)
    case TakeGraph =>
      var g := if mem.hasGraph then mem.graph else env.snapshot(mem.work.catalog);
      var mem' := mem.(graph := g, planned := if mem.hasGraph then mem.planned else env.layering(g));
      if !env.rosterOk(g) then Exit(s, false)
      else if env.dryRun then Exit(s, true)
      else if mem.from.None? || ResumedAt(mem, DEFINED) then Go(s, WriteGraph, mem')
      else Go(s, Verify, mem')
    case WriteGraph => Write(s, Record(env, DEFINED, mem).(plan := None), WritePlan, mem)
    case WritePlan => Write(s, Record(env, DEFINED, mem), if mem.from.None? then StripWork else Verify, mem)
    case Verify =>
      if mem.from.Some? && TargetMatches(mem, s.db) then Go(s, Entry(mem.from.value), mem.(present := s.db.catalog))
      else Exit(s, false)
    case _ => s
  }

  /** `after` is what the drops of `order` leave, None when one is rejected. */
  function StripSteps(env: Env, s: State, pc: Pc, mem: Mem, after: Option<set<Key>>, order: seq<Stripped>): State {
    match pc
    case StripWork =>
      if after.None? then Exit(s, false)
      else Go(s, StripCommit, mem.(work := s.db.(catalog := after.value), strip := order))
    case StripCommit => Commit(s, WriteStripped, mem)
    case WriteStripped => Write(s, Record(env, STRIPPED, mem), Loading(env.dumpRows), mem)
    case _ => s
  }

  /** `emptied` is what the truncation leaves. */
  function LoadSteps(env: Env, s: State, pc: Pc, mem: Mem, emptied: multiset<Row>): State {
    match pc
    case TruncateWork => Go(s, TruncateCommit, mem.(work := s.db.(rows := emptied)))
    case TruncateCommit => Commit(s, Loading(env.dumpRows), mem)
    case Loading(left) =>
      if !env.loads then Exit(s, false)
      else
        s.(db := s.db.(rows := s.db.rows + left), proc := Running(WriteLoaded, mem.(load := |s.db.rows + left|)))
    case WriteLoaded => Write(s, Record(env, LOADED, mem), RebuildWork, mem)
    case _ => s
  }

  /** `st` is what the phase leaves, None when a source cannot be read. */
  function RebuildSteps(env: Env, s: State, pc: Pc, mem: Mem, st: Option<Rebuild.State>): State {
    match pc
    case RebuildWork =>
      if st.None? then Exit(s, false)
      else Go(s, RebuildCommit, mem.(work := s.db.(catalog := st.value.cat), rebuild := st.value.sum))
    case RebuildCommit => Commit(s, WriteRebuilt, mem)
    case WriteRebuilt => Write(s, Record(env, REBUILT, mem), FkWork, mem)
    case _ => s
  }

  function FkSteps(env: Env, s: State, pc: Pc, mem: Mem, st: Option<FkDefine.State>): State {
    match pc
    case FkWork =>
      if st.None? || st.value.hard || (st.value.sum.withheld != [] && !env.artifactWritable) then Exit(s, false)
      else
        Go(s, FkCommit, mem.(work := s.db.(catalog := st.value.cat), validate := st.value.val,
                             violated := st.value.val.violated > 0, fkdefine := st.value.sum))
    case FkCommit => Commit(s, WriteFk, mem)
    case WriteFk => Write(s, Record(env, FK_DEFINED, mem), StatsWork, mem)
    case _ => s
  }

  function StatsSteps(env: Env, s: State, pc: Pc, mem: Mem): State {
    match pc
    case StatsWork => Go(s, WriteStats, mem.(stats := env.statsFailures))
    case WriteStats => Write(s, Record(env, STATS_UPDATED, mem), TriggerWork, mem)
    case _ => s
  }

  /** `t` is what the trigger file leaves, `restored` the final check's answer. */
  function LastSteps(env: Env, s: State, pc: Pc, mem: Mem, t: Triggers, restored: bool): State {
    match pc
    case TriggerWork => Go(s, TriggerCommit, mem.(work := s.db.(triggers := t.defs), triggers := t.sum))
    case TriggerCommit => Commit(s, CheckCatalog, mem)
    case CheckCatalog => Go(s, WriteDone, mem.(restored := restored))
    case WriteDone => Write(s, Record(env, DONE, mem), Close, mem)
    case Close => Exit(s, Verdict(mem))
    case _ => s
  }

  // ----- the work of each phase, over the committed database -----

  ghost function StripOutcome(env: Env, db: Db, mem: Mem): Option<set<Key>> {
    Strip.RunDrops(Server(env, db.rows), Guard(mem, DEFINED), db.catalog, Strip.DropOrder(mem.graph))
  }

  function RebuildOutcome(env: Env, db: Db, mem: Mem): Option<Rebuild.State> {
    match Rebuild.PhaseOps(env.roster, env.files)
    case None => None
    case Some(ops) => Some(Rebuild.Phase(Server(env, db.rows), mem.graph, mem.strip, Guard(mem, LOADED), db.catalog, ops))
  }

  function FkOutcome(env: Env, db: Db, mem: Mem): Option<FkDefine.State> {
    match StatementsOf(env.files, FkFiles(env.roster))
    case None => None
    case Some(texts) =>
      Some(FkDefine.Phase(Server(env, db.rows), mem.graph, mem.rebuild, env.keepGoing, Guard(mem, REBUILT), db.catalog, texts))
  }

  function TriggerOutcome(env: Env, db: Db, mem: Mem): Triggers {
    RunTriggers(env, ResumedAt(mem, STATS_UPDATED), Triggers(db.triggers, NO_TRIGGERS), env.triggers)
  }

  function CheckOutcome(db: Db, mem: Mem): bool {
    Restore.Restored(mem.graph, db.catalog, Restore.Excused(mem.rebuild, mem.fkdefine))
  }

  ghost function EmptiedOutcome(db: Db, mem: Mem): multiset<Row> { AfterTruncate(mem.graph.nodes, db.rows) }

  /** The protocol's work is the work of this project's phases. */
  ghost predicate Works(env: Env) {
    && (forall g {:trigger Strip.DropOrder(g)} :: env.work.order(g) == Strip.DropOrder(g))
    && (forall db, mem {:trigger StripOutcome(env, db, mem)} :: env.work.strip(db, mem) == StripOutcome(env, db, mem))
    && (forall db, mem {:trigger EmptiedOutcome(db, mem)} :: env.work.emptied(db, mem) == EmptiedOutcome(db, mem))
    && (forall db, mem {:trigger RebuildOutcome(env, db, mem)} :: env.work.rebuild(db, mem) == RebuildOutcome(env, db, mem))
    && (forall db, mem {:trigger FkOutcome(env, db, mem)} :: env.work.fk(db, mem) == FkOutcome(env, db, mem))
    && (forall db, mem {:trigger TriggerOutcome(env, db, mem)} :: env.work.triggers(db, mem) == TriggerOutcome(env, db, mem))
    && (forall db, mem {:trigger CheckOutcome(db, mem)} :: env.work.restored(db, mem) == CheckOutcome(db, mem))
  }

  ghost function WorkOf(env: Env): Work {
    Work(g => Strip.DropOrder(g), (db, mem) => StripOutcome(env, db, mem), (db, mem) => EmptiedOutcome(db, mem),
         (db, mem) => RebuildOutcome(env, db, mem), (db, mem) => FkOutcome(env, db, mem),
         (db, mem) => TriggerOutcome(env, db, mem), (db, mem) => CheckOutcome(db, mem))
  }

  /** Any import can be given it. */
  lemma CanWork(env: Env)
    ensures Works(env.(work := WorkOf(env)))
  {
    hide Strip.DropOrder, Strip.RunDrops, Rebuild.PhaseOps, Rebuild.Phase, FkDefine.Phase, Restore.Restored, RunTriggers,
         EmptiedOutcome;
    var e := env.(work := WorkOf(env));
    forall s: Triggers, resumed: bool ensures RunTriggers(e, resumed, s, env.triggers) == RunTriggers(env, resumed, s, env.triggers) {
      SameTriggers(env, e, resumed, s, env.triggers);
    }
  }

  lemma {:induction false} SameTriggers(env: Env, e: Env, resumed: bool, st: Triggers, names: seq<string>)
    requires e == env.(work := e.work)
    ensures RunTriggers(e, resumed, st, names) == RunTriggers(env, resumed, st, names)
  {
    if names != [] { SameTriggers(env, e, resumed, st, names[..|names| - 1]); }
  }

  lemma WorkIs(env: Env, db: Db, mem: Mem)
    requires Works(env)
    ensures env.work.order(mem.graph) == Strip.DropOrder(mem.graph) && env.work.strip(db, mem) == StripOutcome(env, db, mem)
    ensures env.work.emptied(db, mem) == EmptiedOutcome(db, mem)
    ensures env.work.rebuild(db, mem) == RebuildOutcome(env, db, mem) && env.work.fk(db, mem) == FkOutcome(env, db, mem)
    ensures env.work.triggers(db, mem) == TriggerOutcome(env, db, mem) && env.work.restored(db, mem) == CheckOutcome(db, mem)
  {
    hide StripOutcome, EmptiedOutcome, RebuildOutcome, FkOutcome, TriggerOutcome, CheckOutcome, Strip.DropOrder;
  }

  datatype Stage = Defining | Stripping | LoadingRows | Rebuilding | Linking | Refreshing | Finishing

  function StageOf(pc: Pc): Stage {
    match pc
    case StripWork => Stripping case StripCommit => Stripping case WriteStripped => Stripping
    case TruncateWork => LoadingRows case TruncateCommit => LoadingRows case Loading(_) => LoadingRows case WriteLoaded => LoadingRows
    case RebuildWork => Rebuilding case RebuildCommit => Rebuilding case WriteRebuilt => Rebuilding
    case FkWork => Linking case FkCommit => Linking case WriteFk => Linking
    case StatsWork => Refreshing case WriteStats => Refreshing case TriggerWork => Finishing case TriggerCommit => Finishing
    case CheckCatalog => Finishing case WriteDone => Finishing case Close => Finishing
    case _ => Defining
  }

  /** What happens next when nothing goes wrong; an ended process is started again. */
  ghost function Next(env: Env, s: State): State {
    match s.proc
    case Idle => Begin(env, s)
    case Exited(_) => Begin(env, s)
    case Running(pc, mem) =>
      match StageOf(pc)
      case Defining => DefineSteps(env, s, pc, mem)
      case Stripping => StripSteps(env, s, pc, mem, env.work.strip(s.db, mem), env.work.order(mem.graph))
      case LoadingRows => LoadSteps(env, s, pc, mem, env.work.emptied(s.db, mem))
      case Rebuilding => RebuildSteps(env, s, pc, mem, env.work.rebuild(s.db, mem))
      case Linking => FkSteps(env, s, pc, mem, env.work.fk(s.db, mem))
      case Refreshing => StatsSteps(env, s, pc, mem)
      case Finishing => LastSteps(env, s, pc, mem, env.work.triggers(s.db, mem), env.work.restored(s.db, mem))
  }

  /** The process dies, or an operation fails and it exits; the open transaction is gone. */
  predicate Fails(s: State, s': State) {
    s.proc.Running? && (s' == s.(proc := Idle) || s' == s.(proc := Exited(false)))
  }

  /** A schema file's own commits leave part of the definition behind. */
  ghost predicate DefinesPart(env: Env, s: State, s': State) {
    && s.proc.Running? && s.proc.pc.Define? && !env.dryRun
    && s' == s.(db := s'.db) && s'.db.rows == multiset{} && s'.db.classes != {}
  }

  /** A load child commits some of its rows. */
  ghost predicate LoadsPart(s: State, s': State) {
    && s.proc.Running? && s.proc.pc.Loading?
    && exists b: multiset<Row> :: b <= s.proc.pc.left
         && s' == s.(db := s.db.(rows := s.db.rows + b), proc := Running(Loading(s.proc.pc.left - b), s.proc.mem))
  }

  ghost predicate Step(env: Env, s: State, s': State) {
    s' == Next(env, s) || Fails(s, s') || DefinesPart(env, s, s') || LoadsPart(s, s')
  }

  /** A run of the machine: any number of processes, killed anywhere. */
  ghost predicate Path(env: Env, h: seq<State>) {
    h != [] && forall i :: 0 <= i < |h| - 1 ==> Step(env, h[i], h[i + 1])
  }

  const FRESH := State(BLANK, None, [], Idle)

  function Nth(h: seq<State>, i: int): State { if 0 <= i < |h| then h[i] else FRESH }

  function First(h: seq<State>): State { Nth(h, 0) }

  function Last(h: seq<State>): State { Nth(h, |h| - 1) }

  ghost predicate Reachable(env: Env, s: State) {
    exists h :: Path(env, h) && First(h) == FRESH && Last(h) == s
  }

  // ----- where undisturbed steps lead -----

  /** The machine after `n` undisturbed steps. */
  ghost function After(env: Env, s: State, n: int): State {
    if n <= 0 then s else Next(env, After(env, s, n - 1))
  }

  lemma {:induction false} AfterNext(env: Env, s: State, n: nat)
    ensures After(env, s, n + 1) == After(env, Next(env, s), n)
  {
    hide Next;
    if n > 0 { AfterNext(env, s, n - 1); }
  }

  lemma ReachableStep(env: Env, s: State, t: State)
    requires Reachable(env, s) && Step(env, s, t)
    ensures Reachable(env, t)
  {
    hide Step;
    var h :| Path(env, h) && First(h) == FRESH && Last(h) == s;
    var g := h + [t];
    assert Path(env, g) by {
      forall i | 0 <= i < |g| - 1 ensures Step(env, g[i], g[i + 1]) {
        if i < |h| - 1 { assert Step(env, h[i], h[i + 1]); }
      }
    }
    assert First(g) == FRESH && Last(g) == t;
  }

  lemma {:induction false} ReachableAfter(env: Env, s: State, n: nat)
    requires Reachable(env, s)
    ensures Reachable(env, After(env, s, n))
  {
    hide Reachable, Next, Step;
    if n > 0 {
      ReachableAfter(env, s, n - 1);
      var t := After(env, s, n - 1);
      NextIsStep(env, t);
      ReachableStep(env, t, Next(env, t));
    }
  }

  lemma NextIsStep(env: Env, s: State)
    ensures Step(env, s, Next(env, s))
  {
    hide Next, Fails, LoadsPart;
  }

  // ----- how a phase ends -----

  /** Where the phase reaching `p` commits, marks, and what follows it. */
  function CommitPc(p: Phase): Pc {
    if p == STRIPPED then StripCommit else if p == REBUILT then RebuildCommit else FkCommit
  }

  function MarkPc(p: Phase): Pc {
    if p == STRIPPED then WriteStripped else if p == LOADED then WriteLoaded else if p == REBUILT then WriteRebuilt
    else if p == FK_DEFINED then WriteFk else WriteStats
  }

  function AfterMark(env: Env, p: Phase): Pc {
    if p == STRIPPED then Loading(env.dumpRows) else if p == LOADED then RebuildWork else if p == REBUILT then FkWork
    else if p == FK_DEFINED then StatsWork else TriggerWork
  }

  lemma MarkLeads(env: Env, s: State, p: Phase, mem: Mem)
    requires STRIPPED <= p <= STATS_UPDATED
    ensures Next(env, s.(proc := Running(MarkPc(p), mem))) == Write(s, Record(env, p, mem), AfterMark(env, p), mem)
    ensures p == STRIPPED || p == REBUILT || p == FK_DEFINED ==>
      Next(env, s.(proc := Running(CommitPc(p), mem))) == Commit(s, MarkPc(p), mem)
  {
    hide Record, DefineSteps, Decide;
  }

  // ----- how a phase starts -----

  lemma TruncateLeads(env: Env, s: State, mem: Mem)
    ensures Next(env, s.(proc := Running(TruncateWork, mem)))
         == Go(s, TruncateCommit, mem.(work := s.db.(rows := env.work.emptied(s.db, mem))))
    ensures Next(env, s.(proc := Running(TruncateCommit, mem))) == Commit(s, Loading(env.dumpRows), mem)
  {
    hide Record, Verdict, DefineSteps, StripSteps, RebuildSteps, FkSteps, StatsSteps, LastSteps, Begin;
  }

  lemma RebuildLeads(env: Env, s: State, mem: Mem)
    ensures Next(env, s.(proc := Running(RebuildWork, mem)))
         == match env.work.rebuild(s.db, mem)
            case None => Exit(s, false)
            case Some(st) => Go(s, RebuildCommit, mem.(work := s.db.(catalog := st.cat), rebuild := st.sum))
  {
    hide Record, Verdict, DefineSteps, StripSteps, LoadSteps, FkSteps, StatsSteps, LastSteps, Begin;
  }

  predicate FkPasses(env: Env, st: FkDefine.State) { !st.hard && (st.sum.withheld == [] || env.artifactWritable) }

  lemma FkLeads(env: Env, s: State, mem: Mem)
    ensures Next(env, s.(proc := Running(FkWork, mem)))
         == match env.work.fk(s.db, mem)
            case None => Exit(s, false)
            case Some(st) =>
              if !FkPasses(env, st) then Exit(s, false)
              else Go(s, FkCommit, mem.(work := s.db.(catalog := st.cat), validate := st.val, violated := st.val.violated > 0,
                                        fkdefine := st.sum))
  {
    hide Record, Verdict, DefineSteps, StripSteps, LoadSteps, RebuildSteps, StatsSteps, LastSteps, Begin;
  }

  lemma TriggersLead(env: Env, s: State, mem: Mem)
    ensures var t := env.work.triggers(s.db, mem);
      Next(env, s.(proc := Running(TriggerWork, mem))) ==
      Go(s, TriggerCommit, mem.(work := s.db.(triggers := t.defs), triggers := t.sum))
    ensures Next(env, s.(proc := Running(TriggerCommit, mem))) == Commit(s, CheckCatalog, mem)
  {
    hide Record, Verdict, DefineSteps, StripSteps, LoadSteps,
         RebuildSteps, FkSteps, StatsSteps, Begin;
  }

  lemma FinishLeads(env: Env, s: State, mem: Mem)
    ensures Next(env, s.(proc := Running(CheckCatalog, mem))) == Go(s, WriteDone, mem.(restored := env.work.restored(s.db, mem)))
    ensures Next(env, s.(proc := Running(WriteDone, mem))) == Write(s, Record(env, DONE, mem), Close, mem)
  {
    hide Record, Verdict, DefineSteps, StripSteps, LoadSteps,
         RebuildSteps, FkSteps, StatsSteps, Begin;
  }

  lemma CloseLeads(env: Env, s: State, mem: Mem)
    ensures Next(env, s.(proc := Running(Close, mem))) == Exit(s, Verdict(mem))
  {
    hide Record, Verdict, DefineSteps, StripSteps, LoadSteps,
         RebuildSteps, FkSteps, StatsSteps, Begin;
  }
}
