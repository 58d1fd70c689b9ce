/** The level order of the plan lives on the graph and is not serialised with it: exactly which
    failure loses it, and that it never comes back. */
module LevelOrder {
  import opened Schema
  import opened Pipeline
  import FkDefine
  import Rebuild
  import Resume

  /** What a resume takes the level order to be. */
  function LevelsIn(m: Manifest): seq<seq<string>> { if m.plan.Some? then m.plan.value else [] }

  predicate HasGraph(man: Option<Manifest>) { man.Some? && man.value.graph.Some? }

  /** The graph in the manifest, if any, has its levels beside it. */
  predicate Planned(env: Env, man: Option<Manifest>) {
    HasGraph(man) ==> LevelsIn(man.value) == env.layering(man.value.graph.value)
  }

  /** A process stands between the two DEFINED writes, the graph written and the levels not. */
  predicate Between(proc: Proc) { proc.Running? && proc.pc.WritePlan? }

  /** The graph is there without its levels, and no process is about to write them. */
  predicate Lost(env: Env, s: State) { !Between(s.proc) && !Planned(env, s.man) }

  /** A process that has levels to lose dies or fails between the two writes. */
  predicate Tears(env: Env, s: State, s': State) {
    match s.proc
    case Running(WritePlan, mem) => Fails(s, s') && env.layering(mem.graph) != []
    case _ => false
  }

  // ----- where the graph comes from -----

  /** The snapshot of the schema as defined: the only graph any process works with. */
  function TheGraph(env: Env): Graph { env.snapshot(env.target.catalog) }

  /** The roster check lets the import past the snapshot. */
  predicate Goes(env: Env) { !env.dryRun && env.rosterOk(TheGraph(env)) }

  predicate GraphIn(env: Env, db: Db, man: Option<Manifest>) {
    && (HasGraph(man) ==> man.value.graph.value == TheGraph(env) && Goes(env))
    && (man.Some? && man.value.graph.None? ==>
          man.value.reached <= DEFINED && (man.value.reached == DEFINED ==> db.catalog == env.target.catalog))
  }

  predicate GraphAt(env: Env, db: Db, man: Option<Manifest>, pc: Pc, mem: Mem) {
    match pc
    case Preserve => mem.from.None? && !mem.hasGraph
    case WriteDiscovered => mem.from.None? && !mem.hasGraph
    case Define => mem.from.None? && !mem.hasGraph && (!env.dryRun ==> MarkedAt(man, DISCOVERED) && !HasGraph(man))
    case WriteDefined =>
      mem.from.None? && !mem.hasGraph && db.catalog == env.target.catalog && mem.work.catalog == env.target.catalog
    case TakeGraph =>
      && (if mem.hasGraph then mem.graph == TheGraph(env) else mem.work.catalog == env.target.catalog)
      && (mem.from.Some? && mem.from.value != DEFINED ==> HasGraph(man))
    case WriteGraph => mem.graph == TheGraph(env) && Goes(env)
    case WritePlan => mem.graph == TheGraph(env) && Goes(env) && man == Some(Record(env, DEFINED, mem).(plan := None))
    case _ => mem.graph == TheGraph(env) && Goes(env) && HasGraph(man)
  }

  predicate OneGraph(env: Env, s: State) {
    && GraphIn(env, s.db, s.man)
    && match s.proc
       case Running(pc, mem) => GraphAt(env, s.db, s.man, pc, mem)
       case _ => true
  }

  lemma DefiningKeepsGraph(env: Env, s: State, pc: Pc, mem: Mem)
    requires s.proc == Running(pc, mem) && StageOf(pc).Defining? && OneGraph(env, s)
    ensures OneGraph(env, DefineSteps(env, s, pc, mem))
  {
    hide TargetMatches, StageOf;
    if pc.Verify? && mem.from.Some? { EntryIsLate(mem.from.value); }
  }

  lemma EntryIsLate(p: Phase)
    ensures StageOf(Entry(p)) != Defining
  {
  }

  /** What a phase behind the plan does to the graph and the levels: it writes those it holds. */
  predicate LateMove(s: State, mem: Mem, s': State) {
    && (s'.man == s.man || (s'.man.Some? && s'.man.value.graph == Some(mem.graph) && s'.man.value.plan == Some(mem.planned)))
    && match s'.proc
       case Running(pc', mem') => StageOf(pc') != Defining && mem'.graph == mem.graph && mem'.planned == mem.planned
       case _ => true
  }

  lemma LateMoves(env: Env, s: State, pc: Pc, mem: Mem)
    requires s.proc == Running(pc, mem) && StageOf(pc) != Defining
    ensures LateMove(s, mem, Next(env, s))
  {
    hide DefineSteps, StripSteps, LoadSteps, RebuildSteps, FkSteps, StatsSteps, LastSteps, Begin, LateMove, StageOf;
    match StageOf(pc)
    case Stripping => StripMoves(env, s, pc, mem, env.work.strip(s.db, mem), env.work.order(mem.graph));
    case LoadingRows => LoadMoves(env, s, pc, mem, env.work.emptied(s.db, mem));
    case Rebuilding => RebuildMoves(env, s, pc, mem, env.work.rebuild(s.db, mem));
    case Linking => FkMoves(env, s, pc, mem, env.work.fk(s.db, mem));
    case Refreshing => StatsMoves(env, s, pc, mem);
    case Finishing => LastMoves(env, s, pc, mem, env.work.triggers(s.db, mem), env.work.restored(s.db, mem));
    case _ =>
  }

  lemma StripMoves(env: Env, s: State, pc: Pc, mem: Mem, after: Option<set<Key>>, order: seq<Stripped>)
    requires s.proc == Running(pc, mem) && StageOf(pc).Stripping?
    ensures LateMove(s, mem, StripSteps(env, s, pc, mem, after, order))
  {
    hide Record, Verdict;
    RecordHas(env, STRIPPED, mem);
  }

  lemma LoadMoves(env: Env, s: State, pc: Pc, mem: Mem, emptied: multiset<Resume.Row>)
    requires s.proc == Running(pc, mem) && StageOf(pc).LoadingRows?
    ensures LateMove(s, mem, LoadSteps(env, s, pc, mem, emptied))
  {
    hide Record, Verdict;
    RecordHas(env, LOADED, mem);
  }

  lemma RebuildMoves(env: Env, s: State, pc: Pc, mem: Mem, st: Option<Rebuild.State>)
    requires s.proc == Running(pc, mem) && StageOf(pc).Rebuilding?
    ensures LateMove(s, mem, RebuildSteps(env, s, pc, mem, st))
  {
    hide Record, Verdict;
    RecordHas(env, REBUILT, mem);
  }

  lemma FkMoves(env: Env, s: State, pc: Pc, mem: Mem, st: Option<FkDefine.State>)
    requires s.proc == Running(pc, mem) && StageOf(pc).Linking?
    ensures LateMove(s, mem, FkSteps(env, s, pc, mem, st))
  {
    hide Record, Verdict;
    RecordHas(env, FK_DEFINED, mem);
  }

  lemma StatsMoves(env: Env, s: State, pc: Pc, mem: Mem)
    requires s.proc == Running(pc, mem) && StageOf(pc).Refreshing?
    ensures LateMove(s, mem, StatsSteps(env, s, pc, mem))
  {
    hide Record, Verdict;
    RecordHas(env, STATS_UPDATED, mem);
  }

  lemma LastMoves(env: Env, s: State, pc: Pc, mem: Mem, t: Triggers, restored: bool)
    requires s.proc == Running(pc, mem) && StageOf(pc).Finishing?
    ensures LateMove(s, mem, LastSteps(env, s, pc, mem, t, restored))
  {
    hide Record, Verdict;
    RecordHas(env, DONE, mem);
  }

  lemma RecordHas(env: Env, p: Phase, mem: Mem)
    ensures Record(env, p, mem).graph == Some(mem.graph) && Record(env, p, mem).plan == Some(mem.planned)
  {
  }

  lemma LateKeepsGraph(env: Env, s: State, pc: Pc, mem: Mem)
    requires s.proc == Running(pc, mem) && StageOf(pc) != Defining && OneGraph(env, s)
    ensures OneGraph(env, Next(env, s))
  {
    hide Next, Record, TheGraph;
    LateMoves(env, s, pc, mem);
  }

  lemma BeginKeepsGraph(env: Env, s: State)
    requires !s.proc.Running? && OneGraph(env, s)
    ensures OneGraph(env, Begin(env, s))
  {
    hide RecordsClean, Record, TheGraph, ReadBack;
  }

  lemma NextKeepsGraph(env: Env, s: State)
    requires OneGraph(env, s)
    ensures OneGraph(env, Next(env, s))
  {
    hide OneGraph, DefineSteps, StripSteps, LoadSteps, RebuildSteps, FkSteps, StatsSteps, LastSteps, Begin, StageOf;
    if !s.proc.Running? {
      BeginKeepsGraph(env, s);
    } else if StageOf(s.proc.pc) == Defining {
      DefiningKeepsGraph(env, s, s.proc.pc, s.proc.mem);
    } else {
      LateKeepsGraph(env, s, s.proc.pc, s.proc.mem);
    }
  }

  lemma StepKeepsGraph(env: Env, s: State, s': State)
    requires OneGraph(env, s) && Step(env, s, s')
    ensures OneGraph(env, s')
  {
    hide Next, Record, TheGraph;
    if s' == Next(env, s) { NextKeepsGraph(env, s); }
  }

  lemma {:induction false} PathKeepsGraph(env: Env, h: seq<State>, i: nat)
    requires Path(env, h) && First(h) == FRESH && i < |h|
    ensures OneGraph(env, Nth(h, i))
  {
    hide Step, GraphAt;
    if i > 0 {
      PathKeepsGraph(env, h, i - 1);
      assert Step(env, h[i - 1], h[i - 1 + 1]);
      StepKeepsGraph(env, h[i - 1], h[i]);
    }
  }

  // ----- no other failure loses the levels -----

  predicate LevelsAt(env: Env, pc: Pc, mem: Mem) {
    match pc
    case Preserve => true
    case WriteDiscovered => true
    case Define => true
    case WriteDefined => true
    case TakeGraph => mem.hasGraph ==> mem.planned == env.layering(mem.graph)
    case _ => mem.planned == env.layering(mem.graph)
  }

  /** The levels are in the manifest, or with the process that is about to write them. */
  predicate Levelled(env: Env, s: State) {
    && (Between(s.proc) || Planned(env, s.man))
    && match s.proc
       case Running(pc, mem) => LevelsAt(env, pc, mem)
       case _ => true
  }

  lemma DefiningKeepsLevels(env: Env, s: State, pc: Pc, mem: Mem)
    requires s.proc == Running(pc, mem) && StageOf(pc).Defining? && OneGraph(env, s) && Levelled(env, s)
    ensures Levelled(env, DefineSteps(env, s, pc, mem))
  {
    hide TargetMatches, Entry, GraphIn, Goes;
    if pc.Verify? && mem.from.Some? { EntryIsLate(mem.from.value); }
  }

  lemma LateKeepsLevels(env: Env, s: State, pc: Pc, mem: Mem)
    requires s.proc == Running(pc, mem) && StageOf(pc) != Defining && Levelled(env, s)
    ensures Levelled(env, Next(env, s))
  {
    hide Next;
    LateMoves(env, s, pc, mem);
  }

  lemma BeginKeepsLevels(env: Env, s: State)
    requires !s.proc.Running? && Levelled(env, s)
    ensures Levelled(env, Begin(env, s))
  {
    hide RecordsClean, Resumable;
  }

  lemma NextKeepsLevels(env: Env, s: State)
    requires OneGraph(env, s) && Levelled(env, s)
    ensures Levelled(env, Next(env, s))
  {
    hide OneGraph, Levelled, DefineSteps, StripSteps, LoadSteps, RebuildSteps, FkSteps, StatsSteps, LastSteps, Begin,
         StageOf;
    if !s.proc.Running? {
      BeginKeepsLevels(env, s);
    } else if StageOf(s.proc.pc) == Defining {
      DefiningKeepsLevels(env, s, s.proc.pc, s.proc.mem);
    } else {
      LateKeepsLevels(env, s, s.proc.pc, s.proc.mem);
    }
  }

  lemma StepKeepsLevels(env: Env, s: State, s': State)
    requires OneGraph(env, s) && Levelled(env, s) && Step(env, s, s') && !Tears(env, s, s')
    ensures Levelled(env, s')
  {
    hide Next, GraphIn;
    if s' == Next(env, s) { NextKeepsLevels(env, s); }
  }

  predicate LostAt(env: Env, h: seq<State>, i: nat) { i < |h| && Lost(env, Nth(h, i)) }

  predicate TearsAt(env: Env, h: seq<State>, i: nat) { i + 1 < |h| && Tears(env, Nth(h, i), Nth(h, i + 1)) }

  lemma {:induction false} UntornPath(env: Env, h: seq<State>, i: nat)
    requires Path(env, h) && First(h) == FRESH && i < |h| && forall j: nat :: !TearsAt(env, h, j)
    ensures Levelled(env, Nth(h, i))
  {
    hide Step, OneGraph, LevelsAt, Tears, Between;
    if i > 0 {
      UntornPath(env, h, i - 1);
      PathKeepsGraph(env, h, i - 1);
      assert Step(env, h[i - 1], h[i - 1 + 1]) && !TearsAt(env, h, i - 1);
      StepKeepsLevels(env, h[i - 1], h[i]);
    }
  }

  lemma TornIsLost(env: Env, s: State, s': State)
    requires OneGraph(env, s) && Tears(env, s, s')
    ensures Lost(env, s') && Unplanned(env, TheGraph(env), s'.man) && !s'.proc.Running?
  {
  }

  /** Over any schedule the level order is lost exactly when a process that has one dies, or fails,
      between the write of the graph and the write of the levels. */
  lemma LostIff(env: Env, h: seq<State>)
    requires Path(env, h) && First(h) == FRESH
    ensures (exists i: nat :: LostAt(env, h, i)) <==> (exists i: nat :: TearsAt(env, h, i))
  {
    hide Step, OneGraph, Tears, Planned, LevelsAt, Path, Unplanned, Between;
    forall i: nat | TearsAt(env, h, i) ensures LostAt(env, h, i + 1) {
      PathKeepsGraph(env, h, i);
      TornIsLost(env, Nth(h, i), Nth(h, i + 1));
    }
    if i: nat :| LostAt(env, h, i) {
      if forall j: nat :: !TearsAt(env, h, j) { UntornPath(env, h, i); }
    }
  }

  // ----- and then they never come back -----

  /** A manifest with a graph and without the level order, as the first of the two DEFINED writes
      leaves it. */
  predicate Unplanned(env: Env, g: Graph, man: Option<Manifest>) {
    && man.Some? && Resumable(env, man.value) && man.value.graph == Some(g)
    && (man.value.plan.None? || man.value.plan == Some([]))
  }

  /** And any process over it has read the graph back and no levels. */
  predicate Planless(env: Env, g: Graph, s: State) {
    && Unplanned(env, g, s.man)
    && (s.proc.Running? ==>
          && s.proc.mem.from.Some? && s.proc.mem.hasGraph && s.proc.mem.graph == g && s.proc.mem.planned == []
          && !s.proc.pc.Preserve? && !s.proc.pc.WriteDiscovered? && !s.proc.pc.Define? && !s.proc.pc.WriteDefined?)
  }

  lemma RecordIsUnplanned(env: Env, p: Phase, mem: Mem)
    requires p != DISCOVERED && mem.planned == []
    ensures Unplanned(env, mem.graph, Some(Record(env, p, mem))) && Unplanned(env, mem.graph, Some(Record(env, p, mem).(plan := None)))
  {
  }

  /** Every manifest a process without levels writes has none. */
  lemma WritesUnplanned(env: Env, mem: Mem)
    requires mem.planned == []
    ensures Unplanned(env, mem.graph, Some(Record(env, DEFINED, mem).(plan := None)))
    ensures Unplanned(env, mem.graph, Some(Record(env, DEFINED, mem))) && Unplanned(env, mem.graph, Some(Record(env, STRIPPED, mem)))
    ensures Unplanned(env, mem.graph, Some(Record(env, LOADED, mem))) && Unplanned(env, mem.graph, Some(Record(env, REBUILT, mem)))
    ensures Unplanned(env, mem.graph, Some(Record(env, FK_DEFINED, mem))) && Unplanned(env, mem.graph, Some(Record(env, STATS_UPDATED, mem)))
    ensures Unplanned(env, mem.graph, Some(Record(env, DONE, mem)))
  {
    hide Unplanned, Record;
    RecordIsUnplanned(env, DEFINED, mem);
    RecordIsUnplanned(env, STRIPPED, mem);
    RecordIsUnplanned(env, LOADED, mem);
    RecordIsUnplanned(env, REBUILT, mem);
    RecordIsUnplanned(env, FK_DEFINED, mem);
    RecordIsUnplanned(env, STATS_UPDATED, mem);
    RecordIsUnplanned(env, DONE, mem);
  }

  lemma RunningIsPlanless(env: Env, g: Graph, s: State, pc: Pc, mem: Mem)
    requires !env.dryRun && s.proc == Running(pc, mem) && Planless(env, g, s)
    ensures Planless(env, g, Next(env, s))
  {
    hide Unplanned, Record, TargetMatches, Verdict, Begin, Entry, EarlyRecord;
    WritesUnplanned(env, mem);
    if pc.Verify? && mem.from.Some? { EntryIsLate(mem.from.value); }
  }

  lemma NextIsPlanless(env: Env, g: Graph, s: State)
    requires !env.restart && !env.dryRun && Planless(env, g, s)
    ensures Planless(env, g, Next(env, s))
  {
    hide Unplanned, Record, Resumable, RecordsClean, DefineSteps, StripSteps, LoadSteps, RebuildSteps, FkSteps, StatsSteps,
         LastSteps, StageOf;
    if s.proc.Running? {
      RunningIsPlanless(env, g, s, s.proc.pc, s.proc.mem);
    } else {
      UnplannedResumes(env, g, s.man);
    }
  }

  lemma UnplannedResumes(env: Env, g: Graph, man: Option<Manifest>)
    requires Unplanned(env, g, man)
    ensures man.Some? && Resumable(env, man.value) && man.value.graph == Some(g)
    ensures man.value.plan.None? || man.value.plan == Some([])
  {
    hide Resumable;
  }

  lemma StepIsPlanless(env: Env, g: Graph, s: State, s': State)
    requires !env.restart && !env.dryRun && Planless(env, g, s) && Step(env, s, s')
    ensures Planless(env, g, s')
  {
    hide Next, Unplanned;
    if s' == Next(env, s) { NextIsPlanless(env, g, s); }
  }

  /** Once a manifest has the graph and no levels, they are lost for good: whatever is killed and run
      again from there, every later manifest has that graph and no levels. */
  lemma {:induction false} PlanIsLost(env: Env, g: Graph, h: seq<State>, i: nat)
    requires !env.restart && !env.dryRun && Path(env, h) && !First(h).proc.Running? && Unplanned(env, g, First(h).man) && i < |h|
    ensures Planless(env, g, Nth(h, i))
  {
    hide Unplanned, Step;
    if i > 0 {
      PlanIsLost(env, g, h, i - 1);
      assert Step(env, h[i - 1], h[i - 1 + 1]);
      StepIsPlanless(env, g, h[i - 1], h[i]);
    }
  }

  /** So behind a torn pair of writes. */
  lemma LostForGood(env: Env, h: seq<State>, i: nat, j: nat)
    requires !env.restart && !env.dryRun && Path(env, h) && First(h) == FRESH && TearsAt(env, h, i) && i < j < |h|
    ensures Planless(env, TheGraph(env), Nth(h, j))
  {
    hide Step, OneGraph, Planless, Unplanned, Tears, TheGraph, Lost;
    PathKeepsGraph(env, h, i);
    TornIsLost(env, Nth(h, i), Nth(h, i + 1));
    var rest := h[i + 1..];
    assert Path(env, rest) by {
      forall k | 0 <= k < |rest| - 1 ensures Step(env, rest[k], rest[k + 1]) {
        assert Step(env, h[i + 1 + k], h[i + 1 + k + 1]);
      }
    }
    assert Nth(rest, 0) == Nth(h, i + 1) && Nth(rest, j - i - 1) == Nth(h, j);
    PlanIsLost(env, TheGraph(env), rest, j - i - 1);
  }

  // ----- the failure can happen -----

  /** A fresh process on its way to the second of the two writes. */
  lemma GetsBetween(env: Env) returns (mem: Mem)
    requires Goes(env)
    ensures var s := After(env, FRESH, 6);
      s.proc == Running(WritePlan, mem) && mem.graph == TheGraph(env) && Reachable(env, s)
  {
    hide Next, Record, Reachable, EarlyRecord, Exit;
    var m0 := FreshMem(BLANK);
    var m1 := m0.(work := env.target);
    var g := TheGraph(env);
    mem := m1.(graph := g, planned := env.layering(g));
    var early, defined := EarlyRecord(env, DISCOVERED), EarlyRecord(env, DEFINED);
    FreshBegins(env);
    DefiningLeads(env, State(BLANK, None, [], Running(WriteDiscovered, m0)), WriteDiscovered, m0);
    DefiningLeads(env, State(BLANK, Some(early), [], Running(Define, m0)), Define, m0);
    DefiningLeads(env, State(env.target, Some(early), [], Running(WriteDefined, m1)), WriteDefined, m1);
    DefiningLeads(env, State(env.target, Some(defined), [], Running(TakeGraph, m1)), TakeGraph, m1);
    DefiningLeads(env, State(env.target, Some(defined), [], Running(WriteGraph, mem)), WriteGraph, mem);
    assert After(env, FRESH, 0) == FRESH;
    assert After(env, FRESH, 1) == State(BLANK, None, [], Running(WriteDiscovered, m0));
    assert After(env, FRESH, 2) == State(BLANK, Some(early), [], Running(Define, m0));
    assert After(env, FRESH, 3) == State(env.target, Some(early), [], Running(WriteDefined, m1));
    assert After(env, FRESH, 4) == State(env.target, Some(defined), [], Running(TakeGraph, m1));
    assert After(env, FRESH, 5) == State(env.target, Some(defined), [], Running(WriteGraph, mem));
    FreshReaches(env);
    ReachableAfter(env, FRESH, 6);
  }

  lemma FreshBegins(env: Env)
    requires !env.dryRun
    ensures Next(env, FRESH) == State(BLANK, None, [], Running(WriteDiscovered, FreshMem(BLANK)))
  {
    hide DefineSteps;
  }

  lemma DefiningLeads(env: Env, s: State, pc: Pc, mem: Mem)
    requires s.proc == Running(pc, mem) && StageOf(pc).Defining?
    ensures Next(env, s) == DefineSteps(env, s, pc, mem)
  {
    hide DefineSteps, Begin, LastSteps, Record;
  }

  lemma FreshReaches(env: Env)
    ensures Reachable(env, FRESH)
  {
    hide Step;
    assert Path(env, [FRESH]) && First([FRESH]) == FRESH && Last([FRESH]) == FRESH;
  }

  lemma LostHasLevels(env: Env, s: State)
    requires Reachable(env, s) && Lost(env, s)
    ensures Goes(env) && env.layering(TheGraph(env)) != []
  {
    hide Step, OneGraph, Tears, Lost;
    var h :| Path(env, h) && First(h) == FRESH && Last(h) == s;
    assert LostAt(env, h, |h| - 1);
    LostIff(env, h);
    var i: nat :| TearsAt(env, h, i);
    PathKeepsGraph(env, h, i);
    TearHasLevels(env, Nth(h, i), Nth(h, i + 1));
  }

  lemma TearHasLevels(env: Env, s: State, s': State)
    requires OneGraph(env, s) && Tears(env, s, s')
    ensures Goes(env) && env.layering(TheGraph(env)) != []
  {
    hide Record, Fails;
  }

  /** Some schedule of the command loses the level order exactly when there is one: the import gets past
      the roster check and the snapshot has levels. */
  lemma CanBeLostIff(env: Env)
    ensures (exists s :: Reachable(env, s) && Lost(env, s)) <==> Goes(env) && env.layering(TheGraph(env)) != []
  {
    hide Reachable, Lost, Tears, OneGraph, After;
    if s :| Reachable(env, s) && Lost(env, s) { LostHasLevels(env, s); }
    if Goes(env) && env.layering(TheGraph(env)) != [] {
      var mem := GetsBetween(env);
      var s := After(env, FRESH, 6);
      DiesBetween(env, s, mem);
    }
  }

  lemma DiesBetween(env: Env, s: State, mem: Mem)
    requires Reachable(env, s) && s.proc == Running(WritePlan, mem) && env.layering(mem.graph) != []
    ensures Reachable(env, s.(proc := Idle)) && Lost(env, s.(proc := Idle))
  {
    hide Step, OneGraph, Lost, Path, Unplanned, TheGraph;
    var h :| Path(env, h) && First(h) == FRESH && Last(h) == s;
    PathKeepsGraph(env, h, |h| - 1);
    DeathIsStep(env, s);
    ReachableStep(env, s, s.(proc := Idle));
    TornIsLost(env, s, s.(proc := Idle));
  }

  lemma DeathIsStep(env: Env, s: State)
    requires s.proc.Running?
    ensures Step(env, s, s.(proc := Idle)) && Fails(s, s.(proc := Idle))
  {
    hide Next, DefinesPart, LoadsPart;
  }
}
