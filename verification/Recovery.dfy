/** What holds of an import however often it is killed and run again: every reachable state
    satisfies the marker invariant, every run that reaches DONE has the uninterrupted run's
    result, and one that is left alone gets there. */
module Recovery {
  import opened Schema
  import opened Pipeline
  import opened Convergence
  import Engine
  import Resume
  import Strip
  import FkDefine
  import Rebuild
  import FkLaws
  import Dump

  // ----- every reachable state -----

  lemma FailsKeeps(o: Outcome, s: State, s': State)
    requires Fails(s, s') && Inv(o, s)
    ensures Inv(o, s')
  {
    hide Durable, InProcess;
  }

  lemma DefinesPartKeeps(env: Env, o: Outcome, s: State, s': State)
    requires DefinesPart(env, s, s') && Inv(o, s)
    ensures Inv(o, s')
  {
    hide RecordsAt, AtStrip, AtLoad, AtRebuild, AtFk, AtStats, AtLast, Held;
    if s.man.Some? && s.man.value.reached < FK_DEFINED { RecordsMove(o, s.man.value, s.db.catalog, s'.db.catalog); }
  }

  lemma LoadsPartKeeps(o: Outcome, s: State, s': State)
    requires LoadsPart(s, s') && Inv(o, s)
    ensures Inv(o, s')
  {
    hide Durable, InProcess;
    var left := s.proc.pc.left;
    var b :| b <= left && s' == s.(db := s.db.(rows := s.db.rows + b), proc := Running(Loading(left - b), s.proc.mem));
    SomeRowsKeep(o, s.db, s.man, s.proc.mem, left, b);
  }

  lemma SomeRowsKeep(o: Outcome, db: Db, man: Option<Manifest>, mem: Mem, left: multiset<Resume.Row>, b: multiset<Resume.Row>)
    requires b <= left && Durable(o, db, man) && InProcess(o, db, man, Loading(left), mem)
    ensures Durable(o, db.(rows := db.rows + b), man) && InProcess(o, db.(rows := db.rows + b), man, Loading(left - b), mem)
  {
    hide RecordsAt, CatalogAt, TriggersAt, Held, AtDefine, AtStrip, AtRebuild, AtFk, AtStats, AtLast, Sound, ResumedAt;
    assert db.rows + b + (left - b) == o.rows;
  }

  lemma StepKeeps(env: Env, rank: string -> nat, o: Outcome, s: State, s': State)
    requires Followed(env, rank, o) && Inv(o, s) && Step(env, s, s')
    ensures Inv(o, s')
  {
    hide Portrayed, Repeatable, Inv, Next, Fails, DefinesPart, LoadsPart, WorkFits, Setting;
    if s' == Next(env, s) {
      OutcomeFits(env, rank, o);
      if s.proc.Running? { WorkMatches(env, rank, o, s); }
      NextKeeps(env, o, s);
    } else if Fails(s, s') {
      FailsKeeps(o, s, s');
    } else if DefinesPart(env, s, s') {
      DefinesPartKeeps(env, o, s, s');
    } else {
      LoadsPartKeeps(o, s, s');
    }
  }

  lemma {:induction false} PathKeeps(env: Env, rank: string -> nat, o: Outcome, h: seq<State>)
    requires Path(env, h) && First(h) == FRESH && Followed(env, rank, o)
    ensures Inv(o, Last(h))
  {
    hide Followed, Step, Inv;
    if |h| == 1 {
      FreshHolds(o);
    } else {
      var init := h[..|h| - 1];
      assert forall i :: 0 <= i < |init| - 1 ==> Step(env, init[i], init[i + 1]) by {
        forall i | 0 <= i < |init| - 1 ensures Step(env, init[i], init[i + 1]) {
          assert init[i] == h[i] && init[i + 1] == h[i + 1];
        }
      }
      PathKeeps(env, rank, o, init);
      assert Step(env, h[|h| - 2], h[|h| - 2 + 1]);
      StepKeeps(env, rank, o, h[|h| - 2], h[|h| - 1]);
    }
  }

  lemma FreshHolds(o: Outcome)
    ensures Inv(o, FRESH)
  {
    hide InProcess, RecordsAt;
  }

  lemma ReachableHolds(env: Env, rank: string -> nat, o: Outcome, s: State)
    requires Followed(env, rank, o) && Reachable(env, s)
    ensures Inv(o, s)
  {
    hide Followed, Step, Inv;
    var h :| Path(env, h) && First(h) == FRESH && Last(h) == s;
    PathKeeps(env, rank, o, h);
  }

  /** Over any dump the marker never runs ahead of the committed database and is at most one
      phase behind; and a DEFINED manifest without a graph means nothing has been stripped. */
  lemma MarkerInvariant(env: Env, rank: string -> nat, s: State)
    requires World(env, rank) && Reachable(env, s)
    ensures Durable(CourseOf(env), s.db, s.man)
  {
    hide World, Reachable, InProcess, Durable, OutcomeOf, Repeatable;
    ReachableHolds(env, rank, CourseOf(env), s);
  }

  /** A resumed process finds the target its manifest describes, whatever the dump. */
  lemma TargetIsRecognised(env: Env, rank: string -> nat, s: State, mem: Mem)
    requires World(env, rank) && Reachable(env, s) && s.proc == Running(Verify, mem)
    ensures TargetMatches(mem, s.db)
  {
    hide World, Reachable, Inv, OutcomeOf, TargetMatches, Repeatable;
    ReachableHolds(env, rank, CourseOf(env), s);
    TargetIsFound(env, rank, CourseOf(env), s, mem);
  }

  lemma HoldsRecords(env: Env, rank: string -> nat, o: Outcome)
    requires Importing(env, rank, o)
    ensures Followed(env, rank, o) && Portrayed(env, rank, o) && Described(env, rank, o) && o.exact
  {
    hide World, Repeatable, Keyed, Linked, Fired, Bare, Dropped, Snap, Restore.Restored, Restore.Excused;
  }

  /** Whatever was killed, failed and re-run on the way, a DONE manifest means the database
      and the records of the uninterrupted run. */
  lemma Convergent(env: Env, rank: string -> nat, s: State, m: Manifest)
    requires s.man == Some(m) && m.reached == DONE && Importable(env, rank) && Reachable(env, s)
    ensures s.db == Final(env)
    ensures
      && m.graph == Some(Snap(env)) && m.strip == Some(Dropped(env)) && m.load == Some(|env.dumpRows|)
      && m.rebuild == Some(Keyed(env).sum) && m.fkdefine == Some(Linked(env).sum) && m.stats == Some(env.statsFailures)
      && m.triggers == Some(Fired(env).sum)
  {
    hide World, Repeatable, Reachable, InProcess, OutcomeOf, Durable, Keyed, Linked, Fired, Dropped, Snap, Importable,
         Final;
    var o := HasOutcome(env, rank);
    OutcomeIs(env, o);
    HoldsRecords(env, rank, o);
    ReachableHolds(env, rank, o, s);
    DoneMeans(o, s.db, m);
  }

  lemma DoneMeans(o: Outcome, db: Db, m: Manifest)
    requires Durable(o, db, Some(m)) && m.reached == DONE && o.exact
    ensures !o.hard && db == Db(o.classes, o.linked, o.rows, o.fired.defs)
    ensures m.graph == Some(o.graph) && m.strip == Some(o.strip) && m.load == Some(|o.rows|) && m.rebuild == Some(o.rebuild)
    ensures m.fkdefine == Some(o.fkdefine) && m.stats == Some(o.stats) && m.triggers == Some(o.fired.sum)
  {
    hide ViolatedEdges, FkLaws.DefinedIn;
  }

  /** If the manifest says DONE, the database is the uninterrupted run's. */
  ghost predicate Converged(env: Env, rank: string -> nat, s: State) {
    Importable(env, rank) && MarkedAt(s.man, DONE) ==> s.db == Final(env)
  }

  lemma ReachableConverges(env: Env, rank: string -> nat, s: State)
    requires Reachable(env, s)
    ensures Converged(env, rank, s)
  {
    hide Reachable, Importable, Keyed, Linked, Strip.DropOrder, Fired;
    if Importable(env, rank) && MarkedAt(s.man, DONE) { Convergent(env, rank, s, s.man.value); }
  }

  lemma OutcomeIs(env: Env, o: Outcome)
    requires o == OutcomeOf(env)
    ensures !o.hard ==> Final(env) == Db(o.classes, o.linked, o.rows, o.fired.defs)
    ensures o.graph == Snap(env) && o.strip == Dropped(env) && o.rows == env.dumpRows && o.rebuild == Keyed(env).sum
    ensures o.fkdefine == Linked(env).sum && o.stats == env.statsFailures && o.fired == Fired(env) && o.exact
  {
    hide Keyed, Linked, Fired, Dropped, Snap, Strip.Entries;
  }

  // ----- every manifest written can be resumed -----

  /** The manifest is the first marker, or complete for its own. */
  predicate Shaped(env: Env, man: Option<Manifest>) {
    man.Some? && man.value.reached != DISCOVERED ==> Resumable(env, man.value)
  }

  lemma RecordShapes(env: Env, p: Phase, mem: Mem)
    requires p != DISCOVERED
    ensures Resumable(env, Record(env, p, mem)) && Resumable(env, Record(env, p, mem).(plan := None))
    ensures Resumable(env, EarlyRecord(env, DEFINED))
  {
  }

  lemma StepShapes(env: Env, s: State, s': State)
    requires Shaped(env, s.man) && Step(env, s, s')
    ensures Shaped(env, s'.man)
  {
    hide Resumable, Record, Next, LoadsPart, Shaped;
    if s' == Next(env, s) {
      NextShapes(env, s);
    }
    if LoadsPart(s, s') { LoadKeepsManifest(s, s'); }
  }

  lemma LoadKeepsManifest(s: State, s': State)
    requires LoadsPart(s, s')
    ensures s'.man == s.man
  {
  }

  lemma NextShapes(env: Env, s: State)
    requires Shaped(env, s.man)
    ensures Shaped(env, Next(env, s).man)
  {
    hide Resumable, Record, TargetMatches, RecordsClean, Verdict;
    if s.proc.Running? {
      var mem := s.proc.mem;
      RecordShapes(env, DEFINED, mem);
      RecordShapes(env, STRIPPED, mem);
      RecordShapes(env, LOADED, mem);
      RecordShapes(env, REBUILT, mem);
      RecordShapes(env, FK_DEFINED, mem);
      RecordShapes(env, STATS_UPDATED, mem);
      RecordShapes(env, DONE, mem);
    }
  }

  lemma {:induction false} PathShapes(env: Env, h: seq<State>, i: nat)
    requires Path(env, h) && First(h) == FRESH && i < |h|
    ensures Shaped(env, Nth(h, i).man)
  {
    hide Step, Resumable;
    if i > 0 {
      PathShapes(env, h, i - 1);
      assert Step(env, h[i - 1], h[i - 1 + 1]);
      StepShapes(env, h[i - 1], h[i]);
    }
  }

  /** Any manifest a run wrote from DEFINED to STATS_UPDATED, whatever failed on the way, passes
      every completeness check of the resume decision. */
  lemma SelfResumable(env: Env, s: State, m: Manifest)
    requires !env.restart && Reachable(env, s) && s.man == Some(m) && DEFINED <= m.reached < DONE
    ensures Decide(env, s.man) == Resume
  {
    hide Step, RecordsClean, Resumable, Path;
    var h :| Path(env, h) && First(h) == FRESH && Last(h) == s;
    PathShapes(env, h, |h| - 1);
  }

  // ----- an import left alone -----

  /** What a process has left to do. */
  function Rank(pc: Pc): nat {
    match pc
    case Preserve => 27 case WriteDiscovered => 26 case Define => 25 case WriteDefined => 24 case TakeGraph => 23
    case WriteGraph => 22 case WritePlan => 21 case Verify => 20 case StripWork => 19 case StripCommit => 18
    case WriteStripped => 17 case TruncateWork => 16 case TruncateCommit => 15 case Loading(_) => 14 case WriteLoaded => 13
    case RebuildWork => 12 case RebuildCommit => 11 case WriteRebuilt => 10 case FkWork => 9 case FkCommit => 8
    case WriteFk => 7 case StatsWork => 6 case WriteStats => 5 case TriggerWork => 4 case TriggerCommit => 3
    case CheckCatalog => 2 case WriteDone => 1 case Close => 0
  }

  /** The process is one step nearer its end; a fresh one skips nothing from the rebuild on. */
  predicate MovesOn(pc: Pc, mem: Mem, s': State) {
    && s'.proc.Running? && s'.proc.mem.from == mem.from && Rank(s'.proc.pc) < Rank(pc)
    && (mem.from.None? ==> Rank(s'.proc.pc) >= 12 || Rank(s'.proc.pc) == Rank(pc) - 1)
  }

  lemma VerifyDue(o: Outcome, s: State, mem: Mem)
    requires s.proc == Running(Verify, mem) && Inv(o, s)
    ensures mem.graph == o.graph && s.db.classes == o.classes
    ensures ResumedAt(mem, STRIPPED) ==> mem.strip == o.strip && s.db.catalog == o.bare
    ensures ResumedAt(mem, DEFINED) ==> s.db.rows == multiset{}
  {
    hide RecordsAt, TriggersAt, AtStrip, AtLoad, AtRebuild, AtFk, AtStats, AtLast, ViolatedEdges, FkDefine.EdgeRef.Id;
  }

  lemma TargetIsFound(env: Env, rank: string -> nat, o: Outcome, s: State, mem: Mem)
    requires s.proc == Running(Verify, mem) && Portrayed(env, rank, o) && Inv(o, s)
    ensures TargetMatches(mem, s.db)
  {
    hide Portrayed, Inv;
    StrippedAreBare(env, rank, o);
    VerifyDue(o, s, mem);
  }

  lemma StrippedAreBare(env: Env, rank: string -> nat, o: Outcome)
    requires Portrayed(env, rank, o)
    ensures forall n :: n in o.graph.nodes ==> n.name in o.classes
    ensures forall c :: c in o.strip ==> c.key !in o.bare
  {
    hide Restore.Taken, Keyed, Linked, Fired, Works, Strip.OwnedEntry, Strip.Entries, Srv;
    var g := Snap(env);
    forall c | c in Strip.DropOrder(g) ensures c.key in Strip.Snapshot(g) { Strip.InOwnedOf(g, Strip.Entries(g), c); }
  }

  /** No phase of the uninterrupted run fails. */
  predicate Clear(env: Env, o: Outcome) {
    && env.loads && env.rosterOk(o.graph) && !o.hard && (o.fkdefine.withheld == [] || env.artifactWritable)
    && Rebuild.PhaseOps(env.roster, env.files).Some? && Dump.StatementsOf(env.files, Dump.FkFiles(env.roster)).Some?
  }

  lemma NothingStops(env: Env, rank: string -> nat, o: Outcome)
    requires Described(env, rank, o)
    ensures GetsThrough(env) <==> Clear(env, o)
    ensures Works(env)
  {
    hide Works, World, Keyed, Linked, Fired, Dropped, Snap, Bare, Restore.Restored, Restore.Excused, Rebuild.PhaseOps,
         Dump.StatementsOf, Dump.FkFiles;
    WorldWorks(env, rank);
  }

  lemma DefiningMovesOn(env: Env, o: Outcome, s: State, pc: Pc, mem: Mem)
    requires s.proc == Running(pc, mem) && StageOf(pc).Defining? && Setting(env, o) && Inv(o, s) && env.rosterOk(o.graph)
    requires pc.Verify? ==> TargetMatches(mem, s.db)
    ensures MovesOn(pc, mem, DefineSteps(env, s, pc, mem))
  {
    hide RecordsAt, CatalogAt, RowsAt, TriggersAt, Held, AtStrip, AtLoad, AtRebuild, AtFk, AtStats, AtLast, TargetMatches,
         Record, Durable, EarlyRecord, Exit;
  }

  lemma StripMovesOn(env: Env, s: State, pc: Pc, mem: Mem, after: Option<set<Key>>, order: seq<Stripped>)
    requires s.proc == Running(pc, mem) && StageOf(pc).Stripping? && (pc.StripWork? ==> after.Some?)
    ensures MovesOn(pc, mem, StripSteps(env, s, pc, mem, after, order))
  {
    hide Record, Exit;
  }

  lemma LoadMovesOn(env: Env, s: State, pc: Pc, mem: Mem, emptied: multiset<Resume.Row>)
    requires s.proc == Running(pc, mem) && StageOf(pc).LoadingRows? && env.loads
    ensures MovesOn(pc, mem, LoadSteps(env, s, pc, mem, emptied))
  {
    hide Record, Exit;
  }

  lemma RebuildMovesOn(env: Env, s: State, pc: Pc, mem: Mem, st: Option<Rebuild.State>)
    requires s.proc == Running(pc, mem) && StageOf(pc).Rebuilding? && (pc.RebuildWork? ==> st.Some?)
    ensures MovesOn(pc, mem, RebuildSteps(env, s, pc, mem, st))
  {
    hide Record, Exit;
  }

  predicate FkDone(env: Env, st: Option<FkDefine.State>) { st.Some? && FkPasses(env, st.value) }

  lemma FkMovesOn(env: Env, s: State, pc: Pc, mem: Mem, fk: Option<FkDefine.State>)
    requires s.proc == Running(pc, mem) && StageOf(pc).Linking?
    requires pc.FkWork? ==> FkDone(env, fk)
    ensures MovesOn(pc, mem, FkSteps(env, s, pc, mem, fk))
  {
    hide Record;
  }

  lemma StatsMovesOn(env: Env, s: State, pc: Pc, mem: Mem)
    requires s.proc == Running(pc, mem) && StageOf(pc).Refreshing?
    ensures MovesOn(pc, mem, StatsSteps(env, s, pc, mem))
  {
    hide Record;
  }

  lemma LastMovesOn(env: Env, s: State, pc: Pc, mem: Mem, t: Triggers, restored: bool)
    requires s.proc == Running(pc, mem) && StageOf(pc).Finishing? && !pc.Close?
    ensures MovesOn(pc, mem, LastSteps(env, s, pc, mem, t, restored))
  {
    hide Record, Exit;
  }

  lemma WorkIsDone(env: Env, o: Outcome, s: State, pc: Pc, mem: Mem)
    requires s.proc == Running(pc, mem) && WorkFits(env, o, s) && Clear(env, o) && Works(env) && o.exact
    ensures pc.StripWork? ==> env.work.strip(s.db, mem).Some?
    ensures pc.RebuildWork? ==> env.work.rebuild(s.db, mem).Some?
    ensures pc.FkWork? ==> FkDone(env, env.work.fk(s.db, mem))
  {
    hide Works, StripOutcome, EmptiedOutcome, TriggerOutcome, CheckOutcome, ViolatedEdges, Rebuild.Phase, FkDefine.Phase,
         Rebuild.PhaseOps, Dump.StatementsOf, Strip.Entries, Strip.OwnedEntry, RebuildFit, Server;
    WorkIs(env, s.db, mem);
  }

  lemma NextMovesOn(env: Env, o: Outcome, s: State, pc: Pc, mem: Mem)
    requires s.proc == Running(pc, mem) && !pc.Close? && (pc.Verify? ==> TargetMatches(mem, s.db))
    requires Setting(env, o) && Inv(o, s) && WorkFits(env, o, s) && Clear(env, o) && Works(env) && o.exact
    ensures MovesOn(pc, mem, Next(env, s))
  {
    hide Inv, WorkFits, Works, TargetMatches, Record, DefineSteps, StripSteps, LoadSteps, RebuildSteps, FkSteps, StatsSteps, LastSteps,
         MovesOn;
    WorkIsDone(env, o, s, pc, mem);
    match StageOf(pc)
    case Defining => DefiningMovesOn(env, o, s, pc, mem);
    case Stripping => StripMovesOn(env, s, pc, mem, env.work.strip(s.db, mem), env.work.order(mem.graph));
    case LoadingRows => LoadMovesOn(env, s, pc, mem, env.work.emptied(s.db, mem));
    case Rebuilding => RebuildMovesOn(env, s, pc, mem, env.work.rebuild(s.db, mem));
    case Linking => FkMovesOn(env, s, pc, mem, env.work.fk(s.db, mem));
    case Refreshing => StatsMovesOn(env, s, pc, mem);
    case Finishing => LastMovesOn(env, s, pc, mem, env.work.triggers(s.db, mem), env.work.restored(s.db, mem));
  }

  /** A process that is not killed and whose writes succeed gets to DONE. */
  lemma {:induction false} ProcessCompletes(env: Env, rank: string -> nat, o: Outcome, s: State, pc: Pc, mem: Mem) returns (n: nat)
    requires s.proc == Running(pc, mem) && Importing(env, rank, o) && GetsThrough(env) && Inv(o, s)
    ensures var t := After(env, s, n);
      MarkedAt(t.man, DONE) && t.proc == Exited(LiveVerdict(o)) && Inv(o, t)
    decreases Rank(pc)
  {
    hide Described, Portrayed, Followed, Repeatable, GetsThrough, Works, Inv, Next, WorkFits, Setting, LiveVerdict, TargetMatches, Clear;
    HoldsRecords(env, rank, o);
    var t := Next(env, s);
    assert Step(env, s, t);
    StepKeeps(env, rank, o, s, t);
    assert After(env, s, 1) == Next(env, After(env, s, 0)) == t;
    if pc.Close? {
      CloseVerdict(env, o, s, mem);
      n := 1;
    } else {
      OutcomeFits(env, rank, o);
      WorkMatches(env, rank, o, s);
      NothingStops(env, rank, o);
      if pc.Verify? { TargetIsFound(env, rank, o, s, mem); }
      NextMovesOn(env, o, s, pc, mem);
      var m := ProcessCompletes(env, rank, o, t, t.proc.pc, t.proc.mem);
      AfterNext(env, s, m);
      n := m + 1;
    }
  }

  // ----- the verdict -----

  /** The records of the uninterrupted run report no failure. */
  predicate Clean(o: Outcome) {
    !o.rebuild.Incomplete() && o.fkdefine.withheld == [] && o.stats == [] && o.fired.sum.failed == 0
  }

  /** The status of a run that got to its end. */
  predicate LiveVerdict(o: Outcome) { o.restored && Clean(o) }

  /** The exit status comes from restored records as much as from live ones: it is the
      uninterrupted run's, for a violated edge always leaves a withheld record. */
  lemma CloseVerdict(env: Env, o: Outcome, s: State, mem: Mem)
    requires s.proc == Running(Close, mem) && Inv(o, s) && o.exact
    ensures var t := Next(env, s);
      t.proc == Exited(LiveVerdict(o)) && t.man == s.man && MarkedAt(t.man, DONE)
  {
    hide RecordsAt, CatalogAt, RowsAt, TriggersAt, AtDefine, AtStrip, AtLoad, AtRebuild, AtFk, AtStats, ViolatedEdges,
         MarkedAt, Durable, Begin;
  }

  /** A re-run over the finished manifest: no work is done, and the status is that of the
      records. It agrees with the import's own status exactly when the catalog check, which
      no record carries, passed or the records alone already report a failure. */
  lemma RerunVerdict(env: Env, rank: string -> nat, o: Outcome, s: State)
    requires MarkedAt(s.man, DONE) && !s.proc.Running? && Importing(env, rank, o) && Reachable(env, s)
    ensures Next(env, s) == s.(proc := Exited(Clean(o)))
    ensures Next(env, s) == s.(proc := Exited(LiveVerdict(o))) <==> o.restored || !Clean(o)
  {
    hide Described, Portrayed, Followed, Repeatable, Reachable, CatalogAt, RowsAt, TriggersAt, DefineSteps, InProcess;
    HoldsRecords(env, rank, o);
    ReachableHolds(env, rank, o, s);
    OutcomeFits(env, rank, o);
    if s.man.value.validate.Some? { ReadBackViolations(s.man.value.validate.value); }
  }

  // ----- which states can still finish -----

  /** A process is at work, the target is still empty, or the definition is marked. */
  predicate CanFinish(s: State) {
    s.proc.Running? || s.db.classes == {} || (s.man.Some? && s.man.value.reached >= DEFINED)
  }

  lemma BeginMovesOn(env: Env, o: Outcome, s: State)
    requires !s.proc.Running? && CanFinish(s) && !MarkedAt(s.man, DONE) && Setting(env, o) && Inv(o, s)
    ensures Begin(env, s).proc.Running?
  {
    hide CatalogAt, RowsAt, TriggersAt, ViolatedEdges, InProcess, SameFk;
  }

  /** Left alone, the import finishes, with the uninterrupted run's database. */
  lemma Completes(env: Env, rank: string -> nat, o: Outcome, s: State) returns (n: nat)
    requires CanFinish(s) && Importing(env, rank, o) && GetsThrough(env) && Reachable(env, s)
    ensures var t := After(env, s, n); t.proc.Exited? && MarkedAt(t.man, DONE) && Inv(o, t)
  {
    hide Described, Portrayed, Followed, Repeatable, GetsThrough, Inv, Next, Clean, Reachable, CanFinish, Begin, MarkedAt, Setting;
    HoldsRecords(env, rank, o);
    ReachableHolds(env, rank, o, s);
    if s.proc.Running? {
      n := ProcessCompletes(env, rank, o, s, s.proc.pc, s.proc.mem);
    } else {
      var t := Next(env, s);
      assert Step(env, s, t);
      StepKeeps(env, rank, o, s, t);
      NextBegins(env, s);
      if MarkedAt(s.man, DONE) {
        RerunVerdict(env, rank, o, s);
        assert After(env, s, 1) == Next(env, After(env, s, 0)) == t;
        n := 1;
      } else {
        OutcomeFits(env, rank, o);
        BeginMovesOn(env, o, s);
        var m := ProcessCompletes(env, rank, o, t, t.proc.pc, t.proc.mem);
        AfterNext(env, s, m);
        n := m + 1;
      }
    }
  }

  lemma NextBegins(env: Env, s: State)
    requires !s.proc.Running?
    ensures Next(env, s) == Begin(env, s)
  {
    hide Begin, DefineSteps, Record, FkSteps, LastSteps;
  }

  /** The other states: the definition was cut short, its classes are there and no marker
      says so. Every later process refuses and touches nothing, whatever the import. */
  lemma {:induction false} NeverFinishes(env: Env, h: seq<State>)
    requires !env.dryRun && Path(env, h) && !CanFinish(First(h))
    ensures Last(h).db == First(h).db && Last(h).man == First(h).man && !CanFinish(Last(h))
  {
    hide Step;
    if |h| > 1 {
      var init := h[..|h| - 1];
      assert Path(env, init) by {
        forall i | 0 <= i < |init| - 1 ensures Step(env, init[i], init[i + 1]) {
          assert init[i] == h[i] && init[i + 1] == h[i + 1] && Step(env, h[i], h[i + 1]);
        }
      }
      NeverFinishes(env, init);
      assert Step(env, h[|h| - 2], h[|h| - 2 + 1]);
      Refuses(env, h[|h| - 2], h[|h| - 1]);
    }
  }

  lemma Refuses(env: Env, s: State, s': State)
    requires !env.dryRun && Step(env, s, s') && !CanFinish(s)
    ensures s' == s.(proc := Exited(false))
  {
    hide Next, ResumedMem, RecordsClean;
    NextBegins(env, s);
  }

  // ----- a run nothing disturbs -----

  ghost predicate CalmStep(env: Env, s: State, t: State) {
    t == Next(env, s) || DefinesPart(env, s, t) || LoadsPart(s, t)
  }

  /** Since `since` nothing failed and nothing was killed. */
  ghost predicate Calm(env: Env, h: seq<State>, since: int) {
    0 <= since < |h| && forall i :: since <= i < |h| - 1 ==> CalmStep(env, h[i], h[i + 1])
  }

  /** From a state that can still finish, `t` is the end of the import. */
  ghost predicate Finished(env: Env, rank: string -> nat, s: State, t: State) {
    Importable(env, rank) && GetsThrough(env) && CanFinish(s) ==>
      MarkedAt(t.man, DONE) && t.proc.Exited? && t.db == Final(env)
  }

  /** A process is at work or has seen the import through. */
  predicate Underway(s: State) { s.proc.Running? || (s.proc.Exited? && MarkedAt(s.man, DONE)) }

  lemma CalmNext(env: Env, rank: string -> nat, o: Outcome, s: State, t: State)
    requires Importing(env, rank, o) && GetsThrough(env) && Inv(o, s) && CalmStep(env, s, t) && s.proc.Running?
    ensures Underway(t)
  {
    hide Described, Portrayed, Followed, Repeatable, GetsThrough, Works, Clear, Inv, Next, WorkFits, Setting, LiveVerdict,
         TargetMatches, MarkedAt;
    HoldsRecords(env, rank, o);
    if t == Next(env, s) {
      if s.proc.pc.Close? {
        CloseVerdict(env, o, s, s.proc.mem);
      } else {
        OutcomeFits(env, rank, o);
        WorkMatches(env, rank, o, s);
        NothingStops(env, rank, o);
        if s.proc.pc.Verify? { TargetIsFound(env, rank, o, s, s.proc.mem); }
        NextMovesOn(env, o, s, s.proc.pc, s.proc.mem);
      }
    }
  }

  lemma CalmBegin(env: Env, rank: string -> nat, o: Outcome, s: State, t: State)
    requires !s.proc.Running? && CalmStep(env, s, t) && CanFinish(s)
    requires Importing(env, rank, o) && Reachable(env, s)
    ensures Underway(t)
  {
    hide Described, Portrayed, Followed, Repeatable, Reachable, Next, Inv, Begin, CanFinish, Clean, MarkedAt, Setting;
    HoldsRecords(env, rank, o);
    assert t == Next(env, s);
    if MarkedAt(s.man, DONE) {
      RerunVerdict(env, rank, o, s);
    } else {
      NextBegins(env, s);
      OutcomeFits(env, rank, o);
      ReachableHolds(env, rank, o, s);
      BeginMovesOn(env, o, s);
    }
  }

  lemma PrefixReaches(env: Env, h: seq<State>, i: nat)
    requires Path(env, h) && First(h) == FRESH && i < |h|
    ensures Reachable(env, Nth(h, i))
  {
    hide Step;
    var g := h[..i + 1];
    assert Path(env, g) by {
      forall j | 0 <= j < |g| - 1 ensures Step(env, g[j], g[j + 1]) { assert Step(env, h[j], h[j + 1]); }
    }
    assert First(g) == FRESH && Last(g) == h[i];
  }

  lemma {:induction false} CalmStays(env: Env, rank: string -> nat, o: Outcome, h: seq<State>, since: nat, i: nat)
    requires Path(env, h) && First(h) == FRESH && Calm(env, h, since) && since < i < |h|
    requires Importing(env, rank, o) && GetsThrough(env) && CanFinish(Nth(h, since))
    ensures Underway(Nth(h, i))
    decreases i
  {
    hide Importing, Described, Portrayed, Followed, GetsThrough, Step, CalmStep, Reachable, Inv, Underway, CanFinish;
    HoldsRecords(env, rank, o);
    var s := h[i - 1];
    assert CalmStep(env, s, h[i - 1 + 1]);
    PrefixReaches(env, h, i - 1);
    ReachableHolds(env, rank, o, s);
    if since < i - 1 {
      CalmStays(env, rank, o, h, since, i - 1);
      UnderwayCanFinish(s);
    }
    if s.proc.Running? {
      CalmNext(env, rank, o, s, h[i]);
    } else {
      CalmBegin(env, rank, o, s, h[i]);
    }
  }

  lemma UnderwayCanFinish(s: State)
    requires Underway(s)
    ensures CanFinish(s)
  {
  }

  lemma HasOutcome(env: Env, rank: string -> nat) returns (o: Outcome)
    requires Importable(env, rank)
    ensures Importing(env, rank, o) && o == OutcomeOf(env)
  {
    hide World, Keyed, RebuildRepeatable, OutcomeOf, Repeatable;
    o := OutcomeOf(env);
  }

  /** A path nothing disturbs any more, from a state that can finish to one where no process
      runs, ends with the import done. */
  lemma CalmRunFinishes(env: Env, rank: string -> nat, h: seq<State>, since: nat)
    requires Path(env, h) && First(h) == FRESH && Calm(env, h, since) && since < |h| - 1 && !Last(h).proc.Running?
    ensures Finished(env, rank, Nth(h, since), Last(h))
  {
    hide Step, CalmStep, CanFinish, Importable, Importing, GetsThrough, Final, Reachable, Path, OutcomeOf, MarkedAt;
    if Importable(env, rank) && GetsThrough(env) && CanFinish(h[since]) {
      var o := HasOutcome(env, rank);
      CalmStays(env, rank, o, h, since, |h| - 1);
      PrefixReaches(env, h, |h| - 1);
      ReachableConverges(env, rank, h[|h| - 1]);
    }
  }
}
