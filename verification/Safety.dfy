/** What no run does, whatever the dump, the server and the manifest it finds: these hold of
    every path that starts with no process, over any database and any manifest. */
module Safety {
  import opened Schema
  import opened Pipeline
  import Resume
  import Strip

  predicate AtStripping(pc: Pc) { pc.StripWork? || pc.StripCommit? }
  predicate AtTruncating(pc: Pc) { pc.TruncateWork? || pc.TruncateCommit? }

  /** The definition a fresh process made is still as it left it. */
  predicate Untouched(pc: Pc) {
    pc.WriteDefined? || pc.TakeGraph? || pc.WriteGraph? || pc.WritePlan? || AtStripping(pc)
  }

  /** The marker of the next manifest a process writes, or of the last one. */
  function Ahead(pc: Pc, mem: Mem): Phase {
    match StageOf(pc)
    case Defining =>
      if pc.Preserve? || pc.WriteDiscovered? then DISCOVERED
      else if (pc.TakeGraph? || pc.Verify?) && mem.from.Some? then mem.from.value
      else DEFINED
    case Stripping => STRIPPED
    case LoadingRows => LOADED
    case Rebuilding => REBUILT
    case Linking => FK_DEFINED
    case Refreshing => STATS_UPDATED
    case Finishing => DONE
  }

  /** The manifest in place is no further than the next one, and gone before a first one. */
  predicate NotAhead(man: Option<Manifest>, pc: Pc, mem: Mem) {
    man.Some? ==> pc.Preserve? || (!pc.WriteDiscovered? && man.value.reached <= Ahead(pc, mem))
  }

  /** Destructive work is only ever at hand over a target the process has just defined or
      has just recognised, and over a manifest that is out of the way. */
  predicate Guarded(env: Env, s: State) {
    match s.proc
    case Running(pc, mem) =>
      && (env.dryRun ==> mem.from.None? && (pc.Define? || pc.TakeGraph?))
      && (mem.from.Some? ==> DEFINED <= mem.from.value < DONE)
      && (mem.from.None? && !env.dryRun && Untouched(pc) ==> s.db == env.target)
      && (mem.from.Some? && AtStripping(pc) ==> ResumedAt(mem, DEFINED) && TargetMatches(mem, s.db))
      && (AtTruncating(pc) ==> ResumedAt(mem, STRIPPED) && TargetMatches(mem, s.db))
      && (!env.dryRun ==> NotAhead(s.man, pc, mem))
    case _ => true
  }

  lemma RecordsReach(env: Env, mem: Mem)
    ensures forall p: Phase :: Record(env, p, mem).reached == p
  {
  }

  lemma DefiningIsGuarded(env: Env, s: State, pc: Pc, mem: Mem)
    requires s.proc == Running(pc, mem) && StageOf(pc).Defining? && Guarded(env, s)
    ensures Guarded(env, DefineSteps(env, s, pc, mem))
  {
    hide Resume.Matches, Record;
    RecordsReach(env, mem);
  }

  lemma StrippingIsGuarded(env: Env, s: State, pc: Pc, mem: Mem, after: Option<set<Key>>, order: seq<Stripped>)
    requires s.proc == Running(pc, mem) && StageOf(pc).Stripping? && Guarded(env, s)
    ensures Guarded(env, StripSteps(env, s, pc, mem, after, order))
  {
    hide Record, Resume.EmptyClass;
    RecordsReach(env, mem);
    if pc.StripWork? && mem.from.Some? {
      assert !ResumedAt(mem, STRIPPED);
    }
  }

  lemma LoadingIsGuarded(env: Env, s: State, pc: Pc, mem: Mem, emptied: multiset<Resume.Row>)
    requires s.proc == Running(pc, mem) && StageOf(pc).LoadingRows? && Guarded(env, s)
    ensures Guarded(env, LoadSteps(env, s, pc, mem, emptied))
  {
    hide Record, Resume.Matches;
    RecordsReach(env, mem);
  }

  lemma LaterIsGuarded(env: Env, s: State, pc: Pc, mem: Mem)
    requires s.proc == Running(pc, mem) && Guarded(env, s)
    requires StageOf(pc).Rebuilding? || StageOf(pc).Linking? || StageOf(pc).Refreshing? || StageOf(pc).Finishing?
    ensures Guarded(env, Next(env, s))
  {
    hide Record, Resume.Matches, Begin, DefineSteps, ResumedAt;
    RecordsReach(env, mem);
  }

  lemma NextIsGuarded(env: Env, s: State)
    requires Guarded(env, s)
    ensures Guarded(env, Next(env, s))
  {
    hide Guarded, DefineSteps, StripSteps, LoadSteps, RebuildSteps, FkSteps, StatsSteps, LastSteps, Begin, StageOf;
    if s.proc.Running? {
      match StageOf(s.proc.pc)
      case Defining => DefiningIsGuarded(env, s, s.proc.pc, s.proc.mem);
      case Stripping => StrippingIsGuarded(env, s, s.proc.pc, s.proc.mem, env.work.strip(s.db, s.proc.mem), env.work.order(s.proc.mem.graph));
      case LoadingRows => LoadingIsGuarded(env, s, s.proc.pc, s.proc.mem, env.work.emptied(s.db, s.proc.mem));
      case _ => LaterIsGuarded(env, s, s.proc.pc, s.proc.mem);
    } else {
      BeginIsGuarded(env, s);
    }
  }

  lemma BeginIsGuarded(env: Env, s: State)
    ensures Guarded(env, Begin(env, s))
  {
    hide Resume.Matches, RecordsClean, ReadBack;
  }

  lemma StepIsGuarded(env: Env, s: State, s': State)
    requires Guarded(env, s) && Step(env, s, s')
    ensures Guarded(env, s')
  {
    hide Next, Resume.Matches, TargetMatches, ResumedAt;
    if s' == Next(env, s) { NextIsGuarded(env, s); }
  }

  lemma {:induction false} PathIsGuarded(env: Env, h: seq<State>, i: nat)
    requires Path(env, h) && !First(h).proc.Running? && i < |h|
    ensures Guarded(env, Nth(h, i))
  {
    hide Guarded, Step;
    if i == 0 {
      IdleIsGuarded(env, h[0]);
    } else {
      PathIsGuarded(env, h, i - 1);
      assert Step(env, h[i - 1], h[i - 1 + 1]);
      StepIsGuarded(env, h[i - 1], h[i]);
    }
  }

  lemma IdleIsGuarded(env: Env, s: State)
    requires !s.proc.Running?
    ensures Guarded(env, s)
  {
    hide TargetMatches, NotAhead;
  }

  /** A truncate happens only over a catalog that holds every class of the graph and none
      of the stripped constraints. */
  lemma TruncatesOnlyTheTarget(env: Env, h: seq<State>, i: nat, pc: Pc, mem: Mem)
    requires Path(env, h) && !First(h).proc.Running? && i < |h|
    requires Nth(h, i).proc == Running(pc, mem) && AtTruncating(pc)
    ensures var db := Nth(h, i).db;
      && (forall n :: n in mem.graph.nodes ==> n.name in db.classes)
      && (forall c :: c in mem.strip ==> c.key !in db.catalog)
  {
    hide Path;
    PathIsGuarded(env, h, i);
  }

  /** A resumed strip drops only where every class of the graph is present and empty; a
      fresh one only in the schema its own process has defined. */
  lemma StripsOnlyTheTarget(env: Env, h: seq<State>, i: nat, pc: Pc, mem: Mem)
    requires Path(env, h) && !First(h).proc.Running? && i < |h|
    requires Nth(h, i).proc == Running(pc, mem) && AtStripping(pc)
    ensures var db := Nth(h, i).db;
      if mem.from.Some? then forall n :: n in mem.graph.nodes ==> n.name in db.classes && Resume.EmptyClass(db.rows, n.name)
      else db == env.target
  {
    hide Path, Resume.EmptyClass, First, AtTruncating;
    PathIsGuarded(env, h, i);
  }

  lemma DryStep(env: Env, s: State, s': State)
    requires env.dryRun && Guarded(env, s) && Step(env, s, s')
    ensures s'.db == s.db && s'.man == s.man && s'.saved == s.saved
  {
    hide Resume.Matches, RecordsClean, FreshMem, ResumedMem;
  }

  /** A dry run never commits and never writes or moves a manifest. */
  lemma {:induction false} DryRunChangesNothing(env: Env, h: seq<State>, i: nat)
    requires env.dryRun && Path(env, h) && !First(h).proc.Running? && i < |h|
    ensures Nth(h, i).db == First(h).db && Nth(h, i).man == First(h).man && Nth(h, i).saved == First(h).saved
  {
    hide Guarded, Step;
    if i > 0 {
      DryRunChangesNothing(env, h, i - 1);
      PathIsGuarded(env, h, i - 1);
      assert Step(env, h[i - 1], h[i - 1 + 1]);
      DryStep(env, h[i - 1], h[i]);
    }
  }

  // ----- what a resumed run starts from -----

  /** A manifest as a run leaves it: no record of a phase behind its marker. */
  predicate UpToMarker(m: Manifest) {
    && (m.load.Some? ==> m.reached >= LOADED) && (m.rebuild.Some? ==> m.reached >= REBUILT)
    && (m.validate.Some? || m.fkdefine.Some? ==> m.reached >= FK_DEFINED)
    && (m.stats.Some? ==> m.reached >= STATS_UPDATED) && (m.triggers.Some? ==> m.reached >= DONE)
  }

  /** A run is resumed only over its own import, with every record in hand: written again, they
      are the manifest it found, but for a level order that was lost and the tallies the edge lines
      do not carry. */
  lemma ResumesWithItsRecords(env: Env, m: Manifest, db: Db)
    requires Decide(env, Some(m)) == Resume && STRIPPED <= m.reached && UpToMarker(m)
    ensures !env.restart && m.database == env.roster.database && m.prefix == env.roster.prefix && m.reached < DONE
    ensures m.validate.Some? <==> m.reached >= FK_DEFINED
    ensures Record(env, m.reached, ResumedMem(db, m)) ==
      m.(plan := Some(if m.plan.Some? then m.plan.value else []),
         validate := if m.validate.Some? then Some(ReadBack(m.validate.value)) else None)
  {
    hide ReadBack, RecordsClean;
  }

  // ----- what becomes of a manifest -----

  /** What a step may do to the manifest in place: leave it, move it aside, or put one that is
      at least as far in its place, never a first one. */
  predicate Outlives(s: State, s': State) {
    match s.man
    case None => s'.saved == s.saved
    case Some(m) =>
      match s'.man
      case None => s'.saved == s.saved + [m]
      case Some(n) => s'.saved == s.saved && (n == m || (m.reached <= n.reached && n.reached != DISCOVERED))
  }

  lemma StepOutlives(env: Env, s: State, s': State)
    requires Guarded(env, s) && Step(env, s, s')
    ensures Outlives(s, s')
  {
    hide Next, TargetMatches, Guarded;
    if s' == Next(env, s) { NextOutlives(env, s); }
  }

  lemma NextOutlives(env: Env, s: State)
    requires Guarded(env, s)
    ensures Outlives(s, Next(env, s))
  {
    hide TargetMatches, RecordsClean, FreshMem, ResumedMem, Record;
    if s.proc.Running? { RecordsReach(env, s.proc.mem); }
  }

  /** Whatever ends a run, whatever the next one is told: a manifest is never overwritten by a
      first one; it has been moved aside before. */
  lemma NeverOverwritten(env: Env, h: seq<State>, i: nat)
    requires Path(env, h) && !First(h).proc.Running? && i + 1 < |h|
    ensures Outlives(Nth(h, i), Nth(h, i + 1))
  {
    hide Guarded, Step, Outlives;
    PathIsGuarded(env, h, i);
    assert Step(env, h[i], h[i + 1]);
    StepOutlives(env, h[i], h[i + 1]);
  }

  /** What an import has reached is on record: in place, or among the manifests moved aside. */
  predicate OnRecord(p: Phase, s: State) {
    (s.man.Some? && p <= s.man.value.reached) || exists m :: m in s.saved && p <= m.reached
  }

  lemma OutlivesRecord(s: State, s': State, p: Phase)
    requires Outlives(s, s') && OnRecord(p, s)
    ensures OnRecord(p, s')
  {
    if m :| m in s.saved && p <= m.reached {
      assert m in s'.saved;
    } else if s'.man.None? {
      assert s'.saved[|s.saved|] == s.man.value;
    }
  }

  /** And it stays there, on every path. */
  lemma {:induction false} ProgressIsKept(env: Env, h: seq<State>, i: nat, j: nat, p: Phase)
    requires Path(env, h) && !First(h).proc.Running? && i <= j < |h| && OnRecord(p, Nth(h, i))
    ensures OnRecord(p, Nth(h, j))
  {
    hide Path, Outlives, OnRecord, Nth;
    if i < j {
      ProgressIsKept(env, h, i, j - 1, p);
      NeverOverwritten(env, h, j - 1);
      OutlivesRecord(Nth(h, j - 1), Nth(h, j), p);
    }
  }

  // ----- what the resume decision overlooks -----

  lemma DoneStands(env: Env, s: State, s': State)
    requires !env.restart && !env.dryRun && !s.proc.Running? && MarkedAt(s.man, DONE) && Step(env, s, s')
    ensures !s'.proc.Running? && s'.db == s.db && s'.man == s.man
  {
    hide RecordsClean, DefineSteps, StripSteps, LoadSteps, RebuildSteps, FkSteps, StatsSteps, LastSteps, Resumable;
  }

  /** So the decision over another import's manifest depends on its marker alone. */
  lemma ForeignDecision(env: Env, m: Manifest)
    requires !env.restart && (m.database != env.roster.database || m.prefix != env.roster.prefix)
    ensures Decide(env, Some(m)).AlreadyDone? <==> m.reached == DONE
    ensures Decide(env, Some(m)).Fresh? <==> m.reached != DONE
  {
    hide RecordsClean;
  }

  /** The identity of a manifest is looked at only behind the DONE branch: over a DONE manifest,
      whatever database and prefix it names, no run of the command ever does any work, and the
      manifest is never set aside. */
  lemma {:induction false} ForeignManifest(env: Env, h: seq<State>, i: nat)
    requires !env.restart && !env.dryRun && Path(env, h) && !First(h).proc.Running? && i < |h|
    requires MarkedAt(First(h).man, DONE)
    ensures !Nth(h, i).proc.Running? && Nth(h, i).db == First(h).db && Nth(h, i).man == First(h).man
  {
    hide Step, MarkedAt;
    if i > 0 {
      ForeignManifest(env, h, i - 1);
      assert Step(env, h[i - 1], h[i - 1 + 1]);
      DoneStands(env, h[i - 1], h[i]);
    }
  }
}
