/** The command itself: it updates the target and the manifest in place, phase by phase,
    and may be killed or fail between any two steps. Every run of it is a run of the
    crash/resume machine, so what is proved of that machine holds of the target it leaves. */
module Importdb {
  import opened Schema
  import opened Dump
  import opened Pipeline
  import Engine
  import Resume
  import Strip
  import Rebuild
  import FkDefine
  import Restore
  import Convergence
  import Recovery

  lemma CalmIsStep(env: Env, s: State, t: State)
    requires Recovery.CalmStep(env, s, t)
    ensures Step(env, s, t)
  {
    hide Next, Fails, DefinesPart, LoadsPart;
  }

  lemma JustCalm(env: Env, h: seq<State>)
    requires h != []
    ensures Recovery.Calm(env, h, |h| - 1)
  {
    hide Recovery.CalmStep;
  }

  lemma FaultIsStep(env: Env, s: State, t: State)
    requires Fails(s, t)
    ensures Step(env, s, t)
  {
    hide Next, Fails, DefinesPart, LoadsPart;
  }

  lemma BeginLeads(env: Env, s: State)
    requires !s.proc.Running?
    ensures Next(env, s) == Begin(env, s)
  {
    hide Begin, DefineSteps, Record, FkSteps, LastSteps;
  }

  lemma RowCommits(env: Env, s: State, left: multiset<Resume.Row>, mem: Mem, r: Resume.Row)
    requires s.proc == Running(Loading(left), mem) && r in left
    ensures Recovery.CalmStep(env, s, s.(db := s.db.(rows := s.db.rows + multiset{r}), proc := Running(Loading(left - multiset{r}), mem)))
  {
    hide Next, DefinesPart;
    assert multiset{r} <= left;
    assert LoadsPart(s, s.(db := s.db.(rows := s.db.rows + multiset{r}), proc := Running(Loading(left - multiset{r}), mem)));
  }

  /** What a run has behind it: the states so far, and whether it is one that nothing disturbs. */
  datatype Log = Log(history: seq<State>, calm: bool, since: int)

  /** The machine is in `s`, on a path that continues `was`. */
  ghost predicate Continues(env: Env, was: Log, now: Log, s: State) {
    && Path(env, now.history) && Last(now.history) == s && Recovery.Calm(env, now.history, now.since)
    && was.history <= now.history && now.calm == was.calm && (now.calm ==> now.since == was.since)
  }

  /** The target database, the manifest, and the manifests moved aside. */
  class Import {
    const env: Env
    var db: Db
    var man: Option<Manifest>
    var saved: seq<Manifest>
    /** While this is set nothing fails and nothing is killed. */
    var calm: bool
    ghost var history: seq<State>
    /** The last time something did. */
    ghost var calmFrom: int

    ghost function Now(): Log
      reads this
    {
      Log(history, calm, calmFrom)
    }

    /** The fields, and the process. */
    ghost function Here(proc: Proc): State
      reads this
    {
      State(db, man, saved, proc)
    }

    /** The object is where the machine is. */
    ghost predicate In(was: Log, s: State)
      reads this
    {
      s == Here(s.proc) && Continues(env, was, Now(), s)
    }

    ghost predicate At(was: Log, proc: Proc)
      reads this
    {
      In(was, Here(proc))
    }

    /** The process is gone, and what it had not committed with it. */
    ghost predicate Died(was: Log, s: State)
      reads this
    {
      In(was, s.(proc := Idle)) || In(was, s.(proc := Exited(false)))
    }

    ghost predicate Ended(was: Log)
      reads this
    {
      At(was, Idle) || At(was, Exited(false)) || At(was, Exited(true))
    }

    constructor (env: Env)
      ensures this.env == env && history == [FRESH] && At(Now(), Idle)
    {
      this.env := env;
      db, man, saved, calm := BLANK, None, [], false;
      history, calmFrom := [FRESH], 0;
    }

    /** The history grows by the state the fields are in. */
    ghost method Note(was: Log, before: State, s: State)
      requires Continues(env, was, Now(), before) && s == Here(s.proc) && Recovery.CalmStep(env, before, s)
      modifies this
      ensures In(was, s) && |history| > |was.history|
    {
      hide Recovery.CalmStep, Step;
      CalmIsStep(env, before, s);
      var g := history + [s];
      forall i | 0 <= i < |g| - 1 ensures Step(env, g[i], g[i + 1]) && (calmFrom <= i ==> Recovery.CalmStep(env, g[i], g[i + 1])) {
        if i == |history| - 1 { assert g[i] == history[|history| - 1]; }
      }
      history := g;
    }

    /** The process is killed, or an operation fails and it exits. */
    method GiveUp(ghost was: Log, ghost s: State)
      requires !calm && In(was, s) && s.proc.Running?
      modifies this
      ensures Died(was, s)
    {
      hide Next, DefinesPart, LoadsPart;
      ghost var end := s.(proc := Idle);
      if * {
        end := s.(proc := Exited(false));
      }
      history := history + [end];
      calmFrom := |history| - 1;
    }

    /** The process finds a reason to refuse. */
    method Refuse(ghost was: Log, ghost s: State)
      requires In(was, s) && Next(env, s) == Exit(s, false)
      modifies this
      ensures In(was, Exit(s, false))
    {
      hide Next, DefinesPart, LoadsPart, Continues;
      Note(was, s, Exit(s, false));
    }

    /** A step of the process's own. */
    method Proceed(ghost was: Log, ghost s: State, ghost proc: Proc) returns (ok: bool)
      requires In(was, s) && s.proc.Running? && Next(env, s) == s.(proc := proc)
      modifies this
      ensures was.calm ==> ok
      ensures if ok then In(was, s.(proc := proc)) else Died(was, s)
    {
      hide Next, DefinesPart, LoadsPart;
      var fault: bool := *;
      if calm || !fault {
        Note(was, s, s.(proc := proc));
        ok := true;
      } else {
        GiveUp(was, s);
        ok := false;
      }
    }

    /** `session_commit`: the open transaction becomes durable, or is gone. */
    method Commit(ghost was: Log, ghost s: State, work: Db, ghost proc: Proc) returns (ok: bool)
      requires In(was, s) && s.proc.Running? && Next(env, s) == s.(db := work, proc := proc)
      modifies this
      ensures was.calm ==> ok
      ensures if ok then In(was, s.(db := work, proc := proc)) else Died(was, s)
    {
      hide Next, DefinesPart, LoadsPart, Path;
      var fault: bool := *;
      if calm || !fault {
        db := work;
        Note(was, s, s.(db := work, proc := proc));
        ok := true;
      } else {
        GiveUp(was, s);
        ok := false;
      }
    }

    /** `write_manifest`: a complete new file replaces the old one, or the old one stays. */
    method WriteManifest(ghost was: Log, ghost s: State, m: Manifest, ghost proc: Proc) returns (ok: bool)
      requires In(was, s) && s.proc.Running? && Next(env, s) == s.(man := Some(m), proc := proc)
      modifies this
      ensures was.calm ==> ok
      ensures if ok then In(was, s.(man := Some(m), proc := proc)) else Died(was, s)
    {
      hide Next, DefinesPart, LoadsPart, Last;
      var fault: bool := *;
      if calm || !fault {
        man := Some(m);
        Note(was, s, s.(man := Some(m), proc := proc));
        ok := true;
      } else {
        GiveUp(was, s);
        ok := false;
      }
    }

    /** The marker write that ends the phase reaching `p`. */
    method Mark(ghost was: Log, p: Phase, mem: Mem) returns (ok: bool)
      requires STRIPPED <= p <= STATS_UPDATED && At(was, Running(MarkPc(p), mem))
      modifies this
      ensures if ok then At(was, Running(AfterMark(env, p), mem)) else Ended(was)
    {
      hide Continues, Path, Step, Record, Next, AfterMark, MarkPc;
      MarkLeads(env, State(db, man, saved, Running(MarkPc(p), mem)), p, mem);
      ok := WriteManifest(was, Here(Running(MarkPc(p), mem)), Record(env, p, mem), Running(AfterMark(env, p), mem));
    }

    /** Commit first, then advance the marker. */
    method CommitAndMark(ghost was: Log, p: Phase, mem: Mem) returns (ok: bool)
      requires (p == STRIPPED || p == REBUILT || p == FK_DEFINED) && At(was, Running(CommitPc(p), mem))
      modifies this
      ensures if ok then At(was, Running(AfterMark(env, p), mem)) else Ended(was)
    {
      hide Continues, Path, Step, Record, Next, AfterMark;
      MarkLeads(env, State(db, man, saved, Running(MarkPc(p), mem)), p, mem);
      ok := Commit(was, Here(Running(CommitPc(p), mem)), mem.work, Running(MarkPc(p), mem));
      if ok {
        ok := Mark(was, p, mem);
      }
    }

    method StripPhase(ghost was: Log, mem: Mem) returns (ok: bool, mem': Mem)
      requires Works(env) && At(was, Running(StripWork, mem))
      modifies this
      ensures if ok then mem'.from == mem.from && At(was, Running(Loading(env.dumpRows), mem')) else Ended(was)
    {
      hide Continues, Path, Step, Record, Guard, Strip.DropOrder, Strip.RunDrops, DefineSteps, LoadSteps,
           RebuildSteps, FkSteps, StatsSteps, LastSteps, Begin, Works, RebuildOutcome, FkOutcome, TriggerOutcome,
           CheckOutcome, EmptiedOutcome, Server;
      WorkIs(env, db, mem);
      var session := new Engine.Session(Server(env, db.rows), db.catalog);
      var stripped;
      ok, stripped := Strip.Strip(session, mem.graph, Guard(mem, DEFINED));
      mem' := mem.(work := db.(catalog := session.catalog), strip := stripped);
      if !ok {
        Refuse(was, Here(Running(StripWork, mem)));
        return;
      }
      ok := Proceed(was, Here(Running(StripWork, mem)), Running(StripCommit, mem'));
      if !ok { return; }
      ok := CommitAndMark(was, STRIPPED, mem');
    }

    /** The reconcile step of a load that was cut short. */
    method TruncatePhase(ghost was: Log, mem: Mem) returns (ok: bool, mem': Mem)
      requires Works(env) && At(was, Running(TruncateWork, mem))
      modifies this
      ensures if ok then mem'.from == mem.from && At(was, Running(Loading(env.dumpRows), mem')) else Ended(was)
    {
      hide Continues, Path, Step, Next, Record, Works, StripOutcome, RebuildOutcome, FkOutcome, TriggerOutcome,
           CheckOutcome, Resume.Truncated, Resume.AfterTruncate, Strip.DropOrder;
      WorkIs(env, db, mem);
      TruncateLeads(env, State(db, man, saved, Running(TruncateWork, mem)), mem);
      var left := Resume.TruncateClasses(mem.graph, db.rows);
      Resume.TruncatedIsUnique(mem.graph.nodes, db.rows, left);
      mem' := mem.(work := db.(rows := left));
      TruncateLeads(env, State(db, man, saved, Running(TruncateCommit, mem')), mem');
      ok := Proceed(was, Here(Running(TruncateWork, mem)), Running(TruncateCommit, mem'));
      if !ok { return; }
      ok := Commit(was, Here(Running(TruncateCommit, mem')), mem'.work, Running(Loading(env.dumpRows), mem'));
    }

    method CommitRow(ghost was: Log, ghost s: State, left: multiset<Resume.Row>, mem: Mem, r: Resume.Row)
      requires In(was, s) && s.proc == Running(Loading(left), mem) && r in left
      modifies this
      ensures In(was, s.(db := s.db.(rows := s.db.rows + multiset{r}), proc := Running(Loading(left - multiset{r}), mem)))
    {
      hide Continues, Path, Recovery.CalmStep, Last;
      RowCommits(env, s, left, mem, r);
      db := db.(rows := db.rows + multiset{r});
      Note(was, s, Here(Running(Loading(left - multiset{r}), mem)));
    }

    /** The children commit on their own connections, row by row, in any order. */
    method LoadRows(ghost was: Log, mem: Mem) returns (ok: bool)
      requires At(was, Running(Loading(env.dumpRows), mem))
      modifies this
      ensures if ok then At(was, Running(Loading(multiset{}), mem)) else Ended(was)
    {
      hide Continues, Path;
      var left := env.dumpRows;
      ok := true;
      while left != multiset{}
        invariant At(was, Running(Loading(left), mem))
        decreases left
      {
        var r :| r in left;
        var fault: bool := *;
        if !calm && fault {
          GiveUp(was, Here(Running(Loading(left), mem)));
          return false;
        }
        CommitRow(was, Here(Running(Loading(left), mem)), left, mem, r);
        left := left - multiset{r};
      }
    }

    method LoadPhase(ghost was: Log, mem: Mem) returns (ok: bool, mem': Mem)
      requires At(was, Running(Loading(env.dumpRows), mem))
      modifies this
      ensures if ok then mem'.from == mem.from && At(was, Running(RebuildWork, mem')) else Ended(was)
    {
      hide Continues, Path, Step, Record, Guard, DefineSteps, StripSteps, RebuildSteps, FkSteps, StatsSteps,
           LastSteps, Begin, Go;
      mem' := mem;
      ok := LoadRows(was, mem);
      if !ok { return; }
      if !env.loads {
        Refuse(was, Here(Running(Loading(multiset{}), mem)));
        return false, mem;
      }
      mem' := mem.(load := |db.rows|);
      assert db.rows + multiset{} == db.rows;
      ok := Proceed(was, Here(Running(Loading(multiset{}), mem)), Running(WriteLoaded, mem'));
      if !ok { return; }
      ok := Mark(was, LOADED, mem');
    }

    method RebuildPhase(ghost was: Log, mem: Mem) returns (ok: bool, mem': Mem)
      requires Works(env) && At(was, Running(RebuildWork, mem))
      modifies this
      ensures if ok then mem'.from == mem.from && At(was, Running(FkWork, mem')) else Ended(was)
    {
      hide Continues, Path, Step, Next, Record, Works, StripOutcome, EmptiedOutcome, FkOutcome, TriggerOutcome,
           CheckOutcome, Guard, Rebuild.Phase, Rebuild.PhaseOps, Rebuild.Summary.Incomplete, Strip.DropOrder;
      WorkIs(env, db, mem);
      RebuildLeads(env, State(db, man, saved, Running(RebuildWork, mem)), mem);
      var session := new Engine.Session(Server(env, db.rows), db.catalog);
      var status, sum := Rebuild.Rebuild(session, env.roster, env.files, mem.graph, mem.strip, Guard(mem, LOADED));
      mem' := mem.(work := db.(catalog := session.catalog), rebuild := sum);
      if status.Error? {
        Refuse(was, Here(Running(RebuildWork, mem)));
        return false, mem;
      }
      ok := Proceed(was, Here(Running(RebuildWork, mem)), Running(RebuildCommit, mem'));
      if !ok { return; }
      ok := CommitAndMark(was, REBUILT, mem');
    }

    method FkPhase(ghost was: Log, mem: Mem) returns (ok: bool, mem': Mem)
      requires Works(env) && At(was, Running(FkWork, mem))
      modifies this
      ensures if ok then mem'.from == mem.from && At(was, Running(StatsWork, mem')) else Ended(was)
    {
      hide Continues, Path, Step, Next, Record, Works, StripOutcome, EmptiedOutcome, RebuildOutcome, TriggerOutcome,
           CheckOutcome, Guard, FkDefine.Phase, StatementsOf, FkFiles, Strip.DropOrder, Judging;
      WorkIs(env, db, mem);
      FkLeads(env, State(db, man, saved, Running(FkWork, mem)), mem);
      var session := new Engine.Session(Server(env, db.rows), db.catalog);
      var status, sum, val := FkDefine.DefineFks(session, env.roster, env.files, mem.graph, mem.rebuild, env.keepGoing,
                                                 Guard(mem, REBUILT), env.artifactWritable);
      mem' := mem.(work := db.(catalog := session.catalog), validate := val, violated := val.violated > 0, fkdefine := sum);
      if status.Error? {
        Refuse(was, Here(Running(FkWork, mem)));
        return false, mem;
      }
      ok := Proceed(was, Here(Running(FkWork, mem)), Running(FkCommit, mem'));
      if !ok { return; }
      ok := CommitAndMark(was, FK_DEFINED, mem');
    }

    method StatsPhase(ghost was: Log, mem: Mem) returns (ok: bool, mem': Mem)
      requires At(was, Running(StatsWork, mem))
      modifies this
      ensures if ok then mem'.from == mem.from && At(was, Running(TriggerWork, mem')) else Ended(was)
    {
      hide Continues, Path, Step, Record, Guard, DefineSteps, StripSteps, LoadSteps, RebuildSteps, FkSteps,
           LastSteps, Begin;
      mem' := mem.(stats := env.statsFailures);
      ok := Proceed(was, Here(Running(StatsWork, mem)), Running(WriteStats, mem'));
      if !ok { return; }
      ok := Mark(was, STATS_UPDATED, mem');
    }

    method DefineTriggers(resumed: bool) returns (st: Triggers)
      ensures st == RunTriggers(env, resumed, Triggers(db.triggers, NO_TRIGGERS), env.triggers)
    {
      st := Triggers(db.triggers, NO_TRIGGERS);
      for i := 0 to |env.triggers|
        invariant st == RunTriggers(env, resumed, Triggers(db.triggers, NO_TRIGGERS), env.triggers[..i])
      {
        var name := env.triggers[i];
        assert env.triggers[..i + 1][..i] == env.triggers[..i];
        if name in st.defs {
          st := st.(sum := if resumed then st.sum.(defined := st.sum.defined + 1) else st.sum.(failed := st.sum.failed + 1));
        } else if env.triggerAccepted(name) {
          st := Triggers(st.defs + {name}, st.sum.(defined := st.sum.defined + 1));
        } else {
          st := st.(sum := st.sum.(failed := st.sum.failed + 1));
        }
      }
      assert env.triggers[..|env.triggers|] == env.triggers;
    }

    method TriggerPhase(ghost was: Log, mem: Mem) returns (ok: bool, mem': Mem)
      requires Works(env) && At(was, Running(TriggerWork, mem))
      modifies this
      ensures if ok then At(was, Running(CheckCatalog, mem')) else Ended(was)
    {
      hide Continues, Path, Step, Next, Record, Works, StripOutcome, EmptiedOutcome, RebuildOutcome, FkOutcome,
           CheckOutcome, RunTriggers, Strip.DropOrder, Now;
      WorkIs(env, db, mem);
      TriggersLead(env, State(db, man, saved, Running(TriggerWork, mem)), mem);
      var t := DefineTriggers(ResumedAt(mem, STATS_UPDATED));
      mem' := mem.(work := db.(triggers := t.defs), triggers := t.sum);
      TriggersLead(env, State(db, man, saved, Running(TriggerCommit, mem')), mem');
      ok := Proceed(was, Here(Running(TriggerWork, mem)), Running(TriggerCommit, mem'));
      if !ok { return; }
      ok := Commit(was, Here(Running(TriggerCommit, mem')), mem'.work, Running(CheckCatalog, mem'));
    }

    /** The catalog check, the DONE marker, and the exit status. */
    method FinishPhase(ghost was: Log, mem: Mem) returns (success: bool)
      requires Works(env) && At(was, Running(CheckCatalog, mem))
      modifies this
      ensures Ended(was) && (success ==> At(was, Exited(true)))
    {
      hide Continues, Path, Step, Record, Next, Restore.Restored, Restore.Excused, Verdict, Works, StripOutcome,
           RebuildOutcome, FkOutcome, TriggerOutcome, EmptiedOutcome, Strip.DropOrder, Now;
      WorkIs(env, db, mem);
      var restored, absent := Restore.CheckCatalogRestored(mem.graph, db.catalog, mem.rebuild, mem.fkdefine);
      var mem' := mem.(restored := restored);
      FinishLeads(env, State(db, man, saved, Running(CheckCatalog, mem)), mem);
      var ok := Proceed(was, Here(Running(CheckCatalog, mem)), Running(WriteDone, mem'));
      if !ok { return false; }
      FinishLeads(env, State(db, man, saved, Running(WriteDone, mem')), mem');
      ok := WriteManifest(was, Here(Running(WriteDone, mem')), Record(env, DONE, mem'), Running(Close, mem'));
      if !ok { return false; }
      CloseLeads(env, State(db, man, saved, Running(Close, mem')), mem');
      ok := Proceed(was, Here(Running(Close, mem')), Exited(Verdict(mem')));
      success := ok && Verdict(mem');
    }

    /** `preserve_manifest`: the prior file is renamed, or the run refuses. */
    method PreserveManifest(ghost was: Log, ghost s: State, ghost mem: Mem) returns (ok: bool)
      requires In(was, s) && s.proc == Running(Preserve, mem)
      modifies this
      ensures
        match s.man
        case None => !ok
        case Some(m) => ok ==> In(was, s.(man := None, saved := s.saved + [m], proc := Running(WriteDiscovered, mem)))
      ensures !ok ==> Died(was, s)
    {
      hide Continues, Path, StripSteps, LoadSteps, RebuildSteps, FkSteps, StatsSteps, LastSteps, Begin, TargetMatches;
      if man.None? {
        Refuse(was, s);
        return false;
      }
      var fault: bool := *;
      if !calm && fault {
        GiveUp(was, s);
        return false;
      }
      saved := saved + [man.value];
      man := None;
      Note(was, s, Here(Running(WriteDiscovered, mem)));
      ok := true;
    }

    /** A fresh run: the old manifest is moved aside, and the schema is defined in an empty
        target. The schema files commit as they run. */
    method DefinePhase(ghost was: Log, preserve: bool, mem: Mem) returns (ok: bool, mem': Mem)
      requires !env.dryRun && mem.from.None? && At(was, Running(if preserve then Preserve else WriteDiscovered, mem))
      modifies this
      ensures if ok then mem'.from.None? && mem'.hasGraph == mem.hasGraph && At(was, Running(TakeGraph, mem')) else Ended(was)
    {
      hide Continues, Path, Step, Record, TargetMatches, StripSteps, LoadSteps, RebuildSteps, FkSteps, StatsSteps,
           LastSteps, Begin, EarlyRecord, Now;
      mem' := mem;
      if preserve {
        ok := PreserveManifest(was, Here(Running(Preserve, mem)), mem);
        if !ok { return; }
      }
      ok := WriteManifest(was, Here(Running(WriteDiscovered, mem)), EarlyRecord(env, DISCOVERED), Running(Define, mem));
      if !ok { return; }
      ok := RunSchemaFiles(was, mem);
      if !ok { return; }
      mem' := mem.(work := env.target);
      ok := Commit(was, Here(Running(Define, mem)), env.target, Running(WriteDefined, mem'));
      if !ok { return; }
      ok := WriteManifest(was, Here(Running(WriteDefined, mem')), EarlyRecord(env, DEFINED), Running(TakeGraph, mem'));
    }

    /** Some of the definition is committed before the phase ends, or dies. */
    method RunSchemaFiles(ghost was: Log, mem: Mem) returns (ok: bool)
      requires !env.dryRun && At(was, Running(Define, mem))
      modifies this
      ensures if ok then At(was, Running(Define, mem)) else Ended(was)
    {
      hide Continues, Path, Next;
      ok := true;
      var parts: seq<Db> := *;
      for i := 0 to |parts|
        invariant At(was, Running(Define, mem))
      {
        if parts[i].rows == multiset{} && parts[i].classes != {} {
          ghost var s := Here(Running(Define, mem));
          db := parts[i];
          Note(was, s, Here(Running(Define, mem)));
        }
      }
      var fault: bool := *;
      if !calm && fault {
        GiveUp(was, Here(Running(Define, mem)));
        ok := false;
      }
    }

    /** The snapshot, read back on a resume or taken now, and the plan. */
    method PlanPhase(ghost was: Log, mem: Mem) returns (ok: bool, mem': Mem)
      requires !env.dryRun && At(was, Running(TakeGraph, mem))
      modifies this
      ensures if ok then mem'.from == mem.from && At(was, Running(if mem.from.None? then StripWork else Verify, mem')) else Ended(was)
    {
      hide Continues, Path, Step, Record, TargetMatches, StripSteps, LoadSteps, RebuildSteps, FkSteps, StatsSteps,
           LastSteps, Begin, EarlyRecord, Now;
      var g := if mem.hasGraph then mem.graph else env.snapshot(mem.work.catalog);
      mem' := mem.(graph := g, planned := if mem.hasGraph then mem.planned else env.layering(g));
      if !env.rosterOk(g) {
        Refuse(was, Here(Running(TakeGraph, mem)));
        return false, mem;
      }
      if mem.from.Some? && mem.from.value != DEFINED {
        ok := Proceed(was, Here(Running(TakeGraph, mem)), Running(Verify, mem'));
        return;
      }
      ok := Proceed(was, Here(Running(TakeGraph, mem)), Running(WriteGraph, mem'));
      if !ok { return; }
      ok := WriteManifest(was, Here(Running(WriteGraph, mem')), Record(env, DEFINED, mem').(plan := None), Running(WritePlan, mem'));
      if !ok { return; }
      ok := WriteManifest(was, Here(Running(WritePlan, mem')), Record(env, DEFINED, mem'), Running(if mem.from.None? then StripWork else Verify, mem'));
    }

    /** A resumed run reads the catalog once, and refuses a target that is not the one the
        manifest describes. */
    method VerifyPhase(ghost was: Log, p: Phase, mem: Mem) returns (ok: bool, mem': Mem)
      requires mem.from == Some(p) && At(was, Running(Verify, mem))
      modifies this
      ensures if ok then mem'.from == mem.from && At(was, Running(Entry(p), mem')) else Ended(was)
    {
      hide Continues, Path, Step, Record, Resume.Matches, StripSteps, LoadSteps, RebuildSteps, FkSteps, StatsSteps,
           LastSteps, Begin, Entry;
      mem' := mem.(present := db.catalog);
      ok := Resume.VerifyResumeTarget(mem.graph, mem.strip, ResumedAt(mem, STRIPPED), ResumedAt(mem, DEFINED),
                                      db.classes, db.catalog, db.rows);
      if !ok {
        Refuse(was, Here(Running(Verify, mem)));
        return;
      }
      ok := Proceed(was, Here(Running(Verify, mem)), Running(Entry(p), mem'));
    }

    /** The phases after the marker `p`, in order. */
    method RunPhases(ghost was: Log, p: Phase, start: Mem) returns (success: bool)
      requires p < DONE && (start.from == None ==> p == DISCOVERED) && (start.from != None ==> start.from == Some(p))
      requires Works(env) && At(was, Running(Entry(p), start))
      modifies this
      ensures Ended(was) && (success ==> At(was, Exited(true)))
    {
      hide Continues, Path, Step, Next, Works, At;
      var ok, mem := true, start;
      if p < STRIPPED {
        ok, mem := StripPhase(was, mem);
        if !ok { return false; }
      }
      if p < LOADED {
        if p == STRIPPED {
          ok, mem := TruncatePhase(was, mem);
          if !ok { return false; }
        }
        ok, mem := LoadPhase(was, mem);
        if !ok { return false; }
      }
      if p < REBUILT {
        ok, mem := RebuildPhase(was, mem);
        if !ok { return false; }
      }
      if p < FK_DEFINED {
        ok, mem := FkPhase(was, mem);
        if !ok { return false; }
      }
      if p < STATS_UPDATED {
        ok, mem := StatsPhase(was, mem);
        if !ok { return false; }
      }
      ok, mem := TriggerPhase(was, mem);
      if !ok { return false; }
      success := FinishPhase(was, mem);
    }

    method DryRun(ghost was: Log, ghost s: State) returns (success: bool)
      requires env.dryRun && In(was, s) && !s.proc.Running?
      modifies this
      ensures Ended(was) && (success ==> At(was, Exited(true))) && was.history < history
      ensures db == s.db && man == s.man && saved == s.saved
    {
      hide Recovery.Calm, Path, StripSteps, LoadSteps, RebuildSteps, FkSteps, StatsSteps, LastSteps, Last, Write;
      if db.classes != {} {
        Note(was, Last(history), Here(Exited(false)));
        return false;
      }
      var mem := FreshMem(db);
      Note(was, Last(history), Here(Running(Define, mem)));
      ghost var now := Now();
      var mem' := mem.(work := env.target);
      var ok := Proceed(now, Here(Running(Define, mem)), Running(TakeGraph, mem'));
      if !ok { return false; }
      var accepted := env.rosterOk(env.snapshot(env.target.catalog));
      ok := Proceed(now, Here(Running(TakeGraph, mem')), Exited(accepted));
      success := ok && accepted;
    }

    /** One run of the command. */
    method Run(ghost was: Log) returns (success: bool)
      requires Works(env) && Ended(was)
      modifies this
      ensures Ended(was) && (success ==> At(was, Exited(true))) && |history| > |was.history|
    {
      hide Recovery.Calm, Path, Next, RecordsClean, Resumable, Works;
      if env.dryRun {
        success := DryRun(was, Last(history));
        return;
      }
      BeginLeads(env, State(db, man, saved, Idle));
      BeginLeads(env, State(db, man, saved, Exited(false)));
      BeginLeads(env, State(db, man, saved, Exited(true)));
      match Decide(env, man)
      case AlreadyDone(clean) =>
        Note(was, Last(history), Here(Exited(clean)));
        success := clean;
      case Fresh(preserve) =>
        success := RunFresh(was, preserve);
      case Resume =>
        success := RunResumed(was);
    }

    method RunFresh(ghost was: Log, preserve: bool) returns (success: bool)
      requires Works(env) && Ended(was) && !env.dryRun && Decide(env, man) == Fresh(preserve)
      modifies this
      ensures Ended(was) && (success ==> At(was, Exited(true))) && |history| > |was.history|
    {
      hide Recovery.Calm, Path, Next, RecordsClean, Resumable, Works, Nth, ReadBack;
      BeginLeads(env, State(db, man, saved, Idle));
      BeginLeads(env, State(db, man, saved, Exited(false)));
      BeginLeads(env, State(db, man, saved, Exited(true)));
      if db.classes != {} {
        Note(was, Last(history), Here(Exited(false)));
        return false;
      }
      var mem := FreshMem(db);
      Note(was, Last(history), Here(Running(if preserve then Preserve else WriteDiscovered, mem)));
      ghost var now := Now();
      var ok;
      ok, mem := DefinePhase(now, preserve, mem);
      if !ok { return false; }
      ok, mem := PlanPhase(now, mem);
      if !ok { return false; }
      success := RunPhases(now, DISCOVERED, mem);
    }

    method RunResumed(ghost was: Log) returns (success: bool)
      requires Works(env) && Ended(was) && !env.dryRun && Decide(env, man) == Resume
      modifies this
      ensures Ended(was) && (success ==> At(was, Exited(true))) && |history| > |was.history|
    {
      hide Recovery.Calm, Path, Next, RecordsClean, Works, Nth, Last;
      BeginLeads(env, State(db, man, saved, Idle));
      BeginLeads(env, State(db, man, saved, Exited(false)));
      BeginLeads(env, State(db, man, saved, Exited(true)));
      var p := man.value.reached;
      var mem := ResumedMem(db, man.value);
      Note(was, Last(history), Here(Running(TakeGraph, mem)));
      ghost var now := Now();
      var ok;
      ok, mem := PlanPhase(now, mem);
      if !ok { return false; }
      ok, mem := VerifyPhase(now, p, mem);
      if !ok { return false; }
      success := RunPhases(now, p, mem);
    }

    /** The command run again and again over a fresh target, whatever happens to each run:
        once the manifest says DONE, the target is what one uninterrupted run leaves. */
    method Retry(times: nat, ghost rank: string -> nat) returns (success: bool)
      requires Works(env) && Ended(Now()) && history == [FRESH]
      modifies this
      ensures Ended(Now()) && [FRESH] <= history && Reachable(env, Last(history))
      ensures Recovery.Converged(env, rank, Last(history))
    {
      hide Recovery.Calm, Path, Step, Recovery.Converged, Works, Last;
      success, calm := false, false;
      for i := 0 to times
        invariant Ended(Now()) && [FRESH] <= history
      {
        success := Run(Now());
      }
      ghost var s := Last(history);
      assert Reachable(env, s) by {
        assert Path(env, history) && history[0] == FRESH && Last(history) == s;
      }
      Recovery.ReachableConverges(env, rank, s);
    }

    /** After any runs at all, one that nothing disturbs: if the import can still finish, it
        finishes, with the database one uninterrupted run leaves. */
    method RunUndisturbed(ghost was: Log, ghost rank: string -> nat) returns (success: bool)
      requires Works(env) && Ended(was) && was == Now() && [FRESH] <= history
      modifies this
      ensures Ended(Now()) && was.history < history
      ensures Recovery.Finished(env, rank, Last(was.history), Last(history))
    {
      hide Recovery.Calm, Path, Step, Recovery.Finished, Reachable, Works;
      ghost var before := history;
      calm, calmFrom := true, |history| - 1;
      JustCalm(env, history);
      success := Run(Now());
      assert history[0] == FRESH && history[|before| - 1] == before[|before| - 1];
      Recovery.CalmRunFinishes(env, rank, history, |before| - 1);
    }
  }
}
