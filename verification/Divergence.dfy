/** Why the dump has to be repeatable: over one that is not, some kill and resume leads a
    run that would otherwise get through away from the uninterrupted one. */
module Divergence {
  import opened Schema
  import opened Pipeline
  import opened Convergence
  import opened Recovery
  import DdlText
  import Engine
  import FkDefine
  import FkLaws
  import Rebuild
  import RebuildLaws
  import Restore
  import Strip

  /** The manifest and the database are none the uninterrupted run goes through, or FK define
      fails where the uninterrupted one does not. */
  ghost predicate Astray(env: Env, o: Outcome, s: State) {
    !Durable(o, s.db, s.man) || (!o.hard && FailsFk(env, s))
  }

  predicate FailsFk(env: Env, s: State) {
    match s.proc
    case Running(FkWork, mem) => IsHard(env.work.fk(s.db, mem))
    case _ => false
  }

  predicate IsHard(st: Option<FkDefine.State>) { st.Some? && st.value.hard }

  // ----- a fresh process gets to every later step -----

  /** One undisturbed step of a process whose work, if any is due, is the uninterrupted run's. */
  lemma Onward(env: Env, rank: string -> nat, o: Outcome, s: State)
    requires Reachable(env, s) && Inv(o, s) && Described(env, rank, o) && WorkFits(env, o, s)
    ensures Reachable(env, Next(env, s)) && Inv(o, Next(env, s))
  {
    hide Reachable, Inv, Described, Portrayed, WorkFits, Next, Setting, Step;
    IsExact(env, rank, o);
    OutcomeFits(env, rank, o);
    NextKeeps(env, o, s);
    NextIsStep(env, s);
    ReachableStep(env, s, Next(env, s));
  }

  /** A process started fresh, at the step of rank `r`. */
  ghost predicate FreshAt(env: Env, o: Outcome, s: State, r: int) {
    Reachable(env, s) && Inv(o, s) && IsFresh(s.proc, r)
  }

  predicate IsFresh(proc: Proc, r: int) { proc.Running? && proc.mem.from.None? && Rank(proc.pc) == r }

  lemma {:induction false} Descends(env: Env, rank: string -> nat, o: Outcome, s: State, from: nat, r: nat) returns (t: State)
    requires Described(env, rank, o) && GetsThrough(env) && r <= 12 && FreshAt(env, o, s, from) && r <= from
    ensures FreshAt(env, o, t, r)
    decreases from
  {
    hide Reachable, Inv, Described, Portrayed, GetsThrough, Works, WorkFits, Next, Setting, Clear, TargetMatches, Repeatable;
    IsExact(env, rank, o);
    t := s;
    if r < from {
      OutcomeFits(env, rank, o);
      NothingStops(env, rank, o);
      WorkMatches(env, rank, o, s);
      if s.proc.pc.Verify? { TargetIsFound(env, rank, o, s, s.proc.mem); }
      NextMovesOn(env, o, s, s.proc.pc, s.proc.mem);
      Onward(env, rank, o, s);
      t := Next(env, s);
      t := Descends(env, rank, o, t, Rank(t.proc.pc), r);
    }
  }

  lemma Starts(env: Env, rank: string -> nat, o: Outcome)
    requires Described(env, rank, o)
    ensures FreshAt(env, o, Next(env, FRESH), 26)
  {
    hide Described, Portrayed, Inv, DefineSteps;
    IsExact(env, rank, o);
    FreshHolds(o);
    assert Path(env, [FRESH]);
    assert Reachable(env, FRESH);
    Onward(env, rank, o, FRESH);
    OutcomeFits(env, rank, o);
  }

  /** Over an import that gets through there is a reachable state at each step from the rebuild on. */
  lemma Arrives(env: Env, rank: string -> nat, o: Outcome, r: nat) returns (t: State)
    requires Described(env, rank, o) && GetsThrough(env) && r <= 12
    ensures FreshAt(env, o, t, r)
  {
    hide Described, GetsThrough, Next, Reachable, Inv, FreshAt;
    Starts(env, rank, o);
    t := Descends(env, rank, o, Next(env, FRESH), 26, r);
  }

  // ----- killed there, and run again -----

  /** A process resumed at the marker `p`, before the phase it enters again. */
  ghost predicate ResumedInto(env: Env, o: Outcome, s: State, p: Phase) {
    Reachable(env, s) && Inv(o, s) && MarkedAt(s.man, p) && IsReentry(s.proc, s.db.catalog, p)
  }

  predicate IsReentry(proc: Proc, cat: set<Key>, p: Phase) {
    proc.Running? && proc.pc == Entry(p) && ResumedAt(proc.mem, p) && proc.mem.present == cat
  }

  lemma Killed(env: Env, o: Outcome, s: State)
    requires Reachable(env, s) && Inv(o, s) && s.proc.Running?
    ensures Reachable(env, s.(proc := Idle)) && Inv(o, s.(proc := Idle))
  {
    hide Reachable, Durable, InProcess, Next, DefinesPart, LoadsPart;
    assert Step(env, s, s.(proc := Idle));
    ReachableStep(env, s, s.(proc := Idle));
  }

  lemma BeginResumes(env: Env, s: State, m: Manifest)
    requires !env.restart && !env.dryRun && Reachable(env, s) && !s.proc.Running? && s.man == Some(m) && DEFINED <= m.reached < DONE
    ensures Next(env, s) == Go(s, TakeGraph, ResumedMem(s.db, m))
  {
    hide Reachable, Decide, DefineSteps, ResumedMem, FkSteps, LastSteps, Record;
    SelfResumable(env, s, m);
  }

  lemma TakeGraphResumes(env: Env, o: Outcome, s: State, mem: Mem, p: Phase) returns (mem': Mem)
    requires Inv(o, s) && MarkedAt(s.man, p) && STRIPPED <= p < DONE && !env.dryRun && env.rosterOk(o.graph)
    requires s.proc == Running(TakeGraph, mem) && mem.from == Some(p)
    ensures Next(env, s) == Go(s, Verify, mem') && mem'.from == Some(p)
  {
    hide Durable, AtStrip, AtLoad, AtRebuild, AtFk, AtStats, AtLast, Held, Record, TargetMatches, Begin, Go;
    mem' := mem.(graph := o.graph, planned := if mem.hasGraph then mem.planned else env.layering(o.graph));
  }

  lemma VerifyResumes(env: Env, s: State, mem: Mem, p: Phase)
    requires s.proc == Running(Verify, mem) && mem.from == Some(p) && TargetMatches(mem, s.db)
    ensures Next(env, s) == Go(s, Entry(p), mem.(present := s.db.catalog))
  {
    hide Record, TargetMatches, Begin, LastSteps, FkSteps;
  }

  lemma Resumes(env: Env, rank: string -> nat, o: Outcome, s: State, p: Phase) returns (t: State)
    requires Described(env, rank, o) && GetsThrough(env) && STRIPPED <= p < DONE
    requires Reachable(env, s) && Inv(o, s) && s.proc.Running? && MarkedAt(s.man, p)
    ensures ResumedInto(env, o, t, p) && t.db == s.db
  {
    hide Reachable, Inv, Described, Portrayed, GetsThrough, Works, Next, ResumedMem, TargetMatches, FkFit;
    IsExact(env, rank, o);
    NothingStops(env, rank, o);
    OutcomeFits(env, rank, o);
    Killed(env, o, s);
    var a := s.(proc := Idle);
    BeginResumes(env, a, a.man.value);
    Onward(env, rank, o, a);
    var b := Next(env, a);
    RestoresFrom(a.db, a.man.value);
    var mem := TakeGraphResumes(env, o, b, b.proc.mem, p);
    Onward(env, rank, o, b);
    var c := Next(env, b);
    TargetIsFound(env, rank, o, c, mem);
    VerifyResumes(env, c, mem, p);
    Onward(env, rank, o, c);
    t := Next(env, c);
  }

  lemma RestoresFrom(db: Db, m: Manifest)
    ensures ResumedMem(db, m).from == Some(m.reached)
  {
  }

  // ----- and led astray -----

  /** The manifest is at REBUILT or later with this rebuild record; and so for the others. */
  predicate WroteRebuild(man: Option<Manifest>, sum: Rebuild.Summary) {
    man.Some? && man.value.reached >= REBUILT && man.value.rebuild == Some(sum)
  }

  predicate WroteFk(man: Option<Manifest>, sum: FkDefine.Summary) {
    man.Some? && man.value.reached >= FK_DEFINED && man.value.fkdefine == Some(sum)
  }

  predicate WroteTriggers(man: Option<Manifest>, sum: TriggerRecord) {
    man.Some? && man.value.reached >= DONE && man.value.triggers == Some(sum)
  }

  lemma RebuildStrays(env: Env, rank: string -> nat, o: Outcome, cat: set<Key>) returns (s: State)
    requires Described(env, rank, o) && GetsThrough(env) && (cat == o.bare || cat == o.keyed)
    requires RebuildLaws.AnyShadowed(Rebuild.ContextOf(Srv(env), Snap(env), Dropped(env), None), Bare(env), Ops(env), cat)
    ensures Reachable(env, s) && Astray(env, o, s)
  {
    hide Reachable, GetsThrough, World, OutcomeOf, FreshAt, ResumedInto, RebuildLaws.AnyShadowed, Rebuild.Phase, Inv, Next,
         Durable, Works, Linked, Snap, Dropped, FkOutcome, CheckOutcome;
    OutcomeIs(env, o);
    OutcomeHas(env, o);
    NothingStops(env, rank, o);
    RebuildReentered(env, rank, cat);
    var t := Arrives(env, rank, o, if cat == o.bare then 12 else 10);
    RebuildAhead(env, o, t, cat);
    var u := Resumes(env, rank, o, t, LOADED);
    var mem := RebuildAgain(env, o, u);
    WorkIs(env, u.db, mem);
    var st := Rebuild.Phase(Srv(env), Snap(env), Dropped(env), Some(cat), cat, Ops(env));
    var mem' := mem.(work := u.db.(catalog := st.cat), rebuild := st.sum);
    RebuildLeads(env, u, mem);
    MarkLeads(env, Go(u, RebuildCommit, mem'), REBUILT, mem');
    MarkLeads(env, u.(db := mem'.work), REBUILT, mem');
    assert After(env, u, 0) == u;
    assert After(env, u, 1) == Go(u, RebuildCommit, mem');
    assert After(env, u, 2) == u.(db := mem'.work, proc := Running(WriteRebuilt, mem'));
    ReachableAfter(env, u, 3);
    s := After(env, u, 3);
    RecordDiffers(o, s, st.sum, o.fkdefine, o.fired.sum);
  }

  /** What the outcome holds, by name. */
  lemma OutcomeHas(env: Env, o: Outcome)
    requires o == OutcomeOf(env)
    ensures o.bare == Bare(env) && o.keyed == Keyed(env).cat && o.hard == Linked(env).hard
    ensures !o.hard ==> o.linked == Linked(env).cat
  {
    hide Keyed, Linked, Bare, Dropped, Restore.Restored, Restore.Excused, Fired;
  }

  lemma RebuildAhead(env: Env, o: Outcome, t: State, cat: set<Key>)
    requires FreshAt(env, o, t, if cat == o.bare then 12 else 10) && (cat == o.bare || cat == o.keyed)
    ensures Reachable(env, t) && Inv(o, t) && t.proc.Running? && MarkedAt(t.man, LOADED) && t.db.catalog == cat
  {
    hide Reachable, Durable, AtDefine, AtStrip, AtLoad, AtFk, AtStats, AtLast, Held, MarkedAt, Sound;
  }

  lemma RebuildAgain(env: Env, o: Outcome, u: State) returns (mem: Mem)
    requires ResumedInto(env, o, u, LOADED)
    ensures Reachable(env, u) && u.proc == Running(RebuildWork, mem)
    ensures mem.graph == o.graph && mem.strip == o.strip && u.db.rows == o.rows && Guard(mem, LOADED) == Some(u.db.catalog)
  {
    hide Reachable, Inv, MarkedAt;
    mem := u.proc.mem;
    RebuildDue(o, u, mem);
  }

  /** A manifest with another rebuild, foreign key or trigger record is none of the uninterrupted run's. */
  lemma RecordDiffers(o: Outcome, s: State, rebuild: Rebuild.Summary, fkdefine: FkDefine.Summary, triggers: TriggerRecord)
    requires o.exact
    requires (WroteRebuild(s.man, rebuild) && rebuild != o.rebuild) || (WroteFk(s.man, fkdefine) && fkdefine != o.fkdefine)
          || (WroteTriggers(s.man, triggers) && triggers != o.fired.sum)
    ensures !Durable(o, s.db, s.man)
  {
    hide CatalogAt, RowsAt, TriggersAt, ViolatedEdges, FkLaws.DefinedIn;
  }

  lemma FkAhead(env: Env, o: Outcome, t: State, cat: set<Key>)
    requires o.exact
    requires FreshAt(env, o, t, if cat == o.keyed then 9 else 7) && (cat == o.keyed || cat == o.linked)
    ensures Reachable(env, t) && Inv(o, t) && t.proc.Running? && MarkedAt(t.man, REBUILT) && t.db.catalog == cat
  {
    hide Reachable, Durable, AtDefine, AtStrip, AtLoad, AtRebuild, AtStats, AtLast, Held, MarkedAt, Sound;
  }

  lemma FkAgain(env: Env, o: Outcome, u: State) returns (mem: Mem)
    requires o.exact
    requires ResumedInto(env, o, u, REBUILT)
    ensures Reachable(env, u) && u.proc == Running(FkWork, mem)
    ensures mem.graph == o.graph && mem.rebuild == o.rebuild && u.db.rows == o.rows && Guard(mem, REBUILT) == Some(u.db.catalog)
  {
    hide Reachable, Inv, MarkedAt;
    mem := u.proc.mem;
    FkDue(o, u, mem);
  }

  lemma FkStrays(env: Env, rank: string -> nat, o: Outcome, cat: set<Key>) returns (s: State)
    requires Described(env, rank, o) && GetsThrough(env) && (cat == o.keyed || cat == o.linked)
    requires FkLaws.AnyShadowed(FkDefine.ContextOf(Srv(env), Snap(env), Keyed(env).sum, env.keepGoing, None), Keyed(env).cat,
                                FkTexts(env), cat)
    ensures Reachable(env, s) && Astray(env, o, s)
  {
    hide Reachable, GetsThrough, World, OutcomeOf, FreshAt, ResumedInto, FkLaws.AnyShadowed, FkDefine.Phase, Keyed, Snap,
         Srv, Inv, Next, Durable, Works, FkDefine.ContextOf, Dropped, Strip.Snapshot, Rebuild.PhaseOps, Fired;
    OutcomeIs(env, o);
    OutcomeHas(env, o);
    NothingStops(env, rank, o);
    DefineReentered(env, rank, cat);
    var t := Arrives(env, rank, o, if cat == o.keyed then 9 else 7);
    FkAhead(env, o, t, cat);
    var u := Resumes(env, rank, o, t, REBUILT);
    var mem := FkAgain(env, o, u);
    var st := Relinked(env, Keyed(env).sum, cat);
    FkAgainLeaves(env, o, u.db, mem);
    if st.hard {
      s := u;
    } else {
      var mem' := mem.(work := u.db.(catalog := st.cat), validate := st.val, violated := st.val.violated > 0, fkdefine := st.sum);
      FkLeads(env, u, mem);
      MarkLeads(env, Go(u, FkCommit, mem'), FK_DEFINED, mem');
      MarkLeads(env, u.(db := mem'.work), FK_DEFINED, mem');
      assert After(env, u, 0) == u;
      assert After(env, u, 1) == Go(u, FkCommit, mem');
      assert After(env, u, 2) == u.(db := mem'.work, proc := Running(WriteFk, mem'));
      ReachableAfter(env, u, 3);
      s := After(env, u, 3);
      RecordDiffers(o, s, o.rebuild, st.sum, o.fired.sum);
    }
  }

  lemma FkAgainLeaves(env: Env, o: Outcome, db: Db, mem: Mem)
    requires o == OutcomeOf(env) && Works(env) && Clear(env, o)
    requires mem.graph == o.graph && mem.rebuild == o.rebuild && db.rows == o.rows && Guard(mem, REBUILT) == Some(db.catalog)
    ensures env.work.fk(db, mem) == Some(Relinked(env, Keyed(env).sum, db.catalog))
  {
    hide Works, StripOutcome, RebuildOutcome, TriggerOutcome, CheckOutcome, EmptiedOutcome, Keyed, Linked, Fired,
         FkDefine.Phase, Restore.Restored, Strip.Entries, Strip.DropOrder, DdlText.Statements;
    WorkIs(env, db, mem);
  }

  lemma TriggersAhead(env: Env, o: Outcome, t: State)
    requires FreshAt(env, o, t, 4)
    ensures Reachable(env, t) && Inv(o, t) && t.proc.Running? && MarkedAt(t.man, STATS_UPDATED) && t.db.triggers == {}
  {
    hide Reachable, Durable, AtDefine, AtStrip, AtLoad, AtRebuild, AtFk, AtStats, Held, MarkedAt, Sound;
  }

  lemma TriggersAgain(env: Env, o: Outcome, u: State) returns (mem: Mem)
    requires ResumedInto(env, o, u, STATS_UPDATED) && Works(env)
    ensures Reachable(env, u) && u.proc == Running(TriggerWork, mem)
    ensures env.work.triggers(u.db, mem) == RunTriggers(env, true, Triggers(u.db.triggers, NO_TRIGGERS), env.triggers)
  {
    hide Reachable, Inv, Works, StripOutcome, EmptiedOutcome, RebuildOutcome, FkOutcome, CheckOutcome, RunTriggers,
         Strip.DropOrder, MarkedAt;
    mem := u.proc.mem;
    WorkIs(env, u.db, mem);
  }

  lemma TriggersStray(env: Env, rank: string -> nat, o: Outcome) returns (s: State)
    requires Described(env, rank, o) && GetsThrough(env) && !AcceptedOnce(env, env.triggers)
    ensures Reachable(env, s) && Astray(env, o, s)
  {
    hide Reachable, GetsThrough, World, OutcomeOf, FreshAt, ResumedInto, AcceptedOnce, Inv, Next, Durable, Fired,
         RunTriggers, Works, Keyed, Dropped, Linked, FailsFk;
    OutcomeIs(env, o);
    TriggersReentered(env, {});
    var t := Arrives(env, rank, o, 4);
    TriggersAhead(env, o, t);
    var u := Resumes(env, rank, o, t, STATS_UPDATED);
    WorldWorks(env, rank);
    var mem := TriggersAgain(env, o, u);
    assert WroteTriggers(After(env, u, 4).man, env.work.triggers(u.db, mem).sum) by {
      var t := env.work.triggers(u.db, mem);
      var mem' := mem.(work := u.db.(triggers := t.defs), triggers := t.sum);
      TriggersLead(env, u, mem);
      TriggersLead(env, u, mem');
      var c := u.(db := mem'.work);
      FinishLeads(env, c, mem');
      FinishLeads(env, c, mem'.(restored := env.work.restored(c.db, mem')));
      assert After(env, u, 0) == u;
      assert After(env, u, 1) == Go(u, TriggerCommit, mem');
      assert After(env, u, 2) == Go(c, CheckCatalog, mem');
      assert After(env, u, 3) == Go(c, WriteDone, mem'.(restored := env.work.restored(c.db, mem')));
    }
    ReachableAfter(env, u, 4);
    s := After(env, u, 4);
    RecordDiffers(o, s, o.rebuild, o.fkdefine, env.work.triggers(u.db, mem).sum);
  }

  // ----- exactly which dumps converge -----

  lemma StaysOnCourse(env: Env, rank: string -> nat, o: Outcome, s: State)
    requires Importing(env, rank, o) && Reachable(env, s)
    ensures !Astray(env, o, s)
  {
    hide Described, Portrayed, Followed, Repeatable, Reachable, InProcess, Durable, RebuildFit, SameFk;
    HoldsRecords(env, rank, o);
    ReachableHolds(env, rank, o, s);
    if s.proc.Running? && s.proc.pc.FkWork? { WorkMatches(env, rank, o, s); }
  }

  lemma NothingFails(env: Env, rank: string -> nat, o: Outcome)
    requires Described(env, rank, o) && GetsThrough(env)
    ensures o.bare == Bare(env) && o.keyed == Keyed(env).cat && o.linked == Linked(env).cat && !Linked(env).hard
  {
    hide World, Keyed, Linked, Bare, Rebuild.PhaseOps, Dropped, Restore.Restored, Restore.Excused, DdlText.Statements;
  }

  /** An import that gets through undisturbed is on the uninterrupted run's course in every state
      that deaths, failures and re-runs can lead to, exactly when its dump is repeatable. */
  lemma ConvergesIffRepeatable(env: Env, rank: string -> nat, o: Outcome)
    requires Described(env, rank, o) && GetsThrough(env)
    ensures Repeatable(env) <==> forall s :: Reachable(env, s) ==> !Astray(env, o, s)
  {
    hide Described, GetsThrough, Reachable, Astray, RebuildLaws.AnyShadowed, FkLaws.AnyShadowed, AcceptedOnce, Keyed,
         Linked, Bare, Dropped, Ops, FkDefine.ContextOf, FkTexts, Unguarded;
    NothingFails(env, rank, o);
    if Repeatable(env) {
      forall s | Reachable(env, s) ensures !Astray(env, o, s) { StaysOnCourse(env, rank, o, s); }
    } else if !RebuildRepeatable(env) {
      var c := Rebuild.ContextOf(Srv(env), Snap(env), Dropped(env), None);
      var early := RebuildLaws.AnyShadowed(c, Bare(env), Ops(env), Bare(env));
      var s := RebuildStrays(env, rank, o, if early then o.bare else o.keyed);
    } else if !DefineRepeatable(env) {
      var c := FkDefine.ContextOf(Srv(env), Snap(env), Keyed(env).sum, env.keepGoing, None);
      var early := FkLaws.AnyShadowed(c, Keyed(env).cat, FkTexts(env), Keyed(env).cat);
      var s := FkStrays(env, rank, o, if early then o.keyed else o.linked);
    } else {
      var s := TriggersStray(env, rank, o);
    }
  }

  // ----- what divergence costs -----

  /** A dump with one accepted key statement twice, and a foreign key that refers to the key's
      class. The uninterrupted run takes the repetition for a failed key and leaves the foreign
      key out; killed after the rebuild commit and resumed, it defines it. */
  lemma RepeatedKeyLosesForeignKey(eng: Engine.Engine, g: Graph, stripped: seq<Stripped>, cat: set<Key>, text: string,
                                   keepGoing: bool, fk: string, e: FkEdge)
    requires RebuildLaws.Reflexive(eng) && Engine.JudgeAdd(eng, cat, text).Accept?
    requires Rebuild.TargetsOf(Rebuild.ContextOf(eng, g, stripped, None), text) != []
    requires forall x :: x in stripped && !x.kind.ForeignKey? ==> x in Rebuild.TargetsOf(Rebuild.ContextOf(eng, g, stripped, None), text)
    requires e in g.fkEdges && e.parent == DdlText.ClassOf(text)
    requires FkDefine.FirstEdge(FkDefine.EdgeMap(g.fkEdges), DdlText.ClassOf(fk), DdlText.NamesOf(fk)) == Some(e)
    requires Engine.JudgeAdd(eng, Engine.AfterAddText(eng, cat, text), fk).Accept?
    ensures var ops := [Rebuild.KeyOp(text), Rebuild.KeyOp(text)];
      var whole := Rebuild.Phase(eng, g, stripped, None, cat, ops);
      var resumed := Rebuild.Phase(eng, g, stripped, Some(whole.cat), whole.cat, ops);
      && resumed.cat == whole.cat
      && e.Id() !in FkDefine.Phase(eng, g, whole.sum, keepGoing, None, whole.cat, [fk]).cat
      && e.Id() in FkDefine.Phase(eng, g, resumed.sum, keepGoing, None, resumed.cat, [fk]).cat
  {
    hide FkDefine.Phase, Rebuild.Phase, DdlText.NamesOf, DdlText.ClassEnd, RebuildLaws.IsWithheld, Engine.Judge;
    TwiceWithholds(eng, g, stripped, cat, text, e);
    TwiceResumed(eng, g, stripped, cat, text);
    var ops := [Rebuild.KeyOp(text), Rebuild.KeyOp(text)];
    var whole := Rebuild.Phase(eng, g, stripped, None, cat, ops);
    OneForeignKey(eng, g, whole.sum, keepGoing, whole.cat, fk, e);
    OneForeignKey(eng, g, Rebuild.Phase(eng, g, stripped, Some(whole.cat), whole.cat, ops).sum, keepGoing, whole.cat, fk, e);
  }

  lemma TwiceWithholds(eng: Engine.Engine, g: Graph, stripped: seq<Stripped>, cat: set<Key>, text: string, e: FkEdge)
    requires RebuildLaws.Reflexive(eng) && Engine.JudgeAdd(eng, cat, text).Accept?
    requires Rebuild.TargetsOf(Rebuild.ContextOf(eng, g, stripped, None), text) != []
    requires e in g.fkEdges && e.parent == DdlText.ClassOf(text)
    ensures var whole := Rebuild.Phase(eng, g, stripped, None, cat, [Rebuild.KeyOp(text), Rebuild.KeyOp(text)]);
      whole.cat == Engine.AfterAddText(eng, cat, text) && RebuildLaws.IsWithheld(whole.sum, e.Id())
  {
    hide Rebuild.Withhold, Rebuild.FailAll, RebuildLaws.IsWithheld, Rebuild.Targets, DdlText.ClassOf, Engine.AfterAddText,
         RebuildLaws.Shadowed, Rebuild.Reconcile, Rebuild.KeyOrder;
    var c, op := Rebuild.ContextOf(eng, g, stripped, None), Rebuild.KeyOp(text);
    var ops := [op, op];
    RebuildLaws.KeyMapIs(stripped);
    RebuildLaws.RunStep(c, Rebuild.Start(cat), ops, 0);
    RebuildLaws.RunStep(c, Rebuild.Start(cat), ops, 1);
    assert ops[..0] == [] && ops[..2] == ops;
    RunOfNothing(c, Rebuild.Start(cat));
    RebuildLaws.SecondTimeRejected(c, Rebuild.Start(cat), text);
    var st := Rebuild.Run(c, Rebuild.Start(cat), ops);
    RebuildLaws.RunCascades(c, cat, ops);
    RebuildLaws.ReconcileRecords(c, Rebuild.KeyOrder(stripped), Rebuild.Accounted(st.sum), st);
    RebuildLaws.ReconcileCascades(c, Rebuild.KeyOrder(stripped), Rebuild.Accounted(st.sum), st);
    var whole := Rebuild.Phase(eng, g, stripped, None, cat, ops);
    var p :| p in st.sum.pending && p.what.key.cls == e.parent;
    var i :| 0 <= i < |st.sum.pending| && st.sum.pending[i] == p;
    assert RebuildLaws.Whats(whole.sum.pending)[i] == RebuildLaws.Whats(st.sum.pending)[i] == p.what;
    assert whole.sum.pending[i] in whole.sum.pending && whole.sum.pending[i].what == p.what;
  }

  /** The guard finds both statements done: nothing is pending, so nothing is withheld. */
  lemma TwiceResumed(eng: Engine.Engine, g: Graph, stripped: seq<Stripped>, cat: set<Key>, text: string)
    requires RebuildLaws.Reflexive(eng) && Engine.JudgeAdd(eng, cat, text).Accept?
    requires Rebuild.TargetsOf(Rebuild.ContextOf(eng, g, stripped, None), text) != []
    requires forall x :: x in stripped && !x.kind.ForeignKey? ==> x in Rebuild.TargetsOf(Rebuild.ContextOf(eng, g, stripped, None), text)
    ensures var left := Engine.AfterAddText(eng, cat, text);
      var resumed := Rebuild.Phase(eng, g, stripped, Some(left), left, [Rebuild.KeyOp(text), Rebuild.KeyOp(text)]);
      resumed.cat == left && resumed.sum.withheld == []
  {
    hide Rebuild.Withhold, Rebuild.FailAll, Rebuild.Targets, Rebuild.KeyMap, Rebuild.KeyOrder, Rebuild.Reconcile,
         Rebuild.IndexStep, DdlText.ClassOf, DdlText.NamesOf;
    var left := Engine.AfterAddText(eng, cat, text);
    var none, c := Rebuild.ContextOf(eng, g, stripped, None), Rebuild.ContextOf(eng, g, stripped, Some(left));
    var op := Rebuild.KeyOp(text);
    var ops := [op, op];
    RebuildLaws.KeyMapIs(stripped);
    RebuildLaws.AcceptedTargetsHeld(none, cat, text);
    RebuildLaws.RunStep(c, Rebuild.Start(left), ops, 0);
    RebuildLaws.RunStep(c, Rebuild.Start(left), ops, 1);
    assert ops[..0] == [] && ops[..2] == ops;
    RunOfNothing(c, Rebuild.Start(left));
    var targets := Rebuild.TargetsOf(c, text);
    assert targets == Rebuild.TargetsOf(none, text);
    var st := Rebuild.Run(c, Rebuild.Start(left), ops);
    assert st.sum.rebuilt == [] + targets + targets && st.sum.withheld == [] && st.cat == left;
    var keys := Rebuild.KeyMap(stripped);
    forall k | k in keys ensures k in Rebuild.Accounted(st.sum) {
      assert keys[k].key == k;
      assert keys[k] in Rebuild.TargetsOf(none, text);
      assert keys[k] in [] + targets + targets;
    }
    Restore.NothingToReconcile(c, Rebuild.KeyOrder(stripped), Rebuild.Accounted(st.sum), st);
  }

  /** One accepted foreign key statement, over either record. */
  lemma OneForeignKey(eng: Engine.Engine, g: Graph, rebuilt: Rebuild.Summary, keepGoing: bool, cat: set<Key>, fk: string, e: FkEdge)
    requires RebuildLaws.Reflexive(eng) && Engine.JudgeAdd(eng, cat, fk).Accept?
    requires FkDefine.FirstEdge(FkDefine.EdgeMap(g.fkEdges), DdlText.ClassOf(fk), DdlText.NamesOf(fk)) == Some(e)
    ensures var st := FkDefine.Phase(eng, g, rebuilt, keepGoing, None, cat, [fk]);
      && (RebuildLaws.IsWithheld(rebuilt, e.Id()) ==> e.Id() !in st.cat)
      && (rebuilt.withheld == [] ==> e.Id() in st.cat)
  {
    hide FkDefine.EdgeMap, FkDefine.WithheldReasons, FkDefine.FirstEdge, Engine.JudgeAdd, Engine.AfterAddText,
         FkDefine.Reconcile, DdlText.NamesOf, DdlText.ClassOf, Rebuild.WithheldFk.Id, FkDefine.Define;
    var c := FkDefine.ContextOf(eng, g, rebuilt, keepGoing, None);
    forall k ensures k in c.edges ==> c.edges[k].Id() == k { FkLaws.EdgeMapIs(g.fkEdges, k); }
    FkLaws.AcceptedIsHeld(c, cat, fk, e);
    FkLaws.WithheldReasonsIs(rebuilt.withheld, e.Id());
    FkLaws.RunStep(c, FkDefine.Start(cat), [fk], 0);
    assert [fk][..0] == [] && [fk][..1] == [fk];
    assert FkDefine.Run(c, FkDefine.Start(cat), []) == FkDefine.Start(cat);
    FkDefine.ReconcileKeeps(g.fkEdges, FkDefine.Run(c, FkDefine.Start(cat), [fk]));
  }
}
