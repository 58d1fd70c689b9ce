/** Every state the crash/resume machine can reach: the marker is never ahead of the
    committed database and at most one phase behind, every re-entered phase ends where the
    uninterrupted one does, and any run that gets to the end has the uninterrupted result. */
module Convergence {
  import opened Schema
  import opened Dump
  import opened Resume
  import opened Pipeline
  import Engine
  import Inheritance
  import Strip
  import Rebuild
  import RebuildLaws
  import FkDefine
  import FkLaws
  import Restore

  // ----- the uninterrupted result -----

  function Snap(env: Env): Graph { env.snapshot(env.target.catalog) }

  function Srv(env: Env): Engine.Engine { Server(env, env.dumpRows) }

  ghost function Dropped(env: Env): seq<Stripped> { Strip.DropOrder(Snap(env)) }

  function Bare(env: Env): set<Key> { env.target.catalog - Strip.Snapshot(Snap(env)) }

  /** The statements of the dump; a source that cannot be read holds none the run gets to. */
  function Ops(env: Env): seq<Rebuild.Op> {
    match Rebuild.PhaseOps(env.roster, env.files)
    case None => []
    case Some(ops) => ops
  }

  function FkTexts(env: Env): seq<string> {
    match StatementsOf(env.files, FkFiles(env.roster))
    case None => []
    case Some(texts) => texts
  }

  ghost function Keyed(env: Env): Rebuild.State {
    Rebuild.Phase(Srv(env), Snap(env), Dropped(env), None, Bare(env), Ops(env))
  }

  ghost function Linked(env: Env): FkDefine.State {
    FkDefine.Phase(Srv(env), Snap(env), Keyed(env).sum, env.keepGoing, None, Keyed(env).cat, FkTexts(env))
  }

  function Fired(env: Env): Triggers { RunTriggers(env, false, Triggers({}, NO_TRIGGERS), env.triggers) }

  // ----- what is asked of the import -----

  /** The target starts out empty and the snapshot describes the schema defined in it. */
  ghost predicate World(env: Env, rank: string -> nat) {
    && !env.restart && !env.dryRun && Works(env)
    && Restore.Taken(Srv(env), Snap(env), rank, env.target.catalog)
    && env.target.rows == multiset{} && env.target.triggers == {}
    && (forall n :: n in Snap(env).nodes ==> n.name in env.target.classes)
    && (forall r :: r in env.dumpRows ==> exists n :: n in Snap(env).nodes && n.name == r.cls)
  }

  /** No rejected key or index operation names only constraints an interruption leaves in place. */
  ghost predicate RebuildRepeatable(env: Env) {
    var c := Rebuild.ContextOf(Srv(env), Snap(env), Dropped(env), None);
    && !RebuildLaws.AnyShadowed(c, Bare(env), Ops(env), Bare(env))
    && !RebuildLaws.AnyShadowed(c, Bare(env), Ops(env), Keyed(env).cat)
  }

  /** FK define over the statements whose edges the rebuild has not left in place. */
  ghost function Unguarded(env: Env): FkDefine.State {
    var c := FkDefine.ContextOf(Srv(env), Snap(env), Keyed(env).sum, env.keepGoing, None);
    FkDefine.Phase(Srv(env), Snap(env), Keyed(env).sum, env.keepGoing, None, Keyed(env).cat,
                   FkLaws.Unplaced(c, Keyed(env).cat, FkTexts(env)))
  }

  /** No rejected foreign key is one an interruption leaves in place; where the phase fails,
      the statements for edges the rebuild has not left in place fail by themselves. */
  ghost predicate DefineRepeatable(env: Env) {
    var c := FkDefine.ContextOf(Srv(env), Snap(env), Keyed(env).sum, env.keepGoing, None);
    if Linked(env).hard then Unguarded(env).hard
    else
      && !FkLaws.AnyShadowed(c, Keyed(env).cat, FkTexts(env), Keyed(env).cat)
      && !FkLaws.AnyShadowed(c, Keyed(env).cat, FkTexts(env), Linked(env).cat)
  }

  /** No trigger the server accepts is named twice. */
  ghost predicate AcceptedOnce(env: Env, names: seq<string>) {
    forall i, j :: 0 <= i < j < |names| && names[i] == names[j] ==> !env.triggerAccepted(names[i])
  }

  /** A dump whose phases can be entered again: what a re-entry takes for done is done. */
  ghost predicate Repeatable(env: Env) {
    RebuildRepeatable(env) && DefineRepeatable(env) && AcceptedOnce(env, env.triggers)
  }

  ghost predicate Importable(env: Env, rank: string -> nat) { World(env, rank) && Repeatable(env) }

  /** Nothing in the dump or the environment stops the uninterrupted run before its end. */
  ghost predicate GetsThrough(env: Env) {
    && env.loads && env.rosterOk(Snap(env))
    && Rebuild.PhaseOps(env.roster, env.files).Some? && StatementsOf(env.files, FkFiles(env.roster)).Some?
    && !Linked(env).hard && (Linked(env).sum.withheld == [] || env.artifactWritable)
  }

  /** The database an uninterrupted run leaves. */
  ghost function Final(env: Env): Db { Db(env.target.classes, Linked(env).cat, env.dumpRows, Fired(env).defs) }

  // ----- re-entered phases -----

  lemma StripReentered(env: Env, rank: string -> nat, cat: set<Key>, guard: Option<set<Key>>, rows: multiset<Row>)
    requires World(env, rank)
    requires (guard.None? && cat == env.target.catalog) || (guard == Some(cat) && (cat == env.target.catalog || cat == Bare(env)))
    ensures Strip.RunDrops(Server(env, rows), guard, cat, Dropped(env)) == Some(Bare(env))
  {
    hide Works, Strip.SnapshotOk, Strip.CatalogMatches, FkLaws.DistinctEdges, Strip.Snapshot, Strip.DropOrder,
         Engine.DropAccepted;
    var eng, order, full := Server(env, rows), Dropped(env), env.target.catalog;
    assert Engine.Inherits(eng, Snap(env).inheritEdges) by {
      assert forall k :: Srv(env).family(k) == eng.family(k);
    }
    Strip.StripSucceeds(eng, Snap(env), rank, full);
    assert order[..0] == [] && order[..|order|] == order;
    if guard.Some? {
      Strip.ResumedStrip(eng, full, order, if cat == full then 0 else |order|, |order|);
      if order == [] { assert Bare(env) == full; }
    }
  }

  lemma WorldIsReflexive(env: Env, rank: string -> nat)
    requires World(env, rank)
    ensures RebuildLaws.Reflexive(Srv(env))
  {
    hide Works, Strip.SnapshotOk, Strip.CatalogMatches, FkLaws.DistinctEdges, Srv;
  }

  lemma KeysAreRunCatalog(env: Env)
    ensures Keyed(env).cat
         == Rebuild.Run(Rebuild.ContextOf(Srv(env), Snap(env), Dropped(env), None), Rebuild.Start(Bare(env)), Ops(env)).cat
  {
    hide Rebuild.Run, Rebuild.Reconcile, Rebuild.ContextOf, Dropped, Bare, Ops, Srv, Snap, Rebuild.KeyOrder,
         Rebuild.Accounted, RebuildLaws.Whats, RebuildLaws.Unmatched;
    var c := Rebuild.ContextOf(Srv(env), Snap(env), Dropped(env), None);
    var run := Rebuild.Run(c, Rebuild.Start(Bare(env)), Ops(env));
    RebuildLaws.ReconcileRecords(c, Rebuild.KeyOrder(Dropped(env)), Rebuild.Accounted(run.sum), run);
  }

  /** Entered again with nothing or everything done: the uninterrupted catalog always, its
      record exactly when nothing rejected is in place. */
  lemma RebuildReentered(env: Env, rank: string -> nat, cat: set<Key>)
    requires World(env, rank) && (cat == Bare(env) || cat == Keyed(env).cat)
    ensures var st := Rebuild.Phase(Srv(env), Snap(env), Dropped(env), Some(cat), cat, Ops(env));
      var c := Rebuild.ContextOf(Srv(env), Snap(env), Dropped(env), None);
      && st.cat == Keyed(env).cat
      && (st.sum == Keyed(env).sum <==> !RebuildLaws.AnyShadowed(c, Bare(env), Ops(env), cat))
  {
    hide World, Dropped, Bare, Snap, Ops, Rebuild.Run, Rebuild.Phase, RebuildLaws.AnyShadowed, Rebuild.ContextOf, Srv;
    var eng, ops := Srv(env), Ops(env);
    WorldIsReflexive(env, rank);
    KeysAreRunCatalog(env);
    assert ops[..0] == [] && ops[..|ops|] == ops;
    RunOfNothing(Rebuild.ContextOf(eng, Snap(env), Dropped(env), None), Rebuild.Start(Bare(env)));
    RebuildLaws.ResumedRebuild(eng, Snap(env), Dropped(env), Bare(env), ops, if cat == Bare(env) then 0 else |ops|);
  }

  lemma RunOfNothing(c: Rebuild.Context, st: Rebuild.State)
    ensures Rebuild.Run(c, st, []) == st
  {
    hide Rebuild.Step;
  }

  /** What re-entering FK define over `cat` leaves. */
  function Relinked(env: Env, rebuilt: Rebuild.Summary, cat: set<Key>): FkDefine.State {
    FkDefine.Phase(Srv(env), Snap(env), rebuilt, env.keepGoing, Some(cat), cat, FkTexts(env))
  }

  /** The same for FK define, when the uninterrupted one does not fail. */
  lemma DefineReentered(env: Env, rank: string -> nat, cat: set<Key>)
    requires World(env, rank) && !Linked(env).hard && (cat == Keyed(env).cat || cat == Linked(env).cat)
    ensures var st := Relinked(env, Keyed(env).sum, cat);
      var c := FkDefine.ContextOf(Srv(env), Snap(env), Keyed(env).sum, env.keepGoing, None);
      var shadowed := FkLaws.AnyShadowed(c, Keyed(env).cat, FkTexts(env), cat);
      && (st.sum == Linked(env).sum && !st.hard <==> !shadowed)
      && (!shadowed ==> st.cat == Linked(env).cat)
      && (shadowed ==> Linked(env).sum.withheld != [])
  {
    hide World, Keyed, Srv, Snap, FkDefine.Phase, FkLaws.AnyShadowed, FkTexts, FkDefine.ContextOf;
    WorldIsReflexive(env, rank);
    FkLaws.ReenteredDefine(Srv(env), Snap(env), Keyed(env).sum, env.keepGoing, Keyed(env).cat, FkTexts(env), cat);
  }

  lemma ViolatedMeansOrphans(edges: seq<FkDefine.EdgeResult>)
    ensures ViolatedEdges(edges) > 0 ==> FkLaws.OrphansOf(edges) > 0
  {
  }

  /** A violated edge, counted live or read back, has its withheld record. */
  lemma ViolatedIsWithheld(eng: Engine.Engine, g: Graph, rebuilt: Rebuild.Summary, keepGoing: bool, guard: Option<set<Key>>,
                           cat: set<Key>, texts: seq<string>)
    ensures var st := FkDefine.Phase(eng, g, rebuilt, keepGoing, guard, cat, texts);
      st.val.violated > 0 || ViolatedEdges(st.val.edges) > 0 ==> st.sum.withheld != []
  {
    hide FkDefine.Phase;
    FkLaws.PhaseTallies(eng, g, rebuilt, keepGoing, guard, cat, texts);
    ViolatedMeansOrphans(FkDefine.Phase(eng, g, rebuilt, keepGoing, guard, cat, texts).val.edges);
  }

  // ----- the triggers -----

  /** How often an accepted name comes again. */
  function Repeats(env: Env, names: seq<string>): nat {
    if names == [] then 0
    else
      var init, last := names[..|names| - 1], names[|names| - 1];
      Repeats(env, init) + if env.triggerAccepted(last) && last in init then 1 else 0
  }

  lemma {:induction false} DefsAre(env: Env, names: seq<string>, n: string)
    ensures n in RunTriggers(env, false, Triggers({}, NO_TRIGGERS), names).defs <==> n in names && env.triggerAccepted(n)
  {
    if names != [] {
      assert names == names[..|names| - 1] + [names[|names| - 1]];
      DefsAre(env, names[..|names| - 1], n);
    }
  }

  /** Run again over none or all of the triggers it defines, the file counts each repetition
      as defined where the first run counts it as failed. */
  lemma {:induction false} TriggersRerun(env: Env, names: seq<string>, before: set<string>)
    requires before == {} || forall n :: n in names ==> (n in before <==> env.triggerAccepted(n))
    ensures var st := RunTriggers(env, true, Triggers(before, NO_TRIGGERS), names);
      var ref := RunTriggers(env, false, Triggers({}, NO_TRIGGERS), names);
      && st.defs == before + ref.defs
      && st.sum.failed + Repeats(env, names) == ref.sum.failed
      && st.sum.defined == ref.sum.defined + Repeats(env, names)
  {
    if names != [] {
      var init, last := names[..|names| - 1], names[|names| - 1];
      TriggersRerun(env, init, before);
      DefsAre(env, init, last);
    }
  }

  lemma {:induction false} RepeatsAre(env: Env, names: seq<string>)
    ensures Repeats(env, names) == 0 <==> AcceptedOnce(env, names)
  {
    if names != [] {
      var init, last := names[..|names| - 1], names[|names| - 1];
      RepeatsAre(env, init);
      assert forall i :: 0 <= i < |init| ==> init[i] == names[i];
      if last in init {
        var i :| 0 <= i < |init| && init[i] == last;
        assert names[i] == names[|names| - 1];
      }
    }
  }

  /** The trigger file re-run under the guard counts as the uninterrupted run does exactly when
      no accepted trigger is named twice. */
  lemma TriggersReentered(env: Env, triggers: set<string>)
    requires triggers == {} || triggers == Fired(env).defs
    ensures var st := RunTriggers(env, true, Triggers(triggers, NO_TRIGGERS), env.triggers);
      && st.defs == Fired(env).defs
      && (st.sum == Fired(env).sum <==> AcceptedOnce(env, env.triggers))
  {
    hide RunTriggers, AcceptedOnce;
    forall n | n in env.triggers ensures n in Fired(env).defs <==> env.triggerAccepted(n) { DefsAre(env, env.triggers, n); }
    TriggersRerun(env, env.triggers, triggers);
    RepeatsAre(env, env.triggers);
  }

  // ----- the invariant -----

  /** The uninterrupted run, as values: the catalog fully defined, stripped, with its keys
      rebuilt and with its foreign keys defined, and the record of each phase. When FK define
      fails (`hard`) the foreign keys stay out. Only when `exact` is asked are the records and the
      foreign keys held to it: a resumed run of a dump that is not repeatable has others, but goes
      through the same phases in the same order. */
  datatype Outcome = Outcome(database: string, prefix: string, classes: set<string>, graph: Graph, full: set<Key>, bare: set<Key>,
                             keyed: set<Key>, linked: set<Key>, rows: multiset<Row>, strip: seq<Stripped>,
                             rebuild: Rebuild.Summary, hard: bool, fkdefine: FkDefine.Summary, stats: seq<string>,
                             fired: Triggers, restored: bool, exact: bool)

  ghost function OutcomeOf(env: Env): Outcome {
    Outcome(env.roster.database, env.roster.prefix, env.target.classes, Snap(env), env.target.catalog, Bare(env),
            Keyed(env).cat, if Linked(env).hard then Keyed(env).cat else Linked(env).cat, env.dumpRows, Dropped(env), Keyed(env).sum,
            Linked(env).hard, Linked(env).sum, env.statsFailures, Fired(env),
            Restore.Restored(Snap(env), Linked(env).cat, Restore.Excused(Keyed(env).sum, Linked(env).sum)), true)
  }

  /** The same without its records: what every dump goes through, repeatable or not. */
  ghost function CourseOf(env: Env): Outcome { OutcomeOf(env).(exact := false) }

  /** What FK define may leave behind the rebuild. */
  predicate LinkedBy(o: Outcome, cat: set<Key>) { if o.exact then cat == o.linked else o.keyed <= cat }

  predicate SameRebuild(o: Outcome, sum: Rebuild.Summary) { o.exact ==> sum == o.rebuild }

  /** An FK record, over the catalog: the uninterrupted one, or one whose defined edges are there. */
  ghost predicate SameFk(o: Outcome, sum: FkDefine.Summary, edges: seq<FkDefine.EdgeResult>, cat: set<Key>) {
    if o.exact then !o.hard && sum == o.fkdefine && (ViolatedEdges(edges) > 0 ==> o.fkdefine.withheld != [])
    else FkLaws.DefinedIn(sum, cat)
  }

  predicate SameTriggers(o: Outcome, sum: TriggerRecord) { o.exact ==> sum == o.fired.sum }

  /** How far the committed catalog is, per marker: at the marker or one phase ahead. */
  predicate CatalogAt(o: Outcome, p: Phase, cat: set<Key>) {
    && (p == DEFINED ==> cat == o.full || cat == o.bare)
    && (p == STRIPPED ==> cat == o.bare)
    && (p == LOADED ==> cat == o.bare || cat == o.keyed)
    && (p == REBUILT ==> cat == o.keyed || LinkedBy(o, cat))
    && (p >= FK_DEFINED ==> LinkedBy(o, cat))
  }

  predicate RowsAt(o: Outcome, p: Phase, rows: multiset<Row>) {
    if p <= DEFINED then rows == multiset{} else if p == STRIPPED then rows <= o.rows else rows == o.rows
  }

  predicate TriggersAt(o: Outcome, p: Phase, triggers: set<string>) {
    && (DEFINED <= p <= FK_DEFINED ==> triggers == {})
    && (p == STATS_UPDATED ==> triggers == {} || triggers == o.fired.defs)
    && (p == DONE ==> triggers == o.fired.defs)
  }

  /** The manifest holds the uninterrupted run's records up to its marker. */
  ghost predicate RecordsAt(o: Outcome, m: Manifest, cat: set<Key>) {
    && m.database == o.database && m.prefix == o.prefix
    && (m.graph.None? || m.graph == Some(o.graph))
    && (m.reached >= STRIPPED ==> m.graph.Some? && m.strip == Some(o.strip))
    && (m.reached >= LOADED ==> m.load == Some(|o.rows|))
    && (m.reached >= REBUILT ==> m.rebuild.Some? && SameRebuild(o, m.rebuild.value))
    && (m.reached >= FK_DEFINED ==>
          m.fkdefine.Some? && m.validate.Some? && SameFk(o, m.fkdefine.value, m.validate.value.edges, cat))
    && (m.reached >= STATS_UPDATED ==> m.stats == Some(o.stats))
    && (m.reached >= DONE ==> m.triggers.Some? && SameTriggers(o, m.triggers.value))
  }

  ghost predicate Durable(o: Outcome, db: Db, man: Option<Manifest>) {
    match man
    case None => db.rows == multiset{}
    case Some(m) =>
      && RecordsAt(o, m, db.catalog)
      && CatalogAt(o, m.reached, db.catalog) && RowsAt(o, m.reached, db.rows) && TriggersAt(o, m.reached, db.triggers)
      && (m.reached != DISCOVERED ==> db.classes == o.classes)
      && (m.reached == DEFINED && m.graph.None? ==> db.catalog == o.full)
  }

  /** The records in memory are those of the uninterrupted run up to phase `p`. */
  ghost predicate Held(o: Outcome, mem: Mem, p: Phase, cat: set<Key>) {
    && mem.graph == o.graph
    && (p >= STRIPPED ==> mem.strip == o.strip)
    && (p >= LOADED ==> mem.load == |o.rows|)
    && (p >= REBUILT ==> SameRebuild(o, mem.rebuild))
    && (p >= FK_DEFINED ==> SameFk(o, mem.fkdefine, mem.validate.edges, cat))
    && (p >= STATS_UPDATED ==> mem.stats == o.stats)
    && (p >= DONE ==> SameTriggers(o, mem.triggers))
  }

  /** A phase is entered either under the guard, with the catalog it was read from, or
      right after its predecessor in the same process. */
  predicate Entered(mem: Mem, db: Db, p: Phase, expected: set<Key>) {
    if ResumedAt(mem, p) then mem.present == db.catalog else db.catalog == expected
  }

  /** No re-entered phase lies ahead of this process. */
  predicate Past(mem: Mem, p: Phase) { mem.from.None? || mem.from.value < p }

  ghost predicate AtDefine(o: Outcome, db: Db, man: Option<Manifest>, pc: Pc, mem: Mem) {
    match pc
    case Preserve => mem.from.None? && !mem.hasGraph && MarkedAt(man, DISCOVERED)
    case WriteDiscovered => mem.from.None? && !mem.hasGraph && man.None?
    case Define => mem.from.None? && !mem.hasGraph && MarkedAt(man, DISCOVERED)
    case WriteDefined =>
      && mem.from.None? && !mem.hasGraph && MarkedAt(man, DISCOVERED)
      && db == Db(o.classes, o.full, multiset{}, {}) && mem.work == db
    case TakeGraph =>
      && (if mem.hasGraph then mem.graph == o.graph else mem.work.catalog == db.catalog == o.full)
      && (if mem.from.None? then MarkedAt(man, DEFINED) && db.catalog == o.full && !mem.hasGraph
          else MarkedAt(man, mem.from.value) && (mem.from.value > DEFINED ==> mem.hasGraph))
      && (mem.from.Some? ==> Held(o, mem.(graph := o.graph), mem.from.value, db.catalog))
    case WriteGraph =>
      Held(o, mem, DEFINED, db.catalog) && MarkedAt(man, DEFINED) && if mem.from.None? then db.catalog == o.full else ResumedAt(mem, DEFINED)
    case WritePlan =>
      Held(o, mem, DEFINED, db.catalog) && MarkedAt(man, DEFINED) && if mem.from.None? then db.catalog == o.full else ResumedAt(mem, DEFINED)
    case Verify => mem.from.Some? && Held(o, mem, mem.from.value, db.catalog) && MarkedAt(man, mem.from.value) && man.value.graph.Some?
    case _ => true
  }

  ghost predicate AtStrip(o: Outcome, db: Db, man: Option<Manifest>, pc: Pc, mem: Mem) {
    && MarkedAt(man, DEFINED) && man.value.graph.Some? && Past(mem, STRIPPED)
    && match pc
       case StripWork => Held(o, mem, DEFINED, db.catalog) && Entered(mem, db, DEFINED, o.full)
       case StripCommit => Held(o, mem, STRIPPED, db.catalog) && mem.work == db.(catalog := o.bare)
       case WriteStripped => Held(o, mem, STRIPPED, db.catalog) && db.catalog == o.bare
       case _ => true
  }

  ghost predicate AtLoad(o: Outcome, db: Db, man: Option<Manifest>, pc: Pc, mem: Mem) {
    && MarkedAt(man, STRIPPED)
    && match pc
       case TruncateWork => Held(o, mem, STRIPPED, db.catalog) && ResumedAt(mem, STRIPPED)
       case TruncateCommit => Held(o, mem, STRIPPED, db.catalog) && ResumedAt(mem, STRIPPED) && mem.work == db.(rows := multiset{})
       case Loading(left) => Held(o, mem, STRIPPED, db.catalog) && Past(mem, LOADED) && db.rows + left == o.rows
       case WriteLoaded => Held(o, mem, LOADED, db.catalog) && Past(mem, LOADED) && db.rows == o.rows
       case _ => true
  }

  ghost predicate AtRebuild(o: Outcome, db: Db, man: Option<Manifest>, pc: Pc, mem: Mem) {
    && MarkedAt(man, LOADED) && Past(mem, REBUILT)
    && match pc
       case RebuildWork => Held(o, mem, LOADED, db.catalog) && Entered(mem, db, LOADED, o.bare)
       case RebuildCommit => Held(o, mem, REBUILT, db.catalog) && mem.work == db.(catalog := o.keyed)
       case WriteRebuilt => Held(o, mem, REBUILT, db.catalog) && db.catalog == o.keyed
       case _ => true
  }

  ghost predicate AtFk(o: Outcome, db: Db, man: Option<Manifest>, pc: Pc, mem: Mem) {
    && MarkedAt(man, REBUILT) && Past(mem, FK_DEFINED)
    && match pc
       case FkWork => Held(o, mem, REBUILT, db.catalog) && Entered(mem, db, REBUILT, o.keyed)
       case FkCommit =>
         && Held(o, mem, FK_DEFINED, mem.work.catalog) && LinkedBy(o, mem.work.catalog)
         && mem.work == db.(catalog := mem.work.catalog)
       case WriteFk => Held(o, mem, FK_DEFINED, db.catalog) && LinkedBy(o, db.catalog)
       case _ => true
  }

  ghost predicate AtStats(o: Outcome, db: Db, man: Option<Manifest>, pc: Pc, mem: Mem) {
    MarkedAt(man, FK_DEFINED) && Past(mem, STATS_UPDATED) && Held(o, mem, if pc.StatsWork? then FK_DEFINED else STATS_UPDATED, db.catalog)
  }

  ghost predicate AtLast(o: Outcome, db: Db, man: Option<Manifest>, pc: Pc, mem: Mem) {
    && MarkedAt(man, if pc.Close? then DONE else STATS_UPDATED) && Held(o, mem, if pc.TriggerWork? then STATS_UPDATED else DONE, db.catalog)
    && match pc
       case TriggerWork => ResumedAt(mem, STATS_UPDATED) || db.triggers == {}
       case TriggerCommit => mem.work == db.(triggers := o.fired.defs)
       case CheckCatalog => db.triggers == o.fired.defs
       case WriteDone => db.triggers == o.fired.defs && (o.exact ==> mem.restored == o.restored)
       case Close => o.exact ==> mem.restored == o.restored
       case _ => true
  }

  predicate Sound(o: Outcome, mem: Mem) {
    && (o.exact && mem.violated ==> o.fkdefine.withheld != [])
    && (mem.from.Some? ==> mem.from.value != DISCOVERED && mem.from.value != DONE)
  }

  ghost predicate InProcess(o: Outcome, db: Db, man: Option<Manifest>, pc: Pc, mem: Mem) {
    Sound(o, mem)
    && match StageOf(pc)
       case Defining => AtDefine(o, db, man, pc, mem)
       case Stripping => AtStrip(o, db, man, pc, mem)
       case LoadingRows => AtLoad(o, db, man, pc, mem)
       case Rebuilding => AtRebuild(o, db, man, pc, mem)
       case Linking => AtFk(o, db, man, pc, mem)
       case Refreshing => AtStats(o, db, man, pc, mem)
       case Finishing => AtLast(o, db, man, pc, mem)
  }

  ghost predicate Inv(o: Outcome, s: State) {
    Durable(o, s.db, s.man) && (s.proc.Running? ==> InProcess(o, s.db, s.man, s.proc.pc, s.proc.mem))
  }

  /** The command and the world the outcome is about. */
  predicate Setting(env: Env, o: Outcome) {
    && !env.restart && !env.dryRun
    && env.roster.database == o.database && env.roster.prefix == o.prefix
    && env.target == Db(o.classes, o.full, multiset{}, {}) && env.snapshot(o.full) == o.graph
    && env.dumpRows == o.rows && env.statsFailures == o.stats
  }

  /** Where a phase's work is due, it yields the uninterrupted outcome. */
  predicate RebuildFit(o: Outcome, st: Option<Rebuild.State>) {
    st.Some? ==> st.value.cat == o.keyed && SameRebuild(o, st.value.sum)
  }

  ghost predicate FkFit(o: Outcome, st: Option<FkDefine.State>) {
    st.Some? ==>
      && (o.exact ==> st.value.hard == o.hard && (!o.hard && st.value.val.violated > 0 ==> o.fkdefine.withheld != []))
      && (!st.value.hard ==> LinkedBy(o, st.value.cat) && SameFk(o, st.value.sum, st.value.val.edges, st.value.cat))
  }

  predicate TriggersFitted(o: Outcome, t: Triggers) { t.defs == o.fired.defs && SameTriggers(o, t.sum) }

  ghost predicate WorkFits(env: Env, o: Outcome, s: State) {
    match s.proc
    case Running(pc, mem) =>
      && (pc.StripWork? ==> env.work.strip(s.db, mem) == Some(o.bare) && env.work.order(mem.graph) == o.strip)
      && (pc.TruncateWork? ==> env.work.emptied(s.db, mem) == multiset{})
      && (pc.RebuildWork? ==> RebuildFit(o, env.work.rebuild(s.db, mem)))
      && (pc.FkWork? ==> FkFit(o, env.work.fk(s.db, mem)))
      && (pc.TriggerWork? ==> TriggersFitted(o, env.work.triggers(s.db, mem)))
      && (pc.CheckCatalog? && o.exact ==> env.work.restored(s.db, mem) == o.restored)
    case _ => true
  }

  // ----- every step keeps it -----

  lemma RecordHeld(env: Env, o: Outcome, mem: Mem, p: Phase, cat: set<Key>)
    requires Setting(env, o) && Held(o, mem, p, cat)
    ensures RecordsAt(o, Record(env, p, mem), cat) && Record(env, p, mem).reached == p && Record(env, p, mem).graph.Some?
    ensures RecordsAt(o, Record(env, p, mem).(plan := None), cat)
  {
    hide SameRebuild, SameFk;
  }

  /** A manifest write at the end of a phase. */
  lemma WriteKeeps(env: Env, o: Outcome, db: Db, mem: Mem, p: Phase)
    requires Setting(env, o) && Held(o, mem, p, db.catalog) && p != DISCOVERED && db.classes == o.classes
    requires CatalogAt(o, p, db.catalog) && RowsAt(o, p, db.rows) && TriggersAt(o, p, db.triggers)
    ensures Durable(o, db, Some(Record(env, p, mem))) && Record(env, p, mem).reached == p && Record(env, p, mem).graph.Some?
    ensures Durable(o, db, Some(Record(env, p, mem).(plan := None)))
  {
    hide Record, Held, RecordsAt, Setting, CatalogAt;
    RecordHeld(env, o, mem, p, db.catalog);
  }

  /** The database a phase has committed is the one its marker stands for. */
  lemma Ready(o: Outcome, db: Db, man: Option<Manifest>, p: Phase)
    requires p >= STRIPPED && MarkedAt(man, p - 1) && Durable(o, db, man)
    requires (p == STRIPPED ==> db.catalog == o.bare) && (p == LOADED ==> db.rows == o.rows)
    requires (p == REBUILT ==> db.catalog == o.keyed) && (p == FK_DEFINED ==> LinkedBy(o, db.catalog))
    requires p == DONE ==> db.triggers == o.fired.defs
    ensures CatalogAt(o, p, db.catalog) && RowsAt(o, p, db.rows) && TriggersAt(o, p, db.triggers) && db.classes == o.classes
  {
    hide RecordsAt;
  }

  /** Before the foreign keys are marked, the records say nothing of the catalog. */
  lemma RecordsMove(o: Outcome, m: Manifest, cat: set<Key>, cat': set<Key>)
    requires RecordsAt(o, m, cat) && m.reached < FK_DEFINED
    ensures RecordsAt(o, m, cat')
  {
    hide SameRebuild;
  }

  /** The records a resumed run restores are those it found. */
  lemma RestoredHeld(o: Outcome, db: Db, m: Manifest)
    requires RecordsAt(o, m, db.catalog) && m.reached != DONE
    ensures Held(o, ResumedMem(db, m).(graph := o.graph), m.reached, db.catalog)
  {
    if m.reached >= FK_DEFINED { ReadBackViolations(m.validate.value); }
  }

  lemma ReadBackViolations(v: FkDefine.Validation)
    ensures ReadBack(v).edges == v.edges
  {
  }

  lemma EndKeeps(o: Outcome, s: State, s': State)
    requires Inv(o, s) && s'.db == s.db && s'.man == s.man && !s'.proc.Running?
    ensures Inv(o, s')
  {
    hide Durable, InProcess;
  }

  lemma BeginKeeps(env: Env, o: Outcome, s: State)
    requires Setting(env, o) && Inv(o, s) && !s.proc.Running?
    ensures Inv(o, Begin(env, s))
  {
    hide AtStrip, AtLoad, AtRebuild, AtFk, AtStats, AtLast, InProcess, ViolatedEdges, Held, RowsAt;
    var s' := Begin(env, s);
    if s'.proc.Running? {
      if Decide(env, s.man).Resume? { RestoredHeld(o, s.db, s.man.value); }
      DefineStands(o, s', s'.proc.pc, s'.proc.mem);
    }
  }

  // What the invariant says, stage by stage.

  lemma DefineStands(o: Outcome, s: State, pc: Pc, mem: Mem)
    requires s.proc == Running(pc, mem)
    requires pc.Preserve? || pc.WriteDiscovered? || pc.Define? || pc.WriteDefined? || pc.TakeGraph? || pc.WriteGraph?
          || pc.WritePlan? || pc.Verify?
    ensures Inv(o, s) <==> Durable(o, s.db, s.man) && Sound(o, mem) && AtDefine(o, s.db, s.man, pc, mem)
  {
    hide AtDefine, AtStrip, AtLoad, AtRebuild, AtFk, AtStats, AtLast, Durable, Sound;
  }

  lemma StripStands(o: Outcome, s: State, pc: Pc, mem: Mem)
    requires s.proc == Running(pc, mem)
    requires pc.StripWork? || pc.StripCommit? || pc.WriteStripped?
    ensures Inv(o, s) <==> Durable(o, s.db, s.man) && Sound(o, mem) && AtStrip(o, s.db, s.man, pc, mem)
  {
    hide AtDefine, AtStrip, AtLoad, AtRebuild, AtFk, AtStats, AtLast, Durable, Sound;
  }

  lemma LoadStands(o: Outcome, s: State, pc: Pc, mem: Mem)
    requires s.proc == Running(pc, mem)
    requires pc.TruncateWork? || pc.TruncateCommit? || pc.Loading? || pc.WriteLoaded?
    ensures Inv(o, s) <==> Durable(o, s.db, s.man) && Sound(o, mem) && AtLoad(o, s.db, s.man, pc, mem)
  {
    hide AtDefine, AtStrip, AtLoad, AtRebuild, AtFk, AtStats, AtLast, Durable, Sound;
  }

  lemma RebuildStands(o: Outcome, s: State, pc: Pc, mem: Mem)
    requires s.proc == Running(pc, mem)
    requires pc.RebuildWork? || pc.RebuildCommit? || pc.WriteRebuilt?
    ensures Inv(o, s) <==> Durable(o, s.db, s.man) && Sound(o, mem) && AtRebuild(o, s.db, s.man, pc, mem)
  {
    hide AtDefine, AtStrip, AtLoad, AtRebuild, AtFk, AtStats, AtLast, Durable, Sound;
  }

  lemma FkStands(o: Outcome, s: State, pc: Pc, mem: Mem)
    requires s.proc == Running(pc, mem)
    requires pc.FkWork? || pc.FkCommit? || pc.WriteFk?
    ensures Inv(o, s) <==> Durable(o, s.db, s.man) && Sound(o, mem) && AtFk(o, s.db, s.man, pc, mem)
  {
    hide AtDefine, AtStrip, AtLoad, AtRebuild, AtFk, AtStats, AtLast, Durable, Sound;
  }

  lemma StatsStands(o: Outcome, s: State, pc: Pc, mem: Mem)
    requires s.proc == Running(pc, mem)
    requires pc.StatsWork? || pc.WriteStats?
    ensures Inv(o, s) <==> Durable(o, s.db, s.man) && Sound(o, mem) && AtStats(o, s.db, s.man, pc, mem)
  {
    hide AtDefine, AtStrip, AtLoad, AtRebuild, AtFk, AtStats, AtLast, Durable, Sound;
  }

  lemma LastStands(o: Outcome, s: State, pc: Pc, mem: Mem)
    requires s.proc == Running(pc, mem)
    requires pc.TriggerWork? || pc.TriggerCommit? || pc.CheckCatalog? || pc.WriteDone? || pc.Close?
    ensures Inv(o, s) <==> Durable(o, s.db, s.man) && Sound(o, mem) && AtLast(o, s.db, s.man, pc, mem)
  {
    hide AtDefine, AtStrip, AtLoad, AtRebuild, AtFk, AtStats, AtLast, Durable, Sound;
  }

  lemma DefineKeeps(env: Env, o: Outcome, s: State, pc: Pc, mem: Mem)
    requires Setting(env, o) && s.proc == Running(pc, mem) && StageOf(pc).Defining? && Inv(o, s)
    ensures Inv(o, DefineSteps(env, s, pc, mem))
  {
    hide Inv, Setting, DefineSteps;
    match pc
    case TakeGraph => TakeGraphKeeps(env, o, s, mem);
    case Verify => VerifyKeeps(env, o, s, mem);
    case WriteGraph => PlanKeeps(env, o, s, pc, mem);
    case WritePlan => PlanKeeps(env, o, s, pc, mem);
    case _ => EarlyKeeps(env, o, s, pc, mem);
  }

  lemma EarlyKeeps(env: Env, o: Outcome, s: State, pc: Pc, mem: Mem)
    requires Setting(env, o) && s.proc == Running(pc, mem) && Inv(o, s)
    requires pc.Preserve? || pc.WriteDiscovered? || pc.Define? || pc.WriteDefined?
    ensures Inv(o, DefineSteps(env, s, pc, mem))
  {
    hide AtStrip, AtLoad, AtRebuild, AtFk, AtStats, AtLast, Inv, InProcess, Record, TargetMatches, ViolatedEdges;
    DefineStands(o, s, pc, mem);
    var s' := DefineSteps(env, s, pc, mem);
    if s'.proc.Running? { DefineStands(o, s', s'.proc.pc, s'.proc.mem); } else { EndKeeps(o, s, s'); }
  }

  lemma PlanKeeps(env: Env, o: Outcome, s: State, pc: Pc, mem: Mem)
    requires Setting(env, o) && s.proc == Running(pc, mem) && (pc.WriteGraph? || pc.WritePlan?) && Inv(o, s)
    ensures Inv(o, DefineSteps(env, s, pc, mem))
  {
    hide AtLoad, AtRebuild, AtFk, AtStats, AtLast, Inv, InProcess, Record, RecordsAt, TargetMatches, ViolatedEdges, Held;
    DefineStands(o, s, pc, mem);
    WriteKeeps(env, o, s.db, mem, DEFINED);
    var s' := DefineSteps(env, s, pc, mem);
    if s'.proc.pc.StripWork? { StripStands(o, s', StripWork, mem); } else { DefineStands(o, s', s'.proc.pc, mem); }
  }

  lemma TakeGraphKeeps(env: Env, o: Outcome, s: State, mem: Mem)
    requires Setting(env, o) && s.proc == Running(TakeGraph, mem) && Inv(o, s)
    ensures Inv(o, DefineSteps(env, s, TakeGraph, mem))
  {
    hide AtStrip, AtLoad, AtRebuild, AtFk, AtStats, AtLast, Inv, InProcess, Record, TargetMatches, ViolatedEdges, RowsAt;
    DefineStands(o, s, TakeGraph, mem);
    var s' := DefineSteps(env, s, TakeGraph, mem);
    if s'.proc.Running? { DefineStands(o, s', s'.proc.pc, s'.proc.mem); } else { EndKeeps(o, s, s'); }
  }

  lemma VerifyKeeps(env: Env, o: Outcome, s: State, mem: Mem)
    requires Setting(env, o) && s.proc == Running(Verify, mem) && Inv(o, s)
    ensures Inv(o, DefineSteps(env, s, Verify, mem))
  {
    hide Inv, InProcess, RecordsAt, TargetMatches, ViolatedEdges, Setting, Durable;
    DefineStands(o, s, Verify, mem);
    var s' := DefineSteps(env, s, Verify, mem);
    if !s'.proc.Running? {
      EndKeeps(o, s, s');
    } else {
      var mem' := mem.(present := s.db.catalog);
      match mem.from.value
      case 1 => StripStands(o, s', StripWork, mem');
      case 2 => LoadStands(o, s', TruncateWork, mem');
      case 3 => RebuildStands(o, s', RebuildWork, mem');
      case 4 => FkStands(o, s', FkWork, mem');
      case 5 => StatsStands(o, s', StatsWork, mem');
      case _ => LastStands(o, s', TriggerWork, mem');
    }
  }

  lemma StripKeeps(env: Env, o: Outcome, s: State, pc: Pc, mem: Mem, after: Option<set<Key>>, order: seq<Stripped>)
    requires Setting(env, o) && s.proc == Running(pc, mem) && StageOf(pc).Stripping? && Inv(o, s)
    requires pc.StripWork? ==> after == Some(o.bare) && order == o.strip
    ensures Inv(o, StripSteps(env, s, pc, mem, after, order))
  {
    hide AtDefine, AtRebuild, AtFk, AtStats, AtLast, Inv, InProcess, Record, RecordsAt, ViolatedEdges, TriggersAt, SameFk;
    StripStands(o, s, pc, mem);
    var s' := StripSteps(env, s, pc, mem, after, order);
    if pc.WriteStripped? {
      Ready(o, s.db, s.man, STRIPPED);
      WriteKeeps(env, o, s.db, mem, STRIPPED);
      LoadStands(o, s', Loading(env.dumpRows), mem);
    } else {
      RecordsMove(o, s.man.value, s.db.catalog, s'.db.catalog);
      StripStands(o, s', s'.proc.pc, s'.proc.mem);
    }
  }

  lemma LoadKeeps(env: Env, o: Outcome, s: State, pc: Pc, mem: Mem, emptied: multiset<Row>)
    requires Setting(env, o) && s.proc == Running(pc, mem) && StageOf(pc).LoadingRows? && Inv(o, s)
    requires pc.TruncateWork? ==> emptied == multiset{}
    ensures Inv(o, LoadSteps(env, s, pc, mem, emptied))
  {
    hide AtDefine, AtStrip, AtFk, AtStats, AtLast, Inv, InProcess, Record, RecordsAt, ViolatedEdges;
    LoadStands(o, s, pc, mem);
    var s' := LoadSteps(env, s, pc, mem, emptied);
    if pc.WriteLoaded? {
      Ready(o, s.db, s.man, LOADED);
      WriteKeeps(env, o, s.db, mem, LOADED);
      RebuildStands(o, s', RebuildWork, mem);
    } else if s'.proc.Running? {
      LoadStands(o, s', s'.proc.pc, s'.proc.mem);
    } else {
      EndKeeps(o, s, s');
    }
  }

  lemma RebuildKeeps(env: Env, o: Outcome, s: State, pc: Pc, mem: Mem, st: Option<Rebuild.State>)
    requires Setting(env, o) && s.proc == Running(pc, mem) && StageOf(pc).Rebuilding? && Inv(o, s)
    requires pc.RebuildWork? ==> RebuildFit(o, st)
    ensures Inv(o, RebuildSteps(env, s, pc, mem, st))
  {
    hide AtDefine, AtStrip, AtLoad, AtStats, AtLast, Inv, InProcess, Record, RecordsAt, ViolatedEdges, Setting, LinkedBy,
         RowsAt;
    RebuildStands(o, s, pc, mem);
    var s' := RebuildSteps(env, s, pc, mem, st);
    if pc.WriteRebuilt? {
      Ready(o, s.db, s.man, REBUILT);
      WriteKeeps(env, o, s.db, mem, REBUILT);
      FkStands(o, s', FkWork, mem);
    } else if s'.proc.Running? {
      RecordsMove(o, s.man.value, s.db.catalog, s'.db.catalog);
      RebuildStands(o, s', s'.proc.pc, s'.proc.mem);
    } else {
      EndKeeps(o, s, s');
    }
  }

  lemma FkKeeps(env: Env, o: Outcome, s: State, pc: Pc, mem: Mem, st: Option<FkDefine.State>)
    requires Setting(env, o) && s.proc == Running(pc, mem) && StageOf(pc).Linking? && Inv(o, s)
    requires pc.FkWork? ==> FkFit(o, st)
    ensures Inv(o, FkSteps(env, s, pc, mem, st))
  {
    hide AtDefine, AtStrip, AtLoad, AtRebuild, AtLast, Inv, InProcess, Record, RecordsAt, ViolatedEdges, Setting, RowsAt,
         TriggersAt;
    FkStands(o, s, pc, mem);
    var s' := FkSteps(env, s, pc, mem, st);
    if pc.WriteFk? {
      Ready(o, s.db, s.man, FK_DEFINED);
      WriteKeeps(env, o, s.db, mem, FK_DEFINED);
      StatsStands(o, s', StatsWork, mem);
    } else if s'.proc.Running? {
      RecordsMove(o, s.man.value, s.db.catalog, s'.db.catalog);
      FkStands(o, s', s'.proc.pc, s'.proc.mem);
    } else {
      EndKeeps(o, s, s');
    }
  }

  lemma StatsKeeps(env: Env, o: Outcome, s: State, pc: Pc, mem: Mem)
    requires Setting(env, o) && s.proc == Running(pc, mem) && StageOf(pc).Refreshing? && Inv(o, s)
    ensures Inv(o, StatsSteps(env, s, pc, mem))
  {
    hide AtDefine, AtStrip, AtLoad, AtRebuild, AtFk, Inv, InProcess, Record, RecordsAt, ViolatedEdges, CatalogAt;
    StatsStands(o, s, pc, mem);
    var s' := StatsSteps(env, s, pc, mem);
    if pc.WriteStats? {
      Ready(o, s.db, s.man, STATS_UPDATED);
      WriteKeeps(env, o, s.db, mem, STATS_UPDATED);
      LastStands(o, s', TriggerWork, mem);
    } else {
      StatsStands(o, s', WriteStats, s'.proc.mem);
    }
  }

  lemma LastKeeps(env: Env, o: Outcome, s: State, pc: Pc, mem: Mem, t: Triggers, restored: bool)
    requires Setting(env, o) && s.proc == Running(pc, mem) && StageOf(pc).Finishing? && Inv(o, s)
    requires pc.TriggerWork? ==> TriggersFitted(o, t)
    requires pc.CheckCatalog? && o.exact ==> restored == o.restored
    ensures Inv(o, LastSteps(env, s, pc, mem, t, restored))
  {
    hide AtDefine, AtStrip, AtLoad, AtRebuild, AtFk, AtStats, Inv, InProcess, Record, RecordsAt, CatalogAt, RowsAt, Verdict, ViolatedEdges;
    LastStands(o, s, pc, mem);
    var s' := LastSteps(env, s, pc, mem, t, restored);
    if pc.WriteDone? {
      Ready(o, s.db, s.man, DONE);
      WriteKeeps(env, o, s.db, mem, DONE);
    }
    if s'.proc.Running? { LastStands(o, s', s'.proc.pc, s'.proc.mem); } else { EndKeeps(o, s, s'); }
  }

  // ----- the work of each phase -----

  /** `o` is the uninterrupted outcome of this import, whether or not its records are asked. */
  ghost predicate Portrayed(env: Env, rank: string -> nat, o: Outcome) {
    World(env, rank) && o == OutcomeOf(env).(exact := o.exact)
  }

  /** They are. */
  ghost predicate Described(env: Env, rank: string -> nat, o: Outcome) { World(env, rank) && o == OutcomeOf(env) }

  /** And its phases can be entered again. */
  ghost predicate Importing(env: Env, rank: string -> nat, o: Outcome) { Described(env, rank, o) && Repeatable(env) }

  /** What every step keeps: the records only over a repeatable dump. */
  ghost predicate Followed(env: Env, rank: string -> nat, o: Outcome) {
    Portrayed(env, rank, o) && (o.exact ==> Repeatable(env))
  }

  lemma ExactIs(env: Env, rank: string -> nat, o: Outcome)
    requires Portrayed(env, rank, o)
    ensures o.exact <==> Described(env, rank, o)
  {
    hide World, Keyed, Linked, Fired, Bare, Dropped, Snap, Restore.Restored, Restore.Excused;
  }

  lemma IsExact(env: Env, rank: string -> nat, o: Outcome)
    requires Described(env, rank, o)
    ensures Portrayed(env, rank, o) && o.exact
  {
    hide World, Keyed, Linked, Fired, Bare, Dropped, Snap, Restore.Restored, Restore.Excused;
  }

  lemma OutcomeFits(env: Env, rank: string -> nat, o: Outcome)
    requires Portrayed(env, rank, o)
    ensures Setting(env, o)
  {
    hide Works, Restore.Taken, Keyed, Linked, Fired, Bare, Dropped, Restore.Restored, Restore.Excused, Srv;
  }

  lemma WorldWorks(env: Env, rank: string -> nat)
    requires World(env, rank)
    ensures Works(env)
  {
    hide Works, Restore.Taken;
  }

  lemma StripFits(env: Env, rank: string -> nat, o: Outcome, db: Db, mem: Mem)
    requires Portrayed(env, rank, o) && mem.graph == o.graph && Entered(mem, db, DEFINED, o.full)
    requires db.catalog == o.full || db.catalog == o.bare
    ensures env.work.strip(db, mem) == Some(o.bare) && env.work.order(mem.graph) == o.strip
  {
    hide World, Keyed, Linked, Fired, Works, RebuildOutcome, FkOutcome, TriggerOutcome, CheckOutcome, Strip.RunDrops,
         Strip.DropOrder, Restore.Excused, Strip.Entries, EmptiedOutcome;
    StripReentered(env, rank, db.catalog, Guard(mem, DEFINED), db.rows);
    WorldWorks(env, rank);
    WorkIs(env, db, mem);
  }

  lemma TruncateFits(env: Env, rank: string -> nat, o: Outcome, db: Db, mem: Mem)
    requires Portrayed(env, rank, o) && mem.graph == o.graph && db.rows <= o.rows
    ensures env.work.emptied(db, mem) == multiset{}
  {
    hide Restore.Taken, Keyed, Linked, Fired, Bare, Dropped, Restore.Restored, Restore.Excused, Works, StripOutcome,
         RebuildOutcome, FkOutcome, TriggerOutcome, CheckOutcome, Strip.DropOrder;
    WorldWorks(env, rank);
    WorkIs(env, db, mem);
    var left := AfterTruncate(mem.graph.nodes, db.rows);
    forall r ensures left[r] == 0 {
      if r in db.rows { assert r in o.rows; }
    }
  }

  lemma RebuildFits(env: Env, rank: string -> nat, o: Outcome, db: Db, mem: Mem)
    requires Portrayed(env, rank, o) && mem.graph == o.graph && mem.strip == o.strip && db.rows == o.rows
    requires Entered(mem, db, LOADED, o.bare) && (db.catalog == o.bare || db.catalog == o.keyed)
    requires o.exact && ResumedAt(mem, LOADED) ==> Repeatable(env)
    ensures RebuildFit(o, env.work.rebuild(db, mem))
  {
    hide World, Works, StripOutcome, EmptiedOutcome, FkOutcome, TriggerOutcome, CheckOutcome, Strip.DropOrder,
         Rebuild.Phase, RebuildLaws.AnyShadowed, Linked, Fired, DefineRepeatable, AcceptedOnce, Restore.Restored, Bare,
         Rebuild.ContextOf, Rebuild.PhaseOps, Restore.Excused, Server;
    WorldWorks(env, rank);
    WorkIs(env, db, mem);
    if ResumedAt(mem, LOADED) { RebuildReentered(env, rank, db.catalog); }
  }

  lemma FkFits(env: Env, rank: string -> nat, o: Outcome, db: Db, mem: Mem)
    requires Described(env, rank, o) && mem.graph == o.graph && mem.rebuild == o.rebuild && db.rows == o.rows
    requires Entered(mem, db, REBUILT, o.keyed) && (db.catalog == o.keyed || db.catalog == o.linked)
    requires ResumedAt(mem, REBUILT) ==> Repeatable(env)
    ensures FkFit(o, env.work.fk(db, mem))
  {
    hide World, Works, StripOutcome, EmptiedOutcome, RebuildOutcome, TriggerOutcome, CheckOutcome, FkDefine.Phase,
         FkLaws.AnyShadowed, Keyed, Fired, RebuildRepeatable, AcceptedOnce, Restore.Restored, ViolatedEdges, Strip.OwnedOf,
         Strip.DropOrder, Snap, FkDefine.ContextOf, Restore.Excused;
    WorldWorks(env, rank);
    WorkIs(env, db, mem);
    ViolatedIsWithheld(Srv(env), Snap(env), o.rebuild, env.keepGoing, Guard(mem, REBUILT), db.catalog, FkTexts(env));
    if ResumedAt(mem, REBUILT) {
      if o.hard { FkLaws.FailsAgainIff(Srv(env), Snap(env), Keyed(env).sum, env.keepGoing, Keyed(env).cat, Keyed(env).cat, FkTexts(env)); } else { DefineReentered(env, rank, db.catalog); }
    }
  }

  /** Whatever the rebuild recorded and the guard found. */
  lemma AnyFkFits(env: Env, rank: string -> nat, o: Outcome, db: Db, mem: Mem)
    requires Portrayed(env, rank, o) && !o.exact && mem.graph == o.graph && db.rows == o.rows
    requires Entered(mem, db, REBUILT, o.keyed) && o.keyed <= db.catalog
    ensures FkFit(o, env.work.fk(db, mem))
  {
    hide World, Works, StripOutcome, EmptiedOutcome, RebuildOutcome, TriggerOutcome, CheckOutcome, FkDefine.Phase, Keyed,
         Linked, Fired, Restore.Restored, ViolatedEdges, FkLaws.DefinedIn, Bare, Dropped, Strip.DropOrder, Snap,
         Restore.Excused, Judging;
    WorldWorks(env, rank);
    WorkIs(env, db, mem);
    WorldIsReflexive(env, rank);
    FkLaws.PhaseHolds(Srv(env), Snap(env), mem.rebuild, env.keepGoing, Guard(mem, REBUILT), db.catalog, FkTexts(env));
  }

  lemma TriggersFit(env: Env, rank: string -> nat, o: Outcome, db: Db, mem: Mem)
    requires Portrayed(env, rank, o)
    requires db.triggers == {} || (ResumedAt(mem, STATS_UPDATED) && db.triggers == o.fired.defs)
    requires o.exact && ResumedAt(mem, STATS_UPDATED) ==> Repeatable(env)
    ensures TriggersFitted(o, env.work.triggers(db, mem))
  {
    hide World, Works, StripOutcome, EmptiedOutcome, RebuildOutcome, FkOutcome, CheckOutcome, Keyed, Linked,
         RebuildRepeatable, DefineRepeatable, RunTriggers, AcceptedOnce, Strip.DropOrder, Restore.Excused, Strip.Entries;
    WorldWorks(env, rank);
    WorkIs(env, db, mem);
    if ResumedAt(mem, STATS_UPDATED) { TriggersReentered(env, db.triggers); }
  }

  lemma CheckFits(env: Env, rank: string -> nat, o: Outcome, db: Db, mem: Mem)
    requires Described(env, rank, o) && mem.graph == o.graph && mem.rebuild == o.rebuild && mem.fkdefine == o.fkdefine
    requires db.catalog == o.linked && !o.hard
    ensures env.work.restored(db, mem) == o.restored
  {
    hide World, Works, StripOutcome, EmptiedOutcome, RebuildOutcome, FkOutcome, TriggerOutcome, Keyed, Linked, Fired, Bare,
         Dropped, Restore.Restored, Restore.Excused, Strip.DropOrder;
    WorldWorks(env, rank);
    WorkIs(env, db, mem);
  }

  /** What the invariant says where a phase's work is due. */
  lemma StripDue(o: Outcome, s: State, mem: Mem)
    requires s.proc == Running(StripWork, mem) && Inv(o, s)
    ensures mem.graph == o.graph && Entered(mem, s.db, DEFINED, o.full) && (s.db.catalog == o.full || s.db.catalog == o.bare)
  {
    hide RecordsAt, RowsAt, TriggersAt, AtDefine, AtLoad, AtRebuild, AtFk, AtStats, AtLast, Entered, SameFk;
  }

  lemma TruncateDue(o: Outcome, s: State, mem: Mem)
    requires s.proc == Running(TruncateWork, mem) && Inv(o, s)
    ensures mem.graph == o.graph && s.db.rows <= o.rows
  {
    hide RecordsAt, CatalogAt, TriggersAt, AtDefine, AtStrip, AtRebuild, AtFk, AtStats, AtLast;
  }

  lemma RebuildDue(o: Outcome, s: State, mem: Mem)
    requires s.proc == Running(RebuildWork, mem) && Inv(o, s)
    ensures mem.graph == o.graph && mem.strip == o.strip && s.db.rows == o.rows
    ensures Entered(mem, s.db, LOADED, o.bare) && (s.db.catalog == o.bare || s.db.catalog == o.keyed)
  {
    hide RecordsAt, TriggersAt, AtDefine, AtStrip, AtLoad, AtFk, AtStats, AtLast, Entered, SameFk;
  }

  lemma FkDue(o: Outcome, s: State, mem: Mem)
    requires s.proc == Running(FkWork, mem) && Inv(o, s)
    ensures mem.graph == o.graph && SameRebuild(o, mem.rebuild) && s.db.rows == o.rows
    ensures Entered(mem, s.db, REBUILT, o.keyed) && (s.db.catalog == o.keyed || LinkedBy(o, s.db.catalog))
  {
    hide RecordsAt, TriggersAt, AtDefine, AtStrip, AtLoad, AtRebuild, AtStats, AtLast, Entered, SameRebuild;
  }

  lemma LastDue(o: Outcome, s: State, pc: Pc, mem: Mem)
    requires s.proc == Running(pc, mem) && Inv(o, s)
    ensures pc.TriggerWork? ==>
      s.db.triggers == {} || (ResumedAt(mem, STATS_UPDATED) && s.db.triggers == o.fired.defs)
    ensures pc.CheckCatalog? && o.exact ==>
      && mem.graph == o.graph && mem.rebuild == o.rebuild && mem.fkdefine == o.fkdefine
      && s.db.catalog == o.linked && !o.hard
  {
    hide RecordsAt, RowsAt, AtDefine, AtStrip, AtLoad, AtRebuild, AtFk, AtStats, ResumedAt;
  }

  predicate Resumed(s: State) { s.proc.Running? && s.proc.mem.from.Some? }

  /** A process that started fresh, or one over a repeatable dump, does the uninterrupted run's work. */
  lemma WorkMatches(env: Env, rank: string -> nat, o: Outcome, s: State)
    requires Portrayed(env, rank, o) && Inv(o, s) && (o.exact && Resumed(s) ==> Repeatable(env))
    ensures WorkFits(env, o, s)
  {
    hide World, OutcomeOf, Repeatable, Inv, Entered, RebuildFit, FkFit, Portrayed;
    if !s.proc.Running? { return; }
    ExactIs(env, rank, o);
    var mem := s.proc.mem;
    match s.proc.pc
    case StripWork =>
      StripDue(o, s, mem);
      StripFits(env, rank, o, s.db, mem);
    case TruncateWork =>
      TruncateDue(o, s, mem);
      TruncateFits(env, rank, o, s.db, mem);
    case RebuildWork =>
      RebuildDue(o, s, mem);
      RebuildFits(env, rank, o, s.db, mem);
    case FkWork =>
      FkDue(o, s, mem);
      if o.exact { FkFits(env, rank, o, s.db, mem); } else { AnyFkFits(env, rank, o, s.db, mem); }
    case TriggerWork =>
      LastDue(o, s, s.proc.pc, mem);
      TriggersFit(env, rank, o, s.db, mem);
    case CheckCatalog =>
      LastDue(o, s, s.proc.pc, mem);
      if o.exact { CheckFits(env, rank, o, s.db, mem); }
    case _ =>
  }

  lemma NextKeeps(env: Env, o: Outcome, s: State)
    requires Setting(env, o) && Inv(o, s) && (s.proc.Running? ==> WorkFits(env, o, s))
    ensures Inv(o, Next(env, s))
  {
    hide Inv, Setting, WorkFits, StripSteps, LoadSteps, RebuildSteps, FkSteps, StatsSteps, LastSteps, DefineSteps, Begin,
         StageOf;
    if s.proc.Running? {
      RunningKeeps(env, o, s);
    } else {
      BeginKeeps(env, o, s);
    }
  }

  lemma RunningKeeps(env: Env, o: Outcome, s: State)
    requires Setting(env, o) && s.proc.Running? && Inv(o, s) && WorkFits(env, o, s)
    ensures Inv(o, Next(env, s))
  {
    hide Inv, Setting, StripSteps, LoadSteps, RebuildSteps, FkSteps, StatsSteps, LastSteps, DefineSteps, Begin, FkFit;
    var mem := s.proc.mem;
    match StageOf(s.proc.pc)
    case Defining => DefineKeeps(env, o, s, s.proc.pc, mem);
    case Stripping => StripKeeps(env, o, s, s.proc.pc, mem, env.work.strip(s.db, mem), env.work.order(mem.graph));
    case LoadingRows => LoadKeeps(env, o, s, s.proc.pc, mem, env.work.emptied(s.db, mem));
    case Rebuilding => RebuildKeeps(env, o, s, s.proc.pc, mem, env.work.rebuild(s.db, mem));
    case Linking => FkKeeps(env, o, s, s.proc.pc, mem, env.work.fk(s.db, mem));
    case Refreshing => StatsKeeps(env, o, s, s.proc.pc, mem);
    case Finishing => LastKeeps(env, o, s, s.proc.pc, mem, env.work.triggers(s.db, mem), env.work.restored(s.db, mem));
  }

  // ----- an import there is -----

  /** One class with a primary key. */
  function SampleGraph(): Graph {
    Graph("db", [Node("c", true, false, [], Inventory("pk", [], []), [])], [], [], [], [])
  }

  lemma SampleIsOk(rank: string -> nat)
    ensures Strip.SnapshotOk(SampleGraph(), rank) && Strip.CatalogMatches(SampleGraph(), {Key("c", "pk")})
  {
    hide Strip.Entries, Strip.NamesOfKind, Inheritance.ByName;
    var g := SampleGraph();
    var n := g.nodes[0];
    SampleEntries();
    assert Strip.Entries(g)[0] in Strip.Entries(g);
    assert Strip.Snapshot(g) == {Key("c", "pk")};
  }

  lemma SampleEntries()
    ensures Strip.Entries(SampleGraph()) == [Stripped(PrimaryKey, Key("c", "pk"))]
  {
    var nodes := SampleGraph().nodes;
    assert nodes[..0] == [] && ["pk"][..0] == [];
    assert Strip.KindEntries(nodes, ForeignKey) == Strip.KindEntries([], ForeignKey) + [] == [];
    assert Strip.KindEntries(nodes, Unique) == Strip.KindEntries([], Unique) + [] == [];
    assert Strip.NodeEntries("c", PrimaryKey, ["pk"]) == [] + [Stripped(PrimaryKey, Key("c", "pk"))];
    assert Strip.KindEntries(nodes, PrimaryKey) == [] + Strip.NodeEntries("c", PrimaryKey, ["pk"]);
  }

  /** What the theorems ask of an import can be met, all of it at once. */
  lemma CanBeMet(rank: string -> nat) returns (env: Env)
    ensures World(env, rank) && Repeatable(env) && GetsThrough(env)
  {
    hide Works, Strip.SnapshotOk, Strip.CatalogMatches, Strip.DropOrder, Strip.Snapshot, Rebuild.Phase, WorkOf;
    var idle := Work(g => [], (db, mem) => None, (db, mem) => multiset{}, (db, mem) => None, (db, mem) => None,
                     (db, mem) => Triggers({}, NO_TRIGGERS), (db, mem) => true);
    var e := Env(ImportSet("db", "d", true, "", [], "", "", false, []), map[], false, false, false, true,
                 Db({"c"}, {Key("c", "pk")}, multiset{}, {}), cat => SampleGraph(), g => [["c"]], g => true,
                 k => {k}, [], (t, rows) => Engine.Accept, multiset{}, true, [], [], t => true, idle);
    CanWork(e);
    env := e.(work := WorkOf(e));
    SampleIsOk(rank);
    assert Ops(env) == [] && FkTexts(env) == [];
    assert Restore.Taken(Srv(env), Snap(env), rank, env.target.catalog);
    var c := FkDefine.ContextOf(Srv(env), Snap(env), Keyed(env).sum, env.keepGoing, None);
    FkLaws.RunNothing(c, FkDefine.Start(Keyed(env).cat));
  }
}
