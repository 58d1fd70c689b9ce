# importdb: a verification model

importdb reloads a database from a dump in ten phases: it defines the schema in an empty target, takes a
snapshot of the dependency graph, drops every constraint, loads the rows into bare heaps with child
processes, puts the keys and indexes back, defines the foreign keys, refreshes statistics and defines the
triggers. It can be killed anywhere and run again; the manifest in the dump directory says how far it got.

The project models that pipeline and proves what its documentation and its comments promise of it.

## What is proved

1. **The crash and resume protocol** (`Pipeline`, `Convergence`, `Recovery`, `Divergence`, `Safety`, `LevelOrder`,
   `Importdb`, `Resume`).
   Durable state is the committed database and the manifest; a process holds an open transaction and its
   records. Any step may be followed by a death, any commit or manifest write may fail, a schema file may
   leave part of the definition behind and load children commit rows on their own. Over every such
   schedule a DONE manifest means the database and the records of one uninterrupted run, when the dump is
   *repeatable*: no rejected statement names only constraints that an interruption leaves in place, and no
   accepted trigger is named twice. That the marker is never ahead of the database and at most one phase behind, and
   that a resumed run recognises its own target, holds over every dump. Over an import that gets through undisturbed that condition is exact
   (`Divergence.ConvergesIffRepeatable`). Imports that fail deterministically (a load child that always
   fails, a source that cannot be read, a hard foreign key error, an artifact that cannot be written) are
   included; what is asked of those that finish is `GetsThrough`, by the progress theorems alone. The
   machine runs over the work of the phases as functions of the database and the memory; `Works` says that they
   are the phases of item 2, which the convergence theorems and `Importdb` ask, while the safety theorems and
   `Recovery.SelfResumable` hold of any work. The imperative `Importdb.Import` runs the phases in place and keeps
   a history that is a path of the machine.
2. **The constraint lifecycle** (`Strip`, `Rebuild`, `RebuildLaws`, `FkDefine`, `FkLaws`, `Restore`, `Engine`,
   `Inheritance`, `DdlText`, `Dump`). Each phase method is proved against a specification function over
   the catalog; conservation, the cascade, resumption and end-to-end restoration are proved about those
   functions.
3. **Graph and planner** (`FkCycles`, `Levels`, `Plan`, `Ordering`).
4. **Text** (`ManifestText`, `ManifestValues`, `ManifestGraph`, `Manifest`, `ManifestWriter`, `ManifestLaws`,
   `ManifestSections`, `ManifestRoundTrip`, `ManifestTorn`, `ManifestBridge`, `AtomicWrite`, `Preserve`,
   `Exceptions`; `CallLexer`, `CallRewrite`, `RewriteLaws`, `SecondPass`, `CallStatements`). The printer and the reader are
   inverse over the identifiers the format can carry; a manifest cut short anywhere is refused or reads as
   the whole one; decisions taken from the text are those the protocol takes from the record.
5. **The child pool** (`LoadPool`), with the fork results and wait events as an adversary.

## Where the code does less than it says

Each of these is a lemma with the exact condition or a family of inputs.

- A DONE manifest is accepted for any database and prefix: the identity check stands behind the DONE branch
  (`Safety.ForeignManifest`).
- A failed catalog check makes the import exit with failure, and the same command run again reports success,
  because no record carries that check (`Recovery.RerunVerdict`).
- Killed between the two DEFINED writes, the level order is lost: it lives on the graph, is not serialised
  with it, and a resume never computes it again (`LevelOrder.PlanIsLost`). Nothing else loses it
  (`LevelOrder.LostIff`), and some schedule does exactly when the import gets past its roster check with levels to
  lose (`LevelOrder.CanBeLostIff`).
- A dump with one accepted key statement twice does not converge. The uninterrupted run takes the repetition for
  a failed key, withholds every foreign key that refers to its class and leaves them out; a run killed behind
  the rebuild commit and resumed takes both for done and defines them, so the two final catalogs differ
  (`RebuildLaws.RepeatedStatementDiverges`, `Divergence.RepeatedKeyLosesForeignKey`; exact condition in
  `RebuildLaws.ResumedRebuild`). Likewise a rejected foreign key that is there anyway (`FkLaws.ResumedDefine`), and
  one that fails the phase although the rebuild left it in place: entered again, the phase passes
  (`FkLaws.PlacedEdgePasses`; exact condition in `FkLaws.FailsAgainIff`).
- An accepted trigger named twice counts as failed in an uninterrupted run and as defined in a resumed one, over
  the same triggers, so the exit status turns from failure to success (`Convergence.TriggersRerun`; exact
  condition in `Convergence.TriggersReentered`).
- A foreign key whose parent class was skipped is dropped, its own ADD statement passed over, and it is recorded
  nowhere (`Restore.SkippedParentKeyIsLost`; exact condition in `Restore.ForeignKeyIsKeptIff`).
- An inherited copy of a foreign key that the graph lists as an edge is withheld for want of a statement although
  its family is in place (`Restore.InheritedEdgeIsWithheld`).
- A pending key of a superclass makes the final check fail on its inherited copies
  (`Restore.CheckSeesInheritedCopies`).
- The cycles reported do not cover every class on a cycle (`FkCycles.UnreportedOnACycle`); what is sure is that each
  cycle has two neighbours that are reported (`FkCycles.EveryCycleIsTouched`). A cycle mixing inheritance and foreign
  keys leaves classes out of every level (`Levels.MixedCycleIsUnplaced`).
- A record type whose last field may be empty is not safe from the tab sniffing of `split_record`, although
  its comment says every record type is: `index_fail` with an empty reason and a blank in the name
  (`ManifestValues.LoneName`). A statistics failure with an empty reason comes back with the separator in
  its class name (`ManifestLaws.FailureReads`).
- The backup of a manifest is overwritten once a hundred exist (`Preserve.OverwritesIff`).

## Model

| member | source | states |
|---|---|---|
| `Recovery.Convergent` | src/import_db.cpp:959-1309 | whatever was killed, failed and re-run on the way, a DONE manifest means the rows, constraint catalog and triggers of one uninterrupted run, and its rebuilt, pending, defined and withheld records, over a repeatable dump |
| `Recovery.ReachableConverges` | src/import_db.cpp:959-1309 | the same as a property of every reachable state of one command over one dump |
| `Divergence.ConvergesIffRepeatable` | src/import_db.cpp:959-1309 | over an import that gets through undisturbed, every state that deaths, failures and re-runs can lead to is on the course of the uninterrupted run if and only if the dump is repeatable |
| `Divergence.RepeatedKeyLosesForeignKey` | src/import_rebuild.cpp:318-366 | with an accepted key statement twice, the uninterrupted run and the one killed behind its rebuild commit and resumed end with different foreign keys |
| `Recovery.ReachableHolds` | src/import_db.cpp:1052-1283 | every reachable state, mid-phase deaths and imports that fail every time included, lies between two adjacent markers of the uninterrupted run, and over a repeatable dump holds its records so far |
| `Recovery.StepKeeps` | src/import_db.cpp:1052-1309 | each step of the protocol (work, commit, marker write, death, failed commit, partial definition, partial load) keeps that correspondence, with the records over a repeatable dump and without them over any |
| `Recovery.MarkerInvariant` | src/import_db.cpp:1052-1073 | over every dump the marker is never ahead of the committed database and at most one phase behind it: bare or full at DEFINED, bare at STRIPPED, bare or keyed at LOADED, at least keyed from REBUILT on with every foreign key recorded as defined in place from FK_DEFINED on; DEFINED without a graph means nothing has been stripped |
| `Recovery.SelfResumable` | src/import_db.cpp:656-715 | a manifest the pipeline wrote from DEFINED to STATS_UPDATED, whatever the import and whatever failed, passes every completeness check of the resume decision |
| `Recovery.TargetIsRecognised` | src/import_db.cpp:975-1015 | over every dump the target check of a resumed run accepts the database its own manifest describes, at every marker |
| `Recovery.Completes` | src/import_db.cpp:1048-1343 | an import that gets through undisturbed is finished by undisturbed steps from every state that can still finish, with the database of the uninterrupted run |
| `Recovery.ProcessCompletes` | src/import_db.cpp:1048-1343 | a running process that nothing disturbs reaches DONE within a rank fixed by where it stands |
| `Recovery.CalmRunFinishes` | src/import_db.cpp:1048-1343 | a path on which nothing fails from some point on ends with the import done whenever the import can still finish |
| `Recovery.NeverFinishes` | src/import_db.cpp:647-665 | a definition cut short with no marker saying so is never completed by any later run of the command, and its target is never touched again |
| `Recovery.Refuses` | src/import_db.cpp:847-855 | a run over such a target refuses |
| `Recovery.CloseVerdict` | src/import_db.cpp:1340-1346 | the exit status derived from restored records is the status of the uninterrupted run, since a violated edge always leaves a withheld record |
| `Recovery.RerunVerdict` | src/import_db.cpp:609-644 | a re-run over a DONE manifest does no work and reports the status of the records; it agrees with the import exactly when the catalog check passed or the records alone already fail |
| `Recovery.DefinesPartKeeps` | src/import_define.cpp:616-669 | a partial definition committed by a dying process keeps the correspondence |
| `Recovery.LoadsPartKeeps` | src/import_load.cpp:472-542 | rows committed by load children before the parent dies keep the correspondence |
| `Convergence.NextKeeps` | src/import_db.cpp:880-1343 | a step of the process itself, fresh or resumed, keeps the correspondence with the uninterrupted run |
| `Convergence.StripReentered` | src/import_strip.cpp:174-243 | strip re-entered under its guard, over the catalog at DEFINED or one phase on, ends where the uninterrupted one does |
| `Convergence.RebuildReentered` | src/import_rebuild.cpp:226-471 | rebuild re-entered under its guard gives the catalog of the uninterrupted phase, and its record if and only if no rejected operation names only constraints that are there |
| `Convergence.DefineReentered` | src/import_fkdefine.cpp:209-442 | FK define re-entered under its guard gives the defined and withheld edges of the uninterrupted phase if and only if no rejected edge is there, and then its catalog |
| `Convergence.TriggersReentered` | src/import_triggers.cpp:124-195 | re-running the trigger file under the guard defines the same triggers, and counts as the uninterrupted run does if and only if no accepted trigger is named twice |
| `Convergence.TriggersRerun` | src/import_triggers.cpp:172-181 | each repetition of an accepted trigger moves from the failed to the defined count |
| `Convergence.RestoredHeld` | src/import_db.cpp:1074-1283 | the records a resumed process restores are those of the uninterrupted run |
| `Convergence.ViolatedIsWithheld` | src/import_fkdefine.cpp:340-387 | an FK define with a violated edge, by its live count or by the per-edge lines a resume reads back, has a withheld edge |
| `Safety.TruncatesOnlyTheTarget` | src/import_db.cpp:1092-1107 | in every reachable state about to truncate, the catalog was read and holds every graph class and none of the stripped constraints |
| `Safety.StripsOnlyTheTarget` | src/import_db.cpp:998-1048 | a resumed strip drops only where every graph class was found present and empty; a fresh one only in the schema this process defined |
| `Safety.DryRunChangesNothing` | src/import_db.cpp:938-957 | no dry run ever commits, writes a manifest or moves one |
| `Safety.ForeignManifest` | src/import_db.cpp:609-668 | over a DONE manifest, whatever database and prefix it names, no run of the command ever does any work and the manifest is never set aside: the identity check stands behind the DONE branch |
| `Safety.ForeignDecision` | src/import_db.cpp:609-668 | over a manifest of another database or prefix the decision is that of a finished import if and only if the marker is DONE, and a fresh run otherwise |
| `Safety.StepIsGuarded` | src/import_db.cpp:880-1107 | every step keeps destructive work behind a fresh definition or a recognised target |
| `Safety.NeverOverwritten` | src/import_db.cpp:800-830 | on every path, restarts included, a step leaves the manifest in place, moves it into the saved ones, or replaces it by one at least as far: a DISCOVERED manifest is written only where none is in place |
| `Safety.ProgressIsKept` | src/import_db.cpp:800-830 | what an import has once reached stays on record, in place or among the manifests moved aside, whatever ends its runs and whatever the later ones are told |
| `Safety.ResumesWithItsRecords` | src/import_db.cpp:656-715 | a run past the strip is resumed only over its own import, and its restored records, written again, are the manifest it found, but for a lost level order and the tallies the edge lines do not carry |
| `LevelOrder.LostIff` | src/import_db.cpp:914-945 | over any schedule the manifest has the graph without its level order, with no process about to write it, if and only if a process that has an order died or failed between the two DEFINED writes |
| `LevelOrder.CanBeLostIff` | src/import_db.cpp:896-945 | some reachable state has lost the level order if and only if the command is no dry run, the roster check accepts the snapshot and the snapshot has levels |
| `LevelOrder.PlanIsLost` | src/import_db.cpp:914-945 | once a manifest has the graph and no level order, every later manifest on any path has that graph and none |
| `LevelOrder.LostForGood` | src/import_db.cpp:914-945 | so it stays behind a torn pair of writes |
| `Importdb.Import.Commit` | src/import_session.cpp:82-111 | a commit makes the open transaction durable, or the process ends with nothing of it left |
| `Importdb.Import.WriteManifest` | src/import_manifest.cpp:1033-1052 | a marker write replaces the whole manifest or leaves the old one |
| `Importdb.Import.CommitAndMark` | src/import_db.cpp:1052-1073 | commit first, marker second: the recorded history is a path of the protocol whichever of the two fails |
| `Importdb.Import.StripPhase` | src/import_db.cpp:1042-1078 | the strip phase, fresh or guarded, as a stretch of the protocol |
| `Importdb.Import.TruncatePhase` | src/import_db.cpp:1087-1110 | the reconcile step of a load that was cut short |
| `Importdb.Import.LoadRows` | src/import_load.cpp:472-542 | rows committed one by one by the children, in any order, dying anywhere |
| `Importdb.Import.LoadPhase` | src/import_db.cpp:1080-1147 | the load phase |
| `Importdb.Import.RebuildPhase` | src/import_db.cpp:1157-1193 | the rebuild phase |
| `Importdb.Import.FkPhase` | src/import_db.cpp:1195-1256 | the FK define phase |
| `Importdb.Import.StatsPhase` | src/import_db.cpp:1258-1284 | the statistics phase |
| `Importdb.Import.TriggerPhase` | src/import_db.cpp:1286-1309 | the trigger phase |
| `Importdb.Import.FinishPhase` | src/import_db.cpp:1306-1346 | catalog check, DONE marker, exit status |
| `Importdb.Import.PreserveManifest` | src/import_db.cpp:806-826 | the prior manifest joins the saved ones and none is left in place, or the run refuses with everything as it was; that no run overwrites a manifest without it is `Safety.NeverOverwritten` |
| `Importdb.Import.DefinePhase` | src/import_db.cpp:800-867 | DISCOVERED marker, definition in an empty target, DEFINED marker |
| `Importdb.Import.PlanPhase` | src/import_db.cpp:880-946 | graph read back or taken now, roster check, and the two DEFINED rewrites |
| `Importdb.Import.VerifyPhase` | src/import_db.cpp:968-1018 | one catalog read, and refusal of a target that is not the one described |
| `Importdb.Import.RunPhases` | src/import_db.cpp:1043-1343 | the phases after a marker, in order |
| `Importdb.Import.DryRun` | src/import_db.cpp:938-957 | a dry run leaves database, manifest and saved manifests as they were |
| `Importdb.Import.Run` | src/import_db.cpp:551-1405 | one run of the command extends the history by a path of the protocol, so the laws of all paths hold of it, `Safety.NeverOverwritten` for a run with --restart included |
| `Importdb.Import.Retry` | src/import_db.cpp:551-1405 | any number of runs over a fresh target, whatever happens to each: once DONE is recorded the target is what one uninterrupted run leaves |
| `Importdb.Import.RunUndisturbed` | src/import_db.cpp:551-1405 | after any runs at all, one undisturbed run finishes an import that can still finish |
| `Resume.VerifyResumeTarget` | src/import_resume.cpp:159-208 | answers exactly whether the catalog matches the graph at the marker: classes present, empty where required, stripped constraints absent where required |
| `Resume.TruncateClasses` | src/import_resume.cpp:247-281 | leaves exactly the rows of other classes |
| `Resume.TruncatedIsUnique` | src/import_resume.cpp:247-281 | that description determines the remaining rows |
| `Strip.Strip` | src/import_strip.cpp:174-270 | the phase leaves the catalog of `RunDrops` and records the drop order of the snapshot, whatever the guard shows present; what that order is says `Strip.DropsInOrder` |
| `Strip.StripOne` | src/import_strip.cpp:189-241 | an inherited entry is skipped, one already gone is recorded without a DROP, another is dropped and recorded |
| `Strip.ResumedStrip` | src/import_strip.cpp:197-239 | wherever an interrupted strip left the catalog, the guarded one ends where the uninterrupted one does |
| `Strip.StripSucceeds` | src/import_strip.cpp:163-243 | strip is never stuck and removes exactly the snapshot, FK cycles included |
| `Strip.DropIsAccepted` | src/import_strip.cpp:163-173 | each drop finds its constraint owned, present and referred to by no foreign key still there |
| `Strip.DropsInOrder` | src/import_strip.cpp:189-242 | the drops are exactly the listed constraints no transitive superclass lists: foreign keys, then uniques, then primary keys, and within a kind by the order of the classes and of each class's list |
| `Strip.ForeignKeysFirst` | src/import_strip.cpp:189-242 | every foreign key comes before every unique and primary key in the drop order |
| `Strip.OwnerOf` | src/import_strip.cpp:107-160 | every listed constraint has an owner of its kind further up, found by climbing |
| `Strip.RemovedIsSnapshot` | src/import_strip.cpp:174-243 | dropping on owners removes every inherited copy and nothing else |
| `Inheritance.IsInheritedConstraint` | src/import_strip.cpp:124-160 | the worklist terminates on every graph, cyclic inheritance included, and answers exactly whether some transitive superclass lists the name |
| `Inheritance.ClosedSetHoldsAncestors` | src/import_strip.cpp:131-158 | a set closed under superclasses holds every transitive superclass |
| `Inheritance.IndexSupers` | src/import_strip.cpp:183-187 | the direct superclasses of each class, in edge order |
| `DdlText.SplitStatements` | src/import_ddl_text.cpp:63-84 | the loop computes `Statements` |
| `DdlText.StatementsOfJoined` | src/import_ddl_text.cpp:63-84 | a text of parts joined by semicolons splits into the trimmed parts, in order, blank ones dropped, from any position on |
| `DdlText.SplitsBack` | src/import_ddl_text.cpp:63-84 | trimmed statements with any blanks around them, joined by semicolons and with or without a last one, split back into exactly themselves |
| `DdlText.StatementClass` | src/import_ddl_text.cpp:86-119 | the class an ADD statement names |
| `DdlText.ConstraintNames` | src/import_ddl_text.cpp:127-150 | every bracketed name behind a CONSTRAINT keyword, in order |
| `DdlText.ClassOfAddStatement` | src/import_ddl_text.cpp:86-119 | the class is found behind its owner even when its own name contains the keyword the scan stops at |
| `DdlText.NamesOfStatement` | src/import_ddl_text.cpp:127-150 | a statement with any number of CONSTRAINT clauses, and no further keyword between them, gives all their names in order, whatever the names hold besides a closing bracket |
| `DdlText.IndexOfStatement` | src/import_rebuild.cpp:119-172 | the name and the bare class come out of a laid-out CREATE INDEX, its owner stepped over |
| `DdlText.FindIsFirst` | src/import_ddl_text.cpp:63-150 | the search every scanner uses returns the first occurrence |
| `Dump.UnreadableStays` | src/import_rebuild.cpp:286-293 | once a source file cannot be read, the phase has no statements at all, whatever follows |
| `Dump.StatementsInOrder` | src/import_rebuild.cpp:280-295 | the statements of files read one after the other follow each other |
| `Rebuild.Rebuild` | src/import_rebuild.cpp:226-471 | the phase leaves the catalog and record of `Phase` over every statement of its sources (`DdlText.SplitsBack`), fresh or resumed, and its status can be read back from the record |
| `Rebuild.WithholdChildFks` | src/import_rebuild.cpp:204-219 | every edge a class parents is withheld once |
| `Rebuild.RunKeyStatement` | src/import_rebuild.cpp:295-366 | one ADD statement: matched, skipped under the guard, accepted, or every target pending |
| `Rebuild.RunIndexStatement` | src/import_rebuild.cpp:384-414 | one CREATE INDEX statement |
| `Rebuild.ReconcileKeys` | src/import_rebuild.cpp:418-448 | stripped keys no statement matched become pending |
| `RebuildLaws.RebuildAccount` | src/import_rebuild.cpp:295-448 | the record holds each match once and each unmatched key once, as multisets |
| `RebuildLaws.EveryKeyAccounted` | src/import_rebuild.cpp:418-448 | every stripped key is rebuilt or pending, exactly once when statements match it at most once |
| `RebuildLaws.FailuresAreExplained` | src/import_rebuild.cpp:344-448 | every pending key has the statement that failed and the server's reason, or no statement and the reason that none resolves to it; every failed index and every withheld edge has its cause |
| `RebuildLaws.MissingKeyWithholdsChildren` | src/import_rebuild.cpp:204-219 | a stripped key is back in the catalog, or pending with every edge its class parents withheld |
| `RebuildLaws.ResumedRebuild` | src/import_rebuild.cpp:318-342 | a rebuild interrupted anywhere and re-entered has the uninterrupted catalog; it has the record too if and only if no rejected statement finds all its constraints in place |
| `RebuildLaws.ResumedRun` | src/import_rebuild.cpp:295-366 | the same after any number of operations |
| `RebuildLaws.NamedOnceIsSafe` | src/import_rebuild.cpp:295-366 | a dump that names each constraint in one statement meets that condition |
| `RebuildLaws.RepeatedStatementDiverges` | src/import_rebuild.cpp:318-366 | a dump with an accepted key statement twice: pending in the uninterrupted run, rebuilt in the one killed after its commit |
| `RebuildLaws.SecondTimeRejected` | src/import_rebuild.cpp:344-365 | an accepted key statement run again is rejected and recorded as pending although its constraints are there |
| `RebuildLaws.CatalogComesFrom` | src/import_rebuild.cpp:295-416 | whatever the phase adds to the catalog comes from a statement of the dump |
| `FkDefine.DefineFks` | src/import_fkdefine.cpp:209-442 | the phase leaves the catalog and records of `Phase`, whose withheld edges `FkLaws.WithheldAreExplained` describes; an unreadable source, a failure that is not the data or an unwritable artifact is an error that records nothing |
| `FkDefine.DefineStatement` | src/import_fkdefine.cpp:287-414 | one statement: matched to an edge, withheld, found present under the guard, or attempted |
| `FkDefine.ReconcileEdges` | src/import_fkdefine.cpp:422-442 | edges no statement visited are withheld |
| `FkLaws.EveryEdgeOnce` | src/import_fkdefine.cpp:209-442 | without a hard error every edge of the graph ends exactly once in exactly one of defined and withheld |
| `FkLaws.WithheldAreExplained` | src/import_fkdefine.cpp:287-442 | every withheld edge has the first statement of the dump for it as its repair, or none where there is none; the rebuild's own reason, an edge rejected earlier under fail-fast, or the server's verdict on that statement as its cause |
| `FkLaws.PhaseTallies` | src/import_fkdefine.cpp:328-386 | violated counts the rejected edges, each withheld; the orphan total is the sum over edges and the length of the list; validated counts the attempted edges, violated ones included |
| `FkLaws.FailFast` | src/import_fkdefine.cpp:380-385 | under fail-fast at most one edge is rejected and that stops the attempts |
| `FkLaws.StoppedDefinesNothing` | src/import_fkdefine.cpp:316-413 | once stopped nothing more is executed, defined or validated |
| `FkLaws.AttemptSeesParentKeys` | src/import_fkdefine.cpp:229-316 | over the catalog and record a rebuild left, an edge is attempted only when every stripped key its parent owns is back |
| `FkLaws.ResumedDefine` | src/import_fkdefine.cpp:318-326 | interrupted anywhere and re-entered, FK define has the uninterrupted catalog, and its defined and withheld records if and only if no rejected edge is there anyway |
| `FkLaws.GuardIdle` | src/import_fkdefine.cpp:318-326 | where no edge of the graph is in place the guard changes nothing, a failing phase included |
| `FkLaws.FailsAgainIff` | src/import_fkdefine.cpp:318-326 | a phase entered again under its guard fails if and only if the statements whose edges are not in place fail by themselves |
| `FkLaws.PlacedEdgePasses` | src/import_fkdefine.cpp:318-396 | a phase that fails on an edge already in place passes when entered again |
| `FkLaws.PhaseHolds` | src/import_fkdefine.cpp:209-442 | guarded or not, and whatever the rebuild recorded, the phase takes nothing away and every edge it records as defined is in the catalog |
| `FkLaws.ShadowedSplits` | src/import_fkdefine.cpp:318-386 | where that fails the edge is withheld in the uninterrupted run and defined in the resumed one |
| `FkLaws.RunConserves` | src/import_fkdefine.cpp:287-414 | each visited edge is recorded exactly once, and each record is a visited edge |
| `Exceptions.WriteWithheldExceptions` | src/import_fkdefine.cpp:157-203 | the artifact becomes its kept prefix and the new section |
| `Exceptions.EntryIsWritten` | src/import_fkdefine.cpp:176-198 | every withheld edge is in the section with its reason and its repair statement, in order |
| `Exceptions.WritingIsIdempotent` | src/import_fkdefine.cpp:144-203 | for any prior content, writing the section for one run and then for another leaves what writing only the second leaves |
| `Exceptions.MarkerIsFound` | src/import_fkdefine.cpp:150-173 | the marker cannot overlap itself: behind a prefix without one it is found at once |
| `Exceptions.KeptHoldsNone` | src/import_fkdefine.cpp:164-173 | the kept prefix holds no marker |
| `Restore.LifecycleRestores` | src/import_db.cpp:381-426 | with a faithful dump, strip, rebuild and FK define bring back the whole snapshot, inherited copies included, and the final check answers true; nothing is pending, and nothing withheld but inherited copies that the graph lists as edges |
| `Restore.MissingIsRecorded` | src/import_db.cpp:381-426 | whatever server and dump did, an owned constraint missing at the end is pending or withheld, provided an owned foreign key has its graph edge |
| `Restore.SkippedParentKeyIsLost` | src/import_graph.cpp:511-550 | without that edge, as when the parent class was skipped, it is dropped and recorded nowhere, unless a statement that is executed names it: its own ADD resolves to no edge and is passed over; the final check notices |
| `Restore.ForeignKeyIsKeptIff` | src/import_graph.cpp:511-550 | an owned foreign key ends in the catalog or recorded if and only if it is an edge of the graph or a statement that was executed and accepted adds it |
| `Restore.CheckSeesInheritedCopies` | src/import_db.cpp:381-426 | the check answers true if and only if no inherited copy is missing but those that are edges of the graph: records excuse owned constraints and edges only |
| `Restore.CheckCatalogRestored` | src/import_db.cpp:381-426 | collects exactly the listed constraints neither in the catalog nor excused |
| `Restore.CleanRebuild` | src/import_rebuild.cpp:226-471 | with every key re-added once and every ADD accepted, nothing is pending and every family is in place |
| `Restore.CleanDefine` | src/import_fkdefine.cpp:209-442 | over a clean rebuild every statement's family is in place and nothing is withheld but inherited edges no statement names |
| `Restore.InheritedEdgeIsWithheld` | src/import_fkdefine.cpp:422-442 | an inherited copy listed as an edge is withheld although its family is in place |
| `FkCycles.FindCycles` | src/import_graph.cpp:147-208 | every list reported is a simple closed foreign-key walk; none is reported if and only if the foreign keys are acyclic; dropping every edge with both ends on reported cycles leaves none |
| `FkCycles.SearchAll` | src/import_graph.cpp:158-208 | the search finishes every class, and a finished class refers only to classes finished before it or shares reported cycles |
| `FkCycles.Search.Dfs` | src/import_graph.cpp:178-198 | the depth-first visit keeps the stack a simple walk and settles every edge of the class it finishes |
| `FkCycles.Search.Report` | src/import_graph.cpp:184-190 | the stack slice from the grey class on, closed by it, is a simple cycle |
| `FkCycles.RetainedIsAcyclic` | src/import_graph.cpp:221-241 | along the retained edges the finishing position falls |
| `FkCycles.EveryCycleIsTouched` | src/import_graph.cpp:147-208 | every foreign-key cycle has two neighbours that are both on reported cycles |
| `FkCycles.MutualAreReported` | src/import_graph.cpp:147-208 | classes that refer to each other, or to themselves, are all reported |
| `FkCycles.UnreportedOnACycle` | src/import_graph.cpp:158-208 | in every graph of three classes where the first refers to the others, the second to the first and the third to the second, the third is on a cycle and on none of the cycles reported |
| `Levels.LevelSets` | src/import_graph.cpp:216-287 | the levels are the layering of the retained precedence: each sorted, each what became ready when the one before was placed |
| `Levels.PlacedOnce` | src/import_graph.cpp:262-286 | no class is placed twice |
| `Levels.LevelIsLongestChain` | src/import_graph.cpp:262-286 | the level of a placed class is the length of its longest chain of retained predecessors |
| `Levels.PlacedIffNoCycleReaches` | src/import_graph.cpp:262-286 | a class is placed if and only if no retained cycle reaches it |
| `Levels.AllPlacedIffAcyclic` | src/import_graph.cpp:262-286 | all classes are placed if and only if the retained precedence is acyclic |
| `Levels.Preview` | src/import_graph.cpp:221-287 | without inheritance, foreign keys alone never leave a class unplaced |
| `Levels.MixedCycleIsUnplaced` | src/import_graph.cpp:210-241 | a class referring to its own subclass leaves both unplaced |
| `Levels.IndexPairs` | src/import_graph.cpp:243-256 | in-degrees and successor lists over the distinct pairs |
| `Plan.BuildSchedule` | src/import_plan.cpp:121-253 | the emitted list is `Schedule`, and its own machine check passes |
| `Plan.ValidateSchedule` | src/import_plan.cpp:255-318 | accepts if and only if every prerequisite is emitted earlier; its topological pass then visits every task, repeated prerequisites included |
| `Plan.ScheduleIsOrdered` | src/import_plan.cpp:121-253 | for every graph and dump set the emitted list respects its own ordering |
| `Plan.FkDependsOnParentKeys` | src/import_plan.cpp:180-212 | a foreign key task depends on exactly the key tasks of its parent |
| `Plan.TriggersDependOnAll` | src/import_plan.cpp:232-244 | the trigger task is last and depends on every other task |
| `Plan.StatsDependOnKeys` | src/import_plan.cpp:214-230 | a statistics task depends on exactly the key tasks of its class and the deferred index task |
| `Plan.KeysAreScheduled` | src/import_plan.cpp:140-167 | a primary key task of a class and name is scheduled if and only if a class of that name lists the non-empty key, and the same for uniques |
| `Plan.KeysOfAre` | src/import_plan.cpp:133-192 | the wiring of a class holds all its key tasks and nothing else |
| `Plan.AllQueued` | src/import_plan.cpp:278-315 | when the queue has run dry every task has been through it |
| `CallRewrite.Rewrite` | src/import_define.cpp:254-332 | the scanner puts an underscore before each target `Marks` lists, copies the rest and counts the marks; which targets these are says `CallStatements.RewritesFile` |
| `CallStatements.RewritesFile` | src/import_define.cpp:254-332 | in a file of CALL statements, laid out with any blanks, literals and spellings, and other statements between them, exactly the targets db_serial, db_authorization and, unless the method is find_user or login, db_user get an underscore; every statement is decided by its own method |
| `RewriteLaws.MinimalEdit` | src/import_define.cpp:254-332 | the length grows by the count, deleting the inserted underscores gives the input back, and every character keeps its line number |
| `RewriteLaws.MarksAvoidOpaque` | src/import_define.cpp:265-281 | no underscore goes into a literal or a comment |
| `SecondPass.Idempotent` | src/import_define.cpp:254-332 | a second pass changes nothing and counts zero, for every text |
| `SecondPass.FindsNothing` | src/import_define.cpp:254-332 | the second pass goes through the result in step with the first pass over the input |
| `SecondPass.MovedIsNotRenamed` | src/import_define.cpp:295-324 | a name once moved is none of the renamed views |
| `SecondPass.ExemptCarries` | src/import_define.cpp:302-306 | the exempt methods are recognised again |
| `CallRewrite.Decide` | src/import_define.cpp:288-311 | computes `Moves`, the db_user exemption included |
| `CallLexer.LiteralEnd` | src/import_define.cpp:137-154 | past the closing quote, doubled quotes stepped over |
| `CallLexer.SkipComment` | src/import_define.cpp:157-175 | past a line or block comment |
| `CallLexer.SkipTrivia` | src/import_define.cpp:179-188 | past blanks and comments in any mix |
| `CallLexer.ReadIdentAt` | src/import_define.cpp:191-219 | one identifier, bracketed or bare |
| `CallLexer.KeywordAt` | src/import_define.cpp:108-124 | a keyword in any case that no identifier continues |
| `CallLexer.CallMethodOf` | src/import_define.cpp:228-245 | the method a CALL statement names |
| `LoadPool.Pool.Load` | src/import_load.cpp:432-550 | running equals the tracked children and never exceeds min(degree, files); each file is tried exactly once unless a hard wait error stops the loop; success if and only if every file has a child that exited 0 |
| `LoadPool.Pool.Fill` | src/import_load.cpp:474-495 | spawns until the bound or the last file |
| `LoadPool.Pool.Spawn` | src/import_load.cpp:476-494 | one fork, tracked when it succeeds, recorded as failed when not |
| `LoadPool.Pool.Wait` | src/import_load.cpp:496-541 | one event of the wait: only an own child or an error makes progress, and the measure falls then |
| `LoadPool.Pool.Reap` | src/import_load.cpp:510-526 | one reaped child: its file has ended with its code |
| `LoadPool.Pool.Lose` | src/import_load.cpp:527-540 | a hard wait error counts as a failure and blames the first child still tracked |
| `ManifestRoundTrip.RoundTrip` | src/import_manifest.cpp:1100-1487 | reading what was written gives back phase, identity, graph, levels, stripped list, rebuild, load, validation, FK, statistics and trigger records, over the identifiers the format can carry |
| `ManifestTorn.TornFile` | src/import_db.cpp:592-606 | any prefix of a manifest records no phase, so the run refuses it, or it reads exactly as the whole file |
| `Manifest.ReadManifest` | src/import_manifest.cpp:1100-1487 | the line loop computes `Read` |
| `ManifestWriter.RenderManifest` | src/import_manifest.cpp:536-662 | the stream ends up holding exactly the sections of the records there are, in order |
| `ManifestWriter.Stream.PutGraph` | src/import_manifest.cpp:165-221 | the [graph] section |
| `ManifestWriter.Stream.PutPlan` | src/import_manifest.cpp:245-288 | the [plan] section or its placeholder, with the task counts by kind |
| `ManifestWriter.Stream.PutStrip` | src/import_manifest.cpp:316-347 | the [strip] section with its counts by kind |
| `ManifestWriter.Stream.PutLoad` | src/import_manifest.cpp:355-367 | the [load] section |
| `ManifestWriter.Stream.PutRebuild` | src/import_manifest.cpp:388-422 | the [rebuild] section |
| `ManifestWriter.Stream.PutValidate` | src/import_manifest.cpp:431-458 | the [validate] section |
| `ManifestWriter.Stream.PutFk` | src/import_manifest.cpp:473-490 | the [fkdefine] section |
| `ManifestWriter.Stream.PutStats` | src/import_manifest.cpp:499-510 | the [stats] section |
| `ManifestWriter.Stream.PutPhases` | src/import_manifest.cpp:650-659 | the [phases] section |
| `ManifestText.TextRoundTrip` | src/import_manifest.cpp:1126-1186 | a rendered file splits into the lines it was made of |
| `ManifestText.LineRoundTrip` | src/import_manifest.cpp:844-855 | one line comes back as the header or pair it was |
| `ManifestValues.RecordRoundTrip` | src/import_manifest.cpp:791-819 | a tab record comes apart into its fields |
| `ManifestValues.ShortRecord` | src/import_manifest.cpp:785-790 | a record whose last field is empty comes back one field short |
| `ManifestValues.LoneName` | src/import_manifest.cpp:780-790 | a record of one name and an empty field comes back if and only if the name has no blank |
| `ManifestValues.RefRoundTrip` | src/import_manifest.cpp:983-1012 | an edge reference comes apart into child, parent and name |
| `ManifestValues.ColonsRoundTrip` | src/import_manifest.cpp:1015-1027 | a text behind a double colon comes apart at the first one |
| `ManifestValues.ListRoundTrip` | src/import_manifest.cpp:822-841 | a comma list comes apart into its items |
| `ManifestValues.NumberRoundTrip` | src/import_manifest.cpp:1378-1406 | a printed count is read back |
| `ManifestValues.WalkRoundTrip` | src/import_manifest.cpp:1226-1242 | a printed cycle comes apart into its nodes |
| `ManifestValues.ArrowAtTheEnd` | src/import_manifest.cpp:1226-1242 | outside the identifier domain it does not: any name ending in " ->" gives its arrow to the name behind it |
| `ManifestGraph.NodeRoundTrip` | src/import_manifest.cpp:909-927 | a gnode line gives the node back |
| `ManifestGraph.EdgeRoundTrip` | src/import_manifest.cpp:930-946 | a gfk line gives the edge back |
| `ManifestGraph.InheritRoundTrip` | src/import_manifest.cpp:949-961 | a ginh line gives the edge back |
| `ManifestLaws.OnePending` | src/import_manifest.cpp:1295-1318 | a pending key and its statement come back, an empty statement as "(none)" |
| `ManifestLaws.FailedRecord` | src/import_manifest.cpp:1322-1331 | an index failure comes back if and only if it has a reason or its name is one word |
| `ManifestLaws.FailureReads` | src/import_manifest.cpp:1446-1451 | a statistics failure comes back if and only if it has a reason |
| `ManifestLaws.OneResult` | src/import_manifest.cpp:1345-1377 | an edge line gives back edge and status, and adds to the tallies |
| `ManifestLaws.OneWithhold` | src/import_manifest.cpp:1422-1438 | a withheld edge and its statement come back |
| `ManifestSections.GraphReads` | src/import_manifest.cpp:1212-1247 | the [graph] section |
| `ManifestSections.PlanReads` | src/import_manifest.cpp:1248-1272 | the levels come back from a real plan, not from the placeholder |
| `ManifestSections.RebuildReads` | src/import_manifest.cpp:1280-1344 | the [rebuild] section |
| `ManifestSections.ValidateReads` | src/import_manifest.cpp:1345-1377 | the [validate] section |
| `ManifestSections.FkReads` | src/import_manifest.cpp:1407-1439 | the [fkdefine] section |
| `ManifestBridge.DecisionFromText` | src/import_db.cpp:569-715 | a run that finds the file decides what the protocol decides from the record it was printed from |
| `ManifestBridge.MemoryFromText` | src/import_db.cpp:1020-1254 | what a resumed run restores from the file is what the protocol restores from the record |
| `ManifestBridge.ValidationComesBack` | src/import_manifest.cpp:1365-1374 | a validation record comes back if and only if its tallies are those of its edges; the live phase counts violated edges as validated too |
| `ManifestBridge.ValidationReadBack` | src/import_manifest.cpp:1365-1374 | the tallies a resumed run works with are the ones the reader counts |
| `ManifestBridge.RebuildComesBack` | src/import_manifest.cpp:1308-1317 | a rebuild record comes back if and only if every pending key has a re-add statement |
| `ManifestBridge.RebuildPrintsTheSame` | src/import_manifest.cpp:404-404 | a resumed run prints the very [rebuild] section it read |
| `ManifestBridge.ReprintedReadsTheSame` | src/import_manifest.cpp:1100-1487 | writing and reading again loses nothing more |
| `AtomicWrite.Disk.Write` | src/import_manifest.cpp:667-736 | however the system answers and wherever the process dies, every state of the disk leaves the old file or the complete new one at the path, and no other file is touched |
| `AtomicWrite.Disk.WriteAll` | src/import_manifest.cpp:678-699 | short counts go on where they stopped and interrupted calls are repeated until all is written |
| `AtomicWrite.UnsyncedMayTear` | src/import_manifest.cpp:701-708 | renamed before the sync, the file could be found in part |
| `Preserve.Directory.Preserve` | src/import_manifest.cpp:1068-1098 | the manifest moves to the first free of the hundred backup names, to the last one when none is free |
| `Preserve.BackupsSurvive` | src/import_manifest.cpp:1078-1090 | under a free name every earlier backup survives and the manifest is kept whole |
| `Preserve.OverwritesIff` | src/import_manifest.cpp:1078-1090 | a backup is overwritten if and only if all hundred names are taken |

## Left out

- The server: a constraint catalog, a deterministic verdict per statement over the rows, atomic statements and transactions. A name already present is refused after the rows' verdict; a drop is accepted on the owner only, and for a key only while no foreign key refers to its class.
- SQL parsing, authorization windows, high availability, the page-buffer advisory, passwords and the session itself.
- Progress display, printed messages, option parsing, the run report and the discovery of the dump directory; the rostered set is an input.
- Constraint maps are keyed by the pair of class and name, where the source concatenates them with a tab; a name holding a tab is not modelled.
- `Recovery.Convergent`: the target is created by the import, so its rows and classes start out empty; a look-alike target appears only in the target check, because the protocol is one command over one database.
- `Recovery.Convergent`: convergence is of catalog, rows, triggers and the rebuilt, pending, defined and withheld records; the per-edge validation tallies of a resumed FK define differ by design, as the guard records a present edge without a validation entry.
- The commits that have nothing to commit, before the load and before FK define, are merged with their neighbours.
- The statistics phase is an opaque list of failed classes and the trigger phase an opaque verdict per named trigger; a trigger file that stops at a syntax error is not modelled.
- The rows counted after a load, the scratch logs and the ignore-class file of the load phase.
- `LoadPool.Pool.Load`: a child's pid is assumed not to be live under two files, as the kernel guarantees until it is reaped.
- The reason text of a withheld edge is a cause, worded by a parameter.
- `CallStatements.RewritesFile`: outside literals the laid-out statements hold no hyphen, slash or further keyword ON; what the scan does with comments is in `RewriteLaws.MarksAvoidOpaque`, `RewriteLaws.MinimalEdit` and `SecondPass.Idempotent`, which hold of every text.
- `CallRewrite.Rewrite`: the list of targets the pass declined, used for a failure hint only, is not modelled.
- Characters are single bytes of the C locale; there is no other encoding.
- Counters are unbounded where the source has 32-bit integers, and numbers are read without sign or overflow.
- `ManifestRoundTrip.RoundTrip`: identifiers are non-empty and trimmed, differ from "(none)" and hold no tab, newline, comma, bar, closing parenthesis, arrow, double colon or blank before an opening parenthesis; reasons and statements are on one line; object basenames hold no blank. What happens outside is shown by counterexamples, not characterised for every separator.
- Object-valued columns of a node are not serialised by the source and not part of the model.
- `AtomicWrite.Disk.Write`: the directory sync after the rename is not modelled; without it a crash may bring the old file back, which the property allows.
- The definition phase's own text handling besides the pre-11.5 rewrite: synonym collisions and failure hints.
- The graph builder's catalog queries; the snapshot is a function of the catalog.
