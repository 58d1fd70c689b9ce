/** The machine's manifest is what the text carries: decisions, verdicts and restored records
    taken from the file agree with those taken from the record it was printed from. */
module ManifestBridge {
  import opened Schema
  import opened ManifestText
  import opened ManifestValues
  import opened ManifestGraph
  import opened Manifest
  import opened ManifestLaws
  import opened ManifestSections
  import opened ManifestRoundTrip
  import FkDefine
  import Pipeline
  import Rebuild

  // ----- the tallies a reader counts again -----

  lemma {:induction false} TallySnoc(v: Validation, es: seq<EdgeResult>, e: EdgeResult)
    ensures TallyAll(v, es + [e]) == Tally(TallyAll(v, es), e)
    decreases |es|
  {
    hide Tally;
    if es == [] {
      assert [] + [e] == [e] && [e][1..] == [];
    } else {
      assert (es + [e])[1..] == es[1..] + [e];
      TallySnoc(Tally(v, es[0]), es[1..], e);
    }
  }

  function CountSkipped(es: seq<EdgeResult>): nat {
    if es == [] then 0 else CountSkipped(es[..|es| - 1]) + if es[|es| - 1].skipped then 1 else 0
  }

  function CountViolated(es: seq<EdgeResult>): nat {
    if es == [] then 0
    else CountViolated(es[..|es| - 1]) + if !es[|es| - 1].skipped && es[|es| - 1].orphans > 0 then 1 else 0
  }

  function SumOrphans(es: seq<EdgeResult>): nat {
    if es == [] then 0
    else SumOrphans(es[..|es| - 1]) + if es[|es| - 1].skipped then 0 else es[|es| - 1].orphans
  }

  lemma {:induction false} Tallies(v: Validation, es: seq<EdgeResult>)
    ensures CountSkipped(es) + CountViolated(es) <= |es|
    ensures TallyAll(v, es) == Validation(v.edges + es, v.exceptionsFile,
      v.validated + |es| - CountSkipped(es) - CountViolated(es), v.skipped + CountSkipped(es), v.violated + CountViolated(es),
      v.totalOrphans + SumOrphans(es))
  {
    if es == [] {
      assert v.edges + es == v.edges;
    } else {
      var init, e := es[..|es| - 1], es[|es| - 1];
      assert es == init + [e] && v.edges + es == v.edges + init + [e];
      Tallies(v, init);
      TallySnoc(v, init, e);
    }
  }

  /** A validation record comes back whole exactly when its tallies are those of its edges; the live
      phase counts a violated edge as validated too, so one with a violation does not. */
  lemma ValidationComesBack(v: Validation)
    ensures ValidateBack(v).edges == v.edges && ValidateBack(v).exceptionsFile == v.exceptionsFile
    ensures ValidateBack(v) == v <==>
      && v.skipped == CountSkipped(v.edges) && v.violated == CountViolated(v.edges) && v.totalOrphans == SumOrphans(v.edges)
      && v.validated == |v.edges| - CountSkipped(v.edges) - CountViolated(v.edges)
  {
    Tallies(EMPTY_VALIDATION.(exceptionsFile := v.exceptionsFile), v.edges);
    assert [] + v.edges == v.edges;
  }

  // ----- printing what came back -----

  lemma {:induction false} PrintedAgain(ps: seq<Rebuild.Pending>)
    ensures Each(PrintedAll(ps), PendingLine) == Each(ps, PendingLine) && PrintedAll(PrintedAll(ps)) == PrintedAll(ps)
    ensures |PrintedAll(ps)| == |ps|
  {
    hide Record;
    if ps != [] { PrintedAgain(ps[1..]); }
  }

  lemma {:induction false} PrintedIsSame(ps: seq<Rebuild.Pending>)
    ensures PrintedAll(ps) == ps <==> forall p :: p in ps ==> p.readd != ""
  {
    hide Each;
    PrintedAgain(ps);
    if ps != [] {
      assert ps == [ps[0]] + ps[1..] && PrintedAll(ps) == [Printed(ps[0])] + PrintedAll(ps[1..]);
      PrintedIsSame(ps[1..]);
      assert PrintedAll(ps) == ps <==> Printed(ps[0]) == ps[0] && PrintedAll(ps[1..]) == ps[1..] by {
        if PrintedAll(ps) == ps { assert PrintedAll(ps)[0] == ps[0] && PrintedAll(ps)[1..] == ps[1..]; }
      }
    }
  }

  /** A rebuild record comes back as it was exactly when every pending key has a statement to re-add it. */
  lemma RebuildComesBack(r: Rebuild.Summary)
    ensures RebuildBack(r) == r <==> forall p :: p in r.pending ==> p.readd != ""
  {
    PrintedIsSame(r.pending);
  }

  /** The re-add statement lost on the way in is lost on the way out as well: a resumed run prints
      the very section it read. */
  lemma RebuildPrintsTheSame(r: Rebuild.Summary)
    ensures RebuildBody(RebuildBack(r)) == RebuildBody(r) && RebuildBack(RebuildBack(r)) == RebuildBack(r)
  {
    hide Each;
    PrintedAgain(r.pending);
  }

  lemma ValidateBackAgain(v: Validation)
    ensures ValidateBack(ValidateBack(v)) == ValidateBack(v)
  {
    ValidationComesBack(v);
  }

  /** What a resumed run prints when it has added nothing. */
  function Reprinted(m: Input): Input {
    m.(graph := if m.graph.Some? then Some(m.graph.value.(database := m.roster.database)) else None,
       rebuild := if m.rebuild.Some? then Some(RebuildBack(m.rebuild.value)) else None,
       validate := if m.validate.Some? then Some(ValidateBack(m.validate.value)) else None)
  }

  /** Writing and reading again loses nothing more. */
  lemma ReprintedReadsTheSame(m: Input)
    ensures Back(Reprinted(m)) == Back(m)
  {
    hide RebuildBack, ValidateBack, RebuildBody, LevelsOf;
    if m.rebuild.Some? { RebuildPrintsTheSame(m.rebuild.value); }
    if m.validate.Some? { ValidateBackAgain(m.validate.value); }
  }

  // ----- the machine's record and its text -----

  function TextRef(e: FkDefine.EdgeRef): Ref { Ref(e.child, e.parent, e.name) }

  function TextEdges(es: seq<FkDefine.EdgeResult>): (r: seq<EdgeResult>)
    ensures |r| == |es|
  {
    if es == [] then []
    else TextEdges(es[..|es| - 1]) + [EdgeResult(TextRef(es[|es| - 1].edge), es[|es| - 1].orphans, false)]
  }

  function TextDefined(ds: seq<FkDefine.EdgeRef>): (r: seq<Ref>)
    ensures |r| == |ds|
  {
    if ds == [] then [] else TextDefined(ds[..|ds| - 1]) + [TextRef(ds[|ds| - 1])]
  }

  /** `say` words the cause. */
  function TextWithheld(ws: seq<FkDefine.Withheld>, say: FkDefine.Cause -> string): (r: seq<Withheld>)
    ensures |r| == |ws|
  {
    if ws == [] then []
    else
      var w := ws[|ws| - 1];
      TextWithheld(ws[..|ws| - 1], say) + [Withheld(TextRef(w.edge), say(w.cause), w.readd)]
  }

  function Classes(fs: seq<StatsFailure>): (r: seq<string>)
    ensures |r| == |fs|
  {
    if fs == [] then [] else [fs[0].cls] + Classes(fs[1..])
  }

  function MapSome<A, B>(x: Option<A>, f: A -> B): Option<B> { if x.Some? then Some(f(x.value)) else None }

  /** `i` is a printing of the machine's record `m`. */
  predicate Prints(i: Input, m: Pipeline.Manifest, say: FkDefine.Cause -> string) {
    && i.roster.database == m.database && i.roster.prefix == m.prefix && i.reached == m.reached
    && i.graph == m.graph && i.strip == m.strip && i.rebuild == m.rebuild
    && MapSome(i.plan, (p: Planned) => p.levels) == m.plan
    && MapSome(i.load, (l: Load) => l.totalRows) == m.load
    && MapSome(i.validate, (v: Validation) => v.edges) == MapSome(m.validate, (v: FkDefine.Validation) => TextEdges(v.edges))
    && MapSome(i.fkdefine, (f: FkRecord) => f.defined) == MapSome(m.fkdefine, (f: FkDefine.Summary) => TextDefined(f.defined))
    && MapSome(i.fkdefine, (f: FkRecord) => f.withheld) == MapSome(m.fkdefine, (f: FkDefine.Summary) => TextWithheld(f.withheld, say))
    && MapSome(i.stats, (s: Stats) => Classes(s.failed)) == m.stats
    && MapSome(i.triggers, (t: TriggerRecord) => Pipeline.TriggerRecord(t.defined, t.failed)) == m.triggers
  }

  lemma {:induction false} EdgeTallies(es: seq<FkDefine.EdgeResult>)
    ensures CountSkipped(TextEdges(es)) == 0 && CountViolated(TextEdges(es)) == Pipeline.ViolatedEdges(es)
    ensures SumOrphans(TextEdges(es)) == Pipeline.OrphanTotal(es)
  {
    if es != [] {
      var init, t := es[..|es| - 1], TextEdges(es);
      EdgeTallies(init);
      assert t[..|t| - 1] == TextEdges(init);
    }
  }

  /** The tallies a resumed machine works with are the ones the reader counts. */
  lemma ValidationReadBack(v: FkDefine.Validation, t: Validation)
    requires t.edges == TextEdges(v.edges)
    ensures var (b, r) := (Pipeline.ReadBack(v), ValidateBack(t));
      && r.edges == TextEdges(b.edges) && r.validated == b.validated && r.violated == b.violated
      && r.totalOrphans == b.totalOrphans && r.skipped == 0
  {
    hide TextEdges;
    Pipeline.ViolatedAreEdges(v.edges);
    EdgeTallies(v.edges);
    Tallies(EMPTY_VALIDATION.(exceptionsFile := t.exceptionsFile), t.edges);
    assert [] + t.edges == t.edges;
  }

  // ----- the decision -----

  /** The completeness checks of the resume decision, on what was read. */
  predicate DocResumable(env: Pipeline.Env, d: Doc, p: nat) {
    && d.database == env.roster.database && d.prefix == env.roster.prefix && p != Pipeline.DISCOVERED
    && (p >= Pipeline.STRIPPED ==> GraphPart in d.has && StripPart in d.has)
    && (p >= Pipeline.LOADED ==> LoadPart in d.has)
    && (p >= Pipeline.REBUILT ==> RebuildPart in d.has)
    && (p >= Pipeline.FK_DEFINED ==> ValidatePart in d.has && FkPart in d.has)
    && (p >= Pipeline.STATS_UPDATED ==> StatsPart in d.has)
  }

  predicate DocClean(d: Doc) {
    && d.rebuild.pending == [] && d.rebuild.failedIndexes == [] && d.fkdefine.withheld == [] && d.stats.failed == []
    && d.triggers.failed == 0 && d.validate.violated == 0
  }

  /** None when the file records no phase: the run refuses and touches nothing. */
  function DecideText(env: Pipeline.Env, d: Doc): Option<Pipeline.Decision> {
    if env.restart || d.version > 3 then Some(Pipeline.Fresh(true))
    else if d.reached.None? then None
    else if d.reached.value == Pipeline.DONE then Some(Pipeline.AlreadyDone(DocClean(d)))
    else if DocResumable(env, d, d.reached.value) then Some(Pipeline.Resume)
    else Some(Pipeline.Fresh(true))
  }

  lemma EarlyHeld(i: Input, p: Section)
    ensures p in EarlyParts(i) <==>
      || (p == GraphPart && i.graph.Some?) || (p == StripPart && i.strip.Some?) || (p == LoadPart && i.load.Some?)
      || (p == RebuildPart && i.rebuild.Some?)
  {
  }

  lemma LateHeld(i: Input, p: Section)
    ensures p in LateParts(i) <==>
      || (p == ValidatePart && i.validate.Some?) || (p == FkPart && i.fkdefine.Some?) || (p == StatsPart && i.stats.Some?)
      || (p == TriggerPart && i.triggers.Some?)
  {
  }

  lemma PartHeld(i: Input, p: Section)
    ensures p in SectionsOf(i) <==>
      || p in {SetPart, PlanPart, PhasePart}
      || (p == GraphPart && i.graph.Some?) || (p == StripPart && i.strip.Some?) || (p == LoadPart && i.load.Some?)
      || (p == RebuildPart && i.rebuild.Some?) || (p == ValidatePart && i.validate.Some?)
      || (p == FkPart && i.fkdefine.Some?) || (p == StatsPart && i.stats.Some?) || (p == TriggerPart && i.triggers.Some?)
  {
    hide EarlyParts, LateParts;
    EarlyHeld(i, p);
    LateHeld(i, p);
  }

  lemma PartsHeld(i: Input)
    ensures var s := SectionsOf(i);
      && (GraphPart in s) == i.graph.Some? && (StripPart in s) == i.strip.Some? && (LoadPart in s) == i.load.Some?
      && (RebuildPart in s) == i.rebuild.Some? && (ValidatePart in s) == i.validate.Some?
      && (FkPart in s) == i.fkdefine.Some? && (StatsPart in s) == i.stats.Some?
  {
    hide EarlyParts, LateParts, SectionsOf;
    PartHeld(i, GraphPart);
    PartHeld(i, StripPart);
    PartHeld(i, LoadPart);
    PartHeld(i, RebuildPart);
    PartHeld(i, ValidatePart);
    PartHeld(i, FkPart);
    PartHeld(i, StatsPart);
  }

  /** The presence of each record, and the identity. */
  lemma PrintsShape(i: Input, m: Pipeline.Manifest, say: FkDefine.Cause -> string)
    requires Prints(i, m, say)
    ensures i.roster.database == m.database && i.roster.prefix == m.prefix && i.reached == m.reached
    ensures i.graph.Some? == m.graph.Some? && i.strip.Some? == m.strip.Some? && i.load.Some? == m.load.Some?
    ensures i.rebuild.Some? == m.rebuild.Some? && i.validate.Some? == m.validate.Some?
    ensures i.fkdefine.Some? == m.fkdefine.Some? && i.stats.Some? == m.stats.Some?
  {
    hide TextEdges, TextDefined, TextWithheld, Classes;
  }

  lemma ResumableFromText(env: Pipeline.Env, m: Pipeline.Manifest, i: Input, say: FkDefine.Cause -> string)
    requires Prints(i, m, say)
    ensures DocResumable(env, Back(i), i.reached) == Pipeline.Resumable(env, m)
  {
    hide RebuildBack, ValidateBack, Prints, SectionsOf;
    PartsHeld(i);
    PrintsShape(i, m, say);
  }

  lemma CleanFromText(m: Pipeline.Manifest, i: Input, say: FkDefine.Cause -> string)
    requires Prints(i, m, say)
    ensures DocClean(Back(i)) == Pipeline.RecordsClean(m)
  {
    hide RebuildBack, ValidateBack, TextEdges, TextDefined, TextWithheld, Classes, SectionsOf;
    if i.rebuild.Some? { SamePending(i.rebuild.value); }
    if i.validate.Some? { ValidationReadBack(m.validate.value, i.validate.value); }
    if i.fkdefine.Some? { assert |i.fkdefine.value.withheld| == |m.fkdefine.value.withheld|; }
    if i.stats.Some? { assert |i.stats.value.failed| == |m.stats.value|; }
  }

  lemma SamePending(r: Rebuild.Summary)
    ensures (RebuildBack(r).pending == []) == (r.pending == []) && RebuildBack(r).failedIndexes == r.failedIndexes
  {
    PrintedAgain(r.pending);
  }

  /** A run that finds the file decides what the machine decides from the record. */
  lemma DecisionFromText(env: Pipeline.Env, m: Pipeline.Manifest, i: Input, say: FkDefine.Cause -> string)
    requires Prints(i, m, say) && IsInput(i)
    ensures DecideText(env, Read(Render(i))) == Some(Pipeline.Decide(env, Some(m)))
  {
    hide IsInput, Prints, Read, Render, DocResumable, DocClean, Pipeline.Resumable, Pipeline.RecordsClean, SectionsOf,
         LevelsOf, RebuildBack, ValidateBack;
    RoundTrip(i);
    PrintsPhase(i, m, say);
    ResumableFromText(env, m, i, say);
    CleanFromText(m, i, say);
  }

  lemma PrintsPhase(i: Input, m: Pipeline.Manifest, say: FkDefine.Cause -> string)
    requires Prints(i, m, say)
    ensures i.reached == m.reached
  {
    hide TextWithheld, TextRef;
  }

  /** A process resumed at the marker `p` holds what the file says, up to the rebuild. */
  predicate HoldsEarly(mem: Pipeline.Mem, d: Doc, p: Pipeline.Phase) {
    && mem.from == Some(p) && mem.hasGraph == (GraphPart in d.has) && mem.planned == d.levels
    && (mem.hasGraph ==> mem.graph == d.graph)
    && (p >= Pipeline.STRIPPED ==> mem.strip == d.strip)
    && (p >= Pipeline.LOADED ==> mem.load == d.load.totalRows)
    && (p >= Pipeline.REBUILT ==> d.rebuild == RebuildBack(mem.rebuild))
  }

  /** And after it. */
  predicate HoldsLate(mem: Pipeline.Mem, d: Doc, p: Pipeline.Phase, say: FkDefine.Cause -> string) {
    && (p >= Pipeline.FK_DEFINED ==>
          && d.validate.edges == TextEdges(mem.validate.edges) && d.validate.validated == mem.validate.validated
          && d.validate.violated == mem.validate.violated && d.validate.totalOrphans == mem.validate.totalOrphans
          && d.fkdefine.defined == TextDefined(mem.fkdefine.defined)
          && d.fkdefine.withheld == TextWithheld(mem.fkdefine.withheld, say))
    && (p >= Pipeline.STATS_UPDATED ==> Classes(d.stats.failed) == mem.stats)
  }

  /** The graph of the record is the one of its database. */
  predicate OwnGraph(m: Pipeline.Manifest) { m.graph.Some? ==> m.graph.value.database == m.database }

  lemma EarlyMemory(db: Pipeline.Db, m: Pipeline.Manifest, i: Input, say: FkDefine.Cause -> string)
    requires Prints(i, m, say) && OwnGraph(m)
    ensures HoldsEarly(Pipeline.ResumedMem(db, m), Back(i), m.reached)
  {
    hide RebuildBack, ValidateBack, TextEdges, TextDefined, TextWithheld, Classes, SectionsOf, Pipeline.ReadBack;
    PartsHeld(i);
    NothingRebuilt();
  }

  lemma NothingRebuilt()
    ensures RebuildBack(Rebuild.EMPTY) == Rebuild.EMPTY
  {
  }

  lemma LateMemory(db: Pipeline.Db, m: Pipeline.Manifest, i: Input, say: FkDefine.Cause -> string)
    requires Prints(i, m, say)
    ensures HoldsLate(Pipeline.ResumedMem(db, m), Back(i), m.reached, say)
  {
    hide RebuildBack, ValidateBack, SectionsOf, Pipeline.ReadBack, TextEdges, TextDefined, TextWithheld, LevelsOf;
    if i.validate.Some? { ValidationReadBack(m.validate.value, i.validate.value); }
  }

  /** What a resumed run restores from the file is what the machine restores from the record. */
  lemma MemoryFromText(db: Pipeline.Db, m: Pipeline.Manifest, i: Input, say: FkDefine.Cause -> string)
    requires Prints(i, m, say) && IsInput(i) && OwnGraph(m)
    ensures HoldsEarly(Pipeline.ResumedMem(db, m), Read(Render(i)), m.reached)
    ensures HoldsLate(Pipeline.ResumedMem(db, m), Read(Render(i)), m.reached, say)
  {
    hide *;
    RoundTrip(i);
    EarlyMemory(db, m, i, say);
    LateMemory(db, m, i, say);
  }
}
