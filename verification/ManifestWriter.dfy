/** The printer as the program runs it: one stream, appended to section by section. */
module ManifestWriter {
  import opened Schema
  import opened ManifestText
  import opened ManifestValues
  import opened ManifestGraph
  import opened Manifest
  import Plan
  import Rebuild

  function Text(lines: seq<Line>): string { Unlines(RenderLines(lines)) }

  lemma {:induction false} TextConcat(a: seq<Line>, b: seq<Line>)
    ensures Text(a + b) == Text(a) + Text(b)
  {
    hide RenderLine;
    if a == [] {
      assert a + b == b;
    } else {
      assert (a + b)[1..] == a[1..] + b;
      TextConcat(a[1..], b);
    }
  }

  lemma TextNothing()
    ensures Text([]) == ""
  {
  }

  method CountKinds(s: seq<Stripped>) returns (fk: nat, unique: nat, pk: nat)
    ensures fk == OfKind(s, ForeignKey) && unique == OfKind(s, Unique) && pk == OfKind(s, PrimaryKey)
  {
    fk, unique, pk := 0, 0, 0;
    for i := 0 to |s|
      invariant fk == OfKind(s[..i], ForeignKey) && unique == OfKind(s[..i], Unique) && pk == OfKind(s[..i], PrimaryKey)
    {
      assert s[..i + 1][..i] == s[..i];
      match s[i].kind
      case ForeignKey => fk := fk + 1;
      case Unique => unique := unique + 1;
      case PrimaryKey => pk := pk + 1;
    }
    assert s[..|s|] == s;
  }

  method CountSerials(nodes: seq<Node>) returns (n: nat)
    ensures n == SerialEdges(nodes)
  {
    n := 0;
    for i := 0 to |nodes|
      invariant n == SerialEdges(nodes[..i])
    {
      assert nodes[..i + 1][..i] == nodes[..i];
      n := n + |nodes[i].serials|;
    }
    assert nodes[..|nodes|] == nodes;
  }

  method CountTasks(tasks: seq<Plan.Task>)
    returns (pk: nat, unique: nat, index: nat, fk: nat, stats: nat, triggers: nat)
    ensures pk == OfTask(tasks, Plan.RebuildPk) && unique == OfTask(tasks, Plan.RebuildUnique)
    ensures index == OfTask(tasks, Plan.BuildIndex) && fk == OfTask(tasks, Plan.FkDefine)
    ensures stats == OfTask(tasks, Plan.Stats) && triggers == OfTask(tasks, Plan.DefineTriggers)
  {
    pk, unique, index, fk, stats, triggers := 0, 0, 0, 0, 0, 0;
    for i := 0 to |tasks|
      invariant pk == OfTask(tasks[..i], Plan.RebuildPk) && unique == OfTask(tasks[..i], Plan.RebuildUnique)
      invariant index == OfTask(tasks[..i], Plan.BuildIndex) && fk == OfTask(tasks[..i], Plan.FkDefine)
      invariant stats == OfTask(tasks[..i], Plan.Stats) && triggers == OfTask(tasks[..i], Plan.DefineTriggers)
    {
      assert tasks[..i + 1][..i] == tasks[..i];
      match tasks[i].kind
      case RebuildPk => pk := pk + 1;
      case RebuildUnique => unique := unique + 1;
      case BuildIndex => index := index + 1;
      case FkDefine => fk := fk + 1;
      case Stats => stats := stats + 1;
      case DefineTriggers => triggers := triggers + 1;
    }
    assert tasks[..|tasks|] == tasks;
  }

  class Stream {
    var text: string

    constructor ()
      ensures text == ""
    {
      text := "";
    }

    method Put(l: Line)
      modifies this
      ensures text == old(text) + Text([l])
    {
      assert [l][1..] == [] && Text([]) == "";
      text := text + RenderLine(l) + "\n";
    }

    method PutAll(lines: seq<Line>)
      modifies this
      ensures text == old(text) + Text(lines)
    {
      hide RenderLine;
      ghost var was := text;
      assert lines[..0] == [];
      for i := 0 to |lines|
        invariant text == was + Text(lines[..i])
      {
        assert lines[..i + 1] == lines[..i] + [lines[i]];
        TextConcat(lines[..i], [lines[i]]);
        Put(lines[i]);
      }
      assert lines[..|lines|] == lines;
    }

    /** One list of a record, item by item. */
    method PutEach<T>(xs: seq<T>, f: T -> seq<Line>)
      modifies this
      ensures text == old(text) + Text(Each(xs, f))
    {
      hide Text, RenderLine;
      TextNothing();
      ghost var was := text;
      assert xs[0..] == xs;
      for i := 0 to |xs|
        invariant text + Text(Each(xs[i..], f)) == was + Text(Each(xs, f))
      {
        assert xs[i..][0] == xs[i] && xs[i..][1..] == xs[i + 1..];
        TextConcat(f(xs[i]), Each(xs[i + 1..], f));
        PutAll(f(xs[i]));
      }
      assert xs[|xs|..] == [];
    }

    method PutGraphSummary(g: Graph)
      modifies this
      ensures text == old(text) + Text([Header(NameOf(GraphPart))] + GraphCounts(g) + CycleLines(g) + SkippedLine(g))
    {
      hide Text, Count, Each, JoinList, SerialEdges, NameOf, NONE;
      var serials := CountSerials(g.nodes);
      var head := [Header(NameOf(GraphPart)), Count("nodes", |g.nodes|), Count("fk_edges", |g.fkEdges|),
                   Count("inherit_edges", |g.inheritEdges|), Count("serial_edges", serials)];
      assert head == [Header(NameOf(GraphPart))] + GraphCounts(g);
      PutAll(head);
      TextConcat(head, CycleLines(g));
      if g.cycles == [] { Put(Pair("cycles", NONE)); } else { PutEach(g.cycles, CycleLine); }
      TextConcat(head + CycleLines(g), SkippedLine(g));
      Put(Pair("skipped_classes", if g.skipped == [] then NONE else JoinList(g.skipped)));
    }

    method PutGraph(g: Graph)
      modifies this
      ensures text == old(text) + Text(Part(GraphPart, GraphBody(g)))
    {
      hide Text, Each, NameOf, GraphCounts, CycleLines, SkippedLine, NodeLine, EdgeLine, InheritLine;
      ghost var head := [Header(NameOf(GraphPart))] + GraphCounts(g) + CycleLines(g) + SkippedLine(g);
      ghost var a, b, c := Each(g.nodes, NodeLine), Each(g.fkEdges, EdgeLine), Each(g.inheritEdges, InheritLine);
      PutGraphSummary(g);
      TextConcat(head, a);
      PutEach(g.nodes, NodeLine);
      TextConcat(head + a, b);
      PutEach(g.fkEdges, EdgeLine);
      TextConcat(head + a + b, c);
      PutEach(g.inheritEdges, InheritLine);
      TextConcat(head + a + b + c, [Gap]);
      Put(Gap);
      assert head + a + b + c == [Header(NameOf(GraphPart))] + GraphBody(g);
    }

    method PutPlan(plan: Option<Planned>)
      modifies this
      ensures text == old(text) + Text(Part(PlanPart, PlanBody(plan)))
    {
      hide Text, Count, JoinLevels, OfTask, NameOf;
      match plan
      case None => PutAll([Header(NameOf(PlanPart))] + [Pair("planned_order", PLACEHOLDER)] + [Gap]);
      case Some(p) =>
        var pk, unique, index, fk, stats, triggers := CountTasks(p.tasks);
        var order := [Pair("planned_order", if p.levels == [] then NONE else JoinLevels(p.levels))];
        var counts := [Count("data_levels", |p.levels|), Count("terminal_tasks", |p.tasks|), Count("rebuild_pk", pk),
                       Count("rebuild_unique", unique), Count("build_index", index), Count("fk_define", fk),
                       Count("stats", stats), Count("define_triggers", triggers)];
        assert counts == TaskCounts(p);
        PutAll([Header(NameOf(PlanPart))] + (order + counts) + [Gap]);
    }

    method PutStrip(s: seq<Stripped>)
      modifies this
      ensures text == old(text) + Text(Part(StripPart, StripBody(s)))
    {
      hide Text, Count, Each, OfKind, NameOf;
      var fk, unique, pk := CountKinds(s);
      var counts := [Count("stripped", |s|), Count("fk", fk), Count("unique", unique), Count("pk", pk)];
      assert counts == StripCounts(s);
      PutListed(StripPart, counts, s, DropLine);
    }

    /** A section of counts and one list. */
    method PutListed<T>(p: Section, counts: seq<Line>, xs: seq<T>, f: T -> seq<Line>)
      modifies this
      ensures text == old(text) + Text(Part(p, counts + Each(xs, f)))
    {
      hide Text, Each, NameOf;
      var head := [Header(NameOf(p))] + counts;
      PutAll(head);
      TextConcat(head, Each(xs, f));
      PutEach(xs, f);
      TextConcat(head + Each(xs, f), [Gap]);
      Put(Gap);
      assert head + Each(xs, f) == [Header(NameOf(p))] + (counts + Each(xs, f));
    }

    method PutLoad(l: Load)
      modifies this
      ensures text == old(text) + Text(Part(LoadPart, LoadBody(l)))
    {
      hide Text, Count, Each, Part;
      var counts := [Count("loaded_files", l.loadedFiles)] + [Count("total_rows", l.totalRows)] + [Count("total_failed", l.totalFailed)];
      PutListed(LoadPart, counts, l.files, FileLine);
    }

    method PutRebuild(r: Rebuild.Summary)
      modifies this
      ensures text == old(text) + Text(Part(RebuildPart, RebuildBody(r)))
    {
      hide Text, Count, Each, NameOf, OkLine, IndexLine;
      ghost var a, b, c := Each(r.rebuilt, OkLine), Each(r.pending, PendingLine), Each(r.indexes, IndexLine);
      ghost var d, e := Each(r.failedIndexes, FailedLine), Each(r.withheld, CascadeLine);
      var head := [Header(NameOf(RebuildPart))] + RebuildCounts(r);
      PutAll(head);
      TextConcat(head, a);
      PutEach(r.rebuilt, OkLine);
      TextConcat(head + a, b);
      PutEach(r.pending, PendingLine);
      TextConcat(head + a + b, c);
      PutEach(r.indexes, IndexLine);
      TextConcat(head + a + b + c, d);
      PutEach(r.failedIndexes, FailedLine);
      TextConcat(head + a + b + c + d, e);
      PutEach(r.withheld, CascadeLine);
      TextConcat(head + a + b + c + d + e, [Gap]);
      Put(Gap);
      assert head + a + b + c + d + e == [Header(NameOf(RebuildPart))] + RebuildBody(r);
    }

    method PutValidate(v: Validation)
      modifies this
      ensures text == old(text) + Text(Part(ValidatePart, ValidateBody(v)))
    {
      hide Text, Count, Each, Part, OrNone;
      PutListed(ValidatePart, ValidateCounts(v) + ExceptionsLine(v.exceptionsFile), v.edges, ResultLine);
    }

    method PutFk(f: FkRecord)
      modifies this
      ensures text == old(text) + Text(Part(FkPart, FkBody(f)))
    {
      hide Text, Count, Each, NameOf, OrNone, ExceptionsLine;
      var head := [Header(NameOf(FkPart))] + (FkCounts(f) + ExceptionsLine(f.exceptionsFile));
      ghost var a, b := Each(f.defined, DefineLine), Each(f.withheld, WithholdLine);
      PutAll(head);
      TextConcat(head, a);
      PutEach(f.defined, DefineLine);
      TextConcat(head + a, b);
      PutEach(f.withheld, WithholdLine);
      TextConcat(head + a + b, [Gap]);
      Put(Gap);
      assert head + a + b == [Header(NameOf(FkPart))] + FkBody(f);
    }

    method PutStats(s: Stats)
      modifies this
      ensures text == old(text) + Text(Part(StatsPart, StatsBody(s)))
    {
      hide Text, Count, Each, Part;
      PutListed(StatsPart, [Count("updated", s.updated)] + [Count("failed", |s.failed|)], s.failed, StatsLine);
    }

    method PutPhases(reached: Reached)
      modifies this
      ensures text == old(text) + Text(PhaseSection(reached))
    {
      hide Text, RenderLine, NameOf, PhaseLine;
      var head := [Header(NameOf(PhasePart))] + [Pair("current", PhaseName(reached))];
      TextConcat(head, PhaseLines(0, reached));
      PutAll(head);
      PutPhaseLines(reached);
    }

    method PutPhaseLines(reached: nat)
      modifies this
      ensures text == old(text) + Text(PhaseLines(0, reached))
    {
      hide Text, RenderLine, PhaseLine;
      TextNothing();
      ghost var was := text;
      for i := 0 to |PHASES|
        invariant text + Text(PhaseLines(i, reached)) == was + Text(PhaseLines(0, reached))
      {
        TextConcat([PhaseLine(i, reached)], PhaseLines(i + 1, reached));
        Put(PhaseLine(i, reached));
      }
      assert PhaseLines(|PHASES|, reached) == [] && text + "" == text;
    }

    method PutEarly(m: Input)
      modifies this
      ensures text == old(text) + Text(EarlySections(m))
    {
      hide Text, Part, GraphBody, StripBody, LoadBody, RebuildBody;
      TextNothing();
      ghost var a, b := Maybe(GraphPart, m.graph, GraphBody), Maybe(StripPart, m.strip, StripBody);
      ghost var c, d := Maybe(LoadPart, m.load, LoadBody), Maybe(RebuildPart, m.rebuild, RebuildBody);
      TextConcat(a, b);
      TextConcat(a + b, c);
      TextConcat(a + b + c, d);
      if m.graph.Some? { PutGraph(m.graph.value); }
      if m.strip.Some? { PutStrip(m.strip.value); }
      if m.load.Some? { PutLoad(m.load.value); }
      if m.rebuild.Some? { PutRebuild(m.rebuild.value); }
    }

    method PutLate(m: Input)
      modifies this
      ensures text == old(text) + Text(LateSections(m))
    {
      hide Text, Part, ValidateBody, FkBody, StatsBody, TriggerBody;
      TextNothing();
      ghost var a, b := Maybe(ValidatePart, m.validate, ValidateBody), Maybe(FkPart, m.fkdefine, FkBody);
      ghost var c, d := Maybe(StatsPart, m.stats, StatsBody), Maybe(TriggerPart, m.triggers, TriggerBody);
      TextConcat(a, b);
      TextConcat(a + b, c);
      TextConcat(a + b + c, d);
      if m.validate.Some? { PutValidate(m.validate.value); }
      if m.fkdefine.Some? { PutFk(m.fkdefine.value); }
      if m.stats.Some? { PutStats(m.stats.value); }
      if m.triggers.Some? { PutAll(Part(TriggerPart, TriggerBody(m.triggers.value))); }
    }
  }

  /** `render_manifest`: preamble, set, plan, the sections of the records there are, phases. */
  method RenderManifest(m: Input) returns (text: string)
    ensures text == Render(m)
  {
    hide Text, Preamble, Part, SetBody, PlanBody, EarlySections, LateSections, PhaseSection, Unlines, RenderLines;
    var os := new Stream();
    var start := Preamble(m.created) + Part(SetPart, SetBody(m.roster));
    ghost var plan := start + Part(PlanPart, PlanBody(m.plan));
    ghost var early, late := EarlySections(m), LateSections(m);
    os.PutAll(start);
    TextConcat(start, Part(PlanPart, PlanBody(m.plan)));
    os.PutPlan(m.plan);
    TextConcat(plan, early);
    os.PutEarly(m);
    TextConcat(plan + early, late);
    os.PutLate(m);
    TextConcat(plan + early + late, PhaseSection(m.reached));
    os.PutPhases(m.reached);
    text := os.text;
    TextIs(Lines(m));
  }

  lemma TextIs(lines: seq<Line>)
    ensures Text(lines) == Unlines(RenderLines(lines))
  {
  }
}
