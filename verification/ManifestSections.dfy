/** Reading back each section of the manifest. */
module ManifestSections {
  import opened Schema
  import opened DdlText
  import opened ManifestText
  import opened ManifestValues
  import opened ManifestGraph
  import opened Manifest
  import opened ManifestLaws
  import Rebuild
  import Plan

  // ----- [graph] -----

  ghost predicate IsGraph(g: Graph) {
    && (forall n :: n in g.nodes ==> IsNode(n)) && (forall e :: e in g.fkEdges ==> IsEdge(e))
    && (forall e :: e in g.inheritEdges ==> IsInherit(e)) && (forall w :: w in g.cycles ==> IsWalk(w)) && AreNames(g.skipped)
  }

  const NO_GRAPH := Graph("", [], [], [], [], [])

  lemma GraphCountsPass(r: Graph, g: Graph)
    ensures Takes(r, GraphCounts(g), ReadGraph, r)
  {
    hide Takes, Sound, Count, ParseNode, ParseEdge, ParseInherit, ParseWalk, ParseList, SerialEdges;
    CountIsSound("nodes", |g.nodes|);
    CountIsSound("fk_edges", |g.fkEdges|);
    CountIsSound("inherit_edges", |g.inheritEdges|);
    CountIsSound("serial_edges", SerialEdges(g.nodes));
    Ignored(r, GraphCounts(g), ReadGraph);
  }

  lemma NoneIsNoList()
    ensures ParseList(NONE) == [] && Trim(NONE) == NONE && OneLine(NONE)
  {
    hide Trim;
    TrimIdle(NONE);
  }

  lemma NameIsOneLine(s: string)
    requires IsPlainName(s)
    ensures OneLine(s)
  {
  }

  lemma CyclesTake(r: Graph, g: Graph)
    requires r.cycles == [] && forall w :: w in g.cycles ==> IsWalk(w)
    ensures Takes(r, CycleLines(g), ReadGraph, r.(cycles := g.cycles))
  {
    hide Takes, ParseNode, ParseEdge, ParseInherit, ParseWalk, ParseList, Trim, Each, IsKey, Join, IsName, OneLine;
    GraphKeys();
    if g.cycles == [] {
      KeyWord("cycles");
      NoneIsNoList();
      TakesOne(r, "cycles", NONE, ReadGraph);
      assert r.(cycles := g.cycles) == r;
    } else {
      forall e: Graph, w | w in g.cycles ensures Takes(e, CycleLine(w), ReadGraph, e.(cycles := e.cycles + [w])) {
        WalkRoundTrip(w);
        TrimIdle(WalkText(w));
        forall n | n in w ensures OneLine(n) { NameIsOneLine(n); }
        JoinIsOneLine(w, " -> ");
        TakesOne(e, "cycle", WalkText(w), ReadGraph);
      }
      EachAppends(r, g.cycles, CycleLine, ReadGraph, (e: Graph) => e.cycles, (e: Graph, v: seq<seq<string>>) => e.(cycles := v));
      assert [] + g.cycles == g.cycles;
    }
  }

  lemma SkippedTakes(r: Graph, g: Graph)
    requires AreNames(g.skipped)
    ensures Takes(r, SkippedLine(g), ReadGraph, r.(skipped := g.skipped))
  {
    hide Takes, ParseNode, ParseEdge, ParseInherit, ParseWalk, Trim, JoinList, ParseList, IsKey, AreNames, Trimmed,
         IsKeyWord;
    KeyWord("skipped_classes");
    NamesAreItems(g.skipped);
    NoneIsNoList();
    TrimIdle(JoinList(g.skipped));
    TakesOne(r, "skipped_classes", if g.skipped == [] then NONE else JoinList(g.skipped), ReadGraph);
  }

  /** The database of a graph is that of the roster and not written with it. */
  function WithoutDatabase(g: Graph): Graph { g.(database := "") }

  lemma GraphReads(g: Graph)
    requires IsGraph(g)
    ensures Takes(NO_GRAPH, GraphBody(g), ReadGraph, WithoutDatabase(g))
  {
    hide Takes, IsNode, IsEdge, IsWalk, AreNames, GraphCounts, CycleLines, SkippedLine, Each, Trim, NodeText, EdgeText,
         Join, ParseNode, ParseEdge, ParseInherit, ParseWalk, ParseList, IsKey, IsName, OneLine, IsPlainName;
    GraphKeys();
    var a, b, c := GraphCounts(g), CycleLines(g), SkippedLine(g);
    var x, y, z := Each(g.nodes, NodeLine), Each(g.fkEdges, EdgeLine), Each(g.inheritEdges, InheritLine);
    var r := NO_GRAPH.(cycles := g.cycles);
    var s := r.(skipped := g.skipped);
    var t := s.(nodes := g.nodes);
    var u := t.(fkEdges := g.fkEdges);
    GraphCountsPass(NO_GRAPH, g);
    CyclesTake(NO_GRAPH, g);
    SkippedTakes(r, g);
    forall e: Graph, x | x in g.nodes ensures Takes(e, NodeLine(x), ReadGraph, e.(nodes := e.nodes + [x])) {
      NodeRoundTrip(x);
      NodeIsOneLine(x);
      TakesOne(e, "gnode", NodeText(x), ReadGraph);
    }
    EachAppends(s, g.nodes, NodeLine, ReadGraph, (e: Graph) => e.nodes, (e: Graph, v: seq<Node>) => e.(nodes := v));
    forall e: Graph, x | x in g.fkEdges ensures Takes(e, EdgeLine(x), ReadGraph, e.(fkEdges := e.fkEdges + [x])) {
      EdgeRoundTrip(x);
      EdgeIsOneLine(x);
      TakesOne(e, "gfk", EdgeText(x), ReadGraph);
    }
    EachAppends(t, g.fkEdges, EdgeLine, ReadGraph, (e: Graph) => e.fkEdges, (e: Graph, v: seq<FkEdge>) => e.(fkEdges := v));
    forall e: Graph, x | x in g.inheritEdges
      ensures Takes(e, InheritLine(x), ReadGraph, e.(inheritEdges := e.inheritEdges + [x]))
    {
      InheritRoundTrip(x);
      NameIsOneLine(x.child);
      NameIsOneLine(x.super);
      JoinIsOneLine([x.child, x.super], "\t");
      TakesOne(e, "ginh", InheritText(x), ReadGraph);
    }
    EachAppends(u, g.inheritEdges, InheritLine, ReadGraph, (e: Graph) => e.inheritEdges,
                (e: Graph, v: seq<InheritEdge>) => e.(inheritEdges := v));
    assert [] + g.nodes == g.nodes && [] + g.fkEdges == g.fkEdges && [] + g.inheritEdges == g.inheritEdges;
    Then(NO_GRAPH, a, ReadGraph, NO_GRAPH, b, r);
    Then(NO_GRAPH, a + b, ReadGraph, r, c, s);
    Then(NO_GRAPH, a + b + c, ReadGraph, s, x, t);
    Then(NO_GRAPH, a + b + c + x, ReadGraph, t, y, u);
    Then(NO_GRAPH, a + b + c + x + y, ReadGraph, u, z, WithoutDatabase(g));
  }

  // ----- [plan] -----

  ghost predicate IsLevel(level: seq<string>) { level != [] && AreNames(level) }

  lemma {:induction false} LevelPieces(pad: string, ls: seq<seq<string>>)
    requires (pad == "" || pad == " ") && ls != [] && forall l :: l in ls ==> IsLevel(l)
    ensures Levels(SplitChar(pad + JoinLevels(ls), '|')) == ls
    decreases |ls|
  {
    hide ParseList, JoinList, Trim, AreNames, CharAt;
    var l := ls[0];
    assert l in ls && IsLevel(l);
    NamesAreItems(l);
    if |ls| == 1 {
      var piece := pad + JoinList(l);
      PaddedList(pad, l, "");
      assert piece + "" == piece;
      CharAtIs(piece, '|', "");
      assert LevelTexts(ls) == [JoinList(l)] && [piece][1..] == [] && Levels([]) == [];
      assert pad + JoinLevels(ls) == piece && SplitChar(piece, '|') == [piece] && ls == [l];
    } else {
      var rest := " " + JoinLevels(ls[1..]);
      var piece := pad + JoinList(l) + " ";
      PaddedList(pad, l, " ");
      assert pad + JoinLevels(ls) == (pad + JoinList(ls[0]) + " ") + ['|'] + (" " + JoinLevels(ls[1..])) by {
        assert LevelTexts(ls)[1..] == LevelTexts(ls[1..]) && |LevelTexts(ls[1..])| > 0;
      }
      CharAtIs(piece, '|', rest);
      var s := piece + ['|'] + rest;
      assert s[..|piece|] == piece && s[|piece| + 1..] == rest;
      LevelPieces(" ", ls[1..]);
      var pieces := SplitChar(rest, '|');
      assert ([piece] + pieces)[1..] == pieces && SplitChar(s, '|') == [piece] + pieces;
    }
  }

  ghost predicate IsOrderText(t: string) { t != "" && Trimmed(t) && OneLine(t) && ')' !in t }

  lemma GlueTexts(a: string, b: string)
    requires IsOrderText(a) && IsOrderText(b)
    ensures IsOrderText(a + " | " + b)
  {
  }

  lemma {:induction false} LevelsAreText(ls: seq<seq<string>>)
    requires ls != [] && forall l :: l in ls ==> IsLevel(l)
    ensures IsOrderText(JoinLevels(ls))
    decreases |ls|
  {
    hide JoinList, IsLevel, IsOrderText;
    var l := ls[0];
    assert l in ls;
    LevelIsText(l);
    if |ls| > 1 {
      LevelsAreText(ls[1..]);
      GlueTexts(JoinList(l), JoinLevels(ls[1..]));
      assert LevelTexts(ls)[1..] == LevelTexts(ls[1..]) && |LevelTexts(ls[1..])| > 0;
    } else {
      assert LevelTexts(ls) == [JoinList(l)];
    }
  }

  lemma LevelIsText(l: seq<string>)
    requires IsLevel(l)
    ensures IsOrderText(JoinList(l))
  {
    NamesAreItems(l);
    JoinedIsTrimmed(l);
    ListHasNo(l, ')');
  }

  ghost predicate IsPlan(plan: Option<Planned>) { plan.Some? ==> forall l :: l in plan.value.levels ==> IsLevel(l) }

  /** A count that is no order line. */
  lemma TaskCount(r: seq<seq<string>>, k: string, n: nat)
    requires IsKeyWord(k) && k[0] != 'p'
    ensures Sound(Count(k, n)) && forall v :: ReadPlan(r, Count(k, n).key, v) == r
  {
    hide IsKeyWord, Sound, Count, Levels, SplitChar;
    CountIsSound(k, n);
    assert "planned_order"[0] == 'p';
  }

  lemma TaskWords()
    ensures IsKeyWord("data_levels") && IsKeyWord("terminal_tasks") && IsKeyWord("rebuild_pk") && IsKeyWord("rebuild_unique")
    ensures IsKeyWord("build_index") && IsKeyWord("fk_define") && IsKeyWord("stats") && IsKeyWord("define_triggers")
  {
  }

  lemma TaskCountsPass(r: seq<seq<string>>, p: Planned)
    ensures Takes(r, TaskCounts(p), ReadPlan, r)
  {
    hide Takes, Sound, Count, ReadPlan, OfTask, IsKeyWord;
    TaskWords();
    TaskCount(r, "data_levels", |p.levels|);
    TaskCount(r, "terminal_tasks", |p.tasks|);
    TaskCount(r, "rebuild_pk", OfTask(p.tasks, Plan.RebuildPk));
    TaskCount(r, "rebuild_unique", OfTask(p.tasks, Plan.RebuildUnique));
    TaskCount(r, "build_index", OfTask(p.tasks, Plan.BuildIndex));
    TaskCount(r, "fk_define", OfTask(p.tasks, Plan.FkDefine));
    TaskCount(r, "stats", OfTask(p.tasks, Plan.Stats));
    TaskCount(r, "define_triggers", OfTask(p.tasks, Plan.DefineTriggers));
    Ignored(r, TaskCounts(p), ReadPlan);
  }

  lemma OrderTakes(ls: seq<seq<string>>)
    requires forall l :: l in ls ==> IsLevel(l)
    ensures Takes([], OrderLine(ls), ReadPlan, ls)
  {
    hide Takes, Levels, SplitChar, Trim, IsLevel, JoinLevels, IsKey, Trimmed;
    KeyWord("planned_order");
    if ls == [] {
      NoneIsNoList();
      TakesOne([], "planned_order", NONE, ReadPlan);
    } else {
      LevelsAreText(ls);
      LevelPieces("", ls);
      var t := JoinLevels(ls);
      assert "" + t == t;
      TrimIdle(t);
      assert NONE[5] == ')' && PLACEHOLDER[|PLACEHOLDER| - 1] == ')';
      assert t != NONE && t != PLACEHOLDER;
      TakesOne([], "planned_order", t, ReadPlan);
      assert [] + ls == ls;
    }
  }

  lemma PlaceholderTakes()
    ensures Takes([], [Pair("planned_order", PLACEHOLDER)], ReadPlan, [])
  {
    hide Takes, Levels, SplitChar, Trim, IsKey, IsKeyWord, OneLine;
    KeyWord("planned_order");
    PlaceholderIsOneLine();
    TrimIdle(PLACEHOLDER);
    TakesOne([], "planned_order", PLACEHOLDER, ReadPlan);
  }

  lemma PlaceholderIsOneLine()
    ensures OneLine(PLACEHOLDER) && Trimmed(PLACEHOLDER)
  {
    var a, b, c := "(placeholder: ", "topological order ", "assigned in WU-22)";
    assert OneLine(a) && OneLine(b) && OneLine(c);
    assert PLACEHOLDER[0] == '(' && PLACEHOLDER[|PLACEHOLDER| - 1] == ')';
  }

  function LevelsOf(plan: Option<Planned>): seq<seq<string>> { if plan.Some? then plan.value.levels else [] }

  lemma PlanReads(plan: Option<Planned>)
    requires IsPlan(plan)
    ensures Takes([], PlanBody(plan), ReadPlan, LevelsOf(plan))
  {
    hide Takes, OrderLine, TaskCounts, IsLevel, ReadPlan;
    match plan
    case None => PlaceholderTakes();
    case Some(p) =>
      OrderTakes(p.levels);
      TaskCountsPass(p.levels, p);
      Then([], OrderLine(p.levels), ReadPlan, p.levels, TaskCounts(p), p.levels);
  }

  // ----- [strip], [load] -----

  lemma StripReads(s: seq<Stripped>)
    requires forall x :: x in s ==> IsKeyed(x)
    ensures Takes([], StripBody(s), ReadStrip, s)
  {
    hide Takes, Sound, Count, OfKind, SplitRecord, ReadKey, IsKeyed, KeyRecord, KeyFields, Trim, IsKey, Each, IsField,
         OneLine;
    KeyLineKeys();
    CountIsSound("stripped", |s|);
    CountIsSound("fk", OfKind(s, ForeignKey));
    CountIsSound("unique", OfKind(s, Unique));
    CountIsSound("pk", OfKind(s, PrimaryKey));
    Ignored([], StripCounts(s), ReadStrip);
    forall e: seq<Stripped>, x | x in s ensures Takes(e, DropLine(x), ReadStrip, e + [x]) {
      KeyRecordReads(x);
      TakesOne(e, "drop", KeyRecord(x), ReadStrip);
    }
    EachAppends([], s, DropLine, ReadStrip, (e: seq<Stripped>) => e, (e: seq<Stripped>, v: seq<Stripped>) => v);
    assert [] + s == s;
    Then([], StripCounts(s), ReadStrip, [], Each(s, DropLine), s);
  }

  /** A count the section's reader keeps. */
  lemma CountTakes<R>(r: R, k: string, n: nat, read: (R, string, string) -> R)
    requires IsKeyWord(k)
    ensures Takes(r, [Count(k, n)], read, read(r, k, Dec(n))) && Number(Dec(n)) == n
  {
    hide Takes, Trim, Dec, IsKeyWord, IsKey, Number;
    KeyWord(k);
    DigitsAreOneLine(n);
    TakesOne(r, k, Dec(n), read);
  }

  lemma LoadReads(l: Load)
    requires forall f :: f in l.files ==> IsFile(f)
    ensures Takes(EMPTY_LOAD, LoadBody(l), ReadLoad, l)
  {
    hide Takes, Count, ReadFile, Number, Dec, IsFile, FileText, Trim, IsKey, Each, OneLine;
    KeyWord("file");
    var r := EMPTY_LOAD.(loadedFiles := l.loadedFiles);
    var s := r.(totalRows := l.totalRows);
    var t := s.(totalFailed := l.totalFailed);
    var a, b, c := [Count("loaded_files", l.loadedFiles)], [Count("total_rows", l.totalRows)], [Count("total_failed", l.totalFailed)];
    CountTakes(EMPTY_LOAD, "loaded_files", l.loadedFiles, ReadLoad);
    CountTakes(r, "total_rows", l.totalRows, ReadLoad);
    CountTakes(s, "total_failed", l.totalFailed, ReadLoad);
    forall e: Load, x | x in l.files ensures Takes(e, FileLine(x), ReadLoad, e.(files := e.files + [x])) {
      FileReads(x);
      TakesOne(e, "file", FileText(x), ReadLoad);
    }
    EachAppends(t, l.files, FileLine, ReadLoad, (e: Load) => e.files, (e: Load, v: seq<LoadFile>) => e.(files := v));
    assert [] + l.files == l.files;
    Then(EMPTY_LOAD, a, ReadLoad, r, b, s);
    Then(EMPTY_LOAD, a + b, ReadLoad, s, c, t);
    Then(EMPTY_LOAD, a + b + c, ReadLoad, t, Each(l.files, FileLine), l);
  }

  // ----- [rebuild] -----

  ghost predicate IsRebuild(r: Rebuild.Summary) {
    && (forall x :: x in r.rebuilt ==> IsKeyed(x)) && (forall p :: p in r.pending ==> IsPending(p))
    && (forall i :: i in r.indexes ==> IsText(i)) && (forall f :: f in r.failedIndexes ==> IsFailed(f))
    && (forall w :: w in r.withheld ==> IsCascade(w))
  }

  lemma RebuildCountsPass(r: Rebuild.Summary)
    ensures Takes(Rebuild.EMPTY, RebuildCounts(r), ReadRebuild, Rebuild.EMPTY)
  {
    hide Takes, Sound, Count, SplitRecord, ReadKey, Reason;
    CountIsSound("rebuilt", |r.rebuilt|);
    CountIsSound("pending", |r.pending|);
    CountIsSound("indexes", |r.indexes|);
    CountIsSound("indexes_failed", |r.failedIndexes|);
    CountIsSound("withheld_fk", |r.withheld|);
    Ignored(Rebuild.EMPTY, RebuildCounts(r), ReadRebuild);
  }

  /** The record as it comes back: an empty re-add statement was printed as `(none)`. */
  function RebuildBack(r: Rebuild.Summary): Rebuild.Summary { r.(pending := PrintedAll(r.pending)) }

  /** Putting pending keys in, as they come back. */
  function PutPending(e: Rebuild.Summary, v: seq<Rebuild.Pending>): Rebuild.Summary {
    e.(pending := e.pending + PrintedAll(v))
  }

  lemma PutPendingOne(e: Rebuild.Summary, x: Rebuild.Pending, rest: seq<Rebuild.Pending>)
    ensures PutPending(PutPending(e, [x]), rest) == PutPending(e, [x] + rest)
    ensures PutPending(e, [x]) == e.(pending := e.pending + [Printed(x)])
  {
    hide Printed;
    assert PrintedAll([x] + rest) == [Printed(x)] + PrintedAll(rest) && PrintedAll([x]) == [Printed(x)];
    assert e.pending + [Printed(x)] + PrintedAll(rest) == e.pending + ([Printed(x)] + PrintedAll(rest));
  }

  lemma PutNothing(e: Rebuild.Summary)
    ensures PutPending(e, []) == e
  {
    assert e.pending + [] == e.pending;
  }

  lemma KeysTake(r: Rebuild.Summary)
    requires IsRebuild(r)
    ensures Takes(Rebuild.EMPTY, RebuildCounts(r) + Each(r.rebuilt, OkLine) + Each(r.pending, PendingLine), ReadRebuild,
                  Rebuild.EMPTY.(rebuilt := r.rebuilt, pending := PrintedAll(r.pending)))
  {
    hide Takes, RebuildCounts, Each, PrintedAll, IsKeyed, IsPending, IsText, IsFailed, IsCascade, PendingLine, Printed,
         Trim, SplitRecord, Reason, ReadKey, KeyRecord, KeyFields, IsKey, IsField;
    KeyLineKeys();
    var start := Rebuild.EMPTY;
    var a, b, c := RebuildCounts(r), Each(r.rebuilt, OkLine), Each(r.pending, PendingLine);
    var s := start.(rebuilt := r.rebuilt);
    var t := s.(pending := PrintedAll(r.pending));
    RebuildCountsPass(r);
    forall e: Rebuild.Summary, x | x in r.rebuilt ensures Takes(e, OkLine(x), ReadRebuild, e.(rebuilt := e.rebuilt + [x])) {
      KeyRecordReads(x);
      TakesOne(e, "ok", KeyRecord(x), ReadRebuild);
    }
    EachAppends(start, r.rebuilt, OkLine, ReadRebuild, (e: Rebuild.Summary) => e.rebuilt,
                (e: Rebuild.Summary, v: seq<Stripped>) => e.(rebuilt := v));
    forall e: Rebuild.Summary ensures PutPending(e, []) == e { PutNothing(e); }
    forall e: Rebuild.Summary, x, rest ensures PutPending(PutPending(e, [x]), rest) == PutPending(e, [x] + rest) {
      PutPendingOne(e, x, rest);
    }
    forall e, x | x in r.pending ensures Takes(e, PendingLine(x), ReadRebuild, PutPending(e, [x])) {
      PutPendingOne(e, x, []);
      OnePending(e, x);
    }
    EachTakes(s, r.pending, PendingLine, ReadRebuild, PutPending);
    assert [] + r.rebuilt == r.rebuilt && [] + r.indexes == r.indexes && [] + r.failedIndexes == r.failedIndexes;
    assert [] + r.withheld == r.withheld && PutPending(Rebuild.EMPTY, r.pending) == Rebuild.EMPTY.(pending := PrintedAll(r.pending));
    Then(start, a, ReadRebuild, start, b, s);
    Then(start, a + b, ReadRebuild, s, c, t);
  }

  lemma RebuildReads(r: Rebuild.Summary)
    requires IsRebuild(r)
    ensures Takes(Rebuild.EMPTY, RebuildBody(r), ReadRebuild, RebuildBack(r))
  {
    hide Takes, RebuildCounts, Each, PrintedAll, IsKeyed, IsPending, IsCascade, OkLine, PendingLine, Trim, SplitRecord,
         Join, Reason, ReadKey, IsKey, IsName, IsField, OneLine;
    RebuildKeys();
    var a := RebuildCounts(r) + Each(r.rebuilt, OkLine) + Each(r.pending, PendingLine);
    var x, y, z := Each(r.indexes, IndexLine), Each(r.failedIndexes, FailedLine), Each(r.withheld, CascadeLine);
    var t := Rebuild.EMPTY.(rebuilt := r.rebuilt, pending := PrintedAll(r.pending));
    var u := t.(indexes := r.indexes);
    var v := u.(failedIndexes := r.failedIndexes);
    KeysTake(r);
    forall e: Rebuild.Summary, x | x in r.indexes ensures Takes(e, IndexLine(x), ReadRebuild, e.(indexes := e.indexes + [x])) {
      TrimIdle(x);
      TakesOne(e, "index", x, ReadRebuild);
    }
    EachAppends(t, r.indexes, IndexLine, ReadRebuild, (e: Rebuild.Summary) => e.indexes,
                (e: Rebuild.Summary, v: seq<string>) => e.(indexes := v));
    forall e: Rebuild.Summary, x | x in r.failedIndexes
      ensures Takes(e, FailedLine(x), ReadRebuild, e.(failedIndexes := e.failedIndexes + [x]))
    {
      FailedRecord(x);
      NameIsOneLine(x.name);
      JoinIsOneLine([x.name, x.reason], "\t");
      TakesOne(e, "index_fail", Record([x.name, x.reason]), ReadRebuild);
    }
    EachAppends(u, r.failedIndexes, FailedLine, ReadRebuild, (e: Rebuild.Summary) => e.failedIndexes,
                (e: Rebuild.Summary, v: seq<Rebuild.FailedIndex>) => e.(failedIndexes := v));
    forall e: Rebuild.Summary, x | x in r.withheld
      ensures Takes(e, CascadeLine(x), ReadRebuild, e.(withheld := e.withheld + [x]))
    {
      CascadeReads(x);
      TakesOne(e, "withhold", Record([x.child, x.parent, x.name, x.reason]), ReadRebuild);
    }
    EachAppends(v, r.withheld, CascadeLine, ReadRebuild, (e: Rebuild.Summary) => e.withheld,
                (e: Rebuild.Summary, v: seq<Rebuild.WithheldFk>) => e.(withheld := v));
    assert [] + r.rebuilt == r.rebuilt && [] + r.indexes == r.indexes && [] + r.failedIndexes == r.failedIndexes;
    assert [] + r.withheld == r.withheld && PutPending(Rebuild.EMPTY, r.pending) == Rebuild.EMPTY.(pending := PrintedAll(r.pending));
    Then(Rebuild.EMPTY, a, ReadRebuild, t, x, u);
    Then(Rebuild.EMPTY, a + x, ReadRebuild, u, y, v);
    Then(Rebuild.EMPTY, a + x + y, ReadRebuild, v, z, RebuildBack(r));
  }

  // ----- [validate] -----

  /** A file name the reader does not take for an absent one. */
  ghost predicate IsFileName(name: string) { IsText(name) && name != NONE }

  lemma FileNameReads(name: string)
    requires IsFileName(name)
    ensures OneLine(OrNone(name)) && Trim(OrNone(name)) == OrNone(name)
    ensures (OrNone(name) == NONE) == (name == "")
  {
    NoneIsNoList();
    TrimIdle(name);
  }

  ghost predicate IsValidation(v: Validation) {
    IsFileName(v.exceptionsFile) && forall e :: e in v.edges ==> IsResult(e)
  }

  /** The record as it comes back: the tallies are counted again from the edge lines. */
  function ValidateBack(v: Validation): Validation {
    TallyAll(EMPTY_VALIDATION.(exceptionsFile := v.exceptionsFile), v.edges)
  }

  lemma ValidateCountsPass(v: Validation)
    ensures Takes(EMPTY_VALIDATION, ValidateCounts(v), ReadValidate, EMPTY_VALIDATION)
  {
    hide Takes, Sound, Count, SplitColons, ParseRef, StartsWith, Number;
    CountIsSound("edges", |v.edges|);
    CountIsSound("validated", v.validated);
    CountIsSound("skipped", v.skipped);
    CountIsSound("violated", v.violated);
    CountIsSound("orphans_total", v.totalOrphans);
    Ignored(EMPTY_VALIDATION, ValidateCounts(v), ReadValidate);
  }

  lemma ResultsTake(v: Validation, es: seq<EdgeResult>)
    requires forall e :: e in es ==> IsResult(e)
    ensures Takes(v, Each(es, ResultLine), ReadValidate, TallyAll(v, es))
  {
    hide Takes, ReadValidate, IsResult, ResultLine, Each, Tally;
    forall v, e, rest ensures TallyAll(TallyAll(v, [e]), rest) == TallyAll(v, [e] + rest) { }
    forall v, e | e in es ensures Takes(v, ResultLine(e), ReadValidate, TallyAll(v, [e])) {
      OneResult(v, e);
    }
    EachTakes(v, es, ResultLine, ReadValidate, TallyAll);
  }

  lemma ValidateReads(v: Validation)
    requires IsValidation(v)
    ensures Takes(EMPTY_VALIDATION, ValidateBody(v), ReadValidate, ValidateBack(v))
  {
    hide Takes, Trim, SplitColons, ParseRef, StartsWith, Number, IsText, IsKey, ValidateCounts, IsResult, TallyAll, Each,
         OrNone, IsKeyWord, ResultLine;
    var r := EMPTY_VALIDATION.(exceptionsFile := v.exceptionsFile);
    ValidateCountsPass(v);
    KeyWord("exceptions_file");
    FileNameReads(v.exceptionsFile);
    NoFileName();
    TakesOne(EMPTY_VALIDATION, "exceptions_file", OrNone(v.exceptionsFile), ReadValidate);
    ResultsTake(r, v.edges);
    Then(EMPTY_VALIDATION, ValidateCounts(v), ReadValidate, EMPTY_VALIDATION, ExceptionsLine(v.exceptionsFile), r);
    Then(EMPTY_VALIDATION, ValidateCounts(v) + ExceptionsLine(v.exceptionsFile), ReadValidate, r, Each(v.edges, ResultLine),
         ValidateBack(v));
  }

  lemma NoFileName()
    ensures forall name: string :: name != "" ==> OrNone(name) == name
  {
  }

  // ----- [fkdefine] -----

  ghost predicate IsFkRecord(f: FkRecord) {
    && IsFileName(f.exceptionsFile) && (forall r :: r in f.defined ==> IsDefined(r))
    && (forall w :: w in f.withheld ==> IsWithheld(w))
  }

  const NO_FK := FkRecord([], [], "")

  lemma FkHead(f: FkRecord)
    requires IsFileName(f.exceptionsFile)
    ensures Takes(NO_FK, FkCounts(f) + ExceptionsLine(f.exceptionsFile), ReadFk, FkRecord([], [], f.exceptionsFile))
  {
    hide Takes, Sound, Trim, SplitColons, ParseRef, IsText, Count, IsKey, OrNone, IsFileName, OneLine;
    CountIsSound("defined", |f.defined|);
    CountIsSound("withheld", |f.withheld|);
    Ignored(NO_FK, FkCounts(f), ReadFk);
    KeyWord("exceptions_file");
    FileNameReads(f.exceptionsFile);
    NoFileName();
    TakesOne(NO_FK, "exceptions_file", OrNone(f.exceptionsFile), ReadFk);
    Then(NO_FK, FkCounts(f), ReadFk, NO_FK, ExceptionsLine(f.exceptionsFile), FkRecord([], [], f.exceptionsFile));
  }

  lemma FkReads(f: FkRecord)
    requires IsFkRecord(f)
    ensures Takes(NO_FK, FkBody(f), ReadFk, f)
  {
    hide Takes, FkCounts, ExceptionsLine, IsWithheld, IsFileName, WithholdLine, Each, Trim, ParseRef, RefText, IsRef,
         SplitColons, IsKey, Free;
    KeyWord("define");
    var r := FkRecord([], [], f.exceptionsFile);
    var s := r.(defined := f.defined);
    FkHead(f);
    forall e: FkRecord, x | x in f.defined ensures Takes(e, DefineLine(x), ReadFk, e.(defined := e.defined + [x])) {
      RefReads(x);
      TakesOne(e, "define", RefText(x), ReadFk);
    }
    EachAppends(r, f.defined, DefineLine, ReadFk, (e: FkRecord) => e.defined, (e: FkRecord, v: seq<Ref>) => e.(defined := v));
    forall e: FkRecord, x | x in f.withheld
      ensures Takes(e, WithholdLine(x), ReadFk, e.(withheld := e.withheld + [x]))
    {
      OneWithhold(e, x);
    }
    EachAppends(s, f.withheld, WithholdLine, ReadFk, (e: FkRecord) => e.withheld,
                (e: FkRecord, v: seq<Withheld>) => e.(withheld := v));
    assert [] + f.defined == f.defined && [] + f.withheld == f.withheld;
    var head := FkCounts(f) + ExceptionsLine(f.exceptionsFile);
    Then(NO_FK, head, ReadFk, r, Each(f.defined, DefineLine), s);
    Then(NO_FK, head + Each(f.defined, DefineLine), ReadFk, s, Each(f.withheld, WithholdLine), f);
  }

  // ----- [stats], [triggers] -----

  const NO_STATS := Stats(0, [])

  lemma StatsReads(s: Stats)
    requires forall f :: f in s.failed ==> IsFailure(f)
    ensures Takes(NO_STATS, StatsBody(s), ReadStats, s)
  {
    hide Takes, Sound, Count, SplitColons, Number, Dec, Trim, IsName, IsKey, Each;
    KeyWord("fail");
    var r := Stats(s.updated, []);
    var a, b := [Count("updated", s.updated)], [Count("failed", |s.failed|)];
    CountTakes(NO_STATS, "updated", s.updated, ReadStats);
    CountIsSound("failed", |s.failed|);
    Ignored(r, b, ReadStats);
    forall e: Stats, x | x in s.failed ensures Takes(e, StatsLine(x), ReadStats, e.(failed := e.failed + [x])) {
      FailureReads(x);
      NameIsOneLine(x.cls);
      TakesOne(e, "fail", x.cls + " :: " + x.reason, ReadStats);
    }
    EachAppends(r, s.failed, StatsLine, ReadStats, (e: Stats) => e.failed, (e: Stats, v: seq<StatsFailure>) => e.(failed := v));
    assert [] + s.failed == s.failed;
    Then(NO_STATS, a, ReadStats, r, b, r);
    Then(NO_STATS, a + b, ReadStats, r, Each(s.failed, StatsLine), s);
  }

  const NO_TRIGGERS := TriggerRecord("", 0, 0)

  lemma TriggerReads(t: TriggerRecord)
    requires IsFileName(t.file)
    ensures Takes(NO_TRIGGERS, TriggerBody(t), ReadTriggers, t)
  {
    hide Takes, Trim, Number, Dec, IsText, Count, IsKey, OrNone;
    var r := TriggerRecord(t.file, 0, 0);
    var s := r.(defined := t.defined);
    KeyWord("trigger_file");
    FileNameReads(t.file);
    NoFileName();
    TakesOne(NO_TRIGGERS, "trigger_file", OrNone(t.file), ReadTriggers);
    CountTakes(r, "defined", t.defined, ReadTriggers);
    CountTakes(s, "failed", t.failed, ReadTriggers);
    var a, b, c := [Pair("trigger_file", OrNone(t.file))], [Count("defined", t.defined)], [Count("failed", t.failed)];
    Then(NO_TRIGGERS, a, ReadTriggers, r, b, s);
    Then(NO_TRIGGERS, a + b, ReadTriggers, s, c, t);
  }
}
