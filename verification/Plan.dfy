/** The terminal task list and the machine check of its ordering. */
module Plan {
  import opened Schema
  import opened Dump

  datatype TaskKind = RebuildPk | RebuildUnique | BuildIndex | FkDefine | Stats | DefineTriggers

  datatype Task = Task(kind: TaskKind, cls: string, parent: string, name: string, prereqs: seq<nat>)

  predicate IsKeyTask(t: Task) { t.kind.RebuildPk? || t.kind.RebuildUnique? }

  /** Every prerequisite is emitted before the task that needs it. */
  predicate Ordered(tasks: seq<Task>) {
    forall i :: 0 <= i < |tasks| ==> forall p :: p in tasks[i].prereqs ==> p < i
  }

  // ----- the task list -----

  function PkTasks(nodes: seq<Node>): seq<Task> {
    if nodes == [] then []
    else
      var n := nodes[|nodes| - 1];
      PkTasks(nodes[..|nodes| - 1])
      + if n.constraints.pk == "" then [] else [Task(RebuildPk, n.name, "", n.constraints.pk, [])]
  }

  function NodeUniques(cls: string, names: seq<string>): seq<Task> {
    if names == [] then []
    else NodeUniques(cls, names[..|names| - 1]) + [Task(RebuildUnique, cls, "", names[|names| - 1], [])]
  }

  function UniqueTasks(nodes: seq<Node>): seq<Task> {
    if nodes == [] then []
    else
      var n := nodes[|nodes| - 1];
      UniqueTasks(nodes[..|nodes| - 1]) + NodeUniques(n.name, n.constraints.unique)
  }

  /** The last task of `cls`, as a list. */
  function LastOf(ts: seq<Task>, cls: string): seq<nat> {
    if ts == [] then []
    else if ts[|ts| - 1].cls == cls then [|ts| - 1]
    else LastOf(ts[..|ts| - 1], cls)
  }

  /** Every task of `cls`, numbered from `base`. */
  function AllOf(ts: seq<Task>, base: nat, cls: string): seq<nat> {
    if ts == [] then []
    else AllOf(ts[..|ts| - 1], base, cls) + if ts[|ts| - 1].cls == cls then [base + |ts| - 1] else []
  }

  function KeysOf(nodes: seq<Node>, cls: string): seq<nat> {
    LastOf(PkTasks(nodes), cls) + AllOf(UniqueTasks(nodes), |PkTasks(nodes)|, cls)
  }

  function IndexTasks(roster: ImportSet): seq<Task> {
    if roster.indexFile == "" then [] else [Task(BuildIndex, "", "", roster.indexFile, [])]
  }

  function FkTasks(nodes: seq<Node>, edges: seq<FkEdge>): seq<Task> {
    if edges == [] then []
    else
      var e := edges[|edges| - 1];
      FkTasks(nodes, edges[..|edges| - 1]) + [Task(FkDefine, e.child, e.parent, e.name, KeysOf(nodes, e.parent))]
  }

  function StatsTasks(all: seq<Node>, index: seq<nat>, nodes: seq<Node>): seq<Task> {
    if nodes == [] then []
    else
      var n := nodes[|nodes| - 1];
      StatsTasks(all, index, nodes[..|nodes| - 1]) + [Task(Stats, n.name, "", "", KeysOf(all, n.name) + index)]
  }

  function UpTo(n: nat): (s: seq<nat>)
    ensures |s| == n && forall i :: 0 <= i < n ==> s[i] == i
  {
    if n == 0 then [] else UpTo(n - 1) + [n - 1]
  }

  function KeyTasks(g: Graph): seq<Task> { PkTasks(g.nodes) + UniqueTasks(g.nodes) }

  function BeforeTriggers(g: Graph, roster: ImportSet): seq<Task> {
    var index := if roster.indexFile == "" then [] else [|KeyTasks(g)|];
    KeyTasks(g) + IndexTasks(roster) + FkTasks(g.nodes, g.fkEdges) + StatsTasks(g.nodes, index, g.nodes)
  }

  function Schedule(g: Graph, roster: ImportSet): seq<Task> {
    var ts := BeforeTriggers(g, roster);
    if roster.triggerFile == "" then ts else ts + [Task(DefineTriggers, "", "", roster.triggerFile, UpTo(|ts|))]
  }

  // ----- building it -----

  function Lookup(m: map<string, seq<nat>>, cls: string): seq<nat> { if cls in m then m[cls] else [] }

  method AddPkTasks(nodes: seq<Node>) returns (tasks: seq<Task>, pkTask: map<string, nat>)
    ensures tasks == PkTasks(nodes)
    ensures forall cls :: LastOf(tasks, cls) == if cls in pkTask then [pkTask[cls]] else []
  {
    tasks, pkTask := [], map[];
    for i := 0 to |nodes|
      invariant tasks == PkTasks(nodes[..i])
      invariant forall cls :: LastOf(tasks, cls) == if cls in pkTask then [pkTask[cls]] else []
    {
      var n := nodes[i];
      assert nodes[..i + 1][..i] == nodes[..i];
      if n.constraints.pk != "" {
        var t := Task(RebuildPk, n.name, "", n.constraints.pk, []);
        forall cls ensures LastOf(tasks + [t], cls) == if cls == n.name then [|tasks|] else LastOf(tasks, cls) {
          assert (tasks + [t])[..|tasks|] == tasks;
        }
        pkTask := pkTask[n.name := |tasks|];
        tasks := tasks + [t];
      }
    }
    assert nodes[..|nodes|] == nodes;
  }

  ghost predicate Indexes(uk: map<string, seq<nat>>, ts: seq<Task>, base: nat) {
    forall cls :: Lookup(uk, cls) == AllOf(ts, base, cls)
  }

  lemma IndexNext(uk: map<string, seq<nat>>, ts: seq<Task>, base: nat, t: Task)
    requires Indexes(uk, ts, base)
    ensures Indexes(uk[t.cls := Lookup(uk, t.cls) + [base + |ts|]], ts + [t], base)
  {
    hide AllOf;
    var next := uk[t.cls := Lookup(uk, t.cls) + [base + |ts|]];
    forall cls ensures Lookup(next, cls) == AllOf(ts + [t], base, cls) {
      assert Lookup(uk, cls) == AllOf(ts, base, cls);
      AllOfNext(ts, base, t, cls);
  
    }
  }

  lemma AllOfNext(ts: seq<Task>, base: nat, t: Task, cls: string)
    ensures AllOf(ts + [t], base, cls) == AllOf(ts, base, cls) + if t.cls == cls then [base + |ts|] else []
  {
    assert (ts + [t])[..|ts|] == ts;
  }

  /** One class's uniques. */
  method AddUniques(n: Node, tasks: seq<Task>, uk: map<string, seq<nat>>, ghost base: nat)
    returns (tasks': seq<Task>, uk': map<string, seq<nat>>)
    requires base <= |tasks| && Indexes(uk, tasks[base..], base)
    ensures tasks' == tasks + NodeUniques(n.name, n.constraints.unique)
    ensures Indexes(uk', tasks'[base..], base)
  {
    hide Indexes, Lookup;
    tasks', uk' := tasks, uk;
    for j := 0 to |n.constraints.unique|
      invariant tasks' == tasks + NodeUniques(n.name, n.constraints.unique[..j])
      invariant Indexes(uk', tasks'[base..], base)
    {
      var t := Task(RebuildUnique, n.name, "", n.constraints.unique[j], []);
      assert n.constraints.unique[..j + 1][..j] == n.constraints.unique[..j];
      IndexNext(uk', tasks'[base..], base, t);
      assert (tasks' + [t])[base..] == tasks'[base..] + [t];
      uk' := uk'[n.name := Lookup(uk', n.name) + [|tasks'|]];
      tasks' := tasks' + [t];
    }
    assert n.constraints.unique[..|n.constraints.unique|] == n.constraints.unique;
  }

  method AddUniqueTasks(nodes: seq<Node>, start: seq<Task>) returns (tasks: seq<Task>, uk: map<string, seq<nat>>)
    ensures tasks == start + UniqueTasks(nodes)
    ensures Indexes(uk, UniqueTasks(nodes), |start|)
  {
    hide NodeUniques;
    tasks, uk := start, map[];
    assert start[|start|..] == [];
    assert Indexes(uk, [], |start|);
    for i := 0 to |nodes|
      invariant tasks == start + UniqueTasks(nodes[..i])
      invariant Indexes(uk, tasks[|start|..], |start|)
    {
      assert nodes[..i + 1][..i] == nodes[..i];
      tasks, uk := AddUniques(nodes[i], tasks, uk, |start|);
    }
    assert nodes[..|nodes|] == nodes;
    assert tasks[|start|..] == UniqueTasks(nodes);
  }

  ghost predicate IsKeys(nodes: seq<Node>, keys: map<string, seq<nat>>) {
    forall cls :: Lookup(keys, cls) == KeysOf(nodes, cls)
  }

  method AddFkTasks(edges: seq<FkEdge>, keys: map<string, seq<nat>>, start: seq<Task>, ghost nodes: seq<Node>)
    returns (tasks: seq<Task>)
    requires IsKeys(nodes, keys)
    ensures tasks == start + FkTasks(nodes, edges)
  {
    hide Lookup, KeysOf;
    tasks := start;
    for i := 0 to |edges|
      invariant tasks == start + FkTasks(nodes, edges[..i])
    {
      var e := edges[i];
      assert edges[..i + 1][..i] == edges[..i];
      tasks := tasks + [Task(FkDefine, e.child, e.parent, e.name, Lookup(keys, e.parent))];
    }
    assert edges[..|edges|] == edges;
  }

  method AddStatsTasks(nodes: seq<Node>, keys: map<string, seq<nat>>, index: seq<nat>, start: seq<Task>)
    returns (tasks: seq<Task>)
    requires IsKeys(nodes, keys)
    ensures tasks == start + StatsTasks(nodes, index, nodes)
  {
    hide KeysOf, Lookup;
    tasks := start;
    for i := 0 to |nodes|
      invariant tasks == start + StatsTasks(nodes, index, nodes[..i])
    {
      assert nodes[..i + 1][..i] == nodes[..i];
      tasks := tasks + [Task(Stats, nodes[i].name, "", "", Lookup(keys, nodes[i].name) + index)];
    }
    assert nodes[..|nodes|] == nodes;
  }

  method MergeKeys(pkTask: map<string, nat>, uk: map<string, seq<nat>>, ghost nodes: seq<Node>) returns (keys: map<string, seq<nat>>)
    requires forall cls :: LastOf(PkTasks(nodes), cls) == if cls in pkTask then [pkTask[cls]] else []
    requires Indexes(uk, UniqueTasks(nodes), |PkTasks(nodes)|)
    ensures IsKeys(nodes, keys)
  {
    hide LastOf, PkTasks, UniqueTasks, AllOf;
    keys := map c | c in pkTask.Keys + uk.Keys :: (if c in pkTask then [pkTask[c]] else []) + Lookup(uk, c);
    forall cls ensures Lookup(keys, cls) == KeysOf(nodes, cls) {
      assert Lookup(uk, cls) == AllOf(UniqueTasks(nodes), |PkTasks(nodes)|, cls);
    }
  }

  /** The list the planner emits; its own machine check always passes. */
  method BuildSchedule(g: Graph, roster: ImportSet) returns (ok: bool, tasks: seq<Task>)
    ensures ok && tasks == Schedule(g, roster)
  {
    hide PkTasks, UniqueTasks, IsKeys, Indexes, FkTasks, StatsTasks, LastOf, Ordered;
    var pkTask, uk;
    tasks, pkTask := AddPkTasks(g.nodes);
    tasks, uk := AddUniqueTasks(g.nodes, tasks);
    var keys := MergeKeys(pkTask, uk, g.nodes);
    var index: seq<nat> := [];
    if roster.indexFile != "" {
      index := [|tasks|];
      tasks := tasks + [Task(BuildIndex, "", "", roster.indexFile, [])];
    }
    assert tasks == KeyTasks(g) + IndexTasks(roster);
    tasks := AddFkTasks(g.fkEdges, keys, tasks, g.nodes);
    tasks := AddStatsTasks(g.nodes, keys, index, tasks);
    assert tasks == BeforeTriggers(g, roster);
    if roster.triggerFile != "" {
      tasks := tasks + [Task(DefineTriggers, "", "", roster.triggerFile, UpTo(|tasks|))];
    }
    ScheduleIsOrdered(g, roster);
    ok := ValidateSchedule(tasks);
  }

  // ----- its ordering -----

  lemma LastOfIs(ts: seq<Task>, cls: string, i: nat)
    ensures i in LastOf(ts, cls) <==> i < |ts| && ts[i].cls == cls && forall j :: i < j < |ts| ==> ts[j].cls != cls
  {
  }

  lemma AllOfIs(ts: seq<Task>, base: nat, cls: string, i: nat)
    ensures i in AllOf(ts, base, cls) <==> base <= i < base + |ts| && ts[i - base].cls == cls
  {
  }

  lemma FkTaskAt(nodes: seq<Node>, edges: seq<FkEdge>, k: nat)
    requires k < |edges|
    ensures |FkTasks(nodes, edges)| == |edges|
    ensures var e := edges[k];
      FkTasks(nodes, edges)[k] == Task(FkDefine, e.child, e.parent, e.name, KeysOf(nodes, e.parent))
    decreases |edges|
  {
    hide KeysOf;
    FkTasksLength(nodes, edges);
    FkTasksLength(nodes, edges[..|edges| - 1]);
    if k < |edges| - 1 { FkTaskAt(nodes, edges[..|edges| - 1], k); }
  }

  lemma FkTasksLength(nodes: seq<Node>, edges: seq<FkEdge>)
    ensures |FkTasks(nodes, edges)| == |edges|
  {
  }

  lemma StatsTaskAt(all: seq<Node>, index: seq<nat>, nodes: seq<Node>, k: nat)
    requires k < |nodes|
    ensures |StatsTasks(all, index, nodes)| == |nodes|
    ensures StatsTasks(all, index, nodes)[k] == Task(Stats, nodes[k].name, "", "", KeysOf(all, nodes[k].name) + index)
    decreases |nodes|
  {
    hide KeysOf;
    StatsTasksLength(all, index, nodes);
    StatsTasksLength(all, index, nodes[..|nodes| - 1]);
    if k < |nodes| - 1 { StatsTaskAt(all, index, nodes[..|nodes| - 1], k); }
  }

  lemma StatsTasksLength(all: seq<Node>, index: seq<nat>, nodes: seq<Node>)
    ensures |StatsTasks(all, index, nodes)| == |nodes|
  {
  }

  lemma KeysAreEarly(g: Graph, cls: string, i: nat)
    requires i in KeysOf(g.nodes, cls)
    ensures i < |KeyTasks(g)| && KeyTasks(g)[i].cls == cls
  {
    LastOfIs(PkTasks(g.nodes), cls, i);
    AllOfIs(UniqueTasks(g.nodes), |PkTasks(g.nodes)|, cls, i);
  }

  lemma KeyTasksAreKeys(g: Graph, i: nat)
    requires i < |KeyTasks(g)|
    ensures IsKeyTask(KeyTasks(g)[i]) && KeyTasks(g)[i].prereqs == []
    ensures KeyTasks(g)[i].kind.RebuildPk? <==> i < |PkTasks(g.nodes)|
  {
    PkTasksAre(g.nodes);
    UniqueTasksAre(g.nodes);
  }

  lemma PkTasksAre(nodes: seq<Node>)
    ensures forall t :: t in PkTasks(nodes) ==> t.kind.RebuildPk? && t.prereqs == [] && exists n :: n in nodes && n.name == t.cls
  {
  }

  lemma NodeUniquesAre(cls: string, names: seq<string>)
    ensures forall t :: t in NodeUniques(cls, names) ==> t.kind.RebuildUnique? && t.prereqs == []
  {
  }

  lemma UniqueTasksAre(nodes: seq<Node>)
    ensures forall t :: t in UniqueTasks(nodes) ==> t.kind.RebuildUnique? && t.prereqs == []
  {
    if nodes != [] {
      var n := nodes[|nodes| - 1];
      UniqueTasksAre(nodes[..|nodes| - 1]);
      NodeUniquesAre(n.name, n.constraints.unique);
    }
  }

  /** Some class of that name has the primary key. */
  predicate HasPk(nodes: seq<Node>, cls: string, name: string) {
    name != "" && exists n :: n in nodes && n.name == cls && n.constraints.pk == name
  }

  predicate HasUnique(nodes: seq<Node>, cls: string, name: string) {
    exists n :: n in nodes && n.name == cls && name in n.constraints.unique
  }

  lemma {:induction false} InPkTasks(nodes: seq<Node>, t: Task)
    ensures t in PkTasks(nodes) <==> t == Task(RebuildPk, t.cls, "", t.name, []) && HasPk(nodes, t.cls, t.name)
  {
    if nodes != [] {
      assert nodes == nodes[..|nodes| - 1] + [nodes[|nodes| - 1]];
      InPkTasks(nodes[..|nodes| - 1], t);
    }
  }

  lemma {:induction false} InNodeUniques(cls: string, names: seq<string>, t: Task)
    ensures t in NodeUniques(cls, names) <==> t == Task(RebuildUnique, cls, "", t.name, []) && t.name in names
  {
    if names != [] {
      assert names == names[..|names| - 1] + [names[|names| - 1]];
      InNodeUniques(cls, names[..|names| - 1], t);
    }
  }

  lemma {:induction false} InUniqueTasks(nodes: seq<Node>, t: Task)
    ensures t in UniqueTasks(nodes) <==> t == Task(RebuildUnique, t.cls, "", t.name, []) && HasUnique(nodes, t.cls, t.name)
  {
    hide NodeUniques;
    if nodes != [] {
      var n := nodes[|nodes| - 1];
      assert nodes == nodes[..|nodes| - 1] + [n];
      InUniqueTasks(nodes[..|nodes| - 1], t);
      InNodeUniques(n.name, n.constraints.unique, t);
    }
  }

  /** The key tasks of the schedule: one for every key a class lists, and no others. */
  lemma KeysAreScheduled(g: Graph, roster: ImportSet, t: Task)
    ensures t in Schedule(g, roster) && t.kind.RebuildPk? <==>
      t == Task(RebuildPk, t.cls, "", t.name, []) && HasPk(g.nodes, t.cls, t.name)
    ensures t in Schedule(g, roster) && t.kind.RebuildUnique? <==>
      t == Task(RebuildUnique, t.cls, "", t.name, []) && HasUnique(g.nodes, t.cls, t.name)
  {
    hide BeforeTriggers, PkTasks, UniqueTasks, KeysOf, HasPk, HasUnique, IndexTasks, FkTasks, StatsTasks;
    var ts := BeforeTriggers(g, roster);
    InPkTasks(g.nodes, t);
    InUniqueTasks(g.nodes, t);
    Layout(g, roster);
    if t in KeyTasks(g) { assert t in ts[..|KeyTasks(g)|]; }
    if t in ts {
      var i :| 0 <= i < |ts| && ts[i] == t;
      TaskAt(g, roster, i);
    }
  }

  /** Where each task stands in the list. */
  lemma Layout(g: Graph, roster: ImportSet)
    ensures var ts, k, x := BeforeTriggers(g, roster), |KeyTasks(g)|, |IndexTasks(roster)|;
      && |ts| == k + x + |g.fkEdges| + |g.nodes|
      && ts[..k] == KeyTasks(g)
      && (x == 1 ==> ts[k] == Task(BuildIndex, "", "", roster.indexFile, []))
      && ts[k + x..k + x + |g.fkEdges|] == FkTasks(g.nodes, g.fkEdges)
      && ts[k + x + |g.fkEdges|..] == StatsTasks(g.nodes, if roster.indexFile == "" then [] else [k], g.nodes)
  {
    hide KeyTasks, FkTasks, StatsTasks;
    var index := if roster.indexFile == "" then [] else [|KeyTasks(g)|];
    FkTasksLength(g.nodes, g.fkEdges);
    StatsTasksLength(g.nodes, index, g.nodes);
  }

  /** The task at `i`, by the part of the list it stands in. */
  lemma TaskAt(g: Graph, roster: ImportSet, i: nat)
    requires i < |BeforeTriggers(g, roster)|
    ensures var t, k, x := BeforeTriggers(g, roster)[i], |KeyTasks(g)|, |IndexTasks(roster)|;
      && |BeforeTriggers(g, roster)| == k + x + |g.fkEdges| + |g.nodes|
      && (i < k ==> t == KeyTasks(g)[i] && IsKeyTask(t) && t.prereqs == [])
      && (k <= i < k + x ==> t == Task(BuildIndex, "", "", roster.indexFile, []))
      && (k + x <= i < k + x + |g.fkEdges| ==>
            var e := g.fkEdges[i - k - x]; t == Task(FkDefine, e.child, e.parent, e.name, KeysOf(g.nodes, e.parent)))
      && (k + x + |g.fkEdges| <= i ==>
            var n := g.nodes[i - k - x - |g.fkEdges|];
            t == Task(Stats, n.name, "", "", KeysOf(g.nodes, n.name) + if x == 0 then [] else [k]))
  {
    hide BeforeTriggers, IsKeyTask, KeysOf;
    Layout(g, roster);
    var ts, k, x := BeforeTriggers(g, roster), |KeyTasks(g)|, |IndexTasks(roster)|;
    if i < k {
      assert ts[i] == ts[..k][i];
      KeyTasksAreKeys(g, i);
    } else if i >= k + x {
      if i < k + x + |g.fkEdges| {
        FkTaskAt(g.nodes, g.fkEdges, i - k - x);
      } else {
        StatsTaskAt(g.nodes, if roster.indexFile == "" then [] else [k], g.nodes, i - k - x - |g.fkEdges|);
      }
    }
  }

  /** For every graph and dump set the emitted list respects its own ordering. */
  lemma ScheduleIsOrdered(g: Graph, roster: ImportSet)
    ensures Ordered(Schedule(g, roster))
  {
    hide BeforeTriggers, KeysOf, KeyTasks;
    var ts := Schedule(g, roster);
    forall i, p | 0 <= i < |ts| && p in ts[i].prereqs ensures p < i {
      if i < |BeforeTriggers(g, roster)| {
        TaskAt(g, roster, i);
        if p in KeysOf(g.nodes, ts[i].parent) { KeysAreEarly(g, ts[i].parent, p); }
        if p in KeysOf(g.nodes, ts[i].cls) { KeysAreEarly(g, ts[i].cls, p); }
      }
    }
  }

  predicate DistinctNames(nodes: seq<Node>) {
    forall i, j :: 0 <= i < j < |nodes| ==> nodes[i].name != nodes[j].name
  }

  lemma {:induction false} OnePkEach(nodes: seq<Node>)
    requires DistinctNames(nodes)
    ensures forall i, j :: 0 <= i < j < |PkTasks(nodes)| ==> PkTasks(nodes)[i].cls != PkTasks(nodes)[j].cls
  {
    if nodes != [] {
      var init, last := nodes[..|nodes| - 1], nodes[|nodes| - 1];
      OnePkEach(init);
      PkTasksAre(init);
      forall t | t in PkTasks(init) ensures t.cls != last.name {
        var n :| n in init && n.name == t.cls;
        var k :| 0 <= k < |init| && init[k] == n;
        assert nodes[k].name != last.name;
      }
    }
  }

  lemma KeysAmongKeyTasks(g: Graph, cls: string, j: nat)
    requires DistinctNames(g.nodes)
    ensures j in KeysOf(g.nodes, cls) <==> j < |KeyTasks(g)| && KeyTasks(g)[j].cls == cls
  {
    hide PkTasks, UniqueTasks, LastOf, AllOf;
    var pks, uniques := PkTasks(g.nodes), UniqueTasks(g.nodes);
    LastOfIs(pks, cls, j);
    AllOfIs(uniques, |pks|, cls, j);
    OnePkEach(g.nodes);
    assert j in KeysOf(g.nodes, cls) <==> j in LastOf(pks, cls) || j in AllOf(uniques, |pks|, cls);
    assert j < |pks| && pks[j].cls == cls ==> forall k :: j < k < |pks| ==> pks[k].cls != cls;
  }

  /** A class's keys in the wiring are all its key tasks and nothing else. */
  lemma KeysOfAre(g: Graph, roster: ImportSet, cls: string, j: nat)
    requires DistinctNames(g.nodes)
    ensures var ts := Schedule(g, roster);
      j in KeysOf(g.nodes, cls) <==> j < |ts| && IsKeyTask(ts[j]) && ts[j].cls == cls
  {
    hide KeysOf, BeforeTriggers, KeyTasks, DistinctNames, IndexTasks, FkTasks, StatsTasks;
    KeysAmongKeyTasks(g, cls, j);
    Layout(g, roster);
    if j < |BeforeTriggers(g, roster)| { TaskAt(g, roster, j); }
  }

  /** A foreign key is defined after exactly the keys of its parent. */
  lemma FkDependsOnParentKeys(g: Graph, roster: ImportSet, e: nat)
    requires DistinctNames(g.nodes) && e < |g.fkEdges|
    ensures var ts, i := Schedule(g, roster), |KeyTasks(g)| + |IndexTasks(roster)| + e;
      && i < |ts| && ts[i].kind.FkDefine? && ts[i].cls == g.fkEdges[e].child && ts[i].parent == g.fkEdges[e].parent
      && ts[i].name == g.fkEdges[e].name
      && forall j: nat :: j in ts[i].prereqs <==> j < |ts| && IsKeyTask(ts[j]) && ts[j].cls == ts[i].parent
  {
    hide DistinctNames, KeyTasks, IndexTasks, FkTasks, BeforeTriggers, StatsTasks, KeysOf, UpTo;
    var ts, i := Schedule(g, roster), |KeyTasks(g)| + |IndexTasks(roster)| + e;
    Layout(g, roster);
    TaskAt(g, roster, i);
    forall j: nat ensures j in ts[i].prereqs <==> j < |ts| && IsKeyTask(ts[j]) && ts[j].cls == ts[i].parent {
      KeysOfAre(g, roster, ts[i].parent, j);
    }
  }

  /** Triggers come last and wait for every other task. */
  lemma TriggersDependOnAll(g: Graph, roster: ImportSet)
    requires roster.triggerFile != ""
    ensures var ts := Schedule(g, roster);
      && ts != [] && ts[|ts| - 1].kind.DefineTriggers?
      && ts[|ts| - 1].prereqs == UpTo(|ts| - 1)
      && (forall i :: 0 <= i < |ts| - 1 ==> !ts[i].kind.DefineTriggers?)
  {
    hide UpTo, BeforeTriggers, KeyTasks, KeysOf;
    var ts := Schedule(g, roster);
    forall i | 0 <= i < |ts| - 1 ensures !ts[i].kind.DefineTriggers? { TaskAt(g, roster, i); }
  }

  /** Statistics are refreshed after exactly the class's own keys and the deferred indexes. */
  lemma StatsDependOnKeys(g: Graph, roster: ImportSet, n: nat)
    requires DistinctNames(g.nodes) && n < |g.nodes|
    ensures var ts, i := Schedule(g, roster), |KeyTasks(g)| + |IndexTasks(roster)| + |g.fkEdges| + n;
      && i < |ts| && ts[i].kind.Stats? && ts[i].cls == g.nodes[n].name
      && forall j: nat :: j in ts[i].prereqs <==>
           j < |ts| && ((IsKeyTask(ts[j]) && ts[j].cls == ts[i].cls) || (ts[j].kind.BuildIndex? && roster.indexFile != ""))
  {
    hide DistinctNames, KeyTasks, FkTasks, BeforeTriggers, KeysOf, StatsTasks;
    var ts, i := Schedule(g, roster), |KeyTasks(g)| + |IndexTasks(roster)| + |g.fkEdges| + n;
    Layout(g, roster);
    TaskAt(g, roster, i);
    forall j: nat ensures j in ts[i].prereqs <==>
      j < |ts| && ((IsKeyTask(ts[j]) && ts[j].cls == ts[i].cls) || (ts[j].kind.BuildIndex? && roster.indexFile != ""))
    {
      KeysOfAre(g, roster, ts[i].cls, j);
      if j < |BeforeTriggers(g, roster)| { TaskAt(g, roster, j); }
    }
  }

  // ----- the machine check -----

  method CheckOrder(tasks: seq<Task>) returns (ok: bool)
    ensures ok <==> Ordered(tasks)
  {
    for i := 0 to |tasks|
      invariant Ordered(tasks[..i])
    {
      for j := 0 to |tasks[i].prereqs|
        invariant forall p :: p in tasks[i].prereqs[..j] ==> p < i
      {
        var p := tasks[i].prereqs[j];
        assert tasks[i].prereqs[..j + 1] == tasks[i].prereqs[..j] + [p];
        if p >= |tasks| || p >= i {
          assert p in tasks[i].prereqs;
          return false;
        }
      }
      assert tasks[i].prereqs[..|tasks[i].prereqs|] == tasks[i].prereqs;
    }
    assert tasks[..|tasks|] == tasks;
    return true;
  }

  /** The prerequisites of a task not yet in `done`, repeats counted. */
  function Waiting(ps: seq<nat>, done: set<nat>): nat {
    if ps == [] then 0 else Waiting(ps[..|ps| - 1], done) + if ps[|ps| - 1] in done then 0 else 1
  }

  lemma {:induction false} WaitingFalls(ps: seq<nat>, done: set<nat>, p: nat)
    requires p !in done
    ensures Waiting(ps, done) == Waiting(ps, done + {p}) + multiset(ps)[p]
  {
    if ps != [] {
      WaitingFalls(ps[..|ps| - 1], done, p);
      assert ps == ps[..|ps| - 1] + [ps[|ps| - 1]];
    }
  }

  lemma {:induction false} NoneWaiting(ps: seq<nat>, done: set<nat>)
    ensures Waiting(ps, done) == 0 <==> forall p :: p in ps ==> p in done
  {
    if ps != [] {
      NoneWaiting(ps[..|ps| - 1], done);
      assert ps == ps[..|ps| - 1] + [ps[|ps| - 1]];
    }
  }

  // ----- the topological pass -----

  /** `succ` lists each task once per occurrence of the prerequisite. */
  ghost predicate Mirrors(tasks: seq<Task>, succ: seq<seq<nat>>) {
    && |succ| == |tasks| && (forall p, i: nat :: 0 <= p < |succ| && i in succ[p] ==> i < |tasks|)
    && (forall p, i :: 0 <= p < |succ| && 0 <= i < |tasks| ==> multiset(succ[p])[i] == multiset(tasks[i].prereqs)[p])
  }

  /** The queue holds exactly the tasks that wait for nothing, each once. */
  ghost predicate Queued(tasks: seq<Task>, order: seq<nat>, indeg: seq<int>) {
    && |indeg| == |tasks|
    && (forall i, j :: 0 <= i < j < |order| ==> order[i] != order[j])
    && (forall i: nat :: i in order <==> i < |tasks| && indeg[i] == 0)
  }

  ghost predicate Degrees(tasks: seq<Task>, done: set<nat>, indeg: seq<int>) {
    |indeg| == |tasks| && forall i :: 0 <= i < |tasks| ==> indeg[i] == Waiting(tasks[i].prereqs, done)
  }

  method AddSuccessors(i: nat, ps: seq<nat>, succ: array<seq<nat>>)
    requires forall p :: p in ps ==> p < succ.Length
    modifies succ
    ensures forall p, v :: 0 <= p < succ.Length && v in succ[p] ==> v == i || v in old(succ[p])
    ensures forall p, v: nat :: 0 <= p < succ.Length ==>
      multiset(succ[p])[v] == multiset(old(succ[p]))[v] + if v == i then multiset(ps)[p] else 0
  {
    for j := 0 to |ps|
      invariant forall p, v :: 0 <= p < succ.Length && v in succ[p] ==> v == i || v in old(succ[p])
      invariant forall p, v: nat :: 0 <= p < succ.Length ==>
        multiset(succ[p])[v] == multiset(old(succ[p]))[v] + if v == i then multiset(ps[..j])[p] else 0
    {
      assert ps[j] in ps;
      assert ps[..j + 1] == ps[..j] + [ps[j]];
      succ[ps[j]] := succ[ps[j]] + [i];
    }
    assert ps[..|ps|] == ps;
  }

  method IndexTaskEdges(tasks: seq<Task>) returns (succ: array<seq<nat>>, indeg: array<int>)
    requires Ordered(tasks)
    ensures fresh(succ) && fresh(indeg)
    ensures Mirrors(tasks, succ[..]) && Degrees(tasks, {}, indeg[..])
  {
    hide Waiting;
    succ := new seq<nat>[|tasks|](_ => []);
    indeg := new int[|tasks|](_ => 0);
    for i := 0 to |tasks|
      invariant forall p, v :: 0 <= p < |tasks| && v in succ[p] ==> v < i
      invariant forall p, v: nat :: 0 <= p < |tasks| ==>
        multiset(succ[p])[v] == if v < i then multiset(tasks[v].prereqs)[p] else 0
      invariant forall v :: 0 <= v < i ==> indeg[v] == |tasks[v].prereqs|
    {
      AddSuccessors(i, tasks[i].prereqs, succ);
      indeg[i] := |tasks[i].prereqs|;
    }
    forall v | 0 <= v < |tasks| ensures indeg[v] == Waiting(tasks[v].prereqs, {}) { AllWaiting(tasks[v].prereqs); }
  }

  lemma AllWaiting(ps: seq<nat>)
    ensures Waiting(ps, {}) == |ps|
  {
  }

  /** Task `p` is done: each occurrence of it is struck out, and what waits for nothing any
      more joins the queue. */
  method Finish(tasks: seq<Task>, p: nat, successors: seq<nat>, indeg: array<int>, queue: seq<nat>, ghost done: set<nat>)
    returns (order: seq<nat>)
    requires p !in done && (forall v :: v in successors ==> v < |tasks|)
    requires forall i :: 0 <= i < |tasks| ==> multiset(successors)[i] == multiset(tasks[i].prereqs)[p]
    requires Degrees(tasks, done, indeg[..]) && Queued(tasks, queue, indeg[..])
    modifies indeg
    ensures Degrees(tasks, done + {p}, indeg[..]) && Queued(tasks, order, indeg[..]) && queue <= order
  {
    order := queue;
    assert multiset(successors[..0]) == multiset{};
    for k := 0 to |successors|
      invariant queue <= order && Queued(tasks, order, indeg[..])
      invariant forall i :: 0 <= i < |tasks| ==> indeg[i] == Waiting(tasks[i].prereqs, done) - multiset(successors[..k])[i]
    {
      var v := successors[k];
      assert v in successors && successors[..k + 1] == successors[..k] + [v];
      Outstanding(tasks[v].prereqs, done, p, successors, k);
      indeg[v] := indeg[v] - 1;
      if indeg[v] == 0 {
        order := order + [v];
      }
    }
    assert successors[..|successors|] == successors;
    forall i | 0 <= i < |tasks| ensures indeg[i] == Waiting(tasks[i].prereqs, done + {p}) {
      WaitingFalls(tasks[i].prereqs, done, p);
    }
  }

  lemma Outstanding(ps: seq<nat>, done: set<nat>, p: nat, successors: seq<nat>, k: nat)
    requires p !in done && k < |successors| && multiset(successors)[successors[k]] == multiset(ps)[p]
    ensures Waiting(ps, done) > multiset(successors[..k])[successors[k]]
  {
    hide Waiting;
    WaitingFalls(ps, done, p);
    assert successors == successors[..k] + [successors[k]] + successors[k + 1..];
  }

  function ToSet(s: seq<nat>): set<nat> { set x | x in s }

  lemma {:induction false} DistinctSize(s: seq<nat>)
    requires forall i, j :: 0 <= i < j < |s| ==> s[i] != s[j]
    ensures |ToSet(s)| == |s|
  {
    if s != [] {
      DistinctSize(s[..|s| - 1]);
      assert s == s[..|s| - 1] + [s[|s| - 1]];
      assert ToSet(s) == ToSet(s[..|s| - 1]) + {s[|s| - 1]};
    }
  }

  lemma SmallerSet(a: set<nat>, b: set<nat>)
    requires a <= b
    ensures |a| <= |b|
  {
    if x :| x in a { SmallerSet(a - {x}, b - {x}); }
  }

  lemma QueueFits(tasks: seq<Task>, order: seq<nat>, indeg: seq<int>)
    requires Queued(tasks, order, indeg)
    ensures |order| <= |tasks| && ((forall i :: 0 <= i < |tasks| ==> i in order) ==> |order| == |tasks|)
  {
    var below := ToSet(UpTo(|tasks|));
    DistinctSize(order);
    DistinctSize(UpTo(|tasks|));
    forall i | i in order ensures i in below { assert UpTo(|tasks|)[i] == i; }
    SmallerSet(ToSet(order), below);
    if forall i :: 0 <= i < |tasks| ==> i in order {
      SmallerSet(below, ToSet(order));
    }
  }

  /** When the queue has run dry every task has been through it: a task waits only for
      smaller ones. */
  lemma {:induction false} AllQueued(tasks: seq<Task>, order: seq<nat>, indeg: seq<int>, i: nat)
    requires Ordered(tasks) && Queued(tasks, order, indeg) && Degrees(tasks, ToSet(order), indeg) && i < |tasks|
    ensures i in order
    decreases i
  {
    forall p | p in tasks[i].prereqs ensures p in ToSet(order) { AllQueued(tasks, order, indeg, p); }
    NoneWaiting(tasks[i].prereqs, ToSet(order));
  }

  /** The check accepts exactly the lists whose every prerequisite is emitted earlier: its
      topological pass then visits every task, repeated prerequisites included. */
  method ValidateSchedule(tasks: seq<Task>) returns (ok: bool)
    ensures ok <==> Ordered(tasks)
  {
    hide Ordered, Waiting;
    var ordered := CheckOrder(tasks);
    if !ordered {
      return false;
    }
    var succ, indeg := IndexTaskEdges(tasks);
    var order: seq<nat> := [];
    for i := 0 to |tasks|
      invariant forall j, k :: 0 <= j < k < |order| ==> order[j] != order[k]
      invariant forall j: nat :: j in order <==> j < i && indeg[j] == 0
    {
      if indeg[i] == 0 {
        order := order + [i];
      }
    }
    var h := 0;
    assert ToSet(order[..0]) == {};
    while h < |order|
      invariant h <= |order| && Mirrors(tasks, succ[..]) && Queued(tasks, order, indeg[..])
      invariant Degrees(tasks, ToSet(order[..h]), indeg[..])
      decreases |tasks| - h
    {
      var p := order[h];
      QueueFits(tasks, order, indeg[..]);
      assert p in order && p < |tasks|;
      assert succ[..][p] == succ[p];
      ghost var before := order;
      order := Finish(tasks, p, succ[p], indeg, order, ToSet(order[..h]));
      assert ToSet(before[..h]) + {p} == ToSet(order[..h + 1]) by { assert order[..h + 1] == before[..h] + [p]; }
      h := h + 1;
    }
    assert order[..h] == order;
    forall i | 0 <= i < |tasks| ensures i in order { AllQueued(tasks, order, indeg[..], i); }
    QueueFits(tasks, order, indeg[..]);
    return |order| == |tasks|;
  }
}
