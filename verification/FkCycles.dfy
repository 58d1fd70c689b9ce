/** Foreign-key cycles: a depth-first search over the edges child -> parent that reports the
    stack slice closed by every back edge. What it reports is enough to break every cycle. */
module FkCycles {
  import opened Schema
  import opened Ordering

  predicate Refers(edges: seq<FkEdge>, u: string, v: string) {
    exists e :: e in edges && e.child == u && e.parent == v
  }

  /** A walk along foreign keys. */
  ghost predicate Walk(edges: seq<FkEdge>, w: seq<string>) {
    forall i :: 0 <= i < |w| - 1 ==> Refers(edges, w[i], w[i + 1])
  }

  ghost predicate ClosedWalk(edges: seq<FkEdge>, w: seq<string>) {
    |w| >= 2 && w[0] == w[|w| - 1] && Walk(edges, w)
  }

  ghost predicate Acyclic(edges: seq<FkEdge>) {
    forall w :: !ClosedWalk(edges, w)
  }

  ghost predicate Distinct(s: seq<string>) {
    forall i, j :: 0 <= i < j < |s| ==> s[i] != s[j]
  }

  /** A closed walk that meets no node twice but its start. */
  ghost predicate SimpleCycle(edges: seq<FkEdge>, w: seq<string>) {
    ClosedWalk(edges, w) && Distinct(w[1..])
  }

  predicate OnReported(cycles: seq<seq<string>>, x: string) {
    exists c :: c in cycles && x in c
  }

  /** The edges left when those with both ends on reported cycles are dropped. */
  function Retained(edges: seq<FkEdge>, cycles: seq<seq<string>>): seq<FkEdge> {
    if edges == [] then []
    else
      var e := edges[|edges| - 1];
      Retained(edges[..|edges| - 1], cycles) + if OnReported(cycles, e.child) && OnReported(cycles, e.parent) then [] else [e]
  }

  lemma RetainedAre(edges: seq<FkEdge>, cycles: seq<seq<string>>, e: FkEdge)
    ensures e in Retained(edges, cycles) <==> e in edges && !(OnReported(cycles, e.child) && OnReported(cycles, e.parent))
  {
    if edges != [] {
      assert edges == edges[..|edges| - 1] + [edges[|edges| - 1]];
    }
  }

  // ----- the adjacency lists -----

  function Parents(edges: seq<FkEdge>, u: string): seq<string> {
    if edges == [] then []
    else Parents(edges[..|edges| - 1], u) + if edges[|edges| - 1].child == u then [edges[|edges| - 1].parent] else []
  }

  lemma ParentsAre(edges: seq<FkEdge>, u: string, v: string)
    ensures v in Parents(edges, u) <==> Refers(edges, u, v)
  {
    if edges != [] {
      var init, e := edges[..|edges| - 1], edges[|edges| - 1];
      assert edges == init + [e];
      ParentsAre(init, u, v);
    }
  }

  /** Every class an edge touches, in map order. */
  function Keys(edges: seq<FkEdge>): seq<string> {
    if edges == [] then []
    else InsertName(InsertName(Keys(edges[..|edges| - 1]), edges[|edges| - 1].child), edges[|edges| - 1].parent)
  }

  lemma KeysAre(edges: seq<FkEdge>, x: string)
    ensures x in Keys(edges) <==> exists e :: e in edges && (e.child == x || e.parent == x)
  {
    if edges != [] {
      var init, e := edges[..|edges| - 1], edges[|edges| - 1];
      assert edges == init + [e];
      KeysAre(init, x);
      InsertedNames(Keys(init), e.child, x);
      InsertedNames(InsertName(Keys(init), e.child), e.parent, x);
    }
  }

  type Adj = map<string, seq<string>>

  function ListOf(adj: Adj, u: string): seq<string> { if u in adj then adj[u] else [] }

  method AddEdge(adj: Adj, e: FkEdge) returns (adj': Adj)
    ensures adj'.Keys == adj.Keys + {e.child, e.parent}
    ensures forall u :: ListOf(adj', u) == ListOf(adj, u) + if e.child == u then [e.parent] else []
  {
    adj' := adj[e.child := ListOf(adj, e.child) + [e.parent]];
    if e.parent !in adj' {
      adj' := adj'[e.parent := []];
    }
  }

  ghost predicate IsAdjacency(edges: seq<FkEdge>, adj: Adj) {
    && (forall u :: ListOf(adj, u) == Parents(edges, u))
    && (forall x :: x in adj <==> x in Keys(edges))
  }

  method Adjacency(edges: seq<FkEdge>) returns (adj: Adj, keys: seq<string>)
    ensures keys == Keys(edges) && IsAdjacency(edges, adj)
  {
    adj, keys := map[], [];
    for i := 0 to |edges|
      invariant keys == Keys(edges[..i]) && IsAdjacency(edges[..i], adj)
    {
      var next := AddEdge(adj, edges[i]);
      assert (IsAdjacency(edges[..i + 1], next)) && (Keys(edges[..i + 1]) == InsertName(InsertName(Keys(edges[..i]), edges[i].child), edges[i].parent)) by {
        var e, keys := edges[i], Keys(edges[..i]);
        assert edges[..i + 1][..i] == edges[..i];
        forall u ensures ListOf(next, u) == Parents(edges[..i + 1], u) {
          assert ListOf(adj, u) == Parents(edges[..i], u);
        }
        forall x ensures x in next <==> x in Keys(edges[..i + 1]) {
          assert x in adj <==> x in keys;
          InsertedNames(keys, e.child, x);
          InsertedNames(InsertName(keys, e.child), e.parent, x);
        }
      }
      adj, keys := next, InsertName(InsertName(keys, edges[i].child), edges[i].parent);
    }
    assert edges[..|edges|] == edges;
  }

  lemma AdjacencyRefers(edges: seq<FkEdge>, adj: Adj, u: string, v: string)
    requires IsAdjacency(edges, adj)
    ensures Refers(edges, u, v) <==> u in adj && v in adj[u]
    ensures u in adj && v in adj[u] ==> v in adj
  {
    ParentsAre(edges, u, v);
    assert ListOf(adj, u) == Parents(edges, u);
    KeysAre(edges, v);
  }

  // ----- the search -----

  /** White is a class without a colour. */
  datatype Color = Grey | Black

  datatype Visit = Visit(color: map<string, Color>, stack: seq<string>, cycles: seq<seq<string>>)

  const NOTHING := Visit(map[], [], [])

  /** The slice of the stack from `v` on. */
  function From(stack: seq<string>, v: string): seq<string> {
    if stack == [] || stack[0] == v then stack else From(stack[1..], v)
  }

  ghost predicate Closed(adj: Adj) { forall u, v :: u in adj && v in adj[u] ==> v in adj }

  /** The search from `u`, and over the list of its parents. */
  ghost function Explore(adj: Adj, st: Visit, u: string): (r: Visit)
    requires Closed(adj) && u in adj && u !in st.color && st.color.Keys <= adj.Keys
    ensures st.color.Keys <= r.color.Keys <= adj.Keys
    decreases adj.Keys - st.color.Keys, 0
  {
    var entered := Visit(st.color[u := Grey], st.stack + [u], st.cycles);
    assert u in adj.Keys - st.color.Keys && u !in adj.Keys - entered.color.Keys;
    var r := ExploreAll(adj, entered, u, adj[u]);
    Visit(r.color[u := Black], st.stack, r.cycles)
  }

  ghost function ExploreAll(adj: Adj, st: Visit, u: string, vs: seq<string>): (r: Visit)
    requires Closed(adj) && st.color.Keys <= adj.Keys && forall v :: v in vs ==> v in adj
    ensures st.color.Keys <= r.color.Keys <= adj.Keys
    decreases adj.Keys - st.color.Keys, |vs| + 1
  {
    if vs == [] then st
    else
      var v := vs[0];
      if v !in st.color then
        var next := Explore(adj, st, v);
        assert adj.Keys - next.color.Keys <= adj.Keys - st.color.Keys;
        ExploreAll(adj, next, u, vs[1..])
      else if st.color[v].Grey? then ExploreAll(adj, st.(cycles := st.cycles + [From(st.stack, v) + [v]]), u, vs[1..])
      else ExploreAll(adj, st, u, vs[1..])
  }

  ghost function ExploreRoots(adj: Adj, st: Visit, keys: seq<string>): Visit
    requires Closed(adj) && st.color.Keys <= adj.Keys && forall k :: k in keys ==> k in adj
    decreases |keys|
  {
    if keys == [] then st
    else ExploreRoots(adj, if keys[0] in st.color then st else Explore(adj, st, keys[0]), keys[1..])
  }

  /** A finished node's edge leads to a node finished before it, or lies on reported cycles. */
  ghost predicate Settled(u: string, v: string, before: seq<string>, cycles: seq<seq<string>>) {
    v in before || (OnReported(cycles, u) && OnReported(cycles, v))
  }

  ghost predicate AllSettled(edges: seq<FkEdge>, finished: seq<string>, cycles: seq<seq<string>>) {
    forall i, v :: 0 <= i < |finished| && Refers(edges, finished[i], v) ==> Settled(finished[i], v, finished[..i], cycles)
  }

  method Slice(stack: seq<string>, v: string) returns (slice: seq<string>)
    requires v in stack
    ensures slice == From(stack, v)
  {
    var i := 0;
    while stack[i] != v
      invariant 0 <= i < |stack| && v in stack[i..] && From(stack, v) == From(stack[i..], v)
      decreases |stack| - i
    {
      assert stack[i..] == [stack[i]] + stack[i + 1..];
      i := i + 1;
    }
    slice := stack[i..];
  }

  lemma FromIs(stack: seq<string>, v: string) returns (i: nat)
    requires v in stack
    ensures i < |stack| && stack[i] == v && From(stack, v) == stack[i..]
  {
    if stack[0] == v {
      i := 0;
    } else {
      assert stack == [stack[0]] + stack[1..];
      i := FromIs(stack[1..], v);
      i := i + 1;
    }
  }

  lemma SliceIsCycle(edges: seq<FkEdge>, stack: seq<string>, v: string)
    requires Walk(edges, stack) && Distinct(stack) && v in stack && Refers(edges, stack[|stack| - 1], v)
    ensures var cycle := From(stack, v) + [v];
      SimpleCycle(edges, cycle) && v in cycle && stack[|stack| - 1] in cycle
  {
    hide From;
    var i := FromIs(stack, v);
    var cycle := From(stack, v) + [v];
    forall k | 0 <= k < |cycle| - 1 ensures Refers(edges, cycle[k], cycle[k + 1]) {
      if i + k < |stack| - 1 { assert Refers(edges, stack[i + k], stack[i + k + 1]); }
    }
    assert cycle[|stack| - 1 - i] == stack[|stack| - 1];
  }

  lemma ExploreIs(adj: Adj, st: Visit, u: string, left: Visit)
    requires Closed(adj) && u in adj && u !in st.color && st.color.Keys <= adj.Keys
    requires left == ExploreAll(adj, Visit(st.color[u := Grey], st.stack + [u], st.cycles), u, adj[u])
    ensures Explore(adj, st, u) == Visit(left.color[u := Black], st.stack, left.cycles)
  {
    hide ExploreAll;
  }

  lemma AllDone(adj: Adj, st: Visit, u: string)
    requires Closed(adj) && st.color.Keys <= adj.Keys
    ensures ExploreAll(adj, st, u, []) == st
  {
  }

  /** What looking at `vs[0]` leaves. */
  ghost function Looked(adj: Adj, st: Visit, v: string): (r: Visit)
    requires Closed(adj) && st.color.Keys <= adj.Keys && v in adj
    ensures st.color.Keys <= r.color.Keys <= adj.Keys
  {
    if v !in st.color then Explore(adj, st, v)
    else if st.color[v].Grey? then st.(cycles := st.cycles + [From(st.stack, v) + [v]])
    else st
  }

  lemma AllStep(adj: Adj, st: Visit, u: string, vs: seq<string>)
    requires Closed(adj) && st.color.Keys <= adj.Keys && vs != [] && forall v :: v in vs ==> v in adj
    ensures ExploreAll(adj, st, u, vs) == ExploreAll(adj, Looked(adj, st, vs[0]), u, vs[1..])
  {
    hide Explore;
  }

  lemma RootsStep(adj: Adj, st: Visit, keys: seq<string>)
    requires Closed(adj) && st.color.Keys <= adj.Keys && keys != [] && forall k :: k in keys ==> k in adj
    ensures ExploreRoots(adj, st, keys) == ExploreRoots(adj, if keys[0] in st.color then st else Explore(adj, st, keys[0]), keys[1..])
  {
    hide Explore;
  }

  lemma RootsDone(adj: Adj, st: Visit)
    requires Closed(adj) && st.color.Keys <= adj.Keys
    ensures ExploreRoots(adj, st, []) == st
  {
  }

  class Search {
    const edges: seq<FkEdge>
    const adj: Adj
    var color: map<string, Color>
    var stack: seq<string>
    var cycles: seq<seq<string>>
    ghost var finished: seq<string>

    ghost predicate Valid()
      reads this
    {
      && Closed(adj) && (forall u, v :: Refers(edges, u, v) <==> u in adj && v in adj[u])
      && color.Keys <= adj.Keys
      && (forall x :: x in stack <==> x in color && color[x].Grey?) && Distinct(stack) && Walk(edges, stack)
      && (forall x :: x in finished <==> x in color && color[x].Black?)
      && (forall c :: c in cycles ==> SimpleCycle(edges, c))
      && AllSettled(edges, finished, cycles)
    }

    function Now(): Visit
      reads this
    {
      Visit(color, stack, cycles)
    }

    constructor (edges: seq<FkEdge>, adj: Adj)
      requires Closed(adj)
      requires forall u, v :: Refers(edges, u, v) <==> u in adj && v in adj[u]
      ensures Valid() && this.edges == edges && this.adj == adj && Now() == NOTHING
    {
      this.edges, this.adj := edges, adj;
      color, stack, cycles, finished := map[], [], [], [];
    }

    /** The slice of the stack from `v` on, closed by `v`. */
    method Report(v: string)
      requires Valid() && v in stack && Refers(edges, stack[|stack| - 1], v)
      modifies this`cycles
      ensures Valid() && cycles == old(cycles) + [From(stack, v) + [v]]
      ensures OnReported(cycles, v) && OnReported(cycles, stack[|stack| - 1])
    {
      hide Refers, Distinct, ClosedWalk, From;
      var slice := Slice(stack, v);
      var cycle := slice + [v];
      SliceIsCycle(edges, stack, v);
      cycles := cycles + [cycle];
      assert cycle in cycles;
    }

    method Enter(u: string)
      requires Valid() && u in adj && u !in color && (stack != [] ==> Refers(edges, stack[|stack| - 1], u))
      modifies this`color, this`stack
      ensures Valid() && color == old(color)[u := Grey] && stack == old(stack) + [u]
    {
      hide Refers, Closed, AllSettled;
      color := color[u := Grey];
      stack := stack + [u];
    }

    method Leave(u: string)
      requires Valid() && stack != [] && stack[|stack| - 1] == u
      requires forall v :: v in adj[u] ==> Settled(u, v, finished, cycles)
      modifies this`color, this`stack, this`finished
      ensures Valid() && color == old(color)[u := Black] && |stack| == |old(stack)| - 1 && stack == old(stack)[..|stack|]
      ensures finished == old(finished) + [u]
    {
      var all := finished + [u];
      forall i, v | 0 <= i < |all| && Refers(edges, all[i], v) ensures Settled(all[i], v, all[..i], cycles) {
        if i < |finished| {
          assert all[i] == finished[i] && all[..i] == finished[..i];
        } else {
          assert all[..i] == finished;
        }
      }
      color := color[u := Black];
      stack := stack[..|stack| - 1];
      finished := finished + [u];
    }

    /** One edge of `u`, the top of the stack. */
    method Look(u: string, v: string)
      requires Valid() && stack != [] && stack[|stack| - 1] == u && u in adj && v in adj[u]
      modifies this
      ensures Valid() && stack == old(stack) && old(cycles) <= cycles && old(finished) <= finished
      ensures Settled(u, v, finished, cycles) && old(color.Keys) <= color.Keys
      ensures Now() == Looked(adj, old(Now()), v)
      decreases adj.Keys - color.Keys, 1
    {
      hide Explore, From, SimpleCycle, AllSettled, Walk, Distinct, OnReported, Refers;
      if v in color && color[v].Grey? {
        Report(v);
      } else if v !in color {
        Dfs(v);
      }
    }

    method Dfs(u: string)
      requires Valid() && u in adj && u !in color && (stack != [] ==> Refers(edges, stack[|stack| - 1], u))
      modifies this
      ensures Valid() && stack == old(stack) && old(cycles) <= cycles && old(finished) <= finished && u in finished
      ensures Now() == Explore(adj, old(Now()), u)
      decreases adj.Keys - color.Keys, 0
    {
      hide Explore, ExploreAll, Looked, From, SimpleCycle, AllSettled, Settled, Walk, Distinct, OnReported, Refers;
      ghost var before := Now();
      Enter(u);
      ghost var entered := Now();
      assert adj[u][0..] == adj[u];
      for i := 0 to |adj[u]|
        invariant Valid() && stack == entered.stack && old(cycles) <= cycles && old(finished) <= finished
        invariant ExploreAll(adj, Now(), u, adj[u][i..]) == ExploreAll(adj, entered, u, adj[u])
        invariant old(color.Keys) + {u} <= color.Keys
        invariant forall v :: v in adj[u][..i] ==> Settled(u, v, finished, cycles)
      {
        ghost var was, fin := cycles, finished;
        AllStep(adj, Now(), u, adj[u][i..]);
        Look(u, adj[u][i]);
        assert adj[u][..i + 1] == adj[u][..i] + [adj[u][i]] && adj[u][i..][1..] == adj[u][i + 1..];
        MoreSettled(u, adj[u][..i], fin, finished, was, cycles);
      }
      assert adj[u][..|adj[u]|] == adj[u] && adj[u][|adj[u]|..] == [];
      AllDone(adj, Now(), u);
      ExploreIs(adj, before, u, Now());
      Leave(u);
    }
  }

  lemma MoreSettled(u: string, vs: seq<string>, before: seq<string>, after: seq<string>,
                    cycles: seq<seq<string>>, more: seq<seq<string>>)
    requires forall v :: v in vs ==> Settled(u, v, before, cycles)
    requires before <= after && cycles <= more
    ensures forall v :: v in vs ==> Settled(u, v, after, more)
  {
    forall x | OnReported(cycles, x) ensures OnReported(more, x) {
      var c :| c in cycles && x in c;
      assert c in more;
    }
  }

  function AdjOf(edges: seq<FkEdge>): Adj {
    map u | u in Keys(edges) :: Parents(edges, u)
  }

  lemma AdjIs(edges: seq<FkEdge>, adj: Adj)
    requires IsAdjacency(edges, adj)
    ensures adj == AdjOf(edges) && Closed(adj) && forall u, v :: Refers(edges, u, v) <==> u in adj && v in adj[u]
  {
    hide Keys;
    forall u | u in adj ensures u in AdjOf(edges) && adj[u] == AdjOf(edges)[u] {
      assert ListOf(adj, u) == Parents(edges, u);
    }
    forall u, v ensures Refers(edges, u, v) <==> u in adj && v in adj[u] { AdjacencyRefers(edges, adj, u, v); }
    forall u, v | u in adj && v in adj[u] ensures v in adj { AdjacencyRefers(edges, adj, u, v); }
  }

  lemma AdjIsClosed(edges: seq<FkEdge>)
    ensures Closed(AdjOf(edges)) && forall k :: k in Keys(edges) ==> k in AdjOf(edges)
  {
    var adj := AdjOf(edges);
    forall u ensures ListOf(adj, u) == Parents(edges, u) {
      if u !in adj && Parents(edges, u) != [] {
        ParentsAre(edges, u, Parents(edges, u)[0]);
        KeysAre(edges, u);
      }
    }
    AdjIs(edges, adj);
  }

  /** The cycles the search reports, roots taken in map order. */
  ghost function CyclesOf(edges: seq<FkEdge>): seq<seq<string>> {
    AdjIsClosed(edges);
    ExploreRoots(AdjOf(edges), NOTHING, Keys(edges)).cycles
  }

  /** The whole search: every class ends up finished. */
  method SearchAll(edges: seq<FkEdge>) returns (cycles: seq<seq<string>>, ghost order: seq<string>)
    ensures forall c :: c in cycles ==> SimpleCycle(edges, c)
    ensures AllSettled(edges, order, cycles) && forall u, v :: Refers(edges, u, v) ==> u in order
    ensures cycles == CyclesOf(edges)
  {
    hide Explore, ExploreRoots, ClosedWalk, SimpleCycle, AllSettled, IsAdjacency, Parents, Keys, AdjOf, Refers, Closed;
    var adj, keys := Adjacency(edges);
    AdjIs(edges, adj);
    AdjIsClosed(edges);
    var search := new Search(edges, adj);
    assert keys[0..] == keys;
    for i := 0 to |keys|
      invariant search.Valid() && search.edges == edges && search.adj == adj && search.stack == []
      invariant forall k :: k in keys[..i] ==> k in search.finished
      invariant ExploreRoots(adj, search.Now(), keys[i..]) == ExploreRoots(adj, NOTHING, keys)
    {
      RootsStep(adj, search.Now(), keys[i..]);
      if keys[i] !in search.color {
        search.Dfs(keys[i]);
      }
      assert keys[..i + 1] == keys[..i] + [keys[i]] && keys[i..][1..] == keys[i + 1..];
    }
    assert keys[..|keys|] == keys && keys[|keys|..] == [];
    RootsDone(adj, search.Now());
    cycles, order := search.cycles, search.finished;
  }

  /** Every cycle reported is a simple closed foreign-key walk; nothing is reported exactly
      when the foreign keys form no cycle; and dropping every edge with both ends on
      reported cycles leaves no cycle. */
  method FindCycles(edges: seq<FkEdge>) returns (cycles: seq<seq<string>>)
    ensures cycles == CyclesOf(edges)
    ensures forall c :: c in cycles ==> SimpleCycle(edges, c)
    ensures cycles == [] <==> Acyclic(edges)
    ensures Acyclic(Retained(edges, cycles))
  {
    hide CyclesOf, AllSettled, SimpleCycle, Refers;
    ghost var order;
    cycles, order := SearchAll(edges);
    RetainedIsAcyclic(edges, order, cycles);
    EmptyMeansAcyclic(edges, cycles);
  }

  ghost function Position(s: seq<string>, x: string): (i: nat)
    requires x in s
    ensures i < |s| && s[i] == x && forall j :: 0 <= j < |s| && s[j] == x ==> i <= j
  {
    if s[0] == x then 0
    else
      assert s == [s[0]] + s[1..];
      Position(s[1..], x) + 1
  }

  /** Along the retained edges the finishing position falls. */
  lemma RetainedIsAcyclic(edges: seq<FkEdge>, order: seq<string>, cycles: seq<seq<string>>)
    requires AllSettled(edges, order, cycles) && forall u, v :: Refers(edges, u, v) ==> u in order
    ensures Acyclic(Retained(edges, cycles))
  {
    hide Retained, Position;
    var kept := Retained(edges, cycles);
    forall u, v | Refers(kept, u, v) ensures u in order && v in order && Position(order, v) < Position(order, u) {
      var e :| e in Retained(edges, cycles) && e.child == u && e.parent == v;
      RetainedAre(edges, cycles, e);
      assert Refers(edges, u, v);
      var i := Position(order, u);
      assert Settled(order[i], v, order[..i], cycles);
      assert v in order[..i];
      var j :| 0 <= j < i && order[j] == v;
      assert Position(order, v) <= j;
    }
    forall w | ClosedWalk(kept, w) ensures false {
      assert Refers(kept, w[0], w[1]);
      FallsAlong(kept, order, w, |w| - 1);
    }
  }

  lemma {:induction false} FallsAlong(kept: seq<FkEdge>, order: seq<string>, w: seq<string>, n: nat)
    requires forall u, v :: Refers(kept, u, v) ==> u in order && v in order && Position(order, v) < Position(order, u)
    requires Walk(kept, w) && 0 < n < |w|
    ensures w[0] in order && w[n] in order && Position(order, w[n]) < Position(order, w[0])
  {
    assert Refers(kept, w[n - 1], w[n - 1 + 1]);
    if n > 1 { FallsAlong(kept, order, w, n - 1); }
  }

  /** Two neighbours of the walk are both reported. */
  ghost predicate Touched(cycles: seq<seq<string>>, w: seq<string>) {
    exists k :: 0 <= k < |w| - 1 && OnReported(cycles, w[k]) && OnReported(cycles, w[k + 1])
  }

  lemma UntouchedIsRetained(edges: seq<FkEdge>, cycles: seq<seq<string>>, w: seq<string>)
    requires ClosedWalk(edges, w) && !Touched(cycles, w)
    ensures ClosedWalk(Retained(edges, cycles), w)
  {
    hide Retained, OnReported;
    forall k | 0 <= k < |w| - 1 ensures Refers(Retained(edges, cycles), w[k], w[k + 1]) {
      assert Refers(edges, w[k], w[k + 1]);
      var e :| e in edges && e.child == w[k] && e.parent == w[k + 1];
      RetainedAre(edges, cycles, e);
    }
  }

  /** Over what the search reports no cycle is passed over: each has two neighbours that are reported. */
  lemma EveryCycleIsTouched(edges: seq<FkEdge>, cycles: seq<seq<string>>, w: seq<string>)
    requires Acyclic(Retained(edges, cycles)) && ClosedWalk(edges, w)
    ensures Touched(cycles, w)
  {
    hide Retained, ClosedWalk, Touched;
    if !Touched(cycles, w) { UntouchedIsRetained(edges, cycles, w); }
  }

  /** So classes that refer to each other, or to themselves, are all reported. */
  lemma MutualAreReported(edges: seq<FkEdge>, cycles: seq<seq<string>>, a: string, b: string)
    requires Acyclic(Retained(edges, cycles)) && Refers(edges, a, b) && Refers(edges, b, a)
    ensures OnReported(cycles, a) && OnReported(cycles, b)
  {
    hide Retained, Refers, OnReported;
    assert ClosedWalk(edges, [a, b, a]);
    EveryCycleIsTouched(edges, cycles, [a, b, a]);
  }

  lemma EmptyMeansAcyclic(edges: seq<FkEdge>, cycles: seq<seq<string>>)
    requires forall c :: c in cycles ==> SimpleCycle(edges, c)
    requires Acyclic(Retained(edges, cycles))
    ensures cycles == [] <==> Acyclic(edges)
  {
    if cycles == [] {
      forall w | ClosedWalk(edges, w) ensures ClosedWalk(Retained(edges, cycles), w) { UntouchedIsRetained(edges, cycles, w); }
    } else {
      assert SimpleCycle(edges, cycles[0]);
    }
  }

  // ----- what is not reported -----

  lemma {:induction false} RootsSeen(adj: Adj, st: Visit, keys: seq<string>)
    requires Closed(adj) && st.color.Keys <= adj.Keys && forall k :: k in keys ==> k in st.color
    ensures ExploreRoots(adj, st, keys) == st
  {
    hide Explore;
    if keys != [] {
      assert keys[0] in keys;
      RootsSeen(adj, st, keys[1..]);
    }
  }

  lemma OneParent(adj: Adj, st: Visit, u: string, v: string)
    requires Closed(adj) && st.color.Keys <= adj.Keys && v in st.color && v in adj
    ensures ExploreAll(adj, st, u, [v]) == if st.color[v].Grey? then st.(cycles := st.cycles + [From(st.stack, v) + [v]]) else st
  {
    hide Explore, ExploreAll;
    AllStep(adj, st, u, [v]);
    AllDone(adj, Looked(adj, st, v), u);
    assert [v][1..] == [];
  }

  /** a refers to b and c, both refer back along b: the search from a meets c when b is finished. */
  lemma SearchFrom(adj: Adj, a: string, b: string, c: string)
    requires Closed(adj) && a != b && b != c && a != c && a in adj && b in adj && c in adj
    requires adj[a] == [b, c] && adj[b] == [a] && adj[c] == [b]
    ensures Explore(adj, NOTHING, a) == Visit(map[a := Black, b := Black, c := Black], [], [[a, b, a]])
  {
    hide Explore, ExploreAll, Closed;
    var inA := Visit(map[a := Grey], [a], []);
    var inB := Visit(map[a := Grey, b := Grey], [a, b], []);
    var found := Visit(map[a := Grey, b := Grey], [a, b], [[a, b, a]]);
    var outB := Visit(map[a := Grey, b := Black], [a], [[a, b, a]]);
    var inC := Visit(map[a := Grey, b := Black, c := Grey], [a, c], [[a, b, a]]);
    OneParent(adj, inB, b, a);
    assert From([a, b], a) + [a] == [a, b, a];
    assert inB.color == inA.color[b := Grey] && inB.stack == inA.stack + [b];
    ExploreIs(adj, inA, b, found);
    OneParent(adj, inC, c, b);
    assert inC.color == outB.color[c := Grey] && inC.stack == outB.stack + [c];
    ExploreIs(adj, outB, c, inC);
    assert Explore(adj, inA, b) == outB;
    AllStep(adj, inA, a, [b, c]);
    assert [b, c][1..] == [c] && [c][1..] == [];
    AllStep(adj, Explore(adj, inA, b), a, [c]);
    AllDone(adj, Explore(adj, Explore(adj, inA, b), c), a);
    assert [] + [a] == [a];
    ExploreIs(adj, NOTHING, a, Explore(adj, outB, c));
  }

  /** A class can lie on a cycle and be on none of those reported. In every graph of three classes
      where the first refers to the others, the second back to it and the third to the second,
      the third is on a cycle, but the second is finished by the time the third is reached. */
  lemma UnreportedOnACycle(edges: seq<FkEdge>, a: string, b: string, c: string)
    requires a != b && b != c && a != c
    requires Parents(edges, a) == [b, c] && Parents(edges, b) == [a] && Parents(edges, c) == [b]
    requires Keys(edges) != [] && Keys(edges)[0] == a && forall k :: k in Keys(edges) ==> k == a || k == b || k == c
    ensures SimpleCycle(edges, [c, b, a, c]) && CyclesOf(edges) == [[a, b, a]] && !OnReported(CyclesOf(edges), c)
  {
    hide Explore, ExploreRoots, Keys, Parents, Refers, Closed;
    ParentsAre(edges, c, b);
    ParentsAre(edges, b, a);
    ParentsAre(edges, a, c);
    assert b in Parents(edges, c) && a in Parents(edges, b) && c in Parents(edges, a);
    AdjIsClosed(edges);
    var adj, keys := AdjOf(edges), Keys(edges);
    SearchFrom(adj, a, b, c);
    var done := Visit(map[a := Black, b := Black, c := Black], [], [[a, b, a]]);
    RootsStep(adj, NOTHING, keys);
    assert Explore(adj, NOTHING, a) == done;
    forall k | k in keys[1..] ensures k in done.color { assert k in keys; }
    RootsSeen(adj, done, keys[1..]);
  }

}
