/** The parallel-eligible level sets: Kahn layering over inheritance (a superclass before its
    child) and foreign keys (a parent before its child), the latter dropped when both ends
    lie on reported cycles. */
module Levels {
  import opened Schema
  import opened Ordering
  import FkCycles

  datatype Pair = Pair(pred: string, succ: string)

  // ----- the retained precedence -----

  function InheritPairs(inh: seq<InheritEdge>): set<Pair> {
    set e | e in inh :: Pair(e.super, e.child)
  }

  function FkPairs(fk: seq<FkEdge>, cycles: seq<seq<string>>): set<Pair> {
    set e | e in fk && !(FkCycles.OnReported(cycles, e.parent) && FkCycles.OnReported(cycles, e.child)) :: Pair(e.parent, e.child)
  }

  function Kept(nodes: seq<string>, edges: set<Pair>): set<Pair> {
    set p | p in edges && p.pred in nodes && p.succ in nodes
  }

  /** Both ends are nodes; a pair that several edges give counts once. */
  function Precedence(nodes: seq<string>, fk: seq<FkEdge>, inh: seq<InheritEdge>, cycles: seq<seq<string>>): set<Pair> {
    Kept(nodes, InheritPairs(inh) + FkPairs(fk, cycles))
  }

  function Preds(r: set<Pair>, n: string): set<string> {
    set p | p in r && p.succ == n :: p.pred
  }

  // ----- what a layering is -----

  function Names(level: seq<string>): set<string> { set n | n in level }

  function Union(levels: seq<seq<string>>): set<string> {
    if levels == [] then {} else Union(levels[..|levels| - 1]) + Names(levels[|levels| - 1])
  }

  /** Every predecessor is in `done`, and the node is not. */
  predicate Ready(nodes: seq<string>, r: set<Pair>, done: set<string>, n: string) {
    n in nodes && n !in done && Preds(r, n) <= done
  }

  ghost predicate IsLevel(nodes: seq<string>, r: set<Pair>, done: set<string>, level: seq<string>) {
    Sorted(level) && forall n :: n in level <==> Ready(nodes, r, done, n)
  }

  /** Each level is the sorted list of what became ready, and at the end nothing is. */
  ghost predicate IsLayering(nodes: seq<string>, r: set<Pair>, levels: seq<seq<string>>) {
    && (forall k :: 0 <= k < |levels| ==> levels[k] != [] && IsLevel(nodes, r, Union(levels[..k]), levels[k]))
    && IsLevel(nodes, r, Union(levels), [])
  }

  lemma {:induction false} InUnion(levels: seq<seq<string>>, n: string)
    ensures n in Union(levels) <==> exists k :: 0 <= k < |levels| && n in levels[k]
  {
    if levels != [] {
      var init, last := levels[..|levels| - 1], |levels| - 1;
      InUnion(init, n);
      if n in Union(init) {
        var k :| 0 <= k < |init| && n in init[k];
        assert n in levels[k];
      }
      if k :| 0 <= k < |levels| && n in levels[k] {
        if k < last { assert n in init[k]; }
      }
    }
  }

  // ----- what a layering says -----

  /** A walk of the retained precedence. */
  ghost predicate Chain(r: set<Pair>, w: seq<string>) {
    w != [] && forall i :: 0 <= i < |w| - 1 ==> Pair(w[i], w[i + 1]) in r
  }

  ghost predicate EndsAt(r: set<Pair>, w: seq<string>, n: string) {
    Chain(r, w) && w[|w| - 1] == n
  }

  lemma PlacedOnce(nodes: seq<string>, r: set<Pair>, levels: seq<seq<string>>, i: nat, j: nat, n: string)
    requires IsLayering(nodes, r, levels) && i < j < |levels| && n in levels[i]
    ensures n !in levels[j]
  {
    InUnion(levels[..j], n);
    assert levels[..j][i] == levels[i];
  }

  /** A predecessor of a placed node is placed on an earlier level. */
  lemma PredIsEarlier(nodes: seq<string>, r: set<Pair>, levels: seq<seq<string>>, k: nat, p: string, n: string) returns (i: nat)
    requires IsLayering(nodes, r, levels) && k < |levels| && n in levels[k] && Pair(p, n) in r
    ensures i < k && p in levels[i]
  {
    assert p in Preds(r, n);
    InUnion(levels[..k], p);
    i :| 0 <= i < k && p in levels[..k][i];
  }

  /** Past the first level some predecessor is on the level just before. */
  lemma PredJustBefore(nodes: seq<string>, r: set<Pair>, levels: seq<seq<string>>, k: nat, n: string) returns (p: string)
    requires IsLayering(nodes, r, levels) && 0 < k < |levels| && n in levels[k]
    ensures Pair(p, n) in r && p in levels[k - 1]
  {
    var done := Union(levels[..k - 1]);
    assert levels[..k][..k - 1] == levels[..k - 1];
    assert n !in levels[k - 1];
    assert !(Preds(r, n) <= done);
    p :| p in Preds(r, n) && p !in done;
    assert p in Union(levels[..k]);
  }

  /** A chain ending on level `k` has at most `k + 1` nodes, all of them placed. */
  lemma {:induction false} ChainFits(nodes: seq<string>, r: set<Pair>, levels: seq<seq<string>>, k: nat, w: seq<string>)
    requires IsLayering(nodes, r, levels) && k < |levels| && Chain(r, w) && w[|w| - 1] in levels[k]
    ensures |w| <= k + 1
  {
    hide IsLayering;
    if |w| > 1 {
      var init := w[..|w| - 1];
      assert Pair(w[|w| - 2], w[|w| - 2 + 1]) in r;
      var i := PredIsEarlier(nodes, r, levels, k, w[|w| - 2], w[|w| - 1]);
      ChainFits(nodes, r, levels, i, init);
    }
  }

  lemma {:induction false} ChainOfLevel(nodes: seq<string>, r: set<Pair>, levels: seq<seq<string>>, k: nat, n: string)
    returns (w: seq<string>)
    requires IsLayering(nodes, r, levels) && k < |levels| && n in levels[k]
    ensures EndsAt(r, w, n) && |w| == k + 1
  {
    hide IsLayering;
    w := [n];
    if k > 0 {
      var p := PredJustBefore(nodes, r, levels, k, n);
      var v := ChainOfLevel(nodes, r, levels, k - 1, p);
      w := v + [n];
    }
  }

  /** A placed node's level is the length of its longest chain of retained predecessors. */
  lemma LevelIsLongestChain(nodes: seq<string>, r: set<Pair>, levels: seq<seq<string>>, k: nat, n: string)
    requires IsLayering(nodes, r, levels) && k < |levels|
    ensures n in levels[k] ==>
      (exists w :: EndsAt(r, w, n) && |w| == k + 1) && (forall w :: EndsAt(r, w, n) ==> |w| <= k + 1)
  {
    if n in levels[k] {
      var w := ChainOfLevel(nodes, r, levels, k, n);
      forall w | EndsAt(r, w, n) ensures |w| <= k + 1 { ChainFits(nodes, r, levels, k, w); }
    }
  }

  ghost predicate Repeats(w: seq<string>) {
    exists i, j :: 0 <= i < j < |w| && w[i] == w[j]
  }

  /** Some chain into `n` goes round a cycle. */
  ghost predicate CycleReaches(r: set<Pair>, n: string) {
    exists w :: EndsAt(r, w, n) && Repeats(w)
  }

  ghost predicate Within(nodes: seq<string>, r: set<Pair>) {
    forall p :: p in r ==> p.pred in nodes && p.succ in nodes
  }

  /** Pigeonhole. */
  lemma {:induction false} Pigeonhole(w: seq<string>, s: set<string>)
    requires (forall x :: x in w ==> x in s) && |w| > |s|
    ensures Repeats(w)
  {
    if w != [] {
      var last := w[|w| - 1];
      if last in w[..|w| - 1] {
        var i :| 0 <= i < |w| - 1 && w[..|w| - 1][i] == last;
        assert w[i] == w[|w| - 1];
      } else {
        Pigeonhole(w[..|w| - 1], s - {last});
        var i, j :| 0 <= i < j < |w| - 1 && w[..|w| - 1][i] == w[..|w| - 1][j];
        assert w[i] == w[j];
      }
    }
  }

  /** From an unplaced node one can go back along unplaced predecessors for ever. */
  lemma {:induction false} UnplacedChain(nodes: seq<string>, r: set<Pair>, levels: seq<seq<string>>, n: string, len: nat)
    returns (w: seq<string>)
    requires IsLayering(nodes, r, levels) && Within(nodes, r) && n in nodes && n !in Union(levels)
    ensures EndsAt(r, w, n) && |w| == len + 1 && forall x :: x in w ==> x in nodes
    decreases len
  {
    hide Union, Sorted;
    w := [n];
    if len > 0 {
      assert !Ready(nodes, r, Union(levels), n);
      var p :| p in Preds(r, n) && p !in Union(levels);
      var v := UnplacedChain(nodes, r, levels, p, len - 1);
      w := v + [n];
    }
  }

  lemma {:induction false} CutLast(r: set<Pair>, levels: seq<seq<string>>, nodes: seq<string>, w: seq<string>, k: nat, i: nat) returns (l: nat)
    requires IsLayering(nodes, r, levels) && Chain(r, w) && k < |levels| && w[|w| - 1] in levels[k] && i < |w| - 1
    ensures l < k && w[i] in levels[l]
    decreases |w|
  {
    hide IsLayering;
    assert Pair(w[|w| - 2], w[|w| - 2 + 1]) in r;
    l := PredIsEarlier(nodes, r, levels, k, w[|w| - 2], w[|w| - 1]);
    if i < |w| - 2 { l := CutLast(r, levels, nodes, w[..|w| - 1], l, i); }
  }

  /** A node is placed exactly when no retained cycle reaches it. */
  lemma PlacedIffNoCycleReaches(nodes: seq<string>, r: set<Pair>, levels: seq<seq<string>>, n: string)
    requires IsLayering(nodes, r, levels) && Within(nodes, r) && n in nodes
    ensures n in Union(levels) <==> !CycleReaches(r, n)
  {
    InUnion(levels, n);
    if n in Union(levels) {
      var k :| 0 <= k < |levels| && n in levels[k];
      forall w | EndsAt(r, w, n) ensures !Repeats(w) {
        PlacedDoesNotRepeat(nodes, r, levels, k, w);
      }
    } else {
      var s := set x | x in nodes;
      var w := UnplacedChain(nodes, r, levels, n, |s|);
      Pigeonhole(w, s);
    }
  }

  lemma PlacedDoesNotRepeat(nodes: seq<string>, r: set<Pair>, levels: seq<seq<string>>, k: nat, w: seq<string>)
    requires IsLayering(nodes, r, levels) && k < |levels| && Chain(r, w) && w[|w| - 1] in levels[k]
    ensures !Repeats(w)
  {
    hide IsLayering;
    forall i, j | 0 <= i < j < |w| ensures w[i] != w[j] {
      var kj := k;
      if j < |w| - 1 { kj := CutLast(r, levels, nodes, w, k, j); }
      var ki := CutLast(r, levels, nodes, w[..j + 1], kj, i);
      if w[i] == w[j] { PlacedOnce(nodes, r, levels, ki, kj, w[i]); }
    }
  }

  /** Every node is placed exactly when the retained precedence has no cycle. */
  lemma AllPlacedIffAcyclic(nodes: seq<string>, r: set<Pair>, levels: seq<seq<string>>)
    requires IsLayering(nodes, r, levels) && Within(nodes, r)
    ensures (forall n :: n in nodes ==> n in Union(levels)) <==> !(exists w :: Chain(r, w) && Repeats(w))
  {
    hide IsLayering;
    if w :| Chain(r, w) && Repeats(w) {
      var i, j :| 0 <= i < j < |w| && w[i] == w[j];
      assert Pair(w[i], w[i + 1]) in r;
      assert EndsAt(r, w, w[|w| - 1]);
      assert w[|w| - 1] in nodes by { assert Pair(w[|w| - 2], w[|w| - 2 + 1]) in r; }
      PlacedIffNoCycleReaches(nodes, r, levels, w[|w| - 1]);
    }
    forall n | n in nodes ensures n in Union(levels) <==> !CycleReaches(r, n) {
      PlacedIffNoCycleReaches(nodes, r, levels, n);
    }
  }

  // ----- the algorithm -----

  type Degrees = map<string, nat>

  /** `indeg` counts the pairs of `rest` into each node. */
  ghost predicate Counts(nodes: seq<string>, rest: set<Pair>, indeg: Degrees) {
    indeg.Keys == Names(nodes) && forall n :: n in nodes ==> indeg[n] == |Preds(rest, n)|
  }

  ghost predicate IsSuccessors(r: set<Pair>, succ: map<string, seq<string>>) {
    && (forall n, m :: n in succ && m in succ[n] ==> Pair(n, m) in r)
    && (forall p :: p in r ==> p.pred in succ && p.succ in succ[p.pred])
    && (forall n :: n in succ ==> FkCycles.Distinct(succ[n]))
  }

  method AllPairs(fk: seq<FkEdge>, inh: seq<InheritEdge>, cycles: seq<seq<string>>) returns (edges: set<Pair>)
    ensures edges == InheritPairs(inh) + FkPairs(fk, cycles)
  {
    edges := {};
    for i := 0 to |inh|
      invariant edges == InheritPairs(inh[..i])
    {
      assert inh[..i + 1] == inh[..i] + [inh[i]];
      edges := edges + {Pair(inh[i].super, inh[i].child)};
    }
    assert inh[..|inh|] == inh;
    ghost var inherited := edges;
    for i := 0 to |fk|
      invariant edges == inherited + FkPairs(fk[..i], cycles)
    {
      assert fk[..i + 1] == fk[..i] + [fk[i]];
      if !(FkCycles.OnReported(cycles, fk[i].parent) && FkCycles.OnReported(cycles, fk[i].child)) {
        edges := edges + {Pair(fk[i].parent, fk[i].child)};
      }
    }
    assert fk[..|fk|] == fk;
  }

  lemma CountUp(r: set<Pair>, p: Pair, n: string)
    requires p !in r
    ensures Preds(r + {p}, n) == if n == p.succ then Preds(r, n) + {p.pred} else Preds(r, n)
    ensures |Preds(r + {p}, n)| == |Preds(r, n)| + if n == p.succ then 1 else 0
  {
    assert Preds(r + {p}, n) == if n == p.succ then Preds(r, n) + {p.pred} else Preds(r, n);
    assert n == p.succ ==> p.pred !in Preds(r, n);
  }

  /** Both maps over the pairs whose ends are nodes. */
  method IndexPairs(nodes: seq<string>, edges: set<Pair>) returns (indeg: Degrees, succ: map<string, seq<string>>)
    ensures Counts(nodes, Kept(nodes, edges), indeg) && IsSuccessors(Kept(nodes, edges), succ)
  {
    hide Counts, IsSuccessors, Kept;
    indeg, succ := map n | n in Names(nodes) :: 0, map[];
    EmptyCounts(nodes, indeg);
    var todo := edges;
    assert edges - todo == {};
    while todo != {}
      invariant todo <= edges
      invariant Counts(nodes, Kept(nodes, edges - todo), indeg) && IsSuccessors(Kept(nodes, edges - todo), succ)
      decreases todo
    {
      var p :| p in todo;
      assert edges - (todo - {p}) == edges - todo + {p};
      indeg, succ := AddPair(nodes, p, indeg, succ, edges - todo);
      todo := todo - {p};
    }
    assert edges - todo == edges;
  }

  lemma EmptyCounts(nodes: seq<string>, indeg: Degrees)
    requires indeg == map n | n in Names(nodes) :: 0
    ensures Counts(nodes, Kept(nodes, {}), indeg) && IsSuccessors(Kept(nodes, {}), map[])
  {
    forall n | n in nodes ensures Preds(Kept(nodes, {}), n) == {} {}
  }

  method AddPair(nodes: seq<string>, p: Pair, indeg: Degrees, succ: map<string, seq<string>>, ghost seen: set<Pair>)
    returns (indeg': Degrees, succ': map<string, seq<string>>)
    requires p !in seen && Counts(nodes, Kept(nodes, seen), indeg) && IsSuccessors(Kept(nodes, seen), succ)
    ensures Counts(nodes, Kept(nodes, seen + {p}), indeg') && IsSuccessors(Kept(nodes, seen + {p}), succ')
  {
    hide Preds;
    indeg', succ' := indeg, succ;
    assert Kept(nodes, seen + {p}) == if p.pred in nodes && p.succ in nodes then Kept(nodes, seen) + {p} else Kept(nodes, seen);
    if p.pred in nodes && p.succ in nodes {
      assert p !in Kept(nodes, seen) && p.succ in indeg;
      forall n | n in nodes ensures |Preds(Kept(nodes, seen) + {p}, n)| == |Preds(Kept(nodes, seen), n)| + if n == p.succ then 1 else 0 { CountUp(Kept(nodes, seen), p, n); }
      ListedPair(Kept(nodes, seen), p, succ);
      succ' := succ[p.pred := (if p.pred in succ then succ[p.pred] else []) + [p.succ]];
      indeg' := indeg[p.succ := indeg[p.succ] + 1];
    }
  }

  lemma ListedPair(r: set<Pair>, p: Pair, succ: map<string, seq<string>>)
    requires p !in r && IsSuccessors(r, succ)
    ensures IsSuccessors(r + {p}, succ[p.pred := (if p.pred in succ then succ[p.pred] else []) + [p.succ]])
  {
    if p.pred in succ { assert p.succ !in succ[p.pred]; }
  }

  method Sort(s: seq<string>) returns (t: seq<string>)
    requires FkCycles.Distinct(s)
    ensures Sorted(t) && forall n :: n in t <==> n in s
  {
    t := [];
    for i := 0 to |s|
      invariant Sorted(t) && forall n :: n in t <==> n in s[..i]
    {
      InsertKeepsSorted(t, s[i]);
      forall n ensures n in InsertName(t, s[i]) <==> n in t || n == s[i] { InsertedNames(t, s[i], n); }
      t := InsertName(t, s[i]);
      assert s[..i + 1] == s[..i] + [s[i]];
    }
    assert s[..|s|] == s;
  }

  /** The pairs whose predecessor is still to come. */
  function Rest(r: set<Pair>, done: set<string>): set<Pair> {
    set p | p in r && p.pred !in done
  }

  lemma NothingRests(r: set<Pair>, done: set<string>, n: string)
    ensures Preds(Rest(r, done), n) == {} <==> Preds(r, n) <= done
  {
    forall q ensures q in Preds(Rest(r, done), n) <==> q in Preds(r, n) && q !in done {
      if q in Preds(r, n) && q !in done { assert Pair(q, n) in Rest(r, done); }
    }
  }

  /** `next` lists what ran out of predecessors while `before` shrank to `rest`. */
  ghost predicate Freed(nodes: seq<string>, before: set<Pair>, rest: set<Pair>, next: seq<string>) {
    FkCycles.Distinct(next) && forall m :: m in next <==> m in nodes && Preds(before, m) != {} && Preds(rest, m) == {}
  }

  /** One pair less. */
  lemma DropPair(nodes: seq<string>, before: set<Pair>, rest: set<Pair>, p: Pair, indeg: Degrees, next: seq<string>)
    requires p in rest && rest <= before && p.succ in nodes && Counts(nodes, rest, indeg) && Freed(nodes, before, rest, next)
    ensures indeg[p.succ] > 0
    ensures Counts(nodes, rest - {p}, indeg[p.succ := indeg[p.succ] - 1])
    ensures Freed(nodes, before, rest - {p}, if indeg[p.succ] == 1 then next + [p.succ] else next)
  {
    var less := rest - {p};
    assert less + {p} == rest;
    forall n ensures |Preds(rest, n)| == |Preds(less, n)| + (if n == p.succ then 1 else 0) && (n != p.succ ==> Preds(rest, n) == Preds(less, n)) {
      CountUp(less, p, n);
    }
    assert p.pred in Preds(rest, p.succ) && p.pred in Preds(before, p.succ);
  }

  function Without(rest: set<Pair>, n: string, ms: seq<string>): set<Pair> {
    set p | p in rest && !(p.pred == n && p.succ in ms)
  }

  lemma WithoutStep(rest: set<Pair>, n: string, ms: seq<string>, j: nat)
    requires j < |ms|
    ensures Without(rest, n, ms[..j + 1]) == Without(rest, n, ms[..j]) - {Pair(n, ms[j])}
    ensures FkCycles.Distinct(ms) && Pair(n, ms[j]) in rest ==> Pair(n, ms[j]) in Without(rest, n, ms[..j])
  {
    assert ms[..j + 1] == ms[..j] + [ms[j]];
  }

  /** Node `n` is placed: its pairs are gone. */
  method Release(nodes: seq<string>, n: string, successors: seq<string>, indeg: Degrees, next: seq<string>,
                 ghost before: set<Pair>, ghost rest: set<Pair>)
    returns (indeg': Degrees, next': seq<string>)
    requires rest <= before && FkCycles.Distinct(successors) && Within(nodes, rest)
    requires forall m :: m in successors <==> Pair(n, m) in rest
    requires Counts(nodes, rest, indeg) && Freed(nodes, before, rest, next)
    ensures Counts(nodes, Rest(rest, {n}), indeg') && Freed(nodes, before, Rest(rest, {n}), next')
  {
    hide Freed;
    indeg', next' := indeg, next;
    assert Without(rest, n, successors[..0]) == rest;
    assert Without(rest, n, successors) == Rest(rest, {n});
    hide Freed, Preds, Rest;
    for j := 0 to |successors|
      invariant Counts(nodes, Without(rest, n, successors[..j]), indeg')
      invariant Freed(nodes, before, Without(rest, n, successors[..j]), next')
    {
      var m := successors[j];
      WithoutStep(rest, n, successors, j);
      assert m in successors && m in nodes;
      DropPair(nodes, before, Without(rest, n, successors[..j]), Pair(n, m), indeg', next');
      if indeg'[m] == 1 {
        next' := next' + [m];
      }
      indeg' := indeg'[m := indeg'[m] - 1];
    }
    assert successors[..|successors|] == successors;
  }

  method ReleaseAll(nodes: seq<string>, succ: map<string, seq<string>>, frontier: seq<string>, indeg: Degrees,
                    ghost r: set<Pair>, ghost done: set<string>)
    returns (indeg': Degrees, next: seq<string>)
    requires IsSuccessors(r, succ) && Within(nodes, r) && FkCycles.Distinct(frontier) && forall n :: n in frontier ==> n !in done
    requires Counts(nodes, Rest(r, done), indeg)
    ensures Counts(nodes, Rest(r, done + Names(frontier)), indeg')
    ensures Freed(nodes, Rest(r, done), Rest(r, done + Names(frontier)), next)
  {
    hide Counts;
    indeg', next := indeg, [];
    ghost var before := Rest(r, done);
    assert done + Names(frontier[..0]) == done;
    for i := 0 to |frontier|
      invariant Counts(nodes, Rest(r, done + Names(frontier[..i])), indeg')
      invariant Freed(nodes, before, Rest(r, done + Names(frontier[..i])), next)
    {
      var n := frontier[i];
      var placed := done + Names(frontier[..i]);
      assert n !in placed;
      assert frontier[..i + 1] == frontier[..i] + [n];
      assert Rest(Rest(r, placed), {n}) == Rest(r, done + Names(frontier[..i + 1]));
      indeg', next := Release(nodes, n, if n in succ then succ[n] else [], indeg', next, before, Rest(r, placed));
    }
    assert frontier[..|frontier|] == frontier;
  }

  /** `done` is placed, `frontier` is exactly what is ready, and the counts are those of the
      pairs still to come. */
  ghost predicate Progress(nodes: seq<string>, r: set<Pair>, levels: seq<seq<string>>, frontier: seq<string>, indeg: Degrees) {
    && (forall k :: 0 <= k < |levels| ==> levels[k] != [] && IsLevel(nodes, r, Union(levels[..k]), levels[k]))
    && IsLevel(nodes, r, Union(levels), frontier) && Union(levels) <= Names(nodes)
    && (forall n :: n in Union(levels) ==> Preds(r, n) <= Union(levels))
    && Counts(nodes, Rest(r, Union(levels)), indeg)
  }

  lemma SortedIsDistinct(s: seq<string>)
    requires Sorted(s)
    ensures FkCycles.Distinct(s)
  {
    forall i, j | 0 <= i < j < |s| ensures s[i] != s[j] {
      assert Less(s[i], s[j]);
      LessIsStrictOrder(s[i], s[j], "");
    }
  }

  lemma NextIsReady(nodes: seq<string>, r: set<Pair>, done: set<string>, frontier: seq<string>, next: seq<string>, m: string)
    requires IsLevel(nodes, r, done, frontier) && (m in done ==> Preds(r, m) <= done)
    requires Freed(nodes, Rest(r, done), Rest(r, done + Names(frontier)), next)
    ensures m in next <==> Ready(nodes, r, done + Names(frontier), m)
  {
    hide Preds, Rest;
    NothingRests(r, done, m);
    NothingRests(r, done + Names(frontier), m);
    assert m in frontier <==> Ready(nodes, r, done, m);
  }

  lemma LevelPlaced(nodes: seq<string>, r: set<Pair>, levels: seq<seq<string>>, frontier: seq<string>, indeg: Degrees,
                    indeg': Degrees, next: seq<string>, sorted: seq<string>)
    requires Progress(nodes, r, levels, frontier, indeg) && frontier != []
    requires Counts(nodes, Rest(r, Union(levels) + Names(frontier)), indeg')
    requires Freed(nodes, Rest(r, Union(levels)), Rest(r, Union(levels) + Names(frontier)), next)
    requires Sorted(sorted) && forall n :: n in sorted <==> n in next
    ensures Progress(nodes, r, levels + [frontier], sorted, indeg')
  {
    hide Freed, Counts, Rest, Preds, Sorted;
    var done, all := Union(levels), levels + [frontier];
    assert all[..|levels|] == levels;
    assert Union(all) == done + Names(frontier);
    forall m ensures m in sorted <==> Ready(nodes, r, Union(all), m) {
      NextIsReady(nodes, r, done, frontier, next, m);
    }
    forall n | n in Union(all) ensures n in nodes && Preds(r, n) <= Union(all) {
      if n in frontier { assert Ready(nodes, r, done, n); }
    }
    forall k | 0 <= k < |all| ensures all[k] != [] && IsLevel(nodes, r, Union(all[..k]), all[k]) {
      if k < |levels| { assert all[..k] == levels[..k]; }
    }
  }

  /** The levels are exactly those of the layering: each sorted, each the nodes whose last
      predecessor was placed on the level before. */
  method LevelSets(nodes: seq<string>, fk: seq<FkEdge>, inh: seq<InheritEdge>, cycles: seq<seq<string>>)
    returns (levels: seq<seq<string>>)
    requires FkCycles.Distinct(nodes)
    ensures IsLayering(nodes, Precedence(nodes, fk, inh, cycles), levels)
  {
    hide Counts, IsSuccessors, Freed, FkCycles.Distinct, Names, Union, Preds, InheritPairs, FkPairs;
    var edges := AllPairs(fk, inh, cycles);
    var indeg, succ := IndexPairs(nodes, edges);
    ghost var r := Precedence(nodes, fk, inh, cycles);
    var frontier := Roots(nodes, indeg, r);
    levels := [];
    while frontier != []
      invariant Progress(nodes, r, levels, frontier, indeg)
      decreases |Names(nodes) - Union(levels)|
    {
      SortedIsDistinct(frontier);
      var indeg', next := ReleaseAll(nodes, succ, frontier, indeg, r, Union(levels));
      FreedIsDistinct(nodes, Rest(r, Union(levels)), Rest(r, Union(levels) + Names(frontier)), next);
      var sorted := Sort(next);
      LevelPlaced(nodes, r, levels, frontier, indeg, indeg', next, sorted);
      Shrinks(nodes, r, levels, frontier, indeg);
      levels, frontier, indeg := levels + [frontier], sorted, indeg';
    }
  }

  lemma FreedIsDistinct(nodes: seq<string>, before: set<Pair>, rest: set<Pair>, next: seq<string>)
    requires Freed(nodes, before, rest, next)
    ensures FkCycles.Distinct(next)
  {
  }

  lemma Shrinks(nodes: seq<string>, r: set<Pair>, levels: seq<seq<string>>, frontier: seq<string>, indeg: Degrees)
    requires Progress(nodes, r, levels, frontier, indeg) && frontier != []
    ensures |Names(nodes) - Union(levels + [frontier])| < |Names(nodes) - Union(levels)|
  {
    var n := frontier[0];
    assert n in frontier && Ready(nodes, r, Union(levels), n);
    assert (levels + [frontier])[..|levels|] == levels;
    SmallerSet(Names(nodes) - Union(levels + [frontier]), Names(nodes) - Union(levels), n);
  }

  lemma SmallerSet(a: set<string>, b: set<string>, n: string)
    requires a <= b && n in b && n !in a
    ensures |a| < |b|
  {
    Subset(a, b - {n});
  }

  lemma Subset(a: set<string>, b: set<string>)
    requires a <= b
    ensures |a| <= |b|
  {
    if x :| x in a { Subset(a - {x}, b - {x}); }
  }

  method Roots(nodes: seq<string>, indeg: Degrees, ghost r: set<Pair>) returns (frontier: seq<string>)
    requires FkCycles.Distinct(nodes) && Counts(nodes, r, indeg)
    ensures Progress(nodes, r, [], frontier, indeg)
  {
    hide Preds;
    frontier := [];
    for i := 0 to |nodes|
      invariant FkCycles.Distinct(frontier) && forall n :: n in frontier <==> n in nodes[..i] && Preds(r, n) == {}
    {
      assert nodes[..i + 1] == nodes[..i] + [nodes[i]];
      if indeg[nodes[i]] == 0 {
        frontier := frontier + [nodes[i]];
      }
    }
    assert nodes[..|nodes|] == nodes;
    frontier := Sort(frontier);
    assert Rest(r, {}) == r;
  }

  // ----- with the cycles the search reports -----

  /** The preview `build_graph` records. Without inheritance the foreign keys alone never
      leave a class unplaced: every class is on exactly one level. */
  method Preview(nodes: seq<string>, fk: seq<FkEdge>, inh: seq<InheritEdge>)
    returns (cycles: seq<seq<string>>, levels: seq<seq<string>>)
    requires FkCycles.Distinct(nodes)
    ensures cycles == FkCycles.CyclesOf(fk) && IsLayering(nodes, Precedence(nodes, fk, inh, cycles), levels)
    ensures inh == [] ==> forall n :: n in nodes ==> n in Union(levels)
  {
    hide FkCycles.CyclesOf;
    cycles := FkCycles.FindCycles(fk);
    levels := LevelSets(nodes, fk, inh, cycles);
    ghost var r := Precedence(nodes, fk, inh, cycles);
    if inh == [] {
      FkChainsEnd(nodes, fk, cycles);
      AllPlacedIffAcyclic(nodes, r, levels);
    }
  }

  lemma FkChainsEnd(nodes: seq<string>, fk: seq<FkEdge>, cycles: seq<seq<string>>)
    requires FkCycles.Acyclic(FkCycles.Retained(fk, cycles))
    ensures !(exists w :: Chain(Precedence(nodes, fk, [], cycles), w) && Repeats(w))
  {
    var r, kept := Precedence(nodes, fk, [], cycles), FkCycles.Retained(fk, cycles);
    forall w | Chain(r, w) ensures !Repeats(w) {
      forall i, j | 0 <= i < j < |w| ensures w[i] != w[j] {
        if w[i] == w[j] {
          var back := Reverse(w[i..j + 1]);
          forall k | 0 <= k < |back| - 1 ensures FkCycles.Refers(kept, back[k], back[k + 1]) {
            var e :| e in fk && e.parent == back[k + 1] && e.child == back[k]
                  && !(FkCycles.OnReported(cycles, e.parent) && FkCycles.OnReported(cycles, e.child));
            FkCycles.RetainedAre(fk, cycles, e);
          }
          assert FkCycles.ClosedWalk(kept, back);
        }
      }
    }
  }

  function Reverse(s: seq<string>): (t: seq<string>)
    ensures |t| == |s| && forall k :: 0 <= k < |s| ==> t[k] == s[|s| - 1 - k]
  {
    if s == [] then [] else Reverse(s[1..]) + [s[0]]
  }

  /** A cycle that mixes inheritance and foreign keys stays: a class referring to its own
      subclass leaves both unplaced, wherever they occur. */
  lemma MixedCycleIsUnplaced(nodes: seq<string>, fk: seq<FkEdge>, inh: seq<InheritEdge>, cycles: seq<seq<string>>,
                             levels: seq<seq<string>>, e: FkEdge)
    requires IsLayering(nodes, Precedence(nodes, fk, inh, cycles), levels)
    requires e in fk && InheritEdge(e.parent, e.child) in inh && e.child in nodes && e.parent in nodes
    requires !FkCycles.OnReported(cycles, e.child)
    ensures e.child !in Union(levels) && e.parent !in Union(levels)
  {
    hide IsLayering, Union;
    var r := Precedence(nodes, fk, inh, cycles);
    assert Pair(e.child, e.parent) in InheritPairs(inh) && Pair(e.parent, e.child) in FkPairs(fk, cycles);
    var v, w := [e.child, e.parent, e.child], [e.parent, e.child, e.parent];
    assert v[0] == v[2] && w[0] == w[2];
    assert EndsAt(r, v, e.child) && EndsAt(r, w, e.parent);
    PlacedIffNoCycleReaches(nodes, r, levels, e.child);
    PlacedIffNoCycleReaches(nodes, r, levels, e.parent);
  }
}
