/** The constraint lifecycle end to end: strip, rebuild and FK define against the final
    catalog check. */
module Restore {
  import opened Schema
  import opened Inheritance
  import opened Engine
  import Strip
  import Rebuild
  import RebuildLaws
  import FkDefine
  import FkLaws
  import DdlText

  // ----- the final check -----

  /** The constraints a run recorded as not restored. */
  function Excused(rb: Rebuild.Summary, fs: FkDefine.Summary): set<Key> {
    (set p | p in rb.pending :: p.what.key) + (set w | w in fs.withheld :: w.edge.Id())
  }

  predicate Restored(g: Graph, after: set<Key>, excused: set<Key>) {
    forall x :: x in Strip.Entries(g) ==> x.key in after || x.key in excused
  }

  function NodeNames(n: Node): seq<string> {
    n.constraints.unique + n.constraints.fk + if n.constraints.pk == "" then [] else [n.constraints.pk]
  }

  lemma NamesAreEntries(g: Graph, n: Node, name: string)
    requires n in g.nodes && name in NodeNames(n)
    ensures exists x :: x in Strip.Entries(g) && x.key == Key(n.name, name)
  {
    var kind := if name in n.constraints.unique then Unique else if name in n.constraints.fk then ForeignKey else PrimaryKey;
    Strip.InEntries(g, Stripped(kind, Key(n.name, name)));
  }

  lemma EntriesAreNames(g: Graph, x: Stripped) returns (n: Node)
    requires x in Strip.Entries(g)
    ensures n in g.nodes && n.name == x.key.cls && x.key.name in NodeNames(n)
  {
    hide Strip.Entries;
    Strip.InEntries(g, x);
    n :| n in g.nodes && n.name == x.key.cls && x.key.name in Strip.NamesOfKind(n, x.kind);
  }

  /** `check_catalog_restored`: collects the listed constraints that are neither in the
      catalog nor excused. */
  method CheckCatalogRestored(g: Graph, after: set<Key>, rb: Rebuild.Summary, fs: FkDefine.Summary)
    returns (restored: bool, absent: set<Key>)
    ensures restored == Restored(g, after, Excused(rb, fs))
    ensures absent == Strip.Snapshot(g) - after - Excused(rb, fs)
  {
    hide FkDefine.EdgeRef.Id, NodeNames, Strip.Entries;
    var excused: set<Key> := {};
    for i := 0 to |rb.pending|
      invariant excused == set p | p in rb.pending[..i] :: p.what.key
    {
      assert rb.pending[..i + 1] == rb.pending[..i] + [rb.pending[i]];
      excused := excused + {rb.pending[i].what.key};
    }
    assert rb.pending[..|rb.pending|] == rb.pending;
    ghost var pending := excused;
    for i := 0 to |fs.withheld|
      invariant excused == pending + set w | w in fs.withheld[..i] :: w.edge.Id()
    {
      assert fs.withheld[..i + 1] == fs.withheld[..i] + [fs.withheld[i]];
      excused := excused + {fs.withheld[i].edge.Id()};
    }
    assert fs.withheld[..|fs.withheld|] == fs.withheld;
    absent := {};
    for i := 0 to |g.nodes|
      invariant forall k: Key :: k in absent <==>
        k !in after && k !in excused && exists n :: n in g.nodes[..i] && n.name == k.cls && k.name in NodeNames(n)
    {
      absent := AbsentOf(g.nodes[i], after, excused, absent);
      assert g.nodes[..i + 1] == g.nodes[..i] + [g.nodes[i]];
    }
    assert g.nodes[..|g.nodes|] == g.nodes;
    forall k ensures k in absent <==> k in Strip.Snapshot(g) - after - Excused(rb, fs) {
      if k in absent {
        var n :| n in g.nodes && n.name == k.cls && k.name in NodeNames(n);
        NamesAreEntries(g, n, k.name);
      }
      if k in Strip.Snapshot(g) {
        var x :| x in Strip.Entries(g) && x.key == k;
        var n := EntriesAreNames(g, x);
      }
    }
    restored := absent == {};
    assert restored ==> forall x :: x in Strip.Entries(g) ==> x.key !in absent;
    if !restored {
      var k :| k in absent;
      var x :| x in Strip.Entries(g) && x.key == k;
    }
  }

  method AbsentOf(n: Node, after: set<Key>, excused: set<Key>, before: set<Key>) returns (absent: set<Key>)
    ensures forall k: Key :: k in absent <==>
      k in before || (k !in after && k !in excused && k.cls == n.name && k.name in NodeNames(n))
  {
    absent := before;
    var names := NodeNames(n);
    for j := 0 to |names|
      invariant forall k: Key :: k in absent <==>
        k in before || (k !in after && k !in excused && k.cls == n.name && k.name in names[..j])
    {
      var k := Key(n.name, names[j]);
      if k !in after && k !in excused {
        absent := absent + {k};
      }
      assert names[..j + 1] == names[..j] + [names[j]];
    }
    assert names[..|names|] == names;
  }

  // ----- strip, rebuild, define -----

  /** The rebuild over the stripped catalog. */
  ghost function Rebuilt(eng: Engine, g: Graph, cat: set<Key>, ops: seq<Rebuild.Op>): Rebuild.State {
    Rebuild.Phase(eng, g, Strip.DropOrder(g), None, cat - Strip.Snapshot(g), ops)
  }

  /** FK define over the rebuilt catalog. */
  ghost function Defined(eng: Engine, g: Graph, cat: set<Key>, ops: seq<Rebuild.Op>, texts: seq<string>, keepGoing: bool): FkDefine.State {
    var rb := Rebuilt(eng, g, cat, ops);
    FkDefine.Phase(eng, g, rb.sum, keepGoing, None, rb.cat, texts)
  }

  /** A snapshot taken from the catalog `cat` of this server. */
  ghost predicate Taken(eng: Engine, g: Graph, rank: string -> nat, cat: set<Key>) {
    && Strip.SnapshotOk(g, rank) && Strip.CatalogMatches(g, cat)
    && Inherits(eng, g.inheritEdges) && eng.refs == g.fkEdges && FkLaws.DistinctEdges(g.fkEdges)
  }

  lemma DefinedGrows(eng: Engine, g: Graph, cat: set<Key>, ops: seq<Rebuild.Op>, texts: seq<string>, keepGoing: bool)
    ensures Rebuilt(eng, g, cat, ops).cat <= Defined(eng, g, cat, ops, texts, keepGoing).cat
  {
    hide Rebuilt, FkDefine.ContextOf, FkDefine.Run, FkDefine.Reconcile;
    var rb := Rebuilt(eng, g, cat, ops);
    var c := FkDefine.ContextOf(eng, g, rb.sum, keepGoing, None);
    FkLaws.RunGrows(c, FkDefine.Start(rb.cat), texts);
    FkDefine.ReconcileKeeps(g.fkEdges, FkDefine.Run(c, FkDefine.Start(rb.cat), texts));
  }

  /** Nothing is silently lost: whatever the server and the dump did, an owned constraint
      missing at the end is recorded, provided an owned foreign key has its graph edge. */
  lemma MissingIsRecorded(eng: Engine, g: Graph, rank: string -> nat, cat: set<Key>, ops: seq<Rebuild.Op>,
                          texts: seq<string>, keepGoing: bool, o: Stripped)
    requires Taken(eng, g, rank, cat) && !Defined(eng, g, cat, ops, texts, keepGoing).hard
    requires o in Strip.DropOrder(g) && (o.kind.ForeignKey? ==> exists e :: e in g.fkEdges && e.Id() == o.key)
    ensures var fk := Defined(eng, g, cat, ops, texts, keepGoing);
      o.key in fk.cat || o.key in Excused(Rebuilt(eng, g, cat, ops).sum, fk.sum)
  {
    hide Defined, Rebuild.Phase, Strip.SnapshotOk, Strip.NodeEntries;
    var rb, fk := Rebuilt(eng, g, cat, ops), Defined(eng, g, cat, ops, texts, keepGoing);
    if !o.kind.ForeignKey? {
      RebuildLaws.MissingKeyWithholdsChildren(eng, g, Strip.DropOrder(g), None, cat - Strip.Snapshot(g), ops, o,
                                              FkEdge("", "", "", [], [], []));
      DefinedGrows(eng, g, cat, ops, texts, keepGoing);
    } else {
      var e :| e in g.fkEdges && e.Id() == o.key;
      EdgeIsRecorded(eng, g, cat, ops, texts, keepGoing, e);
    }
  }

  lemma EdgeIsRecorded(eng: Engine, g: Graph, cat: set<Key>, ops: seq<Rebuild.Op>, texts: seq<string>, keepGoing: bool, e: FkEdge)
    requires RebuildLaws.Reflexive(eng) && FkLaws.DistinctEdges(g.fkEdges) && e in g.fkEdges
    requires !Defined(eng, g, cat, ops, texts, keepGoing).hard
    ensures var fk := Defined(eng, g, cat, ops, texts, keepGoing);
      e.Id() in fk.cat || exists w :: w in fk.sum.withheld && w.edge.Id() == e.Id()
  {
    hide RebuildLaws.Reflexive, Rebuilt, FkDefine.Run, FkDefine.Start, FkDefine.Reconcile;
    var rb, fk := Rebuilt(eng, g, cat, ops), Defined(eng, g, cat, ops, texts, keepGoing);
    var c := FkDefine.ContextOf(eng, g, rb.sum, keepGoing, None);
    forall k ensures k in c.edges ==> c.edges[k].Id() == k { FkLaws.EdgeMapIs(g.fkEdges, k); }
    FkLaws.EveryEdgeOnce(eng, g, rb.sum, keepGoing, None, rb.cat, texts);
    FkLaws.RunHoldsDefined(c, rb.cat, texts);
    FkDefine.ReconcileKeeps(g.fkEdges, FkDefine.Run(c, FkDefine.Start(rb.cat), texts));
    var i :| 0 <= i < |g.fkEdges| && g.fkEdges[i] == e;
    assert FkLaws.EdgeIds(g.fkEdges)[i] == e.Id();
    assert e.Id() in FkLaws.Recorded(fk.sum);
    if e.Id() in FkLaws.DefinedIds(fk.sum.defined) {
      var j :| 0 <= j < |fk.sum.defined| && FkLaws.DefinedIds(fk.sum.defined)[j] == e.Id();
      assert fk.sum.defined[j].Id() in fk.cat;
    } else {
      var j :| 0 <= j < |fk.sum.withheld| && FkLaws.WithheldIds(fk.sum.withheld)[j] == e.Id();
    }
  }

  // ----- exactly what the final check sees -----

  lemma PendingAreOwned(eng: Engine, g: Graph, cat: set<Key>, ops: seq<Rebuild.Op>, p: Rebuild.Pending)
    requires p in Rebuilt(eng, g, cat, ops).sum.pending
    ensures p.what in Strip.DropOrder(g) && !p.what.kind.ForeignKey?
  {
    hide Rebuild.Run, Strip.DropOrder, Rebuild.Phase, RebuildLaws.Matched, Strip.Entries, Rebuild.Start;
    var stripped, base := Strip.DropOrder(g), cat - Strip.Snapshot(g);
    var c := Rebuild.ContextOf(eng, g, stripped, None);
    var st := Rebuild.Run(c, Rebuild.Start(base), ops);
    var sum := Rebuilt(eng, g, cat, ops).sum;
    var i :| 0 <= i < |sum.pending| && sum.pending[i] == p;
    assert RebuildLaws.Whats(sum.pending)[i] == p.what;
    assert p.what in RebuildLaws.Recorded(sum);
    RebuildLaws.RebuildAccount(eng, g, stripped, None, base, ops);
    RebuildLaws.KeyMapIs(stripped);
    if p.what in RebuildLaws.Matched(c, ops) {
      RebuildLaws.MatchedAre(c, ops, p.what);
    } else {
      RebuildLaws.UnmatchedCount(c, Rebuild.KeyOrder(stripped), Rebuild.Accounted(st.sum), p.what);
    }
  }

  lemma WithheldAreEdges(eng: Engine, g: Graph, cat: set<Key>, ops: seq<Rebuild.Op>, texts: seq<string>, keepGoing: bool,
                         w: FkDefine.Withheld)
    requires FkLaws.DistinctEdges(g.fkEdges) && !Defined(eng, g, cat, ops, texts, keepGoing).hard
    requires w in Defined(eng, g, cat, ops, texts, keepGoing).sum.withheld
    ensures exists e :: e in g.fkEdges && e.Id() == w.edge.Id()
  {
    hide Rebuilt, FkDefine.EdgeRef.Id, FkDefine.Phase, FkLaws.DefinedIds, Schema.FkEdge.Id;
    var rb, fk := Rebuilt(eng, g, cat, ops), Defined(eng, g, cat, ops, texts, keepGoing);
    FkLaws.EveryEdgeOnce(eng, g, rb.sum, keepGoing, None, rb.cat, texts);
    var i :| 0 <= i < |fk.sum.withheld| && fk.sum.withheld[i] == w;
    assert FkLaws.WithheldIds(fk.sum.withheld)[i] == w.edge.Id();
    assert w.edge.Id() in FkLaws.Recorded(fk.sum);
    var j :| 0 <= j < |g.fkEdges| && FkLaws.EdgeIds(g.fkEdges)[j] == w.edge.Id();
    assert g.fkEdges[j].Id() == w.edge.Id();
  }

  ghost predicate IsEdge(g: Graph, k: Key) { exists e :: e in g.fkEdges && e.Id() == k }

  /** The final check answers true exactly when no inherited copy is missing but for those the
      graph lists as edges: what is owned, and what is an edge, is excused by its record, any
      other copy on a subclass never is. So a pending key of a superclass makes the check fail on
      the subclass's copy. */
  lemma CheckSeesInheritedCopies(eng: Engine, g: Graph, rank: string -> nat, cat: set<Key>, ops: seq<Rebuild.Op>,
                                 texts: seq<string>, keepGoing: bool)
    requires Taken(eng, g, rank, cat) && !Defined(eng, g, cat, ops, texts, keepGoing).hard
    requires forall o :: o in Strip.DropOrder(g) && o.kind.ForeignKey? ==> IsEdge(g, o.key)
    ensures var fk := Defined(eng, g, cat, ops, texts, keepGoing);
      Restored(g, fk.cat, Excused(Rebuilt(eng, g, cat, ops).sum, fk.sum)) <==>
      forall x :: x in Strip.Entries(g) && !Strip.OwnedEntry(g, x) && !IsEdge(g, x.key) ==> x.key in fk.cat
  {
    hide Defined, Rebuilt, Strip.Entries, Strip.OwnedEntry, Schema.FkEdge.Id, ByName;
    var rb, fk := Rebuilt(eng, g, cat, ops), Defined(eng, g, cat, ops, texts, keepGoing);
    forall x | x in Strip.Entries(g)
      ensures Strip.OwnedEntry(g, x) || IsEdge(g, x.key) ==> x.key in fk.cat || x.key in Excused(rb.sum, fk.sum)
      ensures !Strip.OwnedEntry(g, x) && !IsEdge(g, x.key) ==> x.key !in Excused(rb.sum, fk.sum)
    {
      if IsEdge(g, x.key) {
        var e :| e in g.fkEdges && e.Id() == x.key;
        EdgeIsRecorded(eng, g, cat, ops, texts, keepGoing, e);
      } else if Strip.OwnedEntry(g, x) {
        Strip.InOwnedOf(g, Strip.Entries(g), x);
        MissingIsRecorded(eng, g, rank, cat, ops, texts, keepGoing, x);
      } else {
        forall p | p in rb.sum.pending ensures p.what.key != x.key {
          PendingAreOwned(eng, g, cat, ops, p);
          Strip.InOwnedOf(g, Strip.Entries(g), p.what);
        }
        forall w | w in fk.sum.withheld ensures w.edge.Id() != x.key {
          WithheldAreEdges(eng, g, cat, ops, texts, keepGoing, w);
        }
      }
    }
  }

  // ----- full restoration -----

  /** The constraints an operation names itself. */
  predicate Adds(op: Rebuild.Op, k: Key) {
    match op
    case KeyOp(text) => k.cls == DdlText.ClassOf(text) && k.name in DdlText.NamesOf(text)
    case IndexOp(text) => k == Rebuild.IndexKey(text)
  }

  predicate Runs(c: Rebuild.Context, op: Rebuild.Op) { RebuildLaws.Claims(c, op) != [] }

  /** No name an executed operation adds is there before, or added by another one. */
  ghost predicate FreshKeys(c: Rebuild.Context, base: set<Key>, ops: seq<Rebuild.Op>) {
    forall i, k :: 0 <= i < |ops| && Runs(c, ops[i]) && Adds(ops[i], k) ==>
      k !in base && forall j :: 0 <= j < |ops| && j != i && Runs(c, ops[j]) ==> k !in RebuildLaws.Effect(c, ops[j])
  }

  lemma FreshIsAccepted(c: Rebuild.Context, base: set<Key>, ops: seq<Rebuild.Op>, i: nat)
    requires FreshKeys(c, base, ops) && i < |ops| && Runs(c, ops[i]) && c.eng.verdict(ops[i].text).Accept?
    ensures !RebuildLaws.Rejected(c, Rebuild.Run(c, Rebuild.Start(base), ops[..i]).cat, ops[i])
  {
    hide Rebuild.Run, RebuildLaws.Claims, DdlText.ClassOf, DdlText.NamesOf, DdlText.IndexClass, DdlText.IndexName,
         Rebuild.Start, RebuildLaws.Effect;
    var now := Rebuild.Run(c, Rebuild.Start(base), ops[..i]).cat;
    forall k | Adds(ops[i], k) ensures k !in now {
      if k in now {
        var j := RebuildLaws.CatalogComesFrom(c, base, ops, i, k);
      }
    }
  }

  /** Nothing failed so far, and every executed operation's family is in place. */
  ghost predicate Clean(c: Rebuild.Context, st: Rebuild.State, ops: seq<Rebuild.Op>, n: int) {
    && st.sum.pending == [] && st.sum.failedIndexes == [] && st.sum.withheld == [] && st.already == {}
    && (forall i :: 0 <= i < |ops| && i < n && Runs(c, ops[i]) ==> RebuildLaws.Effect(c, ops[i]) <= st.cat)
  }

  lemma CleanKeyStep(c: Rebuild.Context, st: Rebuild.State, text: string)
    requires st.sum.pending == [] && st.sum.failedIndexes == [] && st.sum.withheld == [] && st.already == {} && c.present.None?
    requires Runs(c, Rebuild.KeyOp(text)) ==> !RebuildLaws.Rejected(c, st.cat, Rebuild.KeyOp(text))
    ensures var st' := Rebuild.KeyStep(c, st, text);
      && st'.sum.pending == [] && st'.sum.failedIndexes == [] && st'.sum.withheld == [] && st'.already == {} && st.cat <= st'.cat
      && (Runs(c, Rebuild.KeyOp(text)) ==> RebuildLaws.Effect(c, Rebuild.KeyOp(text)) <= st'.cat)
  {
    hide Rebuild.TargetsOf, Rebuild.FailAll, Families, DdlText.ClassOf, DdlText.NamesOf, Judge, DdlText.ToUpper;
    assert |RebuildLaws.Claims(c, Rebuild.KeyOp(text))| == |Rebuild.TargetsOf(c, text)|;
  }

  lemma CleanIndexStep(c: Rebuild.Context, st: Rebuild.State, text: string)
    requires st.sum.pending == [] && st.sum.failedIndexes == [] && st.sum.withheld == [] && st.already == {} && c.present.None?
    requires Runs(c, Rebuild.IndexOp(text)) ==> !RebuildLaws.Rejected(c, st.cat, Rebuild.IndexOp(text))
    ensures var st' := Rebuild.IndexStep(c, st, text);
      && st'.sum.pending == [] && st'.sum.failedIndexes == [] && st'.sum.withheld == [] && st'.already == {} && st.cat <= st'.cat
      && (Runs(c, Rebuild.IndexOp(text)) ==> RebuildLaws.Effect(c, Rebuild.IndexOp(text)) <= st'.cat)
  {
    hide Rebuild.IsCreate, DdlText.IndexClass, Judge, DdlText.IndexName, Families;
  }

  lemma CleanStep(c: Rebuild.Context, st: Rebuild.State, ops: seq<Rebuild.Op>, n: nat)
    requires n < |ops| && Clean(c, st, ops, n) && c.present.None?
    requires Runs(c, ops[n]) ==> !RebuildLaws.Rejected(c, st.cat, ops[n])
    ensures Clean(c, Rebuild.Step(c, st, ops[n]), ops, n + 1)
  {
    hide Runs, RebuildLaws.Rejected, RebuildLaws.Effect, Rebuild.KeyStep, Rebuild.IndexStep;
    match ops[n]
    case KeyOp(text) => CleanKeyStep(c, st, text);
    case IndexOp(text) => CleanIndexStep(c, st, text);
  }

  lemma {:induction false} CleanRun(c: Rebuild.Context, base: set<Key>, ops: seq<Rebuild.Op>, n: nat)
    requires FreshKeys(c, base, ops) && n <= |ops| && c.present.None?
    requires forall op :: op in ops && Runs(c, op) ==> c.eng.verdict(op.text).Accept?
    ensures Clean(c, Rebuild.Run(c, Rebuild.Start(base), ops[..n]), ops, n)
  {
    hide FreshKeys, Runs, Rebuild.Step, RebuildLaws.Rejected, RebuildLaws.Effect;
    if n > 0 {
      CleanRun(c, base, ops, n - 1);
      RebuildLaws.RunStep(c, Rebuild.Start(base), ops, n - 1);
      if Runs(c, ops[n - 1]) { FreshIsAccepted(c, base, ops, n - 1); }
      CleanStep(c, Rebuild.Run(c, Rebuild.Start(base), ops[..n - 1]), ops, n - 1);
    }
  }

  lemma {:induction false} NothingToReconcile(c: Rebuild.Context, order: seq<Key>, accounted: set<Key>, st: Rebuild.State)
    requires forall k :: k in c.keys ==> k in accounted
    ensures Rebuild.Reconcile(c, order, accounted, st) == st
  {
    hide Rebuild.Fail;
    if order != [] { NothingToReconcile(c, order[..|order| - 1], accounted, st); }
  }

  lemma MatchedBy(c: Rebuild.Context, ops: seq<Rebuild.Op>, op: Rebuild.Op, x: Stripped)
    requires op in ops && op.KeyOp? && x in Rebuild.TargetsOf(c, op.text)
    ensures x in RebuildLaws.Matched(c, ops)
  {
    if op != ops[|ops| - 1] {
      assert op in ops[..|ops| - 1];
      MatchedBy(c, ops[..|ops| - 1], op, x);
    }
  }

  /** Some statement of the dump re-adds `x`. */
  ghost predicate Readded(c: Rebuild.Context, ops: seq<Rebuild.Op>, x: Stripped) {
    exists op :: op in ops && op.KeyOp? && x in Rebuild.TargetsOf(c, op.text)
  }

  lemma ReaddedIsAccounted(c: Rebuild.Context, base: set<Key>, ops: seq<Rebuild.Op>, k: Key)
    requires k in c.keys && c.keys[k].key == k && c.present.None? && Readded(c, ops, c.keys[k])
    ensures k in Rebuild.Accounted(Rebuild.Run(c, Rebuild.Start(base), ops).sum)
  {
    hide Rebuild.Step, Rebuild.TargetsOf, Rebuild.Accounted, RebuildLaws.Matched, RebuildLaws.Recorded;
    var st := Rebuild.Run(c, Rebuild.Start(base), ops);
    var x := c.keys[k];
    var op :| op in ops && op.KeyOp? && x in Rebuild.TargetsOf(c, op.text);
    MatchedBy(c, ops, op, x);
    RebuildLaws.RunRecords(c, base, ops);
    assert x in RebuildLaws.Recorded(st.sum);
    RebuildLaws.AccountedIsRecorded(st.sum, k);
  }

  /** With every key re-added once and every ADD accepted, the rebuild record is clean and
      every re-added family is in place. */
  lemma CleanRebuild(eng: Engine, g: Graph, cat: set<Key>, ops: seq<Rebuild.Op>)
    requires var c := Rebuild.ContextOf(eng, g, Strip.DropOrder(g), None);
      && FreshKeys(c, cat - Strip.Snapshot(g), ops)
      && (forall op :: op in ops && Runs(c, op) ==> eng.verdict(op.text).Accept?)
      && (forall x :: x in Strip.DropOrder(g) && !x.kind.ForeignKey? ==> Readded(c, ops, x))
    ensures var c := Rebuild.ContextOf(eng, g, Strip.DropOrder(g), None);
      && Clean(c, Rebuilt(eng, g, cat, ops), ops, |ops|)
      && Rebuilt(eng, g, cat, ops) == Rebuild.Run(c, Rebuild.Start(cat - Strip.Snapshot(g)), ops)
  {
    hide FreshKeys, Readded, Clean, Rebuild.Step, Rebuild.Run, Rebuild.TargetsOf, Rebuild.Accounted, Strip.DropOrder,
         Strip.Snapshot, Runs, Rebuild.Start, Rebuild.KeyMap, Rebuild.Reconcile, Rebuild.KeyOrder;
    var stripped, base := Strip.DropOrder(g), cat - Strip.Snapshot(g);
    var c := Rebuild.ContextOf(eng, g, stripped, None);
    CleanRun(c, base, ops, |ops|);
    assert ops[..|ops|] == ops;
    var st := Rebuild.Run(c, Rebuild.Start(base), ops);
    RebuildLaws.KeyMapIs(stripped);
    forall k | k in c.keys ensures k in Rebuild.Accounted(st.sum) {
      ReaddedIsAccounted(c, base, ops, k);
    }
    NothingToReconcile(c, Rebuild.KeyOrder(stripped), Rebuild.Accounted(st.sum), st);
  }

  // ----- the foreign keys -----

  predicate IsFkText(c: FkDefine.Context, text: string) { FkDefine.EdgeOf(c, text).Some? }

  predicate IsFkOf(c: FkDefine.Context, text: string, id: Key) {
    FkDefine.EdgeOf(c, text).Some? && FkDefine.EdgeOf(c, text).value.Id() == id
  }

  predicate AddsFk(text: string, k: Key) { k.cls == DdlText.ClassOf(text) && k.name in DdlText.NamesOf(text) }

  function FkEffect(eng: Engine, text: string): set<Key> { Families(eng, DdlText.ClassOf(text), DdlText.NamesOf(text)) }

  ghost predicate FreshFks(c: FkDefine.Context, base: set<Key>, texts: seq<string>) {
    forall i, k :: 0 <= i < |texts| && IsFkText(c, texts[i]) && AddsFk(texts[i], k) ==>
      k !in base && forall j :: 0 <= j < |texts| && j != i && IsFkText(c, texts[j]) ==> k !in FkEffect(c.eng, texts[j])
  }

  /** The statement is executed at `st`, accepted, and has `x` in its effect. */
  ghost predicate AddsAt(c: FkDefine.Context, st: FkDefine.State, text: string, x: Key) {
    && (exists e :: FkLaws.Executes(c, st, text, e)) && JudgeAdd(c.eng, st.cat, text).Accept?
    && x in FkEffect(c.eng, text)
  }

  lemma FkStepAdds(c: FkDefine.Context, st: FkDefine.State, text: string, x: Key)
    ensures x in FkDefine.Step(c, st, text).cat <==> x in st.cat || AddsAt(c, st, text, x)
  {
    hide FkDefine.FirstEdge, FkDefine.Validated, FkDefine.EdgeOf, DdlText.NamesOf, DdlText.ClassEnd, Judge;
    var found := FkDefine.EdgeOf(c, text);
    if found.Some? && x in FkDefine.Step(c, st, text).cat && x !in st.cat {
      assert FkLaws.Executes(c, st, text, found.value);
    }
  }

  lemma {:induction false} FkComesFrom(c: FkDefine.Context, base: set<Key>, texts: seq<string>, n: nat, x: Key) returns (i: nat)
    requires n <= |texts| && x in FkDefine.Run(c, FkDefine.Start(base), texts[..n]).cat && x !in base
    ensures i < n && AddsAt(c, FkDefine.Run(c, FkDefine.Start(base), texts[..i]), texts[i], x)
    ensures IsFkText(c, texts[i]) && x in FkEffect(c.eng, texts[i])
  {
    hide FkDefine.Step, FkEffect, JudgeAdd, FkDefine.EdgeOf, Schema.FkEdge.Id;
    i := n - 1;
    FkLaws.RunStep(c, FkDefine.Start(base), texts, i);
    if x in FkDefine.Run(c, FkDefine.Start(base), texts[..i]).cat {
      i := FkComesFrom(c, base, texts, n - 1, x);
    } else {
      FkStepAdds(c, FkDefine.Run(c, FkDefine.Start(base), texts[..i]), texts[i], x);
    }
  }

  /** All foreign keys visited so far are defined and their families in place. */
  ghost predicate CleanFks(c: FkDefine.Context, st: FkDefine.State, texts: seq<string>, n: int) {
    && st.sum.withheld == [] && !st.stop && !st.hard && st.processed <= st.cat
    && (forall i :: 0 <= i < |texts| && i < n && IsFkText(c, texts[i]) ==>
          FkEffect(c.eng, texts[i]) <= st.cat && FkDefine.EdgeOf(c, texts[i]).value.Id() in st.processed)
  }

  lemma NamesStillFree(c: FkDefine.Context, base: set<Key>, texts: seq<string>, n: nat, k: Key)
    requires FreshFks(c, base, texts) && n < |texts| && IsFkText(c, texts[n]) && AddsFk(texts[n], k)
    ensures k !in FkDefine.Run(c, FkDefine.Start(base), texts[..n]).cat
  {
    hide FkDefine.Run, FkDefine.Start, AddsAt, IsFkText, AddsFk;
    if k in FkDefine.Run(c, FkDefine.Start(base), texts[..n]).cat {
      var i := FkComesFrom(c, base, texts, n, k);
    }
  }

  lemma CleanFkStep(c: FkDefine.Context, st: FkDefine.State, texts: seq<string>, n: nat)
    requires RebuildLaws.Reflexive(c.eng) && FkLaws.EdgesMatch(c.edges)
    requires n < |texts| && CleanFks(c, st, texts, n) && c.present.None? && c.byRebuild == map[]
    requires IsFkText(c, texts[n]) ==> c.eng.verdict(texts[n]).Accept? && forall k :: AddsFk(texts[n], k) ==> k !in st.cat
    ensures CleanFks(c, FkDefine.Step(c, st, texts[n]), texts, n + 1)
  {
    hide RebuildLaws.Reflexive, FkLaws.EdgesMatch, DdlText.NamesOf, DdlText.ClassEnd, Families, DdlText.ClassOf,
         FkDefine.Validated;
    if IsFkText(c, texts[n]) {
      var e := FkDefine.EdgeOf(c, texts[n]).value;
      FkLaws.FirstEdgeIs(c.edges, DdlText.ClassOf(texts[n]), DdlText.NamesOf(texts[n]));
      assert AddsFk(texts[n], e.Id());
      forall m | m in DdlText.NamesOf(texts[n]) ensures Key(DdlText.ClassOf(texts[n]), m) !in st.cat {
        assert AddsFk(texts[n], Key(DdlText.ClassOf(texts[n]), m));
      }
      FkLaws.AcceptedIsHeld(c, st.cat, texts[n], e);
    }
  }

  lemma {:induction false} CleanFkRun(c: FkDefine.Context, base: set<Key>, texts: seq<string>, n: nat)
    requires RebuildLaws.Reflexive(c.eng) && FkLaws.EdgesMatch(c.edges) && FreshFks(c, base, texts)
    requires n <= |texts| && c.present.None? && c.byRebuild == map[]
    requires forall t :: t in texts && IsFkText(c, t) ==> c.eng.verdict(t).Accept?
    ensures CleanFks(c, FkDefine.Run(c, FkDefine.Start(base), texts[..n]), texts, n)
  {
    hide IsFkText, FkDefine.Step, DdlText.ClassOf, DdlText.NamesOf;
    if n > 0 {
      var m := n - 1;
      CleanFkRun(c, base, texts, m);
      if IsFkText(c, texts[m]) {
        forall k | AddsFk(texts[m], k) ensures k !in FkDefine.Run(c, FkDefine.Start(base), texts[..m]).cat {
          NamesStillFree(c, base, texts, m, k);
        }
      }
      FkLaws.RunStep(c, FkDefine.Start(base), texts, m);
      CleanFkStep(c, FkDefine.Run(c, FkDefine.Start(base), texts[..m]), texts, m);
    }
  }

  /** What the reconciliation adds: the edges no statement visited. */
  ghost predicate LeftOver(edges: seq<FkEdge>, processed: set<Key>, w: FkDefine.Withheld) {
    w.cause.NoStatement? && exists e :: e in edges && e.Id() !in processed && w.edge == FkDefine.RefOf(e)
  }

  lemma {:induction false} ReconcileLeaves(edges: seq<FkEdge>, st: FkDefine.State, w: FkDefine.Withheld)
    requires w in FkDefine.Reconcile(edges, st).sum.withheld
    ensures w in st.sum.withheld || LeftOver(edges, st.processed, w)
  {
    hide Schema.FkEdge.Id, FkDefine.RefOf;
    if edges != [] {
      var init, e := edges[..|edges| - 1], edges[|edges| - 1];
      assert edges == init + [e];
      if w in FkDefine.Reconcile(init, st).sum.withheld {
        ReconcileLeaves(init, st, w);
        if w !in st.sum.withheld {
          var x :| x in init && x.Id() !in st.processed && w.edge == FkDefine.RefOf(x);
          assert x in edges;
        }
      }
    }
  }

  /** A dump that restores the snapshot: one accepted ADD per owned key and per owned foreign key,
      each name added once, and an edge for every owned foreign key. The copies a subclass
      inherits have no ADD of their own. */
  ghost predicate FaithfulDump(eng: Engine, g: Graph, cat: set<Key>, ops: seq<Rebuild.Op>, texts: seq<string>, keepGoing: bool) {
    var c := Rebuild.ContextOf(eng, g, Strip.DropOrder(g), None);
    var d := FkDefine.ContextOf(eng, g, Rebuild.EMPTY, keepGoing, None);
    && FreshKeys(c, cat - Strip.Snapshot(g), ops)
    && FreshFks(d, Rebuilt(eng, g, cat, ops).cat, texts)
    && (forall op :: op in ops && Runs(c, op) ==> eng.verdict(op.text).Accept?)
    && (forall t :: t in texts && IsFkText(d, t) ==> eng.verdict(t).Accept?)
    && (forall x :: x in Strip.DropOrder(g) && !x.kind.ForeignKey? ==> Readded(c, ops, x))
    && (forall e :: e in g.fkEdges && !Inherited(g, e.child, e.name) ==> exists t :: t in texts && FkDefine.EdgeOf(d, t) == Some(e))
    && (forall o :: o in Strip.DropOrder(g) && o.kind.ForeignKey? ==> IsEdge(g, o.key))
  }

  /** The FK phase over a clean rebuild: every statement's family is in place, and nothing is
      withheld but inherited copies that the graph lists as edges and that no statement names. */
  lemma CleanDefine(eng: Engine, g: Graph, cat: set<Key>, ops: seq<Rebuild.Op>, texts: seq<string>, keepGoing: bool)
    requires RebuildLaws.Reflexive(eng) && FaithfulDump(eng, g, cat, ops, texts, keepGoing)
    requires Rebuilt(eng, g, cat, ops).sum.withheld == []
    ensures var d := FkDefine.ContextOf(eng, g, Rebuild.EMPTY, keepGoing, None);
      var fk := Defined(eng, g, cat, ops, texts, keepGoing);
      && CleanFks(d, fk.(sum := fk.sum.(withheld := [])), texts, |texts|)
      && (forall w :: w in fk.sum.withheld ==> w.cause.NoStatement? && Inherited(g, w.edge.child, w.edge.name))
  {
    hide FreshFks, FreshKeys, Runs, Readded, Inherited, CleanFks, FkDefine.EdgeMap, Rebuilt, FkDefine.Run, FkDefine.EdgeOf,
         RebuildLaws.Reflexive, Strip.Entries;
    var base := Rebuilt(eng, g, cat, ops).cat;
    var d := FkDefine.ContextOf(eng, g, Rebuild.EMPTY, keepGoing, None);
    forall k ensures k in d.edges ==> d.edges[k].Id() == k { FkLaws.EdgeMapIs(g.fkEdges, k); }
    CleanFkRun(d, base, texts, |texts|);
    assert texts[..|texts|] == texts;
    var st := FkDefine.Run(d, FkDefine.Start(base), texts);
    CleanMeans(d, st, texts);
    FkDefine.ReconcileKeeps(g.fkEdges, st);
    var fk := Defined(eng, g, cat, ops, texts, keepGoing);
    assert fk.(sum := fk.sum.(withheld := [])) == st;
    forall e | e in g.fkEdges && !Inherited(g, e.child, e.name) ensures e.Id() in st.processed {
      var t :| t in texts && FkDefine.EdgeOf(d, t) == Some(e);
      var i :| 0 <= i < |texts| && texts[i] == t;
      assert IsFkText(d, texts[i]);
    }
    forall w | w in fk.sum.withheld ensures w.cause.NoStatement? && Inherited(g, w.edge.child, w.edge.name) {
      ReconcileLeaves(g.fkEdges, st, w);
    }
  }

  lemma CleanMeans(c: FkDefine.Context, st: FkDefine.State, texts: seq<string>)
    requires CleanFks(c, st, texts, |texts|)
    ensures st.sum.withheld == [] && !st.stop && !st.hard
    ensures forall i :: 0 <= i < |texts| && IsFkText(c, texts[i]) ==> FkDefine.EdgeOf(c, texts[i]).value.Id() in st.processed
  {
    hide Schema.FkEdge.Id, FkEffect;
  }

  /** An inherited copy that the graph lists as an edge is withheld for want of a statement although
      its family is in place: the dump names only the owner's constraint. */
  lemma InheritedEdgeIsWithheld(eng: Engine, g: Graph, cat: set<Key>, ops: seq<Rebuild.Op>, texts: seq<string>, keepGoing: bool,
                                e: FkEdge)
    requires RebuildLaws.Reflexive(eng) && FaithfulDump(eng, g, cat, ops, texts, keepGoing) && FkLaws.DistinctEdges(g.fkEdges)
    requires Rebuilt(eng, g, cat, ops).sum.withheld == [] && e in g.fkEdges
    requires var d := FkDefine.ContextOf(eng, g, Rebuild.EMPTY, keepGoing, None);
      forall t :: t in texts ==> !IsFkOf(d, t, e.Id())
    ensures var fk := Defined(eng, g, cat, ops, texts, keepGoing);
      e.Id() in Excused(Rebuilt(eng, g, cat, ops).sum, fk.sum)
  {
    hide FaithfulDump, CleanFks, Rebuilt, Inherited, FkDefine.Run, FkDefine.EdgeOf, FkDefine.Reconcile;
    var rb, fk := Rebuilt(eng, g, cat, ops), Defined(eng, g, cat, ops, texts, keepGoing);
    var d := FkDefine.ContextOf(eng, g, Rebuild.EMPTY, keepGoing, None);
    CleanDefine(eng, g, cat, ops, texts, keepGoing);
    CleanMeans(d, fk.(sum := fk.sum.(withheld := [])), texts);
    var st := FkDefine.Run(d, FkDefine.Start(rb.cat), texts);
    assert FkDefine.WithheldReasons(rb.sum.withheld) == FkDefine.WithheldReasons(Rebuild.EMPTY.withheld);
    FkDefine.ReconcileKeeps(g.fkEdges, st);
    if e.Id() in st.processed { var t := ProcessedBy(d, rb.cat, texts, e.Id()); }
    VisitsOrLeaves(g.fkEdges, st, e);
  }

  lemma {:induction false} ProcessedBy(c: FkDefine.Context, base: set<Key>, texts: seq<string>, k: Key) returns (t: string)
    requires k in FkDefine.Run(c, FkDefine.Start(base), texts).processed
    ensures t in texts && IsFkOf(c, t, k)
  {
    hide FkDefine.EdgeOf, FkDefine.Visit;
    var init := texts[..|texts| - 1];
    t := texts[|texts| - 1];
    if k in FkDefine.Run(c, FkDefine.Start(base), init).processed {
      t := ProcessedBy(c, base, init, k);
    } else {
      VisitKeepsProcessed(c, FkDefine.Run(c, FkDefine.Start(base), init), t);
    }
  }

  lemma VisitKeepsProcessed(c: FkDefine.Context, st: FkDefine.State, text: string)
    ensures forall k :: k in FkDefine.Step(c, st, text).processed && k !in st.processed ==>
      IsFkText(c, text) && FkDefine.EdgeOf(c, text).value.Id() == k
  {
    hide FkDefine.EdgeOf, JudgeAdd, AfterAddText, FkDefine.Validated;
  }

  lemma {:induction false} VisitsOrLeaves(edges: seq<FkEdge>, st: FkDefine.State, e: FkEdge)
    requires e in edges && e.Id() !in st.processed
    ensures exists w :: w in FkDefine.Reconcile(edges, st).sum.withheld && w.edge.Id() == e.Id()
  {
    var init, last := edges[..|edges| - 1], edges[|edges| - 1];
    var ws := FkDefine.Reconcile(edges, st).sum.withheld;
    if last == e {
      assert ws[|ws| - 1].edge.Id() == e.Id();
    } else {
      assert edges == init + [last];
      VisitsOrLeaves(init, st, e);
      var w :| w in FkDefine.Reconcile(init, st).sum.withheld && w.edge.Id() == e.Id();
      assert w in ws;
    }
  }

  /** End to end: with a faithful dump the three phases bring the whole snapshot back,
      inherited copies included, and the final check answers true. Nothing is pending, and nothing
      withheld unless the graph lists an inherited copy as an edge. */
  lemma LifecycleRestores(eng: Engine, g: Graph, rank: string -> nat, cat: set<Key>, ops: seq<Rebuild.Op>,
                          texts: seq<string>, keepGoing: bool)
    requires Taken(eng, g, rank, cat) && FaithfulDump(eng, g, cat, ops, texts, keepGoing)
    ensures Strip.RunDrops(eng, None, cat, Strip.DropOrder(g)) == Some(cat - Strip.Snapshot(g))
    ensures var rb, fk := Rebuilt(eng, g, cat, ops), Defined(eng, g, cat, ops, texts, keepGoing);
      && !rb.sum.Incomplete() && !fk.hard
      && (forall w :: w in fk.sum.withheld ==> w.cause.NoStatement? && Inherited(g, w.edge.child, w.edge.name))
      && cat <= fk.cat && Restored(g, fk.cat, {})
  {
    hide Strip.RunDrops, Rebuilt, Defined, Strip.SnapshotOk, Rebuild.Run, Inherited;
    var rb, fk := Rebuilt(eng, g, cat, ops), Defined(eng, g, cat, ops, texts, keepGoing);
    Strip.StripSucceeds(eng, g, rank, cat);
    CleanRebuild(eng, g, cat, ops);
    CleanDefine(eng, g, cat, ops, texts, keepGoing);
    var clean := fk.(sum := fk.sum.(withheld := []));
    DefinedGrows(eng, g, cat, ops, texts, keepGoing);
    RebuildLaws.KeyMapIs(Strip.DropOrder(g));
    RebuildLaws.RunHeld(Rebuild.ContextOf(eng, g, Strip.DropOrder(g), None), cat - Strip.Snapshot(g), ops);
    forall x | x in Strip.Entries(g) ensures x.key in fk.cat {
      var o := Strip.OwnerOf(g, rank, x);
      if o.kind.ForeignKey? {
        var d := FkDefine.ContextOf(eng, g, Rebuild.EMPTY, keepGoing, None);
        var e :| e in g.fkEdges && e.Id() == o.key;
        Strip.InOwnedOf(g, Strip.Entries(g), o);
        var t :| t in texts && FkDefine.EdgeOf(d, t) == Some(e);
        var i :| 0 <= i < |texts| && texts[i] == t;
        forall y ensures y in d.edges ==> d.edges[y].Id() == y { FkLaws.EdgeMapIs(g.fkEdges, y); }
        FkLaws.FirstEdgeIs(d.edges, DdlText.ClassOf(t), DdlText.NamesOf(t));
        FamilyInEffect(eng, t, o.key, x.key);
        assert IsFkText(d, texts[i]);
      } else {
        var c := Rebuild.ContextOf(eng, g, Strip.DropOrder(g), None);
        RebuildLaws.KeyMapIs(Strip.DropOrder(g));
        var op :| op in ops && op.KeyOp? && o in Rebuild.TargetsOf(c, op.text);
        var i :| 0 <= i < |ops| && ops[i] == op;
        RebuildLaws.TargetsAre(c.keys, DdlText.ClassOf(op.text), DdlText.NamesOf(op.text), o);
        assert |RebuildLaws.Claims(c, op)| == |Rebuild.TargetsOf(c, op.text)|;
        FamilyInEffect(eng, op.text, o.key, x.key);
        assert Runs(c, ops[i]);
      }
    }
  }

  lemma FamilyInEffect(eng: Engine, text: string, o: Key, k: Key)
    requires AddsFk(text, o) && k in eng.family(o)
    ensures k in FkEffect(eng, text)
  {
    FamiliesAre(eng, DdlText.ClassOf(text), DdlText.NamesOf(text));
    assert o == Key(DdlText.ClassOf(text), o.name);
  }

  // ----- the foreign key that is lost -----

  /** An executed operation of the rebuild, accepted there, has `k` in its effect. */
  ghost predicate AddedByRebuild(eng: Engine, g: Graph, cat: set<Key>, ops: seq<Rebuild.Op>, k: Key) {
    var c := Rebuild.ContextOf(eng, g, Strip.DropOrder(g), None);
    exists i :: 0 <= i < |ops| && Runs(c, ops[i])
      && !RebuildLaws.Rejected(c, Rebuild.Run(c, Rebuild.Start(cat - Strip.Snapshot(g)), ops[..i]).cat, ops[i])
      && k in RebuildLaws.Effect(c, ops[i])
  }

  /** An executed statement of FK define, accepted there, has `k` in its effect. */
  ghost predicate AddedByDefine(eng: Engine, g: Graph, cat: set<Key>, ops: seq<Rebuild.Op>, texts: seq<string>, keepGoing: bool, k: Key) {
    var rb := Rebuilt(eng, g, cat, ops);
    var d := FkDefine.ContextOf(eng, g, rb.sum, keepGoing, None);
    exists i :: 0 <= i < |texts| && AddsAt(d, FkDefine.Run(d, FkDefine.Start(rb.cat), texts[..i]), texts[i], k)
  }

  lemma StepAdds(c: Rebuild.Context, st: Rebuild.State, op: Rebuild.Op)
    requires c.present.None? && Runs(c, op) && !RebuildLaws.Rejected(c, st.cat, op)
    ensures RebuildLaws.Effect(c, op) <= Rebuild.Step(c, st, op).cat
  {
    hide Rebuild.TargetsOf, Rebuild.IsCreate, Families, DdlText.NamesOf, DdlText.IndexName, Judge, Rebuild.FailAll;
    if op.KeyOp? { assert |RebuildLaws.Claims(c, op)| == |Rebuild.TargetsOf(c, op.text)|; }
  }

  lemma RebuiltIff(eng: Engine, g: Graph, cat: set<Key>, ops: seq<Rebuild.Op>, k: Key)
    requires RebuildLaws.Reflexive(eng) && k !in cat - Strip.Snapshot(g)
    ensures k in Rebuilt(eng, g, cat, ops).cat <==> AddedByRebuild(eng, g, cat, ops, k)
  {
    hide Strip.DropOrder, Strip.Snapshot, Rebuild.Step, Runs, RebuildLaws.Rejected, RebuildLaws.Effect, Rebuild.Reconcile,
         RebuildLaws.Claims, Rebuild.KeyOrder, Rebuild.Accounted;
    var stripped, base := Strip.DropOrder(g), cat - Strip.Snapshot(g);
    var c := Rebuild.ContextOf(eng, g, stripped, None);
    var st := Rebuild.Run(c, Rebuild.Start(base), ops);
    RebuildLaws.KeyMapIs(stripped);
    RebuildLaws.ReconcileRecords(c, Rebuild.KeyOrder(stripped), Rebuild.Accounted(st.sum), st);
    assert ops[..|ops|] == ops;
    if k in st.cat {
      var i := RebuildLaws.CatalogComesFrom(c, base, ops, |ops|, k);
      assert Runs(c, ops[i]) by { RunsIs(c, ops[i]); }
    }
    if AddedByRebuild(eng, g, cat, ops, k) {
      var i :| 0 <= i < |ops| && Runs(c, ops[i])
        && !RebuildLaws.Rejected(c, Rebuild.Run(c, Rebuild.Start(base), ops[..i]).cat, ops[i]) && k in RebuildLaws.Effect(c, ops[i]);
      RebuildLaws.RunStep(c, Rebuild.Start(base), ops, i);
      StepAdds(c, Rebuild.Run(c, Rebuild.Start(base), ops[..i]), ops[i]);
      RebuildLaws.GrowsBetween(c, base, ops, i + 1, |ops|);
    }
  }

  lemma RunsIs(c: Rebuild.Context, op: Rebuild.Op)
    ensures Runs(c, op) <==> RebuildLaws.Claims(c, op) != []
  {
    hide RebuildLaws.Claims;
  }

  lemma DefinedIff(eng: Engine, g: Graph, cat: set<Key>, ops: seq<Rebuild.Op>, texts: seq<string>, keepGoing: bool, k: Key)
    ensures k in Defined(eng, g, cat, ops, texts, keepGoing).cat <==>
      k in Rebuilt(eng, g, cat, ops).cat || AddedByDefine(eng, g, cat, ops, texts, keepGoing, k)
  {
    hide Rebuilt, AddsAt, FkDefine.Step, FkDefine.Reconcile, FkDefine.ContextOf, DdlText.NamesOf, DdlText.ClassEnd;
    var rb := Rebuilt(eng, g, cat, ops);
    var d := FkDefine.ContextOf(eng, g, rb.sum, keepGoing, None);
    var start := FkDefine.Start(rb.cat);
    FkDefine.ReconcileKeeps(g.fkEdges, FkDefine.Run(d, start, texts));
    assert texts[..0] == [] && texts[..|texts|] == texts;
    FkLaws.Between(d, start, texts, 0, |texts|);
    if k in FkDefine.Run(d, start, texts).cat && k !in rb.cat {
      var i := FkComesFrom(d, rb.cat, texts, |texts|, k);
    }
    if AddedByDefine(eng, g, cat, ops, texts, keepGoing, k) {
      var i :| 0 <= i < |texts| && AddsAt(d, FkDefine.Run(d, start, texts[..i]), texts[i], k);
      FkLaws.RunStep(d, start, texts, i);
      FkStepAdds(d, FkDefine.Run(d, start, texts[..i]), texts[i], k);
      FkLaws.Between(d, start, texts, i + 1, |texts|);
    }
  }

  /** What becomes of an owned foreign key: it ends in the catalog or recorded exactly when it is an
      edge of the graph or some executed and accepted statement adds it. */
  lemma ForeignKeyIsKeptIff(eng: Engine, g: Graph, rank: string -> nat, cat: set<Key>, ops: seq<Rebuild.Op>,
                            texts: seq<string>, keepGoing: bool, o: Stripped)
    requires Taken(eng, g, rank, cat) && !Defined(eng, g, cat, ops, texts, keepGoing).hard
    requires o in Strip.DropOrder(g) && o.kind.ForeignKey?
    ensures var rb, fk := Rebuilt(eng, g, cat, ops), Defined(eng, g, cat, ops, texts, keepGoing);
      o.key in fk.cat || o.key in Excused(rb.sum, fk.sum) <==>
        || IsEdge(g, o.key)
        || AddedByRebuild(eng, g, cat, ops, o.key)
        || AddedByDefine(eng, g, cat, ops, texts, keepGoing, o.key)
  {
    hide Rebuilt, Defined, AddedByRebuild, AddedByDefine, Strip.DropOrder, Strip.Entries, FkDefine.EdgeRef.Id, ByName;
    var rb, fk := Rebuilt(eng, g, cat, ops), Defined(eng, g, cat, ops, texts, keepGoing);
    StrippedIsGone(g, cat, o);
    RebuiltIff(eng, g, cat, ops, o.key);
    DefinedIff(eng, g, cat, ops, texts, keepGoing, o.key);
    if IsEdge(g, o.key) {
      var e :| e in g.fkEdges && e.Id() == o.key;
      EdgeIsRecorded(eng, g, cat, ops, texts, keepGoing, e);
    } else {
      forall p | p in rb.sum.pending ensures p.what.key != o.key {
        PendingAreOwned(eng, g, cat, ops, p);
        KindsDiffer(g, o, p.what);
      }
      forall w | w in fk.sum.withheld ensures w.edge.Id() != o.key {
        WithheldAreEdges(eng, g, cat, ops, texts, keepGoing, w);
      }
    }
  }

  /** Where nothing is silently lost fails: an owned foreign key without a graph edge, as when its
      parent class was skipped. Strip drops it; the dump's own ADD statement for it resolves to no edge
      and is passed over. Unless a statement that is executed names it too, it ends neither in the
      catalog nor in a record; only the final check notices. */
  lemma SkippedParentKeyIsLost(eng: Engine, g: Graph, rank: string -> nat, cat: set<Key>, ops: seq<Rebuild.Op>,
                               texts: seq<string>, keepGoing: bool, o: Stripped)
    requires Taken(eng, g, rank, cat) && !Defined(eng, g, cat, ops, texts, keepGoing).hard
    requires o in Strip.DropOrder(g) && o.kind.ForeignKey? && !IsEdge(g, o.key)
    requires var c := Rebuild.ContextOf(eng, g, Strip.DropOrder(g), None);
      forall op :: op in ops && Runs(c, op) ==> o.key !in RebuildLaws.Effect(c, op)
    requires var d := FkDefine.ContextOf(eng, g, Rebuilt(eng, g, cat, ops).sum, keepGoing, None);
      forall t :: t in texts && IsFkText(d, t) ==> o.key !in FkEffect(eng, t)
    ensures var rb, fk := Rebuilt(eng, g, cat, ops), Defined(eng, g, cat, ops, texts, keepGoing);
      && o.key !in fk.cat && o.key !in Excused(rb.sum, fk.sum) && !Restored(g, fk.cat, Excused(rb.sum, fk.sum))
  {
    hide Rebuilt, Defined, RebuildLaws.Effect, FkEffect, Runs, Strip.DropOrder, RebuildLaws.Rejected, Taken, Strip.Entries,
         Rebuild.Run, FkDefine.Run, Excused, DdlText.NamesOf, DdlText.ClassEnd;
    ForeignKeyIsKeptIff(eng, g, rank, cat, ops, texts, keepGoing, o);
    StrippedIsGone(g, cat, o);
  }

  lemma StrippedIsGone(g: Graph, cat: set<Key>, o: Stripped)
    requires o in Strip.DropOrder(g)
    ensures o.key !in cat - Strip.Snapshot(g) && o in Strip.Entries(g)
  {
    Strip.InOwnedOf(g, Strip.Entries(g), o);
  }

  lemma KindsDiffer(g: Graph, o: Stripped, p: Stripped)
    requires Strip.DistinctKeys(Strip.Entries(g)) && o in Strip.DropOrder(g) && p in Strip.DropOrder(g)
    requires o.kind.ForeignKey? && !p.kind.ForeignKey?
    ensures o.key != p.key
  {
    hide Strip.Entries, Strip.OwnedOf;
    Strip.InOwnedOf(g, Strip.Entries(g), o);
    Strip.InOwnedOf(g, Strip.Entries(g), p);
    var i :| 0 <= i < |Strip.Entries(g)| && Strip.Entries(g)[i] == o;
    var j :| 0 <= j < |Strip.Entries(g)| && Strip.Entries(g)[j] == p;
  }
}
