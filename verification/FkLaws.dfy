/** What FK define guarantees: every edge ends in exactly one record, the tallies are those
    of the rejected edges, fail-fast stops at the first, no edge is attempted while a key
    of its parent is missing, and a re-run under the guard agrees with the run it resumes. */
module FkLaws {
  import opened Schema
  import opened Engine
  import opened DdlText
  import opened FkDefine
  import Rebuild
  import RebuildLaws

  // ----- conservation -----

  function DefinedIds(s: seq<EdgeRef>): seq<Key> { seq(|s|, i requires 0 <= i < |s| => s[i].Id()) }

  function WithheldIds(s: seq<Withheld>): seq<Key> { seq(|s|, i requires 0 <= i < |s| => s[i].edge.Id()) }

  function EdgeIds(s: seq<FkEdge>): seq<Key> { seq(|s|, i requires 0 <= i < |s| => s[i].Id()) }

  function Recorded(sum: Summary): multiset<Key> {
    multiset(DefinedIds(sum.defined)) + multiset(WithheldIds(sum.withheld))
  }

  lemma DefineRecords(st: State, e: FkEdge)
    ensures Recorded(Define(st, e).sum) == Recorded(st.sum) + multiset{e.Id()}
  {
    hide WithheldIds;
    assert DefinedIds(st.sum.defined + [RefOf(e)]) == DefinedIds(st.sum.defined) + [e.Id()];
  }

  lemma WithholdRecords(st: State, e: FkEdge, cause: Cause, readd: string)
    ensures Recorded(Withhold(st, e, cause, readd).sum) == Recorded(st.sum) + multiset{e.Id()}
  {
    hide DefinedIds;
    assert WithheldIds(st.sum.withheld + [Withheld(RefOf(e), cause, readd)]) == WithheldIds(st.sum.withheld) + [e.Id()];
  }

  lemma EdgeMapIs(edges: seq<FkEdge>, k: Key)
    ensures k in EdgeMap(edges) <==> exists e :: e in edges && e.Id() == k
    ensures k in EdgeMap(edges) ==> EdgeMap(edges)[k] in edges && EdgeMap(edges)[k].Id() == k
  {
    hide Schema.FkEdge.Id;
    if edges != [] {
      assert edges == edges[..|edges| - 1] + [edges[|edges| - 1]];
    }
  }

  ghost predicate EdgesMatch(edges: map<Key, FkEdge>) { forall k :: k in edges ==> edges[k].Id() == k }

  lemma FirstEdgeIs(edges: map<Key, FkEdge>, cls: string, names: seq<string>)
    requires EdgesMatch(edges)
    ensures var e := FirstEdge(edges, cls, names);
      e.Some? ==> e.value.Id() in edges && edges[e.value.Id()] == e.value && e.value.child == cls && e.value.name in names
  {
  }

  /** Each visited edge is recorded exactly once, and each record is a visited edge. */
  ghost predicate Conserved(c: Context, st: State) {
    && (!st.hard ==> Recorded(st.sum) == multiset(st.processed))
    && (forall k :: k in st.processed ==> k in c.edges)
  }

  /** A visited edge is defined, withheld, or the phase fails. */
  lemma VisitRecords(c: Context, st: State, e: FkEdge, text: string)
    ensures var st' := Visit(c, st, e, text);
      && st'.processed == st.processed
      && (!st'.hard ==> Recorded(st'.sum) == Recorded(st.sum) + multiset{e.Id()})
  {
    hide Recorded, Schema.FkEdge.Id, JudgeAdd, AfterAddText, RefOf;
    var st' := Visit(c, st, e, text);
    if st'.sum.defined != st.sum.defined {
      DefineRecords(st, e);
    } else if !st'.hard {
      var w := st'.sum.withheld[|st'.sum.withheld| - 1];
      WithholdRecords(st, e, w.cause, w.readd);
    }
  }

  lemma StepConserves(c: Context, st: State, text: string)
    requires EdgesMatch(c.edges) && Conserved(c, st)
    ensures Conserved(c, Step(c, st, text))
  {
    hide EdgesMatch, NamesOf, Visit, Recorded, ClassEnd, ClassOf;
    FirstEdgeIs(c.edges, ClassOf(text), NamesOf(text));
    var found := EdgeOf(c, text);
    if !st.hard && found.Some? && found.value.Id() !in st.processed {
      var st1 := st.(processed := st.processed + {found.value.Id()});
      assert multiset(st1.processed) == multiset(st.processed) + multiset{found.value.Id()};
      VisitRecords(c, st1, found.value, text);
    }
  }

  lemma {:induction false} RunConserves(c: Context, cat: set<Key>, texts: seq<string>)
    requires EdgesMatch(c.edges)
    ensures Conserved(c, Run(c, Start(cat), texts))
  {
    hide Step, EdgesMatch;
    if texts != [] {
      RunConserves(c, cat, texts[..|texts| - 1]);
      StepConserves(c, Run(c, Start(cat), texts[..|texts| - 1]), texts[|texts| - 1]);
    }
  }

  function Unprocessed(edges: seq<FkEdge>, processed: set<Key>): seq<Key> {
    if edges == [] then []
    else
      Unprocessed(edges[..|edges| - 1], processed)
      + if edges[|edges| - 1].Id() in processed then [] else [edges[|edges| - 1].Id()]
  }

  lemma {:induction false} ReconcileRecords(edges: seq<FkEdge>, st: State)
    ensures Recorded(Reconcile(edges, st).sum) == Recorded(st.sum) + multiset(Unprocessed(edges, st.processed))
  {
    hide Recorded, Withhold, Schema.FkEdge.Id;
    if edges != [] {
      ReconcileRecords(edges[..|edges| - 1], st);
      WithholdRecords(Reconcile(edges[..|edges| - 1], st), edges[|edges| - 1], NoStatement, "");
    }
  }

  lemma UnprocessedCount(edges: seq<FkEdge>, processed: set<Key>, k: Key)
    ensures multiset(Unprocessed(edges, processed))[k] == if k in processed then 0 else multiset(EdgeIds(edges))[k]
  {
    if edges != [] {
      UnprocessedCount(edges[..|edges| - 1], processed, k);
      assert EdgeIds(edges) == EdgeIds(edges[..|edges| - 1]) + [edges[|edges| - 1].Id()];
    }
  }

  ghost predicate DistinctEdges(edges: seq<FkEdge>) {
    forall i, j :: 0 <= i < j < |edges| ==> edges[i].Id() != edges[j].Id()
  }

  lemma DistinctCount(edges: seq<FkEdge>, k: Key)
    requires DistinctEdges(edges)
    ensures multiset(EdgeIds(edges))[k] == if k in EdgeMap(edges) then 1 else 0
  {
    if edges != [] {
      var init, e := edges[..|edges| - 1], edges[|edges| - 1];
      DistinctCount(init, k);
      EdgeMapIs(init, k);
      assert EdgeIds(edges) == EdgeIds(init) + [e.Id()];
      assert forall i :: 0 <= i < |init| ==> init[i].Id() == edges[i].Id() != e.Id();
    }
  }

  /** Without a hard error, and with edges distinct by child and name, every edge of the
      graph ends in exactly one of `defined` and `withheld`, once. */
  lemma EveryEdgeOnce(eng: Engine, g: Graph, rebuilt: Rebuild.Summary, keepGoing: bool, present: Option<set<Key>>,
                      cat: set<Key>, texts: seq<string>)
    requires DistinctEdges(g.fkEdges) && !Phase(eng, g, rebuilt, keepGoing, present, cat, texts).hard
    ensures Recorded(Phase(eng, g, rebuilt, keepGoing, present, cat, texts).sum) == multiset(EdgeIds(g.fkEdges))
  {
    hide DistinctEdges, Recorded, Run, EdgeIds, Reconcile, Unprocessed, Start, EdgeMap, WithheldReasons;
    var c := ContextOf(eng, g, rebuilt, keepGoing, present);
    var st := Run(c, Start(cat), texts);
    forall k ensures k in c.edges ==> c.edges[k].Id() == k { EdgeMapIs(g.fkEdges, k); }
    RunConserves(c, cat, texts);
    ReconcileRecords(g.fkEdges, st);
    forall k ensures (multiset(st.processed) + multiset(Unprocessed(g.fkEdges, st.processed)))[k] == multiset(EdgeIds(g.fkEdges))[k] {
      UnprocessedCount(g.fkEdges, st.processed, k);
      DistinctCount(g.fkEdges, k);
    }
  }

  // ----- what a withheld edge is recorded with -----

  predicate Resolves(c: Context, text: string, id: Key) {
    match EdgeOf(c, text)
    case None => false
    case Some(e) => e.Id() == id
  }

  /** `text` adds the edge, and nothing of `before` would. */
  ghost predicate Adds(c: Context, before: seq<string>, text: string, edge: EdgeRef) {
    && (match EdgeOf(c, text) case None => false case Some(e) => RefOf(e) == edge)
    && forall t :: t in before ==> !Resolves(c, t, edge.Id())
  }

  predicate AnyRejected(ws: seq<Withheld>) { exists w :: w in ws && w.cause.Rejected? }

  /** Why an edge is withheld: the rebuild's own reason, an earlier edge rejected under
      fail-fast, or the server's verdict on its statement. */
  ghost predicate Caused(c: Context, text: string, earlier: seq<Withheld>, w: Withheld) {
    match w.cause
    case ByRebuild(reason) => (w.edge.Id(), reason) in c.byRebuild.Items
    case NotAttempted => w.edge.Id() !in c.byRebuild && !c.keepGoing && AnyRejected(earlier)
    case Rejected(orphans) =>
      w.edge.Id() !in c.byRebuild && exists rows :: c.eng.verdict(text) == FkInvalid(Some(rows)) && |rows| == orphans
    case NoStatement => false
  }

  /** Its record: the first statement that would add it, or none where the dump has none. */
  ghost predicate Explained(c: Context, texts: seq<string>, earlier: seq<Withheld>, w: Withheld) {
    if w.cause.NoStatement? then w.readd == "" && forall t :: t in texts ==> !Resolves(c, t, w.edge.Id())
    else
      exists i :: 0 <= i < |texts| && Adds(c, texts[..i], texts[i], w.edge) && w.readd == texts[i] + ";"
               && Caused(c, texts[i], earlier, w)
  }

  ghost predicate AllExplained(c: Context, texts: seq<string>, ws: seq<Withheld>) {
    forall m :: 0 <= m < |ws| ==> Explained(c, texts, ws[..m], ws[m])
  }

  /** What holds once the statements `texts` have been gone through. */
  ghost predicate Accounted(c: Context, texts: seq<string>, st: State) {
    && AllExplained(c, texts, st.sum.withheld) && (forall w :: w in st.sum.withheld ==> !w.cause.NoStatement?)
    && (forall id :: id in st.processed <==> exists t :: t in texts && Resolves(c, t, id))
    && (st.stop ==> !c.keepGoing && AnyRejected(st.sum.withheld))
  }

  lemma MoreStatements(c: Context, texts: seq<string>, text: string, earlier: seq<Withheld>, w: Withheld)
    requires Explained(c, texts, earlier, w) && !w.cause.NoStatement?
    ensures Explained(c, texts + [text], earlier, w)
  {
    hide Adds, Caused, Resolves;
    var i :| 0 <= i < |texts| && Adds(c, texts[..i], texts[i], w.edge) && w.readd == texts[i] + ";" && Caused(c, texts[i], earlier, w);
    assert (texts + [text])[..i] == texts[..i] && (texts + [text])[i] == texts[i];
  }

  lemma OneMore(c: Context, texts: seq<string>, ws: seq<Withheld>, w: Withheld)
    requires AllExplained(c, texts, ws) && Explained(c, texts, ws, w)
    ensures AllExplained(c, texts, ws + [w])
  {
    hide Explained;
    forall m | 0 <= m <= |ws| ensures Explained(c, texts, (ws + [w])[..m], (ws + [w])[m]) {
      assert (ws + [w])[..m] == ws[..m];
      if m == |ws| { assert ws[..m] == ws; }
    }
  }

  lemma VisitExplains(c: Context, texts: seq<string>, st: State, e: FkEdge, text: string) returns (w: Withheld)
    requires EdgeOf(c, text) == Some(e) && (forall t :: t in texts ==> !Resolves(c, t, e.Id()))
    requires st.stop ==> !c.keepGoing && AnyRejected(st.sum.withheld)
    requires !Visit(c, st, e, text).hard
    ensures var st', ws := Visit(c, st, e, text), st.sum.withheld;
      || (st'.sum.withheld == ws && st'.stop == st.stop)
      || (&& st'.sum.withheld == ws + [w] && !w.cause.NoStatement? && Explained(c, texts + [text], ws, w)
          && (st'.stop ==> st.stop || (!c.keepGoing && w.cause.Rejected?)))
  {
    hide EdgeOf, Resolves, AfterAddText, Validated, AnyRejected, ClassOf, NamesOf, AnyPresent;
    var st' := Visit(c, st, e, text);
    if st'.sum.withheld == st.sum.withheld {
      return Withheld(RefOf(e), NotAttempted, "");
    }
    w := st'.sum.withheld[|st.sum.withheld|];
    var all := texts + [text];
    assert all[..|texts|] == texts && all[|texts|] == text;
    assert Adds(c, texts, text, w.edge);
    assert Caused(c, text, st.sum.withheld, w);
  }

  lemma StepExplains(c: Context, texts: seq<string>, st: State, text: string)
    requires Accounted(c, texts, st) && !Step(c, st, text).hard
    ensures Accounted(c, texts + [text], Step(c, st, text))
  {
    hide EdgeOf, Visit, Explained, Recorded;
    var st', ws := Step(c, st, text), st.sum.withheld;
    forall m | 0 <= m < |ws| ensures Explained(c, texts + [text], ws[..m], ws[m]) { MoreStatements(c, texts, text, ws[..m], ws[m]); }
    if found: FkEdge :| EdgeOf(c, text) == Some(found) && found.Id() !in st.processed {
      var st1 := st.(processed := st.processed + {found.Id()});
      VisitRecords(c, st1, found, text);
      var w := VisitExplains(c, texts, st1, found, text);
      if st'.sum.withheld != ws { OneMore(c, texts + [text], ws, w); }
      assert text in texts + [text];
      assert st'.stop ==> !c.keepGoing && AnyRejected(st'.sum.withheld);
    }
  }

  lemma {:induction false} RunExplains(c: Context, cat: set<Key>, texts: seq<string>)
    requires !Run(c, Start(cat), texts).hard
    ensures Accounted(c, texts, Run(c, Start(cat), texts))
  {
    hide Step, Accounted, Start;
    if texts == [] {
      NothingToExplain(c, cat);
    } else {
      var init, text := texts[..|texts| - 1], texts[|texts| - 1];
      assert init + [text] == texts;
      if Run(c, Start(cat), init).hard { HardStays(c, Run(c, Start(cat), init), [text]); }
      RunExplains(c, cat, init);
      StepExplains(c, init, Run(c, Start(cat), init), text);
    }
  }

  lemma NothingToExplain(c: Context, cat: set<Key>)
    ensures Accounted(c, [], Start(cat))
  {
    hide Explained, EdgeOf;
  }

  lemma {:induction false} ReconcileExplains(c: Context, texts: seq<string>, edges: seq<FkEdge>, st: State)
    requires Accounted(c, texts, st)
    ensures AllExplained(c, texts, Reconcile(edges, st).sum.withheld)
  {
    hide AllExplained, EdgeOf, Caused;
    if edges != [] {
      var init, e := Reconcile(edges[..|edges| - 1], st), edges[|edges| - 1];
      ReconcileExplains(c, texts, edges[..|edges| - 1], st);
      if e.Id() !in st.processed { OneMore(c, texts, init.sum.withheld, Withheld(RefOf(e), NoStatement, "")); }
    }
  }

  /** Every withheld edge comes with its repair statement, the first of the dump's for it, and
      with its cause; or, where the dump has no statement for it, with none. */
  lemma WithheldAreExplained(eng: Engine, g: Graph, rebuilt: Rebuild.Summary, keepGoing: bool, present: Option<set<Key>>,
                             cat: set<Key>, texts: seq<string>)
    requires !Phase(eng, g, rebuilt, keepGoing, present, cat, texts).hard
    ensures AllExplained(ContextOf(eng, g, rebuilt, keepGoing, present), texts,
                         Phase(eng, g, rebuilt, keepGoing, present, cat, texts).sum.withheld)
    ensures forall w :: w in Phase(eng, g, rebuilt, keepGoing, present, cat, texts).sum.withheld ==> ReasonStands(rebuilt, w)
  {
    hide Run, Reconcile, WithheldReasons, EdgeMap, Adds, Start, Accounted, Resolves, AnyRejected;
    var c := ContextOf(eng, g, rebuilt, keepGoing, present);
    var ws := Phase(eng, g, rebuilt, keepGoing, present, cat, texts).sum.withheld;
    RunExplains(c, cat, texts);
    ReconcileExplains(c, texts, g.fkEdges, Run(c, Start(cat), texts));
    forall w | w in ws ensures ReasonStands(rebuilt, w) {
      var m :| 0 <= m < |ws| && ws[m] == w;
      assert Explained(c, texts, ws[..m], w);
      WithheldReasonsIs(rebuilt.withheld, w.edge.Id());
    }
  }

  /** The rebuild's reason for the edge, where it gave one and there is a statement. */
  ghost predicate ReasonStands(rebuilt: Rebuild.Summary, w: Withheld) {
    match w.cause
    case NoStatement => true
    case ByRebuild(reason) => exists x :: x in rebuilt.withheld && x.Id() == w.edge.Id() && x.reason == reason
    case _ => forall x :: x in rebuilt.withheld ==> x.Id() != w.edge.Id()
  }

  // ----- the tallies -----

  function RejectedCount(withheld: seq<Withheld>): nat {
    if withheld == [] then 0
    else RejectedCount(withheld[..|withheld| - 1]) + if withheld[|withheld| - 1].cause.Rejected? then 1 else 0
  }

  function RejectedOrphans(withheld: seq<Withheld>): nat {
    if withheld == [] then 0
    else
      RejectedOrphans(withheld[..|withheld| - 1])
      + if withheld[|withheld| - 1].cause.Rejected? then withheld[|withheld| - 1].cause.orphans else 0
  }

  function OrphansOf(edges: seq<EdgeResult>): nat {
    if edges == [] then 0 else OrphansOf(edges[..|edges| - 1]) + edges[|edges| - 1].orphans
  }

  /** The tallies are those of the rejected edges, each of which is withheld. */
  ghost predicate Tallied(sum: Summary, val: Validation) {
    && val.violated == RejectedCount(sum.withheld)
    && val.totalOrphans == RejectedOrphans(sum.withheld) == OrphansOf(val.edges) == |val.orphans|
    && val.validated == |val.edges|
  }

  lemma WithholdTallies(st: State, e: FkEdge, cause: Cause, readd: string)
    requires Tallied(st.sum, st.val) && !cause.Rejected?
    ensures Tallied(Withhold(st, e, cause, readd).sum, st.val)
  {
    var ws := Withhold(st, e, cause, readd).sum.withheld;
    assert ws[..|ws| - 1] == st.sum.withheld;
  }

  lemma AttemptTallies(c: Context, st: State, e: FkEdge, text: string)
    requires Tallied(st.sum, st.val)
    ensures Tallied(Attempt(c, st, e, text).sum, Attempt(c, st, e, text).val)
  {
    hide JudgeAdd, AfterAddText, RefOf;
    var st' := Attempt(c, st, e, text);
    assert st'.sum.withheld == st.sum.withheld || st'.sum.withheld[..|st'.sum.withheld| - 1] == st.sum.withheld;
    assert st'.val.edges == st.val.edges || st'.val.edges[..|st'.val.edges| - 1] == st.val.edges;
  }

  lemma VisitTallies(c: Context, st: State, e: FkEdge, text: string)
    requires Tallied(st.sum, st.val)
    ensures Tallied(Visit(c, st, e, text).sum, Visit(c, st, e, text).val)
  {
    hide Attempt, Withhold, RejectedOrphans;
    AttemptTallies(c, st, e, text);
    WithholdTallies(st, e, if e.Id() in c.byRebuild then ByRebuild(c.byRebuild[e.Id()]) else NotAttempted, text + ";");
    WithholdKeepsTheRest(st, e, if e.Id() in c.byRebuild then ByRebuild(c.byRebuild[e.Id()]) else NotAttempted, text + ";");
  }

  lemma WithholdKeepsTheRest(st: State, e: FkEdge, cause: Cause, readd: string)
    ensures Withhold(st, e, cause, readd).val == st.val
  {
  }

  lemma StepTallies(c: Context, st: State, text: string)
    requires Tallied(st.sum, st.val)
    ensures Tallied(Step(c, st, text).sum, Step(c, st, text).val)
  {
    hide Tallied, EdgeOf, Visit;
    var found := EdgeOf(c, text);
    if !st.hard && found.Some? && found.value.Id() !in st.processed {
      VisitTallies(c, st.(processed := st.processed + {found.value.Id()}), found.value, text);
    }
  }

  lemma {:induction false} RunTallies(c: Context, cat: set<Key>, texts: seq<string>)
    ensures Tallied(Run(c, Start(cat), texts).sum, Run(c, Start(cat), texts).val)
  {
    hide Step;
    if texts != [] {
      RunTallies(c, cat, texts[..|texts| - 1]);
      StepTallies(c, Run(c, Start(cat), texts[..|texts| - 1]), texts[|texts| - 1]);
    }
  }

  lemma {:induction false} ReconcileTallies(edges: seq<FkEdge>, st: State)
    requires Tallied(st.sum, st.val)
    ensures Tallied(Reconcile(edges, st).sum, st.val)
  {
    if edges != [] {
      ReconcileTallies(edges[..|edges| - 1], st);
      var mid, st' := Reconcile(edges[..|edges| - 1], st), Reconcile(edges, st);
      if st' != mid {
        assert st'.sum.withheld[..|st'.sum.withheld| - 1] == mid.sum.withheld;
      }
    }
  }

  /** A violated edge always leaves a withheld record, and the orphan totals agree. */
  lemma PhaseTallies(eng: Engine, g: Graph, rebuilt: Rebuild.Summary, keepGoing: bool, present: Option<set<Key>>,
                     cat: set<Key>, texts: seq<string>)
    ensures var st := Phase(eng, g, rebuilt, keepGoing, present, cat, texts);
      Tallied(st.sum, st.val) && (st.val.violated > 0 ==> st.sum.withheld != [])
  {
    hide Run, ContextOf, Reconcile;
    var st := Run(ContextOf(eng, g, rebuilt, keepGoing, present), Start(cat), texts);
    RunTallies(ContextOf(eng, g, rebuilt, keepGoing, present), cat, texts);
    ReconcileTallies(g.fkEdges, st);
    ReconcileKeeps(g.fkEdges, st);
  }

  // ----- fail-fast -----

  lemma StoppedStep(c: Context, st: State, text: string)
    requires st.stop
    ensures var st' := Step(c, st, text);
      st'.stop && st'.cat == st.cat && st'.sum.defined == st.sum.defined && st'.val == st.val && st'.hard == st.hard
  {
    hide EdgeOf, Schema.FkEdge.Id, Attempt;
  }

  /** Once stopped, nothing is executed, defined or validated any more. */
  lemma {:induction false} StoppedDefinesNothing(c: Context, st: State, texts: seq<string>)
    requires st.stop
    ensures var st' := Run(c, st, texts);
      st'.stop && st'.cat == st.cat && st'.sum.defined == st.sum.defined && st'.val == st.val && st'.hard == st.hard
  {
    hide Step;
    if texts != [] {
      StoppedDefinesNothing(c, st, texts[..|texts| - 1]);
      StoppedStep(c, Run(c, st, texts[..|texts| - 1]), texts[|texts| - 1]);
    }
  }

  lemma FailFastStep(c: Context, st: State, text: string)
    requires !c.keepGoing && st.val.violated == (if st.stop then 1 else 0)
    ensures Step(c, st, text).val.violated == if Step(c, st, text).stop then 1 else 0
  {
    hide EdgeOf, JudgeAdd, AfterAddText, Schema.FkEdge.Id, RefOf;
  }

  /** Under fail-fast at most one edge is rejected, and its rejection is what stops. */
  lemma {:induction false} FailFast(c: Context, cat: set<Key>, texts: seq<string>)
    requires !c.keepGoing
    ensures var st := Run(c, Start(cat), texts);
      st.val.violated == if st.stop then 1 else 0
  {
    hide Step;
    if texts != [] {
      FailFast(c, cat, texts[..|texts| - 1]);
      FailFastStep(c, Run(c, Start(cat), texts[..|texts| - 1]), texts[|texts| - 1]);
    }
  }

  // ----- the cascade -----

  /** The statement is executed against the server for edge `e`. */
  predicate Executes(c: Context, st: State, text: string, e: FkEdge) {
    !st.hard && EdgeOf(c, text) == Some(e) && e.Id() !in st.processed && Open(c, st, e) && !Found(c, e.Id())
  }

  lemma WithheldReasonsIs(withheld: seq<Rebuild.WithheldFk>, id: Key)
    ensures id in WithheldReasons(withheld) <==> exists w :: w in withheld && w.Id() == id
    ensures id in WithheldReasons(withheld) ==>
      exists w :: w in withheld && w.Id() == id && w.reason == WithheldReasons(withheld)[id]
  {
    hide Rebuild.WithheldFk.Id;
    if withheld != [] {
      assert withheld == withheld[..|withheld| - 1] + [withheld[|withheld| - 1]];
    }
  }

  lemma StepGrows(c: Context, st: State, text: string)
    ensures st.cat <= Step(c, st, text).cat
  {
    hide EdgeOf, Judge, NamesOf, ClassEnd, Families, Validated, ClassOf;
  }

  lemma {:induction false} RunGrows(c: Context, st: State, texts: seq<string>)
    ensures st.cat <= Run(c, st, texts).cat
  {
    hide Step;
    if texts != [] {
      RunGrows(c, st, texts[..|texts| - 1]);
      StepGrows(c, Run(c, st, texts[..|texts| - 1]), texts[|texts| - 1]);
    }
  }

  /** No edge is attempted while a stripped key of its parent is missing: over the catalog
      and the record a rebuild left, an executed ADD sees every such key in place. */
  lemma AttemptSeesParentKeys(eng: Engine, g: Graph, stripped: seq<Stripped>, present: Option<set<Key>>, cat: set<Key>,
                              ops: seq<Rebuild.Op>, keepGoing: bool, guard: Option<set<Key>>,
                              texts: seq<string>, i: nat, e: FkEdge, x: Stripped)
    requires RebuildLaws.Reflexive(eng) && (present.Some? ==> present.value <= cat)
    requires i < |texts| && x in stripped && !x.kind.ForeignKey? && x.key.cls == e.parent
    requires var rb := Rebuild.Phase(eng, g, stripped, present, cat, ops);
      var c := ContextOf(eng, g, rb.sum, keepGoing, guard);
      Executes(c, Run(c, Start(rb.cat), texts[..i]), texts[i], e)
    ensures var rb := Rebuild.Phase(eng, g, stripped, present, cat, ops);
      var c := ContextOf(eng, g, rb.sum, keepGoing, guard);
      x.key in Run(c, Start(rb.cat), texts[..i]).cat
  {
    hide Rebuild.Phase, Run, ClassOf, NamesOf;
    var rb := Rebuild.Phase(eng, g, stripped, present, cat, ops);
    var c := ContextOf(eng, g, rb.sum, keepGoing, guard);
    forall k ensures k in c.edges ==> c.edges[k].Id() == k && c.edges[k] in g.fkEdges { EdgeMapIs(g.fkEdges, k); }
    FirstEdgeIs(c.edges, ClassOf(texts[i]), NamesOf(texts[i]));
    RebuildLaws.MissingKeyWithholdsChildren(eng, g, stripped, present, cat, ops, x, e);
    WithheldReasonsIs(rb.sum.withheld, e.Id());
    RunGrows(c, Start(rb.cat), texts[..i]);
  }

  // ----- a resumed FK define -----

  /** The server rejects the edge over the rows although the interrupted run left it in
      place: the guard takes it for defined. */
  predicate Shadowed(c: Context, st: State, text: string, left: set<Key>) {
    match EdgeOf(c, text)
    case None => false
    case Some(e) =>
      && e.Id() !in st.processed && Open(c, st, e)
      && JudgeAdd(c.eng, st.cat, text).FkInvalid? && e.Id() in left
  }

  predicate ShadowedAt(c: Context, cat: set<Key>, texts: seq<string>, left: set<Key>, j: nat)
    requires j < |texts|
  {
    Shadowed(c, Run(c, Start(cat), texts[..j]), texts[j], left)
  }

  predicate ShadowedIn(c: Context, cat: set<Key>, texts: seq<string>, left: set<Key>, n: nat)
    requires n <= |texts|
  {
    n > 0 && (ShadowedIn(c, cat, texts, left, n - 1) || ShadowedAt(c, cat, texts, left, n - 1))
  }

  predicate AnyShadowed(c: Context, cat: set<Key>, texts: seq<string>, left: set<Key>) {
    ShadowedIn(c, cat, texts, left, |texts|)
  }

  /** Same records; the per-edge validation tallies are not among them. */
  predicate Same(st: State, rt: State) {
    st.sum == rt.sum && st.processed == rt.processed && st.stop == rt.stop && !st.hard && !rt.hard
  }

  predicate InStep(st: State, rt: State, left: set<Key>, early: bool) {
    Same(st, rt) && st.cat <= rt.cat && left <= rt.cat && rt.cat == if early then left else st.cat
  }

  lemma AcceptedIsHeld(c: Context, cat: set<Key>, text: string, e: FkEdge)
    requires RebuildLaws.Reflexive(c.eng) && EdgesMatch(c.edges) && EdgeOf(c, text) == Some(e)
    requires JudgeAdd(c.eng, cat, text).Accept?
    ensures e.Id() in AfterAddText(c.eng, cat, text) && e.Id() !in cat
  {
    hide EdgesMatch, NamesOf, ClassEnd, ClassOf, Families;
    FirstEdgeIs(c.edges, ClassOf(text), NamesOf(text));
    FamiliesAre(c.eng, ClassOf(text), NamesOf(text));
    assert e.Id() in c.eng.family(Key(ClassOf(text), e.name));
  }

  lemma ResumedStep(c: Context, st: State, rt: State, text: string, left: set<Key>, early: bool, before: bool)
    requires RebuildLaws.Reflexive(c.eng) && EdgesMatch(c.edges) && c.present.None?
    requires InStep(st, rt, left, before) && !Step(c, st, text).hard && !Shadowed(c, st, text, left)
    requires (early ==> before) && (before && !early ==> left == st.cat)
    requires if early then Step(c, st, text).cat <= left else left <= st.cat
    ensures InStep(Step(c, st, text), Step(c.(present := Some(left)), rt, text), left, early)
  {
    hide NamesOf, FirstEdge, ClassOf, Families;
    var cr := c.(present := Some(left));
    assert EdgeOf(cr, text) == EdgeOf(c, text);
    match EdgeOf(c, text)
    case None =>
    case Some(e) =>
      if e.Id() !in st.processed && Open(c, st, e) && JudgeAdd(c.eng, st.cat, text).Accept? {
        AcceptedIsHeld(c, st.cat, text, e);
      }
  }

  lemma RunStep(c: Context, st: State, texts: seq<string>, m: nat)
    requires m < |texts|
    ensures Run(c, st, texts[..m + 1]) == Step(c, Run(c, st, texts[..m]), texts[m])
  {
    hide Step;
    assert texts[..m + 1][..m] == texts[..m];
  }

  lemma {:induction false} Between(c: Context, st: State, texts: seq<string>, i: nat, j: nat)
    requires i <= j <= |texts|
    ensures Run(c, st, texts[..i]).cat <= Run(c, st, texts[..j]).cat
    ensures Run(c, st, texts[..i]).hard ==> Run(c, st, texts[..j]).hard
  {
    hide Run;
    var a, b := texts[..i], texts[i..j];
    assert a + b == texts[..j];
    RunConcat(c, st, a, b);
    RunGrows(c, Run(c, st, a), b);
    if Run(c, st, a).hard {
      HardStays(c, Run(c, st, a), b);
    }
  }

  lemma {:induction false} ResumedRun(c: Context, cat: set<Key>, texts: seq<string>, k: nat, n: nat)
    requires RebuildLaws.Reflexive(c.eng) && EdgesMatch(c.edges) && c.present.None?
    requires k <= |texts| && n <= |texts| && !Run(c, Start(cat), texts).hard
    requires !ShadowedIn(c, cat, texts, Run(c, Start(cat), texts[..k]).cat, n)
    ensures var left := Run(c, Start(cat), texts[..k]).cat;
      InStep(Run(c, Start(cat), texts[..n]), Run(c.(present := Some(left)), Start(left), texts[..n]), left, n <= k)
    decreases n
  {
    hide EdgeOf, Schema.FkEdge.Id, Visit, Open, JudgeAdd;
    var left := Run(c, Start(cat), texts[..k]).cat;
    Between(c, Start(cat), texts, 0, k);
    if n > 0 {
      var m := n - 1;
      ResumedRun(c, cat, texts, k, m);
      assert texts[..|texts|] == texts;
      Between(c, Start(cat), texts, n, |texts|);
      if n <= k { Between(c, Start(cat), texts, n, k); } else { Between(c, Start(cat), texts, k, m); }
      RunStep(c, Start(cat), texts, m);
      RunStep(c.(present := Some(left)), Start(left), texts, m);
      ResumedStep(c, Run(c, Start(cat), texts[..m]), Run(c.(present := Some(left)), Start(left), texts[..m]), texts[m],
                  left, n <= k, m <= k);
    }
  }

  lemma {:induction false} FirstShadowed(c: Context, cat: set<Key>, texts: seq<string>, left: set<Key>, n: nat) returns (j: nat)
    requires n <= |texts| && ShadowedIn(c, cat, texts, left, n)
    ensures j < n && !ShadowedIn(c, cat, texts, left, j) && ShadowedAt(c, cat, texts, left, j)
  {
    hide ShadowedAt;
    j := n - 1;
    if ShadowedIn(c, cat, texts, left, j) {
      j := FirstShadowed(c, cat, texts, left, j);
    }
  }

  lemma VisitKeepsRecords(c: Context, st: State, e: FkEdge, text: string)
    ensures var st' := Visit(c, st, e, text);
      st.sum.defined <= st'.sum.defined && st.sum.withheld <= st'.sum.withheld && st.processed <= st'.processed
  {
    hide JudgeAdd, AfterAddText, Validated, Schema.FkEdge.Id;
  }

  lemma StepKeepsRecords(c: Context, st: State, text: string)
    ensures st.sum.defined <= Step(c, st, text).sum.defined && st.sum.withheld <= Step(c, st, text).sum.withheld
    ensures st.processed <= Step(c, st, text).processed
  {
    hide EdgeOf, Visit;
    var found := EdgeOf(c, text);
    if found.Some? {
      VisitKeepsRecords(c, st.(processed := st.processed + {found.value.Id()}), found.value, text);
    }
  }

  lemma {:induction false} RunKeepsRecords(c: Context, st: State, texts: seq<string>)
    ensures st.sum.defined <= Run(c, st, texts).sum.defined && st.sum.withheld <= Run(c, st, texts).sum.withheld
    ensures st.processed <= Run(c, st, texts).processed
  {
    hide Step;
    if texts != [] {
      RunKeepsRecords(c, st, texts[..|texts| - 1]);
      StepKeepsRecords(c, Run(c, st, texts[..|texts| - 1]), texts[|texts| - 1]);
    }
  }

  lemma ReconcileGrows(edges: seq<FkEdge>, st: State)
    ensures st.sum.withheld <= Reconcile(edges, st).sum.withheld
  {
  }

  /** After a shadowed statement the uninterrupted run has the edge withheld, the resumed
      one has it defined. */
  lemma ShadowedSplits(c: Context, cat: set<Key>, texts: seq<string>, k: nat, left: set<Key>) returns (id: Key)
    requires RebuildLaws.Reflexive(c.eng) && EdgesMatch(c.edges) && c.present.None?
    requires k <= |texts| && !Run(c, Start(cat), texts).hard && left == Run(c, Start(cat), texts[..k]).cat
    requires ShadowedIn(c, cat, texts, left, |texts|)
    ensures id in WithheldIds(Run(c, Start(cat), texts).sum.withheld) && id in Run(c, Start(cat), texts).processed
    ensures id in DefinedIds(Run(c.(present := Some(left)), Start(left), texts).sum.defined)
  {
    hide Run, Step, ShadowedIn, Shadowed, EdgesMatch, WithheldIds, DefinedIds, RebuildLaws.Reflexive, Start,
         FkDefine.EdgeRef.Id;
    var cr := c.(present := Some(left));
    var j := FirstShadowed(c, cat, texts, left, |texts|);
    ResumedRun(c, cat, texts, k, j);
    RunStep(c, Start(cat), texts, j);
    RunStep(cr, Start(left), texts, j);
    assert texts[..|texts|] == texts && texts[..j + 1] + texts[j + 1..] == texts;
    Between(c, Start(cat), texts, j + 1, |texts|);
    var st, rt := Run(c, Start(cat), texts[..j + 1]), Run(cr, Start(left), texts[..j + 1]);
    id := StepSplits(c, Run(c, Start(cat), texts[..j]), Run(cr, Start(left), texts[..j]), texts[j], left);
    RunConcat(c, Start(cat), texts[..j + 1], texts[j + 1..]);
    RunConcat(cr, Start(left), texts[..j + 1], texts[j + 1..]);
    RunKeepsRecords(c, st, texts[j + 1..]);
    RunKeepsRecords(cr, rt, texts[j + 1..]);
    LastWithheld(st.sum.withheld, Run(c, Start(cat), texts).sum.withheld);
    LastDefined(rt.sum.defined, Run(cr, Start(left), texts).sum.defined);
  }

  lemma StepSplits(c: Context, st: State, rt: State, text: string, left: set<Key>) returns (id: Key)
    requires Same(st, rt) && Shadowed(c, st, text, left) && c.present.None? && !Step(c, st, text).hard
    ensures var st', rt' := Step(c, st, text), Step(c.(present := Some(left)), rt, text);
      && st'.sum.withheld != [] && st'.sum.withheld[|st'.sum.withheld| - 1].edge.Id() == id && id in st'.processed
      && rt'.sum.defined != [] && rt'.sum.defined[|rt'.sum.defined| - 1].Id() == id
  {
    hide Rebuild.WithheldFk.Id, FirstEdge, ClassOf, NamesOf, Judge, AfterAddText, Validated;
    id := EdgeOf(c, text).value.Id();
    assert EdgeOf(c.(present := Some(left)), text) == EdgeOf(c, text);
  }

  lemma LastWithheld(s: seq<Withheld>, t: seq<Withheld>)
    requires s != [] && s <= t
    ensures s[|s| - 1].edge.Id() in WithheldIds(t)
  {
    assert WithheldIds(t)[|s| - 1] == s[|s| - 1].edge.Id();
  }

  lemma LastDefined(s: seq<EdgeRef>, t: seq<EdgeRef>)
    requires s != [] && s <= t
    ensures s[|s| - 1].Id() in DefinedIds(t)
  {
    assert DefinedIds(t)[|s| - 1] == s[|s| - 1].Id();
  }

  /** An FK define interrupted anywhere and re-entered under its guard defines and withholds
      what the uninterrupted one does, unless a rejected edge is there anyway, and exactly
      then not. */
  lemma ResumedDefine(eng: Engine, g: Graph, rebuilt: Rebuild.Summary, keepGoing: bool, cat: set<Key>,
                      texts: seq<string>, k: nat)
    requires RebuildLaws.Reflexive(eng) && k <= |texts|
    requires !Phase(eng, g, rebuilt, keepGoing, None, cat, texts).hard
    ensures var c := ContextOf(eng, g, rebuilt, keepGoing, None);
      var left := Run(c, Start(cat), texts[..k]).cat;
      var whole, resumed := Phase(eng, g, rebuilt, keepGoing, None, cat, texts), Phase(eng, g, rebuilt, keepGoing, Some(left), left, texts);
      && (!AnyShadowed(c, cat, texts, left) ==> resumed.cat == whole.cat)
      && (resumed.sum == whole.sum && !resumed.hard <==> !AnyShadowed(c, cat, texts, left))
  {
    hide Run, RebuildLaws.Reflexive, FkDefine.EdgeRef.Id;
    var c := ContextOf(eng, g, rebuilt, keepGoing, None);
    var left := Run(c, Start(cat), texts[..k]).cat;
    var cr := ContextOf(eng, g, rebuilt, keepGoing, Some(left));
    forall x ensures x in c.edges ==> c.edges[x].Id() == x { EdgeMapIs(g.fkEdges, x); }
    var st, rt := Run(c, Start(cat), texts), Run(cr, Start(left), texts);
    assert texts[..|texts|] == texts;
    ReconcileKeeps(g.fkEdges, st);
    ReconcileKeeps(g.fkEdges, rt);
    if AnyShadowed(c, cat, texts, left) {
      var id := ShadowedSplits(c, cat, texts, k, left);
      RunConserves(c, cat, texts);
      ReconcileRecords(g.fkEdges, st);
      UnprocessedCount(g.fkEdges, st.processed, id);
      assert Recorded(Reconcile(g.fkEdges, st).sum)[id] == 1;
      ReconcileGrows(g.fkEdges, st);
      var w := Reconcile(g.fkEdges, st).sum.withheld;
      assert WithheldIds(st.sum.withheld) <= WithheldIds(w);
      assert id in multiset(WithheldIds(w));
    } else {
      ResumedRun(c, cat, texts, k, |texts|);
      ReconcileSame(g.fkEdges, st, rt);
      if |texts| <= k { assert texts[..k] == texts; }
    }
  }

  lemma ReconcileSame(edges: seq<FkEdge>, st: State, rt: State)
    requires Same(st, rt)
    ensures Reconcile(edges, st).sum == Reconcile(edges, rt).sum
  {
    hide RefOf;
  }

  /** A shadowed statement leaves its edge withheld by the uninterrupted run. */
  lemma ShadowedIsWithheld(eng: Engine, g: Graph, rebuilt: Rebuild.Summary, keepGoing: bool, cat: set<Key>,
                           texts: seq<string>, k: nat)
    requires RebuildLaws.Reflexive(eng) && k <= |texts| && !Phase(eng, g, rebuilt, keepGoing, None, cat, texts).hard
    requires var c := ContextOf(eng, g, rebuilt, keepGoing, None);
      AnyShadowed(c, cat, texts, Run(c, Start(cat), texts[..k]).cat)
    ensures Phase(eng, g, rebuilt, keepGoing, None, cat, texts).sum.withheld != []
  {
    hide Run, ShadowedIn, Reconcile, WithheldReasons;
    var c := ContextOf(eng, g, rebuilt, keepGoing, None);
    forall x ensures x in c.edges ==> c.edges[x].Id() == x { EdgeMapIs(g.fkEdges, x); }
    var st := Run(c, Start(cat), texts);
    ReconcileKeeps(g.fkEdges, st);
    var id := ShadowedSplits(c, cat, texts, k, Run(c, Start(cat), texts[..k]).cat);
    ReconcileGrows(g.fkEdges, st);
  }

  /** Entered again with nothing or everything done. */
  lemma ReenteredDefine(eng: Engine, g: Graph, rebuilt: Rebuild.Summary, keepGoing: bool, base: set<Key>, texts: seq<string>,
                        left: set<Key>)
    requires RebuildLaws.Reflexive(eng) && !Phase(eng, g, rebuilt, keepGoing, None, base, texts).hard
    requires left == base || left == Phase(eng, g, rebuilt, keepGoing, None, base, texts).cat
    ensures var c := ContextOf(eng, g, rebuilt, keepGoing, None);
      var whole, resumed := Phase(eng, g, rebuilt, keepGoing, None, base, texts), Phase(eng, g, rebuilt, keepGoing, Some(left), left, texts);
      && (resumed.sum == whole.sum && !resumed.hard <==> !AnyShadowed(c, base, texts, left))
      && (!AnyShadowed(c, base, texts, left) ==> resumed.cat == whole.cat)
      && (AnyShadowed(c, base, texts, left) ==> whole.sum.withheld != [])
  {
    hide AnyShadowed, ContextOf, RebuildLaws.Reflexive, Reconcile, Step;
    var c := ContextOf(eng, g, rebuilt, keepGoing, None);
    var k := if left == base then 0 else |texts|;
    assert texts[..0] == [] && texts[..|texts|] == texts;
    ReconcileKeeps(g.fkEdges, Run(c, Start(base), texts));
    ResumedDefine(eng, g, rebuilt, keepGoing, base, texts, k);
    if AnyShadowed(c, base, texts, left) { ShadowedIsWithheld(eng, g, rebuilt, keepGoing, base, texts, k); }
  }

  // ----- what any phase leaves, guarded or not -----

  /** Every foreign key recorded as defined is there. */
  ghost predicate DefinedIn(sum: Summary, cat: set<Key>) { forall d :: d in sum.defined ==> d.Id() in cat }

  /** The guard was read from this catalog, or an earlier one. */
  predicate GuardIn(c: Context, cat: set<Key>) { c.present.Some? ==> c.present.value <= cat }

  lemma StepHoldsDefined(c: Context, st: State, text: string)
    requires RebuildLaws.Reflexive(c.eng) && EdgesMatch(c.edges) && GuardIn(c, st.cat) && DefinedIn(st.sum, st.cat)
    ensures DefinedIn(Step(c, st, text).sum, Step(c, st, text).cat)
  {
    hide RebuildLaws.Reflexive, JudgeAdd, DdlText.ClassOf, DdlText.NamesOf, FirstEdge, Judge;
    var found := EdgeOf(c, text);
    if found.Some? && JudgeAdd(c.eng, st.cat, text).Accept? {
      AcceptedIsHeld(c, st.cat, text, found.value);
    }
  }

  lemma {:induction false} RunHoldsDefined(c: Context, cat: set<Key>, texts: seq<string>)
    requires RebuildLaws.Reflexive(c.eng) && EdgesMatch(c.edges) && GuardIn(c, cat)
    ensures DefinedIn(Run(c, Start(cat), texts).sum, Run(c, Start(cat), texts).cat)
  {
    hide Step;
    if texts != [] {
      var init := texts[..|texts| - 1];
      RunHoldsDefined(c, cat, init);
      RunGrows(c, Start(cat), init);
      StepHoldsDefined(c, Run(c, Start(cat), init), texts[|texts| - 1]);
    }
  }

  /** Whatever record the rebuild left: nothing is taken away, and what is recorded as defined is there. */
  lemma PhaseHolds(eng: Engine, g: Graph, rebuilt: Rebuild.Summary, keepGoing: bool, guard: Option<set<Key>>, cat: set<Key>,
                   texts: seq<string>)
    requires RebuildLaws.Reflexive(eng) && (guard.None? || guard == Some(cat))
    ensures var st := Phase(eng, g, rebuilt, keepGoing, guard, cat, texts);
      cat <= st.cat && DefinedIn(st.sum, st.cat)
  {
    hide Run, Reconcile, RebuildLaws.Reflexive;
    var c := ContextOf(eng, g, rebuilt, keepGoing, guard);
    forall x ensures x in c.edges ==> c.edges[x].Id() == x { EdgeMapIs(g.fkEdges, x); }
    RunGrows(c, Start(cat), texts);
    RunHoldsDefined(c, cat, texts);
    ReconcileKeeps(g.fkEdges, Run(c, Start(cat), texts));
  }

  // ----- a guard that finds nothing -----

  lemma IdleStep(c: Context, left: set<Key>, st: State, text: string)
    requires c.present.None? && EdgesMatch(c.edges) && forall k :: k in c.edges ==> k !in left
    ensures Step(c.(present := Some(left)), st, text) == Step(c, st, text)
  {
    hide JudgeAdd, AfterAddText, Withhold, Define, Validated, FirstEdge, EdgesMatch, ClassOf, NamesOf;
    assert EdgeOf(c.(present := Some(left)), text) == EdgeOf(c, text);
    FirstEdgeIs(c.edges, ClassOf(text), NamesOf(text));
  }

  lemma {:induction false} IdleRun(c: Context, left: set<Key>, st: State, texts: seq<string>)
    requires c.present.None? && EdgesMatch(c.edges) && forall k :: k in c.edges ==> k !in left
    ensures Run(c.(present := Some(left)), st, texts) == Run(c, st, texts)
  {
    hide Step, EdgesMatch;
    if texts != [] {
      IdleRun(c, left, st, texts[..|texts| - 1]);
      IdleStep(c, left, Run(c, st, texts[..|texts| - 1]), texts[|texts| - 1]);
    }
  }

  /** Where no edge of the graph is in place the guard changes nothing. */
  lemma GuardIdle(eng: Engine, g: Graph, rebuilt: Rebuild.Summary, keepGoing: bool, cat: set<Key>, texts: seq<string>)
    requires forall e :: e in g.fkEdges ==> e.Id() !in cat
    ensures Phase(eng, g, rebuilt, keepGoing, Some(cat), cat, texts) == Phase(eng, g, rebuilt, keepGoing, None, cat, texts)
  {
    hide Run, Reconcile, WithheldReasons, Schema.FkEdge.Id, Start;
    var c := ContextOf(eng, g, rebuilt, keepGoing, None);
    forall k ensures k in c.edges ==> c.edges[k].Id() == k && c.edges[k] in g.fkEdges { EdgeMapIs(g.fkEdges, k); }
    IdleRun(c, cat, Start(cat), texts);
  }

  // ----- a guard in general -----

  /** The statement is for an edge the guard finds in place. */
  predicate Placed(c: Context, left: set<Key>, text: string) {
    match EdgeOf(c, text)
    case None => false
    case Some(e) => e.Id() in left
  }

  /** The statements for edges not yet in place. */
  function Unplaced(c: Context, left: set<Key>, texts: seq<string>): seq<string> {
    if texts == [] then []
    else
      var init, last := texts[..|texts| - 1], texts[|texts| - 1];
      Unplaced(c, left, init) + if Placed(c, left, last) then [] else [last]
  }

  /** A guarded run and one over the statements it does not skip. */
  ghost predicate Alike(left: set<Key>, gt: State, pt: State) {
    && gt.cat == pt.cat && gt.hard == pt.hard && gt.stop == pt.stop
    && forall k :: k !in left ==> (k in gt.processed <==> k in pt.processed)
  }

  lemma SkipStep(c: Context, left: set<Key>, gt: State, pt: State, text: string)
    requires c.present.None? && Alike(left, gt, pt)
    ensures Alike(left, Step(c.(present := Some(left)), gt, text), if Placed(c, left, text) then pt else Step(c, pt, text))
  {
    hide JudgeAdd, AfterAddText, Validated, FirstEdge, ClassOf, NamesOf;
    assert EdgeOf(c.(present := Some(left)), text) == EdgeOf(c, text);
  }

  lemma {:induction false} GuardSkips(c: Context, left: set<Key>, cat: set<Key>, texts: seq<string>)
    requires c.present.None?
    ensures Alike(left, Run(c.(present := Some(left)), Start(cat), texts), Run(c, Start(cat), Unplaced(c, left, texts)))
  {
    hide Step, Alike, Placed;
    if texts == [] {
      SkipStart(left, cat);
    } else {
      var init, last := texts[..|texts| - 1], texts[|texts| - 1];
      GuardSkips(c, left, cat, init);
      SkipStep(c, left, Run(c.(present := Some(left)), Start(cat), init), Run(c, Start(cat), Unplaced(c, left, init)), last);
      var rest := Unplaced(c, left, init);
      assert (rest + [last])[..|rest|] == rest && rest + [] == rest;
    }
  }

  lemma SkipStart(left: set<Key>, cat: set<Key>)
    ensures Alike(left, Start(cat), Start(cat))
  {
  }

  /** A phase entered again fails exactly when the statements whose edges are not in place fail by themselves. */
  lemma FailsAgainIff(eng: Engine, g: Graph, rebuilt: Rebuild.Summary, keepGoing: bool, left: set<Key>, cat: set<Key>,
                      texts: seq<string>)
    ensures var c := ContextOf(eng, g, rebuilt, keepGoing, None);
      Phase(eng, g, rebuilt, keepGoing, Some(left), cat, texts).hard
      <==> Phase(eng, g, rebuilt, keepGoing, None, cat, Unplaced(c, left, texts)).hard
  {
    hide Run, Reconcile, WithheldReasons, Unplaced, EdgeMap;
    var c := ContextOf(eng, g, rebuilt, keepGoing, None);
    GuardSkips(c, left, cat, texts);
    ReconcileKeeps(g.fkEdges, Run(c.(present := Some(left)), Start(cat), texts));
    ReconcileKeeps(g.fkEdges, Run(c, Start(cat), Unplaced(c, left, texts)));
  }

  lemma RunNothing(c: Context, st: State)
    ensures Run(c, st, []) == st
  {
    hide Step;
  }

  lemma OneIsPlaced(c: Context, left: set<Key>, text: string)
    requires EdgeOf(c, text).Some? && EdgeOf(c, text).value.Id() in left
    ensures Unplaced(c, left, [text]) == []
  {
    hide EdgeOf;
    assert [text][..0] == [] && Unplaced(c, left, []) == [];
  }

  lemma PlacedIsRefused(c: Context, cat: set<Key>, text: string, e: FkEdge)
    requires RebuildLaws.Reflexive(c.eng) && EdgesMatch(c.edges) && EdgeOf(c, text) == Some(e)
    requires e.Id() in cat && c.eng.verdict(text).Accept?
    ensures JudgeAdd(c.eng, cat, text) == Refuse(ALREADY_EXISTS)
  {
    hide EdgeOf, EdgesMatch, AfterAddText, AnyPresent, NamesOf, ClassOf;
    if JudgeAdd(c.eng, cat, text).Accept? { AcceptedIsHeld(c, cat, text, e); }
  }

  /** So a phase that fails on an edge the rebuild left in place passes when it is entered again. */
  lemma PlacedEdgePasses(eng: Engine, g: Graph, rebuilt: Rebuild.Summary, keepGoing: bool, cat: set<Key>, text: string, e: FkEdge)
    requires RebuildLaws.Reflexive(eng) && e.Id() in cat && eng.verdict(text).Accept?
    requires EdgeOf(ContextOf(eng, g, rebuilt, keepGoing, None), text) == Some(e) && rebuilt.withheld == []
    ensures Phase(eng, g, rebuilt, keepGoing, None, cat, [text]).hard
    ensures !Phase(eng, g, rebuilt, keepGoing, Some(cat), cat, [text]).hard
  {
    hide Reconcile, EdgeOf, Run, JudgeAdd, AfterAddText, Validated, Placed, Rebuild.WithheldFk.Id;
    var c := ContextOf(eng, g, rebuilt, keepGoing, None);
    forall k ensures k in c.edges ==> c.edges[k].Id() == k { EdgeMapIs(g.fkEdges, k); }
    FailsAgainIff(eng, g, rebuilt, keepGoing, cat, cat, [text]);
    RunStep(c, Start(cat), [text], 0);
    assert [text][..0] == [] && [text][..1] == [text];
    PlacedIsRefused(c, cat, text, e);
    RunNothing(c, Start(cat));
    ReconcileKeeps(g.fkEdges, Run(c, Start(cat), [text]));
    ReconcileKeeps(g.fkEdges, Run(c, Start(cat), []));
    OneIsPlaced(c, cat, text);
  }
}
