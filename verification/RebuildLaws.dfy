/** What the rebuild phase guarantees: nothing stripped is lost, a missing key withholds
    every foreign key its class parents, and an interrupted rebuild re-run under its guard
    leaves the same catalog, and the same record exactly when no failed statement names
    only constraints that are there anyway. */
module RebuildLaws {
  import opened Schema
  import opened Engine
  import opened Ordering
  import opened DdlText
  import opened Rebuild

  ghost predicate Reflexive(eng: Engine) { forall k :: k in eng.family(k) }

  ghost predicate KeysMatch(keys: map<Key, Stripped>) { forall k :: k in keys ==> keys[k].key == k }

  lemma KeyMapIs(stripped: seq<Stripped>)
    ensures KeysMatch(KeyMap(stripped))
    ensures forall k :: k in KeyMap(stripped) <==> exists x :: x in stripped && !x.kind.ForeignKey? && x.key == k
    ensures forall k :: k in KeyMap(stripped) ==> KeyMap(stripped)[k] in stripped && !KeyMap(stripped)[k].kind.ForeignKey?
  {
    if stripped != [] {
      assert stripped == stripped[..|stripped| - 1] + [stripped[|stripped| - 1]];
    }
  }

  lemma KeyOrderIs(stripped: seq<Stripped>, k: Key)
    ensures multiset(KeyOrder(stripped))[k] == if k in KeyMap(stripped) then 1 else 0
  {
    if stripped != [] {
      KeyOrderIs(stripped[..|stripped| - 1], k);
      KeyOrderIs(stripped[..|stripped| - 1], stripped[|stripped| - 1].key);
      assert multiset(KeyOrder(stripped[..|stripped| - 1]))[stripped[|stripped| - 1].key] > 0 <==>
        stripped[|stripped| - 1].key in KeyOrder(stripped[..|stripped| - 1]);
    }
  }

  lemma TargetsAre(keys: map<Key, Stripped>, cls: string, names: seq<string>, t: Stripped)
    requires KeysMatch(keys)
    ensures t in Targets(keys, cls, names) <==>
      t.key in keys && keys[t.key] == t && t.key.cls == cls && t.key.name in names
  {
    if names != [] {
      assert names == names[..|names| - 1] + [names[|names| - 1]];
    }
  }

  // ----- conservation -----

  function Whats(pending: seq<Pending>): seq<Stripped> {
    seq(|pending|, i requires 0 <= i < |pending| => pending[i].what)
  }

  function Recorded(sum: Summary): multiset<Stripped> {
    multiset(sum.rebuilt) + multiset(Whats(sum.pending))
  }

  lemma FailRecords(edges: seq<FkEdge>, what: Stripped, reason: string, readd: string, st: State)
    ensures var st' := Fail(edges, what, reason, readd, st);
      && st'.sum.rebuilt == st.sum.rebuilt && Whats(st'.sum.pending) == Whats(st.sum.pending) + [what]
      && st'.sum.indexes == st.sum.indexes && st'.cat == st.cat
  {
    hide Withhold;
    WithholdKeeps(edges, what.key, st.(sum := st.sum.(pending := st.sum.pending + [Pending(what, reason, readd)])));
  }

  lemma FailAllRecords(edges: seq<FkEdge>, targets: seq<Stripped>, reason: string, readd: string, st: State)
    ensures var st' := FailAll(edges, targets, reason, readd, st);
      && st'.sum.rebuilt == st.sum.rebuilt && Whats(st'.sum.pending) == Whats(st.sum.pending) + targets
      && st'.sum.indexes == st.sum.indexes && st'.cat == st.cat
  {
    hide Whats, Fail;
    if targets != [] {
      FailAllRecords(edges, targets[..|targets| - 1], reason, readd, st);
      FailRecords(edges, targets[|targets| - 1], reason, readd, FailAll(edges, targets[..|targets| - 1], reason, readd, st));
      assert targets == targets[..|targets| - 1] + [targets[|targets| - 1]];
    } else {
      assert Whats(st.sum.pending) + targets == Whats(st.sum.pending);
    }
  }

  /** The keys the statements resolve to, one entry per match. */
  function Matched(c: Context, ops: seq<Op>): seq<Stripped> {
    if ops == [] then []
    else Matched(c, ops[..|ops| - 1]) + if ops[|ops| - 1].KeyOp? then TargetsOf(c, ops[|ops| - 1].text) else []
  }

  lemma KeyStepRecords(c: Context, st: State, text: string)
    ensures Recorded(KeyStep(c, st, text).sum) == Recorded(st.sum) + multiset(TargetsOf(c, text))
  {
    hide TargetsOf, FailAll, Whats, ErrorText, ClassOf, NamesOf;
    var targets := TargetsOf(c, text);
    FailAllRecords(c.edges, targets, ErrorText(JudgeAdd(c.eng, st.cat, text)), text + ";", st);
    assert multiset(Whats(st.sum.pending) + targets) == multiset(Whats(st.sum.pending)) + multiset(targets);
    assert multiset(st.sum.rebuilt + targets) == multiset(st.sum.rebuilt) + multiset(targets);
  }

  lemma {:induction false} RunRecords(c: Context, cat: set<Key>, ops: seq<Op>)
    ensures Recorded(Run(c, Start(cat), ops).sum) == multiset(Matched(c, ops))
  {
    hide KeyStep, TargetsOf, IsCreate;
    if ops != [] {
      var init, op := ops[..|ops| - 1], ops[|ops| - 1];
      RunRecords(c, cat, init);
      if op.KeyOp? {
        KeyStepRecords(c, Run(c, Start(cat), init), op.text);
      }
    }
  }

  /** The stripped keys no statement matched, in reconciliation order. */
  function Unmatched(c: Context, order: seq<Key>, accounted: set<Key>): seq<Stripped> {
    if order == [] then []
    else
      var k := order[|order| - 1];
      Unmatched(c, order[..|order| - 1], accounted) + if k in accounted || k !in c.keys then [] else [c.keys[k]]
  }

  lemma {:induction false} ReconcileRecords(c: Context, order: seq<Key>, accounted: set<Key>, st: State)
    ensures var st' := Reconcile(c, order, accounted, st);
      && st'.cat == st.cat && st'.sum.rebuilt == st.sum.rebuilt && st'.sum.indexes == st.sum.indexes
      && Whats(st'.sum.pending) == Whats(st.sum.pending) + Unmatched(c, order, accounted)
  {
    hide Whats, Fail;
    if order == [] {
      assert Whats(st.sum.pending) + [] == Whats(st.sum.pending);
    } else {
      var init, k := order[..|order| - 1], order[|order| - 1];
      ReconcileRecords(c, init, accounted, st);
      var mid := Reconcile(c, init, accounted, st);
      if k !in accounted && k in c.keys {
        FailRecords(c.edges, c.keys[k], UNMATCHED, "", mid);
      }
    }
  }

  /** Exact account of the record: each match once, each unmatched key once. */
  lemma RebuildAccount(eng: Engine, g: Graph, stripped: seq<Stripped>, present: Option<set<Key>>, cat: set<Key>, ops: seq<Op>)
    ensures var c := ContextOf(eng, g, stripped, present);
      var st := Run(c, Start(cat), ops);
      Recorded(Phase(eng, g, stripped, present, cat, ops).sum)
        == multiset(Matched(c, ops)) + multiset(Unmatched(c, KeyOrder(stripped), Accounted(st.sum)))
  {
    hide Run, Matched, Reconcile, Whats, ContextOf, Unmatched, KeyOrder, Accounted;
    var c := ContextOf(eng, g, stripped, present);
    var st := Run(c, Start(cat), ops);
    RunRecords(c, cat, ops);
    ReconcileRecords(c, KeyOrder(stripped), Accounted(st.sum), st);
    assert multiset(Whats(st.sum.pending) + Unmatched(c, KeyOrder(stripped), Accounted(st.sum)))
        == multiset(Whats(st.sum.pending)) + multiset(Unmatched(c, KeyOrder(stripped), Accounted(st.sum)));
  }

  lemma UnmatchedCount(c: Context, order: seq<Key>, accounted: set<Key>, x: Stripped)
    requires KeysMatch(c.keys)
    ensures multiset(Unmatched(c, order, accounted))[x] ==
      if x.key in c.keys && c.keys[x.key] == x && x.key !in accounted then multiset(order)[x.key] else 0
  {
    if order != [] {
      assert order == order[..|order| - 1] + [order[|order| - 1]];
    }
  }

  lemma AccountedIsRecorded(sum: Summary, k: Key)
    ensures k in Accounted(sum) <==> exists x: Stripped :: x.key == k && x in Recorded(sum)
  {
    if k in Accounted(sum) {
      if x :| x in sum.rebuilt && x.key == k {
        assert x in Recorded(sum);
      } else {
        var i :| 0 <= i < |sum.pending| && sum.pending[i].what.key == k;
        assert Whats(sum.pending)[i] == sum.pending[i].what;
        assert sum.pending[i].what in Recorded(sum);
      }
    }
    if x: Stripped :| x.key == k && x in Recorded(sum) {
      if x !in sum.rebuilt {
        var i :| 0 <= i < |Whats(sum.pending)| && Whats(sum.pending)[i] == x;
      }
    }
  }

  /** Every stripped key ends in `rebuilt` or `pending`; exactly once when the statements
      match it at most once. */
  lemma EveryKeyAccounted(eng: Engine, g: Graph, stripped: seq<Stripped>, present: Option<set<Key>>, cat: set<Key>, ops: seq<Op>, k: Key)
    requires k in KeyMap(stripped)
    ensures var sum := Phase(eng, g, stripped, present, cat, ops).sum;
      var matches := multiset(Matched(ContextOf(eng, g, stripped, present), ops))[KeyMap(stripped)[k]];
      Recorded(sum)[KeyMap(stripped)[k]] == if matches == 0 then 1 else matches
  {
    hide Recorded, Phase, Matched, Run, Start, KeysMatch, Unmatched, KeyOrder, Accounted;
    var c := ContextOf(eng, g, stripped, present);
    var st := Run(c, Start(cat), ops);
    var x := KeyMap(stripped)[k];
    KeyMapIs(stripped);
    RebuildAccount(eng, g, stripped, present, cat, ops);
    UnmatchedCount(c, KeyOrder(stripped), Accounted(st.sum), x);
    KeyOrderIs(stripped, k);
    AccountedIsRecorded(st.sum, k);
    RunRecords(c, cat, ops);
    forall y | y in Matched(c, ops) && y.key == k ensures y == x {
      MatchedAre(c, ops, y);
    }
  }

  lemma MatchedAre(c: Context, ops: seq<Op>, x: Stripped)
    requires KeysMatch(c.keys) && x in Matched(c, ops)
    ensures x.key in c.keys && c.keys[x.key] == x
  {
    hide ClassOf, NamesOf;
    var op := ops[|ops| - 1];
    if op.KeyOp? && x in TargetsOf(c, op.text) {
      TargetsAre(c.keys, ClassOf(op.text), NamesOf(op.text), x);
    } else {
      MatchedAre(c, ops[..|ops| - 1], x);
    }
  }

  // ----- the cascade onto foreign keys -----

  ghost predicate IsWithheld(sum: Summary, id: Key) { exists w :: w in sum.withheld && w.Id() == id }

  /** Every withheld identity has its record, and every pending key withholds the edges
      its class parents. */
  ghost predicate Cascaded(edges: seq<FkEdge>, st: State) {
    && (forall id :: id in st.already ==> IsWithheld(st.sum, id))
    && (forall p, e :: p in st.sum.pending && e in edges && e.parent == p.what.key.cls ==> e.Id() in st.already)
  }

  lemma WithholdCascades(edges: seq<FkEdge>, k: Key, st: State)
    requires forall id :: id in st.already ==> IsWithheld(st.sum, id)
    ensures var st' := Withhold(edges, k, st);
      && st.already <= st'.already
      && (forall id :: id in st'.already ==> IsWithheld(st'.sum, id))
      && (forall e :: e in edges && e.parent == k.cls ==> e.Id() in st'.already)
  {
    hide WithholdReason;
    if edges != [] {
      var init, e := edges[..|edges| - 1], edges[|edges| - 1];
      WithholdCascades(init, k, st);
      var mid, st' := Withhold(init, k, st), Withhold(edges, k, st);
      assert edges == init + [e];
      if mid.already != st'.already {
        var w := WithheldFk(e.child, e.parent, e.name, WithholdReason(k));
        assert st'.sum.withheld == mid.sum.withheld + [w] && w.Id() == e.Id();
        forall id | id in st'.already ensures IsWithheld(st'.sum, id) {
          if id != e.Id() {
            var v :| v in mid.sum.withheld && v.Id() == id;
          }
        }
      }
    }
  }

  lemma FailCascades(edges: seq<FkEdge>, what: Stripped, reason: string, readd: string, st: State)
    requires Cascaded(edges, st)
    ensures Cascaded(edges, Fail(edges, what, reason, readd, st))
  {
    hide Rebuild.WithheldFk.Id, Withhold, Schema.FkEdge.Id;
    var st1 := st.(sum := st.sum.(pending := st.sum.pending + [Pending(what, reason, readd)]));
    assert forall id :: id in st1.already ==> IsWithheld(st1.sum, id) by {
      forall id | id in st1.already ensures IsWithheld(st1.sum, id) {
        var w :| w in st.sum.withheld && w.Id() == id;
      }
    }
    WithholdCascades(edges, what.key, st1);
    WithholdKeeps(edges, what.key, st1);
  }

  lemma FailAllCascades(edges: seq<FkEdge>, targets: seq<Stripped>, reason: string, readd: string, st: State)
    requires Cascaded(edges, st)
    ensures Cascaded(edges, FailAll(edges, targets, reason, readd, st))
  {
    if targets != [] {
      FailAllCascades(edges, targets[..|targets| - 1], reason, readd, st);
      FailCascades(edges, targets[|targets| - 1], reason, readd, FailAll(edges, targets[..|targets| - 1], reason, readd, st));
    }
  }

  lemma StepCascades(c: Context, st: State, op: Op)
    requires Cascaded(c.edges, st)
    ensures Cascaded(c.edges, Step(c, st, op))
  {
    hide FailAll, TargetsOf, Judge, JudgeAdd;
    var st' := Step(c, st, op);
    if op.KeyOp? {
      FailAllCascades(c.edges, TargetsOf(c, op.text), ErrorText(JudgeAdd(c.eng, st.cat, op.text)), op.text + ";", st);
    }
    if st'.sum.withheld == st.sum.withheld && st'.already == st.already {
      forall id | id in st'.already ensures IsWithheld(st'.sum, id) {
        var w :| w in st.sum.withheld && w.Id() == id;
      }
    }
  }

  lemma {:induction false} RunCascades(c: Context, cat: set<Key>, ops: seq<Op>)
    ensures Cascaded(c.edges, Run(c, Start(cat), ops))
  {
    hide Step;
    if ops != [] {
      RunCascades(c, cat, ops[..|ops| - 1]);
      StepCascades(c, Run(c, Start(cat), ops[..|ops| - 1]), ops[|ops| - 1]);
    }
  }

  lemma {:induction false} ReconcileCascades(c: Context, order: seq<Key>, accounted: set<Key>, st: State)
    requires Cascaded(c.edges, st)
    ensures Cascaded(c.edges, Reconcile(c, order, accounted, st))
  {
    hide Cascaded, Fail;
    if order != [] {
      var init, k := order[..|order| - 1], order[|order| - 1];
      ReconcileCascades(c, init, accounted, st);
      if k !in accounted && k in c.keys {
        FailCascades(c.edges, c.keys[k], UNMATCHED, "", Reconcile(c, init, accounted, st));
      }
    }
  }

  // ----- what a failure is recorded with -----

  /** What the record says of a rejection. */
  predicate Said(eng: Engine, text: string, reason: string) {
    match eng.verdict(text)
    case Refuse(why) => reason == why
    case Accept => reason == ALREADY_EXISTS
    case FkInvalid(_) => reason == "rejected"
  }

  /** A pending key comes with the statement that failed and the server's reason. */
  ghost predicate FromStatement(c: Context, ops: seq<Op>, p: Pending) {
    exists text :: KeyOp(text) in ops && p.what in TargetsOf(c, text) && p.readd == text + ";" && Said(c.eng, text, p.reason)
  }

  /** One no statement resolves to comes with none. */
  ghost predicate FromNone(c: Context, ops: seq<Op>, p: Pending) {
    p.readd == "" && p.reason == UNMATCHED && forall text :: KeyOp(text) in ops ==> p.what !in TargetsOf(c, text)
  }

  ghost predicate FromIndex(c: Context, ops: seq<Op>, f: FailedIndex) {
    exists text :: IndexOp(text) in ops && IsCreate(text) && f.name == IndexName(text) && Said(c.eng, text, f.reason)
  }

  /** A withheld edge names a pending key of its parent. */
  ghost predicate FromKey(edges: seq<FkEdge>, pending: seq<Pending>, w: WithheldFk) {
    exists e, p :: e in edges && p in pending && e.parent == p.what.key.cls
                && w == WithheldFk(e.child, e.parent, e.name, WithholdReason(p.what.key))
  }

  /** What holds once the operations `ops` have been gone through. */
  ghost predicate Explained(c: Context, ops: seq<Op>, sum: Summary) {
    && (forall p :: p in sum.pending ==> FromStatement(c, ops, p))
    && (forall f :: f in sum.failedIndexes ==> FromIndex(c, ops, f))
    && (forall w :: w in sum.withheld ==> FromKey(c.edges, sum.pending, w))
  }

  lemma WithholdAdds(edges: seq<FkEdge>, k: Key, st: State, w: WithheldFk)
    requires w in Withhold(edges, k, st).sum.withheld && w !in st.sum.withheld
    ensures exists e :: e in edges && e.parent == k.cls && w == WithheldFk(e.child, e.parent, e.name, WithholdReason(k))
  {
    hide WithholdReason;
    var init := edges[..|edges| - 1];
    assert edges == init + [edges[|edges| - 1]];
    if w in Withhold(init, k, st).sum.withheld { WithholdAdds(init, k, st, w); }
  }

  lemma FailAdds(edges: seq<FkEdge>, what: Stripped, reason: string, readd: string, st: State)
    requires forall w :: w in st.sum.withheld ==> FromKey(edges, st.sum.pending, w)
    ensures var sum := Fail(edges, what, reason, readd, st).sum;
      && sum == st.sum.(pending := st.sum.pending + [Pending(what, reason, readd)], withheld := sum.withheld)
      && forall w :: w in sum.withheld ==> FromKey(edges, sum.pending, w)
  {
    hide Withhold, WithholdReason;
    var p := Pending(what, reason, readd);
    var st1 := st.(sum := st.sum.(pending := st.sum.pending + [p]));
    WithholdKeeps(edges, what.key, st1);
    forall w | w in Withhold(edges, what.key, st1).sum.withheld ensures FromKey(edges, st1.sum.pending, w) {
      if w in st.sum.withheld {
        assert FromKey(edges, st.sum.pending, w);
      } else {
        WithholdAdds(edges, what.key, st1, w);
        assert p in st1.sum.pending;
      }
    }
  }

  lemma {:induction false} FailAllAdds(edges: seq<FkEdge>, targets: seq<Stripped>, reason: string, readd: string, st: State)
    requires forall w :: w in st.sum.withheld ==> FromKey(edges, st.sum.pending, w)
    ensures var sum := FailAll(edges, targets, reason, readd, st).sum;
      && (forall p :: p in sum.pending ==> p in st.sum.pending || (p.what in targets && p.reason == reason && p.readd == readd))
      && sum.failedIndexes == st.sum.failedIndexes && forall w :: w in sum.withheld ==> FromKey(edges, sum.pending, w)
  {
    hide Fail, FromKey;
    if targets != [] {
      var init, last := targets[..|targets| - 1], targets[|targets| - 1];
      FailAllAdds(edges, init, reason, readd, st);
      FailAdds(edges, last, reason, readd, FailAll(edges, init, reason, readd, st));
    }
  }

  lemma SaidByJudge(eng: Engine, cat: set<Key>, cls: string, names: seq<string>, text: string)
    requires !Judge(eng, cat, cls, names, text).Accept?
    ensures Said(eng, text, ErrorText(Judge(eng, cat, cls, names, text)))
  {
  }

  lemma StepExplains(c: Context, ops: seq<Op>, st: State, op: Op)
    requires Explained(c, ops, st.sum)
    ensures Explained(c, ops + [op], Step(c, st, op).sum)
  {
    hide TargetsOf, FailAll, Judge, AfterAdd, FromKey, Said, ClassOf, NamesOf, IsCreate, ErrorText, IndexName;
    assert op in ops + [op];
    match op
    case KeyOp(text) =>
      if !JudgeAdd(c.eng, st.cat, text).Accept? {
        SaidByJudge(c.eng, st.cat, ClassOf(text), NamesOf(text), text);
        FailAllAdds(c.edges, TargetsOf(c, text), ErrorText(JudgeAdd(c.eng, st.cat, text)), text + ";", st);
      }
    case IndexOp(text) =>
      if !JudgeIndex(c.eng, st.cat, text).Accept? {
        SaidByJudge(c.eng, st.cat, IndexClass(text), [IndexName(text)], text);
      }
  }

  lemma {:induction false} RunExplains(c: Context, cat: set<Key>, ops: seq<Op>)
    ensures Explained(c, ops, Run(c, Start(cat), ops).sum)
  {
    hide Step, FromStatement, FromIndex, FromKey;
    if ops != [] {
      var init, op := ops[..|ops| - 1], ops[|ops| - 1];
      assert init + [op] == ops;
      RunExplains(c, cat, init);
      StepExplains(c, init, Run(c, Start(cat), init), op);
    }
  }

  /** What holds in the end. */
  ghost predicate AllExplained(c: Context, ops: seq<Op>, sum: Summary) {
    && (forall p :: p in sum.pending ==> FromStatement(c, ops, p) || FromNone(c, ops, p))
    && (forall f :: f in sum.failedIndexes ==> FromIndex(c, ops, f))
    && (forall w :: w in sum.withheld ==> FromKey(c.edges, sum.pending, w))
  }

  lemma {:induction false} ReconcileExplains(c: Context, ops: seq<Op>, order: seq<Key>, accounted: set<Key>, st: State)
    requires Explained(c, ops, st.sum)
    requires forall k, text :: k in c.keys && k !in accounted && KeyOp(text) in ops ==> c.keys[k] !in TargetsOf(c, text)
    ensures AllExplained(c, ops, Reconcile(c, order, accounted, st).sum)
  {
    hide Fail, FromStatement, FromIndex, FromKey, TargetsOf;
    if order != [] {
      var init, k := order[..|order| - 1], order[|order| - 1];
      ReconcileExplains(c, ops, init, accounted, st);
      if k !in accounted && k in c.keys { FailAdds(c.edges, c.keys[k], UNMATCHED, "", Reconcile(c, init, accounted, st)); }
    }
  }

  lemma InMatched(c: Context, ops: seq<Op>, text: string, x: Stripped)
    requires KeyOp(text) in ops && x in TargetsOf(c, text)
    ensures x in Matched(c, ops)
  {
    hide TargetsOf;
    if ops[|ops| - 1] != KeyOp(text) {
      assert ops == ops[..|ops| - 1] + [ops[|ops| - 1]];
      InMatched(c, ops[..|ops| - 1], text, x);
    }
  }

  /** Every pending key, failed index and withheld edge is recorded with its cause, and a key
      with the statement that would add it wherever the dump has one. */
  lemma FailuresAreExplained(eng: Engine, g: Graph, stripped: seq<Stripped>, present: Option<set<Key>>, cat: set<Key>, ops: seq<Op>)
    ensures AllExplained(ContextOf(eng, g, stripped, present), ops, Phase(eng, g, stripped, present, cat, ops).sum)
  {
    hide Run, Reconcile, Matched, TargetsOf, AllExplained, KeyMap, KeyOrder, Recorded, Accounted, Explained;
    var c := ContextOf(eng, g, stripped, present);
    var st := Run(c, Start(cat), ops);
    KeyMapIs(stripped);
    RunRecords(c, cat, ops);
    RunExplains(c, cat, ops);
    forall k, text | k in c.keys && k !in Accounted(st.sum) && KeyOp(text) in ops ensures c.keys[k] !in TargetsOf(c, text) {
      AccountedIsRecorded(st.sum, k);
      if c.keys[k] in TargetsOf(c, text) { InMatched(c, ops, text, c.keys[k]); }
    }
    ReconcileExplains(c, ops, KeyOrder(stripped), Accounted(st.sum), st);
  }

  // ----- what is recorded as rebuilt is there -----

  ghost predicate RebuiltHeld(st: State) { forall x :: x in st.sum.rebuilt ==> x.key in st.cat }

  lemma AcceptedTargetsHeld(c: Context, cat: set<Key>, text: string)
    requires Reflexive(c.eng) && KeysMatch(c.keys) && JudgeAdd(c.eng, cat, text).Accept?
    ensures AllPresent(AfterAddText(c.eng, cat, text), TargetsOf(c, text))
  {
    hide NamesOf, Judge, ClassEnd;
    forall t | t in TargetsOf(c, text) ensures t.key in AfterAddText(c.eng, cat, text) {
      TargetsAre(c.keys, ClassOf(text), NamesOf(text), t);
      FamiliesAre(c.eng, ClassOf(text), NamesOf(text));
      assert t.key in c.eng.family(Key(ClassOf(text), t.key.name));
    }
  }

  lemma StepHeld(c: Context, st: State, op: Op)
    requires Reflexive(c.eng) && KeysMatch(c.keys) && RebuiltHeld(st)
    requires c.present.Some? ==> c.present.value <= st.cat
    ensures RebuiltHeld(Step(c, st, op)) && st.cat <= Step(c, st, op).cat
  {
    hide FailAll, Reflexive, TargetsOf, ClassOf, KeysMatch, NamesOf, IsCreate;
    if op.KeyOp? {
      FailAllRecords(c.edges, TargetsOf(c, op.text), ErrorText(JudgeAdd(c.eng, st.cat, op.text)), op.text + ";", st);
      if JudgeAdd(c.eng, st.cat, op.text).Accept? {
        AcceptedTargetsHeld(c, st.cat, op.text);
      }
    }
  }

  lemma {:induction false} RunHeld(c: Context, cat: set<Key>, ops: seq<Op>)
    requires Reflexive(c.eng) && KeysMatch(c.keys)
    requires c.present.Some? ==> c.present.value <= cat
    ensures RebuiltHeld(Run(c, Start(cat), ops)) && cat <= Run(c, Start(cat), ops).cat
  {
    hide Step;
    if ops != [] {
      RunHeld(c, cat, ops[..|ops| - 1]);
      StepHeld(c, Run(c, Start(cat), ops[..|ops| - 1]), ops[|ops| - 1]);
    }
  }

  /** A stripped key is back in the catalog, or it is pending and every foreign key whose
      parent is its class is withheld. */
  lemma MissingKeyWithholdsChildren(eng: Engine, g: Graph, stripped: seq<Stripped>, present: Option<set<Key>>,
                                    cat: set<Key>, ops: seq<Op>, x: Stripped, e: FkEdge)
    requires Reflexive(eng) && (present.Some? ==> present.value <= cat)
    requires x in stripped && !x.kind.ForeignKey?
    ensures var st := Phase(eng, g, stripped, present, cat, ops);
      x.key !in st.cat ==>
        && (exists p :: p in st.sum.pending && p.what.key == x.key)
        && (e in g.fkEdges && e.parent == x.key.cls ==> IsWithheld(st.sum, e.Id()))
  {
    hide Run, Reconcile, Matched, IsWithheld, Accounted;
    var c := ContextOf(eng, g, stripped, present);
    var run := Run(c, Start(cat), ops);
    var st := Phase(eng, g, stripped, present, cat, ops);
    KeyMapIs(stripped);
    RunHeld(c, cat, ops);
    ReconcileRecords(c, KeyOrder(stripped), Accounted(run.sum), run);
    RunCascades(c, cat, ops);
    ReconcileCascades(c, KeyOrder(stripped), Accounted(run.sum), run);
    EveryKeyAccounted(eng, g, stripped, present, cat, ops, x.key);
    var y := KeyMap(stripped)[x.key];
    assert y in Recorded(st.sum);
    if y !in st.sum.rebuilt {
      var i :| 0 <= i < |st.sum.pending| && Whats(st.sum.pending)[i] == y;
      assert st.sum.pending[i].what == y;
    }
  }

  // ----- a resumed rebuild -----

  /** The constraints an operation is answerable for. */
  function Claims(c: Context, op: Op): seq<Key> {
    match op
    case KeyOp(text) => seq(|TargetsOf(c, text)|, i requires 0 <= i < |TargetsOf(c, text)| => TargetsOf(c, text)[i].key)
    case IndexOp(text) => if IsCreate(text) then [IndexKey(text)] else []
  }

  predicate Rejected(c: Context, cat: set<Key>, op: Op) {
    match op
    case KeyOp(text) => !JudgeAdd(c.eng, cat, text).Accept?
    case IndexOp(text) => !JudgeIndex(c.eng, cat, text).Accept?
  }

  /** A rejected operation all of whose constraints the interrupted run left in place: the
      guard takes it for done. */
  predicate Shadowed(c: Context, cat: set<Key>, op: Op, left: set<Key>) {
    Claims(c, op) != [] && Rejected(c, cat, op) && forall k :: k in Claims(c, op) ==> k in left
  }

  /** The state without the catalog. */
  function Record(st: State): State { st.(cat := {}) }

  function DoneCount(sum: Summary): nat { |sum.rebuilt| + |sum.indexes| }

  lemma ClaimsPresent(c: Context, text: string, left: set<Key>)
    ensures AllPresent(left, TargetsOf(c, text)) <==> forall k :: k in Claims(c, KeyOp(text)) ==> k in left
  {
    hide TargetsOf;
    var targets := TargetsOf(c, text);
    forall i | 0 <= i < |targets| ensures Claims(c, KeyOp(text))[i] == targets[i].key {}
  }

  /** One operation, in the uninterrupted run at `st` and in the resumed one at `rt`. The
      resumed catalog is either still what the interruption left, which already holds the
      operation's effect, or the uninterrupted run's own. */
  lemma ResumedStep(c: Context, st: State, rt: State, op: Op, left: set<Key>)
    requires Reflexive(c.eng) && KeysMatch(c.keys) && c.present.None?
    requires st.cat <= rt.cat && left <= rt.cat
    requires (rt.cat == left && Step(c, st, op).cat <= left) || rt.cat == st.cat
    ensures var st', rt' := Step(c, st, op), Step(c.(present := Some(left)), rt, op);
      && rt'.cat == (if Step(c, st, op).cat <= left then rt.cat else st'.cat)
      && (Shadowed(c, st.cat, op, left) || Record(st) != Record(rt) || Record(st') == Record(rt'))
      && DoneCount(rt'.sum) - DoneCount(rt.sum) >= DoneCount(st'.sum) - DoneCount(st.sum)
      && (Shadowed(c, st.cat, op, left) ==>
            DoneCount(rt'.sum) - DoneCount(rt.sum) > DoneCount(st'.sum) - DoneCount(st.sum))
  {
    hide KeysMatch, Targets, AfterAddText, ClassOf, NamesOf, Whats;
    match op
    case KeyOp(text) =>
      var targets, v := TargetsOf(c, text), JudgeAdd(c.eng, st.cat, text);
      ClaimsPresent(c, text, left);
      assert |Claims(c, op)| == |targets|;
      if v.Accept? {
        AcceptedTargetsHeld(c, st.cat, text);
        forall t | t in TargetsOf(c, text) ensures t.key !in st.cat {
          TargetsAre(c.keys, ClassOf(text), NamesOf(text), t);
        }
      } else {
        RejectedAgain(c, st.cat, rt.cat, op);
        FailAllRecords(c.edges, targets, ErrorText(v), text + ";", st);
        FailAllRecords(c.edges, targets, ErrorText(v), text + ";", rt);
        FailAllIgnoresCatalog(c.edges, targets, ErrorText(v), text + ";", st, rt);
      }
    case IndexOp(text) =>
      if JudgeIndex(c.eng, st.cat, text).Accept? {
        assert c.eng.family(IndexKey(text)) <= Families(c.eng, IndexClass(text), [IndexName(text)]);
      } else {
        RejectedAgain(c, st.cat, rt.cat, op);
      }
  }

  /** A rejection stands, with the same verdict, over any larger catalog. */
  lemma RejectedAgain(c: Context, cat: set<Key>, more: set<Key>, op: Op)
    requires cat <= more && Rejected(c, cat, op)
    ensures Rejected(c, more, op)
    ensures op.KeyOp? ==> JudgeAdd(c.eng, more, op.text) == JudgeAdd(c.eng, cat, op.text)
    ensures op.IndexOp? ==> JudgeIndex(c.eng, more, op.text) == JudgeIndex(c.eng, cat, op.text)
  {
    hide ClassOf, NamesOf, IndexClass;
  }

  lemma WithholdIgnoresCatalog(edges: seq<FkEdge>, k: Key, st: State, rt: State)
    requires Record(st) == Record(rt)
    ensures Record(Withhold(edges, k, st)) == Record(Withhold(edges, k, rt))
  {
    hide WithholdReason;
    assert Record(st).sum == Record(rt).sum && Record(st).already == Record(rt).already;
    if edges != [] {
      var s, r := Withhold(edges[..|edges| - 1], k, st), Withhold(edges[..|edges| - 1], k, rt);
      WithholdIgnoresCatalog(edges[..|edges| - 1], k, st, rt);
      assert Record(s).sum == Record(r).sum && Record(s).already == Record(r).already;
    }
  }

  lemma FailAllIgnoresCatalog(edges: seq<FkEdge>, targets: seq<Stripped>, reason: string, readd: string, st: State, rt: State)
    ensures Record(st) == Record(rt) ==>
      Record(FailAll(edges, targets, reason, readd, st)) == Record(FailAll(edges, targets, reason, readd, rt))
  {
    hide Withhold;
    if targets != [] && Record(st) == Record(rt) {
      var init, what := targets[..|targets| - 1], targets[|targets| - 1];
      FailAllIgnoresCatalog(edges, init, reason, readd, st, rt);
      var s, r := FailAll(edges, init, reason, readd, st), FailAll(edges, init, reason, readd, rt);
      assert Record(s).sum == Record(r).sum;
      WithholdIgnoresCatalog(edges, what.key,
        s.(sum := s.sum.(pending := s.sum.pending + [Pending(what, reason, readd)])),
        r.(sum := r.sum.(pending := r.sum.pending + [Pending(what, reason, readd)])));
    }
  }

  lemma {:induction false} RunGrows(c: Context, cat: set<Key>, ops: seq<Op>, k: nat)
    requires Reflexive(c.eng) && KeysMatch(c.keys) && c.present.None? && k <= |ops|
    ensures Run(c, Start(cat), ops[..k]).cat <= Run(c, Start(cat), ops).cat
    decreases |ops| - k
  {
    hide Step;
    if k == |ops| {
      assert ops[..k] == ops;
    } else {
      RunGrows(c, cat, ops[..|ops| - 1], k);
      assert ops[..|ops| - 1][..k] == ops[..k];
      RunHeld(c, cat, ops[..|ops| - 1]);
      StepHeld(c, Run(c, Start(cat), ops[..|ops| - 1]), ops[|ops| - 1]);
    }
  }

  /** Some operation of `ops[..n]` is rejected in the uninterrupted run although all its
      constraints are in `left`. */
  ghost predicate ShadowedIn(c: Context, cat: set<Key>, ops: seq<Op>, left: set<Key>, n: nat)
    requires n <= |ops|
  {
    exists j | 0 <= j < n :: Shadowed(c, Run(c, Start(cat), ops[..j]).cat, ops[j], left)
  }

  ghost predicate AnyShadowed(c: Context, cat: set<Key>, ops: seq<Op>, left: set<Key>) { ShadowedIn(c, cat, ops, left, |ops|) }

  /** How the resumed run stands to the uninterrupted one after `n` operations. */
  ghost predicate InStep(st: State, rt: State, left: set<Key>, early: bool, shadowed: bool) {
    && st.cat <= rt.cat && left <= rt.cat
    && rt.cat == (if early then left else st.cat)
    && DoneCount(rt.sum) >= DoneCount(st.sum)
    && (if shadowed then DoneCount(rt.sum) > DoneCount(st.sum) else Record(st) == Record(rt))
  }

  /** The run interrupted after `k` operations and resumed: same catalog; same record
      unless some operation is shadowed, and then a different one. */
  lemma {:induction false} ResumedRun(c: Context, cat: set<Key>, ops: seq<Op>, k: nat, n: nat)
    requires Reflexive(c.eng) && KeysMatch(c.keys) && c.present.None? && k <= |ops| && n <= |ops|
    ensures var left := Run(c, Start(cat), ops[..k]).cat;
      InStep(Run(c, Start(cat), ops[..n]), Run(c.(present := Some(left)), Start(left), ops[..n]), left,
             n <= k, ShadowedIn(c, cat, ops, left, n))
    decreases n
  {
    hide Step, Shadowed, DoneCount, Reflexive;
    var left := Run(c, Start(cat), ops[..k]).cat;
    GrowsBetween(c, cat, ops, 0, k);
    if n > 0 {
      var m := n - 1;
      ResumedRun(c, cat, ops, k, m);
      GrowsBetween(c, cat, ops, m, n);
      if n <= k { GrowsBetween(c, cat, ops, n, k); } else { GrowsBetween(c, cat, ops, k, m); }
      RunStep(c, Start(cat), ops, m);
      RunStep(c.(present := Some(left)), Start(left), ops, m);
      ResumedStep(c, (Run(c, Start(cat), ops[..m])), (Run(c.(present := Some(left)), Start(left), ops[..m])), ops[m], left);
    }
  }

  lemma RunStep(c: Context, st: State, ops: seq<Op>, m: nat)
    requires m < |ops|
    ensures Run(c, st, ops[..m + 1]) == Step(c, Run(c, st, ops[..m]), ops[m])
  {
    hide Step;
    assert ops[..m + 1][..m] == ops[..m];
  }

  lemma GrowsBetween(c: Context, cat: set<Key>, ops: seq<Op>, i: nat, j: nat)
    requires Reflexive(c.eng) && KeysMatch(c.keys) && c.present.None? && i <= j <= |ops|
    ensures Run(c, Start(cat), ops[..i]).cat <= Run(c, Start(cat), ops[..j]).cat
  {
    hide Run;
    RunGrows(c, cat, ops[..j], i);
    assert ops[..j][..i] == ops[..i];
  }

  lemma ReconcileIgnoresCatalog(c: Context, present: Option<set<Key>>, order: seq<Key>, accounted: set<Key>, st: State, rt: State)
    requires Record(st) == Record(rt)
    ensures Record(Reconcile(c, order, accounted, st)) == Record(Reconcile(c.(present := present), order, accounted, rt))
  {
    hide Withhold;
    if order != [] {
      var init, k := order[..|order| - 1], order[|order| - 1];
      ReconcileIgnoresCatalog(c, present, init, accounted, st, rt);
      if k !in accounted && k in c.keys {
        var s, r := Reconcile(c, init, accounted, st), Reconcile(c.(present := present), init, accounted, rt);
        assert Record(s).sum == Record(r).sum;
        WithholdIgnoresCatalog(c.edges, c.keys[k].key,
          s.(sum := s.sum.(pending := s.sum.pending + [Pending(c.keys[k], UNMATCHED, "")])),
          r.(sum := r.sum.(pending := r.sum.pending + [Pending(c.keys[k], UNMATCHED, "")])));
      }
    }
  }

  /** A rebuild interrupted anywhere and re-entered under its guard ends with the catalog
      of the uninterrupted one; with its record too, unless the dump makes a failed
      statement's constraints all present by other statements, and exactly then not. */
  lemma ResumedRebuild(eng: Engine, g: Graph, stripped: seq<Stripped>, cat: set<Key>, ops: seq<Op>, k: nat)
    requires Reflexive(eng) && k <= |ops|
    ensures var c := ContextOf(eng, g, stripped, None);
      var left := Run(c, Start(cat), ops[..k]).cat;
      var whole, resumed := Phase(eng, g, stripped, None, cat, ops), Phase(eng, g, stripped, Some(left), left, ops);
      && resumed.cat == whole.cat
      && (resumed.sum == whole.sum <==> !AnyShadowed(c, cat, ops, left))
  {
    hide Run, ShadowedIn, Reconcile, Whats, KeyOrder, Accounted;
    var c := ContextOf(eng, g, stripped, None);
    var left := Run(c, Start(cat), ops[..k]).cat;
    var cr := ContextOf(eng, g, stripped, Some(left));
    KeyMapIs(stripped);
    ResumedRun(c, cat, ops, k, |ops|);
    assert ops[..|ops|] == ops;
    var st, rt := Run(c, Start(cat), ops), Run(cr, Start(left), ops);
    assert rt.cat == st.cat by {
      if |ops| <= k { assert ops[..k] == ops; }
    }
    ReconcileRecords(c, KeyOrder(stripped), Accounted(st.sum), st);
    ReconcileRecords(cr, KeyOrder(stripped), Accounted(rt.sum), rt);
    if !AnyShadowed(c, cat, ops, left) {
      assert Record(st).sum == Record(rt).sum;
      ReconcileIgnoresCatalog(c, Some(left), KeyOrder(stripped), Accounted(st.sum), st, rt);
      assert Record(Phase(eng, g, stripped, None, cat, ops)).sum == Record(Phase(eng, g, stripped, Some(left), left, ops)).sum;
    }
  }

  // ----- when no operation is shadowed -----

  function Effect(c: Context, op: Op): set<Key> {
    match op
    case KeyOp(text) => Families(c.eng, ClassOf(text), NamesOf(text))
    case IndexOp(text) => Families(c.eng, IndexClass(text), [IndexName(text)])
  }

  lemma StepEffect(c: Context, st: State, op: Op, x: Key)
    requires x in Step(c, st, op).cat && x !in st.cat
    ensures x in Effect(c, op) && !Rejected(c, st.cat, op) && Claims(c, op) != []
  {
    hide TargetsOf, FailAll, ClassOf, NamesOf, IndexClass, IndexName, IsCreate;
    if op.KeyOp? {
      assert |Claims(c, op)| == |TargetsOf(c, op.text)|;
      FailAllRecords(c.edges, TargetsOf(c, op.text), ErrorText(JudgeAdd(c.eng, st.cat, op.text)), op.text + ";", st);
    }
  }

  lemma {:induction false} CatalogComesFrom(c: Context, cat: set<Key>, ops: seq<Op>, k: nat, x: Key) returns (i: nat)
    requires k <= |ops| && x in Run(c, Start(cat), ops[..k]).cat && x !in cat
    ensures i < k && x in Effect(c, ops[i]) && !Rejected(c, Run(c, Start(cat), ops[..i]).cat, ops[i])
    ensures Claims(c, ops[i]) != []
  {
    hide Step, Rejected, Claims, NamesOf, Effect;
    i := k - 1;
    RunStep(c, Start(cat), ops, i);
    if x in Run(c, Start(cat), ops[..i]).cat {
      i := CatalogComesFrom(c, cat, ops, k - 1, x);
    } else {
      StepEffect(c, Run(c, Start(cat), ops[..i]), ops[i], x);
    }
  }

  /** A dump that names each constraint in one statement only, over a catalog that has
      none of them, shadows nothing. */
  lemma NamedOnceIsSafe(c: Context, cat: set<Key>, ops: seq<Op>, k: nat)
    requires k <= |ops|
    requires forall j, x :: 0 <= j < |ops| && x in Claims(c, ops[j]) ==> x !in cat
    requires forall i, j, x :: 0 <= i < |ops| && 0 <= j < |ops| && i != j && x in Claims(c, ops[j]) ==> x !in Effect(c, ops[i])
    ensures !AnyShadowed(c, cat, ops, Run(c, Start(cat), ops[..k]).cat)
  {
    hide Run, Claims, Rejected, Families, ClassOf, ToUpper, Effect;
    var left := Run(c, Start(cat), ops[..k]).cat;
    forall j | 0 <= j < |ops| ensures !Shadowed(c, Run(c, Start(cat), ops[..j]).cat, ops[j], left) {
      if Shadowed(c, Run(c, Start(cat), ops[..j]).cat, ops[j], left) {
        var i := CatalogComesFrom(c, cat, ops, k, Claims(c, ops[j])[0]);
      }
    }
  }

  /** An accepted key statement run a second time is rejected, and its constraints recorded
      as pending although they are there. */
  lemma SecondTimeRejected(c: Context, st: State, text: string)
    requires Reflexive(c.eng) && KeysMatch(c.keys) && c.present.None?
    requires JudgeAdd(c.eng, st.cat, text).Accept? && TargetsOf(c, text) != []
    ensures var once := KeyStep(c, st, text);
      var twice := KeyStep(c, once, text);
      && twice.cat == once.cat && Shadowed(c, once.cat, KeyOp(text), twice.cat)
      && exists p :: p in twice.sum.pending && p.what.key.cls == ClassOf(text)
  {
    hide FailAll, AfterAdd, NamesAt, NameBounds;
    var targets := TargetsOf(c, text);
    var once := KeyStep(c, st, text);
    AcceptedTargetsHeld(c, st.cat, text);
    TargetsAre(c.keys, ClassOf(text), NamesOf(text), targets[0]);
    assert JudgeAdd(c.eng, once.cat, text) == Refuse(ALREADY_EXISTS);
    FailAllRecords(c.edges, targets, ALREADY_EXISTS, text + ";", once);
    ClaimsPresent(c, text, once.cat);
    assert |Claims(c, KeyOp(text))| == |targets|;
    var pending := KeyStep(c, once, text).sum.pending;
    assert Whats(pending)[|once.sum.pending|] == targets[0];
    assert pending[|once.sum.pending|] in pending;
  }

  /** The diverging family: a dump that carries an accepted key statement twice. The
      uninterrupted run records the constraint as pending, the one killed after its commit
      and resumed records it as rebuilt. */
  lemma RepeatedStatementDiverges(eng: Engine, g: Graph, stripped: seq<Stripped>, cat: set<Key>, text: string)
    requires Reflexive(eng) && JudgeAdd(eng, cat, text).Accept?
    requires TargetsOf(ContextOf(eng, g, stripped, None), text) != []
    ensures var ops := [KeyOp(text), KeyOp(text)];
      var whole := Phase(eng, g, stripped, None, cat, ops);
      && whole.sum.pending != []
      && Phase(eng, g, stripped, Some(whole.cat), whole.cat, ops).sum != whole.sum
  {
    hide KeyStep, Shadowed, Reconcile, KeyOrder, NamesOf, JudgeAdd, IndexStep;
    var ops := [KeyOp(text), KeyOp(text)];
    var c := ContextOf(eng, g, stripped, None);
    KeyMapIs(stripped);
    SecondTimeRejected(c, Start(cat), text);
    RunStep(c, Start(cat), ops, 0);
    RunStep(c, Start(cat), ops, 1);
    assert ops[..2] == ops;
    var st := Run(c, Start(cat), ops);
    ReconcileRecords(c, KeyOrder(stripped), Accounted(st.sum), st);
    assert |Whats(Phase(eng, g, stripped, None, cat, ops).sum.pending)| >= |Whats(st.sum.pending)|;
    assert AnyShadowed(c, cat, ops, st.cat);
    ResumedRebuild(eng, g, stripped, cat, ops, 2);
  }
}
