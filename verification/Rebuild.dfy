/** The rebuild phase: the dump's own ADD statements put the stripped keys back, then the
    deferred plain indexes are built. A statement the server rejects leaves its constraints
    pending, withholds every foreign key their class parents, and the phase goes on. */
module Rebuild {
  import opened Schema
  import opened Engine
  import opened Ordering
  import opened DdlText
  import opened Dump

  datatype Pending = Pending(what: Stripped, reason: string, readd: string)
  datatype WithheldFk = WithheldFk(child: string, parent: string, name: string, reason: string)
  {
    function Id(): Key { Key(child, name) }
  }
  datatype FailedIndex = FailedIndex(name: string, reason: string)

  datatype Summary = Summary(rebuilt: seq<Stripped>, pending: seq<Pending>, indexes: seq<string>,
                             failedIndexes: seq<FailedIndex>, withheld: seq<WithheldFk>)
  {
    /** The phase status a resumed run derives from the record alone. */
    predicate Incomplete() { pending != [] || failedIndexes != [] }
  }

  datatype Status = Ok | Partial | Error

  /** Catalog, record, and the edges already withheld. */
  datatype State = State(cat: set<Key>, sum: Summary, already: set<Key>)

  datatype Context = Context(eng: Engine, edges: seq<FkEdge>, keys: map<Key, Stripped>, present: Option<set<Key>>)

  datatype Op = KeyOp(text: string) | IndexOp(text: string)

  const EMPTY := Summary([], [], [], [], [])
  const UNMATCHED := "no ADD CONSTRAINT statement in the dump matched this class and name, so no re-add DDL was recorded: take it from the dump's schema file"

  function ErrorText(v: Verdict): string {
    match v
    case Refuse(reason) => reason
    case _ => "rejected"
  }

  // ----- the record of one failed constraint -----

  function WithholdReason(k: Key): string {
    "parent '" + k.cls + "' key [" + k.name + "] failed rebuild"
  }

  /** Every edge the class of `k` parents is withheld, once. */
  function Withhold(edges: seq<FkEdge>, k: Key, st: State): State {
    if edges == [] then st
    else
      var st' := Withhold(edges[..|edges| - 1], k, st);
      var e := edges[|edges| - 1];
      if e.parent == k.cls && e.Id() !in st'.already then
        st'.(already := st'.already + {e.Id()},
             sum := st'.sum.(withheld := st'.sum.withheld + [WithheldFk(e.child, e.parent, e.name, WithholdReason(k))]))
      else st'
  }

  function Fail(edges: seq<FkEdge>, what: Stripped, reason: string, readd: string, st: State): State {
    Withhold(edges, what.key, st.(sum := st.sum.(pending := st.sum.pending + [Pending(what, reason, readd)])))
  }

  function FailAll(edges: seq<FkEdge>, targets: seq<Stripped>, reason: string, readd: string, st: State): State {
    if targets == [] then st
    else Fail(edges, targets[|targets| - 1], reason, readd, FailAll(edges, targets[..|targets| - 1], reason, readd, st))
  }

  // ----- one statement -----

  /** The stripped keys a statement's class and constraint names resolve to. */
  function Targets(keys: map<Key, Stripped>, cls: string, names: seq<string>): seq<Stripped> {
    if names == [] then []
    else
      var k := Key(cls, names[|names| - 1]);
      Targets(keys, cls, names[..|names| - 1]) + if k in keys then [keys[k]] else []
  }

  function TargetsOf(c: Context, text: string): seq<Stripped> {
    Targets(c.keys, ClassOf(text), NamesOf(text))
  }

  predicate AllPresent(cat: set<Key>, targets: seq<Stripped>) {
    forall t :: t in targets ==> t.key in cat
  }

  function IndexKey(text: string): Key { Key(IndexClass(text), IndexName(text)) }

  predicate IsCreate(text: string) { At(ToUpper(text), 0, "CREATE") }

  function KeyStep(c: Context, st: State, text: string): State {
    var targets := TargetsOf(c, text);
    if targets == [] then st
    else if c.present.Some? && AllPresent(c.present.value, targets) then
      st.(sum := st.sum.(rebuilt := st.sum.rebuilt + targets))
    else
      var v := JudgeAdd(c.eng, st.cat, text);
      if v.Accept? then
        st.(cat := AfterAddText(c.eng, st.cat, text), sum := st.sum.(rebuilt := st.sum.rebuilt + targets))
      else FailAll(c.edges, targets, ErrorText(v), text + ";", st)
  }

  function IndexStep(c: Context, st: State, text: string): State {
    if !IsCreate(text) then st
    else if c.present.Some? && IndexKey(text) in c.present.value then
      st.(sum := st.sum.(indexes := st.sum.indexes + [IndexName(text)]))
    else
      var v := JudgeIndex(c.eng, st.cat, text);
      if v.Accept? then
        st.(cat := AfterIndex(c.eng, st.cat, text), sum := st.sum.(indexes := st.sum.indexes + [IndexName(text)]))
      else
        st.(sum := st.sum.(failedIndexes := st.sum.failedIndexes + [FailedIndex(IndexName(text), ErrorText(v))]))
  }

  function Step(c: Context, st: State, op: Op): State {
    match op
    case KeyOp(text) => KeyStep(c, st, text)
    case IndexOp(text) => IndexStep(c, st, text)
  }

  function Run(c: Context, st: State, ops: seq<Op>): State {
    if ops == [] then st else Step(c, Run(c, st, ops[..|ops| - 1]), ops[|ops| - 1])
  }

  // ----- the stripped keys no statement visited -----

  /** The stripped PRIMARY KEY and UNIQUE constraints by identity. */
  function KeyMap(stripped: seq<Stripped>): map<Key, Stripped> {
    if stripped == [] then map[]
    else
      var x := stripped[|stripped| - 1];
      var m := KeyMap(stripped[..|stripped| - 1]);
      if x.kind.ForeignKey? then m else m[x.key := x]
  }

  function KeyOrder(stripped: seq<Stripped>): seq<Key> {
    if stripped == [] then []
    else
      var x := stripped[|stripped| - 1];
      var s := KeyOrder(stripped[..|stripped| - 1]);
      if x.kind.ForeignKey? then s else InsertKey(s, x.key)
  }

  function Accounted(sum: Summary): set<Key> {
    (set x | x in sum.rebuilt :: x.key) + (set p | p in sum.pending :: p.what.key)
  }

  function Reconcile(c: Context, order: seq<Key>, accounted: set<Key>, st: State): State {
    if order == [] then st
    else
      var k := order[|order| - 1];
      var st' := Reconcile(c, order[..|order| - 1], accounted, st);
      if k in accounted || k !in c.keys then st' else Fail(c.edges, c.keys[k], UNMATCHED, "", st')
  }

  // ----- the phase -----

  function KeyOps(texts: seq<string>): seq<Op> {
    seq(|texts|, i requires 0 <= i < |texts| => KeyOp(texts[i]))
  }

  function IndexOps(texts: seq<string>): seq<Op> {
    seq(|texts|, i requires 0 <= i < |texts| => IndexOp(texts[i]))
  }

  function ContextOf(eng: Engine, g: Graph, stripped: seq<Stripped>, present: Option<set<Key>>): Context {
    Context(eng, g.fkEdges, KeyMap(stripped), present)
  }

  function Start(cat: set<Key>): State { State(cat, EMPTY, {}) }

  /** What the phase leaves behind, given the operations its readable sources hold. */
  function Phase(eng: Engine, g: Graph, stripped: seq<Stripped>, present: Option<set<Key>>,
                 cat: set<Key>, ops: seq<Op>): State {
    var c := ContextOf(eng, g, stripped, present);
    var st := Run(c, Start(cat), ops);
    Reconcile(c, KeyOrder(stripped), Accounted(st.sum), st)
  }

  // ----- the loops of the phase -----

  method WithholdChildFks(edges: seq<FkEdge>, k: Key, already: set<Key>, sum: Summary)
    returns (already': set<Key>, sum': Summary)
    ensures forall cat :: Withhold(edges, k, State(cat, sum, already)) == State(cat, sum', already')
  {
    hide WithholdReason;
    already', sum' := already, sum;
    for i := 0 to |edges|
      invariant forall cat :: Withhold(edges[..i], k, State(cat, sum, already)) == State(cat, sum', already')
    {
      var e := edges[i];
      assert edges[..i + 1][..i] == edges[..i];
      if e.parent == k.cls && e.Id() !in already' {
        already' := already' + {e.Id()};
        sum' := sum'.(withheld := sum'.withheld + [WithheldFk(e.child, e.parent, e.name, WithholdReason(k))]);
      }
    }
    assert edges[..|edges|] == edges;
  }

  method MatchTargets(keys: map<Key, Stripped>, text: string) returns (targets: seq<Stripped>)
    ensures targets == Targets(keys, ClassOf(text), NamesOf(text))
  {
    hide ClassOf, NamesOf;
    var cls := StatementClass(text);
    var names := ConstraintNames(text);
    targets := [];
    for i := 0 to |names|
      invariant targets == Targets(keys, cls, names[..i])
    {
      assert names[..i + 1][..i] == names[..i];
      if Key(cls, names[i]) in keys {
        targets := targets + [keys[Key(cls, names[i])]];
      }
    }
    assert names[..|names|] == names;
  }

  method RecordFailures(edges: seq<FkEdge>, targets: seq<Stripped>, reason: string, readd: string,
                        already: set<Key>, sum: Summary)
    returns (already': set<Key>, sum': Summary)
    ensures forall cat :: FailAll(edges, targets, reason, readd, State(cat, sum, already)) == State(cat, sum', already')
  {
    already', sum' := already, sum;
    for i := 0 to |targets|
      invariant forall cat :: FailAll(edges, targets[..i], reason, readd, State(cat, sum, already)) == State(cat, sum', already')
    {
      assert targets[..i + 1][..i] == targets[..i];
      sum' := sum'.(pending := sum'.pending + [Pending(targets[i], reason, readd)]);
      already', sum' := WithholdChildFks(edges, targets[i].key, already', sum');
    }
    assert targets[..|targets|] == targets;
  }

  method RunKeyStatement(session: Session, c: Context, text: string, already: set<Key>, sum: Summary)
    returns (already': set<Key>, sum': Summary, failed: bool)
    requires session.eng == c.eng
    modifies session
    ensures State(session.catalog, sum', already') == KeyStep(c, State(old(session.catalog), sum, already), text)
    ensures sum'.Incomplete() <==> sum.Incomplete() || failed
  {
    hide NamesOf, ClassOf, FailAll, Judge;
    already', sum', failed := already, sum, false;
    var targets := MatchTargets(c.keys, text);
    if targets == [] {
      return;
    }
    if c.present.Some? && AllPresent(c.present.value, targets) {
      sum' := sum.(rebuilt := sum.rebuilt + targets);
      return;
    }
    var v := session.Add(text);
    if v.Accept? {
      sum' := sum.(rebuilt := sum.rebuilt + targets);
    } else {
      failed := true;
      FailuresGrow(c.edges, targets, ErrorText(v), text + ";", State(session.catalog, sum, already));
      already', sum' := RecordFailures(c.edges, targets, ErrorText(v), text + ";", already, sum);
    }
  }

  lemma WithholdKeeps(edges: seq<FkEdge>, k: Key, st: State)
    ensures var st' := Withhold(edges, k, st);
      st'.cat == st.cat && st'.sum == st.sum.(withheld := st'.sum.withheld)
  {
    hide WithholdReason;
  }

  lemma FailuresGrow(edges: seq<FkEdge>, targets: seq<Stripped>, reason: string, readd: string, st: State)
    ensures var st' := FailAll(edges, targets, reason, readd, st);
      && |st'.sum.pending| == |st.sum.pending| + |targets| && st'.sum.failedIndexes == st.sum.failedIndexes
  {
    if targets != [] {
      var mid := FailAll(edges, targets[..|targets| - 1], reason, readd, st);
      FailuresGrow(edges, targets[..|targets| - 1], reason, readd, st);
      var last := targets[|targets| - 1];
      WithholdKeeps(edges, last.key, mid.(sum := mid.sum.(pending := mid.sum.pending + [Pending(last, reason, readd)])));
    }
  }

  method RunIndexStatement(session: Session, c: Context, text: string, sum: Summary) returns (sum': Summary, failed: bool)
    requires session.eng == c.eng
    modifies session
    ensures forall already :: State(session.catalog, sum', already) == IndexStep(c, State(old(session.catalog), sum, already), text)
    ensures sum'.Incomplete() <==> sum.Incomplete() || failed
  {
    hide IsCreate, IndexClass, ToUpper, Judge;
    sum', failed := sum, false;
    if !IsCreate(text) {
      return;
    }
    if c.present.Some? && IndexKey(text) in c.present.value {
      sum' := sum.(indexes := sum.indexes + [IndexName(text)]);
      return;
    }
    var v := session.CreateIndex(text);
    failed := !v.Accept?;
    sum' := if v.Accept? then sum.(indexes := sum.indexes + [IndexName(text)])
      else sum.(failedIndexes := sum.failedIndexes + [FailedIndex(IndexName(text), ErrorText(v))]);
  }

  method IndexKeys(stripped: seq<Stripped>) returns (keys: map<Key, Stripped>, order: seq<Key>)
    ensures keys == KeyMap(stripped) && order == KeyOrder(stripped)
  {
    keys, order := map[], [];
    for i := 0 to |stripped|
      invariant keys == KeyMap(stripped[..i]) && order == KeyOrder(stripped[..i])
    {
      var x := stripped[i];
      assert stripped[..i + 1][..i] == stripped[..i];
      if !x.kind.ForeignKey? {
        keys := keys[x.key := x];
        order := InsertKey(order, x.key);
      }
    }
    assert stripped[..|stripped|] == stripped;
  }

  method ReconcileKeys(c: Context, order: seq<Key>, accounted: set<Key>, already: set<Key>, sum: Summary)
    returns (sum': Summary, failed: bool)
    ensures forall cat :: Reconcile(c, order, accounted, State(cat, sum, already)).sum == sum'
    ensures forall cat :: Reconcile(c, order, accounted, State(cat, sum, already)).cat == cat
    ensures sum'.Incomplete() <==> sum.Incomplete() || failed
  {
    hide Withhold;
    var already' := already;
    sum', failed := sum, false;
    for i := 0 to |order|
      invariant sum'.Incomplete() <==> sum.Incomplete() || failed
      invariant forall cat :: Reconcile(c, order[..i], accounted, State(cat, sum, already)) == State(cat, sum', already')
    {
      var k := order[i];
      assert order[..i + 1][..i] == order[..i];
      if k !in accounted && k in c.keys {
        sum' := sum'.(pending := sum'.pending + [Pending(c.keys[k], UNMATCHED, "")]);
        failed := true;
        WithholdKeeps(c.edges, c.keys[k].key, State({}, sum', already'));
        already', sum' := WithholdChildFks(c.edges, c.keys[k].key, already', sum');
      }
    }
    assert order[..|order|] == order;
  }

  lemma {:induction false} RunConcat(c: Context, st: State, a: seq<Op>, b: seq<Op>)
    ensures Run(c, st, a + b) == Run(c, Run(c, st, a), b)
  {
    hide Step;
    if b == [] {
      assert a + b == a;
    } else {
      assert (a + b)[..|a + b| - 1] == a + b[..|b| - 1];
      RunConcat(c, st, a, b[..|b| - 1]);
    }
  }

  method RunKeyStatements(session: Session, c: Context, texts: seq<string>, already: set<Key>, sum: Summary)
    returns (already': set<Key>, sum': Summary, failed: bool)
    requires session.eng == c.eng
    modifies session
    ensures State(session.catalog, sum', already') == Run(c, State(old(session.catalog), sum, already), KeyOps(texts))
    ensures sum'.Incomplete() <==> sum.Incomplete() || failed
  {
    hide KeyStep, IndexStep, Summary.Incomplete;
    already', sum', failed := already, sum, false;
    ghost var start := State(session.catalog, sum, already);
    for i := 0 to |texts|
      invariant State(session.catalog, sum', already') == Run(c, start, KeyOps(texts)[..i])
      invariant sum'.Incomplete() <==> sum.Incomplete() || failed
    {
      assert KeyOps(texts)[..i + 1][..i] == KeyOps(texts)[..i];
      var now;
      already', sum', now := RunKeyStatement(session, c, texts[i], already', sum');
      failed := failed || now;
    }
    assert KeyOps(texts)[..|texts|] == KeyOps(texts);
  }

  method RunIndexStatements(session: Session, c: Context, texts: seq<string>, ghost already: set<Key>, sum: Summary)
    returns (sum': Summary, failed: bool)
    requires session.eng == c.eng
    modifies session
    ensures State(session.catalog, sum', already) == Run(c, State(old(session.catalog), sum, already), IndexOps(texts))
    ensures sum'.Incomplete() <==> sum.Incomplete() || failed
  {
    hide IndexStep, KeyStep, Summary.Incomplete;
    sum', failed := sum, false;
    ghost var start := State(session.catalog, sum, already);
    for i := 0 to |texts|
      invariant State(session.catalog, sum', already) == Run(c, start, IndexOps(texts)[..i])
      invariant sum'.Incomplete() <==> sum.Incomplete() || failed
    {
      assert IndexOps(texts)[..i + 1][..i] == IndexOps(texts)[..i];
      var now;
      sum', now := RunIndexStatement(session, c, texts[i], sum');
      failed := failed || now;
    }
    assert IndexOps(texts)[..|texts|] == IndexOps(texts);
  }

  /** The operations the phase's sources hold, or None when a source cannot be read. */
  function PhaseOps(roster: ImportSet, files: Files): Option<seq<Op>> {
    match StatementsOf(files, KeyFiles(roster))
    case None => None
    case Some(texts) =>
      if roster.indexFile == "" then Some(KeyOps(texts))
      else if roster.indexFile in files then Some(KeyOps(texts) + IndexOps(Statements(files[roster.indexFile], 0)))
      else None
  }

  lemma {:induction false} RunTexts(c: Context, st: State, before: seq<string>, texts: seq<string>)
    ensures Run(c, st, KeyOps(before + texts)) == Run(c, Run(c, st, KeyOps(before)), KeyOps(texts))
  {
    hide Run;
    assert KeyOps(before + texts) == KeyOps(before) + KeyOps(texts);
    RunConcat(c, st, KeyOps(before), KeyOps(texts));
  }

  method RunKeyFiles(session: Session, c: Context, files: Files, names: seq<string>)
    returns (ok: bool, already: set<Key>, sum: Summary, failed: bool)
    requires session.eng == c.eng
    modifies session
    ensures ok == StatementsOf(files, names).Some?
    ensures ok ==>
      State(session.catalog, sum, already) == Run(c, Start(old(session.catalog)), KeyOps(StatementsOf(files, names).value))
    ensures ok ==> (sum.Incomplete() <==> failed)
  {
    hide Step, Statements;
    already, sum, failed := {}, EMPTY, false;
    ghost var start := Start(session.catalog);
    for i := 0 to |names|
      invariant StatementsOf(files, names[..i]).Some?
      invariant State(session.catalog, sum, already) == Run(c, start, KeyOps(StatementsOf(files, names[..i]).value))
      invariant sum.Incomplete() <==> failed
    {
      NextFile(files, names, i);
      if names[i] !in files {
        UnreadableStays(files, names, i + 1);
        return false, {}, EMPTY, false;
      }
      var texts := SplitStatements(files[names[i]]);
      RunTexts(c, start, StatementsOf(files, names[..i]).value, texts);
      var now;
      already, sum, now := RunKeyStatements(session, c, texts, already, sum);
      failed := failed || now;
    }
    assert names[..|names|] == names;
    ok := true;
  }

  /** The phase leaves the catalog and the record of `Phase`, for a fresh run and for a
      resumed one; its status can be read back from that record. */
  method Rebuild(session: Session, roster: ImportSet, files: Files, g: Graph, stripped: seq<Stripped>,
                 present: Option<set<Key>>)
    returns (status: Status, sum: Summary)
    modifies session
    ensures PhaseOps(roster, files).None? ==> status.Error? && sum == EMPTY
    ensures PhaseOps(roster, files).Some? ==>
      var st := Phase(session.eng, g, stripped, present, old(session.catalog), PhaseOps(roster, files).value);
      && session.catalog == st.cat && sum == st.sum
      && status == if sum.Incomplete() then Partial else Ok
  {
    hide KeyOrder, Reconcile, Run, Statements, IndexOps, Accounted;
    var keys, order := IndexKeys(stripped);
    var c := Context(session.eng, g.fkEdges, keys, present);
    ghost var start := Start(session.catalog);
    var ok, already, partial;
    ok, already, sum, partial := RunKeyFiles(session, c, files, KeyFiles(roster));
    if !ok {
      return Error, EMPTY;
    }
    ghost var ops := KeyOps(StatementsOf(files, KeyFiles(roster)).value);
    if roster.indexFile != "" {
      if roster.indexFile !in files {
        return Error, EMPTY;
      }
      var texts := SplitStatements(files[roster.indexFile]);
      var now;
      sum, now := RunIndexStatements(session, c, texts, already, sum);
      partial := partial || now;
      RunConcat(c, start, ops, IndexOps(texts));
    }
    var late;
    sum, late := ReconcileKeys(c, order, Accounted(sum), already, sum);
    status := if partial || late then Partial else Ok;
  }
}
