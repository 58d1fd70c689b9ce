/** The FK define phase: each edge's own ADD statement is attempted unless the rebuild
    withheld it; the server validates while it builds, a rejected edge is withheld with its
    repair statement, and under fail-fast it ends the attempts. */
module FkDefine {
  import opened Schema
  import opened Engine
  import opened DdlText
  import opened Dump
  import Rebuild

  datatype EdgeRef = EdgeRef(child: string, parent: string, name: string)
  {
    function Id(): Key { Key(child, name) }
  }

  /** Why an edge was left undefined. */
  datatype Cause = ByRebuild(reason: string) | NotAttempted | Rejected(orphans: nat) | NoStatement

  datatype Withheld = Withheld(edge: EdgeRef, cause: Cause, readd: string)

  datatype Summary = Summary(defined: seq<EdgeRef>, withheld: seq<Withheld>)

  datatype EdgeResult = EdgeResult(edge: EdgeRef, orphans: nat)

  datatype Validation = Validation(edges: seq<EdgeResult>, orphans: seq<string>, validated: nat, violated: nat, totalOrphans: nat)

  datatype Status = Ok | Partial | Error

  datatype State = State(cat: set<Key>, sum: Summary, val: Validation, processed: set<Key>, stop: bool, hard: bool)

  datatype Context = Context(eng: Engine, edges: map<Key, FkEdge>, byRebuild: map<Key, string>, keepGoing: bool,
                             present: Option<set<Key>>)

  const EMPTY := Summary([], [])
  const NOTHING_VALIDATED := Validation([], [], 0, 0, 0)

  function RefOf(e: FkEdge): EdgeRef { EdgeRef(e.child, e.parent, e.name) }

  function Start(cat: set<Key>): State { State(cat, EMPTY, NOTHING_VALIDATED, {}, false, false) }

  function EdgeMap(edges: seq<FkEdge>): map<Key, FkEdge> {
    if edges == [] then map[] else EdgeMap(edges[..|edges| - 1])[edges[|edges| - 1].Id() := edges[|edges| - 1]]
  }

  function WithheldReasons(withheld: seq<Rebuild.WithheldFk>): map<Key, string> {
    if withheld == [] then map[]
    else WithheldReasons(withheld[..|withheld| - 1])[withheld[|withheld| - 1].Id() := withheld[|withheld| - 1].reason]
  }

  function ContextOf(eng: Engine, g: Graph, rebuilt: Rebuild.Summary, keepGoing: bool, present: Option<set<Key>>): Context {
    Context(eng, EdgeMap(g.fkEdges), WithheldReasons(rebuilt.withheld), keepGoing, present)
  }

  /** The edge a statement's class and first matching name resolve to. */
  function FirstEdge(edges: map<Key, FkEdge>, cls: string, names: seq<string>): Option<FkEdge> {
    if names == [] then None
    else if Key(cls, names[0]) in edges then Some(edges[Key(cls, names[0])])
    else FirstEdge(edges, cls, names[1..])
  }

  function EdgeOf(c: Context, text: string): Option<FkEdge> { FirstEdge(c.edges, ClassOf(text), NamesOf(text)) }

  // ----- one edge -----

  function Define(st: State, e: FkEdge): State {
    st.(sum := st.sum.(defined := st.sum.defined + [RefOf(e)]))
  }

  function Withhold(st: State, e: FkEdge, cause: Cause, readd: string): State {
    st.(sum := st.sum.(withheld := st.sum.withheld + [Withheld(RefOf(e), cause, readd)]))
  }

  function Validated(val: Validation, e: FkEdge, orphans: seq<string>, violated: bool): Validation {
    Validation(val.edges + [EdgeResult(RefOf(e), |orphans|)], val.orphans + orphans, val.validated + 1,
               val.violated + (if violated then 1 else 0), val.totalOrphans + |orphans|)
  }

  function Attempt(c: Context, st: State, e: FkEdge, text: string): State {
    match JudgeAdd(c.eng, st.cat, text)
    case Accept =>
      Define(st, e).(cat := AfterAddText(c.eng, st.cat, text), val := Validated(st.val, e, [], false))
    case FkInvalid(Some(orphans)) =>
      Withhold(st, e, Rejected(|orphans|), text + ";").(val := Validated(st.val, e, orphans, true), stop := st.stop || !c.keepGoing)
    case _ => st.(hard := true)
  }

  /** An edge the rebuild let through and fail-fast has not cut off. */
  predicate Open(c: Context, st: State, e: FkEdge) { e.Id() !in c.byRebuild && !st.stop }

  predicate Found(c: Context, id: Key) { c.present.Some? && id in c.present.value }

  function Visit(c: Context, st: State, e: FkEdge, text: string): State {
    if Open(c, st, e) then
      if Found(c, e.Id()) then Define(st, e) else Attempt(c, st, e, text)
    else Withhold(st, e, if e.Id() in c.byRebuild then ByRebuild(c.byRebuild[e.Id()]) else NotAttempted, text + ";")
  }

  function Step(c: Context, st: State, text: string): State {
    if st.hard then st
    else match EdgeOf(c, text)
      case None => st
      case Some(e) =>
        if e.Id() in st.processed then st else Visit(c, st.(processed := st.processed + {e.Id()}), e, text)
  }

  function Run(c: Context, st: State, texts: seq<string>): State {
    if texts == [] then st else Step(c, Run(c, st, texts[..|texts| - 1]), texts[|texts| - 1])
  }

  /** The graph's edges no statement visited. */
  function Reconcile(edges: seq<FkEdge>, st: State): State {
    if edges == [] then st
    else
      var st' := Reconcile(edges[..|edges| - 1], st);
      var e := edges[|edges| - 1];
      if e.Id() in st.processed then st' else Withhold(st', e, NoStatement, "")
  }

  function Phase(eng: Engine, g: Graph, rebuilt: Rebuild.Summary, keepGoing: bool, present: Option<set<Key>>,
                 cat: set<Key>, texts: seq<string>): State {
    var st := Run(ContextOf(eng, g, rebuilt, keepGoing, present), Start(cat), texts);
    if st.hard then st else Reconcile(g.fkEdges, st)
  }

  // ----- the loops of the phase -----

  method IndexEdges(edges: seq<FkEdge>) returns (m: map<Key, FkEdge>)
    ensures m == EdgeMap(edges)
  {
    m := map[];
    for i := 0 to |edges|
      invariant m == EdgeMap(edges[..i])
    {
      assert edges[..i + 1][..i] == edges[..i];
      m := m[edges[i].Id() := edges[i]];
    }
    assert edges[..|edges|] == edges;
  }

  method IndexWithheld(withheld: seq<Rebuild.WithheldFk>) returns (m: map<Key, string>)
    ensures m == WithheldReasons(withheld)
  {
    m := map[];
    for i := 0 to |withheld|
      invariant m == WithheldReasons(withheld[..i])
    {
      assert withheld[..i + 1][..i] == withheld[..i];
      m := m[withheld[i].Id() := withheld[i].reason];
    }
    assert withheld[..|withheld|] == withheld;
  }

  method MatchEdge(edges: map<Key, FkEdge>, text: string) returns (e: Option<FkEdge>)
    ensures e == FirstEdge(edges, ClassOf(text), NamesOf(text))
  {
    hide ClassOf, NamesOf;
    var cls := StatementClass(text);
    var names := ConstraintNames(text);
    for i := 0 to |names|
      invariant FirstEdge(edges, cls, names) == FirstEdge(edges, cls, names[i..])
    {
      if Key(cls, names[i]) in edges {
        return Some(edges[Key(cls, names[i])]);
      }
    }
    return None;
  }

  method DefineStatement(session: Session, c: Context, text: string, st: State) returns (st': State)
    requires session.eng == c.eng && st.cat == session.catalog
    modifies session
    ensures st' == Step(c, st, text) && st'.cat == session.catalog
  {
    hide FirstEdge, ClassOf, NamesOf, Judge;
    if st.hard {
      return st;
    }
    var found := MatchEdge(c.edges, text);
    if found.None? || found.value.Id() in st.processed {
      return st;
    }
    var e := found.value;
    st' := st.(processed := st.processed + {e.Id()});
    if e.Id() !in c.byRebuild && !st.stop {
      if Found(c, e.Id()) {
        st' := Define(st', e);
        return;
      }
      var v := session.Add(text);
      match v {
        case Accept =>
          st' := Define(st', e).(cat := session.catalog, val := Validated(st.val, e, [], false));
        case FkInvalid(Some(orphans)) =>
          st' := Withhold(st', e, Rejected(|orphans|), text + ";");
          st' := st'.(val := Validated(st.val, e, orphans, true), stop := st.stop || !c.keepGoing);
        case _ =>
          st' := st'.(hard := true);
      }
    } else {
      st' := Withhold(st', e, if e.Id() in c.byRebuild then ByRebuild(c.byRebuild[e.Id()]) else NotAttempted, text + ";");
    }
  }

  method DefineStatements(session: Session, c: Context, texts: seq<string>, st: State) returns (st': State)
    requires session.eng == c.eng && st.cat == session.catalog
    modifies session
    ensures st' == Run(c, st, texts) && st'.cat == session.catalog
  {
    hide Step;
    st' := st;
    for i := 0 to |texts|
      invariant st' == Run(c, st, texts[..i]) && st'.cat == session.catalog
    {
      assert texts[..i + 1][..i] == texts[..i];
      st' := DefineStatement(session, c, texts[i], st');
    }
    assert texts[..|texts|] == texts;
  }

  method ReconcileEdges(edges: seq<FkEdge>, st: State) returns (st': State)
    ensures st' == Reconcile(edges, st)
  {
    st' := st;
    for i := 0 to |edges|
      invariant st' == Reconcile(edges[..i], st)
    {
      assert edges[..i + 1][..i] == edges[..i];
      if edges[i].Id() !in st.processed {
        st' := Withhold(st', edges[i], NoStatement, "");
      }
    }
    assert edges[..|edges|] == edges;
  }

  lemma {:induction false} RunConcat(c: Context, st: State, a: seq<string>, b: seq<string>)
    ensures Run(c, st, a + b) == Run(c, Run(c, st, a), b)
  {
    hide Step;
    if b == [] {
      assert a + b == a;
    } else {
      assert (a + b)[..|a + b| - 1] == a + b[..|b| - 1];
      RunConcat(c, st, a, b[..|b| - 1]);
    }
  }

  lemma {:induction false} HardStays(c: Context, st: State, texts: seq<string>)
    requires st.hard
    ensures Run(c, st, texts) == st
  {
    hide Visit, ClassOf;
    if texts != [] { HardStays(c, st, texts[..|texts| - 1]); }
  }

  method DefineFiles(session: Session, c: Context, files: Files, names: seq<string>) returns (ok: bool, st: State)
    requires session.eng == c.eng
    modifies session
    ensures ok <==> StatementsOf(files, names).Some? && !Run(c, Start(old(session.catalog)), StatementsOf(files, names).value).hard
    ensures ok ==> st == Run(c, Start(old(session.catalog)), StatementsOf(files, names).value) && st.cat == session.catalog
  {
    hide Step, Statements;
    st := Start(session.catalog);
    ghost var start := st;
    for i := 0 to |names|
      invariant StatementsOf(files, names[..i]).Some?
      invariant st == Run(c, start, StatementsOf(files, names[..i]).value) && !st.hard && st.cat == session.catalog
    {
      NextFile(files, names, i);
      if names[i] !in files {
        UnreadableStays(files, names, i + 1);
        return false, st;
      }
      var texts := SplitStatements(files[names[i]]);
      RunConcat(c, start, StatementsOf(files, names[..i]).value, texts);
      st := DefineStatements(session, c, texts, st);
      if st.hard {
        HardEnds(c, start, files, names, i + 1);
        return false, st;
      }
    }
    assert names[..|names|] == names;
    ok := true;
  }

  lemma HardEnds(c: Context, start: State, files: Files, names: seq<string>, k: nat)
    requires k <= |names| && StatementsOf(files, names[..k]).Some?
    requires Run(c, start, StatementsOf(files, names[..k]).value).hard
    ensures StatementsOf(files, names).Some? ==> Run(c, start, StatementsOf(files, names).value).hard
    decreases |names| - k
  {
    hide Run;
    if k == |names| {
      assert names[..k] == names;
    } else {
      NextFile(files, names, k);
      if names[k] in files {
        var more := Statements(files[names[k]], 0);
        RunConcat(c, start, StatementsOf(files, names[..k]).value, more);
        HardStays(c, Run(c, start, StatementsOf(files, names[..k]).value), more);
        HardEnds(c, start, files, names, k + 1);
      } else {
        UnreadableStays(files, names, k + 1);
      }
    }
  }

  /** The phase leaves the catalog and the records of `Phase`. A source that cannot be
      read, a failure that is not the data's, or an exceptions artifact that cannot be
      written is an error, and then nothing is recorded. */
  method DefineFks(session: Session, roster: ImportSet, files: Files, g: Graph, rebuilt: Rebuild.Summary,
                   keepGoing: bool, present: Option<set<Key>>, artifactWritable: bool)
    returns (status: Status, sum: Summary, val: Validation)
    modifies session
    ensures var texts := StatementsOf(files, FkFiles(roster));
      if texts.None? then status.Error? && sum == EMPTY
      else
        var st := Phase(session.eng, g, rebuilt, keepGoing, present, old(session.catalog), texts.value);
        if st.hard || (st.sum.withheld != [] && !artifactWritable) then status.Error? && sum == EMPTY
        else
          && session.catalog == st.cat && sum == st.sum && val == st.val
          && status == if sum.withheld == [] then Ok else Partial
  {
    hide StatementsOf, Run, WithheldReasons;
    var edges := IndexEdges(g.fkEdges);
    var byRebuild := IndexWithheld(rebuilt.withheld);
    var c := Context(session.eng, edges, byRebuild, keepGoing, present);
    var ok, st := DefineFiles(session, c, files, FkFiles(roster));
    if !ok {
      return Error, EMPTY, NOTHING_VALIDATED;
    }
    ReconcileKeeps(g.fkEdges, st);
    st := ReconcileEdges(g.fkEdges, st);
    if st.sum.withheld != [] && !artifactWritable {
      return Error, EMPTY, st.val;
    }
    return if st.sum.withheld == [] then Ok else Partial, st.sum, st.val;
  }

  lemma ReconcileKeeps(edges: seq<FkEdge>, st: State)
    ensures var st' := Reconcile(edges, st);
      st' == st.(sum := st.sum.(withheld := st'.sum.withheld))
  {
    hide Schema.FkEdge.Id;
  }
}
