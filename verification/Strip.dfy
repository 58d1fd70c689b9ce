/** The strip phase: every foreign key, then every unique, then every primary key is
    dropped on the class that owns it, so the load runs into bare heaps. */
module Strip {
  import opened Schema
  import opened Inheritance
  import opened Engine

  // ----- what the phase drops -----

  function NamesOfKind(n: Node, kind: Kind): seq<string> {
    match kind
    case ForeignKey => n.constraints.fk
    case Unique => n.constraints.unique
    case PrimaryKey => if n.constraints.pk == "" then [] else [n.constraints.pk]
  }

  function NodeEntries(cls: string, kind: Kind, names: seq<string>): seq<Stripped> {
    if names == [] then []
    else NodeEntries(cls, kind, names[..|names| - 1]) + [Stripped(kind, Key(cls, names[|names| - 1]))]
  }

  function KindEntries(nodes: seq<Node>, kind: Kind): seq<Stripped> {
    if nodes == [] then []
    else
      var n := nodes[|nodes| - 1];
      KindEntries(nodes[..|nodes| - 1], kind) + NodeEntries(n.name, kind, NamesOfKind(n, kind))
  }

  /** Every constraint the snapshot lists, inherited copies included, in drop order. */
  function Entries(g: Graph): seq<Stripped> {
    KindEntries(g.nodes, ForeignKey) + KindEntries(g.nodes, Unique) + KindEntries(g.nodes, PrimaryKey)
  }

  function Snapshot(g: Graph): set<Key> {
    set x | x in Entries(g) :: x.key
  }

  ghost predicate OwnedEntry(g: Graph, x: Stripped) { !Inherited(g, x.key.cls, x.key.name) }

  ghost function OwnedOf(g: Graph, s: seq<Stripped>): seq<Stripped> {
    if s == [] then []
    else
      var last := s[|s| - 1];
      OwnedOf(g, s[..|s| - 1]) + if OwnedEntry(g, last) then [last] else []
  }

  /** The recorded list: it depends on the snapshot alone. */
  ghost function DropOrder(g: Graph): seq<Stripped> { OwnedOf(g, Entries(g)) }

  // ----- running the drops -----

  /** Under a resume guard a constraint already gone is recorded without a DROP. */
  predicate Skips(present: Option<set<Key>>, c: Stripped) {
    present.Some? && c.key !in present.value
  }

  /** The catalog after the drops of `order`, or None when the server rejects one. */
  function RunDrops(eng: Engine, present: Option<set<Key>>, cat: set<Key>, order: seq<Stripped>): Option<set<Key>> {
    if order == [] then Some(cat)
    else
      var last := order[|order| - 1];
      match RunDrops(eng, present, cat, order[..|order| - 1])
      case None => None
      case Some(c) =>
        if Skips(present, last) then Some(c)
        else if DropAccepted(eng, c, last) then Some(AfterDrop(eng, c, last))
        else None
  }

  lemma RejectedStaysRejected(eng: Engine, present: Option<set<Key>>, cat: set<Key>, order: seq<Stripped>, k: nat)
    requires k <= |order| && RunDrops(eng, present, cat, order[..k]).None?
    ensures RunDrops(eng, present, cat, order).None?
    decreases |order| - k
  {
    if k < |order| {
      assert order[..k + 1][..k] == order[..k];
      RejectedStaysRejected(eng, present, cat, order, k + 1);
    } else {
      assert order[..k] == order;
    }
  }

  lemma OwnedOfPrefix(g: Graph, s: seq<Stripped>, k: nat)
    requires k <= |s|
    ensures OwnedOf(g, s[..k]) <= OwnedOf(g, s)
    decreases |s| - k
  {
    hide OwnedEntry;
    if k == |s| {
      assert s[..k] == s;
    } else {
      OwnedOfPrefix(g, s[..|s| - 1], k);
      assert s[..|s| - 1][..k] == s[..k];
    }
  }

  lemma NodeEntriesPrefix(cls: string, kind: Kind, names: seq<string>, k: nat)
    requires k <= |names|
    ensures NodeEntries(cls, kind, names[..k]) <= NodeEntries(cls, kind, names)
    decreases |names| - k
  {
    if k == |names| {
      assert names[..k] == names;
    } else {
      NodeEntriesPrefix(cls, kind, names[..|names| - 1], k);
      assert names[..|names| - 1][..k] == names[..k];
    }
  }

  lemma KindEntriesPrefix(nodes: seq<Node>, kind: Kind, k: nat)
    requires k <= |nodes|
    ensures KindEntries(nodes[..k], kind) <= KindEntries(nodes, kind)
    decreases |nodes| - k
  {
    hide NodeEntries;
    if k == |nodes| {
      assert nodes[..k] == nodes;
    } else {
      KindEntriesPrefix(nodes[..|nodes| - 1], kind, k);
      assert nodes[..|nodes| - 1][..k] == nodes[..k];
    }
  }

  /** `entries` of the snapshot are handled: their owned part is recorded, and the
      session's catalog is what dropping it leaves. */
  ghost predicate Progress(eng: Engine, g: Graph, present: Option<set<Key>>, cat: set<Key>,
                           entries: seq<Stripped>, recorded: seq<Stripped>, now: set<Key>) {
    recorded == OwnedOf(g, entries) && RunDrops(eng, present, cat, recorded) == Some(now)
  }

  ghost predicate Stuck(eng: Engine, g: Graph, present: Option<set<Key>>, cat: set<Key>, entries: seq<Stripped>) {
    RunDrops(eng, present, cat, OwnedOf(g, entries)).None?
  }

  lemma StuckEarly(eng: Engine, g: Graph, present: Option<set<Key>>, cat: set<Key>,
                   entries: seq<Stripped>, all: seq<Stripped>)
    requires entries <= all && Stuck(eng, g, present, cat, entries)
    ensures Stuck(eng, g, present, cat, all)
  {
    hide OwnedOf;
    assert all[..|entries|] == entries;
    OwnedOfPrefix(g, all, |entries|);
    var part := OwnedOf(g, entries);
    assert OwnedOf(g, all)[..|part|] == part;
    RejectedStaysRejected(eng, present, cat, OwnedOf(g, all), |part|);
  }

  /** One snapshot entry: skipped when inherited, recorded without a DROP when the guard
      shows it gone, dropped and recorded otherwise. */
  method StripOne(session: Session, g: Graph, byName: map<string, Node>, supers: map<string, seq<string>>,
                  c: Stripped, present: Option<set<Key>>, stripped: seq<Stripped>,
                  ghost entries: seq<Stripped>, ghost cat: set<Key>)
    returns (ok: bool, recorded: seq<Stripped>)
    requires byName == ByName(g.nodes) && IndexesSupers(supers, g.inheritEdges)
    requires Progress(session.eng, g, present, cat, entries, stripped, session.catalog)
    modifies session
    ensures ok ==> Progress(session.eng, g, present, cat, entries + [c], recorded, session.catalog)
    ensures !ok ==> Stuck(session.eng, g, present, cat, entries + [c])
  {
    ghost var next := entries + [c];
    assert next[..|next| - 1] == entries;
    var inherited := IsInheritedConstraint(g, byName, supers, c.key.cls, c.key.name);
    if inherited {
      return true, stripped;
    }
    recorded := stripped + [c];
    assert recorded[..|recorded| - 1] == stripped;
    if Skips(present, c) {
      return true, recorded;
    }
    ok := session.Drop(c);
  }

  /** One class's constraints of one kind. */
  method StripNode(session: Session, g: Graph, byName: map<string, Node>, supers: map<string, seq<string>>,
                   cls: string, kind: Kind, names: seq<string>, present: Option<set<Key>>, stripped: seq<Stripped>,
                   ghost before: seq<Stripped>, ghost cat: set<Key>)
    returns (ok: bool, recorded: seq<Stripped>)
    requires byName == ByName(g.nodes) && IndexesSupers(supers, g.inheritEdges)
    requires Progress(session.eng, g, present, cat, before, stripped, session.catalog)
    modifies session
    ensures ok ==> Progress(session.eng, g, present, cat, before + NodeEntries(cls, kind, names), recorded, session.catalog)
    ensures !ok ==> Stuck(session.eng, g, present, cat, before + NodeEntries(cls, kind, names))
  {
    hide ByName, OwnedOf, Progress, Stuck, IndexesSupers;
    ok, recorded := true, stripped;
    assert before + NodeEntries(cls, kind, names[..0]) == before;
    for j := 0 to |names|
      invariant Progress(session.eng, g, present, cat, before + NodeEntries(cls, kind, names[..j]), recorded, session.catalog)
    {
      assert
        && before + NodeEntries(cls, kind, names[..j]) + [Stripped(kind, Key(cls, names[j]))]
           == before + NodeEntries(cls, kind, names[..j + 1])
        && before + NodeEntries(cls, kind, names[..j + 1]) <= before + NodeEntries(cls, kind, names)
      by {
        assert names[..j + 1][..j] == names[..j];
        NodeEntriesPrefix(cls, kind, names, j + 1);
      }
      ok, recorded := StripOne(session, g, byName, supers, Stripped(kind, Key(cls, names[j])), present, recorded,
                               before + NodeEntries(cls, kind, names[..j]), cat);
      if !ok {
        StuckEarly(session.eng, g, present, cat, before + NodeEntries(cls, kind, names[..j + 1]), before + NodeEntries(cls, kind, names));
        return false, [];
      }
    }
    assert names[..|names|] == names;
    ok := true;
  }

  /** Drops the constraints of one kind, class by class. */
  method StripKind(session: Session, g: Graph, byName: map<string, Node>, supers: map<string, seq<string>>,
                   kind: Kind, present: Option<set<Key>>, stripped: seq<Stripped>,
                   ghost before: seq<Stripped>, ghost cat: set<Key>)
    returns (ok: bool, recorded: seq<Stripped>)
    requires byName == ByName(g.nodes) && IndexesSupers(supers, g.inheritEdges)
    requires Progress(session.eng, g, present, cat, before, stripped, session.catalog)
    modifies session
    ensures ok ==> Progress(session.eng, g, present, cat, before + KindEntries(g.nodes, kind), recorded, session.catalog)
    ensures !ok ==> Stuck(session.eng, g, present, cat, before + KindEntries(g.nodes, kind))
  {
    hide ByName, Progress, Stuck, NamesOfKind, NodeEntries, IndexesSupers;
    ok, recorded := true, stripped;
    assert before + KindEntries(g.nodes[..0], kind) == before;
    for i := 0 to |g.nodes|
      invariant Progress(session.eng, g, present, cat, before + KindEntries(g.nodes[..i], kind), recorded, session.catalog)
    {
      var cls, names := g.nodes[i].name, NamesOfKind(g.nodes[i], kind);
      assert
        && before + KindEntries(g.nodes[..i], kind) + NodeEntries(g.nodes[i].name, kind, NamesOfKind(g.nodes[i], kind))
           == before + KindEntries(g.nodes[..i + 1], kind)
        && before + KindEntries(g.nodes[..i + 1], kind) <= before + KindEntries(g.nodes, kind)
      by {
        assert g.nodes[..i + 1][..i] == g.nodes[..i];
        KindEntriesPrefix(g.nodes, kind, i + 1);
      }
      ok, recorded := StripNode(session, g, byName, supers, cls, kind, names, present, recorded,
                                before + KindEntries(g.nodes[..i], kind), cat);
      if !ok {
        StuckEarly(session.eng, g, present, cat, before + KindEntries(g.nodes[..i + 1], kind), before + KindEntries(g.nodes, kind));
        return false, [];
      }
    }
    assert g.nodes[..|g.nodes|] == g.nodes;
    ok := true;
  }

  method Strip(session: Session, g: Graph, present: Option<set<Key>>) returns (ok: bool, stripped: seq<Stripped>)
    modifies session
    ensures ok == RunDrops(session.eng, present, old(session.catalog), DropOrder(g)).Some?
    ensures ok ==> stripped == DropOrder(g)
    ensures ok ==> RunDrops(session.eng, present, old(session.catalog), DropOrder(g)) == Some(session.catalog)
    ensures !ok ==> stripped == []
  {
    hide KindEntries, OwnedEntry, DropAccepted, AfterDrop;
    ghost var cat := session.catalog;
    ghost var fks := KindEntries(g.nodes, ForeignKey);
    ghost var uniques := fks + KindEntries(g.nodes, Unique);
    assert [] + fks == fks;
    var byName := IndexByName(g.nodes);
    var supers := IndexSupers(g.inheritEdges);
    ok, stripped := StripKind(session, g, byName, supers, ForeignKey, present, [], [], cat);
    if !ok {
      StuckEarly(session.eng, g, present, cat, fks, Entries(g));
      return false, [];
    }
    ok, stripped := StripKind(session, g, byName, supers, Unique, present, stripped, fks, cat);
    if !ok {
      StuckEarly(session.eng, g, present, cat, uniques, Entries(g));
      return false, [];
    }
    ok, stripped := StripKind(session, g, byName, supers, PrimaryKey, present, stripped, uniques, cat);
    if !ok {
      return false, [];
    }
  }

  // ----- a resumed strip -----

  lemma DropsOnlyShrink(eng: Engine, cat: set<Key>, order: seq<Stripped>, k: nat)
    requires k <= |order| && RunDrops(eng, None, cat, order).Some?
    ensures RunDrops(eng, None, cat, order[..k]).Some?
    ensures RunDrops(eng, None, cat, order).value <= RunDrops(eng, None, cat, order[..k]).value
    decreases |order| - k
  {
    if k == |order| {
      assert order[..k] == order;
    } else {
      DropsOnlyShrink(eng, cat, order[..|order| - 1], k);
      assert order[..|order| - 1][..k] == order[..k];
    }
  }

  /** Wherever an interrupted strip left the catalog, the guarded one ends where the
      uninterrupted one does: what is gone is skipped, what is left is dropped. */
  lemma {:induction false} ResumedStrip(eng: Engine, cat: set<Key>, order: seq<Stripped>, k: nat, n: nat)
    requires forall x :: x in eng.family(x)
    requires k <= |order| && n <= |order| && RunDrops(eng, None, cat, order).Some?
    ensures RunDrops(eng, None, cat, order[..k]).Some? && RunDrops(eng, None, cat, order[..n]).Some?
    ensures var left := RunDrops(eng, None, cat, order[..k]).value;
      RunDrops(eng, Some(left), left, order[..n]) == if n <= k then Some(left) else RunDrops(eng, None, cat, order[..n])
    decreases n
  {
    DropsOnlyShrink(eng, cat, order, k);
    DropsOnlyShrink(eng, cat, order, n);
    if n > 0 {
      ResumedStrip(eng, cat, order, k, n - 1);
      assert order[..n][..n - 1] == order[..n - 1];
      if n <= k {
        DropsOnlyShrink(eng, cat, order[..k], n);
        assert order[..k][..n] == order[..n];
      } else {
        DropsOnlyShrink(eng, cat, order[..n - 1], k);
        assert order[..n - 1][..k] == order[..k];
        if n - 1 == k { assert order[..n - 1] == order[..k]; }
      }
    }
  }

  // ----- the phase is never stuck -----

  ghost predicate Ranked(inh: seq<InheritEdge>, rank: string -> nat) {
    forall e :: e in inh ==> rank(e.super) < rank(e.child)
  }

  ghost predicate DistinctKeys(s: seq<Stripped>) {
    forall i, j :: 0 <= i < j < |s| ==> s[i].key != s[j].key
  }

  ghost predicate PassesTo(g: Graph, e: InheritEdge, x: Stripped) {
    x.key.cls == e.super ==> Stripped(x.kind, Key(e.child, x.key.name)) in Entries(g)
  }

  /** What the catalog guarantees of a snapshot: class names are distinct, so are a
      class's constraint names; inheritance is acyclic, stays inside the graph and passes
      every constraint down under its own name; every FK edge is a listed foreign key. */
  ghost predicate SnapshotOk(g: Graph, rank: string -> nat) {
    && (forall i, j :: 0 <= i < j < |g.nodes| ==> g.nodes[i].name != g.nodes[j].name)
    && DistinctKeys(Entries(g))
    && (forall x :: x in Entries(g) ==> x.key.name != "")
    && Ranked(g.inheritEdges, rank)
    && (forall e :: e in g.inheritEdges ==> e.child in ByName(g.nodes) && e.super in ByName(g.nodes))
    && (forall e, x {:trigger PassesTo(g, e, x)} :: e in g.inheritEdges && x in Entries(g) ==> PassesTo(g, e, x))
    && (forall e :: e in g.fkEdges ==> Stripped(ForeignKey, e.Id()) in Entries(g))
  }

  /** The catalog holds exactly the snapshot's constraints on the snapshot's classes. */
  ghost predicate CatalogMatches(g: Graph, cat: set<Key>) {
    forall k: Key :: k.cls in ByName(g.nodes) ==> (k in cat <==> k in Snapshot(g))
  }

  lemma InNodeEntries(cls: string, kind: Kind, names: seq<string>, x: Stripped)
    ensures x in NodeEntries(cls, kind, names) <==> x.kind == kind && x.key.cls == cls && x.key.name in names
  {
    if names != [] {
      assert names == names[..|names| - 1] + [names[|names| - 1]];
    }
  }

  lemma InKindEntries(nodes: seq<Node>, kind: Kind, x: Stripped)
    ensures x in KindEntries(nodes, kind) <==>
      x.kind == kind && exists n :: n in nodes && n.name == x.key.cls && x.key.name in NamesOfKind(n, kind)
  {
    hide NamesOfKind;
    if nodes != [] {
      var n := nodes[|nodes| - 1];
      assert nodes == nodes[..|nodes| - 1] + [n];
      InNodeEntries(n.name, kind, NamesOfKind(n, kind), x);
    }
  }

  lemma InEntries(g: Graph, x: Stripped)
    ensures x in Entries(g) <==> exists n :: n in g.nodes && n.name == x.key.cls && x.key.name in NamesOfKind(n, x.kind)
  {
    hide NamesOfKind, KindEntries;
    InKindEntries(g.nodes, ForeignKey, x);
    InKindEntries(g.nodes, Unique, x);
    InKindEntries(g.nodes, PrimaryKey, x);
  }

  lemma InOwnedOf(g: Graph, s: seq<Stripped>, x: Stripped)
    ensures x in OwnedOf(g, s) <==> x in s && OwnedEntry(g, x)
  {
    hide OwnedEntry;
    if s != [] {
      assert s == s[..|s| - 1] + [s[|s| - 1]];
    }
  }

  lemma EntryIsListed(g: Graph, rank: string -> nat, x: Stripped)
    requires SnapshotOk(g, rank) && x in Entries(g)
    ensures x.key.cls in ByName(g.nodes) && Lists(ByName(g.nodes)[x.key.cls], x.key.name)
  {
    hide Entries, ByName, DistinctKeys;
    InEntries(g, x);
    var n :| n in g.nodes && n.name == x.key.cls && x.key.name in NamesOfKind(n, x.kind);
    ByNameIs(g.nodes, n.name);
  }

  lemma ListedIsEntry(g: Graph, k: Key) returns (x: Stripped)
    requires k.name != "" && k.cls in ByName(g.nodes) && Lists(ByName(g.nodes)[k.cls], k.name)
    ensures x in Entries(g) && x.key == k
  {
    hide ByName, Entries;
    var n := ByName(g.nodes)[k.cls];
    var kind := if k.name in n.constraints.fk then ForeignKey
      else if k.name in n.constraints.unique then Unique else PrimaryKey;
    x := Stripped(kind, k);
    InEntries(g, x);
    ByNameIs(g.nodes, k.cls);
    assert n in g.nodes && n.name == k.cls && k.name in NamesOfKind(n, kind);
  }

  lemma RankFalls(inh: seq<InheritEdge>, rank: string -> nat, c: string, a: string)
    requires Ranked(inh, rank) && Ancestor(inh, c, a)
    ensures rank(a) < rank(c)
  {
    var p :| ClimbFromTo(inh, p, c, a);
    var i := 1;
    assert InheritEdge(p[0], p[1]) in inh;
    while i < |p| - 1
      invariant 1 <= i < |p| && rank(p[i]) < rank(c)
    {
      assert InheritEdge(p[i], p[i + 1]) in inh;
      i := i + 1;
    }
  }

  /** A class lists whatever a transitive superclass lists, as the same kind. */
  lemma PassedDown(g: Graph, rank: string -> nat, c: string, x: Stripped)
    requires SnapshotOk(g, rank) && x in Entries(g) && Ancestor(g.inheritEdges, c, x.key.cls)
    ensures Stripped(x.kind, Key(c, x.key.name)) in Entries(g)
  {
    hide Entries, Ranked, Schema.FkEdge.Id;
    var p :| ClimbFromTo(g.inheritEdges, p, c, x.key.cls);
    var i := |p| - 1;
    while i > 0
      invariant 0 <= i < |p| && Stripped(x.kind, Key(p[i], x.key.name)) in Entries(g)
    {
      var e := InheritEdge(p[i - 1], p[i]);
      assert PassesTo(g, e, Stripped(x.kind, Key(p[i], x.key.name)));
      i := i - 1;
    }
  }

  /** Every listed constraint has an owner of its own kind in its family's root. */
  lemma {:induction false} OwnerOf(g: Graph, rank: string -> nat, x: Stripped) returns (o: Stripped)
    requires SnapshotOk(g, rank) && x in Entries(g)
    ensures o in DropOrder(g) && o.kind == x.kind && x.key in Family(g.inheritEdges, o.key)
    decreases rank(x.key.cls)
  {
    hide Entries, Ancestor, Lists;
    if OwnedEntry(g, x) {
      InOwnedOf(g, Entries(g), x);
      return x;
    }
    var a :| Ancestor(g.inheritEdges, x.key.cls, a) && a in ByName(g.nodes) && Lists(ByName(g.nodes)[a], x.key.name);
    var y := ListedIsEntry(g, Key(a, x.key.name));
    PassedDown(g, rank, x.key.cls, y);
    var copy := Stripped(y.kind, x.key);
    assert copy in Entries(g) && copy.kind == x.kind by {
      var i :| 0 <= i < |Entries(g)| && Entries(g)[i] == copy;
      var j :| 0 <= j < |Entries(g)| && Entries(g)[j] == x;
    }
    RankFalls(g.inheritEdges, rank, x.key.cls, a);
    o := OwnerOf(g, rank, y);
    FamilyDown(g.inheritEdges, o.key, y.key, x.key);
  }

  lemma FamilyDown(inh: seq<InheritEdge>, o: Key, y: Key, x: Key)
    requires y in Family(inh, o) && Ancestor(inh, x.cls, y.cls) && x.name == y.name
    ensures x in Family(inh, o)
  {
    if y != o {
      AncestorTransitive(inh, x.cls, y.cls, o.cls);
    }
    var p :| ClimbFromTo(inh, p, x.cls, o.cls);
    var e := InheritEdge(p[0], p[1]);
    assert e in inh && e.child == x.cls;
  }

  function Removed(eng: Engine, order: seq<Stripped>): set<Key> {
    if order == [] then {} else Removed(eng, order[..|order| - 1]) + eng.family(order[|order| - 1].key)
  }

  lemma InRemoved(eng: Engine, order: seq<Stripped>, k: Key)
    ensures k in Removed(eng, order) <==> exists c :: c in order && k in eng.family(c.key)
  {
    if order != [] {
      assert order == order[..|order| - 1] + [order[|order| - 1]];
    }
  }

  ghost predicate KeysUnique(order: seq<Stripped>) {
    forall i :: 0 <= i < |order| ==> forall j :: 0 <= j < i ==> order[i].key != order[j].key
  }

  lemma OwnedKeysUnique(g: Graph, s: seq<Stripped>)
    requires DistinctKeys(s)
    ensures KeysUnique(OwnedOf(g, s))
  {
    hide OwnedEntry;
    if s != [] {
      var init, last := s[..|s| - 1], s[|s| - 1];
      OwnedKeysUnique(g, init);
      forall x | x in OwnedOf(g, init) ensures x.key != last.key {
        InOwnedOf(g, init, x);
        var i :| 0 <= i < |init| && init[i] == x;
        assert s[i] == x;
      }
    }
  }

  /** The drop of `order[i]` is accepted once everything before it is gone: the constraint
      is still there, no superclass lists it, and no foreign key is left to refer to it. */
  lemma DropIsAccepted(eng: Engine, g: Graph, rank: string -> nat, cat: set<Key>, i: nat)
    requires SnapshotOk(g, rank) && CatalogMatches(g, cat)
    requires Inherits(eng, g.inheritEdges) && eng.refs == g.fkEdges
    requires i < |DropOrder(g)|
    ensures DropAccepted(eng, cat - Removed(eng, DropOrder(g)[..i]), DropOrder(g)[i])
  {
    hide OwnedOf, Entries, Ranked;
    var order := DropOrder(g);
    var c := order[i];
    var now := cat - Removed(eng, order[..i]);
    InOwnedOf(g, Entries(g), c);
    EntryIsListed(g, rank, c);
    assert c.key in cat;
    forall j | 0 <= j < i ensures c.key !in eng.family(order[j].key) {
      OwnedKeysUnique(g, Entries(g));
      InOwnedOf(g, Entries(g), order[j]);
      NotInFamily(g, rank, c, order[j].key);
    }
    InRemoved(eng, order[..i], c.key);
    assert c.key in now;
    forall x | x in cat && x != c.key ensures c.key !in eng.family(x) {
      if c.key in eng.family(x) {
        var e :| e in g.inheritEdges && Ancestor(g.inheritEdges, e.child, x.cls) && c.key == Key(e.child, x.name);
        var p :| ClimbFromTo(g.inheritEdges, p, e.child, x.cls);
        assert InheritEdge(p[|p| - 2], p[|p| - 1]) in g.inheritEdges && InheritEdge(p[0], p[1]) in g.inheritEdges;
        var y :| y in Entries(g) && y.key == x;
        NotInFamily(g, rank, c, x);
      }
    }
    if !c.kind.ForeignKey? {
      forall e | e in eng.refs ensures e.Id() !in now {
        var o := OwnerOf(g, rank, Stripped(ForeignKey, e.Id()));
        ForeignKeysFirst(g, i, o);
        InRemoved(eng, order[..i], e.Id());
      }
    }
  }

  /** An owned constraint is no copy of another listed one. */
  lemma NotInFamily(g: Graph, rank: string -> nat, c: Stripped, x: Key)
    requires SnapshotOk(g, rank) && OwnedEntry(g, c) && x != c.key && x in Snapshot(g)
    ensures c.key !in Family(g.inheritEdges, x)
  {
    hide SnapshotOk, Entries, ByName, Lists;
    var y :| y in Entries(g) && y.key == x;
    EntryIsListed(g, rank, y);
  }

  // ----- the order of the drops -----

  /** A place in the order: the kind's turn, the class, the place in that class's list. */
  datatype Spot = Spot(turn: nat, node: nat, place: nat)

  predicate Before(t: Spot, u: Spot) {
    t.turn < u.turn || (t.turn == u.turn && (t.node < u.node || (t.node == u.node && t.place < u.place)))
  }

  /** Foreign keys first, then uniques, then primary keys. */
  function Turn(kind: Kind): nat {
    match kind
    case ForeignKey => 0
    case Unique => 1
    case PrimaryKey => 2
  }

  predicate Stands(g: Graph, x: Stripped, t: Spot) {
    t.turn == Turn(x.kind) && t.node < |g.nodes| && x.key.cls == g.nodes[t.node].name &&
    var c := g.nodes[t.node].constraints;
    match x.kind
    case ForeignKey => t.place < |c.fk| && c.fk[t.place] == x.key.name
    case Unique => t.place < |c.unique| && c.unique[t.place] == x.key.name
    case PrimaryKey => t.place == 0 && c.pk != "" && c.pk == x.key.name
  }

  predicate Sorted(at: seq<Spot>) { forall i, j :: 0 <= i < j < |at| ==> Before(at[i], at[j]) }

  predicate Laid(g: Graph, s: seq<Stripped>, at: seq<Spot>) {
    |at| == |s| && Sorted(at) && forall i :: 0 <= i < |s| ==> Stands(g, s[i], at[i])
  }

  lemma {:induction false} NodeEntriesAt(cls: string, kind: Kind, names: seq<string>)
    ensures |NodeEntries(cls, kind, names)| == |names|
    ensures forall q :: 0 <= q < |names| ==> NodeEntries(cls, kind, names)[q] == Stripped(kind, Key(cls, names[q]))
  {
    if names != [] { NodeEntriesAt(cls, kind, names[..|names| - 1]); }
  }

  lemma NodeIsLaid(g: Graph, kind: Kind, p: nat) returns (at: seq<Spot>)
    requires p < |g.nodes|
    ensures Laid(g, NodeEntries(g.nodes[p].name, kind, NamesOfKind(g.nodes[p], kind)), at)
    ensures forall t :: t in at ==> t.turn == Turn(kind) && t.node == p
    ensures forall x: Stripped, t: Spot :: x.kind == kind && t.node == p && Stands(g, x, t) ==> t in at
  {
    hide NodeEntries, Turn;
    var names := NamesOfKind(g.nodes[p], kind);
    NodeEntriesAt(g.nodes[p].name, kind, names);
    at := seq(|names|, q requires 0 <= q < |names| => Spot(Turn(kind), p, q));
    forall x: Stripped, t: Spot | x.kind == kind && t.node == p && Stands(g, x, t) ensures t in at {
      assert at[t.place] == t;
    }
  }

  lemma LaidConcat(g: Graph, a: seq<Stripped>, at: seq<Spot>, b: seq<Stripped>, bt: seq<Spot>)
    requires Laid(g, a, at) && Laid(g, b, bt) && forall t, u :: t in at && u in bt ==> Before(t, u)
    ensures Laid(g, a + b, at + bt)
  {
    hide Stands, Before;
  }

  lemma {:induction false} KindIsLaid(g: Graph, kind: Kind, n: nat) returns (at: seq<Spot>)
    requires n <= |g.nodes|
    ensures Laid(g, KindEntries(g.nodes[..n], kind), at)
    ensures forall t :: t in at ==> t.turn == Turn(kind) && t.node < n
    ensures forall x: Stripped, t: Spot :: x.kind == kind && t.node < n && Stands(g, x, t) ==> t in at
  {
    hide Stands, Laid, NodeEntries, NamesOfKind, Turn;
    if n == 0 {
      NoneLaid(g);
      return [];
    }
    var init := KindIsLaid(g, kind, n - 1);
    var own := NodeIsLaid(g, kind, n - 1);
    assert g.nodes[..n][..n - 1] == g.nodes[..n - 1];
    LaidConcat(g, KindEntries(g.nodes[..n - 1], kind), init,
               NodeEntries(g.nodes[n - 1].name, kind, NamesOfKind(g.nodes[n - 1], kind)), own);
    at := init + own;
  }

  lemma NoneLaid(g: Graph)
    ensures Laid(g, [], [])
  {
  }

  lemma EntriesAreLaid(g: Graph) returns (at: seq<Spot>)
    ensures Laid(g, Entries(g), at)
    ensures forall x: Stripped, t: Spot :: Stands(g, x, t) ==> t in at
  {
    hide KindEntries, Laid;
    var n := |g.nodes|;
    assert g.nodes[..n] == g.nodes;
    var f := KindIsLaid(g, ForeignKey, n);
    var u := KindIsLaid(g, Unique, n);
    var p := KindIsLaid(g, PrimaryKey, n);
    LaidConcat(g, KindEntries(g.nodes, ForeignKey), f, KindEntries(g.nodes, Unique), u);
    LaidConcat(g, KindEntries(g.nodes, ForeignKey) + KindEntries(g.nodes, Unique), f + u, KindEntries(g.nodes, PrimaryKey), p);
    at := f + u + p;
  }

  lemma {:induction false} OwnedIsLaid(g: Graph, s: seq<Stripped>, at: seq<Spot>) returns (bt: seq<Spot>)
    requires Laid(g, s, at)
    ensures Laid(g, OwnedOf(g, s), bt) && forall t :: t in bt ==> t in at
    ensures forall i :: 0 <= i < |s| && OwnedEntry(g, s[i]) ==> at[i] in bt
  {
    hide Stands, Before, OwnedEntry;
    if s == [] {
      return [];
    }
    var k := |s| - 1;
    var init := OwnedIsLaid(g, s[..k], at[..k]);
    bt := init + if OwnedEntry(g, s[k]) then [at[k]] else [];
    forall t | t in init ensures t in at && Before(t, at[k]) {
      var j :| 0 <= j < k && at[..k][j] == t;
      assert at[j] == t;
    }
    forall i | 0 <= i < |s| && OwnedEntry(g, s[i]) ensures at[i] in bt {
      if i < k { assert s[..k][i] == s[i] && at[..k][i] == at[i]; }
    }
  }

  lemma StandsOnce(g: Graph, x: Stripped, y: Stripped, t: Spot)
    requires Stands(g, x, t) && Stands(g, y, t)
    ensures x == y
  {
  }

  /** The drops in order: exactly the constraints no superclass lists, foreign keys before
      uniques before primary keys, each kind class by class as the snapshot lists them. */
  lemma DropsInOrder(g: Graph) returns (at: seq<Spot>)
    ensures |at| == |DropOrder(g)| && Sorted(at)
    ensures forall i :: 0 <= i < |at| ==> Stands(g, DropOrder(g)[i], at[i])
    ensures forall x: Stripped, t: Spot :: Stands(g, x, t) ==> (!Inherited(g, x.key.cls, x.key.name) <==> t in at)
  {
    hide Entries, OwnedOf, Stands, Before, Inherited;
    var all := EntriesAreLaid(g);
    at := OwnedIsLaid(g, Entries(g), all);
    forall x: Stripped, t: Spot | Stands(g, x, t) ensures OwnedEntry(g, x) <==> t in at {
      var i :| 0 <= i < |all| && all[i] == t;
      StandsOnce(g, x, Entries(g)[i], t);
      if t in at {
        var j :| 0 <= j < |at| && at[j] == t;
        StandsOnce(g, x, DropOrder(g)[j], t);
        InOwnedOf(g, Entries(g), x);
      }
    }
  }

  /** Before a primary key or a unique, every foreign key. */
  lemma ForeignKeysFirst(g: Graph, i: nat, o: Stripped)
    requires i < |DropOrder(g)| && !DropOrder(g)[i].kind.ForeignKey?
    requires o in DropOrder(g) && o.kind.ForeignKey?
    ensures o in DropOrder(g)[..i]
  {
    hide DropOrder, Inherited;
    var at := DropsInOrder(g);
    var j :| 0 <= j < |DropOrder(g)| && DropOrder(g)[j] == o;
    assert j < i;
  }

  /** Strip never gets stuck and removes exactly the snapshot, FK cycles included. */
  lemma StripSucceeds(eng: Engine, g: Graph, rank: string -> nat, cat: set<Key>)
    requires SnapshotOk(g, rank) && CatalogMatches(g, cat)
    requires Inherits(eng, g.inheritEdges) && eng.refs == g.fkEdges
    ensures RunDrops(eng, None, cat, DropOrder(g)) == Some(cat - Snapshot(g))
  {
    hide SnapshotOk, RunDrops, DropOrder, Snapshot, CatalogMatches, Inherits;
    var order := DropOrder(g);
    forall i | 0 <= i < |order| ensures DropAccepted(eng, cat - Removed(eng, order[..i]), order[i]) {
      DropIsAccepted(eng, g, rank, cat, i);
    }
    AllAccepted(eng, cat, order);
    assert cat - Removed(eng, order) == cat - Snapshot(g) by {
      forall k | k in cat ensures k in Removed(eng, order) <==> k in Snapshot(g) {
        RemovedIsSnapshot(eng, g, rank, k);
      }
    }
  }

  lemma {:induction false} AllAccepted(eng: Engine, cat: set<Key>, order: seq<Stripped>)
    requires forall i :: 0 <= i < |order| ==> DropAccepted(eng, cat - Removed(eng, order[..i]), order[i])
    ensures RunDrops(eng, None, cat, order) == Some(cat - Removed(eng, order))
  {
    hide DropAccepted;
    if order == [] {
      assert cat - Removed(eng, order) == cat;
    } else {
      var init, last := order[..|order| - 1], order[|order| - 1];
      forall i | 0 <= i < |init| ensures DropAccepted(eng, cat - Removed(eng, init[..i]), init[i]) {
        assert init[i] == order[i] && init[..i] == order[..i];
      }
      AllAccepted(eng, cat, init);
      assert cat - Removed(eng, init) - eng.family(last.key) == cat - Removed(eng, order);
    }
  }

  lemma RemovedIsSnapshot(eng: Engine, g: Graph, rank: string -> nat, k: Key)
    requires SnapshotOk(g, rank) && Inherits(eng, g.inheritEdges)
    ensures k in Removed(eng, DropOrder(g)) <==> k in Snapshot(g)
  {
    hide SnapshotOk, Removed, Entries, OwnedOf, OwnedEntry, Ancestor;
    InRemoved(eng, DropOrder(g), k);
    if k in Snapshot(g) {
      var x :| x in Entries(g) && x.key == k;
      var o := OwnerOf(g, rank, x);
    }
    if k in Removed(eng, DropOrder(g)) {
      var c :| c in DropOrder(g) && k in Family(g.inheritEdges, c.key);
      InOwnedOf(g, Entries(g), c);
      if k != c.key {
        PassedDown(g, rank, k.cls, c);
      }
    }
  }
}
