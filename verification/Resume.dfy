/** Before a resumed run touches the target: the target must prove it is the database the
    manifest describes; and the reconcile step of a killed data phase. */
module Resume {
  import opened Schema

  /** A loaded row of a class. */
  datatype Row = Row(cls: string, id: nat)

  predicate EmptyClass(rows: multiset<Row>, cls: string) {
    forall r :: r in rows ==> r.cls != cls
  }

  /** What the manifest's marker makes true of the target it describes. */
  predicate Matches(g: Graph, stripped: seq<Stripped>, mustBeAbsent: bool, mustBeEmpty: bool,
                    classes: set<string>, indexes: set<Key>, rows: multiset<Row>) {
    && (forall n :: n in g.nodes ==> n.name in classes)
    && (mustBeAbsent ==> forall c :: c in stripped ==> c.key !in indexes)
    && (mustBeEmpty ==> forall n :: n in g.nodes ==> EmptyClass(rows, n.name))
  }

  method VerifyResumeTarget(g: Graph, stripped: seq<Stripped>, mustBeAbsent: bool, mustBeEmpty: bool,
                            classes: set<string>, indexes: set<Key>, rows: multiset<Row>)
    returns (ok: bool)
    ensures ok <==> Matches(g, stripped, mustBeAbsent, mustBeEmpty, classes, indexes, rows)
  {
    hide EmptyClass;
    for i := 0 to |g.nodes|
      invariant forall j :: 0 <= j < i ==> g.nodes[j].name in classes
    {
      if g.nodes[i].name !in classes {
        return false;
      }
    }
    if mustBeAbsent {
      for i := 0 to |stripped|
        invariant forall j :: 0 <= j < i ==> stripped[j].key !in indexes
      {
        if stripped[i].key in indexes {
          return false;
        }
      }
    }
    if mustBeEmpty {
      for i := 0 to |g.nodes|
        invariant forall j :: 0 <= j < i ==> EmptyClass(rows, g.nodes[j].name)
      {
        if !EmptyClass(rows, g.nodes[i].name) {
          return false;
        }
      }
    }
    return true;
  }

  /** The rows left when the classes of `nodes` are emptied. */
  ghost predicate Truncated(nodes: seq<Node>, rows: multiset<Row>, left: multiset<Row>) {
    forall r :: left[r] == if exists n :: n in nodes && n.name == r.cls then 0 else rows[r]
  }

  method TruncateClass(cls: string, rows: multiset<Row>) returns (left: multiset<Row>)
    ensures forall r: Row :: left[r] == if r.cls == cls then 0 else rows[r]
  {
    left := rows;
    var doomed := set r | r in rows && r.cls == cls;
    while doomed != {}
      invariant forall r: Row :: r in doomed ==> r.cls == cls
      invariant forall r: Row :: left[r] == if r.cls == cls && r !in doomed then 0 else rows[r]
      decreases doomed
    {
      var r :| r in doomed;
      left := left[r := 0];
      doomed := doomed - {r};
    }
  }

  method TruncateClasses(g: Graph, rows: multiset<Row>) returns (left: multiset<Row>)
    ensures Truncated(g.nodes, rows, left)
  {
    left := rows;
    for i := 0 to |g.nodes|
      invariant Truncated(g.nodes[..i], rows, left)
    {
      left := TruncateClass(g.nodes[i].name, left);
      assert g.nodes[..i + 1] == g.nodes[..i] + [g.nodes[i]];
    }
    assert g.nodes[..|g.nodes|] == g.nodes;
  }

  /** The specification of the reconcile step: unique by its characterisation. */
  ghost function AfterTruncate(nodes: seq<Node>, rows: multiset<Row>): (left: multiset<Row>)
    ensures Truncated(nodes, rows, left)
  {
    if nodes == [] then rows
    else
      var rest := AfterTruncate(nodes[..|nodes| - 1], rows);
      assert nodes == nodes[..|nodes| - 1] + [nodes[|nodes| - 1]];
      Drop(rest, set r | r in rest && r.cls == nodes[|nodes| - 1].name)
  }

  ghost function Drop(rows: multiset<Row>, doomed: set<Row>): (left: multiset<Row>)
    ensures forall r :: left[r] == if r in doomed then 0 else rows[r]
  {
    if doomed == {} then rows else
      var r :| r in doomed;
      Drop(rows, doomed - {r})[r := 0]
  }

  lemma TruncatedIsUnique(nodes: seq<Node>, rows: multiset<Row>, left: multiset<Row>)
    requires Truncated(nodes, rows, left)
    ensures left == AfterTruncate(nodes, rows)
  {
    var other := AfterTruncate(nodes, rows);
    forall r ensures left[r] == other[r] {}
  }
}
