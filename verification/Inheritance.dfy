/** Who owns a constraint: `is_inherited_constraint` of the strip phase, a worklist over
    superclasses, against "some transitive superclass lists this name". */
module Inheritance {
  import opened Schema

  /** `p` climbs from class to superclass along inheritance edges. */
  ghost predicate Climb(inh: seq<InheritEdge>, p: seq<string>) {
    |p| >= 2 && forall i :: 0 <= i < |p| - 1 ==> InheritEdge(p[i], p[i + 1]) in inh
  }

  ghost predicate ClimbFromTo(inh: seq<InheritEdge>, p: seq<string>, c: string, a: string) {
    Climb(inh, p) && p[0] == c && p[|p| - 1] == a
  }

  /** `a` is a direct or transitive superclass of `c`. */
  ghost predicate Ancestor(inh: seq<InheritEdge>, c: string, a: string) {
    exists p :: ClimbFromTo(inh, p, c, a)
  }

  /** The class index the strip phase builds; a repeated name keeps the last node. */
  function ByName(nodes: seq<Node>): map<string, Node> {
    if nodes == [] then map[]
    else ByName(nodes[..|nodes| - 1])[nodes[|nodes| - 1].name := nodes[|nodes| - 1]]
  }

  lemma ByNameIs(nodes: seq<Node>, c: string)
    ensures c in ByName(nodes) ==> ByName(nodes)[c] in nodes && ByName(nodes)[c].name == c
    ensures c in ByName(nodes) <==> exists n :: n in nodes && n.name == c
  {
    if nodes != [] {
      assert nodes == nodes[..|nodes| - 1] + [nodes[|nodes| - 1]];
    }
  }

  /** `name` on `cls` comes from a superclass. */
  ghost predicate Inherited(g: Graph, cls: string, name: string) {
    exists a :: Ancestor(g.inheritEdges, cls, a) && a in ByName(g.nodes) && Lists(ByName(g.nodes)[a], name)
  }

  lemma AncestorStep(inh: seq<InheritEdge>, c: string, s: string)
    requires InheritEdge(c, s) in inh
    ensures Ancestor(inh, c, s)
    ensures forall a :: Ancestor(inh, s, a) ==> Ancestor(inh, c, a)
  {
    assert ClimbFromTo(inh, [c, s], c, s);
    forall a | Ancestor(inh, s, a) ensures Ancestor(inh, c, a) {
      var p :| ClimbFromTo(inh, p, s, a);
      assert ClimbFromTo(inh, [c] + p, c, a);
    }
  }

  lemma AncestorExtend(inh: seq<InheritEdge>, c: string, a: string, s: string)
    requires Ancestor(inh, c, a) && InheritEdge(a, s) in inh
    ensures Ancestor(inh, c, s)
  {
    var p :| ClimbFromTo(inh, p, c, a);
    var q := p + [s];
    assert forall i :: 0 <= i < |q| - 1 ==> InheritEdge(q[i], q[i + 1]) in inh;
    assert ClimbFromTo(inh, q, c, s);
  }

  lemma AncestorTransitive(inh: seq<InheritEdge>, c: string, a: string, b: string)
    requires Ancestor(inh, c, a) && Ancestor(inh, a, b)
    ensures Ancestor(inh, c, b)
  {
    var p :| ClimbFromTo(inh, p, c, a);
    var q :| ClimbFromTo(inh, q, a, b);
    var r := p + q[1..];
    forall i | 0 <= i < |r| - 1 ensures InheritEdge(r[i], r[i + 1]) in inh {
      if i >= |p| - 1 {
        assert r[i] == q[i - |p| + 1] && r[i + 1] == q[i - |p| + 2];
      }
    }
    assert ClimbFromTo(inh, r, c, b);
  }

  /** A set of classes that holds every superclass of `c` and of its own members holds
      every transitive superclass of `c`. */
  lemma ClosedSetHoldsAncestors(inh: seq<InheritEdge>, c: string, closed: set<string>, a: string)
    requires forall e :: e in inh && (e.child == c || e.child in closed) ==> e.super in closed
    requires Ancestor(inh, c, a)
    ensures a in closed
  {
    var p :| ClimbFromTo(inh, p, c, a);
    var i := 1;
    assert InheritEdge(p[0], p[1]) in inh;
    while i < |p| - 1
      invariant 1 <= i < |p| && p[i] in closed
    {
      assert InheritEdge(p[i], p[i + 1]) in inh;
      i := i + 1;
    }
  }

  ghost predicate IndexesSupers(supers: map<string, seq<string>>, inh: seq<InheritEdge>) {
    forall c, s :: c in supers && s in supers[c] <==> InheritEdge(c, s) in inh
  }

  /** The direct superclasses of each class, in edge order. */
  method IndexSupers(inh: seq<InheritEdge>) returns (supers: map<string, seq<string>>)
    ensures IndexesSupers(supers, inh)
  {
    supers := map[];
    for i := 0 to |inh|
      invariant forall c, s :: c in supers && s in supers[c] <==> InheritEdge(c, s) in inh[..i]
    {
      var e := inh[i];
      assert inh[..i + 1] == inh[..i] + [e];
      var was := if e.child in supers then supers[e.child] else [];
      supers := supers[e.child := was + [e.super]];
    }
    assert inh[..|inh|] == inh;
  }

  method IndexByName(nodes: seq<Node>) returns (byName: map<string, Node>)
    ensures byName == ByName(nodes)
  {
    byName := map[];
    for i := 0 to |nodes|
      invariant byName == ByName(nodes[..i])
    {
      assert nodes[..i + 1][..i] == nodes[..i];
      byName := byName[nodes[i].name := nodes[i]];
    }
    assert nodes[..|nodes|] == nodes;
  }

  /** The worklist terminates on every input, cyclic inheritance included, and answers
      exactly whether some transitive superclass lists `name`. */
  method IsInheritedConstraint(ghost g: Graph, byName: map<string, Node>, supers: map<string, seq<string>>,
                               cls: string, name: string)
    returns (inherited: bool)
    requires byName == ByName(g.nodes)
    requires IndexesSupers(supers, g.inheritEdges)
    ensures inherited <==> Inherited(g, cls, name)
  {
    hide ByName, Ancestor;
    ghost var inh := g.inheritEdges;
    ghost var all := set e | e in inh :: e.super;
    var pending: seq<string> := if cls in supers then supers[cls] else [];
    var seen: set<string> := {};
    forall s | s in pending ensures Ancestor(inh, cls, s) && s in all {
      assert InheritEdge(cls, s) in inh;
      AncestorStep(inh, cls, s);
    }
    while pending != []
      invariant forall s :: s in pending || s in seen ==> Ancestor(inh, cls, s) && s in all
      invariant forall e :: e in inh && (e.child == cls || e.child in seen) ==> e.super in seen || e.super in pending
      invariant forall a :: a in seen && a in byName ==> !Lists(byName[a], name)
      decreases all - seen, |pending|
    {
      var super := pending[|pending| - 1];
      ghost var before := pending;
      pending := pending[..|pending| - 1];
      assert before == pending + [super];
      if super in seen {
        continue;
      }
      seen := seen + {super};
      if super in byName && Lists(byName[super], name) {
        return true;
      }
      if super in supers {
        forall s | s in supers[super] ensures Ancestor(inh, cls, s) && s in all {
          assert InheritEdge(super, s) in inh;
          AncestorExtend(inh, cls, super, s);
        }
        pending := pending + supers[super];
      }
      forall e | e in inh && e.child == super ensures e.super in pending {
        assert InheritEdge(super, e.super) in inh;
      }
    }
    forall a | Ancestor(inh, cls, a) ensures a in seen {
      ClosedSetHoldsAncestors(inh, cls, seen, a);
    }
    return false;
  }
}
