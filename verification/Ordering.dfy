/** The order the source's sorted containers iterate in. */
module Ordering {
  import opened Schema

  predicate Less(a: string, b: string) {
    if b == "" then false
    else if a == "" then true
    else if a[0] != b[0] then a[0] < b[0]
    else Less(a[1..], b[1..])
  }

  lemma LessIsStrictOrder(a: string, b: string, c: string)
    ensures !Less(a, a)
    ensures Less(a, b) ==> !Less(b, a)
    ensures Less(a, b) && Less(b, c) ==> Less(a, c)
    ensures a != b ==> Less(a, b) || Less(b, a)
  {
    if a != "" && b != "" && a[0] == b[0] {
      assert a == [a[0]] + a[1..] && b == [b[0]] + b[1..];
      LessIsStrictOrder(a[1..], b[1..], if c == "" then "" else c[1..]);
    } else if a != "" {
      LessIsStrictOrder(a[1..], a[1..], "");
    }
  }

  /** Position of a constraint in the source's maps. */
  function ConstraintKey(k: Key): string { k.cls + "\t" + k.name }

  /** Inserting into a sorted map of constraints; an existing entry stays. */
  function InsertKey(s: seq<Key>, k: Key): (r: seq<Key>)
    ensures k in s ==> multiset(r) == multiset(s)
    ensures k !in s ==> multiset(r) == multiset(s) + multiset{k}
  {
    if s == [] then [k]
    else if k == s[0] then s
    else if k !in s && Less(ConstraintKey(k), ConstraintKey(s[0])) then [k] + s
    else
      assert s == [s[0]] + s[1..];
      [s[0]] + InsertKey(s[1..], k)
  }

  ghost predicate Sorted(s: seq<string>) {
    forall i, j :: 0 <= i < j < |s| ==> Less(s[i], s[j])
  }

  /** Inserting into a sorted set of names. */
  function InsertName(s: seq<string>, n: string): seq<string> {
    if s == [] then [n]
    else if n == s[0] then s
    else if Less(n, s[0]) then [n] + s
    else [s[0]] + InsertName(s[1..], n)
  }

  lemma {:induction false} InsertedNames(s: seq<string>, n: string, x: string)
    ensures x in InsertName(s, n) <==> x in s || x == n
  {
    if s != [] {
      assert s == [s[0]] + s[1..];
      InsertedNames(s[1..], n, x);
    }
  }

  lemma {:induction false} InsertKeepsSorted(s: seq<string>, n: string)
    requires Sorted(s)
    ensures Sorted(InsertName(s, n))
  {
    hide Less;
    if s != [] && n != s[0] && !Less(n, s[0]) {
      LessIsStrictOrder(s[0], n, "");
      InsertKeepsSorted(s[1..], n);
      forall x | x in InsertName(s[1..], n) ensures Less(s[0], x) { InsertedNames(s[1..], n, x); }
    } else if s != [] && n != s[0] {
      forall x | x in s ensures Less(n, x) { LessIsStrictOrder(n, s[0], x); }
    }
  }
}
