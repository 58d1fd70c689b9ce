/** The detail lines of the [graph] section: one per node, foreign key and inheritance edge. */
module ManifestGraph {
  import opened Schema
  import opened DdlText
  import opened ManifestText
  import opened ManifestValues

  // ----- keyed fields -----

  datatype Attr = Attr(key: string, value: string)

  function AttrText(a: Attr): string { a.key + "=" + a.value }

  function AttrTexts(attrs: seq<Attr>): seq<string> {
    if attrs == [] then [] else [AttrText(attrs[0])] + AttrTexts(attrs[1..])
  }

  predicate StartsWith(s: string, prefix: string) { |prefix| <= |s| && s[..|prefix|] == prefix }

  /** The first field that starts with "<key>=", without it. */
  function FieldVal(fields: seq<string>, key: string): string {
    if fields == [] then ""
    else if StartsWith(fields[0], key + "=") then fields[0][|key| + 1..]
    else FieldVal(fields[1..], key)
  }

  predicate Keyed(attrs: seq<Attr>) {
    (forall a :: a in attrs ==> '=' !in a.key) && (forall i, j :: 0 <= i < j < |attrs| ==> attrs[i].key != attrs[j].key)
  }

  lemma {:induction false} FieldValAt(attrs: seq<Attr>, i: nat)
    requires Keyed(attrs) && i < |attrs|
    ensures FieldVal(AttrTexts(attrs), attrs[i].key) == attrs[i].value
  {
    hide CharAt;
    assert attrs[0] in attrs && attrs[i] in attrs;
    var s := AttrText(attrs[0]);
    CharAtIs(attrs[0].key, '=', attrs[0].value);
    assert s == attrs[0].key + ['='] + attrs[0].value && s[..|attrs[0].key| + 1] == attrs[0].key + "=";
    if StartsWith(s, (attrs[i].key) + "=") {
      var rest := s[|(attrs[i].key)| + 1..];
      assert s == (attrs[i].key) + ['='] + rest;
      CharAtIs((attrs[i].key), '=', rest);
      assert attrs[0].key == s[..|attrs[0].key|] && (attrs[i].key) == s[..|(attrs[i].key)|];
    }
    if i > 0 {
      assert Keyed(attrs[1..]);
      FieldValAt(attrs[1..], i - 1);
    }
  }

  // ----- list values inside a record -----

  lemma {:induction false} ListHasNo(items: seq<string>, c: char)
    requires c != ',' && c != ' ' && forall i :: i in items ==> c !in i
    ensures c !in JoinList(items)
  {
    if items != [] {
      assert items[0] in items;
      if |items| > 1 { ListHasNo(items[1..], c); }
    }
  }

  ghost predicate AreNames(items: seq<string>) { forall i :: i in items ==> IsName(i) && '\r' !in i }

  lemma NamesAreItems(items: seq<string>)
    requires AreNames(items)
    ensures forall i :: i in items ==> IsItem(i)
    ensures ParseList(JoinList(items)) == items && Trimmed(JoinList(items))
    ensures '\t' !in JoinList(items) && '\n' !in JoinList(items) && '\r' !in JoinList(items) && '|' !in JoinList(items)
  {
    hide ParseList, JoinList;
    ListRoundTrip(items);
    ListHasNo(items, '\t');
    ListHasNo(items, '\n');
    ListHasNo(items, '\r');
    ListHasNo(items, '|');
  }

  /** A value that can stand in a tab field behind its key. */
  predicate IsValue(v: string) { Trimmed(v) && '\t' !in v && '\n' !in v && '\r' !in v }

  predicate IsWord(k: string) { k != "" && Trimmed(k) && '\t' !in k && '\n' !in k && '\r' !in k && '=' !in k }

  lemma {:induction false} AttrsAreFields(attrs: seq<Attr>)
    requires forall a :: a in attrs ==> IsWord(a.key) && IsValue(a.value)
    ensures |AttrTexts(attrs)| == |attrs|
    ensures forall f :: f in AttrTexts(attrs) ==> IsField(f) && f != "" && '\n' !in f && '\r' !in f
  {
    if attrs != [] {
      assert attrs[0] in attrs;
      AttrsAreFields(attrs[1..]);
    }
  }

  // ----- a node -----

  function Flag(b: bool): string { if b then "1" else "0" }

  function NodeAttrs(n: Node): seq<Attr> {
    [Attr("cs", Flag(n.csLoadable)), Attr("part", Flag(n.partitioned)), Attr("pk", n.constraints.pk),
     Attr("uk", JoinList(n.constraints.unique)), Attr("fk", JoinList(n.constraints.fk)),
     Attr("partn", JoinList(n.partitions)), Attr("ser", JoinList(n.serials))]
  }

  function NodeText(n: Node): string { Record([n.name] + AttrTexts(NodeAttrs(n))) }

  function ParseNode(val: string): Option<Node> {
    var f := SplitChar(val, '\t');
    if f == [] || Trim(f[0]) == "" then None
    else
      var r := f[1..];
      Some(Node(Trim(f[0]), FieldVal(r, "cs") != "0", FieldVal(r, "part") == "1", ParseList(FieldVal(r, "partn")),
                Inventory(FieldVal(r, "pk"), ParseList(FieldVal(r, "uk")), ParseList(FieldVal(r, "fk"))),
                ParseList(FieldVal(r, "ser"))))
  }

  ghost predicate IsNode(n: Node) {
    && IsName(n.name) && '\r' !in n.name && (n.constraints.pk == "" || (IsName(n.constraints.pk) && '\r' !in n.constraints.pk))
    && AreNames(n.constraints.unique) && AreNames(n.constraints.fk) && AreNames(n.partitions) && AreNames(n.serials)
  }

  lemma NodeKeysAreWords()
    ensures IsWord("cs") && IsWord("part") && IsWord("pk") && IsWord("uk") && IsWord("fk") && IsWord("partn") && IsWord("ser")
  {
  }

  lemma FlagIsValue(b: bool)
    ensures IsValue(Flag(b))
  {
  }

  lemma NodeAttrsAre(n: Node)
    requires IsNode(n)
    ensures NodeAttrs(n) != [] && Keyed(NodeAttrs(n)) && forall a :: a in NodeAttrs(n) ==> IsWord(a.key) && IsValue(a.value)
  {
    hide JoinList, ParseList, IsName, IsWord, Flag, Keyed, AreNames, Trimmed;
    NodeKeysAreWords();
    NamesAreItems(n.constraints.unique);
    NamesAreItems(n.constraints.fk);
    NamesAreItems(n.partitions);
    NamesAreItems(n.serials);
    NameIsValue(n.constraints.pk);
    FlagIsValue(n.csLoadable);
    FlagIsValue(n.partitioned);
    NodeKeysDiffer(n);
    hide IsValue;
  }

  lemma NodeKeysDiffer(n: Node)
    ensures Keyed(NodeAttrs(n))
  {
    hide Flag, JoinList;
    var attrs := NodeAttrs(n);
    assert attrs[0].key == "cs" && attrs[1].key == "part" && attrs[2].key == "pk" && attrs[3].key == "uk";
    assert attrs[4].key == "fk" && attrs[5].key == "partn" && attrs[6].key == "ser";
  }

  lemma NameIsValue(s: string)
    ensures (s == "" || (IsName(s) && '\r' !in s)) ==> IsValue(s)
  {
  }

  lemma NodeFields(n: Node)
    requires Keyed(NodeAttrs(n))
    ensures var r := AttrTexts(NodeAttrs(n));
      && FieldVal(r, "cs") == Flag(n.csLoadable) && FieldVal(r, "part") == Flag(n.partitioned)
      && FieldVal(r, "pk") == n.constraints.pk && FieldVal(r, "uk") == JoinList(n.constraints.unique)
      && FieldVal(r, "fk") == JoinList(n.constraints.fk) && FieldVal(r, "partn") == JoinList(n.partitions)
      && FieldVal(r, "ser") == JoinList(n.serials)
  {
    hide AttrTexts, FieldVal, JoinList, Keyed, Flag;
    var attrs := NodeAttrs(n);
    FieldValAt(attrs, 0);
    FieldValAt(attrs, 1);
    FieldValAt(attrs, 2);
    FieldValAt(attrs, 3);
    FieldValAt(attrs, 4);
    FieldValAt(attrs, 5);
    FieldValAt(attrs, 6);
  }

  /** A name and its keyed fields come apart again. */
  lemma KeyedRecord(head: seq<string>, attrs: seq<Attr>)
    requires head != [] && attrs != [] && Keyed(attrs) && forall a :: a in attrs ==> IsWord(a.key) && IsValue(a.value)
    requires forall h :: h in head ==> IsField(h) && h != ""
    ensures SplitChar(Trim(Record(head + AttrTexts(attrs))), '\t') == head + AttrTexts(attrs)
  {
    hide Trim, IsWord, IsValue, IsField;
    AttrsAreFields(attrs);
    var fields := head + AttrTexts(attrs);
    assert fields[|fields| - 1] in AttrTexts(attrs) && fields[0] in head;
    RecordRoundTrip(fields);
  }

  lemma NameFacts(s: string)
    requires IsName(s)
    ensures s != "" && IsField(s) && Trim(s) == s
  {
    TrimIdle(s);
  }

  lemma FlagReads(b: bool)
    ensures (Flag(b) != "0") == b && (Flag(b) == "1") == b
  {
  }

  lemma NodeRoundTrip(n: Node)
    requires IsNode(n)
    ensures ParseNode(Trim(NodeText(n))) == Some(n)
  {
    hide Trim, FieldVal, ParseList, JoinList, AttrTexts, Join, SplitChar, NodeAttrs, IsWord, IsValue, Keyed, IsName,
         IsField, Flag, Trimmed;
    NodeAttrsAre(n);
    NodeFields(n);
    NameFacts(n.name);
    KeyedRecord([n.name], NodeAttrs(n));
    NamesAreItems(n.constraints.unique);
    NamesAreItems(n.constraints.fk);
    NamesAreItems(n.partitions);
    NamesAreItems(n.serials);
    FlagReads(n.csLoadable);
    FlagReads(n.partitioned);
    assert ([n.name] + AttrTexts(NodeAttrs(n)))[1..] == AttrTexts(NodeAttrs(n));
  }

  // ----- a foreign key and an inheritance edge -----

  function EdgeAttrs(e: FkEdge): seq<Attr> {
    [Attr("cc", JoinList(e.childColumns)), Attr("ppk", JoinList(e.parentPkColumns)), Attr("cpk", JoinList(e.childPkColumns))]
  }

  function EdgeText(e: FkEdge): string { Record([e.child, e.parent, e.name] + AttrTexts(EdgeAttrs(e))) }

  function ParseEdge(val: string): Option<FkEdge> {
    var f := SplitChar(val, '\t');
    if |f| < 3 then None
    else
      var r := f[3..];
      Some(FkEdge(Trim(f[0]), Trim(f[1]), Trim(f[2]), ParseList(FieldVal(r, "cc")), ParseList(FieldVal(r, "ppk")),
                  ParseList(FieldVal(r, "cpk"))))
  }

  ghost predicate IsPlainName(s: string) { IsName(s) && '\r' !in s }

  ghost predicate IsEdge(e: FkEdge) {
    && IsPlainName(e.child) && IsPlainName(e.parent) && IsPlainName(e.name)
    && AreNames(e.childColumns) && AreNames(e.parentPkColumns) && AreNames(e.childPkColumns)
  }

  lemma EdgeAttrsAre(e: FkEdge)
    requires IsEdge(e)
    ensures Keyed(EdgeAttrs(e)) && forall a :: a in EdgeAttrs(e) ==> IsWord(a.key) && IsValue(a.value)
  {
    hide JoinList, ParseList, IsName, AreNames, IsItem;
    assert IsWord("cc") && IsWord("ppk") && IsWord("cpk");
    NamesAreItems(e.childColumns);
    NamesAreItems(e.parentPkColumns);
    NamesAreItems(e.childPkColumns);
    var attrs := EdgeAttrs(e);
    assert attrs[0].key == "cc" && attrs[1].key == "ppk" && attrs[2].key == "cpk";
  }

  lemma EdgeRoundTrip(e: FkEdge)
    requires IsEdge(e)
    ensures ParseEdge(Trim(EdgeText(e))) == Some(e)
  {
    hide Trim, AttrTexts, AreNames, Trimmed, Join, Keyed, FieldVal;
    EdgeAttrsAre(e);
    FieldValAt(EdgeAttrs(e), 0);
    FieldValAt(EdgeAttrs(e), 1);
    FieldValAt(EdgeAttrs(e), 2);
    KeyedRecord([e.child, e.parent, e.name], EdgeAttrs(e));
    NamesAreItems(e.childColumns);
    NamesAreItems(e.parentPkColumns);
    NamesAreItems(e.childPkColumns);
    TrimIdle(e.child);
    TrimIdle(e.parent);
    TrimIdle(e.name);
    hide Trim, FieldVal, ParseList, JoinList, AttrTexts, Join, SplitChar, EdgeAttrs, IsWord, IsValue, Keyed;
    assert ([e.child, e.parent, e.name] + AttrTexts(EdgeAttrs(e)))[3..] == AttrTexts(EdgeAttrs(e));
  }

  function InheritText(e: InheritEdge): string { Record([e.child, e.super]) }

  function ParseInherit(val: string): Option<InheritEdge> {
    var f := SplitChar(val, '\t');
    if |f| < 2 then None else Some(InheritEdge(Trim(f[0]), Trim(f[1])))
  }

  lemma InheritRoundTrip(e: InheritEdge)
    requires IsPlainName(e.child) && IsPlainName(e.super)
    ensures ParseInherit(Trim(InheritText(e))) == Some(e)
  {
    hide Trim, SplitChar, Join;
    RecordRoundTrip([e.child, e.super]);
    TrimIdle(e.child);
    TrimIdle(e.super);
  }
}
