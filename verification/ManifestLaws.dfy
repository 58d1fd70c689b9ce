/** Reading back what was written: over the identifiers the format can carry, every record
    comes back, and where one does not the exact condition is given. */
module ManifestLaws {
  import opened Schema
  import opened DdlText
  import opened ManifestText
  import opened ManifestValues
  import opened ManifestGraph
  import opened Manifest
  import Rebuild

  // ----- lines under one header -----

  /** What the lines make of a record, `read` being the section's reader. */
  function Fold<R>(r: R, lines: seq<Line>, read: (R, string, string) -> R): R
    decreases |lines|
  {
    if lines == [] then r
    else Fold(if lines[0].Pair? then read(r, lines[0].key, Trim(lines[0].value)) else r, lines[1..], read)
  }

  predicate OneLine(s: string) { '\n' !in s && '\r' !in s }

  /** A pair that survives being written. */
  predicate Sound(l: Line) { l.Pair? && IsKey(l.key) && OneLine(l.key) && OneLine(l.value) }

  /** The lines survive being written and take the record from `r` to `s`. */
  ghost predicate Takes<R>(r: R, lines: seq<Line>, read: (R, string, string) -> R, s: R) {
    Fold(r, lines, read) == s && forall l :: l in lines ==> Sound(l)
  }

  lemma {:induction false} FoldConcat<R>(r: R, a: seq<Line>, b: seq<Line>, read: (R, string, string) -> R)
    ensures Fold(r, a + b, read) == Fold(Fold(r, a, read), b, read)
    decreases |a|
  {
    hide Trim;
    if a == [] {
      assert a + b == b;
    } else {
      assert (a + b)[1..] == a[1..] + b;
      FoldConcat(if a[0].Pair? then read(r, a[0].key, Trim(a[0].value)) else r, a[1..], b, read);
    }
  }

  lemma Then<R>(r: R, a: seq<Line>, read: (R, string, string) -> R, s: R, b: seq<Line>, t: R)
    requires Takes(r, a, read, s) && Takes(s, b, read, t)
    ensures Takes(r, a + b, read, t)
  {
    hide Sound;
    FoldConcat(r, a, b, read);
  }

  lemma TakesOne<R>(r: R, k: string, v: string, read: (R, string, string) -> R)
    requires IsKey(k) && OneLine(k) && OneLine(v)
    ensures Takes(r, [Pair(k, v)], read, read(r, k, Trim(v)))
  {
    hide Trim, IsKey;
    assert [Pair(k, v)][1..] == [] && Fold(read(r, k, Trim(v)), [], read) == read(r, k, Trim(v));
  }

  /** Lines the reader passes over. */
  lemma {:induction false} Ignored<R(!new)>(r: R, lines: seq<Line>, read: (R, string, string) -> R)
    requires forall l :: l in lines ==> Sound(l) && forall v :: read(r, l.key, v) == r
    ensures Takes(r, lines, read, r)
  {
    hide Trim, Sound;
    if lines != [] {
      assert lines[0] in lines;
      Ignored(r, lines[1..], read);
    }
  }

  /** One law for every list of a record: when each item's lines put the item in, all the lines
      put all the items in. */
  lemma {:induction false} EachTakes<T(!new), R(!new)>(r: R, xs: seq<T>, lines: T -> seq<Line>, read: (R, string, string) -> R,
                                                       put: (R, seq<T>) -> R)
    requires forall e :: put(e, []) == e
    requires forall e, x, rest :: put(put(e, [x]), rest) == put(e, [x] + rest)
    requires forall e, x :: x in xs ==> Takes(e, lines(x), read, put(e, [x]))
    ensures Takes(r, Each(xs, lines), read, put(r, xs))
    decreases |xs|
  {
    hide Takes;
    if xs == [] {
      assert Takes(r, [], read, r) by { Ignored(r, [], read); }
    } else {
      assert xs[0] in xs && xs == [xs[0]] + xs[1..];
      EachTakes(put(r, [xs[0]]), xs[1..], lines, read, put);
      Then(r, lines(xs[0]), read, put(r, [xs[0]]), Each(xs[1..], lines), put(r, xs));
    }
  }

  /** The same for a list that is a field of the record. */
  lemma EachAppends<T(!new), R(!new)>(r: R, xs: seq<T>, lines: T -> seq<Line>, read: (R, string, string) -> R,
                                      get: R -> seq<T>, upd: (R, seq<T>) -> R)
    requires forall e :: upd(e, get(e)) == e
    requires forall e, v :: get(upd(e, v)) == v
    requires forall e, v, w :: upd(upd(e, v), w) == upd(e, w)
    requires forall e, x :: x in xs ==> Takes(e, lines(x), read, upd(e, get(e) + [x]))
    ensures Takes(r, Each(xs, lines), read, upd(r, get(r) + xs))
  {
    hide Takes, Each;
    var put := (e: R, v: seq<T>) => upd(e, get(e) + v);
    forall e ensures put(e, []) == e { assert get(e) + [] == get(e); }
    forall e, x, rest ensures put(put(e, [x]), rest) == put(e, [x] + rest) {
      assert get(e) + [x] + rest == get(e) + ([x] + rest);
    }
    EachTakes(r, xs, lines, read, put);
  }

  // ----- one line -----

  /** A word of small letters and underscores is a key. */
  predicate IsKeyWord(k: string) { k != "" && forall i :: 0 <= i < |k| ==> 'a' <= k[i] <= 'z' || k[i] == '_' }

  lemma KeyWord(k: string)
    requires IsKeyWord(k)
    ensures IsKey(k) && OneLine(k)
  {
    assert k[0] in k && k[|k| - 1] in k;
  }

  lemma CountIsSound(k: string, n: nat)
    requires IsKeyWord(k)
    ensures Sound(Count(k, n)) && Count(k, n).key == k
  {
    hide IsKeyWord, IsKey, Dec;
    KeyWord(k);
    DigitsAreOneLine(n);
  }

  lemma DigitsAreOneLine(n: nat)
    ensures OneLine(Dec(n)) && Trim(Dec(n)) == Dec(n) && Number(Dec(n)) == n
  {
    hide Trim, Number;
    NumberRoundTrip(n);
    TrimIdle(Dec(n));
    forall c | c in Dec(n) ensures c != '\r' {}
  }

  lemma {:induction false} JoinIsOneLine(parts: seq<string>, sep: string)
    requires OneLine(sep) && forall f :: f in parts ==> OneLine(f)
    ensures OneLine(Join(parts, sep))
  {
    if parts != [] {
      assert parts[0] in parts;
      if |parts| > 1 { JoinIsOneLine(parts[1..], sep); }
    }
  }

  // ----- [graph] -----

  ghost predicate IsInherit(e: InheritEdge) { IsPlainName(e.child) && IsPlainName(e.super) }

  ghost predicate IsWalk(w: seq<string>) { w != [] && forall n :: n in w ==> IsPlainName(n) }

  lemma GraphKeys()
    ensures IsKey("gnode") && OneLine("gnode") && IsKey("gfk") && OneLine("gfk") && IsKey("ginh") && OneLine("ginh")
    ensures IsKey("cycle") && OneLine("cycle")
  {
    hide IsKey, OneLine, IsKeyWord;
    KeyWord("gnode");
    KeyWord("gfk");
    KeyWord("ginh");
    KeyWord("cycle");
  }

  lemma NodeIsOneLine(n: Node)
    requires IsNode(n)
    ensures OneLine(NodeText(n))
  {
    hide NodeAttrs, IsWord, IsValue, Keyed, AttrTexts;
    NodeAttrsAre(n);
    AttrsAreFields(NodeAttrs(n));
    JoinIsOneLine([n.name] + AttrTexts(NodeAttrs(n)), "\t");
  }

  lemma EdgeIsOneLine(e: FkEdge)
    requires IsEdge(e)
    ensures OneLine(EdgeText(e))
  {
    hide EdgeAttrs, IsWord, IsValue, Keyed, AttrTexts;
    EdgeAttrsAre(e);
    AttrsAreFields(EdgeAttrs(e));
    JoinIsOneLine([e.child, e.parent, e.name] + AttrTexts(EdgeAttrs(e)), "\t");
  }

  // ----- stripped and rebuilt keys -----

  ghost predicate IsKeyed(x: Stripped) { IsPlainName(x.key.cls) && IsPlainName(x.key.name) }

  function KeyFields(x: Stripped): seq<string> { [KindName(x.kind), x.key.cls, x.key.name] }

  lemma KindReads(k: Kind)
    ensures KindOf(KindName(k)) == Some(k) && IsField(KindName(k)) && KindName(k) != "" && OneLine(KindName(k))
  {
  }

  lemma KeyRecordReads(x: Stripped)
    requires IsKeyed(x)
    ensures (forall v :: v in KeyFields(x) ==> IsField(v) && v != "" && OneLine(v)) && ReadKey(KeyFields(x)) == Some(x)
    ensures SplitRecord(Trim(KeyRecord(x))) == KeyFields(x) && OneLine(KeyRecord(x))
  {
    hide Trim, SplitRecord, Join, KindName, KindOf, SplitChar;
    KindReads(x.kind);
    RecordRoundTrip(KeyFields(x));
    JoinIsOneLine(KeyFields(x), "\t");
  }

  lemma KeyLineKeys()
    ensures IsKey("drop") && OneLine("drop") && IsKey("ok") && OneLine("ok")
  {
    hide IsKey, OneLine;
    KeyWord("drop");
    KeyWord("ok");
  }

  // ----- [rebuild] -----

  /** A reason that fits in a tab field. */
  ghost predicate IsReason(r: string) { IsField(r) && OneLine(r) }

  /** Prose or a statement on one line. */
  ghost predicate IsText(t: string) { Trimmed(t) && OneLine(t) }

  ghost predicate IsPending(p: Rebuild.Pending) { IsKeyed(p.what) && IsReason(p.reason) && IsText(p.readd) }

  /** What an empty re-add statement comes back as. */
  function Printed(p: Rebuild.Pending): Rebuild.Pending { p.(readd := OrNone(p.readd)) }

  function PrintedAll(ps: seq<Rebuild.Pending>): seq<Rebuild.Pending> {
    if ps == [] then [] else [Printed(ps[0])] + PrintedAll(ps[1..])
  }

  /** A record whose last field may be empty still gives its fields and its reason. */
  lemma ReasonedRecord(head: seq<string>, reason: string)
    requires |head| > 1 && (forall f :: f in head ==> IsField(f) && f != "" && OneLine(f)) && IsReason(reason)
    ensures var f := SplitRecord(Trim(Record(head + [reason])));
      && |f| >= |head| && f[..|head|] == head && Reason(f, |head|) == reason && OneLine(Record(head + [reason]))
  {
    hide Trim, SplitRecord, Join, IsField;
    JoinIsOneLine(head + [reason], "\t");
    assert head[0] in head && head[|head| - 1] in head;
    if reason == "" {
      ShortRecord(head);
    } else {
      RecordRoundTrip(head + [reason]);
    }
  }

  lemma RebuildKeys()
    ensures IsKey("fail") && OneLine("fail") && IsKey("fail_readd") && OneLine("fail_readd") && IsKey("index") && OneLine("index")
    ensures IsKey("index_fail") && OneLine("index_fail") && IsKey("withhold") && OneLine("withhold")
  {
    hide IsKey, OneLine, IsKeyWord;
    KeyWord("fail");
    KeyWord("fail_readd");
    KeyWord("index");
    KeyWord("index_fail");
    KeyWord("withhold");
  }

  lemma FailLine(r: Rebuild.Summary, p: Rebuild.Pending)
    requires IsPending(p)
    ensures Takes(r, [Pair("fail", FailText(p))], ReadRebuild,
                  r.(pending := r.pending + [Rebuild.Pending(p.what, p.reason, "")]))
  {
    hide Takes, Trim, SplitRecord, Join, KindName, IsReason, IsKeyed, Reason, IsField, IsKey, OneLine, ReadKey, IsText;
    RebuildKeys();
    KeyRecordReads(p.what);
    ReasonedRecord(KeyFields(p.what), p.reason);
    assert KeyFields(p.what) + [p.reason] == [KindName(p.what.kind), p.what.key.cls, p.what.key.name, p.reason];
    var f := SplitRecord(Trim(FailText(p)));
    KeyPrefix(f, p.what);
    TakesOne(r, "fail", FailText(p), ReadRebuild);
  }

  lemma KeyPrefix(f: seq<string>, x: Stripped)
    requires |f| >= 3 && f[..3] == KeyFields(x) && ReadKey(KeyFields(x)) == Some(x)
    ensures ReadKey(f) == Some(x)
  {
    hide KindOf, KindName;
    assert f[0] == f[..3][0] && f[1] == f[..3][1] && f[2] == f[..3][2];
  }

  lemma FailReaddLine(r: Rebuild.Summary, p: Rebuild.Pending)
    requires r.pending != [] && r.pending[|r.pending| - 1] == Rebuild.Pending(p.what, p.reason, "") && IsText(p.readd)
    ensures Takes(r, [Pair("fail_readd", OrNone(p.readd))], ReadRebuild,
                  r.(pending := r.pending[..|r.pending| - 1] + [Printed(p)]))
  {
    hide Takes, Trim, SplitRecord, Reason, IsKey, ReadKey;
    RebuildKeys();
    TrimIdle(OrNone(p.readd));
    assert r.pending[|r.pending| - 1 := Printed(p)] == r.pending[..|r.pending| - 1] + [Printed(p)];
    TakesOne(r, "fail_readd", OrNone(p.readd), ReadRebuild);
  }

  lemma OnePending(r: Rebuild.Summary, p: Rebuild.Pending)
    requires IsPending(p)
    ensures Takes(r, PendingLine(p), ReadRebuild, r.(pending := r.pending + [Printed(p)]))
  {
    hide Takes, FailText, OrNone, IsKeyed, IsReason, IsText, ReadRebuild;
    var s := r.(pending := r.pending + [Rebuild.Pending(p.what, p.reason, "")]);
    FailLine(r, p);
    FailReaddLine(s, p);
    assert s.pending[..|s.pending| - 1] == r.pending;
    Then(r, [Pair("fail", FailText(p))], ReadRebuild, s, [Pair("fail_readd", OrNone(p.readd))],
         r.(pending := r.pending + [Printed(p)]));
  }

  /** An index failure comes back exactly when it has a reason or its name is one word. */
  ghost predicate IsFailed(f: Rebuild.FailedIndex) {
    IsPlainName(f.name) && IsReason(f.reason) && (f.reason != "" || ' ' !in f.name)
  }

  lemma FailedRecord(f: Rebuild.FailedIndex)
    requires IsPlainName(f.name) && IsReason(f.reason)
    ensures var r := SplitRecord(Trim(Record([f.name, f.reason])));
      (r != [] && r[0] == f.name && Reason(r, 1) == f.reason) <==> f.reason != "" || ' ' !in f.name
  {
    hide Trim, SplitRecord, Join, Words;
    if f.reason == "" {
      LoneName(f.name);
      if ' ' in f.name { FirstWord(f.name); }
    } else {
      RecordRoundTrip([f.name, f.reason]);
    }
  }

  ghost predicate IsCascade(w: Rebuild.WithheldFk) {
    IsPlainName(w.child) && IsPlainName(w.parent) && IsPlainName(w.name) && IsReason(w.reason)
  }

  lemma CascadeReads(w: Rebuild.WithheldFk)
    requires IsCascade(w)
    ensures var f := SplitRecord(Trim(Record([w.child, w.parent, w.name, w.reason])));
      && |f| >= 3 && f[0] == w.child && f[1] == w.parent && f[2] == w.name && Reason(f, 3) == w.reason
    ensures OneLine(Record([w.child, w.parent, w.name, w.reason]))
  {
    hide SplitRecord, Trim, Record;
    var head := [w.child, w.parent, w.name];
    ReasonedRecord(head, w.reason);
    hide Trim, SplitRecord, Join, Reason, IsCascade;
    assert head + [w.reason] == [w.child, w.parent, w.name, w.reason];
    var f := SplitRecord(Trim(Record(head + [w.reason])));
    assert f[0] == f[..3][0] && f[1] == f[..3][1] && f[2] == f[..3][2];
  }

  // ----- [load] -----

  ghost predicate IsFile(f: LoadFile) { f.name != "" && OneLine(f.name) && forall c :: c in f.name ==> !Blank(c) }

  lemma FileReads(f: LoadFile)
    requires IsFile(f)
    ensures OneLine(FileText(f)) && Trim(FileText(f)) == FileText(f) && ReadFile(FileText(f)) == Some(f)
  {
    hide Trim, SplitChar, Dec, Number, OneLine;
    var parts := [f.name, Dec(f.rows), Dec(f.failed)];
    NumberRoundTrip(f.rows);
    NumberRoundTrip(f.failed);
    DigitsAreOneLine(f.rows);
    DigitsAreOneLine(f.failed);
    assert f.name[0] in f.name;
    assert ' ' !in f.name;
    assert parts[1..] == [Dec(f.rows), Dec(f.failed)] && parts[1..][1..] == [Dec(f.failed)];
    assert Join(parts[1..], " ") == Dec(f.rows) + " " + Dec(f.failed);
    assert Join(parts, " ") == FileText(f);
    SplitJoin(parts, ' ');
    JoinIsOneLine(parts, " ");
    JoinEnds(parts, " ");
    TrimIdle(FileText(f));
  }

  // ----- [validate] -----

  ghost predicate IsResult(e: EdgeResult) {
    IsRef(e.edge) && OneLine(RefText(e.edge)) && (e.skipped ==> e.orphans == 0)
  }

  function Tally(v: Validation, e: EdgeResult): Validation {
    if e.skipped then v.(edges := v.edges + [e], skipped := v.skipped + 1)
    else if e.orphans > 0 then
      v.(edges := v.edges + [e], violated := v.violated + 1, totalOrphans := v.totalOrphans + e.orphans)
    else v.(edges := v.edges + [e], validated := v.validated + 1)
  }

  /** What the edge lines alone give back: the tallies are counted again. */
  function TallyAll(v: Validation, es: seq<EdgeResult>): Validation
    decreases |es|
  {
    if es == [] then v else TallyAll(Tally(v, es[0]), es[1..])
  }

  /** How the reader classifies a status. */
  predicate StatusIs(t: string, e: EdgeResult) {
    && t != "" && Trimmed(t) && OneLine(t) && StartsWith(t, "skipped") == e.skipped
    && (!e.skipped ==> StartsWith(t, "violated") == (e.orphans > 0))
    && (e.orphans > 0 ==> |t| >= 8 && Number(t[8..]) == e.orphans)
  }

  lemma StatusReads(e: EdgeResult)
    requires e.skipped ==> e.orphans == 0
    ensures StatusIs(StatusText(e), e)
  {
    hide Dec, Number, Trim;
    if e.skipped {
    } else if e.orphans > 0 {
      var t := "violated " + Dec(e.orphans);
      NumberRoundTrip(e.orphans);
      DigitsAreOneLine(e.orphans);
      assert t == "violated" + (" " + Dec(e.orphans)) && t[..8] == "violated" && t[8..] == " " + Dec(e.orphans);
      assert t[..7][0] == 'v';
    }
  }

  lemma OneResult(v: Validation, e: EdgeResult)
    requires IsResult(e)
    ensures Takes(v, ResultLine(e), ReadValidate, Tally(v, e))
  {
    hide Takes, Trim, ParseRef, RefText, SplitColons, StatusText, IsRef, StartsWith, Number, Free;
    RefReads(e.edge);
    StatusReads(e);
    ColonsRoundTrip(RefText(e.edge), StatusText(e));
    TakesOne(v, "edge", RefText(e.edge) + " :: " + StatusText(e), ReadValidate);
  }

  lemma RefReads(r: Ref)
    requires IsRef(r)
    ensures ParseRef(RefText(r)) == r && RefText(r) != "" && Trimmed(RefText(r)) && Trim(RefText(r)) == RefText(r)
    ensures Free(" " + RefText(r) + " ", " :: ")
  {
    hide Trim, ParseRef;
    RefRoundTrip(r, "");
    RefIsFree(r);
    assert RefText(r) + "" == RefText(r);
    TrimIdle(RefText(r));
  }

  // ----- [fkdefine] -----

  ghost predicate IsDefined(r: Ref) { IsRef(r) && OneLine(RefText(r)) }

  ghost predicate IsWithheld(w: Withheld) { IsDefined(w.edge) && IsText(w.reason) && IsText(w.readd) }

  lemma ReasonLine(f: FkRecord, w: Withheld)
    requires IsWithheld(w)
    ensures Takes(f, [Pair("withhold", RefText(w.edge) + " :: " + w.reason)], ReadFk,
                  f.(withheld := f.withheld + [Withheld(w.edge, w.reason, "")]))
  {
    hide Takes, Trim, ParseRef, RefText, IsRef, SplitColons;
    RefReads(w.edge);
    var t := RefText(w.edge) + " :: " + w.reason;
    if w.reason == "" {
      ColonsAlone(RefText(w.edge));
      RefRoundTrip(w.edge, " ::");
      assert t == RefText(w.edge) + " :: ";
    } else {
      ColonsRoundTrip(RefText(w.edge), w.reason);
    }
    TakesOne(f, "withhold", t, ReadFk);
  }

  lemma ReaddLine(f: FkRecord, w: Withheld)
    requires f.withheld != [] && f.withheld[|f.withheld| - 1] == Withheld(w.edge, w.reason, "") && IsText(w.readd)
    ensures Takes(f, [Pair("readd", w.readd)], ReadFk, f.(withheld := f.withheld[..|f.withheld| - 1] + [w]))
  {
    hide Takes, Trim, ParseRef, SplitColons;
    TrimIdle(w.readd);
    assert f.withheld[|f.withheld| - 1 := w] == f.withheld[..|f.withheld| - 1] + [w];
    TakesOne(f, "readd", w.readd, ReadFk);
  }

  lemma OneWithhold(f: FkRecord, w: Withheld)
    requires IsWithheld(w)
    ensures Takes(f, WithholdLine(w), ReadFk, f.(withheld := f.withheld + [w]))
  {
    hide Takes, RefText, IsDefined, IsText, ReadFk;
    var s := f.(withheld := f.withheld + [Withheld(w.edge, w.reason, "")]);
    ReasonLine(f, w);
    ReaddLine(s, w);
    assert s.withheld[..|s.withheld| - 1] == f.withheld;
    Then(f, [Pair("withhold", RefText(w.edge) + " :: " + w.reason)], ReadFk, s, [Pair("readd", w.readd)],
         f.(withheld := f.withheld + [w]));
  }

  // ----- [stats] -----

  /** A statistics failure comes back exactly when it has a reason. */
  ghost predicate IsFailure(f: StatsFailure) { IsPlainName(f.cls) && IsText(f.reason) && f.reason != "" }

  lemma FailureReads(f: StatsFailure)
    requires IsPlainName(f.cls) && IsText(f.reason)
    ensures SplitColons(Trim(f.cls + " :: " + f.reason)) == (f.cls, f.reason) <==> f.reason != ""
  {
    hide Trim, SplitColons;
    if f.reason == "" {
      ColonsAlone(f.cls);
      assert f.cls + " :: " + f.reason == f.cls + " :: " && |f.cls + " ::"| != |f.cls|;
    } else {
      ColonsRoundTrip(f.cls, f.reason);
    }
  }
}
