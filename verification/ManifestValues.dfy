/** The encodings a manifest value is made of: tab records, comma lists, edge references,
    walks, reasons behind a double colon, and numbers. */
module ManifestValues {
  import opened Schema
  import opened DdlText
  import opened ManifestText

  // ----- joining and splitting -----

  function Join(parts: seq<string>, sep: string): string {
    if parts == [] then ""
    else if |parts| == 1 then parts[0]
    else parts[0] + sep + Join(parts[1..], sep)
  }

  function CharAt(s: string, d: char): (n: nat)
    ensures n <= |s| && (forall k :: 0 <= k < n ==> s[k] != d) && (n < |s| ==> s[n] == d)
  {
    if s == "" || s[0] == d then 0 else 1 + CharAt(s[1..], d)
  }

  function SplitChar(s: string, d: char): seq<string> {
    var n := CharAt(s, d);
    if n == |s| then [s] else [s[..n]] + SplitChar(s[n + 1..], d)
  }

  lemma {:induction false} CharAtIs(a: string, d: char, rest: string)
    requires d !in a
    ensures CharAt(a + [d] + rest, d) == |a| && CharAt(a, d) == |a|
  {
    if a != "" {
      assert (a + [d] + rest)[1..] == a[1..] + [d] + rest && a[0] in a;
      CharAtIs(a[1..], d, rest);
    }
  }

  lemma {:induction false} SplitJoin(parts: seq<string>, d: char)
    requires parts != [] && forall p :: p in parts ==> d !in p
    ensures SplitChar(Join(parts, [d]), d) == parts
  {
    hide CharAt;
    assert parts[0] in parts;
    if |parts| == 1 {
      CharAtIs(parts[0], d, "");
    } else {
      var rest := Join(parts[1..], [d]);
      var s := parts[0] + [d] + rest;
      CharAtIs(parts[0], d, rest);
      assert s[..|parts[0]|] == parts[0] && s[|parts[0]| + 1..] == rest;
      SplitJoin(parts[1..], d);
    }
  }

  /** The pieces between commas, trimmed, empty ones dropped. */
  function Items(s: string): seq<string> {
    var n := CharAt(s, ',');
    var x := Trim(s[..n]);
    (if x == "" then [] else [x]) + if n == |s| then [] else Items(s[n + 1..])
  }

  // ----- comma lists -----

  const NONE := "(none)"

  predicate IsItem(s: string) { s != "" && Trimmed(s) && s != NONE && ',' !in s }

  function JoinList(items: seq<string>): string { Join(items, ", ") }

  function ParseList(s: string): seq<string> {
    var t := Trim(s);
    if t == "" || t == NONE then [] else Items(t)
  }

  lemma ItemsStep(piece: string, rest: string)
    requires ',' !in piece && Trim(piece) != ""
    ensures Items(piece) == [Trim(piece)] && Items(piece + "," + rest) == [Trim(piece)] + Items(rest)
  {
    hide Trim;
    var s := piece + "," + rest;
    CharAtIs(piece, ',', rest);
    assert s[..|piece|] == piece && s[|piece| + 1..] == rest && piece[..|piece|] == piece;
  }

  lemma PaddedItem(pad: string, x: string)
    requires (pad == "" || pad == " ") && IsItem(x)
    ensures ',' !in pad + x && Trim(pad + x) == x
  {
    hide Trim;
    TrimIdle(x);
    if pad == "" {
      assert pad + x == x;
    } else {
      assert pad + x == " " + x;
    }
  }

  lemma {:induction false} ItemsOfList(pad: string, items: seq<string>)
    requires pad == "" || pad == " "
    requires items != [] && forall i :: i in items ==> IsItem(i)
    ensures Items(pad + JoinList(items)) == items
    decreases |items|
  {
    hide Trim, Items, IsItem;
    var x := items[0];
    assert x in items;
    PaddedItem(pad, x);
    ItemNotEmpty(x);
    if |items| == 1 {
      ItemsStep(pad + x, "");
      assert JoinList(items) == x && items == [x];
    } else {
      assert pad + (items[0] + ", " + JoinList(items[1..])) == (pad + items[0]) + "," + (" " + JoinList(items[1..]));
      ItemsStep(pad + x, " " + JoinList(items[1..]));
      ItemsOfList(" ", items[1..]);
    }
  }

  lemma ItemNotEmpty(x: string)
    requires IsItem(x)
    ensures x != ""
  {
  }

  lemma ListRoundTrip(items: seq<string>)
    requires forall i :: i in items ==> IsItem(i)
    ensures ParseList(JoinList(items)) == items && Trimmed(JoinList(items))
  {
    PaddedList("", items, "");
    assert "" + JoinList(items) + "" == JoinList(items);
    JoinedIsTrimmed(items);
  }

  lemma PaddedList(left: string, items: seq<string>, right: string)
    requires (left == "" || left == " ") && (right == "" || right == " ")
    requires forall i :: i in items ==> IsItem(i)
    ensures ParseList(left + JoinList(items) + right) == items
  {
    hide Trim, Items, Trimmed;
    JoinedIsTrimmed(items);
    TrimPadded(left, JoinList(items), right);
    if items != [] {
      assert items[0] in items && IsItem(items[0]);
      if |items| > 1 {
        assert ',' in JoinList(items) by { assert JoinList(items)[|items[0]|] == ','; }
        assert ',' !in NONE;
      }
      ItemsOfList("", items);
      assert "" + JoinList(items) == JoinList(items);
    }
  }

  lemma {:induction false} JoinedIsTrimmed(items: seq<string>)
    requires forall i :: i in items ==> IsItem(i)
    ensures Trimmed(JoinList(items)) && (items != [] ==> JoinList(items) != "")
  {
    if items != [] {
      assert items[0] in items && IsItem(items[0]);
      if |items| > 1 {
        JoinedIsTrimmed(items[1..]);
        var s := JoinList(items);
        assert s[0] == items[0][0] && s[|s| - 1] == JoinList(items[1..])[|JoinList(items[1..])| - 1];
      }
    }
  }

  // ----- numbers -----

  predicate Digits(s: string) { forall k :: 0 <= k < |s| ==> '0' <= s[k] <= '9' }

  function Dec(n: nat): (s: string)
    ensures s != "" && Digits(s)
  {
    (if n < 10 then "" else Dec(n / 10)) + [('0' as int + n % 10) as char]
  }

  function Value(s: string): nat
    requires Digits(s)
  {
    if s == "" then 0 else 10 * Value(s[..|s| - 1]) + (s[|s| - 1] as int - '0' as int)
  }

  function DigitsEnd(s: string): (n: nat)
    ensures n <= |s| && Digits(s[..n])
  {
    if s != "" && '0' <= s[0] <= '9' then
      var n := 1 + DigitsEnd(s[1..]);
      assert forall k :: 0 < k < n ==> s[..n][k] == s[1..][..n - 1][k - 1];
      n
    else 0
  }

  /** `atoll`, unsigned: the digits after any leading blanks. */
  function Number(s: string): nat {
    var t := s[TextStart(s, 0)..];
    Value(t[..DigitsEnd(t)])
  }

  lemma {:induction false} AllDigits(s: string)
    requires Digits(s)
    ensures DigitsEnd(s) == |s|
  {
    if s != "" { AllDigits(s[1..]); }
  }

  lemma {:induction false} ValueOfDec(n: nat)
    ensures Value(Dec(n)) == n
  {
    var s := Dec(n);
    if n >= 10 {
      ValueOfDec(n / 10);
      assert s[..|s| - 1] == Dec(n / 10);
    } else {
      assert s[..|s| - 1] == "";
    }
  }

  lemma DigitsAreTrimmed(s: string)
    requires s != "" && Digits(s)
    ensures Trimmed(s) && '\n' !in s && ' ' !in s && TextStart(s, 0) == 0 && TextStart(" " + s, 0) == 1
  {
    forall c | c in s ensures c != '\n' && c != ' ' {}
    assert !Blank(s[0]) && !Blank(s[|s| - 1]);
    var t := " " + s;
    assert t[0] == ' ' && t[1] == s[0];
  }

  lemma NumberRoundTrip(n: nat)
    ensures Number(Dec(n)) == n && Number(" " + Dec(n)) == n && Trimmed(Dec(n)) && '\n' !in Dec(n) && ' ' !in Dec(n)
  {
    hide Dec, TextStart, Value, Trimmed, Digits, DigitsEnd;
    var s := Dec(n);
    DigitsAreTrimmed(s);
    AllDigits(s);
    ValueOfDec(n);
    assert s[..|s|] == s && s[0..] == s && (" " + s)[1..] == s;
  }

  // ----- edge references and reasons -----

  ghost predicate Free(s: string, pat: string) { forall j: nat :: !At(s, j, pat) }

  /** An identifier of the format: what the printer writes around it cannot be read into it. */
  ghost predicate IsName(s: string) {
    && IsItem(s) && '\t' !in s && '\n' !in s && '|' !in s && ')' !in s
    && Free(" " + s + " ", " -> ") && Free(" " + s + " ", " (") && Free(" " + s + " ", " :: ")
  }

  /** The first `sep` of `a + sep + b` is the one written, when `a` padded is free of it. */
  lemma FirstSeparator(a: string, sep: string, b: string)
    requires |sep| >= 2 && sep[0] == ' ' && forall k :: 0 < k < |sep| - 1 ==> sep[k] != ' '
    requires Free(" " + a + " ", sep)
    ensures Find(a + sep + b, sep, 0) == |a|
  {
    var s := a + sep + b;
    assert s[|a|..|a| + |sep|] == sep;
    forall j: nat | j < |a| ensures !At(s, j, sep) { NotEarlier(a, sep, b, j); }
    FindAt(s, sep, |a|);
  }

  lemma NotEarlier(a: string, sep: string, b: string, j: nat)
    requires |sep| >= 2 && sep[0] == ' ' && forall k :: 0 < k < |sep| - 1 ==> sep[k] != ' '
    requires Free(" " + a + " ", sep) && j < |a|
    ensures !At(a + sep + b, j, sep)
  {
    var s, padded, k := a + sep + b, " " + a + " ", |a| - j;
    assert !At(padded, j + 1, sep);
    if k >= |sep| {
      assert s[j..j + |sep|] == padded[j + 1..j + 1 + |sep|];
    } else if j + |sep| <= |s| {
      assert s[j..j + |sep|][k] == s[|a|] == ' ';
      if k == |sep| - 1 {
        assert padded[j + 1..j + 1 + |sep|] == a[j..] + " ";
        assert s[j..j + |sep|] == a[j..] + " ";
      }
    }
  }

  lemma FreeAround(a: string, c: char, b: string, pat: string)
    requires Free(a, pat) && Free(b, pat) && c !in pat
    ensures Free(a + [c] + b, pat)
  {
    var s := a + [c] + b;
    forall j: nat ensures !At(s, j, pat) {
      if j + |pat| <= |s| {
        if j + |pat| <= |a| {
          assert !At(a, j, pat) && s[j..j + |pat|] == a[j..j + |pat|];
        } else if j > |a| {
          var k: nat := j - |a| - 1;
          assert !At(b, k, pat) && s[j..j + |pat|] == b[k..k + |pat|];
        } else {
          assert s[j..j + |pat|][|a| - j] == c;
        }
      }
    }
  }

  lemma FreeInside(s: string, pat: string)
    requires Free(" " + s + " ", pat)
    ensures Free(s, pat) && Free(s + " ", pat)
  {
    var padded := " " + s + " ";
    forall j: nat ensures !At(s, j, pat) && !At(s + " ", j, pat) {
      assert !At(padded, j + 1, pat);
      if j + |pat| <= |s| { assert s[j..j + |pat|] == padded[j + 1..j + 1 + |pat|]; }
      if j + |pat| <= |s| + 1 { assert (s + " ")[j..j + |pat|] == padded[j + 1..j + 1 + |pat|]; }
    }
  }

  datatype Ref = Ref(child: string, parent: string, name: string)

  ghost predicate IsRef(r: Ref) { IsName(r.child) && IsName(r.parent) && IsName(r.name) }

  function RefText(r: Ref): string { r.child + " -> " + r.parent + " (" + r.name + ")" }

  function ParseRef(ref: string): Ref {
    var arrow := Find(ref, " -> ", 0);
    if arrow < 0 then Ref("", "", "")
    else
      var child := Trim(ref[..arrow]);
      var rest := Trim(ref[arrow + 4..]);
      var paren := Find(rest, " (", 0);
      if paren < 0 then Ref(child, rest, "")
      else
        var nm := rest[paren + 2..];
        var rp := Find(nm, ")", 0);
        Ref(child, Trim(rest[..paren]), Trim(if rp < 0 then nm else nm[..rp]))
  }

  lemma CloseAt(name: string, tail: string)
    requires ')' !in name
    ensures Find(name + ")" + tail, ")", 0) == |name|
  {
    var s := name + ")" + tail;
    assert s[|name|..|name| + 1] == ")";
    forall j: nat | j < |name| ensures !At(s, j, ")") { assert s[j..j + 1] == [name[j]] && name[j] in name; }
    FindAt(s, ")", |name|);
  }

  /** Also with the colons an empty reason leaves behind. */
  lemma RefRoundTrip(r: Ref, colons: string)
    requires IsRef(r) && (colons == "" || colons == " ::")
    ensures ParseRef(RefText(r) + colons) == r && Trimmed(RefText(r) + colons)
  {
    hide Trim, Find;
    var tail := r.parent + " (" + (r.name + ")" + colons);
    var s := r.child + " -> " + tail;
    assert
      var tail := r.parent + " (" + (r.name + ")" + colons);
      var close := tail[|r.parent| + 2..];
      Find(tail, " (", 0) == |r.parent| && Trim(tail[..|r.parent|]) == r.parent && Trimmed(tail) && tail != ""
      && Find(close, ")", 0) == |r.name| && Trim(close[..|r.name|]) == r.name
    by {
      var close := r.name + ")" + colons;
      var tail := r.parent + " (" + close;
      FirstSeparator(r.parent, " (", close);
      assert tail[..|r.parent|] == r.parent && tail[|r.parent| + 2..] == close;
      TrimIdle(r.parent);
      CloseAt(r.name, colons);
      assert close[..|r.name|] == r.name;
      TrimIdle(r.name);
    }
    assert s == RefText(r) + colons;
    FirstSeparator(r.child, " -> ", tail);
    assert s[..|r.child|] == r.child && s[|r.child| + 4..] == tail;
    TrimIdle(r.child);
    TrimIdle(tail);
  }

  lemma RefIsFree(r: Ref)
    requires IsRef(r)
    ensures Free(" " + RefText(r) + " ", " :: ")
  {
    hide IsItem;
    var pat := " :: ";
    FreeInside(r.name, pat);
    assert Free(" ", pat) && Free("", pat);
    var last := r.name + [')'] + " ";
    FreeAround(r.name, ')', " ", pat);
    var mid := (" " + r.parent + " ") + ['('] + last;
    FreeAround(" " + r.parent + " ", '(', last, pat);
    var arrow := "" + ['>'] + mid;
    FreeAround("", '>', mid, pat);
    var whole := (" " + r.child + " ") + ['-'] + arrow;
    FreeAround(" " + r.child + " ", '-', arrow, pat);
    assert whole == " " + RefText(r) + " ";
  }

  // ----- a text behind a double colon -----

  function SplitColons(val: string): (string, string) {
    var p := Find(val, " :: ", 0);
    if p < 0 then (Trim(val), "") else (Trim(val[..p]), Trim(val[p + 4..]))
  }

  lemma ColonsRoundTrip(left: string, right: string)
    requires left != "" && Trimmed(left) && right != "" && Trimmed(right) && Free(" " + left + " ", " :: ")
    ensures SplitColons(Trim(left + " :: " + right)) == (left, right)
  {
    hide Trim, Find;
    var s := left + " :: " + right;
    TrimIdle(left);
    TrimIdle(right);
    assert Trimmed(s);
    TrimIdle(s);
    FirstSeparator(left, " :: ", right);
    assert s[..|left|] == left && s[|left| + 4..] == right;
  }

  /** Nothing behind the colons: they are read as part of what stands before them. */
  lemma ColonsAlone(left: string)
    requires left != "" && Trimmed(left) && Free(" " + left + " ", " :: ")
    ensures SplitColons(Trim(left + " :: ")) == (left + " ::", "")
  {
    hide Trim, Find;
    var s := left + " ::";
    assert left + " :: " == s + " ";
    TrimIdle(s);
    forall j: nat ensures !At(s, j, " :: ") { NoSeparator(left, j); }
    FindIsFirst(s, " :: ", 0);
  }

  lemma NoSeparator(left: string, j: nat)
    requires left != "" && Trimmed(left) && Free(" " + left + " ", " :: ")
    ensures !At(left + " ::", j, " :: ")
  {
    var s, pat, padded := left + " ::", " :: ", " " + left + " ";
    assert !At(padded, j + 1, pat);
    if j + 4 <= |s| {
      if j + 4 <= |left| + 1 {
        assert s[j..j + 4] == padded[j + 1..j + 5];
      } else {
        assert s[j..j + 4][3] == s[j + 3] == " ::"[j + 3 - |left|];
      }
    }
  }

  // ----- tab records -----

  predicate IsField(s: string) { Trimmed(s) && '\t' !in s }

  function TrimEach(parts: seq<string>): seq<string> {
    if parts == [] then [] else [Trim(parts[0])] + TrimEach(parts[1..])
  }

  /** The words between blanks. */
  function Words(s: string): seq<string> {
    var n := CharAt(s, ' ');
    var x := Trim(s[..n]);
    (if x == "" then [] else [x]) + if n == |s| then [] else Words(s[n + 1..])
  }

  /** Version 2 separates fields by tabs; a value without a tab is read the version 1 way. */
  function SplitRecord(val: string): seq<string> {
    if '\t' in val then TrimEach(SplitChar(val, '\t'))
    else
      var sep := Find(val, " :: ", 0);
      if sep < 0 then Words(Trim(val)) else Words(Trim(val[..sep])) + [Trim(val[sep + 4..])]
  }

  function Record(fields: seq<string>): string { Join(fields, "\t") }

  lemma {:induction false} TrimEachIdle(parts: seq<string>)
    requires forall p :: p in parts ==> Trimmed(p)
    ensures TrimEach(parts) == parts
  {
    hide Trim, Trimmed;
    if parts != [] {
      assert parts[0] in parts;
      TrimIdle(parts[0]);
      TrimEachIdle(parts[1..]);
    }
  }

  lemma {:induction false} JoinEnds(parts: seq<string>, sep: string)
    requires parts != [] && parts[0] != "" && parts[|parts| - 1] != ""
    ensures var s := Join(parts, sep);
      s != "" && s[0] == parts[0][0] && s[|s| - 1] == parts[|parts| - 1][|parts[|parts| - 1]| - 1]
    decreases |parts|
  {
    if |parts| > 1 {
      LastOfJoin(parts[1..], sep);
    }
  }

  lemma {:induction false} LastOfJoin(parts: seq<string>, sep: string)
    requires parts != [] && parts[|parts| - 1] != ""
    ensures var s := Join(parts, sep);
      s != "" && s[|s| - 1] == parts[|parts| - 1][|parts[|parts| - 1]| - 1]
    decreases |parts|
  {
    if |parts| > 1 { LastOfJoin(parts[1..], sep); }
  }

  lemma RecordRoundTrip(fields: seq<string>)
    requires |fields| > 1 && fields[0] != "" && fields[|fields| - 1] != "" && forall f :: f in fields ==> IsField(f)
    ensures SplitRecord(Trim(Record(fields))) == fields && SplitChar(Trim(Record(fields)), '\t') == fields
  {
    hide Trim, SplitChar;
    JoinEnds(fields, "\t");
    assert fields[0] in fields && fields[|fields| - 1] in fields;
    TrimIdle(Record(fields));
    SplitJoin(fields, '\t');
    TrimEachIdle(fields);
    assert Record(fields)[|fields[0]|] == '\t';
  }

  /** A last field that is empty loses its tab, and the record comes back one field short. */
  lemma ShortRecord(fields: seq<string>)
    requires |fields| > 1 && fields[0] != "" && fields[|fields| - 1] != "" && forall f :: f in fields ==> IsField(f)
    ensures Record(fields + [""]) == Record(fields) + "\t" && SplitRecord(Trim(Record(fields + [""]))) == fields
  {
    hide Trim, SplitRecord, Join;
    JoinEnds(fields, "\t");
    assert fields[0] in fields && fields[|fields| - 1] in fields;
    JoinMore(fields, "\t");
    TrimPadded("", Record(fields), "\t");
    assert "" + Record(fields) + "\t" == Record(fields) + "\t";
    TrimIdle(Record(fields));
    RecordRoundTrip(fields);
  }

  lemma {:induction false} JoinMore(parts: seq<string>, sep: string)
    requires parts != []
    ensures Join(parts + [""], sep) == Join(parts, sep) + sep
  {
    if |parts| > 1 {
      JoinMore(parts[1..], sep);
      assert (parts + [""])[1..] == parts[1..] + [""];
    } else {
      assert (parts + [""])[1..] == [""];
    }
  }

  /** A record of one name and one empty field has no tab left: it is read the version 1 way,
      and comes back exactly when the name is one word. */
  lemma LoneName(name: string)
    requires name != "" && IsField(name) && Free(" " + name + " ", " :: ")
    ensures SplitRecord(Trim(Record([name, ""]))) == Words(name)
    ensures Words(name) == [name] <==> ' ' !in name
  {
    hide Trim, Find, Trimmed;
    assert [name, ""][1..] == [""] && Join([""], "\t") == "";
    assert Record([name, ""]) == name + "\t" + "" == "" + name + "\t";
    TrimPadded("", name, "\t");
    TrimIdle(name);
    NotFound(name, " :: ");
    assert '\t' !in name && SplitRecord(name) == Words(Trim(name));
    if ' ' !in name {
      CharAtIs(name, ' ', "");
      assert name[..|name|] == name;
    } else {
      FirstWord(name);
    }
  }

  lemma NotFound(s: string, pat: string)
    requires Free(" " + s + " ", pat)
    ensures Find(s, pat, 0) < 0
  {
    FreeInside(s, pat);
    FindIsFirst(s, pat, 0);
  }

  lemma FirstWord(name: string)
    requires name != "" && Trimmed(name) && ' ' in name
    ensures Words(name) != [] && Words(name)[0] != name
  {
    var n := CharAt(name, ' ');
    assert n < |name|;
    assert 0 < n && !Blank(name[..n][0]);
    HeadSurvives(name[..n]);
    assert |Trim(name[..n])| <= n;
  }

  // ----- walks -----

  function ParseWalk(s: string): seq<string> {
    var n := Find(s, " -> ", 0);
    if n < 0 then [Trim(s)] else [Trim(s[..n])] + ParseWalk(s[n + 4..])
  }

  function WalkText(walk: seq<string>): string { Join(walk, " -> ") }

  lemma {:induction false} WalkRoundTrip(walk: seq<string>)
    requires walk != [] && forall n :: n in walk ==> IsName(n)
    ensures ParseWalk(WalkText(walk)) == walk && WalkText(walk) != "" && Trimmed(WalkText(walk))
  {
    hide Trim, Find, Blank, Free;
    var x := walk[0];
    assert x in walk && IsName(x) && walk[|walk| - 1] in walk;
    JoinEnds(walk, " -> ");
    TrimIdle(x);
    if |walk| == 1 {
      NotFound(x, " -> ");
    } else {
      var rest := WalkText(walk[1..]);
      var s := x + " -> " + rest;
      FirstSeparator(x, " -> ", rest);
      assert s[..|x|] == x && s[|x| + 4..] == rest;
      WalkRoundTrip(walk[1..]);
    }
  }

  /** Outside that domain a name can be read into the separator: every one that ends in " ->" gives
      its arrow to the name behind it. */
  lemma ArrowAtTheEnd(x: string, y: string)
    requires IsName(x) && IsName(y)
    ensures ParseWalk(WalkText([x + " ->", y])) == [x, "-> " + y]
  {
    hide Trim, Find, IsItem;
    var rest := "-> " + y;
    var s := x + " -> " + rest;
    assert [x + " ->", y][1..] == [y] && Join([y], " -> ") == y;
    assert WalkText([x + " ->", y]) == (x + " ->") + " -> " + y == s;
    FirstSeparator(x, " -> ", rest);
    assert s[..|x|] == x && s[|x| + 4..] == rest;
    ItemIsTrimmed(x);
    ItemIsTrimmed(y);
    TrimIdle(x);
    assert rest[0] == '-' && rest[|rest| - 1] == y[|y| - 1];
    TrimIdle(rest);
    forall j: nat ensures !At(rest, j, " -> ") {
      if 2 <= j && j + 4 <= |rest| {
        assert rest[j..j + 4] == (" " + y + " ")[j - 2..j + 2];
        assert !At(" " + y + " ", j - 2, " -> ");
      }
    }
    FindIsFirst(rest, " -> ", 0);
  }

  lemma ItemIsTrimmed(x: string)
    requires IsItem(x)
    ensures x != "" && Trimmed(x)
  {
  }
}
