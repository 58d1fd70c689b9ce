/** Reading an unloaddb schema file: the statement split, and the class and constraint
    names a statement carries. Each loop of the source is a method proved against a
    recursive reading of the text; the round trips below say what that reading means. */
module DdlText {

  // ----- character and substring primitives -----

  predicate At(s: string, i: nat, pat: string) {
    i + |pat| <= |s| && s[i..i + |pat|] == pat
  }

  /** First occurrence of `pat` at or after `from`; -1 when there is none. */
  function Find(s: string, pat: string, from: nat): (r: int)
    ensures r >= 0 ==> from <= r <= |s| - |pat|
    decreases |s| - from
  {
    if from > |s| then -1
    else if At(s, from, pat) then from
    else if from == |s| then -1
    else Find(s, pat, from + 1)
  }

  lemma FindIsFirst(s: string, pat: string, from: nat)
    ensures var r := Find(s, pat, from);
      && (r >= 0 ==> At(s, r, pat) && forall j: nat :: from <= j < r ==> !At(s, j, pat))
      && (r < 0 ==> forall j: nat :: from <= j ==> !At(s, j, pat))
    decreases |s| - from
  {
    if from < |s| && !At(s, from, pat) {
      FindIsFirst(s, pat, from + 1);
    }
  }

  /** Last occurrence of `c` at or before `upto`; -1 when there is none. */
  function FindLast(s: string, c: char, upto: int): (r: int)
    requires upto < |s|
    ensures -1 <= r <= upto || r == -1
    ensures r >= 0 ==> s[r] == c && forall j :: r < j <= upto ==> s[j] != c
    ensures r < 0 ==> forall j :: 0 <= j <= upto ==> s[j] != c
    decreases upto + 1
  {
    if upto < 0 then -1 else if s[upto] == c then upto else FindLast(s, c, upto - 1)
  }

  function UpperChar(c: char): char {
    if 'a' <= c <= 'z' then ((c as int) - 32) as char else c
  }

  function ToUpper(s: string): (u: string)
    ensures |u| == |s|
    ensures forall i :: 0 <= i < |s| ==> u[i] == UpperChar(s[i])
  {
    seq(|s|, i requires 0 <= i < |s| => UpperChar(s[i]))
  }

  predicate Blank(c: char) { c == ' ' || c == '\t' || c == '\r' || c == '\n' }

  /** First character at or after `i` that is no blank. */
  function TextStart(s: string, i: nat): (n: nat)
    requires i <= |s|
    ensures i <= n <= |s| && (n < |s| ==> !Blank(s[n]))
    ensures forall k :: i <= k < n ==> Blank(s[k])
    decreases |s| - i
  {
    if i < |s| && Blank(s[i]) then TextStart(s, i + 1) else i
  }

  /** End of the last character of s[from..n] that is no blank. */
  function TextEnd(s: string, from: nat, n: nat): (e: nat)
    requires from <= n <= |s|
    ensures from <= e <= n && (from < e ==> !Blank(s[e - 1]))
    ensures forall k :: e <= k < n ==> Blank(s[k])
  {
    if from < n && Blank(s[n - 1]) then TextEnd(s, from, n - 1) else n
  }

  function Trim(s: string): string {
    var from := TextStart(s, 0);
    s[from..TextEnd(s, from, |s|)]
  }

  predicate Trimmed(s: string) { s == "" || (!Blank(s[0]) && !Blank(s[|s| - 1])) }

  lemma TrimPadded(left: string, s: string, right: string)
    requires (forall c :: c in left ==> Blank(c)) && (forall c :: c in right ==> Blank(c)) && Trimmed(s)
    ensures Trim(left + s + right) == s
  {
    var t := left + s + right;
    var from := TextStart(t, 0);
    forall k | 0 <= k < |left| || |left| + |s| <= k < |t| ensures Blank(t[k]) {
      assert t[k] == if k < |left| then left[k] else right[k - |left| - |s|];
    }
    if s != "" {
      assert t[|left|] == s[0] && t[|left| + |s| - 1] == s[|s| - 1];
      assert from == |left|;
      assert TextEnd(t, from, |t|) == |left| + |s|;
    }
  }

  // ----- splitting a file into statements -----

  lemma Associative<T>(a: seq<T>, b: seq<T>, c: seq<T>)
    ensures (a + b) + c == a + (b + c)
  {
  }

  /** The statement starting at `start`, if any text is left of it once trimmed. */
  function StatementAt(text: string, start: nat): seq<string>
    requires start < |text|
  {
    var semi := Find(text, ";", start);
    var stmt := Trim(if semi < 0 then text[start..] else text[start..semi]);
    if stmt == "" then [] else [stmt]
  }

  function NextStart(text: string, start: nat): (next: nat)
    requires start < |text|
    ensures start < next
  {
    var semi := Find(text, ";", start);
    if semi < 0 then |text| else semi + 1
  }

  function Statements(text: string, start: nat): seq<string>
    decreases |text| - start
  {
    if start >= |text| then []
    else StatementAt(text, start) + Statements(text, NextStart(text, start))
  }

  method SplitStatements(text: string) returns (out: seq<string>)
    ensures out == Statements(text, 0)
  {
    out := [];
    var start := 0;
    while start < |text|
      invariant out + Statements(text, start) == Statements(text, 0)
      decreases |text| - start
    {
      Associative(out, StatementAt(text, start), Statements(text, NextStart(text, start)));
      out := out + StatementAt(text, start);
      start := NextStart(text, start);
    }
  }

  /** Texts with semicolons between them. */
  function Joined(parts: seq<string>): string {
    if parts == [] then "" else if |parts| == 1 then parts[0] else parts[0] + ";" + Joined(parts[1..])
  }

  /** What is left of each once trimmed, where anything is. */
  function Trims(parts: seq<string>): seq<string> {
    if parts == [] then [] else (if Trim(parts[0]) == "" then [] else [Trim(parts[0])]) + Trims(parts[1..])
  }

  lemma {:induction false} FirstChar(text: string, c: char, from: nat, n: nat)
    requires from <= n <= |text| && (forall j :: from <= j < n ==> text[j] != c) && (n < |text| ==> text[n] == c)
    ensures Find(text, [c], from) == if n < |text| then n else -1
    decreases n - from
  {
    if from < |text| { assert text[from..from + 1] == [text[from]]; }
    if from < n { FirstChar(text, c, from + 1, n); }
  }

  lemma SemicolonIs(pre: string, part: string, rest: string)
    requires ';' !in part
    ensures Find(pre + part + ";" + rest, ";", |pre|) == |pre| + |part| && Find(pre + part, ";", |pre|) == -1
  {
    FirstChar(pre + part + ";" + rest, ';', |pre|, |pre| + |part|);
    FirstChar(pre + part, ';', |pre|, |pre| + |part|);
  }

  lemma {:induction false} StatementsOfJoined(pre: string, parts: seq<string>)
    requires forall p :: p in parts ==> ';' !in p
    ensures Statements(pre + Joined(parts), |pre|) == Trims(parts)
    decreases |parts|
  {
    hide Find, Trim;
    if parts != [] {
      var part, rest := parts[0], Joined(parts[1..]);
      if |parts| == 1 {
        var text := pre + part;
        SemicolonIs(pre, part, "");
        NothingLeft();
        assert part != "" ==> text[|pre|..] == part && Statements(text, |text|) == [];
      } else {
        var text, next := pre + part + ";" + rest, pre + part + ";";
        assert part in parts && pre + Joined(parts) == text == next + rest;
        SemicolonIs(pre, part, rest);
        assert text[|pre|..|pre| + |part|] == part;
        StatementsOfJoined(next, parts[1..]);
      }
    }
  }

  lemma NothingLeft()
    ensures Trim("") == ""
  {
  }

  predicate Blanks(s: string) { forall c :: c in s ==> Blank(c) }

  ghost predicate Padded(part: string, s: string) {
    s != "" && Trimmed(s) && ';' !in s && exists left, right :: Blanks(left) && Blanks(right) && part == left + s + right
  }

  lemma PaddedTrims(part: string, s: string)
    requires Padded(part, s)
    ensures Trim(part) == s != "" && ';' !in part
  {
    hide Trim, Trimmed;
    var left, right :| Blanks(left) && Blanks(right) && part == left + s + right;
    TrimPadded(left, s, right);
  }

  lemma {:induction false} TrimsAre(parts: seq<string>, ss: seq<string>, tail: string)
    requires |parts| == |ss| && Blanks(tail) && forall i :: 0 <= i < |ss| ==> Padded(parts[i], ss[i])
    ensures Trims(parts) == ss && Trims(parts + [tail]) == ss && forall p :: p in parts + [tail] ==> ';' !in p
    decreases |ss|
  {
    hide Trim, Padded;
    if ss == [] {
      TrimPadded(tail, "", "");
      assert tail + "" + "" == tail && parts + [tail] == [tail];
    } else {
      PaddedTrims(parts[0], ss[0]);
      TrimsAre(parts[1..], ss[1..], tail);
      assert (parts + [tail])[1..] == parts[1..] + [tail] && ss == [ss[0]] + ss[1..];
    }
  }

  /** A file falls apart at its semicolons: its statements come back in order, without the
      blanks around them, whether or not a last semicolon closes it. */
  lemma SplitsBack(ss: seq<string>, parts: seq<string>, tail: string)
    requires |parts| == |ss| && Blanks(tail) && forall i :: 0 <= i < |ss| ==> Padded(parts[i], ss[i])
    ensures Statements(Joined(parts), 0) == ss && Statements(Joined(parts + [tail]), 0) == ss
  {
    hide Statements, Padded, Blanks, Joined, Trims;
    TrimsAre(parts, ss, tail);
    StatementsOfJoined("", parts);
    StatementsOfJoined("", parts + [tail]);
    assert "" + Joined(parts) == Joined(parts) && "" + Joined(parts + [tail]) == Joined(parts + [tail]);
  }

  // ----- the class and the names of one statement -----

  /** Position of the last ']' before the first unbracketed " ADD ", or -1. */
  function ClassEnd(stmt: string, i: nat, close: int, bracketed: bool): (r: int)
    requires i <= |stmt| && -1 <= close < |stmt|
    ensures -1 <= r < |stmt|
    decreases |stmt| - i
  {
    if i == |stmt| then -1
    else if stmt[i] == '[' then ClassEnd(stmt, i + 1, close, true)
    else if stmt[i] == ']' then ClassEnd(stmt, i + 1, i, false)
    else if !bracketed && At(ToUpper(stmt), i, " ADD ") then close
    else ClassEnd(stmt, i + 1, close, bracketed)
  }

  function ClassOf(stmt: string): string {
    var close := ClassEnd(stmt, 0, -1, false);
    if close < 0 then "" else
      var open := FindLast(stmt, '[', close);
      if open < 0 || open == close then "" else stmt[open + 1..close]
  }

  method StatementClass(stmt: string) returns (cls: string)
    ensures cls == ClassOf(stmt)
  {
    hide ToUpper;
    var upper := ToUpper(stmt);
    var close := -1;
    var bracketed, atAdd := false, false;
    var i := 0;
    while i < |stmt|
      invariant 0 <= i <= |stmt| && -1 <= close < |stmt|
      invariant ClassEnd(stmt, 0, -1, false) == if atAdd then close else ClassEnd(stmt, i, close, bracketed)
      invariant !atAdd
    {
      if stmt[i] == '[' {
        bracketed := true;
      } else if stmt[i] == ']' {
        bracketed := false;
        close := i;
      } else if !bracketed && At(upper, i, " ADD ") {
        atAdd := true;
        break;
      }
      i := i + 1;
    }
    if !atAdd || close < 0 {
      return "";
    }
    var open := FindLast(stmt, '[', close);
    return if open < 0 || open == close then "" else stmt[open + 1..close];
  }

  /** Bounds of the bracketed name after the next CONSTRAINT keyword; `end < 0` when
      there is none. */
  function NameBounds(stmt: string, pos: nat): (r: (int, int))
    ensures r.1 >= 0 ==> pos < r.0 <= r.1
    ensures r.1 < |stmt|
  {
    var kw := Find(ToUpper(stmt), "CONSTRAINT", pos);
    if kw < 0 then (-1, -1) else
      var lb := Find(stmt, "[", kw + |"CONSTRAINT"|);
      if lb < 0 then (-1, -1) else (lb + 1, Find(stmt, "]", lb + 1))
  }

  function NamesAt(stmt: string, b: (int, int)): seq<string>
    requires b.1 < |stmt| && (b.1 >= 0 ==> 0 <= b.0 <= b.1)
    decreases if b.1 < 0 then 0 else |stmt| - b.0 + 1
  {
    if b.1 < 0 then [] else [stmt[b.0..b.1]] + NamesAt(stmt, NameBounds(stmt, b.1 + 1))
  }

  function NamesOf(stmt: string): seq<string> { NamesAt(stmt, NameBounds(stmt, 0)) }

  method ConstraintNames(stmt: string) returns (names: seq<string>)
    ensures names == NamesOf(stmt)
  {
    hide NameBounds;
    names := [];
    var b := NameBounds(stmt, 0);
    while b.1 >= 0
      invariant b.1 < |stmt| && (b.1 >= 0 ==> 0 <= b.0 <= b.1)
      invariant names + NamesAt(stmt, b) == NamesOf(stmt)
      decreases if b.1 < 0 then 0 else |stmt| - b.0 + 1
    {
      Associative(names, [stmt[b.0..b.1]], NamesAt(stmt, NameBounds(stmt, b.1 + 1)));
      names := names + [stmt[b.0..b.1]];
      b := NameBounds(stmt, b.1 + 1);
    }
  }

  /** First bracketed token after the keyword INDEX. */
  function IndexName(stmt: string): string {
    var kw := Find(ToUpper(stmt), "INDEX", 0);
    if kw < 0 then "" else
      var lb := Find(stmt, "[", kw);
      if lb < 0 then "" else
        var rb := Find(stmt, "]", lb + 1);
        if rb < 0 then "" else stmt[lb + 1..rb]
  }

  /** Last bracketed token before `end`, scanning from `from`. */
  function LastBracketed(stmt: string, from: nat, end: nat, last: string): string
    decreases |stmt| - from
  {
    var lb := Find(stmt, "[", from);
    if lb < 0 || lb >= end then last else
      var rb := Find(stmt, "]", lb + 1);
      if rb < 0 || rb > end then last else LastBracketed(stmt, lb + 1, end, stmt[lb + 1..rb])
  }

  /** The bare class of a CREATE INDEX: the owner qualifier is stepped over. */
  function IndexClass(stmt: string): string {
    var kw := Find(ToUpper(stmt), " ON ", 0);
    if kw < 0 then "" else
      var cols := Find(stmt, "(", kw);
      LastBracketed(stmt, kw, if cols < 0 then |stmt| else cols, "")
  }

  // ----- what the readings mean -----

  predicate Unbracketed(s: string) { '[' !in s && ']' !in s }

  /** A key statement as unloaddb writes it. */
  function AddStatement(owner: string, cls: string, name: string, tail: string): string {
    "ALTER CLASS [" + owner + "].[" + cls + "] ADD ATTRIBUTE CONSTRAINT [" + name + "]" + tail
  }

  lemma ClassEndSkips(stmt: string, i: nat, j: nat, close: int, bracketed: bool)
    requires i <= j <= |stmt| && -1 <= close < |stmt|
    requires Unbracketed(stmt[i..j])
    requires !bracketed ==> forall k :: i <= k < j ==> !At(ToUpper(stmt), k, " ADD ")
    ensures ClassEnd(stmt, i, close, bracketed) == ClassEnd(stmt, j, close, bracketed)
    decreases j - i
  {
    if i < j {
      assert stmt[i] == stmt[i..j][0];
      assert stmt[i + 1..j] == stmt[i..j][1..];
      ClassEndSkips(stmt, i + 1, j, close, bracketed);
    }
  }

  lemma AddStatementLayout(owner: string, cls: string, name: string, tail: string) returns (o: nat, c: nat, e: nat)
    ensures var s := AddStatement(owner, cls, name, tail);
      && o == 13 && c == o + |owner| + 3 && e == c + |cls| && e + 6 <= |s|
      && s[0..12] == "ALTER CLASS " && s[12] == '[' && s[o..o + |owner|] == owner
      && s[o + |owner|] == ']' && s[o + |owner| + 1] == '.' && s[o + |owner| + 2] == '['
      && s[c..e] == cls && s[e..e + 6] == "] ADD "
  {
    o, c := 13, 16 + |owner|;
    e := c + |cls|;
    var s := AddStatement(owner, cls, name, tail);
    var rest := "] ADD ATTRIBUTE CONSTRAINT [" + name + "]" + tail;
    assert s == ("ALTER CLASS [" + owner + "].[") + (cls + rest);
    assert s[e..e + 6] == rest[..6] == "] ADD ";
  }

  /** The class is found behind its owner, even when the class name itself contains the
      ADD keyword the scan stops at. */
  lemma ClassOfAddStatement(owner: string, cls: string, name: string, tail: string)
    requires Unbracketed(owner) && Unbracketed(cls)
    ensures ClassOf(AddStatement(owner, cls, name, tail)) == cls
  {
    hide AddStatement, At, ToUpper, FindLast;
    var o, c, e := AddStatementLayout(owner, cls, name, tail);
    calc {
      ClassEnd(AddStatement(owner, cls, name, tail), 0, -1, false);
    == { forall k: nat | k < 12 ensures !At(ToUpper(AddStatement(owner, cls, name, tail)), k, " ADD ") {
           NoAddInHead(AddStatement(owner, cls, name, tail), k);
         }
         ClassEndSkips(AddStatement(owner, cls, name, tail), 0, 12, -1, false); }
      ClassEnd(AddStatement(owner, cls, name, tail), 12, -1, false);
    ==
      ClassEnd(AddStatement(owner, cls, name, tail), o, -1, true);
    == { ClassEndSkips(AddStatement(owner, cls, name, tail), o, o + |owner|, -1, true); }
      ClassEnd(AddStatement(owner, cls, name, tail), o + |owner|, -1, true);
    ==
      ClassEnd(AddStatement(owner, cls, name, tail), o + |owner| + 1, o + |owner|, false);
    == { NotAddAt(AddStatement(owner, cls, name, tail), o + |owner| + 1); }
      ClassEnd(AddStatement(owner, cls, name, tail), o + |owner| + 2, o + |owner|, false);
    ==
      ClassEnd(AddStatement(owner, cls, name, tail), c, o + |owner|, true);
    == { ClassEndSkips(AddStatement(owner, cls, name, tail), c, e, o + |owner|, true); }
      ClassEnd(AddStatement(owner, cls, name, tail), e, o + |owner|, true);
    == { assert AddStatement(owner, cls, name, tail)[e] == AddStatement(owner, cls, name, tail)[e..e + 6][0]; }
      ClassEnd(AddStatement(owner, cls, name, tail), e + 1, e, false);
    == { AddFollows(AddStatement(owner, cls, name, tail), e); }
      e;
    }
    LastBracketIs(AddStatement(owner, cls, name, tail), c - 1, e);
  }

  lemma AddFollows(s: string, e: nat)
    requires e + 6 <= |s| && s[e..e + 6] == "] ADD "
    ensures At(ToUpper(s), e + 1, " ADD ") && s[e + 1] == ' ' && s[e] == ']'
  {
    assert s[e + 1..e + 6] == s[e..e + 6][1..] == " ADD ";
    assert ToUpper(s)[e + 1..e + 6] == " ADD ";
    assert s[e] == s[e..e + 6][0] && s[e + 1] == s[e..e + 6][1];
  }

  lemma LastBracketIs(s: string, open: nat, close: nat)
    requires open < close < |s| && s[open] == '[' && s[close] == ']' && Unbracketed(s[open + 1..close])
    ensures FindLast(s, '[', close) == open
  {
    forall j | open < j <= close ensures s[j] != '[' {
      if j < close { assert s[j] == s[open + 1..close][j - open - 1]; }
    }
  }

  lemma AddStartsWithSpace(s: string, k: nat)
    requires At(ToUpper(s), k, " ADD ")
    ensures s[k] == ' ' && UpperChar(s[k + 1]) == 'A'
  {
    var u := ToUpper(s);
    assert u[k] == u[k..k + 5][0] && u[k + 1] == u[k..k + 5][1];
    assert UpperChar(s[k]) == ' ';
  }

  lemma NotAddAt(s: string, k: nat)
    requires k < |s| && s[k] != ' '
    ensures !At(ToUpper(s), k, " ADD ")
  {
    if At(ToUpper(s), k, " ADD ") {
      AddStartsWithSpace(s, k);
    }
  }

  lemma NoAddInHead(s: string, k: nat)
    requires k < 12 < |s| && s[0..12] == "ALTER CLASS " && s[12] == '['
    ensures !At(ToUpper(s), k, " ADD ")
  {
    hide At, ToUpper;
    var head := "ALTER CLASS ";
    assert forall j :: 0 <= j < 12 ==> s[j] == s[0..12][j] == head[j];
    if At(ToUpper(s), k, " ADD ") {
      AddStartsWithSpace(s, k);
    }
  }

  // ----- a statement with several constraints -----

  /** Some text, then `CONSTRAINT [name]`. */
  datatype Clause = Clause(gap: string, name: string)

  function Clauses(cs: seq<Clause>, tail: string): string {
    if cs == [] then tail else cs[0].gap + "CONSTRAINT" + " [" + cs[0].name + "]" + Clauses(cs[1..], tail)
  }

  function ClauseNames(cs: seq<Clause>): seq<string> {
    if cs == [] then [] else [cs[0].name] + ClauseNames(cs[1..])
  }

  /** The keyword, in any case, starts nowhere in `s` before `n`. */
  ghost predicate NoKeyword(s: string, n: nat) { forall j: nat :: j < n ==> !At(ToUpper(s), j, "CONSTRAINT") }

  lemma AtInside(text: string, s: string, p: nat, j: nat, pat: string)
    requires p + |s| <= |text| && text[p..p + |s|] == s && j + |pat| <= |s|
    ensures At(ToUpper(text), p + j, pat) <==> At(ToUpper(s), j, pat)
  {
    assert ToUpper(text)[p + j..p + j + |pat|] == ToUpper(s)[j..j + |pat|] by {
      forall i | 0 <= i < |s| ensures text[p + i] == s[i] { assert text[p..p + |s|][i] == s[i]; }
    }
  }

  lemma {:induction false} FirstAt(text: string, pat: string, from: nat, n: nat)
    requires from <= n <= |text| && pat != "" && (forall j: nat :: from <= j < n ==> !At(text, j, pat))
    requires n == |text| || At(text, n, pat)
    ensures Find(text, pat, from) == if n < |text| then n else -1
    decreases n - from
  {
    hide At;
    if from < n { FirstAt(text, pat, from + 1, n); }
  }

  lemma PatternIs(text: string, s: string, p: nat, n: nat, pat: string)
    requires p + |s| <= |text| && text[p..p + |s|] == s && pat != "" && n <= |s|
    requires forall j: nat :: j < n ==> !At(ToUpper(s), j, pat)
    requires if n < |s| then n + |pat| == |s| && At(ToUpper(s), n, pat) else p + |s| == |text|
    ensures Find(ToUpper(text), pat, p) == if n < |s| then p + n else -1
  {
    hide ToUpper, At;
    if n < |s| { AtInside(text, s, p, n, pat); }
    forall j: nat | p <= j < p + n ensures !At(ToUpper(text), j, pat) {
      if j - p + |pat| <= |s| { AtInside(text, s, p, j - p, pat); } else { TooLate(text, j, pat); }
    }
    FirstAt(ToUpper(text), pat, p, p + n);
  }

  lemma TooLate(text: string, j: nat, pat: string)
    requires j + |pat| > |text|
    ensures !At(ToUpper(text), j, pat)
  {
  }

  /** A clause stands at `p`, and its name at `k`. */
  predicate ClauseAt(stmt: string, p: nat, c: Clause, k: nat) {
    && k == p + |c.gap| + 12 && k + |c.name| < |stmt| && stmt[p..k - 2] == c.gap + "CONSTRAINT"
    && stmt[k - 2] == ' ' && stmt[k - 1] == '[' && stmt[k..k + |c.name|] == c.name && stmt[k + |c.name|] == ']'
  }

  lemma ClauseLayout(pre: string, cs: seq<Clause>, tail: string) returns (k: nat)
    requires cs != []
    ensures var stmt := pre + Clauses(cs, tail);
      ClauseAt(stmt, |pre|, cs[0], k) && stmt == stmt[..k + |cs[0].name| + 1] + Clauses(cs[1..], tail)
  {
    var c, rest := cs[0], Clauses(cs[1..], tail);
    k := |pre| + |c.gap| + 12;
    assert Clauses(cs, tail) == (c.gap + "CONSTRAINT") + (" [" + c.name + "]") + rest;
    assert pre + Clauses(cs, tail) == (pre + (c.gap + "CONSTRAINT") + (" [" + c.name + "]")) + rest;
  }

  lemma BoundsAre(stmt: string, p: nat, c: Clause, k: nat)
    requires ClauseAt(stmt, p, c, k) && ']' !in c.name && NoKeyword(c.gap + "CONSTRAINT", |c.gap|)
    ensures NameBounds(stmt, p) == (k, k + |c.name|)
  {
    hide ToUpper, Find, At;
    KeywordEnds(c.gap);
    PatternIs(stmt, c.gap + "CONSTRAINT", p, |c.gap|, "CONSTRAINT");
    FirstChar(stmt, '[', k - 2, k - 1);
    forall j | k <= j < k + |c.name| ensures stmt[j] != ']' { assert stmt[j] == c.name[j - k]; }
    FirstChar(stmt, ']', k, k + |c.name|);
  }

  lemma {:induction false} NamesOfClauses(pre: string, cs: seq<Clause>, tail: string)
    requires NoKeyword(tail, |tail|)
    requires forall c :: c in cs ==> ']' !in c.name && NoKeyword(c.gap + "CONSTRAINT", |c.gap|)
    ensures var stmt := pre + Clauses(cs, tail);
      NamesAt(stmt, NameBounds(stmt, |pre|)) == ClauseNames(cs)
    decreases |cs|
  {
    hide NoKeyword, NameBounds, ClauseAt, Clauses;
    var stmt := pre + Clauses(cs, tail);
    if cs == [] {
      NoneFollows(pre, tail);
    } else {
      var k := ClauseLayout(pre, cs, tail);
      assert cs[0] in cs;
      BoundsAre(stmt, |pre|, cs[0], k);
      NamesOfClauses(stmt[..k + |cs[0].name| + 1], cs[1..], tail);
    }
  }

  lemma NoneFollows(pre: string, tail: string)
    requires NoKeyword(tail, |tail|)
    ensures Clauses([], tail) == tail && NameBounds(pre + tail, |pre|) == (-1, -1)
  {
    hide ToUpper, Find, At;
    assert (pre + tail)[|pre|..] == tail;
    PatternIs(pre + tail, tail, |pre|, |tail|, "CONSTRAINT");
  }

  lemma KeywordEnds(gap: string)
    ensures At(ToUpper(gap + "CONSTRAINT"), |gap|, "CONSTRAINT")
  {
    assert ToUpper(gap + "CONSTRAINT")[|gap|..|gap| + 10] == "CONSTRAINT";
  }

  /** Every name of a statement is read, in order, whatever its names and its other text hold
      besides the keyword. */
  lemma NamesOfStatement(cs: seq<Clause>, tail: string)
    requires NoKeyword(tail, |tail|)
    requires forall c :: c in cs ==> ']' !in c.name && NoKeyword(c.gap + "CONSTRAINT", |c.gap|)
    ensures NamesOf(Clauses(cs, tail)) == ClauseNames(cs)
  {
    hide NamesAt, NameBounds, NoKeyword;
    NamesOfClauses("", cs, tail);
    assert "" + Clauses(cs, tail) == Clauses(cs, tail);
  }

  // ----- an index statement -----

  /** `pat` starts nowhere before the end of `s`, where it stands. */
  ghost predicate Behind(s: string, pat: string) { forall j: nat :: j < |s| ==> !At(ToUpper(s + pat), j, pat) }

  /** A CREATE INDEX from its keyword on; `o`, `c` and `e` are where the owner, the class and the columns begin. */
  predicate IndexLaidOut(stmt: string, k: nat, name: string, on: nat, owner: string, cls: string) {
    var o, c := on + 5, on + 5 + |owner| + 3;
    && on == k + 7 + |name| + 1 && c + |cls| + 2 < |stmt|
    && stmt[k..k + 7] == "INDEX [" && stmt[k + 7..on - 1] == name && stmt[on - 1] == ']'
    && stmt[on..on + 5] == " ON [" && stmt[o..o + |owner|] == owner && stmt[o + |owner|..c] == "].["
    && stmt[c..c + |cls|] == cls && stmt[c + |cls|] == ']' && stmt[c + |cls| + 1] == ' ' && stmt[c + |cls| + 2] == '('
  }

  lemma SliceHolds(s: string, i: nat, t: string)
    requires i + |t| <= |s| && s[i..i + |t|] == t
    ensures forall j :: 0 <= j < |t| ==> s[i + j] == t[j]
  {
    forall j | 0 <= j < |t| ensures s[i + j] == t[j] { assert s[i..i + |t|][j] == t[j]; }
  }

  lemma PatternEnds(gap: string, pat: string)
    requires ToUpper(pat) == pat
    ensures At(ToUpper(gap + pat), |gap|, pat)
  {
    assert ToUpper(gap + pat)[|gap|..|gap| + |pat|] == ToUpper(pat);
  }

  lemma UpperWords()
    ensures ToUpper("INDEX") == "INDEX" && ToUpper(" ON ") == " ON "
  {
  }

  lemma NameOfIndex(stmt: string, head: string, name: string, on: nat)
    requires on == |head| + 7 + |name| + 1 <= |stmt| && Behind(head, "INDEX") && ']' !in name
    requires stmt[0..|head| + 5] == head + "INDEX" && stmt[|head| + 5] == ' ' && stmt[|head| + 6] == '['
    requires stmt[|head| + 7..on - 1] == name && stmt[on - 1] == ']'
    ensures IndexName(stmt) == name
  {
    hide ToUpper, At, Find;
    var k := |head|;
    assert forall j :: 0 <= j < 5 ==> stmt[k + j] == (stmt[0..k + 5])[k + j] == "INDEX"[j];
    SliceHolds(stmt, k + 7, name);
    UpperWords();
    PatternEnds(head, "INDEX");
    PatternIs(stmt, head + "INDEX", 0, k, "INDEX");
    FirstChar(stmt, '[', k, k + 6);
    FirstChar(stmt, ']', k + 7, on - 1);
  }

  /** The owner's bracket and the class's, then the columns. */
  predicate Bracketed(stmt: string, on: nat, o: nat, p: nat, c: nat, e: nat) {
    && on + 4 == o - 1 && o <= p && c == p + 3 && c <= e && e + 2 < |stmt| && stmt[e + 2] == '('
    && (forall j :: on <= j < e + 2 ==> stmt[j] != '(')
    && (forall j :: on <= j < e + 2 ==> (stmt[j] == '[' <==> j == o - 1 || j == c - 1))
    && (forall j :: on <= j < e + 2 ==> (stmt[j] == ']' <==> j == p || j == e))
  }

  lemma BracketsOfIndex(stmt: string, k: nat, name: string, on: nat, owner: string, cls: string)
    requires IndexLaidOut(stmt, k, name, on, owner, cls)
    requires Unbracketed(owner) && Unbracketed(cls) && '(' !in owner && '(' !in cls
    ensures var o := on + 5;
      var c := o + |owner| + 3;
      Bracketed(stmt, on, o, o + |owner|, c, c + |cls|)
  {
    var o := on + 5;
    var p, c, e := o + |owner|, o + |owner| + 3, o + |owner| + 3 + |cls|;
    SliceHolds(stmt, on, " ON [");
    SliceHolds(stmt, o, owner);
    SliceHolds(stmt, p, "].[");
    SliceHolds(stmt, c, cls);
    forall j | on <= j < e + 2
      ensures stmt[j] != '(' && (stmt[j] == '[' <==> j == o - 1 || j == c - 1) && (stmt[j] == ']' <==> j == p || j == e)
    {
      if j < o { assert stmt[on + (j - on)] == " ON ["[j - on]; }
      else if j < p { assert stmt[o + (j - o)] == owner[j - o]; }
      else if j < c { assert stmt[p + (j - p)] == "].["[j - p]; }
      else if j < e { assert stmt[c + (j - c)] == cls[j - c]; }
    }
  }

  lemma LastOfTwo(stmt: string, on: nat, o: nat, p: nat, c: nat, e: nat)
    requires Bracketed(stmt, on, o, p, c, e)
    ensures LastBracketed(stmt, on, e + 2, "") == stmt[c..e] && Find(stmt, "(", on) == e + 2
  {
    hide Find;
    FirstChar(stmt, '(', on, e + 2);
    FirstChar(stmt, '[', on, o - 1);
    FirstChar(stmt, ']', o, p);
    FirstChar(stmt, '[', o, c - 1);
    FirstChar(stmt, ']', c, e);
    NoMoreBrackets(stmt, c, e + 2);
    var last := stmt[c..e];
    assert LastBracketed(stmt, c, e + 2, last) == last;
    assert LastBracketed(stmt, o, e + 2, stmt[o..p]) == last;
  }

  lemma NoMoreBrackets(stmt: string, from: nat, end: nat)
    requires from <= end <= |stmt| && forall j :: from <= j < end ==> stmt[j] != '['
    ensures var lb := Find(stmt, "[", from);
      lb < 0 || lb >= end
  {
    FindIsFirst(stmt, "[", from);
    var lb := Find(stmt, "[", from);
    assert lb >= 0 ==> stmt[lb] == stmt[lb..lb + 1][0];
  }

  lemma ClassOfIndex(stmt: string, on: nat, o: nat, p: nat, c: nat, e: nat)
    requires Bracketed(stmt, on, o, p, c, e) && Behind(stmt[..on], " ON ") && stmt[on..on + 4] == " ON "
    ensures IndexClass(stmt) == stmt[c..e]
  {
    hide ToUpper, At, Find, LastBracketed, Bracketed;
    LastOfTwo(stmt, on, o, p, c, e);
    UpperWords();
    Bounds(stmt, on, o, p, c, e);
    assert stmt[0..on + 4] == stmt[..on] + " ON ";
    PatternEnds(stmt[..on], " ON ");
    PatternIs(stmt, stmt[..on] + " ON ", 0, on, " ON ");
  }

  lemma Bounds(stmt: string, on: nat, o: nat, p: nat, c: nat, e: nat)
    requires Bracketed(stmt, on, o, p, c, e)
    ensures on + 4 < c <= e < |stmt|
  {
  }

  /** The name and the bare class of an index are read whatever its keyword stands behind. */
  lemma IndexOfStatement(stmt: string, head: string, name: string, on: nat, owner: string, cls: string)
    requires IndexLaidOut(stmt, |head|, name, on, owner, cls) && head <= stmt
    requires Behind(head, "INDEX") && Behind(stmt[..on], " ON ")
    requires ']' !in name && Unbracketed(owner) && Unbracketed(cls) && '(' !in owner && '(' !in cls
    ensures IndexName(stmt) == name && IndexClass(stmt) == cls
  {
    hide IndexName, IndexClass, Behind, Bracketed, Unbracketed;
    var k, o, c := |head|, on + 5, on + 5 + |owner| + 3;
    assert stmt[k..k + 5] == stmt[k..k + 7][..5] == "INDEX" && stmt[0..k + 5] == stmt[..k] + stmt[k..k + 5];
    assert stmt[on..on + 4] == stmt[on..on + 5][..4] == " ON ";
    SliceHolds(stmt, k, "INDEX [");
    NameOfIndex(stmt, head, name, on);
    BracketsOfIndex(stmt, k, name, on, owner, cls);
    ClassOfIndex(stmt, on, o, o + |owner|, c, c + |cls|);
  }
}
