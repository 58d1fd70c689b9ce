/** What the rewrite does to a schema file of CALL statements, letter by letter: which targets
    get their underscore, and that one statement says nothing about the next. */
module CallStatements {
  import opened Schema
  import opened CallLexer
  import opened CallRewrite
  import opened RewriteLaws
  import opened SecondPass

  /** `a` is the lower-case `word`, in any case. */
  predicate Spelled(a: string, word: string) {
    |a| == |word| && forall k :: 0 <= k < |a| ==> a[k] == word[k] || ('A' <= a[k] <= 'Z' && a[k] as int + 32 == word[k] as int)
  }

  // ----- how a statement is laid out -----

  datatype Word = Word(name: string, bracketed: bool)
  {
    function Text(): string { if bracketed then "[" + name + "]" else name }
  }

  /** Some text, then a literal. */
  datatype Arg = Arg(text: string, literal: string)

  datatype Call = Call(lead: string, call: string, gap: string, method_: Word, args: seq<Arg>, last: string,
                       on: string, toClass: string, cls: string, toView: string, view: Word, tail: string)

  datatype Stmt = Calling(c: Call) | Other(text: string)

  function ArgsText(args: seq<Arg>, last: string): string {
    if args == [] then last else args[0].text + ("'" + args[0].literal + "'" + ArgsText(args[1..], last))
  }

  /** `CALL <method>`, then `rest`. */
  function Head(c: Call, rest: string): string { c.lead + (c.call + (c.gap + (c.method_.Text() + rest))) }

  /** `ON CLASS <view>`, then `rest`. */
  function OnClass(c: Call, rest: string): string { c.on + (c.toClass + (c.cls + (c.toView + (c.view.Text() + rest)))) }

  function StmtText(m: Stmt): string {
    match m
    case Calling(c) => Head(c, ArgsText(c.args, c.last) + OnClass(c, c.tail + ";"))
    case Other(text) => text + ";"
  }

  function FileText(ms: seq<Stmt>): string { if ms == [] then "" else StmtText(ms[0]) + FileText(ms[1..]) }

  predicate Spaces(s: string) { forall c :: c in s ==> c == ' ' || '\t' <= c <= '\r' }

  predicate LetterO(c: char) { c == 'o' || c == 'O' }

  /** No keyword ON, literal, comment or end of statement starts at `k`. */
  predicate DullAt(s: string, k: nat) {
    && k < |s| && Plain(s[k])
    && (!LetterO(s[k]) || (k > 0 && IsIdentChar(s[k - 1])) || (k + 1 < |s| && s[k + 1] != 'n' && s[k + 1] != 'N')
        || (k + 2 < |s| && IsIdentChar(s[k + 2])))
  }

  predicate Dull(s: string) { forall k: nat :: k < |s| ==> DullAt(s, k) }

  /** An identifier other than ON. */
  predicate IsWord(w: Word) { w.name != "" && (forall c :: c in w.name ==> IsIdentChar(c)) && !Spelled(w.name, "on") }

  /** A bare word ends where `next` begins. */
  predicate Apart(w: Word, next: string) { w.bracketed || (next != "" && !IsIdentChar(next[0])) }

  predicate LaidOut(m: Stmt) {
    match m
    case Other(text) => Dull(text)
    case Calling(c) =>
      && Spaces(c.lead) && Spelled(c.call, "call") && Spaces(c.gap) && (c.gap != "" || c.method_.bracketed)
      && IsWord(c.method_) && Apart(c.method_, ArgsText(c.args, c.last))
      && (forall a :: a in c.args ==> a.text != "" && Dull(a.text) && '\'' !in a.literal)
      && c.last != "" && Dull(c.last) && !IsIdentChar(c.last[|c.last| - 1])
      && Spelled(c.on, "on") && Spaces(c.toClass) && c.toClass != ""
      && Spelled(c.cls, "class") && Spaces(c.toView) && (c.toView != "" || c.view.bracketed)
      && IsWord(c.view) && Apart(c.view, c.tail + ";") && Dull(c.tail)
  }

  /** The targets that move: the views whose name became a class's in 11.5, but db_user not for the
      two methods it kept. */
  predicate Shifts(c: Call) {
    || Spelled(c.view.name, "db_serial") || Spelled(c.view.name, "db_authorization")
    || (Spelled(c.view.name, "db_user") && !Spelled(c.method_.name, "find_user") && !Spelled(c.method_.name, "login"))
  }

  function Fixed(m: Stmt): Stmt {
    match m
    case Calling(c) => if Shifts(c) then Calling(c.(view := c.view.(name := "_" + c.view.name))) else m
    case _ => m
  }

  function FixedAll(ms: seq<Stmt>): seq<Stmt> { if ms == [] then [] else [Fixed(ms[0])] + FixedAll(ms[1..]) }

  function ShiftCount(ms: seq<Stmt>): nat {
    if ms == [] then 0 else (if Fixed(ms[0]) == ms[0] then 0 else 1) + ShiftCount(ms[1..])
  }

  // ----- letters -----

  lemma SpelledIsSame(a: string, word: string)
    requires forall k :: 0 <= k < |word| ==> 'a' <= word[k] <= 'z' || word[k] == '_'
    ensures Spelled(a, word) <==> Same(a, word)
  {
  }

  lemma ShiftsIs(v: string, m: string)
    ensures IsRenamed(v) <==> Spelled(v, "db_serial") || Spelled(v, "db_authorization") || Spelled(v, "db_user")
    ensures IsKept(m) <==> Spelled(m, "find_user") || Spelled(m, "login")
    ensures Same(v, "db_user") <==> Spelled(v, "db_user")
  {
    hide Spelled, Same;
    SpelledIsSame(v, "db_serial");
    SpelledIsSame(v, "db_authorization");
    SpelledIsSame(v, "db_user");
    SpelledIsSame(m, "find_user");
    SpelledIsSame(m, "login");
  }

  // ----- what stands where -----

  predicate Stands(s: string, p: nat, t: string) { p + |t| <= |s| && s[p..p + |t|] == t }

  lemma StandsSplit(s: string, p: nat, a: string, b: string)
    requires Stands(s, p, a + b)
    ensures Stands(s, p, a) && Stands(s, p + |a|, b)
  {
    assert s[p..p + |a|] == s[p..p + |a + b|][..|a|] == a;
    assert s[p + |a|..p + |a| + |b|] == s[p..p + |a + b|][|a|..] == b;
  }

  lemma CharStands(s: string, p: nat, t: string, k: nat)
    requires Stands(s, p, t) && k < |t|
    ensures p + k < |s| && s[p + k] == t[k]
  {
    assert s[p..p + |t|][k] == t[k];
  }

  lemma DullStays(s: string, p: nat, t: string, k: nat)
    requires Stands(s, p, t) && DullAt(t, k)
    ensures DullAt(s, p + k)
  {
    CharStands(s, p, t, k);
    if k > 0 { CharStands(s, p, t, k - 1); }
    if k + 1 < |t| { CharStands(s, p, t, k + 1); }
    if k + 2 < |t| { CharStands(s, p, t, k + 2); }
  }

  // ----- what the scan passes over -----

  lemma KeywordOn(s: string, k: nat)
    requires Keyword(s, k, "on")
    ensures k + 1 < |s| && (s[k + 1] == 'n' || s[k + 1] == 'N') && (k + 2 == |s| || !IsIdentChar(s[k + 2]))
  {
    assert Lower(s[k + 1]) == Lower("on"[1]);
  }

  lemma DullMovesNothing(s: string, start: nat, k: nat)
    requires start <= |s| && DullAt(s, k)
    ensures Moves(s, start, k).None?
  {
    hide SpaceEnd, ReadIdent, IsIdentChar, IsRenamed, Exempt, Keyword;
    if Keyword(s, k, "on") { KeywordOn(s, k); }
  }

  lemma PassRun(s: string, start: nat, i: nat, j: nat)
    requires start <= |s| && i <= j <= |s| && forall k: nat :: i <= k < j ==> DullAt(s, k)
    ensures Marks(s, start, i) == Marks(s, start, j)
  {
    hide Marks, Moves, Starts, IsIdentChar;
    forall k: nat | i <= k < j ensures Plain(s[k]) && Moves(s, start, k).None? { DullMovesNothing(s, start, k); }
    QuietRun(s, start, i, j);
  }

  lemma PassDull(s: string, start: nat, p: nat, t: string)
    requires start <= |s| && Stands(s, p, t) && Dull(t)
    ensures Marks(s, start, p) == Marks(s, start, p + |t|)
  {
    hide Marks, DullAt;
    forall k: nat | p <= k < p + |t| ensures DullAt(s, k) { DullStays(s, p, t, k - p); }
    PassRun(s, start, p, p + |t|);
  }

  lemma SpacesAreDull(t: string)
    requires Spaces(t)
    ensures Dull(t)
  {
    forall k: nat | k < |t| ensures DullAt(t, k) { assert t[k] in t; }
  }

  /** A keyword without an `o` in front. */
  lemma SpelledIsDull(t: string, word: string)
    requires Spelled(t, word) && forall k :: 0 <= k < |word| ==> 'a' <= word[k] <= 'z' && word[k] != 'o'
    ensures Dull(t)
  {
  }

  /** A bare word ends at `e`. */
  predicate Ends(s: string, e: nat, w: Word) { w.bracketed || (e < |s| && !IsIdentChar(s[e])) }

  lemma IdentChars(name: string)
    requires forall c :: c in name ==> IsIdentChar(c)
    ensures forall j :: 0 <= j < |name| ==> IsIdentChar(name[j]) && Plain(name[j]) && !IsSpace(name[j]) && name[j] != ']'
    ensures IsIdentChar('n') && IsIdentChar('N') && !IsIdentChar(']') && !IsIdentChar('[')
  {
    forall j | 0 <= j < |name| ensures IsIdentChar(name[j]) && Plain(name[j]) { assert name[j] in name; }
  }

  /** The letters of a word where it stands. */
  lemma WordStands(s: string, p: nat, w: Word)
    requires IsWord(w) && Stands(s, p, w.Text())
    ensures var a, n := p + if w.bracketed then 1 else 0, |w.name|;
      && p + |w.Text()| <= |s| && p < |s| && a + n <= |s| && s[a..a + n] == w.name
      && (forall k :: 0 <= k < n ==> s[a + k] == w.name[k]) && !IsSpace(s[p])
      && (w.bracketed ==> s[p] == '[' && a + n < |s| && s[a + n] == ']')
  {
    hide IsIdentChar, Stands, Plain;
    var a, n := if w.bracketed then 1 else 0, |w.name|;
    IdentChars(w.name);
    StandsHere(s, p, w.Text());
    CharStands(s, p, w.Text(), 0);
    CharStands(s, p, w.Text(), |w.Text()| - 1);
    forall k | 0 <= k < n ensures s[p + a + k] == w.name[k] { CharStands(s, p, w.Text(), a + k); }
  }

  lemma StandsHere(s: string, p: nat, t: string)
    requires Stands(s, p, t)
    ensures p + |t| <= |s| && s[p..p + |t|] == t
  {
  }

  lemma PassWord(s: string, start: nat, p: nat, w: Word)
    requires start <= |s| && IsWord(w) && Stands(s, p, w.Text()) && Ends(s, p + |w.Text()|, w)
    ensures Marks(s, start, p) == Marks(s, start, p + |w.Text()|)
  {
    hide Marks, Stands, IsIdentChar;
    var a, n := p + if w.bracketed then 1 else 0, |w.name|;
    WordStands(s, p, w);
    IdentChars(w.name);
    PassRun(s, start, p, p + |w.Text()|);
  }

  lemma {:induction false} PassArgs(s: string, start: nat, p: nat, args: seq<Arg>, last: string)
    requires start <= |s| && Stands(s, p, ArgsText(args, last)) && last != "" && Dull(last)
    requires forall a :: a in args ==> a.text != "" && Dull(a.text) && '\'' !in a.literal
    ensures Marks(s, start, p) == Marks(s, start, p + |ArgsText(args, last)|)
    decreases |args|
  {
    hide Marks, Dull, LiteralTail, Stands;
    if args == [] {
      PassDull(s, start, p, last);
    } else {
      var a, rest := args[0], ArgsText(args[1..], last);
      var q := p + |a.text|;
      assert a in args;
      StandsSplit(s, p, a.text, "'" + a.literal + "'" + rest);
      StandsSplit(s, q, "'" + a.literal + "'", rest);
      PassDull(s, start, p, a.text);
      ArgsBegin(args[1..], last);
      PassLiteral(s, start, q, a.literal, rest);
      PassArgs(s, start, q + |a.literal| + 2, args[1..], last);
    }
  }

  lemma ArgsBegin(args: seq<Arg>, last: string)
    requires last != "" && Dull(last) && forall a :: a in args ==> a.text != "" && Dull(a.text)
    ensures ArgsText(args, last) != "" && ArgsText(args, last)[0] != '\''
  {
    hide DullAt;
    var t := if args == [] then last else args[0].text;
    assert args != [] ==> args[0] in args;
    DullBegins(t);
  }

  lemma DullBegins(t: string)
    requires Dull(t) && t != ""
    ensures t[0] != '\''
  {
    assert DullAt(t, 0);
  }

  lemma {:induction false} TailIs(s: string, i: nat, e: nat)
    requires i <= e < |s| && (forall k :: i <= k < e ==> s[k] != '\'') && s[e] == '\'' && (e + 1 < |s| ==> s[e + 1] != '\'')
    ensures LiteralTail(s, i) == e + 1
    decreases e - i
  {
    if i < e { TailIs(s, i + 1, e); }
  }

  lemma PassLiteral(s: string, start: nat, q: nat, literal: string, rest: string)
    requires start <= |s| && Stands(s, q, "'" + literal + "'") && Stands(s, q + |literal| + 2, rest)
    requires '\'' !in literal && rest != "" && rest[0] != '\''
    ensures Marks(s, start, q) == Marks(s, start, q + |literal| + 2)
  {
    hide Marks, LiteralTail;
    var t, e := "'" + literal + "'", q + |literal| + 1;
    CharStands(s, q, t, 0);
    CharStands(s, q, t, |literal| + 1);
    CharStands(s, e + 1, rest, 0);
    forall k | q < k < e ensures s[k] != '\'' {
      CharStands(s, q, t, k - q);
      assert t[k - q] == literal[k - q - 1];
    }
    TailIs(s, q + 1, e);
    MarksOfLiteral(s, start, q);
  }

  // ----- what the scan reads -----

  lemma SpacesEnd(s: string, p: nat, gap: string)
    requires Stands(s, p, gap) && Spaces(gap) && p + |gap| < |s| && !IsSpace(s[p + |gap|])
    ensures SpaceEnd(s, p) == p + |gap|
  {
    hide SpaceEnd;
    forall k | p <= k < p + |gap| ensures IsSpace(s[k]) {
      CharStands(s, p, gap, k - p);
      assert gap[k - p] in gap;
    }
  }

  lemma SpacesBegin(s: string, p: nat, gap: string)
    requires Stands(s, p, gap) && Spaces(gap) && gap != ""
    ensures p < |s| && !IsIdentChar(s[p])
  {
    CharStands(s, p, gap, 0);
    assert gap[0] in gap;
  }

  lemma KeywordStands(s: string, p: nat, a: string, word: string)
    requires Stands(s, p, a) && Spelled(a, word) && p + |a| < |s| && !IsIdentChar(s[p + |a|])
    requires word != "" && forall k :: 0 <= k < |word| ==> 'a' <= word[k] <= 'z'
    ensures Keyword(s, p, word)
  {
    hide IsIdentChar;
    forall k | 0 <= k < |word| ensures Lower(s[p + k]) == Lower(word[k]) { CharStands(s, p, a, k); }
  }

  lemma KeywordBegins(s: string, p: nat, a: string, word: string)
    requires Stands(s, p, a) && Spelled(a, word) && word != "" && forall k :: 0 <= k < |word| ==> 'a' <= word[k] <= 'z'
    ensures p < |s| && !IsSpace(s[p]) && s[p] != '-' && s[p] != '/' && |a| == |word|
  {
    CharStands(s, p, a, 0);
  }

  lemma WordReads(s: string, p: nat, w: Word)
    requires IsWord(w) && Stands(s, p, w.Text()) && Ends(s, p + |w.Text()|, w)
    ensures ReadIdent(s, p) == Some(Ident(w.name, w.bracketed, p + |w.Text()|))
  {
    hide IsIdentChar, CloseAt, IdentEnd, Stands, IsSpace, Spelled;
    var n := |w.name|;
    WordStands(s, p, w);
    IdentChars(w.name);
    if w.bracketed {
      assert CloseAt(s, p + 1) == p + 1 + n;
    } else {
      assert s[p] == w.name[0] && IdentEnd(s, p) == p + n;
    }
  }

  /** Where the parts of `CALL <method>` stand. */
  predicate HeadAt(s: string, p: nat, c: Call) {
    var k := p + |c.lead|;
    && p <= |s| && Stands(s, p, c.lead) && Stands(s, k, c.call) && Stands(s, k + |c.call|, c.gap)
    && Stands(s, k + |c.call| + |c.gap|, c.method_.Text())
  }

  lemma HeadStands(s: string, p: nat, c: Call, rest: string)
    requires Stands(s, p, Head(c, rest))
    ensures HeadAt(s, p, c) && Stands(s, p + |c.lead| + |c.call| + |c.gap| + |c.method_.Text()|, rest)
  {
    hide Stands, Word.Text;
    var k, m := p + |c.lead|, c.method_.Text();
    StandsHere(s, p, Head(c, rest));
    StandsSplit(s, p, c.lead, c.call + (c.gap + (m + rest)));
    StandsSplit(s, k, c.call, c.gap + (m + rest));
    StandsSplit(s, k + |c.call|, c.gap, m + rest);
    StandsSplit(s, k + |c.call| + |c.gap|, m, rest);
  }

  lemma HeadReads(s: string, p: nat, c: Call, e: nat)
    requires LaidOut(Calling(c)) && HeadAt(s, p, c) && e == p + |c.lead| + |c.call| + |c.gap| + |c.method_.Text()|
    requires Ends(s, e, c.method_)
    ensures ReadCall(s, p) == Some(CallHead(c.method_.name, e)) && Marks(s, p, p) == Marks(s, p, e)
  {
    hide Stands, Marks, Spelled, Spaces, IsWord, Dull, Ends, IsIdentChar, IsSpace, SpaceEnd, CommentEnd, TriviaEnd,
         ReadIdent, Keyword, Word.Text;
    var k, g := p + |c.lead|, p + |c.lead| + |c.call|;
    KeywordBegins(s, k, c.call, "call");
    SpacesEnd(s, p, c.lead);
    LetterIsNoTrivia(s, k);
    TriviaStep(s, p);
    GapBegins(s, g, c.gap, c.method_);
    KeywordStands(s, k, c.call, "call");
    SpacesEnd(s, g, c.gap);
    WordReads(s, g + |c.gap|, c.method_);
    SpacesAreDull(c.lead);
    SpacesAreDull(c.gap);
    SpelledIsDull(c.call, "call");
    PassDull(s, p, p, c.lead);
    PassDull(s, p, k, c.call);
    PassDull(s, p, g, c.gap);
    PassWord(s, p, g + |c.gap|, c.method_);
  }

  /** Blanks, if any, then a word. */
  lemma GapBegins(s: string, p: nat, gap: string, w: Word)
    requires Stands(s, p, gap) && Stands(s, p + |gap|, w.Text()) && Spaces(gap) && IsWord(w) && (gap != "" || w.bracketed)
    ensures p + |gap| < |s| && !IsIdentChar(s[p]) && !IsSpace(s[p + |gap|])
  {
    hide Stands, IsSpace, Spaces;
    WordStands(s, p + |gap|, w);
    if gap != "" { SpacesBegin(s, p, gap); }
  }

  lemma SpelledLength(a: string, word: string)
    requires Spelled(a, word)
    ensures |a| == |word|
  {
  }

  /** Where the parts of `ON CLASS <view>` stand. */
  predicate OnAt(s: string, o: nat, c: Call) {
    var j := o + 2 + |c.toClass|;
    && Stands(s, o, c.on) && Stands(s, o + 2, c.toClass) && Stands(s, j, c.cls) && Stands(s, j + 5, c.toView)
    && Stands(s, ViewAt(o, c), c.view.Text())
  }

  /** Where the view stands. */
  function ViewAt(o: nat, c: Call): nat { o + 2 + |c.toClass| + 5 + |c.toView| }

  lemma OnStands(s: string, o: nat, c: Call, rest: string)
    requires Stands(s, o, OnClass(c, rest)) && |c.on| == 2 && |c.cls| == 5
    ensures OnAt(s, o, c) && Stands(s, ViewAt(o, c) + |c.view.Text()|, rest)
  {
    hide Stands, Word.Text;
    var j, view := o + 2 + |c.toClass|, c.view.Text() + rest;
    StandsSplit(s, o, c.on, c.toClass + (c.cls + (c.toView + view)));
    StandsSplit(s, o + 2, c.toClass, c.cls + (c.toView + view));
    StandsSplit(s, j, c.cls, c.toView + view);
    StandsSplit(s, j + 5, c.toView, view);
    StandsSplit(s, ViewAt(o, c), c.view.Text(), rest);
  }

  lemma OnReads(s: string, o: nat, c: Call)
    requires LaidOut(Calling(c)) && OnAt(s, o, c) && Ends(s, ViewAt(o, c) + |c.view.Text()|, c.view)
    ensures var v := ViewAt(o, c);
      v < |s| && ReadTarget(s, o) == Some(Target(v, Ident(c.view.name, c.view.bracketed, v + |c.view.Text()|)))
  {
    hide Stands, Spelled, Spaces, IsWord, Dull, Ends, IsIdentChar, IsSpace, SpaceEnd, ReadIdent, Keyword, Word.Text, Apart,
         ArgsText;
    var j, v := o + 2 + |c.toClass|, ViewAt(o, c);
    KeywordBegins(s, o, c.on, "on");
    SpacesBegin(s, o + 2, c.toClass);
    KeywordStands(s, o, c.on, "on");
    KeywordBegins(s, j, c.cls, "class");
    SpacesEnd(s, o + 2, c.toClass);
    GapBegins(s, j + 5, c.toView, c.view);
    KeywordStands(s, j, c.cls, "class");
    SpacesEnd(s, j + 5, c.toView);
    WordReads(s, v, c.view);
    TargetFrom(s, o, j, v, Ident(c.view.name, c.view.bracketed, v + |c.view.Text()|));
  }

  lemma EndsInside(s: string, p: nat, t: string)
    requires Stands(s, p, t)
    ensures p <= |s|
  {
  }

  /** Behind the `o`, nothing more. */
  lemma OnPasses(s: string, start: nat, o: nat, c: Call)
    requires start <= |s| && LaidOut(Calling(c)) && OnAt(s, o, c) && Ends(s, ViewAt(o, c) + |c.view.Text()|, c.view)
    ensures o + 1 <= ViewAt(o, c) + |c.view.Text()| <= |s|
    ensures Marks(s, start, o + 1) == Marks(s, start, ViewAt(o, c) + |c.view.Text()|)
  {
    hide Stands, Marks, Spelled, Spaces, IsWord, Dull, Ends, Word.Text, IsIdentChar;
    var j := o + 2 + |c.toClass|;
    SpacesAreDull(c.toClass);
    SpacesAreDull(c.toView);
    SpelledIsDull(c.cls, "class");
    SpelledLength(c.cls, "class");
    LetterN(s, o, c.on);
    StandsHere(s, ViewAt(o, c), c.view.Text());
    PassRun(s, start, o + 1, o + 2);
    PassDull(s, start, o + 2, c.toClass);
    PassDull(s, start, j, c.cls);
    PassDull(s, start, j + 5, c.toView);
    PassWord(s, start, ViewAt(o, c), c.view);
  }

  lemma LetterN(s: string, o: nat, on: string)
    requires Stands(s, o, on) && Spelled(on, "on")
    ensures o + 1 < |s| && LetterO(s[o]) && Plain(s[o]) && DullAt(s, o + 1)
  {
    CharStands(s, o, on, 0);
    CharStands(s, o, on, 1);
  }

  // ----- one statement -----

  lemma {:induction false} ArgsEnd(args: seq<Arg>, last: string)
    requires last != ""
    ensures var t := ArgsText(args, last);
      t != "" && t[|t| - 1] == last[|last| - 1]
  {
    if args != [] { ArgsEnd(args[1..], last); }
  }

  lemma CallMoves(s: string, p: nat, c: Call, e: nat, o: nat, t: Target)
    requires p <= |s| && e <= o < |s| && ReadCall(s, p) == Some(CallHead(c.method_.name, e))
    requires Starts(s, o) && ReadTarget(s, o) == Some(t) && t.id.name == c.view.name
    ensures Moves(s, p, o) == if Shifts(c) then Some(t) else None
  {
    hide ReadCall, ReadTarget, Spelled, Same, Starts, IsRenamed, IsKept;
    ShiftsIs(c.view.name, c.method_.name);
    SpelledOnce(c.view.name);
  }

  lemma SpelledOnce(v: string)
    ensures !(Spelled(v, "db_user") && (Spelled(v, "db_serial") || Spelled(v, "db_authorization")))
  {
  }

  lemma EndPasses(s: string, start: nat, i: nat, tail: string)
    requires start <= |s| && Stands(s, i, tail + ";") && Dull(tail)
    ensures var e := i + |tail| + 1;
      i <= e <= |s| && Marks(s, start, i) == Marks(s, e, e)
  {
    hide Marks, Dull, CommentEnd;
    StandsSplit(s, i, tail, ";");
    CharStands(s, i + |tail|, ";", 0);
    PassDull(s, start, i, tail);
    NextOrdinary(s, i + |tail|, s, i + |tail|);
    MarksOfEnd(s, start, i + |tail|);
  }

  /** What the scan does with the statement that stands at `p`. */
  ghost predicate Rewrites(s: string, p: nat, m: Stmt) {
    var e := p + |StmtText(m)|;
    && p <= e <= |s| && Text(s, p, p) == StmtText(Fixed(m)) + Text(s, e, e)
    && |Marks(s, p, p)| == (if Fixed(m) == m then 0 else 1) + |Marks(s, e, e)|
  }

  lemma OtherRewrites(s: string, p: nat, text: string)
    requires Stands(s, p, text + ";") && Dull(text)
    ensures Rewrites(s, p, Other(text))
  {
    hide Marks, Dull, Text;
    EndsInside(s, p, text + ";");
    EndPasses(s, p, p, text);
    TextSkips(s, p, p, p + |text| + 1, p + |text| + 1);
  }

  /** A statement up to its view. */
  function Before(c: Call): string { Head(c, ArgsText(c.args, c.last) + (c.on + (c.toClass + (c.cls + c.toView)))) }

  lemma HeadThen(c: Call, a: string, b: string)
    ensures Head(c, a + b) == Head(c, a) + b && |Head(c, a)| == |c.lead| + |c.call| + |c.gap| + |c.method_.Text()| + |a|
  {
    var m := c.method_.Text();
    assert m + (a + b) == (m + a) + b;
    assert c.gap + ((m + a) + b) == (c.gap + (m + a)) + b;
    assert c.call + ((c.gap + (m + a)) + b) == (c.call + (c.gap + (m + a))) + b;
  }

  lemma BeforeThen(c: Call)
    ensures StmtText(Calling(c)) == Before(c) + (c.view.Text() + (c.tail + ";"))
    ensures |Before(c)| == |Head(c, "")| + |ArgsText(c.args, c.last)| + |c.on| + |c.toClass| + |c.cls| + |c.toView|
  {
    hide Head, ArgsText, Word.Text;
    var a, on, rest := ArgsText(c.args, c.last), c.on + (c.toClass + (c.cls + c.toView)), c.view.Text() + (c.tail + ";");
    assert c.on + (c.toClass + (c.cls + (c.toView + rest))) == (c.on + (c.toClass + (c.cls + c.toView))) + rest;
    HeadThen(c, a + on, rest);
    HeadThen(c, "", "");
    assert a + (on + rest) == (a + on) + rest;
  }

  /** What the scan makes of a statement. */
  lemma CallScan(s: string, p: nat, c: Call) returns (o: nat, t: Target)
    requires LaidOut(Calling(c)) && Stands(s, p, StmtText(Calling(c))) && p <= |s|
    ensures t.at == p + |Before(c)| && t.id.end == t.at + |c.view.Text()| && t.id.end + |c.tail| + 1 == p + |StmtText(Calling(c))| <= |s|
    ensures p <= o < t.at && Ordinary(s, o) && s[o] != ';' && t.id.name == c.view.name && t.id.bracketed == c.view.bracketed
    ensures Marks(s, p, p) == Marks(s, p, o) && Moves(s, p, o) == if Shifts(c) then Some(t) else None
    ensures var e := t.id.end + |c.tail| + 1;
      Marks(s, p, o + 1) == Marks(s, p, t.id.end) == Marks(s, e, e)
  {
    hide Marks, Moves, Stands, HeadAt, OnAt, ArgsText, Spelled, Spaces, IsWord, Dull, Before, ReadCall, ReadTarget, Shifts,
         Ends, Word.Text, Head, OnClass, CommentEnd, IsIdentChar;
    var m, a, end := c.method_.Text(), ArgsText(c.args, c.last), c.tail + ";";
    Lengths(c);
    ArgsEnd(c.args, c.last);
    var b := p + |c.lead| + |c.call| + |c.gap| + |m|;
    HeadStands(s, p, c, a + OnClass(c, end));
    StandsSplit(s, b, a, OnClass(c, end));
    ApartEnds(s, b, c.method_, a);
    HeadReads(s, p, c, b);
    PassArgs(s, p, b, c.args, c.last);
    CharStands(s, b, a, |a| - 1);
    o := b + |a|;
    var v := ViewAt(o, c);
    t := Target(v, Ident(c.view.name, c.view.bracketed, v + |c.view.Text()|));
    OnStands(s, o, c, end);
    ApartEnds(s, v + |c.view.Text()|, c.view, end);
    OnReads(s, o, c);
    OnPasses(s, p, o, c);
    EndPasses(s, p, v + |c.view.Text()|, c.tail);
    OnBegins(s, o, c);
    LetterIsNoTrivia(s, o);
    CallMoves(s, p, c, b, o, t);
  }

  lemma ApartEnds(s: string, p: nat, w: Word, next: string)
    requires Stands(s, p, next) && Apart(w, next)
    ensures Ends(s, p, w)
  {
    if !w.bracketed { CharStands(s, p, next, 0); }
  }

  lemma OnBegins(s: string, o: nat, c: Call)
    requires OnAt(s, o, c) && Spelled(c.on, "on")
    ensures o < |s| && LetterO(s[o])
  {
    LetterN(s, o, c.on);
  }

  lemma Lengths(c: Call)
    requires LaidOut(Calling(c))
    ensures |c.call| == 4 && |c.on| == 2 && |c.cls| == 5
    ensures |Before(c)| == |c.lead| + 4 + |c.gap| + |c.method_.Text()| + |ArgsText(c.args, c.last)| + 7 + |c.toClass| + |c.toView|
    ensures |StmtText(Calling(c))| == |Before(c)| + |c.view.Text()| + |c.tail| + 1
  {
    hide Dull, ArgsText, Before, Word.Text, StmtText, Head, IsWord;
    BeforeThen(c);
    HeadThen(c, "", "");
  }

  lemma CallRewrites(s: string, p: nat, c: Call)
    requires LaidOut(Calling(c)) && Stands(s, p, StmtText(Calling(c)))
    ensures Rewrites(s, p, Calling(c))
  {
    hide Marks, Moves, Text, LaidOut, Shifts, Before, Ordinary, StmtText, Stands;
    EndsInside(s, p, StmtText(Calling(c)));
    var o, t := CallScan(s, p, c);
    var e := t.id.end + |c.tail| + 1;
    if Shifts(c) {
      TextSkips(s, p, p, p, o);
      MoveCase(s, p, o, t);
      TextSkips(s, p, t.id.end, e, e);
      MovedStands(s, p, o, c, t, Text(s, e, e));
    } else {
      CopyCase(s, p, o);
      TextSkips(s, p, p, e, e);
      StandsHere(s, p, StmtText(Calling(c)));
    }
  }

  lemma MovedStands(s: string, p: nat, o: nat, c: Call, t: Target, rest: string)
    requires Stands(s, p, StmtText(Calling(c))) && p <= o < t.at
    requires t.at == p + |Before(c)| && t.id.end == t.at + |c.view.Text()| && t.id.end + |c.tail| + 1 <= |s|
    requires t.id.name == c.view.name && t.id.bracketed == c.view.bracketed
    ensures s[p..o] + (s[o..t.at] + Moved(t.id) + (s[t.id.end..t.id.end + |c.tail| + 1] + rest))
         == StmtText(Calling(c.(view := c.view.(name := "_" + c.view.name)))) + rest
  {
    hide Before, StmtText, Stands, Moved, Word.Text;
    var moved, end := c.view.(name := "_" + c.view.name), c.tail + ";";
    BeforeThen(c);
    BeforeThen(c.(view := moved));
    SameBefore(c, moved);
    StandsSplit(s, p, Before(c), c.view.Text() + end);
    StandsSplit(s, t.at, c.view.Text(), end);
    StandsHere(s, p, Before(c));
    StandsHere(s, t.id.end, end);
    MovedIs(t.id, c.view);
    assert s[p..o] + (s[o..t.at] + moved.Text() + (end + rest)) == ((s[p..o] + s[o..t.at]) + (moved.Text() + end)) + rest;
  }

  lemma MovedIs(id: Ident, w: Word)
    requires id.name == w.name && id.bracketed == w.bracketed
    ensures Moved(id) == w.(name := "_" + w.name).Text()
  {
  }

  lemma SameBefore(c: Call, w: Word)
    ensures Before(c.(view := w)) == Before(c)
  {
    hide ArgsText;
  }

  /** A file of statements comes out as the file of the fixed ones, and every underscore counts. */
  lemma {:induction false} RewritesFrom(pre: string, ms: seq<Stmt>)
    requires forall m :: m in ms ==> LaidOut(m)
    ensures var s := pre + FileText(ms);
      Text(s, |pre|, |pre|) == FileText(FixedAll(ms)) && |Marks(s, |pre|, |pre|)| == ShiftCount(ms)
    decreases |ms|
  {
    hide Text, Marks, LaidOut, Fixed, StmtText;
    var s := pre + FileText(ms);
    if ms == [] {
      CallRewrite.NothingLeft(s, |pre|);
    } else {
      var m, next := ms[0], pre + StmtText(ms[0]);
      assert m in ms && s == next + FileText(ms[1..]);
      assert Stands(s, |pre|, StmtText(m)) by { assert s[|pre|..|next|] == StmtText(m); }
      StmtRewrites(s, |pre|, m);
      RewritesFrom(next, ms[1..]);
    }
  }

  lemma StmtRewrites(s: string, p: nat, m: Stmt)
    requires LaidOut(m) && Stands(s, p, StmtText(m))
    ensures Rewrites(s, p, m)
  {
    hide Stands, Rewrites, Dull, Spelled, Spaces, IsWord;
    match m
    case Calling(c) => CallRewrites(s, p, c);
    case Other(text) => OtherRewrites(s, p, text);
  }

  /** What `rewrite_pre115_call_targets` makes of a schema file. */
  lemma RewritesFile(ms: seq<Stmt>)
    requires forall m :: m in ms ==> LaidOut(m)
    ensures Text(FileText(ms), 0, 0) == FileText(FixedAll(ms)) && |Marks(FileText(ms), 0, 0)| == ShiftCount(ms)
  {
    hide Text, Marks, LaidOut, StmtText;
    RewritesFrom("", ms);
    assert "" + FileText(ms) == FileText(ms);
  }
}
