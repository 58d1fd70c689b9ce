/** A second pass over a rewritten text: the scanner goes through it in step with the first
    pass over the original and finds nothing to move. */
module SecondPass {
  import opened Schema
  import opened CallLexer
  import opened CallRewrite
  import opened RewriteLaws

  // ----- the scanners see only what they read -----

  /** What stands in `s` from `i` to `e` stands in `f`, `d` further on. */
  predicate Agree(s: string, i: nat, e: nat, f: string, d: int) {
    && i <= e <= |s| && 0 <= i + d && e + d <= |f|
    && (forall p :: i <= p < e ==> s[p] == f[p + d]) && (forall q :: i + d <= q < e + d ==> f[q] == s[q - d])
  }

  predicate SameNext(s: string, e: nat, f: string, d: int)
    requires e <= |s| && 0 <= e + d <= |f|
  {
    if e == |s| then e + d == |f| else e + d < |f| && s[e] == f[e + d]
  }

  /** And so does what follows. */
  predicate Covers(s: string, i: nat, e: nat, f: string, d: int) {
    Agree(s, i, e, f, d) && SameNext(s, e, f, d)
  }

  lemma Within(s: string, i: nat, e: nat, f: string, d: int, a: nat, b: nat)
    requires Agree(s, i, e, f, d) && i <= a <= b <= e
    ensures Agree(s, a, b, f, d) && (b < e ==> Covers(s, a, b, f, d)) && (a < e ==> 0 <= a + d < |f| && s[a] == f[a + d])
  {
  }

  lemma {:induction false} SpaceEndIs(f: string, a: nat, b: nat)
    requires a <= b <= |f| && (forall k :: a <= k < b ==> IsSpace(f[k])) && (b < |f| ==> !IsSpace(f[b]))
    ensures SpaceEnd(f, a) == b
    decreases b - a
  {
    if a < b { SpaceEndIs(f, a + 1, b); }
  }

  lemma SpaceCovers(s: string, i: nat, e: nat, f: string, d: int)
    requires Covers(s, i, e, f, d) && SpaceEnd(s, i) == e
    ensures SpaceEnd(f, i + d) == e + d
  {
    SpaceEndIs(f, i + d, e + d);
  }

  lemma {:induction false} IdentCovers(s: string, i: nat, e: nat, f: string, d: int)
    requires Covers(s, i, e, f, d) && IdentEnd(s, i) == e
    ensures IdentEnd(f, i + d) == e + d
    decreases e - i
  {
    if i < e { IdentCovers(s, i + 1, e, f, d); }
  }

  lemma {:induction false} LineCovers(s: string, i: nat, e: nat, f: string, d: int)
    requires Covers(s, i, e, f, d) && LineEnd(s, i) == e
    ensures LineEnd(f, i + d) == e + d
    decreases e - i
  {
    if i < e { LineCovers(s, i + 1, e, f, d); }
  }

  lemma {:induction false} CloseAgrees(s: string, i: nat, e: nat, f: string, d: int)
    requires Agree(s, i, e + 1, f, d) && CloseAt(s, i) == e
    ensures CloseAt(f, i + d) == e + d
    decreases e - i
  {
    if i < e { CloseAgrees(s, i + 1, e, f, d); }
  }

  lemma {:induction false} LiteralCovers(s: string, i: nat, e: nat, f: string, d: int)
    requires Covers(s, i, e, f, d) && LiteralTail(s, i) == e
    ensures LiteralTail(f, i + d) == e + d
    decreases e - i
  {
    if i < |s| {
      if s[i] != '\'' {
        LiteralCovers(s, i + 1, e, f, d);
      } else if i + 1 < |s| && s[i + 1] == '\'' {
        LiteralCovers(s, i + 2, e, f, d);
      }
    }
  }

  lemma {:induction false} BlockCovers(s: string, i: nat, e: nat, f: string, d: int)
    requires Covers(s, i, e, f, d) && BlockTail(s, i) == e
    ensures BlockTail(f, i + d) == e + d
    decreases e - i
  {
    if i + 1 < |s| && !(s[i] == '*' && s[i + 1] == '/') {
      BlockCovers(s, i + 1, e, f, d);
    }
  }

  lemma CommentCovers(s: string, i: nat, e: nat, f: string, d: int)
    requires i < e && Covers(s, i, e, f, d) && CommentEnd(s, i) == e
    ensures CommentEnd(f, i + d) == e + d
  {
    hide BlockTail, LineEnd;
    if s[i] == '-' {
      LineCovers(s, i + 2, e, f, d);
    } else {
      BlockCovers(s, i + 2, e, f, d);
    }
  }

  lemma KeywordCovers(s: string, i: nat, f: string, d: int, word: string)
    requires Keyword(s, i, word) && Covers(s, i, i + |word|, f, d)
    ensures Keyword(f, i + d, word)
  {
    forall k | 0 <= k < |word| ensures Lower(f[i + d + k]) == Lower(word[k]) { assert s[i + k] == f[i + k + d]; }
  }

  /** Blanks, then a comment or nothing. */
  lemma TriviaStep(s: string, i: nat)
    requires i <= |s|
    ensures var (w, c) := (SpaceEnd(s, i), CommentEnd(s, SpaceEnd(s, i)));
      w <= c <= TriviaEnd(s, i) && TriviaEnd(s, i) == if c != w then TriviaEnd(s, c) else w
  {
    hide SpaceEnd, CommentEnd;
    var w := SpaceEnd(s, i);
  }

  lemma {:induction false} TriviaAgrees(s: string, i: nat, e: nat, f: string, d: int)
    requires Agree(s, i, e + 1, f, d) && TriviaEnd(s, i) == e && s[e] != '-' && s[e] != '/'
    ensures TriviaEnd(f, i + d) == e + d
    decreases e - i
  {
    hide Agree, SpaceEnd, CommentEnd, TriviaEnd, SameNext;
    InBounds(s, i, e + 1, f, d);
    var w := SpaceEnd(s, i);
    var c := CommentEnd(s, w);
    TriviaStep(s, i);
    TriviaStep(f, i + d);
    Within(s, i, e + 1, f, d, i, w);
    SpaceCovers(s, i, w, f, d);
    if c != w {
      Within(s, i, e + 1, f, d, w, c);
      Within(s, i, e + 1, f, d, c, e + 1);
      CommentCovers(s, w, c, f, d);
      TriviaAgrees(s, c, e, f, d);
    } else {
      Within(s, i, e + 1, f, d, e, e);
      LetterIsNoTrivia(f, e + d);
    }
  }

  lemma LetterIsNoTrivia(s: string, e: nat)
    requires e < |s| && s[e] != '-' && s[e] != '/'
    ensures CommentEnd(s, e) == e
  {
  }

  lemma ReadIdentAgrees(s: string, i: nat, e: nat, f: string, d: int)
    requires Agree(s, i, e, f, d) && ReadIdent(s, i).Some? && ReadIdent(s, i).value.end == e
    requires ReadIdent(s, i).value.bracketed || SameNext(s, e, f, d)
    ensures ReadIdent(f, i + d) == Some(ReadIdent(s, i).value.(end := e + d))
  {
    hide CloseAt, SameNext, IdentEnd;
    if s[i] == '[' {
      CloseAgrees(s, i + 1, e - 1, f, d);
      assert s[i + 1..e - 1] == f[i + 1 + d..e - 1 + d];
    } else {
      IdentCovers(s, i, e, f, d);
      assert s[i..e] == f[i + d..e + d];
    }
  }

  lemma ReadCallCovers(s: string, i: nat, e: nat, f: string, d: int)
    requires Covers(s, i, e, f, d) && ReadCall(s, i).Some? && ReadCall(s, i).value.end == e
    ensures ReadCall(f, i + d) == Some(ReadCall(s, i).value.(end := e + d))
  {
    hide SpaceEnd, TriviaEnd, ReadIdent, Agree, IsIdentChar;
    var c := TriviaEnd(s, i);
    var m := SpaceEnd(s, c + 4);
    WordChars(s, c, "call");
    Within(s, i, e, f, d, i, c + 1);
    TriviaAgrees(s, i, c, f, d);
    Within(s, i, e, f, d, c, c + 4);
    KeywordCovers(s, c, f, d, "call");
    Within(s, i, e, f, d, c + 4, m);
    SpaceCovers(s, c + 4, m, f, d);
    Within(s, i, e, f, d, m, e);
    ReadIdentAgrees(s, m, e, f, d);
  }

  /** The pieces of a target, and a target from its pieces. */
  lemma TargetParts(s: string, i: nat, t: Target)
    requires i <= |s| && ReadTarget(s, i) == Some(t)
    ensures Keyword(s, i, "on") && i + 2 <= |s|
    ensures var j := SpaceEnd(s, i + 2);
      Keyword(s, j, "class") && j + 5 <= |s| && t.at == SpaceEnd(s, j + 5) && ReadIdent(s, t.at) == Some(t.id)
  {
    hide Keyword, SpaceEnd, ReadIdent;
  }

  lemma TargetFrom(s: string, i: nat, j: nat, k: nat, id: Ident)
    requires i + 2 <= j <= |s| && j + 5 <= k <= |s| && Keyword(s, i, "on") && j == SpaceEnd(s, i + 2)
    requires Keyword(s, j, "class") && k == SpaceEnd(s, j + 5) && ReadIdent(s, k) == Some(id)
    ensures ReadTarget(s, i) == Some(Target(k, id))
  {
    hide Keyword, SpaceEnd, ReadIdent;
  }

  lemma ReadTargetAgrees(s: string, i: nat, e: nat, f: string, d: int)
    requires Agree(s, i, e, f, d) && ReadTarget(s, i).Some? && ReadTarget(s, i).value.id.end == e
    requires ReadTarget(s, i).value.id.bracketed || SameNext(s, e, f, d)
    ensures var t := ReadTarget(s, i).value;
      ReadTarget(f, i + d) == Some(Target(t.at + d, t.id.(end := e + d)))
  {
    hide *;
    InBounds(s, i, e, f, d);
    var t := ReadTarget(s, i).value;
    var a := SpaceEnd(s, i + 2);
    TargetParts(s, i, t);
    InBounds(s, i, e, f, d);
    Within(s, i, e, f, d, i, i + 2);
    KeywordCovers(s, i, f, d, "on");
    Within(s, i, e, f, d, i + 2, a);
    SpaceCovers(s, i + 2, a, f, d);
    InBounds(s, i, e, f, d);
    Within(s, i, e, f, d, a, a + 5);
    KeywordCovers(s, a, f, d, "class");
    Within(s, i, e, f, d, a + 5, t.at);
    SpaceCovers(s, a + 5, t.at, f, d);
    Within(s, i, e, f, d, t.at, e);
    ReadIdentAgrees(s, t.at, e, f, d);
    TargetFrom(f, i + d, a + d, t.at + d, t.id.(end := e + d));
  }

  lemma InBounds(s: string, i: nat, e: nat, f: string, d: int)
    requires Agree(s, i, e, f, d)
    ensures i <= e <= |s| && 0 <= i + d && e + d <= |f|
  {
  }

  // ----- what the scanner passes over -----

  lemma MarksOfPlain(s: string, start: nat, i: nat)
    requires start <= |s| && i < |s| && Plain(s[i]) && Moves(s, start, i).None?
    ensures Marks(s, start, i) == Marks(s, start, i + 1)
  {
    hide Moves;
  }

  lemma {:induction false} QuietRun(s: string, start: nat, i: nat, j: nat)
    requires start <= |s| && i <= j <= |s|
    requires forall k :: i <= k < j ==> Plain(s[k]) && Moves(s, start, k).None?
    ensures Marks(s, start, i) == Marks(s, start, j)
    decreases j - i
  {
    hide Marks, Moves, Plain;
    if i < j {
      MarksOfPlain(s, start, i);
      QuietRun(s, start, i + 1, j);
    }
  }

  lemma SpacesAreQuiet(s: string, start: nat, i: nat)
    requires start <= |s| && i <= |s|
    ensures Marks(s, start, i) == Marks(s, start, SpaceEnd(s, i))
  {
    hide ReadTarget, IsRenamed, Exempt;
    QuietRun(s, start, i, SpaceEnd(s, i));
  }

  lemma {:induction false} TriviaIsQuiet(s: string, start: nat, i: nat)
    requires start <= |s| && i <= |s|
    ensures Marks(s, start, i) == Marks(s, start, TriviaEnd(s, i))
    decreases |s| - i
  {
    hide SpaceEnd, Moves;
    var w := SpaceEnd(s, i);
    var c := CommentEnd(s, w);
    SpacesAreQuiet(s, start, i);
    if c != w { assert s[w] == '-' || s[w] == '/'; }
    if c != i { TriviaIsQuiet(s, start, c); }
  }

  lemma KeptChars(name: string)
    requires IsKept(name)
    ensures name != "" && name[0] != 'o' && name[0] != 'O'
    ensures forall k :: 0 <= k < |name| ==> IsIdentChar(name[k]) && Plain(name[k])
  {
    if Same(name, "login") {
      NameChars(name, "login");
      LetterOf(name[0], 'l');
    } else {
      NameChars(name, "find_user");
      LetterOf(name[0], 'f');
    }
  }

  lemma CallParts(s: string, start: nat)
    requires start <= |s| && ReadCall(s, start).Some?
    ensures TriviaEnd(s, start) + 4 <= |s| && Keyword(s, TriviaEnd(s, start), "call")
    ensures var (m, head) := (SpaceEnd(s, TriviaEnd(s, start) + 4), ReadCall(s, start).value);
      ReadIdent(s, m).Some? && ReadIdent(s, m).value.name == head.method_ && ReadIdent(s, m).value.end == head.end && m < head.end
  {
    hide Keyword, SpaceEnd, ReadIdent, TriviaEnd;
  }

  lemma SpacesHoldNothing(s: string, i: nat)
    requires i <= |s|
    ensures forall k :: i <= k < SpaceEnd(s, i) ==> Plain(s[k]) && !Starts(s, k)
  {
  }

  lemma CallWordIsQuiet(s: string, c: nat)
    requires Keyword(s, c, "call")
    ensures forall k :: c <= k < c + 4 ==> k < |s| && Plain(s[k]) && !Starts(s, k)
  {
    WordChars(s, c, "call");
    forall k | c <= k < c + 4 ensures k < |s| && Plain(s[k]) && !Starts(s, k) { assert "call"[k - c] != 'o'; }
  }

  /** The head of a CALL of a kept method holds no mark. */
  lemma CallHeadIsQuiet(s: string, start: nat)
    requires start <= |s| && ReadCall(s, start).Some? && IsKept(ReadCall(s, start).value.method_)
    ensures Marks(s, start, start) == Marks(s, start, ReadCall(s, start).value.end)
  {
    hide IsKept, ReadIdent, Marks, ReadCall, Keyword, SpaceEnd, TriviaEnd, Starts, Plain, Moves, IsIdentChar;
    var c, head := TriviaEnd(s, start), ReadCall(s, start).value;
    CallParts(s, start);
    var m := SpaceEnd(s, c + 4);
    TriviaIsQuiet(s, start, start);
    CallWordIsQuiet(s, c);
    SpacesHoldNothing(s, c + 4);
    KeptChars(head.method_);
    IdentIsQuiet(s, m, ReadIdent(s, m).value);
    forall k | c <= k < head.end ensures Plain(s[k]) && Moves(s, start, k).None? { NoStartNoMove(s, start, k); }
    QuietRun(s, start, c, head.end);
  }

  lemma NoStartNoMove(s: string, start: nat, k: nat)
    requires start <= |s| && k < |s|
    ensures !Starts(s, k) ==> Moves(s, start, k).None?
  {
  }

  // ----- the two passes in step -----

  /** `f` from `fi` on is the rewriting of `s` from `i` on, in the same statement. */
  ghost predicate Abreast(s: string, start: nat, i: nat, f: string, fs: nat, fi: nat) {
    && start <= i <= |s| && fs <= fi <= |f| && i - start <= fi - fs
    && f[fi..] == Text(s, start, i) && f[fs..] == Text(s, start, start)
    && (i == 0 <==> fi == 0) && (i > 0 ==> f[fi - 1] == s[i - 1])
  }

  lemma TextHead(s: string, start: nat, i: nat)
    requires start <= |s| && i <= |s|
    ensures if i == |s| then Text(s, start, i) == "" else Text(s, start, i) != "" && Text(s, start, i)[0] == s[i]
  {
    hide Marks;
    MarksRise(s, start, i);
  }

  /** A suffix that starts with `s[i..j]` and goes on with the rewriting from `j`. */
  lemma CoversPrefix(s: string, start: nat, i: nat, j: nat, f: string, fi: nat)
    requires start <= |s| && i <= j <= |s| && fi <= |f| && f[fi..] == s[i..j] + Text(s, start, j)
    ensures fi + (j - i) <= |f| && f[fi + (j - i)..] == Text(s, start, j)
    ensures Covers(s, i, j, f, fi - i)
  {
    hide Text;
    TextHead(s, start, j);
    var rest := Text(s, start, j);
    var d := fi - i;
    forall p | i <= p < j ensures s[p] == f[p + d] { assert f[fi..][p - i] == s[p]; }
    forall q | i + d <= q < j + d ensures f[q] == s[q - d] { assert f[fi..][q - fi] == s[q - d]; }
    assert f[j + d..] == rest by {
      assert f[fi..][j - i..] == rest;
    }
    if j < |s| { assert f[j + d..][0] == rest[0]; }
  }

  /** Both passes step over `s[i..j]`. */
  lemma StepsOver(s: string, start: nat, i: nat, j: nat, f: string, fs: nat, fi: nat)
    requires Abreast(s, start, i, f, fs, fi) && i < j <= |s| && Marks(s, start, i) == Marks(s, start, j)
    ensures Covers(s, i, j, f, fi - i) && Abreast(s, start, j, f, fs, fi + (j - i))
  {
    hide Text, Marks;
    TextSkips(s, start, i, start, j);
    CoversPrefix(s, start, i, j, f, fi);
    assert s[j - 1] == f[j - 1 + (fi - i)];
  }

  lemma ExemptCarries(s: string, start: nat, i: nat, f: string, fs: nat, fi: nat)
    requires Abreast(s, start, i, f, fs, fi) && Exempt(s, start, i)
    ensures Exempt(f, fs, fi)
  {
    hide ReadCall, Marks, Text, IsKept;
    var c := ReadCall(s, start).value;
    CallHeadIsQuiet(s, start);
    TextSkips(s, start, start, start, c.end);
    CoversPrefix(s, start, start, c.end, f, fs);
    ReadCallCovers(s, start, c.end, f, fs - start);
  }

  /** In a target the underscores stand inside the name. */
  lemma NoLooseUnderscore(f: string, i: nat, t: Target, p: nat)
    requires i < |f| && ReadTarget(f, i) == Some(t) && IsRenamed(t.id.name)
    requires i < p < t.id.end && f[p] == '_'
    ensures !IsSpace(f[p - 1]) && f[p - 1] != '['
  {
    hide IsRenamed, ReadIdent, ReadTarget, Keyword, SpaceEnd, Plain;
    var j := SpaceEnd(f, i + 2);
    TargetParts(f, i, t);
    RenamedChars(t.id.name);
    IdentIs(f, t.at, t.id);
    LettersOnly(f, i, "on");
    LettersOnly(f, j, "class");
    var n := if t.id.bracketed then t.at + 1 else t.at;
    assert p > n && p < n + |t.id.name|;
    assert f[p - 1] == t.id.name[p - 1 - n];
  }

  lemma LettersOnly(s: string, i: nat, word: string)
    requires Keyword(s, i, word) && forall k :: 0 <= k < |word| ==> 'a' <= word[k] <= 'z'
    ensures forall k :: i <= k < i + |word| ==> s[k] != '_'
  {
    forall k | i <= k < i + |word| ensures s[k] != '_' {
      assert Lower(s[i + (k - i)]) == Lower(word[k - i]);
      LetterOf(s[k], word[k - i]);
    }
  }

  lemma TextIsWoven(s: string, start: nat, i: nat)
    requires start <= |s| && i <= |s|
    ensures Rising(s, i, Marks(s, start, i)) && Text(s, start, i) == Weave(s, i, Marks(s, start, i))
    ensures Marks(s, start, i) == [] ==> Text(s, start, i) == s[i..]
  {
    hide Marks, Rising;
    MarksRise(s, start, i);
  }

  lemma WovenPlain(s: string, i: nat, f: string, fi: nat)
    requires i <= |s| && fi <= |f| && f[fi..] == s[i..]
    ensures Covers(s, i, |s|, f, fi - i)
  {
    var d := fi - i;
    forall p | i <= p < |s| ensures s[p] == f[p + d] { assert f[fi..][p - i] == s[i..][p - i]; }
    forall q | i + d <= q < |s| + d ensures f[q] == s[q - d] { assert f[fi..][q - fi] == s[i..][q - fi]; }
  }

  lemma WovenTo(s: string, i: nat, m: nat, rest: string, f: string, fi: nat)
    requires i < m < |s| && fi <= |f| && f[fi..] == s[i..m] + "_" + rest
    ensures Agree(s, i, m, f, fi - i) && m + (fi - i) < |f| && f[m + (fi - i)] == '_' && f[m - 1 + (fi - i)] == s[m - 1]
  {
    var d, w := fi - i, s[i..m] + "_" + rest;
    assert w[m - i] == '_' && f[fi..][m - i] == '_';
    forall p | i <= p < m ensures s[p] == f[p + d] { assert f[fi..][p - i] == w[p - i] == s[p]; }
    forall q | i + d <= q < m + d ensures f[q] == s[q - d] { assert f[fi..][q - fi] == w[q - fi] == s[q - d]; }
  }

  lemma {:induction false} FirstMark(s: string, start: nat, i: nat)
    requires start <= |s| && i <= |s| && Marks(s, start, i) != []
    ensures var m := Marks(s, start, i)[0];
      i < m <= |s| && (IsSpace(s[m - 1]) || s[m - 1] == '[')
    decreases |s| - i
  {
    hide LiteralTail, CommentEnd, Moves, IsSpace, ReadTarget, CallLexer.Target.Mark;
    if s[i] == '\'' {
      FirstMark(s, start, LiteralTail(s, i + 1));
    } else if CommentEnd(s, i) != i {
      FirstMark(s, start, CommentEnd(s, i));
    } else if s[i] == ';' {
      FirstMark(s, i + 1, i + 1);
    } else {
      match Moves(s, start, i)
      case None => FirstMark(s, start, i + 1);
      case Some(t) =>
        MovesIsTarget(s, start, i, t);
        MarkInside(s, i, t);
    }
  }

  /** Where the first pass moves nothing, neither does the second. */
  lemma StaysPut(s: string, start: nat, i: nat, f: string, fs: nat, fi: nat)
    requires Abreast(s, start, i, f, fs, fi) && i < |s| && Moves(s, start, i).None?
    requires fi < |f| && s[i] == f[fi]
    ensures Moves(f, fs, fi).None?
  {
    hide ReadTarget, Text, Exempt;
    if Starts(f, fi) && ReadTarget(f, fi).Some? && IsRenamed(ReadTarget(f, fi).value.id.name) {
      SameTarget(s, start, i, f, fi);
      if Exempt(s, start, i) { ExemptCarries(s, start, i, f, fs, fi); }
    }
  }

  lemma Mirror(s: string, i: nat, e: nat, f: string, d: int)
    requires Agree(s, i, e, f, d)
    ensures Agree(f, i + d, e + d, s, -d) && (SameNext(s, e, f, d) ==> SameNext(f, e + d, s, -d))
  {
  }

  /** Through the end of a renamed target both texts are the same. */
  lemma AgreeThrough(s: string, start: nat, i: nat, f: string, fi: nat, t: Target)
    requires start <= |s| && i < |s| && fi < |f| && f[fi..] == Text(s, start, i)
    requires ReadTarget(f, fi) == Some(t) && IsRenamed(t.id.name)
    ensures var d := fi - i;
      t.id.end - d >= i && Agree(s, i, t.id.end - d, f, d) && (t.id.bracketed || SameNext(s, t.id.end - d, f, d))
  {
    hide Agree, Text, Marks, IsRenamed, ReadIdent, ReadTarget, IsSpace, Rising;
    var d, marks := fi - i, Marks(s, start, i);
    assert
      var marks := Marks(s, start, i);
      if marks == [] then Covers(s, i, |s|, f, fi - i)
      else
        var m := marks[0];
        && i < m < |s| && Agree(s, i, m, f, fi - i) && m + (fi - i) < |f| && f[m + (fi - i)] == '_'
        && (IsSpace(f[m - 1 + (fi - i)]) || f[m - 1 + (fi - i)] == '[')
    by {
      var marks, d := Marks(s, start, i), fi - i;
      MarksRise(s, start, i);
      TextIsWoven(s, start, i);
      if marks == [] {
        WovenPlain(s, i, f, fi);
      } else {
        FirstMark(s, start, i);
        WeaveStep(s, i, marks);
        WovenTo(s, i, marks[0], Weave(s, marks[0], marks[1..]), f, fi);
      }
    }
    ReadsAt(f, fi);
    if !t.id.bracketed { BareEnds(f, t); }
    if marks == [] {
      Within(s, i, |s|, f, d, i, t.id.end - d);
    } else {
      var m := marks[0];
      if m + d < t.id.end { NoLooseUnderscore(f, fi, t, m + d); }
      Within(s, i, m, f, d, i, t.id.end - d);
    }
  }

  lemma SameTarget(s: string, start: nat, i: nat, f: string, fi: nat)
    requires start <= |s| && i < |s| && fi < |f| && f[fi..] == Text(s, start, i)
    requires ReadTarget(f, fi).Some? && IsRenamed(ReadTarget(f, fi).value.id.name)
    ensures ReadTarget(s, i).Some? && ReadTarget(s, i).value.id.name == ReadTarget(f, fi).value.id.name
  {
    hide Text, ReadTarget, IsRenamed, Agree;
    var t, d := ReadTarget(f, fi).value, fi - i;
    AgreeThrough(s, start, i, f, fi, t);
    Mirror(s, i, t.id.end - d, f, d);
    ReadTargetAgrees(f, fi, t.id.end, s, -d);
  }

  lemma BareEnds(f: string, t: Target)
    requires t.at <= |f| && ReadIdent(f, t.at) == Some(t.id) && !t.id.bracketed
    ensures t.id.end < |f| ==> f[t.id.end] != '_'
  {
  }

  lemma SpacesAgree(s: string, i: nat, e: nat, f: string, d: int)
    requires Agree(s, i, e, f, d) && forall k :: i <= k < e ==> IsSpace(s[k])
    ensures forall k :: i + d <= k < e + d ==> IsSpace(f[k])
  {
  }

  lemma FoundAt(s: string, i: nat, t: Target, f: string, fi: nat)
    requires i < |s| && ReadTarget(s, i) == Some(t) && Agree(s, i, t.Mark(), f, fi - i)
    requires t.Mark() + (fi - i) < |f| && f[t.Mark() + (fi - i)] == '_' && ReadTarget(f, fi).Some?
    ensures ReadTarget(f, fi).value.at == t.at + (fi - i)
  {
    hide Agree, ReadIdent, Same, ReadTarget, Keyword, SpaceEnd, CallLexer.Target.Mark, Covers;
    InBounds(s, i, t.Mark(), f, fi - i);
    var d := fi - i;
    var a := SpaceEnd(s, i + 2);
    MarkInside(s, i, t);
    TargetParts(s, i, t);
    TargetParts(f, fi, ReadTarget(f, fi).value);
    Within(s, i, t.Mark(), f, d, i + 2, a);
    SpaceCovers(s, i + 2, a, f, d);
    IdentIs(s, t.at, t.id);
    Within(s, i, t.Mark(), f, d, t.at, t.at);
    Within(s, i, t.Mark(), f, d, a + 5, t.at);
    SpacesAgree(s, a + 5, t.at, f, d);
    SpaceEndIs(f, a + 5 + d, t.at + d);
  }

  lemma UnderscoreFirst(f: string, k: nat, id: Ident, m: nat)
    requires k <= m < |f| && ReadIdent(f, k) == Some(id) && f[m] == '_'
    requires m == k || (m == k + 1 && f[k] == '[')
    ensures id.name != "" && id.name[0] == '_'
  {
  }

  /** A target once moved starts with an underscore, so it is none of the renamed views. */
  lemma MovedIsNotRenamed(s: string, i: nat, t: Target, f: string, fi: nat)
    requires i < |s| && ReadTarget(s, i) == Some(t) && Agree(s, i, t.Mark(), f, fi - i)
    requires t.Mark() + (fi - i) < |f| && f[t.Mark() + (fi - i)] == '_' && ReadTarget(f, fi).Some?
    ensures !IsRenamed(ReadTarget(f, fi).value.id.name)
  {
    hide Agree, IsRenamed, ReadTarget, ReadIdent, Covers;
    var found, d := ReadTarget(f, fi).value, fi - i;
    FoundAt(s, i, t, f, fi);
    ReadsAt(s, i);
    ReadsAt(f, fi);
    MarkInside(s, i, t);
    IdentIs(s, t.at, t.id);
    Within(s, i, t.Mark(), f, d, t.at, t.at);
    UnderscoreFirst(f, found.at, found.id, t.Mark() + d);
    if IsRenamed(found.id.name) { RenamedChars(found.id.name); }
  }

  lemma ReadsAt(f: string, i: nat)
    requires i <= |f| && ReadTarget(f, i).Some?
    ensures i + 7 <= ReadTarget(f, i).value.at <= |f|
    ensures ReadIdent(f, ReadTarget(f, i).value.at) == Some(ReadTarget(f, i).value.id)
  {
  }

  // ----- a moved target is passed over -----

  /** The second pass over a target the first one moved. */
  lemma PassesMoved(s: string, start: nat, i: nat, t: Target, f: string, fs: nat, fi: nat)
    requires start <= i < |s| && fs <= fi && Abreast(s, start, i, f, fs, fi) && Ordinary(s, i) && s[i] != ';' && Moves(s, start, i) == Some(t)
    ensures fi + (t.id.end - i) + 1 <= |f| && Abreast(s, start, t.id.end, f, fs, fi + (t.id.end - i) + 1)
    ensures Marks(f, fs, fi) == Marks(f, fs, fi + (t.id.end - i) + 1)
  {
    hide Text, Marks, Moves, ReadTarget, Agree, Ordinary, IsRenamed, Copied, Abreast, CallLexer.Target.Mark;
    var m, e, d := t.Mark(), t.id.end, fi - i;
    InStep(s, start, i, f, fs, fi);
    MovedText(s, start, i, t);
    MovedCopy(s, i, m, e, Text(s, start, e), f, fi);
    LandsAbreast(s, start, i, e, f, fs, fi, e + d + 1);
    assert Marks(f, fs, fi) == Marks(f, fs, fi + (t.id.end - i) + 1) by {
      var m, e, d := t.Mark(), t.id.end, fi - i;
      TargetIsQuiet(s, i, t);
      ReadsNoMove(s, i, t, f, fs, fi);
      forall k | fi <= k < e + d + 1 ensures Plain(f[k]) && (k > fi ==> !Starts(f, k)) {
        if k < m + d {
          assert f[k] == s[k - d];
          if k > i + d { assert f[k - 1] == s[k - d - 1] && !Starts(s, k - d); }
        } else if k > m + d {
          assert f[k] == s[k - d - 1];
          if k > m + d + 1 { assert f[k - 1] == s[k - d - 2] && !Starts(s, k - d - 1); }
        }
      }
      QuietUnlessMoved(f, fs, fi, e + d + 1);
    }
  }

  lemma InStep(s: string, start: nat, i: nat, f: string, fs: nat, fi: nat)
    requires Abreast(s, start, i, f, fs, fi)
    ensures start <= i <= |s| && fs <= fi <= |f| && f[fi..] == Text(s, start, i)
  {
    hide Text;
  }

  lemma LandsAbreast(s: string, start: nat, i: nat, e: nat, f: string, fs: nat, fi: nat, fj: nat)
    requires Abreast(s, start, i, f, fs, fi) && i < e <= |s| && fj <= |f| && e - i <= fj - fi
    requires f[fj..] == Text(s, start, e) && f[fj - 1] == s[e - 1]
    ensures fs <= fi && Abreast(s, start, e, f, fs, fj)
  {
    hide Text;
  }

  lemma MovedText(s: string, start: nat, i: nat, t: Target)
    requires start <= |s| && i < |s| && Ordinary(s, i) && s[i] != ';' && Moves(s, start, i) == Some(t)
    ensures ReadTarget(s, i) == Some(t) && IsRenamed(t.id.name) && i < t.Mark() < t.id.end
    ensures Text(s, start, i) == s[i..t.Mark()] + "_" + s[t.Mark()..t.id.end] + Text(s, start, t.id.end)
  {
    hide ReadTarget, IsRenamed, CallLexer.Target.Mark;
    MarkInside(s, i, t);
    TextMoves(s, start, i, t);
  }

  /** `f` holds `s[i..m]`, an underscore, `s[m..e]`. */
  predicate Copied(s: string, i: nat, m: nat, e: nat, f: string, d: int) {
    && i < m < e <= |s| && 0 <= i + d && e + d + 1 <= |f| && f[m + d] == '_'
    && (forall k :: i + d <= k < m + d ==> f[k] == s[k - d])
    && (forall k :: m + d < k <= e + d ==> f[k] == s[k - d - 1])
  }

  lemma MovedCopy(s: string, i: nat, m: nat, e: nat, rest: string, f: string, fi: nat)
    requires i < m < e <= |s| && fi <= |f| && f[fi..] == s[i..m] + "_" + s[m..e] + rest
    ensures Copied(s, i, m, e, f, fi - i) && Agree(s, i, m, f, fi - i)
    ensures fi + (e - i) + 1 <= |f| && f[fi + (e - i) + 1..] == rest
  {
    var d, u := fi - i, s[i..m] + "_" + s[m..e];
    forall k | i + d <= k < m + d ensures f[k] == s[k - d] { assert f[fi..][k - fi] == u[k - fi]; }
    forall k | m + d < k <= e + d ensures f[k] == s[k - d - 1] { assert f[fi..][k - fi] == u[k - fi]; }
    assert f[fi..][m - i] == u[m - i];
    assert f[fi..][|u|..] == rest;
  }

  lemma ReadsNoMove(s: string, i: nat, t: Target, f: string, fs: nat, fi: nat)
    requires i < |s| && fs <= |f| && ReadTarget(s, i) == Some(t) && Agree(s, i, t.Mark(), f, fi - i)
    requires t.Mark() + (fi - i) < |f| && f[t.Mark() + (fi - i)] == '_' && fi < |f|
    ensures Moves(f, fs, fi).None?
  {
    if ReadTarget(f, fi).Some? { MovedIsNotRenamed(s, i, t, f, fi); }
  }

  lemma QuietUnlessMoved(f: string, fs: nat, i: nat, j: nat)
    requires fs <= |f| && i < j <= |f| && Moves(f, fs, i).None?
    requires forall k :: i <= k < j ==> Plain(f[k]) && (k > i ==> !Starts(f, k))
    ensures Marks(f, fs, i) == Marks(f, fs, j)
  {
    hide Plain, Marks, ReadTarget;
    QuietRun(f, fs, i, j);
  }

  lemma CoversAfter(s: string, i: nat, e: nat, f: string, d: int)
    requires Covers(s, i, e, f, d) && i < e
    ensures Covers(s, i + 1, e, f, d) && 0 <= i + d < |f| && s[i] == f[i + d]
  {
  }

  lemma LiteralInStep(s: string, start: nat, i: nat, f: string, fs: nat, fi: nat)
    requires start <= i && fs <= fi <= |f| && Abreast(s, start, i, f, fs, fi) && i < |s| && s[i] == '\''
    ensures var e := LiteralTail(s, i + 1);
      && Abreast(s, start, e, f, fs, fi + (e - i)) && Marks(f, fs, fi) == Marks(f, fs, fi + (e - i))
  {
    hide *;
    InStep(s, start, i, f, fs, fi);
    var e := LiteralTail(s, i + 1);
    MarksOfLiteral(s, start, i);
    StepsOver(s, start, i, e, f, fs, fi);
    CoversAfter(s, i, e, f, fi - i);
    LiteralCovers(s, i + 1, e, f, fi - i);
    MarksOfLiteral(f, fs, fi);
  }

  lemma MarksOfLiteral(s: string, start: nat, i: nat)
    requires start <= |s| && i < |s| && s[i] == '\''
    ensures Marks(s, start, i) == Marks(s, start, LiteralTail(s, i + 1))
  {
  }

  lemma CommentInStep(s: string, start: nat, i: nat, f: string, fs: nat, fi: nat)
    requires start <= i && fs <= fi <= |f| && Abreast(s, start, i, f, fs, fi) && i < |s| && s[i] != '\'' && CommentEnd(s, i) != i
    ensures var e := CommentEnd(s, i);
      && Abreast(s, start, e, f, fs, fi + (e - i)) && Marks(f, fs, fi) == Marks(f, fs, fi + (e - i))
  {
    hide Abreast, Text, Agree, CommentEnd, Marks;
    var e := CommentEnd(s, i);
    MarksOfComment(s, start, i);
    StepsOver(s, start, i, e, f, fs, fi);
    Within(s, i, e, f, fi - i, i, e);
    CommentCovers(s, i, e, f, fi - i);
    MarksOfComment(f, fs, fi);
  }

  lemma MarksOfComment(s: string, start: nat, i: nat)
    requires start <= |s| && i < |s| && s[i] != '\'' && CommentEnd(s, i) != i
    ensures Marks(s, start, i) == Marks(s, start, CommentEnd(s, i))
  {
  }

  lemma MarksOfCopy(s: string, start: nat, i: nat)
    requires start <= |s| && i < |s| && Ordinary(s, i) && s[i] != ';' && Moves(s, start, i).None?
    ensures Marks(s, start, i) == Marks(s, start, i + 1)
  {
  }

  lemma OrdinaryCopy(s: string, i: nat, f: string, fi: nat)
    requires i < |s| && fi < |f| && Ordinary(s, i) && s[i] == f[fi] && Covers(s, i, i + 1, f, fi - i)
    ensures Ordinary(f, fi)
  {
  }

  lemma EndInStep(s: string, start: nat, f: string, fs: nat, fi: nat)
    requires Abreast(s, start, |s|, f, fs, fi)
    ensures fs <= |f| && fi == |f| && Marks(f, fs, fi) == []
  {
    TextHead(s, start, |s|);
    assert f[fi..] == "";
  }

  /** The second pass finds no target from a state abreast of the first. */
  lemma {:induction false} FindsNothing(s: string, start: nat, i: nat, f: string, fs: nat, fi: nat)
    requires start <= i <= |s| && fs <= fi <= |f| && Abreast(s, start, i, f, fs, fi)
    ensures Marks(f, fs, fi) == []
    decreases |s| - i
  {
    hide Marks, Text, Abreast, Starts, ReadTarget, LiteralTail, CommentEnd, IsRenamed, Moves, CallLexer.Target.Mark,
         SameNext;
    if i == |s| {
      EndInStep(s, start, f, fs, fi);
    } else if s[i] == '\'' {
      LiteralInStep(s, start, i, f, fs, fi);
      var e := LiteralTail(s, i + 1);
      InStep(s, start, e, f, fs, fi + (e - i));
      FindsNothing(s, start, e, f, fs, fi + (e - i));
    } else if CommentEnd(s, i) != i {
      CommentInStep(s, start, i, f, fs, fi);
      var e := CommentEnd(s, i);
      InStep(s, start, e, f, fs, fi + (e - i));
      FindsNothing(s, start, e, f, fs, fi + (e - i));
    } else if s[i] == ';' {
      InStep(s, start, i, f, fs, fi);
      assert Marks(s, start, i) == Marks(s, i + 1, i + 1) by { MarksOfEnd(s, start, i); }
      TextSkips(s, start, i, i + 1, i + 1);
      CoversPrefix(s, i + 1, i, i + 1, f, fi);
      assert f[fi] == ';' by { Within(s, i, i + 1, f, fi - i, i, i); }
      BeginsAbreast(s, i + 1, f, fi + 1);
      NextOrdinary(s, i, f, fi);
      MarksOfEnd(f, fs, fi);
      InStep(s, i + 1, i + 1, f, fi + 1, fi + 1);
      FindsNothing(s, i + 1, i + 1, f, fi + 1, fi + 1);
    } else {
      match Moves(s, start, i)
      case None =>
        assert Abreast(s, start, i + 1, f, fs, fi + 1) && Marks(f, fs, fi) == Marks(f, fs, fi + 1) by {
          InStep(s, start, i, f, fs, fi);
          MarksOfCopy(s, start, i);
          StepsOver(s, start, i, i + 1, f, fs, fi);
          OrdinaryCopy(s, i, f, fi);
          StaysPut(s, start, i, f, fs, fi);
          MarksOfCopy(f, fs, fi);
        }
        InStep(s, start, i + 1, f, fs, fi + 1);
        FindsNothing(s, start, i + 1, f, fs, fi + 1);
      case Some(t) =>
        MovedText(s, start, i, t);
        PassesMoved(s, start, i, t, f, fs, fi);
        InStep(s, start, t.id.end, f, fs, fi + (t.id.end - i) + 1);
        FindsNothing(s, start, t.id.end, f, fs, fi + (t.id.end - i) + 1);
    }
  }

  lemma MarksOfEnd(s: string, start: nat, i: nat)
    requires start <= |s| && i < |s| && Ordinary(s, i) && s[i] == ';'
    ensures Marks(s, start, i) == Marks(s, i + 1, i + 1)
  {
  }

  lemma BeginsAbreast(s: string, i: nat, f: string, fi: nat)
    requires 0 < i <= |s| && 0 < fi <= |f| && f[fi..] == Text(s, i, i) && f[fi - 1] == s[i - 1]
    ensures Abreast(s, i, i, f, fi, fi)
  {
    hide Text;
  }

  lemma NextOrdinary(s: string, i: nat, f: string, fi: nat)
    requires i < |s| && fi < |f| && s[i] == ';' && f[fi] == ';'
    ensures Ordinary(f, fi)
  {
  }

  /** A second pass changes nothing and counts zero. */
  lemma Idempotent(s: string)
    ensures var once := Text(s, 0, 0);
      Marks(once, 0, 0) == [] && Text(once, 0, 0) == once
  {
    var once := Text(s, 0, 0);
    assert once[0..] == once;
    FindsNothing(s, 0, 0, once, 0, 0);
  }
}
