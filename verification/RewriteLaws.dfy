/** What the pre-11.5 rewrite keeps, and that a second pass changes nothing. */
module RewriteLaws {
  import opened Schema
  import opened CallLexer
  import opened CallRewrite

  // ----- a minimal edit -----

  lemma {:induction false} WeaveLength(s: string, i: nat, marks: seq<nat>)
    requires i <= |s| && Rising(s, i, marks)
    ensures |Weave(s, i, marks)| == |s| - i + |marks|
    decreases |marks|
  {
    if marks != [] { WeaveLength(s, marks[0], marks[1..]); }
  }

  /** `t` from `i` on without the characters at `at`. */
  function Delete(t: string, i: nat, at: seq<nat>): string
    requires i <= |t|
    decreases |at|
  {
    if at == [] then t[i..]
    else if i <= at[0] < |t| then t[i..at[0]] + Delete(t, at[0] + 1, at[1..])
    else t[i..]
  }

  /** Where the inserted underscores stand in the result. */
  function Inserted(marks: seq<nat>, before: nat): seq<nat> {
    seq(|marks|, k requires 0 <= k < |marks| => marks[k] + before + k)
  }

  lemma DeleteStep(t: string, i: nat, at: seq<nat>)
    requires at != [] && i <= at[0] < |t|
    ensures Delete(t, i, at) == t[i..at[0]] + Delete(t, at[0] + 1, at[1..])
  {
  }

  lemma WeaveStep(s: string, i: nat, marks: seq<nat>)
    requires i <= |s| && Rising(s, i, marks) && marks != []
    ensures i < marks[0] < |s|
    ensures Rising(s, marks[0], marks[1..]) && Weave(s, i, marks) == s[i..marks[0]] + "_" + Weave(s, marks[0], marks[1..])
  {
  }

  lemma DeleteNothing(s: string, i: nat, head: string, before: nat)
    requires i <= |s| && |head| == i + before
    ensures Delete(head + Weave(s, i, []), |head|, Inserted([], before)) == s[i..]
  {
    assert (head + s[i..])[|head|..] == s[i..];
  }

  lemma {:induction false} DeleteUndoes(s: string, i: nat, marks: seq<nat>, head: string, before: nat)
    requires i <= |s| && Rising(s, i, marks) && |head| == i + before
    ensures Delete(head + Weave(s, i, marks), |head|, Inserted(marks, before)) == s[i..]
    decreases |marks|
  {
    hide Weave, Delete, Rising;
    if marks == [] {
      DeleteNothing(s, i, head, before);
    } else {
      var m, rest := marks[0], marks[1..];
      WeaveStep(s, i, marks);
      var a, w, at := s[i..m], Weave(s, m, rest), Inserted(marks, before);
      var t := head + (a + "_" + w);
      assert (var t := head + (a + "_" + w); t[|head|..|head| + |a|] == a && t[|head| + |a|] == '_' && t == (head + a + "_") + w);
      DeleteUndoes(s, m, rest, head + a + "_", before + 1);
      assert at[1..] == Inserted(rest, before + 1) && at[0] == |head| + |a|;
      DeleteStep(t, |head|, at);
      assert s[i..] == a + s[m..];
    }
  }

  lemma {:induction false} UnderscoresAt(s: string, i: nat, marks: seq<nat>, k: nat)
    requires i <= |s| && Rising(s, i, marks) && k < |marks|
    ensures marks[k] - i + k < |Weave(s, i, marks)| && Weave(s, i, marks)[marks[k] - i + k] == '_'
    decreases |marks|
  {
    if k > 0 { UnderscoresAt(s, marks[0], marks[1..], k - 1); }
  }

  /** How many underscores go in at or before `j`. */
  function Shift(marks: seq<nat>, j: nat): nat {
    if marks == [] || marks[0] > j then 0 else 1 + Shift(marks[1..], j)
  }

  function Newlines(t: string): nat {
    if t == "" then 0 else Newlines(t[..|t| - 1]) + if t[|t| - 1] == '\n' then 1 else 0
  }

  lemma {:induction false} NewlinesAdd(a: string, b: string)
    ensures Newlines(a + b) == Newlines(a) + Newlines(b)
  {
    if b == "" {
      assert a + b == a;
    } else {
      assert (a + b)[..|a + b| - 1] == a + b[..|b| - 1];
      NewlinesAdd(a, b[..|b| - 1]);
    }
  }

  /** Character `j` of `s` stands in `t`, the rewriting of `s` from `i` on, and on its line. */
  predicate Keeps(s: string, i: nat, marks: seq<nat>, t: string, j: nat)
    requires i <= j < |s|
  {
    var at := j - i + Shift(marks, j);
    at < |t| && t[at] == s[j] && Newlines(t[..at]) == Newlines(s[i..j])
  }

  lemma NewlinesAround(a: string, u: string, b: string)
    requires Newlines(u) == Newlines(b)
    ensures Newlines(a + "_" + u) == Newlines(a + b)
  {
    NewlinesAdd(a + "_", u);
    NewlinesAdd(a, "_");
    NewlinesAdd(a, b);
    assert "_"[..0] == "";
  }

  lemma KeptBefore(s: string, i: nat, marks: seq<nat>, j: nat)
    requires i <= j < |s| && Rising(s, i, marks) && (marks == [] || j < marks[0])
    ensures Keeps(s, i, marks, Weave(s, i, marks), j)
  {
    hide Newlines, Rising;
    var t := Weave(s, i, marks);
    assert Shift(marks, j) == 0;
    if marks == [] {
      assert t[..j - i] == s[i..j];
    } else {
      WeaveStep(s, i, marks);
      assert t[..j - i] == s[i..j];
    }
  }

  /** What is kept behind a mark is kept one place further on. */
  lemma KeptBehind(s: string, i: nat, marks: seq<nat>, j: nat, u: string)
    requires marks != [] && i < marks[0] <= j < |s| && Keeps(s, marks[0], marks[1..], u, j)
    ensures Keeps(s, i, marks, s[i..marks[0]] + "_" + u, j)
  {
    hide Newlines;
    var m, t := marks[0], s[i..marks[0]] + "_" + u;
    var at := j - m + Shift(marks[1..], j);
    assert Shift(marks, j) == 1 + Shift(marks[1..], j);
    assert t[..m - i + 1 + at] == s[i..m] + "_" + u[..at] && t[m - i + 1 + at] == u[at];
    NewlinesAround(s[i..m], u[..at], s[m..j]);
    assert s[i..j] == s[i..m] + s[m..j];
  }

  lemma {:induction false} KeepsItsLine(s: string, i: nat, marks: seq<nat>, j: nat)
    requires i <= j < |s| && Rising(s, i, marks)
    ensures Keeps(s, i, marks, Weave(s, i, marks), j)
    decreases |marks|
  {
    hide Newlines, Weave, Keeps, Shift, Rising;
    if marks == [] || j < marks[0] {
      KeptBefore(s, i, marks, j);
    } else {
      WeaveStep(s, i, marks);
      KeepsItsLine(s, marks[0], marks[1..], j);
      KeptBehind(s, i, marks, j, Weave(s, marks[0], marks[1..]));
    }
  }

  /** The result is the input with `rewritten` underscores put in: deleting them gives the
      input back, and every character keeps its line. */
  lemma MinimalEdit(s: string)
    ensures var marks, t := Marks(s, 0, 0), Text(s, 0, 0);
      && |t| == |s| + |marks| && Delete(t, 0, Inserted(marks, 0)) == s
      && (forall k :: 0 <= k < |marks| ==> marks[k] + k < |t| && t[marks[k] + k] == '_')
      && (forall j :: 0 <= j < |s| ==> Keeps(s, 0, marks, t, j))
  {
    hide Marks, Weave, Delete, Keeps, Rising;
    MarksRise(s, 0, 0);
    WeaveLength(s, 0, Marks(s, 0, 0));
    DeleteUndoes(s, 0, Marks(s, 0, 0), "", 0);
    assert s[0..] == s && "" + Text(s, 0, 0) == Text(s, 0, 0);
    forall k | 0 <= k < |Marks(s, 0, 0)|
      ensures Marks(s, 0, 0)[k] + k < |Text(s, 0, 0)| && Text(s, 0, 0)[Marks(s, 0, 0)[k] + k] == '_' {
      UnderscoresAt(s, 0, Marks(s, 0, 0), k);
    }
    forall j | 0 <= j < |s| ensures Keeps(s, 0, Marks(s, 0, 0), Text(s, 0, 0), j) { KeepsItsLine(s, 0, Marks(s, 0, 0), j); }
  }

  // ----- literals and comments -----

  /** Position `p` is inside a literal or comment, to a lexer that knows nothing else. */
  predicate Opaque(s: string, i: nat, p: nat)
    requires i <= |s|
    decreases |s| - i
  {
    if i == |s| || p < i then false
    else if s[i] == '\'' then p < LiteralTail(s, i + 1) || Opaque(s, LiteralTail(s, i + 1), p)
    else if CommentEnd(s, i) != i then p < CommentEnd(s, i) || Opaque(s, CommentEnd(s, i), p)
    else Opaque(s, i + 1, p)
  }

  /** A character no literal, comment or statement begins with. */
  predicate Plain(c: char) { c != '\'' && c != ';' && c != '-' && c != '/' }

  lemma {:induction false} OpaqueSkips(s: string, i: nat, j: nat, p: nat)
    requires i <= j <= |s| && forall k :: i <= k < j ==> Plain(s[k])
    ensures Opaque(s, i, p) == Opaque(s, j, p)
    decreases j - i
  {
    if i < j { OpaqueSkips(s, i + 1, j, p); }
  }

  lemma LetterOf(c: char, w: char)
    requires Lower(c) == w && ('a' <= w <= 'z' || w == '_')
    ensures IsIdentChar(c) && Plain(c) && (w != 'o' ==> c != 'o' && c != 'O') && (w != '_' ==> c != '_')
  {
  }

  /** A word of small letters and underscores, whatever its case. */
  lemma WordChars(s: string, i: nat, word: string)
    requires i + |word| <= |s| && (forall k :: 0 <= k < |word| ==> Lower(s[i + k]) == Lower(word[k]))
    requires forall k :: 0 <= k < |word| ==> 'a' <= word[k] <= 'z' || word[k] == '_'
    ensures forall k :: i <= k < i + |word| ==> IsIdentChar(s[k]) && Plain(s[k])
    ensures forall k :: i <= k < i + |word| && word[k - i] != 'o' ==> s[k] != 'o' && s[k] != 'O'
  {
    forall k | i <= k < i + |word|
      ensures IsIdentChar(s[k]) && Plain(s[k]) && (word[k - i] != 'o' ==> s[k] != 'o' && s[k] != 'O')
    {
      assert Lower(s[i + (k - i)]) == Lower(word[k - i]);
      LetterOf(s[k], word[k - i]);
    }
  }

  lemma NameChars(name: string, want: string)
    requires Same(name, want) && forall k :: 0 <= k < |want| ==> 'a' <= want[k] <= 'z' || want[k] == '_'
    ensures forall k :: 0 <= k < |name| ==> IsIdentChar(name[k]) && Plain(name[k])
  {
    hide Lower;
    WordChars(name, 0, want);
  }

  lemma RenamedChars(name: string)
    requires IsRenamed(name)
    ensures name != "" && name[0] != '_' && name[0] != 'o' && name[0] != 'O'
    ensures forall k :: 0 <= k < |name| ==> IsIdentChar(name[k]) && Plain(name[k])
  {
    var want := if Same(name, "db_serial") then "db_serial" else if Same(name, "db_user") then "db_user" else "db_authorization";
    NameChars(name, want);
    assert Lower(name[0]) == Lower(want[0]) == 'd';
    LetterOf(name[0], 'd');
  }

  /** From `i` to `j` nothing opens a literal or a comment, ends a statement or, past `i`,
      starts an `on`. */
  predicate Quiet(s: string, i: nat, j: nat)
    requires i <= j <= |s|
  {
    (forall k :: i <= k < j ==> Plain(s[k])) && (forall k :: i < k < j ==> !Starts(s, k))
  }

  /** An identifier made of identifier characters is quiet, brackets or not. */
  lemma IdentIsQuiet(s: string, k: nat, id: Ident)
    requires k < |s| && ReadIdent(s, k) == Some(id)
    requires id.name != "" && id.name[0] != 'o' && id.name[0] != 'O'
    requires forall l :: 0 <= l < |id.name| ==> IsIdentChar(id.name[l]) && Plain(id.name[l])
    ensures forall l :: k <= l < id.end ==> Plain(s[l]) && !Starts(s, l)
  {
    hide ReadIdent, IsIdentChar;
    IdentIs(s, k, id);
    if id.bracketed {
      forall l | k <= l < id.end ensures Plain(s[l]) && !Starts(s, l) {
        if k < l < id.end - 1 { assert s[l] == id.name[l - k - 1]; }
        if k + 1 < l < id.end - 1 { assert s[l - 1] == id.name[l - k - 2]; }
      }
    } else {
      forall l | k <= l < id.end ensures Plain(s[l]) && !Starts(s, l) {
        assert s[l] == id.name[l - k];
        if k < l { assert s[l - 1] == id.name[l - k - 1]; }
      }
    }
  }

  lemma TargetIsQuiet(s: string, i: nat, t: Target)
    requires i < |s| && ReadTarget(s, i) == Some(t) && IsRenamed(t.id.name)
    ensures Quiet(s, i, t.id.end)
  {
    hide IsRenamed, ReadIdent, Same, SpaceEnd, Lower, IsIdentChar;
    var j := SpaceEnd(s, i + 2);
    WordChars(s, i, "on");
    WordChars(s, j, "class");
    RenamedChars(t.id.name);
    IdentIsQuiet(s, t.at, t.id);
    forall k | i <= k < t.at ensures Plain(s[k]) && (i < k ==> !Starts(s, k)) {
      if k == i + 1 { assert "on"[1] == 'n'; }
      if j <= k < j + 5 { assert "class"[k - j] != 'o'; }
    }
  }

  /** No underscore goes into a literal or a comment. */
  lemma {:induction false} MarksAvoidOpaque(s: string, start: nat, i: nat, p: nat)
    requires start <= |s| && i <= |s| && p in Marks(s, start, i)
    ensures !Opaque(s, i, p)
    decreases |s| - i
  {
    hide LiteralTail, CommentEnd, ReadTarget, IsRenamed;
    if s[i] == '\'' {
      MarksRise(s, start, LiteralTail(s, i + 1));
      MarksAvoidOpaque(s, start, LiteralTail(s, i + 1), p);
    } else if CommentEnd(s, i) != i {
      MarksRise(s, start, CommentEnd(s, i));
      MarksAvoidOpaque(s, start, CommentEnd(s, i), p);
    } else if s[i] == ';' {
      MarksAvoidOpaque(s, i + 1, i + 1, p);
    } else {
      match Moves(s, start, i)
      case None => MarksAvoidOpaque(s, start, i + 1, p);
      case Some(t) =>
        TargetIsQuiet(s, i, t);
        OpaqueSkips(s, i, t.id.end, p);
        MarkInside(s, i, t);
        if p != t.Mark() { MarksAvoidOpaque(s, start, t.id.end, p); }
    }
  }
}
