/** The pre-11.5 rewrite: in `CALL ... ON CLASS <view>` the catalog views named before 11.5
    become the underlying classes. It is the smallest edit that does it: underscores are
    inserted, nothing else changes, and a second pass finds nothing to do. */
module CallRewrite {
  import opened Schema
  import opened CallLexer

  predicate IsRenamed(name: string) {
    Same(name, "db_serial") || Same(name, "db_authorization") || Same(name, "db_user")
  }

  /** The view db_user still carries these two. */
  predicate IsKept(method_: string) { Same(method_, "find_user") || Same(method_, "login") }

  predicate Exempt(s: string, start: nat, upto: nat)
    requires start <= |s|
  {
    var c := ReadCall(s, start);
    c.Some? && c.value.end <= upto && IsKept(c.value.method_)
  }

  /** An `o` that does not continue an identifier. */
  predicate Starts(s: string, i: nat)
    requires i < |s|
  {
    (s[i] == 'o' || s[i] == 'O') && (i == 0 || !IsIdentChar(s[i - 1]))
  }

  /** The target to move at `i`, in the statement that starts at `start`. */
  function Moves(s: string, start: nat, i: nat): (r: Option<Target>)
    requires start <= |s| && i < |s|
  {
    if !Starts(s, i) then None
    else
      match ReadTarget(s, i)
      case None => None
      case Some(t) =>
        if IsRenamed(t.id.name) && !(Same(t.id.name, "db_user") && Exempt(s, start, i)) then Some(t) else None
  }

  /** Where underscores go, from `i` on. */
  function Marks(s: string, start: nat, i: nat): seq<nat>
    requires start <= |s| && i <= |s|
    decreases |s| - i
  {
    if i == |s| then []
    else if s[i] == '\'' then Marks(s, start, LiteralTail(s, i + 1))
    else if CommentEnd(s, i) != i then Marks(s, start, CommentEnd(s, i))
    else if s[i] == ';' then Marks(s, i + 1, i + 1)
    else
      match Moves(s, start, i)
      case None => Marks(s, start, i + 1)
      case Some(t) => [t.Mark()] + Marks(s, start, t.id.end)
  }

  predicate Rising(s: string, i: nat, marks: seq<nat>) {
    && (forall k :: 0 <= k < |marks| ==> i < marks[k] < |s|)
    && (forall k, l :: 0 <= k < l < |marks| ==> marks[k] < marks[l])
  }

  lemma RisesLater(s: string, i: nat, j: nat, marks: seq<nat>)
    requires i <= j && Rising(s, j, marks)
    ensures Rising(s, i, marks)
  {
  }

  lemma RisesAfter(s: string, i: nat, m: nat, e: nat, marks: seq<nat>)
    requires i < m < e <= |s| && Rising(s, e, marks)
    ensures Rising(s, i, [m] + marks)
  {
  }

  lemma {:induction false} MarksRise(s: string, start: nat, i: nat)
    requires start <= |s| && i <= |s|
    ensures Rising(s, i, Marks(s, start, i))
    decreases |s| - i, 1
  {
    hide Rising, LiteralTail, CommentEnd, Moves, ReadTarget;
    if i == |s| {
      NoneRise(s, i);
    } else if s[i] == '\'' {
      MarksRise(s, start, LiteralTail(s, i + 1));
      RisesLater(s, i, LiteralTail(s, i + 1), Marks(s, start, i));
    } else if CommentEnd(s, i) != i {
      MarksRise(s, start, CommentEnd(s, i));
      RisesLater(s, i, CommentEnd(s, i), Marks(s, start, i));
    } else if s[i] == ';' {
      MarksRise(s, i + 1, i + 1);
      RisesLater(s, i, i + 1, Marks(s, start, i));
    } else {
      match Moves(s, start, i)
      case None =>
        MarksRise(s, start, i + 1);
        RisesLater(s, i, i + 1, Marks(s, start, i));
      case Some(t) =>
        MovesIsTarget(s, start, i, t);
        MarksRise(s, start, t.id.end);
        MarkInside(s, i, t);
        RisesAfter(s, i, t.Mark(), t.id.end, Marks(s, start, t.id.end));
    }
  }

  lemma NoneRise(s: string, i: nat)
    ensures Rising(s, i, [])
  {
  }

  lemma MovesIsTarget(s: string, start: nat, i: nat, t: Target)
    requires start <= |s| && i < |s| && Moves(s, start, i) == Some(t)
    ensures ReadTarget(s, i) == Some(t)
  {
  }

  lemma MarkInside(s: string, i: nat, t: Target)
    requires i <= |s| && ReadTarget(s, i) == Some(t)
    ensures i + 7 <= t.Mark() < t.id.end && (IsSpace(s[t.Mark() - 1]) || s[t.Mark() - 1] == '[')
    ensures s[t.Mark()..t.id.end] == t.id.name + if t.id.bracketed then "]" else ""
    ensures s[i..t.Mark()] == s[i..t.at] + if t.id.bracketed then "[" else ""
  {
    hide Same, ReadIdent, IsIdentChar, IsSpace, SpaceEnd;
    var j := SpaceEnd(s, i + 2);
    IdentIs(s, t.at, t.id);
    if !t.id.bracketed {
      assert j + 5 < |s| && !IsIdentChar(s[j + 5]);
      assert IsSpace(s[t.at - 1]);
    }
  }

  lemma IdentIs(s: string, k: nat, id: Ident)
    requires k <= |s| && ReadIdent(s, k) == Some(id)
    ensures k < id.end <= |s| && id.name != ""
    ensures id.bracketed ==> s[k] == '[' && k + 1 < id.end - 1 && s[id.end - 1] == ']' && id.name == s[k + 1..id.end - 1]
    ensures !id.bracketed ==> IsIdentChar(s[k]) && id.name == s[k..id.end]
  {
  }

  /** `s` from `i` on with an underscore put in before each mark. */
  function Weave(s: string, i: nat, marks: seq<nat>): string
    requires i <= |s| && Rising(s, i, marks)
    decreases |marks|
  {
    if marks == [] then s[i..] else s[i..marks[0]] + "_" + Weave(s, marks[0], marks[1..])
  }

  lemma WeaveFrom(s: string, i: nat, j: nat, marks: seq<nat>)
    requires i <= j <= |s| && Rising(s, j, marks)
    ensures Rising(s, i, marks) && Weave(s, i, marks) == s[i..j] + Weave(s, j, marks)
  {
    if marks != [] { assert s[i..marks[0]] == s[i..j] + s[j..marks[0]]; }
  }

  /** The rewritten text from a scanner state on. */
  function Text(s: string, start: nat, i: nat): string
    requires start <= |s| && i <= |s|
  {
    MarksRise(s, start, i);
    Weave(s, i, Marks(s, start, i))
  }

  lemma TextSkips(s: string, start: nat, i: nat, start': nat, j: nat)
    requires start <= |s| && start' <= |s| && i <= j <= |s| && Marks(s, start, i) == Marks(s, start', j)
    ensures Text(s, start, i) == s[i..j] + Text(s, start', j)
  {
    hide Marks;
    MarksRise(s, start', j);
    WeaveFrom(s, i, j, Marks(s, start', j));
  }

  lemma TextMoves(s: string, start: nat, i: nat, t: Target)
    requires start <= |s| && i < |s| && ReadTarget(s, i) == Some(t)
    requires Marks(s, start, i) == [t.Mark()] + Marks(s, start, t.id.end)
    ensures Text(s, start, i) == s[i..t.Mark()] + "_" + s[t.Mark()..t.id.end] + Text(s, start, t.id.end)
  {
    hide Marks, ReadTarget, Rising;
    MarkInside(s, i, t);
    MarksRise(s, start, i);
    MarksRise(s, start, t.id.end);
    assert Marks(s, start, i)[1..] == Marks(s, start, t.id.end);
    WeaveFrom(s, t.Mark(), t.id.end, Marks(s, start, t.id.end));
  }

  lemma LiteralCase(s: string, start: nat, i: nat)
    requires start <= |s| && i < |s| && s[i] == '\''
    ensures var e := LiteralTail(s, i + 1);
      Text(s, start, i) == s[i..e] + Text(s, start, e) && Marks(s, start, i) == Marks(s, start, e)
  {
    TextSkips(s, start, i, start, LiteralTail(s, i + 1));
  }

  lemma CommentCase(s: string, start: nat, i: nat)
    requires start <= |s| && i < |s| && s[i] != '\'' && CommentEnd(s, i) != i
    ensures var e := CommentEnd(s, i);
      Text(s, start, i) == s[i..e] + Text(s, start, e) && Marks(s, start, i) == Marks(s, start, e)
  {
    TextSkips(s, start, i, start, CommentEnd(s, i));
  }

  predicate Ordinary(s: string, i: nat)
    requires i < |s|
  {
    s[i] != '\'' && CommentEnd(s, i) == i
  }

  lemma CopyCase(s: string, start: nat, i: nat)
    requires start <= |s| && i < |s| && Ordinary(s, i) && (s[i] == ';' || Moves(s, start, i).None?)
    ensures var next := if s[i] == ';' then i + 1 else start;
      Text(s, start, i) == [s[i]] + Text(s, next, i + 1) && Marks(s, start, i) == Marks(s, next, i + 1)
  {
    hide Text, CommentEnd, Moves;
    TextSkips(s, start, i, if s[i] == ';' then i + 1 else start, i + 1);
  }

  /** What is written for a moved name. */
  function Moved(id: Ident): string {
    (if id.bracketed then "[_" else "_") + id.name + if id.bracketed then "]" else ""
  }

  lemma MarksOfMove(s: string, start: nat, i: nat, t: Target)
    requires start <= |s| && i < |s| && Ordinary(s, i) && Moves(s, start, i) == Some(t)
    ensures Marks(s, start, i) == [t.Mark()] + Marks(s, start, t.id.end)
  {
    hide CommentEnd, ReadTarget;
    MoveIsForward(s, start, i, t);
  }

  lemma MoveCase(s: string, start: nat, i: nat, t: Target)
    requires start <= |s| && i < |s| && Ordinary(s, i) && Moves(s, start, i) == Some(t)
    ensures Text(s, start, i) == s[i..t.at] + Moved(t.id) + Text(s, start, t.id.end)
    ensures |Marks(s, start, i)| == 1 + |Marks(s, start, t.id.end)|
  {
    hide Text, Marks, Moves, ReadTarget, CommentEnd;
    MovesIsTarget(s, start, i, t);
    MarksOfMove(s, start, i, t);
    TextMoves(s, start, i, t);
    MarkInside(s, i, t);
    var open, close := if t.id.bracketed then "[" else "", if t.id.bracketed then "]" else "";
    assert (s[i..t.at] + open) + "_" + (t.id.name + close) + Text(s, start, t.id.end) == s[i..t.at] + (open + "_" + t.id.name + close) + Text(s, start, t.id.end);
    assert open + "_" == if t.id.bracketed then "[_" else "_";
  }

  lemma ByOrdinary(s: string, i: nat)
    requires i < |s| && s[i] != '\'' && CommentEnd(s, i) == i
    ensures Ordinary(s, i)
  {
  }

  /** `rewrite_pre115_call_targets`. */
  method Rewrite(s: string) returns (out: string, rewritten: nat)
    ensures out == Text(s, 0, 0) && rewritten == |Marks(s, 0, 0)|
  {
    hide *;
    out, rewritten := "", 0;
    var start, i := 0, 0;
    while i < |s|
      invariant start <= |s| && i <= |s|
      invariant out + Text(s, start, i) == Text(s, 0, 0)
      invariant rewritten + |Marks(s, start, i)| == |Marks(s, 0, 0)|
      decreases |s| - i
    {
      if s[i] == '\'' {
        var end := LiteralEnd(s, i);
        LiteralCase(s, start, i);
        out := out + s[i..end];
        i := end;
        continue;
      }
      var cend := SkipComment(s, i);
      if cend != i {
        CommentCase(s, start, i);
        out := out + s[i..cend];
        i := cend;
        continue;
      }
      ByOrdinary(s, i);
      var moved, t := Decide(s, start, i);
      if moved {
        MoveCase(s, start, i, t);
        MoveIsForward(s, start, i, t);
        out := out + s[i..t.at] + Moved(t.id);
        i := t.id.end;
        rewritten := rewritten + 1;
        continue;
      }
      CopyCase(s, start, i);
      if s[i] == ';' {
        start := i + 1;
      }
      out := out + [s[i]];
      i := i + 1;
    }
    NothingLeft(s, start);
  }

  lemma NothingLeft(s: string, start: nat)
    requires start <= |s|
    ensures Text(s, start, |s|) == "" && Marks(s, start, |s|) == []
  {
  }

  lemma MoveIsForward(s: string, start: nat, i: nat, t: Target)
    requires start <= |s| && i < |s| && Moves(s, start, i) == Some(t)
    ensures i <= t.at < t.id.end <= |s| && s[i] != ';'
  {
  }

  method Decide(s: string, start: nat, i: nat) returns (moved: bool, t: Target)
    requires start <= |s| && i < |s|
    ensures Moves(s, start, i) == if moved then Some(t) else None
  {
    hide IsRenamed, ReadCall;
    t := Target(0, Ident("", false, 0));
    if !Starts(s, i) {
      return false, t;
    }
    var found := TargetAt(s, i);
    if found.None? {
      return false, t;
    }
    t := found.value;
    moved := IsRenamed(t.id.name);
    if moved && Same(t.id.name, "db_user") {
      var call := CallMethodOf(s, start, i);
      moved := !(call.Some? && IsKept(call.value.method_));
    }
  }
}
