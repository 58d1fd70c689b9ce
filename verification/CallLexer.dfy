/** The scanners of the definition loader: literals, comments, keywords and identifiers.
    Each is a loop in the source and a function of the text and a position here. */
module CallLexer {
  import opened Schema

  function Lower(c: char): char {
    if 'A' <= c <= 'Z' then (c as int + 32) as char else c
  }

  predicate IsSpace(c: char) { c == ' ' || '\t' <= c <= '\r' }

  predicate IsIdentChar(c: char) {
    'a' <= c <= 'z' || 'A' <= c <= 'Z' || '0' <= c <= '9' || c == '_' || c == '#'
  }

  /** Case-insensitive equality. */
  predicate Same(a: string, b: string) {
    |a| == |b| && forall k :: 0 <= k < |a| ==> Lower(a[k]) == Lower(b[k])
  }

  /** `word` stands at `i`, and not run together with a longer identifier. */
  predicate Keyword(s: string, i: nat, word: string) {
    && i + |word| <= |s| && (forall k :: 0 <= k < |word| ==> Lower(s[i + k]) == Lower(word[k]))
    && (i + |word| == |s| || !IsIdentChar(s[i + |word|]))
  }

  function SpaceEnd(s: string, i: nat): (j: nat)
    requires i <= |s|
    ensures i <= j <= |s| && (forall k :: i <= k < j ==> IsSpace(s[k])) && (j < |s| ==> !IsSpace(s[j]))
    decreases |s| - i
  {
    if i < |s| && IsSpace(s[i]) then SpaceEnd(s, i + 1) else i
  }

  function IdentEnd(s: string, i: nat): (j: nat)
    requires i <= |s|
    ensures i <= j <= |s| && (forall k :: i <= k < j ==> IsIdentChar(s[k])) && (j < |s| ==> !IsIdentChar(s[j]))
    decreases |s| - i
  {
    if i < |s| && IsIdentChar(s[i]) then IdentEnd(s, i + 1) else i
  }

  /** Past the quote that closes a literal; a doubled quote does not. */
  function LiteralTail(s: string, i: nat): (j: nat)
    requires i <= |s|
    ensures i <= j <= |s|
    decreases |s| - i
  {
    if i == |s| then i
    else if s[i] != '\'' then LiteralTail(s, i + 1)
    else if i + 1 < |s| && s[i + 1] == '\'' then LiteralTail(s, i + 2)
    else i + 1
  }

  function LineEnd(s: string, i: nat): (j: nat)
    requires i <= |s|
    ensures i <= j <= |s| && (forall k :: i <= k < j ==> s[k] != '\n') && (j < |s| ==> s[j] == '\n')
    decreases |s| - i
  {
    if i == |s| || s[i] == '\n' then i else LineEnd(s, i + 1)
  }

  function BlockTail(s: string, i: nat): (j: nat)
    requires i <= |s|
    ensures i <= j <= |s|
    decreases |s| - i
  {
    if i + 1 >= |s| then |s| else if s[i] == '*' && s[i + 1] == '/' then i + 2 else BlockTail(s, i + 1)
  }

  /** The end of the comment at `i`, or `i` when none starts there. */
  function CommentEnd(s: string, i: nat): (j: nat)
    requires i <= |s|
    ensures i <= j <= |s| && (j != i ==> i + 2 <= j)
  {
    if i + 1 >= |s| then i
    else if s[i] == '-' && s[i + 1] == '-' then LineEnd(s, i + 2)
    else if s[i] == '/' && s[i + 1] == '*' then BlockTail(s, i + 2)
    else i
  }

  function TriviaEnd(s: string, i: nat): (j: nat)
    requires i <= |s|
    ensures i <= j <= |s|
    decreases |s| - i
  {
    var k := CommentEnd(s, SpaceEnd(s, i));
    if k == i then i else TriviaEnd(s, k)
  }

  function CloseAt(s: string, i: nat): (j: nat)
    requires i <= |s|
    ensures i <= j <= |s| && (forall k :: i <= k < j ==> s[k] != ']') && (j < |s| ==> s[j] == ']')
    decreases |s| - i
  {
    if i == |s| || s[i] == ']' then i else CloseAt(s, i + 1)
  }

  datatype Ident = Ident(name: string, bracketed: bool, end: nat)

  /** One identifier, bracketed or bare. */
  function ReadIdent(s: string, i: nat): (r: Option<Ident>)
    requires i <= |s|
    ensures r.Some? ==> i < r.value.end <= |s|
  {
    if i < |s| && s[i] == '[' then
      var close := CloseAt(s, i + 1);
      if close == |s| || close == i + 1 then None else Some(Ident(s[i + 1..close], true, close + 1))
    else
      var end := IdentEnd(s, i);
      if end == i then None else Some(Ident(s[i..end], false, end))
  }

  datatype CallHead = CallHead(method_: string, end: nat)

  /** `CALL <method>` behind any comments, and how far it reaches. */
  function ReadCall(s: string, i: nat): (r: Option<CallHead>)
    requires i <= |s|
    ensures r.Some? ==> i < r.value.end <= |s|
  {
    var c := TriviaEnd(s, i);
    if !Keyword(s, c, "call") then None
    else
      match ReadIdent(s, SpaceEnd(s, c + 4))
      case None => None
      case Some(id) => Some(CallHead(id.name, id.end))
  }

  datatype Target = Target(at: nat, id: Ident)
  {
    /** Where an underscore turns the view's name into the class's. */
    function Mark(): nat { if id.bracketed then at + 1 else at }
  }

  /** `ON CLASS <target>`. */
  function ReadTarget(s: string, i: nat): (r: Option<Target>)
    requires i <= |s|
    ensures r.Some? ==> i + 7 <= r.value.at < r.value.id.end <= |s|
  {
    if !Keyword(s, i, "on") then None
    else
      var j := SpaceEnd(s, i + 2);
      if !Keyword(s, j, "class") then None
      else
        var k := SpaceEnd(s, j + 5);
        match ReadIdent(s, k)
        case None => None
        case Some(id) => Some(Target(k, id))
  }

  // ----- the loops -----

  method SkipWs(s: string, i: nat) returns (j: nat)
    requires i <= |s|
    ensures j == SpaceEnd(s, i)
  {
    j := i;
    while j < |s| && IsSpace(s[j])
      invariant i <= j <= |s| && SpaceEnd(s, i) == SpaceEnd(s, j)
    {
      j := j + 1;
    }
  }

  method LiteralEnd(s: string, i: nat) returns (j: nat)
    requires i < |s| && s[i] == '\''
    ensures j == LiteralTail(s, i + 1)
  {
    j := i + 1;
    while j < |s|
      invariant i < j <= |s| && LiteralTail(s, i + 1) == LiteralTail(s, j)
    {
      if s[j] != '\'' {
        j := j + 1;
      } else if j + 1 < |s| && s[j + 1] == '\'' {
        j := j + 2;
      } else {
        return j + 1;
      }
    }
  }

  method SkipComment(s: string, i: nat) returns (j: nat)
    requires i <= |s|
    ensures j == CommentEnd(s, i)
  {
    hide LineEnd;
    if i + 1 >= |s| {
      return i;
    }
    j := i;
    if s[i] == '-' && s[i + 1] == '-' {
      j := i + 2;
      while j < |s| && s[j] != '\n'
        invariant i + 2 <= j <= |s| && LineEnd(s, i + 2) == LineEnd(s, j)
      {
        j := j + 1;
      }
    } else if s[i] == '/' && s[i + 1] == '*' {
      j := i + 2;
      while j + 1 < |s| && !(s[j] == '*' && s[j + 1] == '/')
        invariant i + 2 <= j <= |s| && BlockTail(s, i + 2) == BlockTail(s, j)
      {
        j := j + 1;
      }
      j := if j + 1 < |s| then j + 2 else |s|;
    }
  }

  method SkipTrivia(s: string, i: nat) returns (j: nat)
    requires i <= |s|
    ensures j == TriviaEnd(s, i)
  {
    j := i;
    var before := |s| + 1;
    while j != before
      invariant i <= j <= |s| && TriviaEnd(s, i) == TriviaEnd(s, j)
      invariant j == before ==> TriviaEnd(s, j) == j
      decreases |s| - j, if j == before then 0 else 1
    {
      before := j;
      j := SkipWs(s, j);
      j := SkipComment(s, j);
    }
  }

  method ReadIdentAt(s: string, i: nat) returns (r: Option<Ident>)
    requires i <= |s|
    ensures r == ReadIdent(s, i)
  {
    hide CloseAt, IdentEnd;
    var j := i;
    if i < |s| && s[i] == '[' {
      j := i + 1;
      while j < |s| && s[j] != ']'
        invariant i < j <= |s| && CloseAt(s, i + 1) == CloseAt(s, j)
      {
        j := j + 1;
      }
      return if j == |s| || j == i + 1 then None else Some(Ident(s[i + 1..j], true, j + 1));
    }
    while j < |s| && IsIdentChar(s[j])
      invariant i <= j <= |s| && IdentEnd(s, i) == IdentEnd(s, j)
    {
      j := j + 1;
    }
    return if j == i then None else Some(Ident(s[i..j], false, j));
  }

  method KeywordAt(s: string, i: nat, word: string) returns (yes: bool)
    requires i <= |s|
    ensures yes == Keyword(s, i, word)
  {
    if i + |word| > |s| {
      return false;
    }
    for k := 0 to |word|
      invariant forall l :: 0 <= l < k ==> Lower(s[i + l]) == Lower(word[l])
    {
      if Lower(s[i + k]) != Lower(word[k]) {
        return false;
      }
    }
    return i + |word| == |s| || !IsIdentChar(s[i + |word|]);
  }

  /** The method a CALL statement names, unless the text up to `upto` is shorter. */
  method CallMethodOf(s: string, start: nat, upto: nat) returns (r: Option<CallHead>)
    requires start <= |s|
    ensures r == var c := ReadCall(s, start); if c.Some? && c.value.end <= upto then c else None
  {
    hide TriviaEnd, ReadIdent, SpaceEnd, IsIdentChar;
    var i := SkipTrivia(s, start);
    var call := KeywordAt(s, i, "call");
    if !call {
      return None;
    }
    i := SkipWs(s, i + 4);
    var id := ReadIdentAt(s, i);
    return if id.None? || id.value.end > upto then None else Some(CallHead(id.value.name, id.value.end));
  }

  method TargetAt(s: string, i: nat) returns (r: Option<Target>)
    requires i <= |s|
    ensures r == ReadTarget(s, i)
  {
    hide SpaceEnd, ReadIdent, Lower, IsIdentChar;
    var on := KeywordAt(s, i, "on");
    if !on {
      return None;
    }
    var j := SkipWs(s, i + 2);
    var onClass := KeywordAt(s, j, "class");
    if !onClass {
      return None;
    }
    var k := SkipWs(s, j + 5);
    var id := ReadIdentAt(s, k);
    return if id.None? then None else Some(Target(k, id.value));
  }
}
