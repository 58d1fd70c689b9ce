/** The manifest as text: lines, headers and "key: value" pairs, and the small encodings a
    value is made of. Each decoder is shown to undo its encoder. */
module ManifestText {
  import opened Schema
  import opened DdlText

  // ----- trimming -----

  lemma TrimIdle(s: string)
    requires Trimmed(s)
    ensures Trim(s) == s && Trim(" " + s) == s && Trim(s + " ") == s && Trim(" " + s + " ") == s
  {
    hide Trim;
    TrimPadded("", s, "");
    TrimPadded(" ", s, "");
    TrimPadded("", s, " ");
    TrimPadded(" ", s, " ");
    assert "" + s + "" == s && " " + s + "" == " " + s && "" + s + " " == s + " ";
  }

  // ----- lines -----

  function LineEnd(text: string): (n: nat)
    ensures n <= |text| && (forall k :: 0 <= k < n ==> text[k] != '\n') && (n < |text| ==> text[n] == '\n')
  {
    if text == "" || text[0] == '\n' then 0 else 1 + LineEnd(text[1..])
  }

  /** `getline` until the end: a final newline opens no further line. */
  function GetLines(text: string): seq<string> {
    if text == "" then []
    else
      var n := LineEnd(text);
      [text[..n]] + if n == |text| then [] else GetLines(text[n + 1..])
  }

  /** What is left of a sequence cut short. */
  function Cut<T>(s: seq<T>, k: int): seq<T> { if 0 <= k <= |s| then s[..k] else s }

  function Unlines(lines: seq<string>): string {
    if lines == [] then "" else lines[0] + "\n" + Unlines(lines[1..])
  }

  lemma {:induction false} LineEndIs(l: string, rest: string)
    requires '\n' !in l
    ensures LineEnd(l + "\n" + rest) == |l|
  {
    if l != "" {
      assert (l + "\n" + rest)[1..] == l[1..] + "\n" + rest && l[0] in l;
      LineEndIs(l[1..], rest);
    }
  }

  lemma {:induction false} LinesRoundTrip(lines: seq<string>)
    requires forall l :: l in lines ==> '\n' !in l
    ensures GetLines(Unlines(lines)) == lines
  {
    if lines != [] {
      var l, rest := lines[0], Unlines(lines[1..]);
      var text := l + "\n" + rest;
      assert l in lines;
      LineEndIs(l, rest);
      assert text[..|l|] == l && text[|l| + 1..] == rest;
      LinesRoundTrip(lines[1..]);
    }
  }

  datatype Line = Gap | Note(text: string) | Header(name: string) | Pair(key: string, value: string)

  function RenderLine(l: Line): string {
    match l
    case Gap => ""
    case Note(text) => "#" + text
    case Header(name) => name
    case Pair(key, value) => key + ": " + value
  }

  /** What the reader makes of a line; notes, blanks and lines without a colon are nothing. */
  function ReadLine(raw: string): Line {
    var line := if raw != "" && raw[|raw| - 1] == '\r' then raw[..|raw| - 1] else raw;
    var t := Trim(line);
    if t == "" || t[0] == '#' then Gap
    else if t[0] == '[' then Header(t)
    else
      var c := Find(line, ":", 0);
      if c < 0 then Gap else Pair(Trim(line[..c]), Trim(line[c + 1..]))
  }

  /** A key of the format: a word that cannot be taken for a note or a header. */
  predicate IsKey(key: string) {
    key != "" && Trimmed(key) && key[0] != '#' && key[0] != '[' && ':' !in key
  }

  predicate WellFormed(l: Line) {
    match l
    case Gap => true
    case Note(text) => '\n' !in text
    case Header(name) => name != "" && Trimmed(name) && name[0] == '[' && '\n' !in name
    case Pair(key, value) => IsKey(key) && '\n' !in key && '\n' !in value && '\r' !in value
  }

  /** What survives of a line. */
  function Kept(l: Line): Line {
    match l
    case Note(_) => Gap
    case Pair(key, value) => Pair(key, Trim(value))
    case _ => l
  }

  lemma FindAt(s: string, pat: string, k: nat)
    requires At(s, k, pat) && forall j: nat :: j < k ==> !At(s, j, pat)
    ensures Find(s, pat, 0) == k
  {
    FindIsFirst(s, pat, 0);
  }

  lemma ColonAt(key: string, rest: string)
    requires ':' !in key
    ensures Find(key + ":" + rest, ":", 0) == |key|
  {
    var s := key + ":" + rest;
    assert s[|key|..|key| + 1] == ":";
    forall j: nat | j < |key| ensures !At(s, j, ":") {
      assert s[j..j + 1] == [key[j]] && key[j] in key;
    }
    FindAt(s, ":", |key|);
  }

  lemma PairRoundTrip(key: string, value: string)
    requires IsKey(key) && '\r' !in value
    ensures ReadLine(key + ": " + value) == Pair(key, Trim(value))
  {
    hide Trim, Find;
    var raw := key + ":" + (" " + value);
    assert raw == key + ": " + value;
    assert (var raw := key + ":" + (" " + value); raw[|raw| - 1] != '\r' && Trim(raw) != "" && Trim(raw)[0] == key[0]) by {
      var raw := key + ":" + (" " + value);
      if value != "" { assert raw[|raw| - 1] == value[|value| - 1] && value[|value| - 1] in value; }
      HeadSurvives(raw);
    }
    ColonAt(key, " " + value);
    assert raw[..|key|] == key && raw[|key| + 1..] == " " + value;
    TrimIdle(key);
    LeadingBlank(value);
  }

  lemma LeadingBlank(value: string)
    ensures Trim(" " + value) == Trim(value)
  {
    hide TextStart, TextEnd, Trimmed;
    var from := TextStart(value, 0);
    var end := TextEnd(value, from, |value|);
    var left, right := " " + value[..from], value[end..];
    assert " " + value == left + Trim(value) + right;
    TrimPadded(left, value[from..end], right);
  }

  lemma LineRoundTrip(l: Line)
    requires WellFormed(l)
    ensures ReadLine(RenderLine(l)) == Kept(l) && '\n' !in RenderLine(l)
  {
    hide ReadLine, IsKey, Trimmed, Trim;
    match l
    case Gap => GapIsNothing();
    case Note(text) => NoteIsNothing(text);
    case Header(name) => HeaderRoundTrip(name);
    case Pair(key, value) => PairRoundTrip(key, value);
  }

  lemma GapIsNothing()
    ensures ReadLine("") == Gap
  {
    assert Trim("") == "";
  }

  lemma HeaderRoundTrip(name: string)
    requires name != "" && Trimmed(name) && name[0] == '['
    ensures ReadLine(name) == Header(name)
  {
    hide Trim;
    TrimIdle(name);
  }

  lemma NoteIsNothing(text: string)
    ensures ReadLine("#" + text) == Gap
  {
    var raw := "#" + text;
    var line := if raw[|raw| - 1] == '\r' then raw[..|raw| - 1] else raw;
    if line != "" {
      assert line[0] == '#';
      HeadSurvives(line);
    }
  }

  /** A text that starts with no blank keeps its first character. */
  lemma HeadSurvives(s: string)
    requires s != "" && !Blank(s[0])
    ensures Trim(s) != "" && Trim(s)[0] == s[0]
  {
    assert TextStart(s, 0) == 0;
  }

  function RenderLines(lines: seq<Line>): seq<string> {
    if lines == [] then [] else [RenderLine(lines[0])] + RenderLines(lines[1..])
  }

  function ReadLines(raws: seq<string>): seq<Line> {
    if raws == [] then [] else [ReadLine(raws[0])] + ReadLines(raws[1..])
  }

  function KeptLines(lines: seq<Line>): seq<Line> {
    if lines == [] then [] else [Kept(lines[0])] + KeptLines(lines[1..])
  }

  /** Reading a rendered file gives back its lines. */
  lemma {:induction false} TextRoundTrip(lines: seq<Line>)
    requires forall l :: l in lines ==> WellFormed(l)
    ensures ReadLines(GetLines(Unlines(RenderLines(lines)))) == KeptLines(lines)
  {
    RenderedLines(lines);
    LinesRoundTrip(RenderLines(lines));
  }

  lemma {:induction false} RenderedLines(lines: seq<Line>)
    requires forall l :: l in lines ==> WellFormed(l)
    ensures ReadLines(RenderLines(lines)) == KeptLines(lines)
    ensures forall l :: l in RenderLines(lines) ==> '\n' !in l
  {
    hide WellFormed;
    if lines != [] {
      assert lines[0] in lines;
      LineRoundTrip(lines[0]);
      RenderedLines(lines[1..]);
    }
  }
}
