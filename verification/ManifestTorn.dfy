/** A manifest cut short, anywhere: it records no phase at all, or it reads as the whole file. */
module ManifestTorn {
  import opened Schema
  import opened DdlText
  import opened ManifestText
  import opened ManifestValues
  import opened Manifest
  import opened ManifestLaws
  import opened ManifestRoundTrip

  // ----- where the cut falls -----

  /** The complete lines before the cut and, when it is not empty, the torn one. */
  function LinesUpTo(lines: seq<string>, j: nat, p: nat): seq<string> {
    Cut(lines, j) + if p > 0 && j < |lines| then [Cut(lines[j], p)] else []
  }

  lemma {:induction false} CutFalls(lines: seq<string>, k: nat) returns (j: nat, p: nat)
    requires forall l :: l in lines ==> '\n' !in l
    ensures j <= |lines| && (p > 0 ==> j < |lines| && p <= |lines[j]|)
    ensures GetLines(Cut(Unlines(lines), k)) == LinesUpTo(lines, j, p)
  {
    hide LineEnd, GetLines;
    if lines == [] {
      j, p := 0, 0;
      NoLineEnd("");
    } else {
      var l, rest := lines[0], Unlines(lines[1..]);
      assert l in lines;
      if k <= |l| {
        j, p := 0, k;
        assert (l + "\n" + rest)[..k] == l[..k];
        NoLineEnd(l[..k]);
        assert lines[..0] == [];
      } else {
        CutOutside(l, rest, k - |l| - 1);
        j, p := CutFalls(lines[1..], k - |l| - 1);
        assert [lines[0]] + lines[1..][..j] == lines[..j + 1];
        j := j + 1;
      }
    }
  }

  lemma CutOutside(l: string, rest: string, k: nat)
    requires '\n' !in l
    ensures GetLines(Cut(l + "\n" + rest, |l| + 1 + k)) == [l] + GetLines(Cut(rest, k))
  {
    var text := l + "\n" + Cut(rest, k);
    assert Cut(l + "\n" + rest, |l| + 1 + k) == text;
    LineEndIs(l, Cut(rest, k));
    assert text[..|l|] == l && text[|l| + 1..] == Cut(rest, k);
  }

  lemma {:induction false} NoLineEnd(s: string)
    requires '\n' !in s
    ensures LineEnd(s) == |s| && GetLines(s) == if s == "" then [] else [s]
  {
    if s != "" {
      assert s[0] in s && s[..|s|] == s;
      NoLineEnd(s[1..]);
    }
  }

  // ----- the torn line -----

  /** A torn pair is nothing, or a pair of the same key. */
  lemma CutPair(key: string, value: string, p: nat)
    requires IsKey(key) && '\r' !in key && '\r' !in value && 0 < p <= |key + ": " + value|
    ensures ReadLine(Cut(key + ": " + value, p)) ==
      if p <= |key| then Gap else Pair(key, if p < |key| + 2 then "" else Trim(Cut(value, p - |key| - 2)))
  {
    hide Trim, Find, Blank;
    var raw := key + ": " + value;
    if p <= |key| {
      assert raw[..p] == key[..p];
      var s := key[..p];
      assert s[|s| - 1] == key[p - 1] && key[p - 1] in key;
      HeadSurvives(s);
      forall j: nat ensures !At(s, j, ":") {
        if j + 1 <= |s| { assert s[j..j + 1] == [key[j]] && key[j] in key; }
      }
      FindIsFirst(s, ":", 0);
    } else if p == |key| + 1 {
      assert raw[..p] == key + ":" + "";
      var s := key + ":" + "";
      assert s[|s| - 1] == ':' && s[0] == key[0];
      HeadSurvives(s);
      ColonAt(key, "");
      assert s[..|key|] == key && s[|key| + 1..] == "";
      TrimIdle(key);
      TrimIdle("");
    } else {
      var q := p - |key| - 2;
      assert raw[..p] == key + ": " + value[..q];
      assert '\r' !in value[..q];
      PairRoundTrip(key, value[..q]);
    }
  }

  // ----- before the last section -----

  /** Not in the last section, and no phase known. */
  predicate Before(d: Doc) { d.part != PhasePart && d.reached.None? }

  /** No line, torn or whole, can record a phase there. */
  lemma {:induction false} CalmRun(d: Doc, lines: seq<Line>)
    requires Before(d) && forall l :: l in lines ==> Calm(l)
    ensures Before(Apply(d, lines)) && forall l :: ReadItem(Apply(d, lines), l).reached.None?
    decreases |lines|
  {
    hide Trim, SectionOf, ReadSet, ReadPlan, ReadGraph, ReadStrip, ReadLoad, ReadRebuild, ReadValidate, ReadFk, ReadStats,
         ReadTriggers, Number, PhaseNamed;
    if lines == [] {
      SetKeeps(d);
    } else {
      assert lines[0] in lines;
      SetKeeps(d);
      CalmRun(ReadItem(d, Kept(lines[0])), lines[1..]);
    }
  }

  lemma SetKeeps(d: Doc)
    ensures forall k, v :: ReadSet(d, k, v).part == d.part && ReadSet(d, k, v).reached == d.reached
  {
  }

  // ----- the last section -----

  lemma NotABeginning(i: Reached, r: Reached)
    requires i != r
    ensures !(PhaseName(i) <= PhaseName(r))
  {
    assert PHASES[0][0] == 'd' && PHASES[1][0] == 'd' && PHASES[2][0] == 's' && PHASES[3][0] == 'l' && PHASES[4][0] == 'r'
      && PHASES[5][0] == 'f' && PHASES[6][0] == 's' && PHASES[7][0] == 'd';
    assert PHASES[0][1] == 'i' && PHASES[1][1] == 'e' && PHASES[7][1] == 'o';
    assert PHASES[2][2] == 'r' && PHASES[6][2] == 'a';
  }

  lemma {:induction false} NoSuchPhase(name: string, i: nat)
    requires forall k: Reached :: PhaseName(k) != name
    ensures PhaseOf(name, i).None?
    decreases |PHASES| - i
  {
    if i < |PHASES| {
      assert PhaseName(i) != name;
      NoSuchPhase(name, i + 1);
    }
  }

  /** Cut in the line that names the phase: the name is there, or none is read. */
  lemma TornCurrent(d: Doc, r: Reached, p: nat)
    requires d.part == PhasePart && d.reached.None? && 0 < p <= |"current" + ": " + PhaseName(r)|
    ensures var e := ReadItem(d, ReadLine(Cut("current" + ": " + PhaseName(r), p)));
      e.reached.None? || e == d.(reached := Some(r))
  {
    hide ReadLine, Trim, PhaseOf, PhaseName, IsKey, IsKeyWord, ReadItem, OneLine;
    KeyWord("current");
    PhaseKey(r);
    CutPair("current", PhaseName(r), p);
    if p <= |"current"| {
      GapIdle(d);
    } else if p < |"current"| + 2 {
      forall k: Reached ensures PhaseName(k) != "" { PhaseKey(k); }
      NoSuchPhase("", 0);
      InPhases(d, "current", "");
    } else {
      var q := p - |"current"| - 2;
      if q > 0 { assert PhaseName(r)[q - 1] in PhaseName(r) && PhaseName(r)[0] in PhaseName(r); }
      TrimIdle(PhaseName(r)[..q]);
      InPhases(d, "current", Cut(PhaseName(r), q));
      if q < |PhaseName(r)| {
        forall i: Reached ensures PhaseName(i) != Cut(PhaseName(r), q) {
          if i != r { NotABeginning(i, r); }
        }
        NoSuchPhase(Cut(PhaseName(r), q), 0);
      } else {
        assert Cut(PhaseName(r), q) == PhaseName(r);
        PhaseReads(0, r);
      }
    }
  }

  lemma GapIdle(d: Doc)
    ensures ReadItem(d, Gap) == d
  {
    hide ReadPair, SectionOf;
  }

  /** Cut after it: the whole file is read. */
  lemma TornPhase(d: Doc, l: Line, p: nat)
    requires d.part == PhasePart && IsPhaseLine(l) && 0 < p <= |RenderLine(l)|
    ensures ReadItem(d, ReadLine(Cut(RenderLine(l), p))) == d
  {
    hide ReadLine, Trim, Trimmed, PhaseNamed, PhaseName, IsKey, ReadItem, Cut, OneLine;
    var i: Reached :| l.key == PhaseName(i);
    PhaseKey(i);
    assert '\r' !in l.value;
    CutPair(l.key, l.value, p);
    if p > |l.key| { InPhases(d, l.key, if p < |l.key| + 2 then "" else Trim(Cut(l.value, p - |l.key| - 2))); } else { GapIdle(d); }
  }

  // ----- the torn file -----

  lemma {:induction false} RenderedPrefix(lines: seq<Line>, j: nat)
    requires j <= |lines|
    ensures |RenderLines(lines)| == |lines| && RenderLines(lines)[..j] == RenderLines(lines[..j])
    ensures forall k :: 0 <= k < |lines| ==> RenderLines(lines)[k] == RenderLine(lines[k])
  {
    hide RenderLine;
    if lines != [] {
      RenderedPrefix(lines[1..], if j == 0 then 0 else j - 1);
      var rest := RenderLines(lines[1..]);
      assert RenderLines(lines) == [RenderLine(lines[0])] + rest;
      if j > 0 { assert lines[..j][1..] == lines[1..][..j - 1] && lines[..j][0] == lines[0]; }
    }
  }

  lemma {:induction false} ReadMore(raws: seq<string>, raw: string)
    ensures ReadLines(raws + [raw]) == ReadLines(raws) + [ReadLine(raw)]
  {
    hide ReadLine;
    if raws == [] {
      assert [] + [raw] == [raw] && [raw][1..] == [];
    } else {
      assert (raws + [raw])[1..] == raws[1..] + [raw];
      ReadMore(raws[1..], raw);
    }
  }

  lemma {:induction false} ReadOneMore(d: Doc, lines: seq<Line>, l: Line)
    ensures ReadAll(d, lines + [l]) == ReadItem(ReadAll(d, lines), l)
    decreases |lines|
  {
    hide ReadItem;
    if lines == [] {
      assert [] + [l] == [l] && [l][1..] == [] && ReadAll(ReadItem(d, l), []) == ReadItem(d, l);
    } else {
      assert (lines + [l])[1..] == lines[1..] + [l];
      ReadOneMore(ReadItem(d, lines[0]), lines[1..], l);
    }
  }

  /** What the reader, at `d`, makes of `j` whole lines and `p` characters of the next. */
  function Torn(d: Doc, lines: seq<Line>, j: int, p: nat): Doc {
    var e := Apply(d, Cut(lines, j));
    if p > 0 && 0 <= j < |lines| then ReadItem(e, ReadLine(Cut(RenderLine(lines[j]), p))) else e
  }

  /** The cut is at a line of the file, and inside it. */
  predicate Falls(lines: seq<Line>, j: int, p: nat) {
    0 <= j <= |lines| && (p > 0 ==> j < |lines| && p <= |RenderLine(lines[j])|)
  }

  lemma TornIs(lines: seq<Line>, k: nat) returns (j: nat, p: nat)
    requires forall l :: l in lines ==> WellFormed(l)
    ensures Falls(lines, j, p)
    ensures ReadAll(BLANK, ReadLines(GetLines(Cut(Unlines(RenderLines(lines)), k)))) == Torn(BLANK, lines, j, p)
  {
    hide WellFormed, RenderLine, ReadLine, ReadItem, BLANK, Kept, RenderLines, ReadAll, GetLines, ReadLines, KeptLines;
    RenderedLines(lines);
    RenderedPrefix(lines, 0);
    j, p := CutFalls(RenderLines(lines), k);
    RenderedPrefix(lines, j);
    assert forall l :: l in lines[..j] ==> l in lines;
    RenderedLines(lines[..j]);
    ApplyIsReadAll(BLANK, lines[..j]);
    if p == 0 {
      assert LinesUpTo(RenderLines(lines), j, p) == RenderLines(lines[..j]);
    } else {
      ReadMore(RenderLines(lines[..j]), RenderLine(lines[j])[..p]);
      ReadOneMore(BLANK, KeptLines(lines[..j]), ReadLine(RenderLine(lines[j])[..p]));
    }
  }

  lemma LastLines(r: Reached)
    ensures var t := PhaseSection(r);
      && |t| == 2 + |PhaseLines(0, r)| && Cut(t, 0) == [] && Cut(t, 1) == [Header(NameOf(PhasePart))]
      && t[1] == Pair("current", PhaseName(r))
    ensures forall j: nat :: 2 <= j <= |PhaseSection(r)| ==>
      && Cut(PhaseSection(r), j) == [Header(NameOf(PhasePart))] + [Pair("current", PhaseName(r))] + Cut(PhaseLines(0, r), j - 2)
      && (j < |PhaseSection(r)| ==> PhaseSection(r)[j] == PhaseLines(0, r)[j - 2])
  {
    hide PhaseLines, NameOf;
  }

  lemma TornTail(d: Doc, r: Reached, j: nat, p: nat)
    requires Before(d) && Falls(PhaseSection(r), j, p)
    ensures var f := Torn(d, PhaseSection(r), j, p);
      f.reached.None? || f == Entered(d, PhasePart).(reached := Some(r))
  {
    hide RenderLine, ReadLine, Apply, PhaseLines, IsPhaseLine, ReadItem, Kept, NameOf, PhaseSection, Calm, PhaseName,
         WellFormed;
    LastLines(r);
    CalmRun(d, []);
    EnterPhases(d);
    ApplyOne(d, Header(NameOf(PhasePart)));
    var e := Entered(d, PhasePart);
    if j == 1 && p > 0 {
      CurrentText(r);
      TornCurrent(e, r, p);
    } else if j > 1 {
      var whole, lines := e.(reached := Some(r)), PhaseLines(0, r);
      CurrentReads(e, r);
      ApplyOne(e, Pair("current", PhaseName(r)));
      ApplyConcat(d, [Header(NameOf(PhasePart))], [Pair("current", PhaseName(r))]);
      ApplyConcat(d, [Header(NameOf(PhasePart))] + [Pair("current", PhaseName(r))], lines[..j - 2]);
      PhaseLinesAre(0, r);
      PhaseLinesIdle(whole, lines[..j - 2]);
      if p > 0 { TornPhase(whole, lines[j - 2], p); }
    }
  }

  lemma CurrentText(r: Reached)
    ensures RenderLine(Pair("current", PhaseName(r))) == "current" + ": " + PhaseName(r)
  {
  }

  /** Cut in the head, or behind it. */
  lemma TornInHead(h: seq<Line>, t: seq<Line>, j: nat, p: nat)
    requires j < |h| && forall l :: l in h ==> Calm(l)
    ensures Torn(BLANK, h + t, j, p).reached.None?
  {
    hide RenderLine, ReadLine, ReadItem, Apply, Calm;
    assert (h + t)[..j] == h[..j] && (h + t)[j] == h[j];
    assert forall l :: l in h[..j] ==> l in h;
    CalmRun(BLANK, h[..j]);
  }

  lemma HeadIsBefore(h: seq<Line>)
    requires forall l :: l in h ==> Calm(l)
    ensures Before(Apply(BLANK, h))
  {
    hide Calm, Apply, ReadItem;
    CalmRun(BLANK, h);
  }

  lemma TornBehind(h: seq<Line>, t: seq<Line>, i: nat, p: nat)
    requires Falls(h + t, |h| + i, p)
    ensures Torn(BLANK, h + t, |h| + i, p) == Torn(Apply(BLANK, h), t, i, p) && Falls(t, i, p)
  {
    hide RenderLine, ReadLine, ReadItem, Apply, BLANK;
    assert (h + t)[..|h| + i] == h + t[..i] && (p > 0 ==> (h + t)[|h| + i] == t[i]);
    ApplyConcat(BLANK, h, t[..i]);
  }

  /** Cut before the last section: no phase. Cut in it: none, or all there is to read. */
  lemma TornLines(m: Input, j: nat, p: nat)
    requires IsInput(m) && Falls(Lines(m), j, p)
    ensures Torn(BLANK, Lines(m), j, p).reached.None? || Torn(BLANK, Lines(m), j, p) == Whole(m)
  {
    hide Head, RenderLine, Apply, Before, BLANK, AfterHead, PhaseSection, IsInput, Calm, Torn, Falls, Entered, WellFormed;
    HeadRead(m);
    var h, t := Head(m), PhaseSection(m.reached);
    if j < |h| {
      TornInHead(h, t, j, p);
    } else {
      TornBehind(h, t, j - |h|, p);
      HeadIsBefore(h);
      TornTail(AfterHead(m), m.reached, j - |h|, p);
    }
  }

  /** A prefix of a manifest records no phase, so the run that finds it refuses; or nothing a
      reader looks at is missing, and it is the whole manifest. */
  lemma TornFile(m: Input, k: nat)
    requires IsInput(m)
    ensures Read(Cut(Render(m), k)).reached.None? || Read(Cut(Render(m), k)) == Back(m)
  {
    hide Lines, WellFormed, IsInput, Apply, Whole, Back, Torn, Falls, ReadAll, ReadLines, GetLines, BLANK, RenderLines;
    WholeRead(m);
    WholeIs(m);
    var j, p := TornIs(Lines(m), k);
    TornLines(m, j, p);
  }
}
