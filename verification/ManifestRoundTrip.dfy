/** The whole manifest: what is written is what a resume reads. */
module ManifestRoundTrip {
  import opened Schema
  import opened DdlText
  import opened ManifestText
  import opened ManifestValues
  import opened ManifestGraph
  import opened Manifest
  import opened ManifestLaws
  import opened ManifestSections
  import Rebuild

  // ----- applying lines -----

  function Apply(d: Doc, lines: seq<Line>): Doc
    decreases |lines|
  {
    if lines == [] then d else Apply(ReadItem(d, Kept(lines[0])), lines[1..])
  }

  lemma {:induction false} ApplyIsReadAll(d: Doc, lines: seq<Line>)
    ensures ReadAll(d, KeptLines(lines)) == Apply(d, lines)
    decreases |lines|
  {
    hide ReadItem, Kept;
    if lines != [] { ApplyIsReadAll(ReadItem(d, Kept(lines[0])), lines[1..]); }
  }

  lemma {:induction false} ApplyConcat(d: Doc, a: seq<Line>, b: seq<Line>)
    ensures Apply(d, a + b) == Apply(Apply(d, a), b)
    decreases |a|
  {
    hide ReadItem, Kept;
    if a == [] {
      assert a + b == b;
    } else {
      assert (a + b)[1..] == a[1..] + b;
      ApplyConcat(ReadItem(d, Kept(a[0])), a[1..], b);
    }
  }

  /** Not the header of the last section. */
  predicate Calm(l: Line) { l.Header? ==> SectionOf(l.name) != PhasePart }

  /** The lines survive being written, come before the last section, and take the reader from `d` to `e`. */
  ghost predicate Reads(d: Doc, lines: seq<Line>, e: Doc) {
    Apply(d, lines) == e && forall l :: l in lines ==> WellFormed(l) && Calm(l)
  }

  lemma Onward(d: Doc, a: seq<Line>, e: Doc, b: seq<Line>, f: Doc)
    requires Reads(d, a, e) && Reads(e, b, f)
    ensures Reads(d, a + b, f)
  {
    hide WellFormed, Calm, Apply;
    ApplyConcat(d, a, b);
  }

  lemma ReadsNothing(d: Doc)
    ensures Reads(d, [], d)
  {
    hide ReadItem, Kept, WellFormed, Calm;
  }

  lemma ReadsOne(d: Doc, l: Line)
    requires WellFormed(l) && Calm(l)
    ensures Reads(d, [l], ReadItem(d, Kept(l)))
  {
    hide ReadItem, Kept, WellFormed, Calm;
    assert [l][1..] == [] && Apply(ReadItem(d, Kept(l)), []) == ReadItem(d, Kept(l));
  }

  // ----- from a record to the document -----

  function Entered(d: Doc, p: Section): Doc { d.(part := p, has := d.has + {p}) }

  /** The record a section's reader works on, as a part of the document. */
  ghost predicate IsPart<R(!new)>(p: Section, read: (R, string, string) -> R, get: Doc -> R, upd: (Doc, R) -> Doc) {
    && (forall d :: upd(d, get(d)) == d)
    && (forall d, r :: get(upd(d, r)) == r)
    && (forall d, r, s :: upd(upd(d, r), s) == upd(d, s))
    && (forall d: Doc, k, v :: d.part == p ==>
          ReadPair(d, k, v) == upd(d, read(get(d), k, v)) && upd(d, read(get(d), k, v)).part == p)
  }

  lemma {:induction false} FoldIsApply<R(!new)>(d: Doc, lines: seq<Line>, p: Section, read: (R, string, string) -> R,
                                                get: Doc -> R, upd: (Doc, R) -> Doc)
    requires d.part == p && IsPart(p, read, get, upd) && forall l :: l in lines ==> l.Pair?
    ensures Apply(d, lines) == upd(d, Fold(get(d), lines, read))
    decreases |lines|
  {
    hide Trim, ReadPair;
    if lines != [] {
      assert lines[0] in lines;
      FoldIsApply(ReadPair(d, lines[0].key, Trim(lines[0].value)), lines[1..], p, read, get, upd);
    }
  }

  /** Every known section is entered by its own header. */
  lemma SectionNames(p: Section)
    requires p != Start && p != Unknown
    ensures WellFormed(Header(NameOf(p))) && SectionOf(NameOf(p)) == p
  {
    hide SectionOf, NameOf;
    NameIsHeader(p);
    NameIsOwn(p);
  }

  lemma NameIsHeader(p: Section)
    requires p != Start && p != Unknown
    ensures WellFormed(Header(NameOf(p)))
  {
    hide IsKey;
  }

  lemma NameIsOwn(p: Section)
    requires p != Start && p != Unknown
    ensures SectionOf(NameOf(p)) == p
  {
  }

  lemma LinesAreCalm(body: seq<Line>)
    requires forall l :: l in body ==> Sound(l)
    ensures forall l :: l in body ==> l.Pair? && WellFormed(l) && Calm(l)
  {
  }

  /** A section's law, lifted to the document. */
  lemma SectionReads<R(!new)>(d: Doc, p: Section, body: seq<Line>, read: (R, string, string) -> R, get: Doc -> R,
                              upd: (Doc, R) -> Doc, r: R)
    requires p != Start && p != Unknown && p != PhasePart && IsPart(p, read, get, upd)
    requires Takes(get(Entered(d, p)), body, read, r)
    ensures Reads(d, Part(p, body), upd(Entered(d, p), r))
  {
    hide ReadPair, SectionOf, NameOf, Fold, Apply, WellFormed, Sound, IsPart, Trim;
    var e, f := Entered(d, p), upd(Entered(d, p), r);
    SectionNames(p);
    ReadsOne(d, Header(NameOf(p)));
    LinesAreCalm(body);
    FoldIsApply(e, body, p, read, get, upd);
    GapIsCalm();
    ReadsOne(f, Gap);
    Onward(d, [Header(NameOf(p))], e, body, f);
    Onward(d, [Header(NameOf(p))] + body, f, [Gap], f);
  }

  lemma GapIsCalm()
    ensures WellFormed(Gap) && Calm(Gap)
  {
  }

  // ----- before the first section -----

  lemma FormatNote()
    ensures WellFormed(Note(NOTE_FORMAT))
  {
    assert '\n' !in " CUBRID importdb" && '\n' !in " manifest (format" && '\n' !in " v3)";
  }

  lemma OwnerNote()
    ensures WellFormed(Note(NOTE_OWNER))
  {
    hide Trimmed;
    assert '\n' !in " Written and" && '\n' !in " owned by importdb;" && '\n' !in " do not edit" && '\n' !in " by hand.";
  }

  lemma RecordNote()
    ensures WellFormed(Note(NOTE_RECORD))
  {
    hide Trimmed;
    var a, b, c := " Plan/progress", " record for the", " importdb directory";
    var d, e, f := " contract", " (foundation N54", " \U{00A7}4.4).";
    assert '\n' !in a && '\n' !in b && '\n' !in c && '\n' !in d && '\n' !in e && '\n' !in f;
    assert NOTE_RECORD == a + b + c + d + e + f;
  }

  lemma {:induction false} Passed(d: Doc, lines: seq<Line>)
    requires forall l :: l in lines ==> WellFormed(l) && Calm(l) && ReadItem(d, Kept(l)) == d
    ensures Reads(d, lines, d)
  {
    hide ReadItem, Kept, WellFormed, Calm;
    if lines != [] {
      assert lines[0] in lines;
      Passed(d, lines[1..]);
    }
  }

  lemma NotesRead(d: Doc)
    ensures Reads(d, Notes(), d)
  {
    hide Reads, NOTE_FORMAT, NOTE_OWNER, NOTE_RECORD, ReadPair, WellFormed, Trim;
    FormatNote();
    OwnerNote();
    RecordNote();
    Passed(d, Notes());
  }

  lemma PreambleReads(d: Doc, created: string)
    requires d.part == Start && OneLine(created)
    ensures Reads(d, Preamble(created), d.(version := 3))
  {
    hide Reads, Notes, Trim, Dec, Number, IsKey, IsKeyWord, ReadGraph;
    var e := d.(version := 3);
    NotesRead(d);
    KeyWord("format_version");
    DigitsAreOneLine(3);
    ReadsOne(d, Count("format_version", 3));
    KeyWord("generator");
    KeyWord("created");
    assert OneLine("importdb");
    var rest := [Pair("generator", "importdb"), Pair("created", created), Gap];
    Passed(e, rest);
    Onward(d, Notes(), d, [Count("format_version", 3)], e);
    Onward(d, Notes() + [Count("format_version", 3)], e, rest, e);
  }

  // ----- [set] -----

  ghost predicate AreOneLine(names: seq<string>) { forall n :: n in names ==> OneLine(n) }

  ghost predicate IsLayout(l: SchemaLayout) {
    match l
    case Split(classFile, infoFile, applyOrder) => OneLine(classFile) && OneLine(infoFile) && AreOneLine(applyOrder)
    case Default(file) => OneLine(file)
  }

  ghost predicate IsRoster(r: Roster) {
    && IsText(r.database) && IsText(r.dumpDir) && IsText(r.prefix) && IsLayout(r.schema)
    && OneLine(r.indexFile) && OneLine(r.triggerFile) && AreOneLine(r.objectFiles)
  }

  /** Neither the database nor the dump. */
  predicate IsOther(k: string) { IsKeyWord(k) && k[0] != 'd' && k[0] != 'p' }

  lemma SchemaWords()
    ensures IsOther("schema_layout") && IsOther("schema_class_file") && IsOther("schema_info_file") && IsOther("schema_apply_order")
    ensures IsOther("schema_file")
  {
  }

  lemma FileWords()
    ensures IsOther("index_file") && IsOther("trigger_file") && IsOther("object_layout") && IsOther("object_count")
    ensures IsOther("object_files")
  {
  }

  /** A line of the section that names neither. */
  lemma OtherLine(d: Doc, k: string, v: string)
    requires IsOther(k) && OneLine(v)
    ensures Sound(Pair(k, v)) && forall w :: ReadSet(d, k, w) == d
  {
    hide IsKeyWord, IsKey;
    KeyWord(k);
  }

  lemma ListIsOneLine(names: seq<string>)
    requires AreOneLine(names)
    ensures OneLine(JoinList(names))
  {
    JoinIsOneLine(names, ", ");
  }

  lemma WordsAreOneLine()
    ensures OneLine("split") && OneLine("default") && OneLine("per-class") && OneLine("single")
  {
  }

  lemma SchemaTakes(d: Doc, l: SchemaLayout)
    requires IsLayout(l)
    ensures Takes(d, SchemaLines(l), ReadSet, d)
  {
    hide Takes, JoinList, AreOneLine, ReadSet, Sound, IsOther, OneLine;
    SchemaWords();
    WordsAreOneLine();
    match l
    case Split(classFile, infoFile, applyOrder) =>
      ListIsOneLine(applyOrder);
      OtherLine(d, "schema_layout", "split");
      OtherLine(d, "schema_class_file", classFile);
      OtherLine(d, "schema_info_file", infoFile);
      OtherLine(d, "schema_apply_order", JoinList(applyOrder));
      Ignored(d, SchemaLines(l), ReadSet);
    case Default(file) =>
      OtherLine(d, "schema_layout", "default");
      OtherLine(d, "schema_file", file);
      Ignored(d, SchemaLines(l), ReadSet);
  }

  lemma OrNoneIsOneLine(s: string)
    requires OneLine(s)
    ensures OneLine(OrNone(s))
  {
    NoneIsNoList();
  }

  lemma FilesTake(d: Doc, r: Roster)
    requires IsRoster(r)
    ensures Takes(d, FilesFound(r), ReadSet, d)
  {
    hide Takes, JoinList, AreOneLine, IsText, IsLayout, Dec, ReadSet, Sound, IsOther, OrNone, OneLine, Number, Trim;
    FileWords();
    WordsAreOneLine();
    ListIsOneLine(r.objectFiles);
    DigitsAreOneLine(|r.objectFiles|);
    OrNoneIsOneLine(r.indexFile);
    OrNoneIsOneLine(r.triggerFile);
    OtherLine(d, "index_file", OrNone(r.indexFile));
    OtherLine(d, "trigger_file", OrNone(r.triggerFile));
    OtherLine(d, "object_layout", if r.perClass then "per-class" else "single");
    OtherLine(d, "object_count", Dec(|r.objectFiles|));
    OtherLine(d, "object_files", JoinList(r.objectFiles));
    Ignored(d, FilesFound(r), ReadSet);
  }

  function AfterNames(d: Doc, r: Roster): Doc { d.(database := r.database, dumpDir := r.dumpDir, prefix := r.prefix) }

  lemma NamesTake(d: Doc, r: Roster)
    requires IsText(r.database) && IsText(r.dumpDir) && IsText(r.prefix)
    ensures Takes(d, NameLines(r), ReadSet, AfterNames(d, r))
  {
    hide Takes, Trim, IsKey, IsKeyWord, Trimmed;
    var e := d.(database := r.database);
    var f := e.(dumpDir := r.dumpDir);
    KeyWord("database");
    KeyWord("dump_dir");
    KeyWord("prefix");
    TrimIdle(r.database);
    TrimIdle(r.dumpDir);
    TrimIdle(r.prefix);
    TakesOne(d, "database", r.database, ReadSet);
    TakesOne(e, "dump_dir", r.dumpDir, ReadSet);
    TakesOne(f, "prefix", r.prefix, ReadSet);
    Then(d, [Pair("database", r.database)], ReadSet, e, [Pair("dump_dir", r.dumpDir)], f);
    Then(d, [Pair("database", r.database)] + [Pair("dump_dir", r.dumpDir)], ReadSet, f, [Pair("prefix", r.prefix)], AfterNames(d, r));
  }

  lemma SetTakes(d: Doc, r: Roster)
    requires IsRoster(r)
    ensures Takes(d, SetBody(r), ReadSet, AfterNames(d, r))
  {
    hide Takes, ReadSet, NameLines, SchemaLines, FilesFound, IsText, IsLayout, AreOneLine;
    var e := AfterNames(d, r);
    NamesTake(d, r);
    SchemaTakes(e, r.schema);
    FilesTake(e, r);
    Then(d, NameLines(r), ReadSet, e, SchemaLines(r.schema), e);
    Then(d, NameLines(r) + SchemaLines(r.schema), ReadSet, e, FilesFound(r), e);
  }

  // ----- the sections -----

  /** What the printer can carry: identifiers of the format, prose on one line. */
  ghost predicate IsInput(m: Input) {
    && OneLine(m.created) && IsRoster(m.roster) && IsPlan(m.plan)
    && (m.graph.Some? ==> IsGraph(m.graph.value))
    && (m.strip.Some? ==> forall x :: x in m.strip.value ==> IsKeyed(x))
    && (m.load.Some? ==> forall f :: f in m.load.value.files ==> IsFile(f))
    && (m.rebuild.Some? ==> IsRebuild(m.rebuild.value))
    && (m.validate.Some? ==> IsValidation(m.validate.value))
    && (m.fkdefine.Some? ==> IsFkRecord(m.fkdefine.value))
    && (m.stats.Some? ==> forall f :: f in m.stats.value.failed ==> IsFailure(f))
    && (m.triggers.Some? ==> IsFileName(m.triggers.value.file))
  }

  /** The document after an optional section that comes back as `back` says. */
  function AfterMaybe<T, R>(d: Doc, p: Section, x: Option<T>, upd: (Doc, R) -> Doc, back: T -> R): Doc {
    if x.Some? then upd(Entered(d, p), back(x.value)) else d
  }

  ghost predicate MaybeTakes<T, R(!new)>(r: R, x: Option<T>, body: T -> seq<Line>, read: (R, string, string) -> R, back: T -> R) {
    x.Some? ==> Takes(r, body(x.value), read, back(x.value))
  }

  lemma MaybeReads<T, R(!new)>(d: Doc, p: Section, x: Option<T>, body: T -> seq<Line>, read: (R, string, string) -> R,
                               get: Doc -> R, upd: (Doc, R) -> Doc, back: T -> R)
    requires p != Start && p != Unknown && p != PhasePart && IsPart(p, read, get, upd)
    requires MaybeTakes(get(Entered(d, p)), x, body, read, back)
    ensures Reads(d, Maybe(p, x, body), AfterMaybe(d, p, x, upd, back))
  {
    hide Reads, Part, Takes, IsPart, Entered;
    if x.Some? { SectionReads(d, p, body(x.value), read, get, upd, back(x.value)); } else { ReadsNothing(d); }
  }

  function GetGraph(d: Doc): Graph { d.graph }

  function SetGraph(d: Doc, g: Graph): Doc { d.(graph := g) }

  function GetStrip(d: Doc): seq<Stripped> { d.strip }

  function SetStrip(d: Doc, s: seq<Stripped>): Doc { d.(strip := s) }

  function GetLoad(d: Doc): Load { d.load }

  function SetLoad(d: Doc, l: Load): Doc { d.(load := l) }

  function GetRebuild(d: Doc): Rebuild.Summary { d.rebuild }

  function SetRebuild(d: Doc, r: Rebuild.Summary): Doc { d.(rebuild := r) }

  function GetValidate(d: Doc): Validation { d.validate }

  function SetValidate(d: Doc, v: Validation): Doc { d.(validate := v) }

  function GetFk(d: Doc): FkRecord { d.fkdefine }

  function SetFk(d: Doc, f: FkRecord): Doc { d.(fkdefine := f) }

  function GetStats(d: Doc): Stats { d.stats }

  function SetStats(d: Doc, s: Stats): Doc { d.(stats := s) }

  function GetTriggers(d: Doc): TriggerRecord { d.triggers }

  function SetTriggers(d: Doc, t: TriggerRecord): Doc { d.(triggers := t) }

  function GetLevels(d: Doc): seq<seq<string>> { d.levels }

  function SetLevels(d: Doc, l: seq<seq<string>>): Doc { d.(levels := l) }

  function Same<T>(x: T): T { x }

  /** The names are kept in the document itself. */
  function Replace(d: Doc, e: Doc): Doc { e }

  lemma FirstAreParts()
    ensures IsPart(SetPart, ReadSet, Same, Replace) && IsPart(PlanPart, ReadPlan, GetLevels, SetLevels)
  {
    hide ReadPlan, ReadGraph, ReadStrip, ReadStats, Number, ReadRebuild, PhaseNamed;
  }

  lemma EarlyAreParts()
    ensures IsPart(GraphPart, ReadGraph, GetGraph, SetGraph) && IsPart(StripPart, ReadStrip, GetStrip, SetStrip)
    ensures IsPart(LoadPart, ReadLoad, GetLoad, SetLoad) && IsPart(RebuildPart, ReadRebuild, GetRebuild, SetRebuild)
  {
    hide ReadGraph, ReadStrip, ReadLoad, ReadRebuild, Number, ReadSet, ReadTriggers, PhaseNamed;
  }

  lemma LateAreParts()
    ensures IsPart(ValidatePart, ReadValidate, GetValidate, SetValidate) && IsPart(FkPart, ReadFk, GetFk, SetFk)
    ensures IsPart(StatsPart, ReadStats, GetStats, SetStats) && IsPart(TriggerPart, ReadTriggers, GetTriggers, SetTriggers)
  {
    hide ReadValidate, ReadFk, ReadStats, ReadTriggers, Number, ReadPlan, ReadGraph, ReadLoad;
  }

  function AfterEarly(d: Doc, m: Input): Doc {
    AfterMaybe(AfterMaybe(AfterMaybe(AfterMaybe(d, GraphPart, m.graph, SetGraph, WithoutDatabase), StripPart, m.strip, SetStrip, Same),
                          LoadPart, m.load, SetLoad, Same), RebuildPart, m.rebuild, SetRebuild, RebuildBack)
  }

  function AfterLate(d: Doc, m: Input): Doc {
    AfterMaybe(AfterMaybe(AfterMaybe(AfterMaybe(d, ValidatePart, m.validate, SetValidate, ValidateBack), FkPart, m.fkdefine, SetFk, Same),
                          StatsPart, m.stats, SetStats, Same), TriggerPart, m.triggers, SetTriggers, Same)
  }

  lemma EarlyRead(d: Doc, m: Input)
    requires d.graph == NO_GRAPH && d.strip == [] && d.load == EMPTY_LOAD && d.rebuild == Rebuild.EMPTY
    requires IsInput(m)
    ensures Reads(d, EarlySections(m), AfterEarly(d, m))
  {
    hide Reads, Maybe, Takes, IsPart, ReadGraph, ReadStrip, ReadLoad, ReadRebuild, IsRoster, IsPlan, IsGraph, IsKeyed,
         IsFile, IsRebuild, IsValidation, IsFkRecord, IsFailure, IsFileName, GraphBody, StripBody, LoadBody, RebuildBody,
         RebuildBack, WithoutDatabase, SetRebuild;
    EarlyAreParts();
    var a, b := Maybe(GraphPart, m.graph, GraphBody), Maybe(StripPart, m.strip, StripBody);
    var c, e := Maybe(LoadPart, m.load, LoadBody), Maybe(RebuildPart, m.rebuild, RebuildBody);
    var d1 := AfterMaybe(d, GraphPart, m.graph, SetGraph, WithoutDatabase);
    var d2 := AfterMaybe(d1, StripPart, m.strip, SetStrip, Same);
    var d3 := AfterMaybe(d2, LoadPart, m.load, SetLoad, Same);
    if m.graph.Some? { GraphReads(m.graph.value); }
    if m.strip.Some? { StripReads(m.strip.value); }
    if m.load.Some? { LoadReads(m.load.value); }
    if m.rebuild.Some? { RebuildReads(m.rebuild.value); }
    MaybeReads(d, GraphPart, m.graph, GraphBody, ReadGraph, GetGraph, SetGraph, WithoutDatabase);
    MaybeReads(d1, StripPart, m.strip, StripBody, ReadStrip, GetStrip, SetStrip, Same);
    MaybeReads(d2, LoadPart, m.load, LoadBody, ReadLoad, GetLoad, SetLoad, Same);
    MaybeReads(d3, RebuildPart, m.rebuild, RebuildBody, ReadRebuild, GetRebuild, SetRebuild, RebuildBack);
    Onward(d, a, d1, b, d2);
    Onward(d, a + b, d2, c, d3);
    Onward(d, a + b + c, d3, e, AfterEarly(d, m));
  }

  lemma LateRead(d: Doc, m: Input)
    requires d.validate == EMPTY_VALIDATION && d.fkdefine == NO_FK && d.stats == NO_STATS && d.triggers == NO_TRIGGERS && IsInput(m)
    ensures Reads(d, LateSections(m), AfterLate(d, m))
  {
    hide Reads, Maybe, Takes, IsPart, ReadValidate, ReadFk, ReadStats, ReadTriggers, IsRoster, IsPlan, IsGraph, IsKeyed, IsFile, IsRebuild,
      IsValidation, IsFkRecord, IsFailure, IsFileName, ValidateBody, FkBody, StatsBody, TriggerBody, ValidateBack;
    LateAreParts();
    var a, b := Maybe(ValidatePart, m.validate, ValidateBody), Maybe(FkPart, m.fkdefine, FkBody);
    var c, e := Maybe(StatsPart, m.stats, StatsBody), Maybe(TriggerPart, m.triggers, TriggerBody);
    var d1 := AfterMaybe(d, ValidatePart, m.validate, SetValidate, ValidateBack);
    var d2 := AfterMaybe(d1, FkPart, m.fkdefine, SetFk, Same);
    var d3 := AfterMaybe(d2, StatsPart, m.stats, SetStats, Same);
    if m.validate.Some? { ValidateReads(m.validate.value); }
    if m.fkdefine.Some? { FkReads(m.fkdefine.value); }
    if m.stats.Some? { StatsReads(m.stats.value); }
    if m.triggers.Some? { TriggerReads(m.triggers.value); }
    MaybeReads(d, ValidatePart, m.validate, ValidateBody, ReadValidate, GetValidate, SetValidate, ValidateBack);
    MaybeReads(d1, FkPart, m.fkdefine, FkBody, ReadFk, GetFk, SetFk, Same);
    MaybeReads(d2, StatsPart, m.stats, StatsBody, ReadStats, GetStats, SetStats, Same);
    MaybeReads(d3, TriggerPart, m.triggers, TriggerBody, ReadTriggers, GetTriggers, SetTriggers, Same);
    Onward(d, a, d1, b, d2);
    Onward(d, a + b, d2, c, d3);
    Onward(d, a + b + c, d3, e, AfterLate(d, m));
  }

  /** The state in which the sections of the records are met. */
  function AfterSet(m: Input): Doc { AfterNames(Entered(BLANK.(version := 3), SetPart), m.roster) }

  function AfterPlan(m: Input): Doc { Entered(AfterSet(m), PlanPart).(levels := LevelsOf(m.plan)) }

  /** The state in which the last section is met. */
  function AfterHead(m: Input): Doc { AfterLate(AfterEarly(AfterPlan(m), m), m) }

  lemma StartRead(m: Input)
    requires IsInput(m)
    ensures Reads(BLANK, Preamble(m.created) + Part(SetPart, SetBody(m.roster)) + Part(PlanPart, PlanBody(m.plan)), AfterPlan(m))
  {
    hide Reads, Preamble, Part, Takes, IsPart, SetBody, PlanBody, ReadSet, ReadPlan, IsRoster, IsPlan, IsGraph, IsKeyed, IsFile, IsRebuild,
      IsValidation, IsFkRecord, IsFailure, IsFileName;
    FirstAreParts();
    var d1 := BLANK.(version := 3);
    var d2 := AfterSet(m);
    PreambleReads(BLANK, m.created);
    SetTakes(Entered(d1, SetPart), m.roster);
    SectionReads(d1, SetPart, SetBody(m.roster), ReadSet, Same, Replace, d2);
    PlanReads(m.plan);
    SectionReads(d2, PlanPart, PlanBody(m.plan), ReadPlan, GetLevels, SetLevels, LevelsOf(m.plan));
    Onward(BLANK, Preamble(m.created), d1, Part(SetPart, SetBody(m.roster)), d2);
    Onward(BLANK, Preamble(m.created) + Part(SetPart, SetBody(m.roster)), d2, Part(PlanPart, PlanBody(m.plan)), AfterPlan(m));
  }

  lemma EarlyKeepsLate(d: Doc, m: Input)
    ensures var e := AfterEarly(d, m);
      && e.validate == d.validate && e.fkdefine == d.fkdefine && e.stats == d.stats && e.triggers == d.triggers
  {
    hide WithoutDatabase;
  }

  lemma HeadRead(m: Input)
    requires IsInput(m)
    ensures Reads(BLANK, Head(m), AfterHead(m))
  {
    hide Reads, Preamble, Part, SetBody, PlanBody, EarlySections, LateSections, AfterEarly, AfterLate, IsInput;
    var start := Preamble(m.created) + Part(SetPart, SetBody(m.roster)) + Part(PlanPart, PlanBody(m.plan));
    var d := AfterPlan(m);
    var e := AfterEarly(d, m);
    StartRead(m);
    EarlyRead(d, m);
    EarlyKeepsLate(d, m);
    LateRead(e, m);
    Onward(BLANK, start, d, EarlySections(m), e);
    Onward(BLANK, start + EarlySections(m), e, LateSections(m), AfterLate(e, m));
  }

  // ----- [phases] -----

  lemma {:induction false} PhaseReads(i: nat, r: Reached)
    requires i <= r
    ensures PhaseOf(PhaseName(r), i) == Some(r)
    decreases r - i
  {
    if i < r {
      PhaseReads(i + 1, r);
    }
  }

  lemma PhaseKey(i: Reached)
    ensures IsKey(PhaseName(i)) && OneLine(PhaseName(i)) && Trimmed(PhaseName(i)) && PhaseName(i) != "current"
    ensures PhaseName(i) != "" && forall c :: c in PhaseName(i) ==> !Blank(c)
  {
    hide PhaseName;
    PhaseWord(i);
    KeyWord(PhaseName(i));
  }

  lemma PhaseWord(i: Reached)
    ensures IsKeyWord(PhaseName(i)) && PhaseName(i) != "current"
  {
  }

  /** What the reader makes of a pair in the last section. */
  lemma InPhases(d: Doc, k: string, v: string)
    requires d.part == PhasePart
    ensures ReadItem(d, Pair(k, v)) == if k == "current" && PhaseNamed(v).Some? then d.(reached := PhaseNamed(v)) else d
  {
    hide PhaseNamed, SectionOf, ReadSet, ReadPlan, ReadGraph, ReadStrip, ReadLoad, ReadRebuild, ReadValidate, ReadFk, ReadStats,
         ReadTriggers, Number;
  }

  lemma CurrentReads(d: Doc, r: Reached)
    requires d.part == PhasePart
    ensures ReadItem(d, Kept(Pair("current", PhaseName(r)))) == d.(reached := Some(r))
    ensures WellFormed(Pair("current", PhaseName(r)))
  {
    hide Trim, PhaseOf, PhaseName, IsKey, IsKeyWord, ReadItem;
    KeyWord("current");
    PhaseKey(r);
    PhaseReads(0, r);
    TrimIdle(PhaseName(r));
    InPhases(d, "current", PhaseName(r));
  }

  ghost predicate IsPhaseLine(l: Line) {
    l.Pair? && (exists i: Reached :: l.key == PhaseName(i)) && (l.value == "complete" || l.value == "pending")
  }

  lemma {:induction false} PhaseLinesAre(i: nat, r: nat)
    ensures forall l :: l in PhaseLines(i, r) ==> IsPhaseLine(l)
    decreases |PHASES| - i
  {
    if i < |PHASES| {
      assert PhaseLine(i, r).key == PhaseName(i);
      PhaseLinesAre(i + 1, r);
    }
  }

  lemma PhaseLineIdle(d: Doc, l: Line)
    requires d.part == PhasePart && IsPhaseLine(l)
    ensures ReadItem(d, Kept(l)) == d && WellFormed(l)
  {
    hide Trim, PhaseNamed, PhaseName, IsKey, OneLine, ReadItem, Trimmed;
    InPhases(d, l.key, Trim(l.value));
    var i: Reached :| l.key == PhaseName(i);
    PhaseKey(i);
  }

  lemma {:induction false} PhaseLinesIdle(d: Doc, lines: seq<Line>)
    requires d.part == PhasePart && forall l :: l in lines ==> IsPhaseLine(l)
    ensures Apply(d, lines) == d && forall l :: l in lines ==> WellFormed(l)
    decreases |lines|
  {
    hide ReadItem, IsPhaseLine, Kept, WellFormed;
    if lines != [] {
      assert lines[0] in lines;
      PhaseLineIdle(d, lines[0]);
      PhaseLinesIdle(d, lines[1..]);
    }
  }

  lemma PhasesRead(d: Doc, r: Reached)
    ensures Apply(d, PhaseSection(r)) == Entered(d, PhasePart).(reached := Some(r))
    ensures forall l :: l in PhaseSection(r) ==> WellFormed(l)
  {
    hide ReadItem, Kept, WellFormed, NameOf, PhaseLines, IsPhaseLine, Apply, PhaseName;
    var a, b, c := [Header(NameOf(PhasePart))], [Pair("current", PhaseName(r))], PhaseLines(0, r);
    var e := Entered(d, PhasePart);
    EnterPhases(d);
    ApplyOne(d, Header(NameOf(PhasePart)));
    CurrentReads(e, r);
    ApplyOne(e, Pair("current", PhaseName(r)));
    PhaseLinesAre(0, r);
    PhaseLinesIdle(e.(reached := Some(r)), c);
    ApplyConcat(d, a, b);
    ApplyConcat(d, a + b, c);
  }

  lemma ApplyOne(d: Doc, l: Line)
    ensures Apply(d, [l]) == ReadItem(d, Kept(l))
  {
    hide ReadItem, Kept;
    assert [l][1..] == [] && Apply(ReadItem(d, Kept(l)), []) == ReadItem(d, Kept(l));
  }

  lemma EnterPhases(d: Doc)
    ensures ReadItem(d, Kept(Header(NameOf(PhasePart)))) == Entered(d, PhasePart) && WellFormed(Header(NameOf(PhasePart)))
  {
    hide SectionOf, NameOf, WellFormed, ReadPair, Trim;
    SectionNames(PhasePart);
  }

  // ----- the whole file -----

  function Whole(m: Input): Doc { Entered(AfterHead(m), PhasePart).(reached := Some(m.reached)) }

  lemma WholeRead(m: Input)
    requires IsInput(m)
    ensures Apply(BLANK, Lines(m)) == Whole(m) && forall l :: l in Lines(m) ==> WellFormed(l)
  {
    hide Head, PhaseSection, AfterHead, IsInput, Apply, WellFormed, Calm, BLANK;
    HeadRead(m);
    PhasesRead(AfterHead(m), m.reached);
    ApplyConcat(BLANK, Head(m), PhaseSection(m.reached));
  }

  function EarlyParts(m: Input): set<Section> {
    (if m.graph.Some? then {GraphPart} else {}) + (if m.strip.Some? then {StripPart} else {})
    + (if m.load.Some? then {LoadPart} else {}) + (if m.rebuild.Some? then {RebuildPart} else {})
  }

  function LateParts(m: Input): set<Section> {
    (if m.validate.Some? then {ValidatePart} else {}) + (if m.fkdefine.Some? then {FkPart} else {})
    + (if m.stats.Some? then {StatsPart} else {}) + (if m.triggers.Some? then {TriggerPart} else {})
  }

  /** The sections a file holds. */
  function SectionsOf(m: Input): set<Section> { {SetPart, PlanPart, PhasePart} + EarlyParts(m) + LateParts(m) }

  /** The manifest as it comes back: everything as it was, but for the re-add statement of a
      pending key, the tallies of the re-validation and the graph's database. */
  function Back(m: Input): Doc {
    Doc(PhasePart, SectionsOf(m), 3, m.roster.database, m.roster.dumpDir, m.roster.prefix, Some(m.reached),
        (if m.graph.Some? then m.graph.value else NO_GRAPH).(database := m.roster.database),
        LevelsOf(m.plan), if m.strip.Some? then m.strip.value else [], if m.load.Some? then m.load.value else EMPTY_LOAD,
        if m.rebuild.Some? then RebuildBack(m.rebuild.value) else Rebuild.EMPTY,
        if m.validate.Some? then ValidateBack(m.validate.value) else EMPTY_VALIDATION,
        if m.fkdefine.Some? then m.fkdefine.value else NO_FK,
        if m.stats.Some? then m.stats.value else NO_STATS,
        if m.triggers.Some? then m.triggers.value else NO_TRIGGERS)
  }

  lemma EarlyDoc(d: Doc, m: Input)
    requires d.graph == NO_GRAPH && d.strip == [] && d.load == EMPTY_LOAD && d.rebuild == Rebuild.EMPTY
    ensures AfterEarly(d, m) == d.(part := AfterEarly(d, m).part,
      has := d.has + EarlyParts(m),
      graph := if m.graph.Some? then m.graph.value.(database := "") else NO_GRAPH,
      strip := if m.strip.Some? then m.strip.value else [], load := if m.load.Some? then m.load.value else EMPTY_LOAD,
      rebuild := if m.rebuild.Some? then RebuildBack(m.rebuild.value) else Rebuild.EMPTY)
  {
    hide RebuildBack;
    assert AfterEarly(d, m).has == d.has + EarlyParts(m);
  }

  lemma LateDoc(d: Doc, m: Input)
    requires d.validate == EMPTY_VALIDATION && d.fkdefine == NO_FK && d.stats == NO_STATS && d.triggers == NO_TRIGGERS
    ensures AfterLate(d, m) == d.(part := AfterLate(d, m).part,
      has := d.has + LateParts(m),
      validate := if m.validate.Some? then ValidateBack(m.validate.value) else EMPTY_VALIDATION,
      fkdefine := if m.fkdefine.Some? then m.fkdefine.value else NO_FK,
      stats := if m.stats.Some? then m.stats.value else NO_STATS,
      triggers := if m.triggers.Some? then m.triggers.value else NO_TRIGGERS)
  {
    hide ValidateBack;
    assert AfterLate(d, m).has == d.has + LateParts(m);
  }

  lemma WholeIs(m: Input)
    ensures Finish(Whole(m)) == Back(m)
  {
    hide RebuildBack, ValidateBack, AfterEarly, AfterLate, EarlyParts, LateParts, LevelsOf;
    var d := AfterPlan(m);
    EarlyDoc(d, m);
    LateDoc(AfterEarly(d, m), m);
    assert {} + {SetPart} + {PlanPart} + EarlyParts(m) + LateParts(m) + {PhasePart} == SectionsOf(m);
  }

  /** Reading what was written gives back every record. */
  lemma RoundTrip(m: Input)
    requires IsInput(m)
    ensures Read(Render(m)) == Back(m)
  {
    hide Lines, Whole, Apply, WellFormed, IsInput, Finish, Back, BLANK, ReadAll, ReadLines, KeptLines, RenderLine;
    WholeRead(m);
    TextRoundTrip(Lines(m));
    ApplyIsReadAll(BLANK, Lines(m));
    WholeIs(m);
  }
}
