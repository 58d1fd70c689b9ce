/** The database server seen through the statements the pipeline sends: a catalog of
    (class, constraint) entries, statements that either apply whole or leave no trace,
    and one deterministic verdict per ADD statement over the loaded rows. A constraint
    added or dropped on a class is added or dropped on its whole inheritance family. */
module Engine {
  import opened Schema
  import opened Inheritance
  import DdlText

  /** What the server says of an ADD over the current rows. A rejected foreign key comes
      with its orphan rows, or with `None` when listing them failed. */
  datatype Verdict = Accept | FkInvalid(orphans: Option<seq<string>>) | Refuse(reason: string)

  datatype Engine = Engine(family: Key -> set<Key>, refs: seq<FkEdge>, verdict: string -> Verdict)

  /** `k` and its copies on every descendant class. */
  ghost function Family(inh: seq<InheritEdge>, k: Key): set<Key> {
    {k} + set e | e in inh && Ancestor(inh, e.child, k.cls) :: Key(e.child, k.name)
  }

  ghost predicate Inherits(eng: Engine, inh: seq<InheritEdge>) {
    forall k :: eng.family(k) == Family(inh, k)
  }

  const ALREADY_EXISTS := "already exists"

  // ----- DROP -----

  /** A constraint is dropped on its owner only, and a key not while a foreign key refers
      to a class of its family. */
  predicate DropAccepted(eng: Engine, cat: set<Key>, c: Stripped) {
    && c.key in cat
    && (forall x :: x in cat && x != c.key ==> c.key !in eng.family(x))
    && (!c.kind.ForeignKey? ==>
          forall e :: e in eng.refs && e.Id() in cat ==>
            forall x :: x in eng.family(c.key) ==> x.cls != e.parent)
  }

  function AfterDrop(eng: Engine, cat: set<Key>, c: Stripped): set<Key> {
    cat - eng.family(c.key)
  }

  // ----- ADD -----

  function Families(eng: Engine, cls: string, names: seq<string>): set<Key> {
    if names == [] then {} else Families(eng, cls, names[..|names| - 1]) + eng.family(Key(cls, names[|names| - 1]))
  }

  lemma FamiliesAre(eng: Engine, cls: string, names: seq<string>)
    ensures forall x :: x in Families(eng, cls, names) <==> exists n :: n in names && x in eng.family(Key(cls, n))
  {
    if names != [] {
      var init, last := names[..|names| - 1], names[|names| - 1];
      assert names == init + [last];
      FamiliesAre(eng, cls, init);
    }
  }

  predicate AnyPresent(cat: set<Key>, cls: string, names: seq<string>) {
    exists n :: n in names && Key(cls, n) in cat
  }

  /** The rows' verdict, and after it the catalog's: a name already there is refused. */
  function Judge(eng: Engine, cat: set<Key>, cls: string, names: seq<string>, text: string): Verdict {
    var v := eng.verdict(text);
    if v.Accept? && AnyPresent(cat, cls, names) then Refuse(ALREADY_EXISTS) else v
  }

  function AfterAdd(eng: Engine, cat: set<Key>, cls: string, names: seq<string>, text: string): set<Key> {
    if Judge(eng, cat, cls, names, text).Accept? then cat + Families(eng, cls, names) else cat
  }

  /** ADD CONSTRAINT: the class and names are those the text carries. */
  function JudgeAdd(eng: Engine, cat: set<Key>, text: string): Verdict {
    Judge(eng, cat, DdlText.ClassOf(text), DdlText.NamesOf(text), text)
  }

  function AfterAddText(eng: Engine, cat: set<Key>, text: string): set<Key> {
    AfterAdd(eng, cat, DdlText.ClassOf(text), DdlText.NamesOf(text), text)
  }

  /** CREATE INDEX. */
  function JudgeIndex(eng: Engine, cat: set<Key>, text: string): Verdict {
    Judge(eng, cat, DdlText.IndexClass(text), [DdlText.IndexName(text)], text)
  }

  function AfterIndex(eng: Engine, cat: set<Key>, text: string): set<Key> {
    AfterAdd(eng, cat, DdlText.IndexClass(text), [DdlText.IndexName(text)], text)
  }

  /** The open connection: the catalog as this transaction sees it. */
  class Session {
    const eng: Engine
    var catalog: set<Key>

    constructor (eng: Engine, catalog: set<Key>)
      ensures this.eng == eng && this.catalog == catalog
    {
      this.eng := eng;
      this.catalog := catalog;
    }

    method Drop(c: Stripped) returns (ok: bool)
      modifies this
      ensures ok == DropAccepted(eng, old(catalog), c)
      ensures catalog == if ok then AfterDrop(eng, old(catalog), c) else old(catalog)
    {
      ok := DropAccepted(eng, catalog, c);
      if ok {
        catalog := AfterDrop(eng, catalog, c);
      }
    }

    method Add(text: string) returns (v: Verdict)
      modifies this
      ensures v == JudgeAdd(eng, old(catalog), text)
      ensures catalog == AfterAddText(eng, old(catalog), text)
    {
      hide AfterAddText, Judge;
      v := JudgeAdd(eng, catalog, text);
      catalog := AfterAddText(eng, catalog, text);
    }

    method CreateIndex(text: string) returns (v: Verdict)
      modifies this
      ensures v == JudgeIndex(eng, old(catalog), text)
      ensures catalog == AfterIndex(eng, old(catalog), text)
    {
      v := JudgeIndex(eng, catalog, text);
      catalog := AfterIndex(eng, catalog, text);
    }
  }
}
