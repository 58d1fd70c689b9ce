/** The rostered dump directory: which files each phase reads, in which order. */
module Dump {
  import opened Schema
  import DdlText

  datatype ImportSet = ImportSet(database: string, prefix: string, split: bool, schemaFile: string,
                                 applyOrder: seq<string>, indexFile: string, triggerFile: string,
                                 perClass: bool, objectFiles: seq<string>)

  /** The readable files of the dump directory. */
  type Files = map<string, string>

  predicate EndsWith(s: string, suffix: string) {
    |s| >= |suffix| && s[|s| - |suffix|..] == suffix
  }

  function Ending(names: seq<string>, suffix: string): seq<string> {
    if names == [] then []
    else Ending(names[..|names| - 1], suffix) + if EndsWith(names[|names| - 1], suffix) then [names[|names| - 1]] else []
  }

  /** PRIMARY KEY sources before UNIQUE ones; an unsplit dump has the one schema file. */
  function KeyFiles(roster: ImportSet): seq<string> {
    if roster.split then Ending(roster.applyOrder, "_schema_pk") + Ending(roster.applyOrder, "_schema_uk")
    else [roster.schemaFile]
  }

  function FkFiles(roster: ImportSet): seq<string> {
    if roster.split then Ending(roster.applyOrder, "_schema_fk") else [roster.schemaFile]
  }

  /** The statements of `names` in order, or None when one of them cannot be read. */
  function StatementsOf(files: Files, names: seq<string>): Option<seq<string>> {
    if names == [] then Some([])
    else
      var last := names[|names| - 1];
      match StatementsOf(files, names[..|names| - 1])
      case None => None
      case Some(init) =>
        if last in files then Some(init + DdlText.Statements(files[last], 0)) else None
  }

  lemma NextFile(files: Files, names: seq<string>, i: nat)
    requires i < |names| && StatementsOf(files, names[..i]).Some?
    ensures StatementsOf(files, names[..i + 1]) == if names[i] !in files then None
      else Some(StatementsOf(files, names[..i]).value + DdlText.Statements(files[names[i]], 0))
  {
    assert names[..i + 1][..i] == names[..i];
  }

  /** Files one after the other give their statements one after the other. */
  lemma {:induction false} StatementsInOrder(files: Files, a: seq<string>, b: seq<string>)
    ensures StatementsOf(files, a + b) ==
      match StatementsOf(files, a)
      case None => None
      case Some(x) => match StatementsOf(files, b) case None => None case Some(y) => Some(x + y)
  {
    hide DdlText.Statements;
    if b == [] {
      assert a + b == a;
      assert StatementsOf(files, a).Some? ==> StatementsOf(files, a).value + [] == StatementsOf(files, a).value;
    } else {
      var init, last := b[..|b| - 1], b[|b| - 1];
      assert (a + b)[..|a + b| - 1] == a + init;
      StatementsInOrder(files, a, init);
      if StatementsOf(files, a).Some? && StatementsOf(files, b).Some? {
        DdlText.Associative(StatementsOf(files, a).value, StatementsOf(files, init).value, DdlText.Statements(files[last], 0));
      }
    }
  }

  /** One file gives its statements, when it can be read. */
  lemma OneFile(files: Files, name: string)
    ensures StatementsOf(files, [name]) == if name in files then Some(DdlText.Statements(files[name], 0)) else None
  {
    assert [name][..0] == [] && (name in files ==> [] + DdlText.Statements(files[name], 0) == DdlText.Statements(files[name], 0));
  }

  lemma UnreadableStays(files: Files, names: seq<string>, k: nat)
    requires k <= |names| && StatementsOf(files, names[..k]).None?
    ensures StatementsOf(files, names).None?
    decreases |names| - k
  {
    if k < |names| {
      assert names[..k + 1][..k] == names[..k];
      UnreadableStays(files, names, k + 1);
    } else {
      assert names[..k] == names;
    }
  }
}
