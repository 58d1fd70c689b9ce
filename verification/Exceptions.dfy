/** The exceptions artifact: everything from the section marker on belongs to the FK define
    phase and is replaced on every run. */
module Exceptions {
  import opened Schema
  import opened DdlText
  import FkDefine

  // Put together from short literals, whose characters the verifier can look through.
  const AFTER_HASH := " CUBRID importdb" + " FK define: the" + " following FK(s)" + " were NOT defined" + " (withheld)."
  const MARKER := "#" + AFTER_HASH
  const HINT := "# An operator repairs the referenced data, then re-runs each 'readd' statement to add the FK.\n"

  /** What precedes the marker. */
  function Kept(all: string): string {
    var at := Find(all, MARKER, 0);
    if at < 0 then all else all[..at]
  }

  /** One line of the repair record per withheld edge, and its statement. */
  function Entries(withheld: seq<FkDefine.Withheld>, reason: FkDefine.Cause -> string): string {
    if withheld == [] then ""
    else Entries(withheld[..|withheld| - 1], reason) + Entry(withheld[|withheld| - 1], reason)
  }

  function Entry(w: FkDefine.Withheld, reason: FkDefine.Cause -> string): string {
    "[fk-withheld] " + w.edge.child + " -> " + w.edge.parent + " (" + w.edge.name + ") :: " + reason(w.cause) + "\n"
    + "readd: " + w.readd + "\n"
  }

  function Section(withheld: seq<FkDefine.Withheld>, reason: FkDefine.Cause -> string): string {
    MARKER + "\n" + HINT + Entries(withheld, reason) + "\n"
  }

  /** The file after the phase has written its section; None is no file. */
  function Written(file: Option<string>, withheld: seq<FkDefine.Withheld>, reason: FkDefine.Cause -> string): string {
    Kept(if file.Some? then file.value else "") + Section(withheld, reason)
  }

  lemma {:induction false} EntryStands(withheld: seq<FkDefine.Withheld>, reason: FkDefine.Cause -> string, i: nat)
    returns (after: string)
    requires i < |withheld|
    ensures Entries(withheld, reason) == Entries(withheld[..i], reason) + Entry(withheld[i], reason) + after
  {
    hide Entry;
    var last := |withheld| - 1;
    after := "";
    if i < last {
      after := EntryStands(withheld[..last], reason, i);
      assert withheld[..last][..i] == withheld[..i];
      after := after + Entry(withheld[last], reason);
    }
  }

  /** Every withheld edge is in the file with its reason and its statement, in order. */
  lemma EntryIsWritten(withheld: seq<FkDefine.Withheld>, reason: FkDefine.Cause -> string, i: nat) returns (after: string)
    requires i < |withheld|
    ensures var w := withheld[i];
      Entries(withheld, reason) == Entries(withheld[..i], reason)
        + ("[fk-withheld] " + w.edge.child + " -> " + w.edge.parent + " (" + w.edge.name + ") :: " + reason(w.cause) + "\n"
           + "readd: " + w.readd + "\n")
        + after
  {
    hide Entries;
    after := EntryStands(withheld, reason, i);
  }

  method WriteEntries(withheld: seq<FkDefine.Withheld>, reason: FkDefine.Cause -> string) returns (text: string)
    ensures text == Entries(withheld, reason)
  {
    hide Entry;
    text := "";
    for i := 0 to |withheld|
      invariant text == Entries(withheld[..i], reason)
    {
      assert withheld[..i + 1][..i] == withheld[..i];
      text := text + Entry(withheld[i], reason);
    }
    assert withheld[..|withheld|] == withheld;
  }

  method WriteWithheldExceptions(file: Option<string>, withheld: seq<FkDefine.Withheld>, reason: FkDefine.Cause -> string)
    returns (content: string)
    ensures content == Written(file, withheld, reason)
  {
    hide Find, Entries;
    var kept := "";
    if file.Some? {
      var marker := Find(file.value, MARKER, 0);
      kept := if marker < 0 then file.value else file.value[..marker];
    } else {
    }
    var entries := WriteEntries(withheld, reason);
    content := kept + (MARKER + "\n" + HINT + entries + "\n");
  }

  /** The marker cannot overlap itself: after a prefix that holds none it is found at once. */
  lemma MarkerIsFound(kept: string, rest: string)
    requires Find(kept, MARKER, 0) < 0
    ensures Kept(kept + MARKER + rest) == kept
  {
    hide Find;
    var all := kept + MARKER + rest;
    FindIsFirst(kept, MARKER, 0);
    FindIsFirst(all, MARKER, 0);
    assert At(all, |kept|, MARKER) by { assert all[|kept|..][..|MARKER|] == MARKER; }
    forall j | 0 <= j < |kept| ensures !At(all, j, MARKER) {
      NotBefore(kept, rest, j);
    }
  }

  lemma NotBefore(kept: string, rest: string, j: nat)
    requires j < |kept| && !At(kept, j, MARKER)
    ensures !At(kept + MARKER + rest, j, MARKER)
  {
    var all := kept + MARKER + rest;
    if j + |MARKER| <= |kept| {
      assert all[j..j + |MARKER|] == kept[j..j + |MARKER|];
    } else {
      assert MARKER[(|kept| - j)] != '#';
      assert all[|kept|] == MARKER[0];
    }
  }

  lemma KeptHoldsNone(all: string)
    ensures Find(Kept(all), MARKER, 0) < 0
  {
    hide Find, MARKER;
    FindIsFirst(Kept(all), MARKER, 0);
    forall j: nat ensures !At(Kept(all), j, MARKER) {
      FindIsFirst(all, MARKER, 0);
      var at := Find(all, MARKER, 0);
      if j + |MARKER| <= |Kept(all)| {
        assert Kept(all) == all[..|Kept(all)|];
        MarkerIsSomething();
        assert at < 0 || j < at;
        assert !At(all, j, MARKER);
      }
    }
  }

  lemma MarkerIsSomething()
    ensures MARKER != ""
  {
  }

  /** Whatever the file held before, writing the section for `first` and then for `second`
      leaves what writing only `second` leaves. */
  lemma WritingIsIdempotent(file: Option<string>, first: seq<FkDefine.Withheld>, second: seq<FkDefine.Withheld>,
                            reason: FkDefine.Cause -> string)
    ensures Written(Some(Written(file, first, reason)), second, reason) == Written(file, second, reason)
  {
    hide Kept, Entries, MARKER, Find;
    var kept := Kept(if file.Some? then file.value else "");
    var rest := "\n" + HINT + Entries(first, reason) + "\n";
    KeptHoldsNone(if file.Some? then file.value else "");
    MarkerIsFound(kept, rest);
    assert Written(file, first, reason) == kept + MARKER + rest;
  }
}
