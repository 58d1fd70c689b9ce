/** Writing the manifest crash-safely: a temporary file, synced, then renamed over the old one. */
module AtomicWrite {
  import opened Schema

  /** What the kernel holds of a file; without a sync a crash may lose the end of it. */
  datatype File = File(data: string, synced: bool)

  type Files = map<string, File>

  /** What may be found at `path` after a crash. */
  predicate CrashLeaves(files: Files, path: string, found: Option<string>) {
    if path !in files then found == None
    else if files[path].synced then found == Some(files[path].data)
    else found.Some? && found.value <= files[path].data
  }

  function Holds(files: Files, path: string): Option<string> { if path in files then Some(files[path].data) else None }

  /** Dying here leaves the old file or the new one, complete. */
  ghost predicate OldOrNew(files: Files, path: string, before: Option<string>, content: string) {
    forall found :: CrashLeaves(files, path, found) ==> found == before || found == Some(content)
  }

  /** How the system answers the next call; when no answer is left the process has died. */
  datatype Answer = Good(n: nat) | Interrupted | Bad

  datatype Outcome = Written | Failed | Killed

  /** Only `tmp` differs. */
  predicate SameBut(a: Files, b: Files, tmp: string) { a - {tmp} == b - {tmp} }

  /** The trace grew by states that differ from `base` in `tmp` alone. */
  ghost predicate Scratch(was: seq<Files>, now: seq<Files>, base: Files, tmp: string) {
    && was <= now && forall i :: |was| <= i < |now| ==> SameBut(now[i], base, tmp)
  }

  /** Until the rename the old file stands, whatever becomes of the temporary one. */
  lemma OldStands(now: Files, base: Files, tmp: string, path: string, content: string)
    requires SameBut(now, base, tmp) && path != tmp && (path in base ==> base[path].synced)
    ensures OldOrNew(now, path, Holds(base, path), content)
  {
    assert path in now - {tmp} <==> path in base - {tmp};
    if path in now { assert (now - {tmp})[path] == (base - {tmp})[path]; }
  }

  lemma OthersStand(now: Files, base: Files, tmp: string, path: string)
    requires SameBut(now, base, tmp)
    ensures SameBut(now - {path}, base - {path}, tmp)
  {
    assert now - {path} - {tmp} == now - {tmp} - {path} && base - {path} - {tmp} == base - {tmp} - {path};
  }

  /** Renamed before it was synced, the new file could be found in part. */
  lemma UnsyncedMayTear(files: Files, path: string, content: string)
    requires path in files && files[path] == File(content, false) && content != ""
    ensures exists found :: CrashLeaves(files, path, Some(found)) && found != content
  {
    assert CrashLeaves(files, path, Some(""));
  }

  class Disk {
    var files: Files
    /** Every state the disk went through. */
    ghost var trace: seq<Files>

    constructor (files: Files)
      ensures this.files == files && trace == [files]
    {
      this.files := files;
      trace := [files];
    }

    method Put(path: string, f: File)
      modifies this
      ensures files == old(files)[path := f] && trace == old(trace) + [files]
    {
      files := files[path := f];
      trace := trace + [files];
    }

    method Unlink(path: string)
      modifies this
      ensures files == old(files) - {path} && trace == old(trace) + [files]
    {
      files := files - {path};
      trace := trace + [files];
    }

    method Rename(from: string, to: string)
      requires from in files && from != to
      modifies this
      ensures files == old(files)[to := old(files)[from]] - {from} && trace == old(trace) + [files]
    {
      files := files[to := files[from]] - {from};
      trace := trace + [files];
    }

    /** The write loop: a short count goes on where it stopped, an interrupted call is repeated. */
    method WriteAll(tmp: string, content: string, answers: seq<Answer>, start: nat) returns (r: Outcome, next: nat)
      requires tmp in files && files[tmp] == File("", false) && start <= |answers|
      modifies this
      ensures SameBut(files, old(files), tmp) && tmp in files && start <= next <= |answers|
      ensures r == Written ==> files[tmp] == File(content, false)
      ensures Scratch(old(trace), trace, old(files), tmp)
    {
      next := start;
      var done := 0;
      r := Written;
      while done < |content|
        invariant done <= |content| && tmp in files && files[tmp] == File(content[..done], false) && start <= next <= |answers|
        invariant SameBut(files, old(files), tmp) && Scratch(old(trace), trace, old(files), tmp)
        decreases |answers| - next
      {
        if next == |answers| {
          r := Killed;
          return;
        }
        var a := answers[next];
        next := next + 1;
        match a
        case Interrupted =>
        case Bad =>
          r := Failed;
          return;
        case Good(n) =>
          done := if n <= |content| - done then done + n else |content|;
          Put(tmp, File(content[..done], false));
      }
      assert content[..done] == content;
    }

    /** One call that succeeds, fails, or is never answered. */
    static method Ask(answers: seq<Answer>, at: nat) returns (r: Outcome, next: nat)
      requires at <= |answers|
      ensures at <= next <= |answers|
      ensures r == if at == |answers| then Killed else if answers[at].Good? then Written else Failed
    {
      next := if at < |answers| then at + 1 else at;
      r := if at == |answers| then Killed else if answers[at].Good? then Written else Failed;
    }

    /** Create, write, sync, close. */
    method Fill(tmp: string, content: string, answers: seq<Answer>, start: nat) returns (r: Outcome, next: nat)
      requires start <= |answers|
      modifies this
      ensures SameBut(files, old(files), tmp) && start <= next <= |answers| && Scratch(old(trace), trace, old(files), tmp)
      ensures r == Written ==> tmp in files && files[tmp] == File(content, true)
    {
      Put(tmp, File("", false));
      assert files - {tmp} == old(files) - {tmp};
      r, next := WriteAll(tmp, content, answers, start);
      if r != Written { return; }
      r, next := Ask(answers, next);
      if r != Written { return; }
      Put(tmp, File(content, true));
      assert files - {tmp} == old(files) - {tmp};
      r, next := Ask(answers, next);
    }

    /** `atomic_write`. However the system answers and wherever the process dies, every state the disk
        goes through leaves the old file or the new one at `path`, and no other file is touched. */
    method Write(path: string, tmp: string, content: string, answers: seq<Answer>) returns (r: Outcome)
      requires tmp != path && (path in files ==> files[path].synced)
      modifies this
      ensures old(trace) <= trace
      ensures forall i :: |old(trace)| <= i < |trace| ==> OldOrNew(trace[i], path, Holds(old(files), path), content)
      ensures forall i :: |old(trace)| <= i < |trace| ==> SameBut(trace[i] - {path}, old(files) - {path}, tmp)
      ensures r == Written ==> files == (old(files) - {tmp})[path := File(content, true)]
      ensures r != Written ==> SameBut(files, old(files), tmp)
      ensures r == Failed ==> files == old(files) || tmp !in files
    {
      var next: nat;
      r, next := Ask(answers, 0);
      if r != Written { return; }
      r, next := Fill(tmp, content, answers, next);
      if r == Written { r, next := Ask(answers, next); }
      ghost var filled := files;
      forall i | |old(trace)| <= i < |trace|
        ensures OldOrNew(trace[i], path, Holds(old(files), path), content) && SameBut(trace[i] - {path}, old(files) - {path}, tmp)
      {
        OldStands(trace[i], old(files), tmp, path, content);
        OthersStand(trace[i], old(files), tmp, path);
      }
      if r == Written {
        Rename(tmp, path);
        assert files == (filled - {tmp})[path := File(content, true)];
        assert files - {path} - {tmp} == old(files) - {path} - {tmp};
      } else if r == Failed {
        Unlink(tmp);
        OldStands(files, old(files), tmp, path, content);
        OthersStand(files, old(files), tmp, path);
      }
    }
  }
}
