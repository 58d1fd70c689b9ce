/** The data phase: a bounded pool of load children, with `fork` and `waitpid` as an
    adversary. Nothing is said of the rows; only of which files are tried and how each ends. */
module LoadPool {

  datatype Pid = Pid(number: int)

  /** What one `waitpid` reports: nothing yet, a child with its exit code (-1 when killed),
      an interrupted call, or a hard error. */
  datatype Event = Tick | Reaped(pid: Pid, code: int) | Interrupted | Lost

  datatype Status = Loaded | Failed | Waiting

  /** At least one child, and no more than there are files. */
  function Clamp(degree: int, files: nat): nat {
    var deg := if degree < 1 then 1 else degree;
    if files != 0 && deg > files then files else deg
  }

  predicate Holds(pids: map<Pid, nat>, i: nat) { exists p :: p in pids && pids[p] == i }

  /** Each file tried so far is with exactly one live child or has ended. */
  ghost predicate Tracks(next: nat, pids: map<Pid, nat>, ended: map<nat, int>) {
    && (forall p :: p in pids ==> pids[p] < next && pids[p] !in ended)
    && (forall p, q :: p in pids && q in pids && pids[p] == pids[q] ==> p == q)
    && (forall i :: i in ended ==> i < next)
    && (forall i :: 0 <= i < next ==> i in ended || Holds(pids, i))
  }

  /** The pool has failed exactly when a child did or was lost, and it blames one that did. */
  ghost predicate Blames(files: seq<string>, ended: map<nat, int>, lost: bool, anyFail: bool, failFile: string) {
    && (anyFail <==> lost || exists i :: i in ended && ended[i] != 0)
    && (anyFail && !lost ==> exists i :: i in ended && i < |files| && ended[i] != 0 && failFile == files[i])
  }

  lemma Tracked(next: nat, pids: map<Pid, nat>, ended: map<nat, int>, pid: Pid)
    requires Tracks(next, pids, ended) && pid !in pids
    ensures Tracks(next + 1, pids[pid := next], ended) && |pids[pid := next]| == |pids| + 1
  {
    var more := pids[pid := next];
    forall i | 0 <= i < next + 1 ensures i in ended || Holds(more, i) {
      if i == next {
        assert pid in more && more[pid] == i;
      } else if i !in ended {
        StillHeld(pids, pid, next, i);
      }
    }
    OneMore(pids, pid, next);
  }

  lemma StillHeld(pids: map<Pid, nat>, pid: Pid, next: nat, i: nat)
    requires Holds(pids, i) && pid !in pids
    ensures Holds(pids[pid := next], i)
  {
    var p :| p in pids && pids[p] == i;
    assert p in pids[pid := next] && pids[pid := next][p] == i;
  }

  lemma OneMore(pids: map<Pid, nat>, pid: Pid, next: nat)
    requires pid !in pids
    ensures |pids[pid := next]| == |pids| + 1
  {
    assert pids[pid := next].Keys == pids.Keys + {pid};
  }

  lemma NotTracked(next: nat, pids: map<Pid, nat>, ended: map<nat, int>)
    requires Tracks(next, pids, ended)
    ensures Tracks(next + 1, pids, ended[next := -1]) && next !in ended
  {
  }

  lemma Untracked(next: nat, pids: map<Pid, nat>, ended: map<nat, int>, pid: Pid, code: int)
    requires Tracks(next, pids, ended) && pid in pids
    ensures Tracks(next, pids - {pid}, ended[pids[pid] := code]) && |pids - {pid}| == |pids| - 1
    ensures pids[pid] < next && pids[pid] !in ended
  {
    var less, more := pids - {pid}, ended[pids[pid] := code];
    assert less.Keys == pids.Keys - {pid};
    forall i | 0 <= i < next ensures i in more || Holds(less, i) {
      if i !in more {
        var p :| p in pids && pids[p] == i;
        assert p in less && less[p] == i;
      }
    }
  }

  lemma BlamesEnd(files: seq<string>, ended: map<nat, int>, anyFail: bool, failFile: string, idx: nat, code: int)
    requires Blames(files, ended, false, anyFail, failFile) && idx < |files| && idx !in ended
    ensures if code != 0 && !anyFail then Blames(files, ended[idx := code], false, true, files[idx])
            else Blames(files, ended[idx := code], false, anyFail, failFile)
  {
    var more := ended[idx := code];
    assert more[idx] == code;
    if i :| i in ended && ended[i] != 0 && (anyFail ==> i < |files| && failFile == files[i]) {
      assert i in more && more[i] == ended[i];
    }
    if i :| i in more && more[i] != 0 {
      assert i == idx || (i in ended && ended[i] == more[i]);
    }
  }

  lemma Least(pids: set<Pid>) returns (p: Pid)
    requires |pids| > 0
    ensures p in pids && forall q :: q in pids ==> p.number <= q.number
  {
    p :| p in pids;
    var rest := pids - {p};
    if |rest| > 0 {
      var r := Least(rest);
      assert forall q :: q in pids ==> q == p || q in rest;
      if r.number < p.number { p := r; }
    } else {
      assert forall q :: q in pids ==> q == p || q in rest;
    }
  }

  class Pool {
    const files: seq<string>
    const deg: nat
    var next: nat
    var running: int
    var pids: map<Pid, nat>
    var anyFail: bool
    var failFile: string
    /** How each file ended; -1 also for a failed fork. */
    ghost var ended: map<nat, int>
    ghost var lost: bool
    ghost var attempts: seq<string>

    ghost predicate Valid()
      reads this
    {
      && deg >= 1 && next <= |files| && attempts == files[..next]
      && running == |pids| && running <= deg
      && Tracks(next, pids, ended) && Blames(files, ended, lost, anyFail, failFile)
    }

    /** What is left to spawn and to reap. */
    ghost function Left(): int
      reads this
    {
      2 * (|files| - next) + running
    }

    constructor (files: seq<string>, degree: int)
      ensures Valid() && this.files == files && deg == Clamp(degree, |files|)
      ensures next == 0 && running == 0 && !anyFail && !lost
    {
      this.files, deg := files, Clamp(degree, |files|);
      next, running, pids, anyFail, failFile := 0, 0, map[], false, "";
      ended, lost, attempts := map[], false, [];
    }

    /** A fork fails or yields a pid that is not live under another file. */
    method Fork() returns (ok: bool, pid: Pid)
      ensures ok ==> pid !in pids
    {
      ok, pid := *, *;
      ok := ok && pid !in pids;
    }

    method Spawn()
      requires Valid() && !lost && running < deg && next < |files|
      modifies this
      ensures Valid() && !lost && next == old(next) + 1 && Left() < old(Left())
      ensures old(ended.Keys) <= ended.Keys
    {
      hide Tracks, Blames;
      var ok, pid := Fork();
      if !ok {
        NotTracked(next, pids, ended);
        BlamesEnd(files, ended, anyFail, failFile, next, -1);
        if !anyFail {
          anyFail, failFile := true, files[next];
        }
        ended := ended[next := -1];
      } else {
        Tracked(next, pids, ended, pid);
        pids := pids[pid := next];
        running := running + 1;
      }
      attempts := attempts + [files[next]];
      next := next + 1;
    }

    /** Fills the pool up to its bound. */
    method Fill()
      requires Valid() && !lost
      modifies this
      ensures Valid() && !lost && Left() <= old(Left())
      ensures running == deg || next == |files|
    {
      hide Left;
      while running < deg && next < |files|
        invariant Valid() && !lost && Left() <= old(Left())
        decreases |files| - next
      {
        Spawn();
      }
    }

    method Reap(pid: Pid, code: int)
      requires Valid() && !lost && pid in pids
      modifies this
      ensures Valid() && !lost && next == old(next) && Left() == old(Left()) - 1
      ensures ended == old(ended)[old(pids)[pid] := code]
    {
      hide Tracks, Blames;
      var idx := pids[pid];
      Untracked(next, pids, ended, pid, code);
      BlamesEnd(files, ended, anyFail, failFile, idx, code);
      pids := pids - {pid};
      running := running - 1;
      ended := ended[idx := code];
      if code != 0 && !anyFail {
        anyFail, failFile := true, files[idx];
      }
    }

    /** A child is unaccounted for: the first of them is blamed. */
    method Lose()
      requires Valid() && !lost && running > 0
      modifies this
      ensures Valid() && lost && next == old(next) && Left() == old(Left()) && ended == old(ended)
    {
      hide Holds;
      if !anyFail {
        ghost var least := Least(pids.Keys);
        var p :| p in pids && forall q :: q in pids ==> p.number <= q.number;
        anyFail, failFile := true, files[pids[p]];
      }
      lost := true;
    }

    /** Accounts for one event; only the pool's own children count. */
    method Wait(ev: Event) returns (go: bool)
      requires Valid() && !lost && running > 0
      modifies this
      ensures Valid() && next == old(next) && lost == !go && (go <==> !ev.Lost?)
      ensures if ev.Reaped? && ev.pid in old(pids) then Left() == old(Left()) - 1 else Left() == old(Left())
      ensures ended == if ev.Reaped? && ev.pid in old(pids) then old(ended)[old(pids)[ev.pid] := ev.code] else old(ended)
    {
      hide Valid;
      go := true;
      match ev
      case Reaped(pid, code) =>
        if pid in pids {
          Reap(pid, code);
        }
      case Lost =>
        Lose();
        go := false;
      case _ =>
    }

    /** The pool loop over what `waitpid` reports. It never has more than its bound of
        children; unless a hard error stops it each file is tried exactly once; it reports
        success exactly when every file's child exited 0; and while it has not finished it is
        waiting for a child of its own. */
    method Load(events: seq<Event>) returns (status: Status)
      requires Valid() && !lost && next == 0
      modifies this
      ensures Valid()
      ensures status.Waiting? ==> 0 < running <= deg && !lost
      ensures !status.Waiting? && !lost ==> running == 0 && attempts == files
      ensures status.Loaded? <==> !lost && running == 0 && attempts == files && forall i :: 0 <= i < |files| ==> i in ended && ended[i] == 0
      ensures status.Failed? ==> lost || exists i :: i in ended && ended[i] != 0 && failFile == files[i]
    {
      hide Left;
      var e := 0;
      while next < |files| || running > 0
        invariant Valid() && !lost && e <= |events|
        decreases |events| - e, if next < |files| || running > 0 then 1 else 0
      {
        Fill();
        if running > 0 {
          if e == |events| {
            return Waiting;
          }
          var go := Wait(events[e]);
          e := e + 1;
          if !go {
            break;
          }
        }
      }
      status := if anyFail then Failed else Loaded;
      assert !lost ==> files[..next] == files && pids == map[] && forall i :: 0 <= i < |files| ==> i in ended;
    }
  }
}
