/** Moving a refused manifest aside under a name that is not taken. */
module Preserve {
  import opened Schema
  import opened ManifestText
  import opened ManifestValues

  const LAST := 99

  /** The names tried, in order. */
  function Candidate(path: string, i: nat): string {
    if i == 0 then path + ".prev" else path + ".prev." + Dec(i)
  }

  predicate FirstFree(files: map<string, string>, path: string, k: nat) {
    && k <= LAST && (forall j: nat :: j < k ==> Candidate(path, j) in files)
    && (k < LAST ==> Candidate(path, k) !in files)
  }

  class Directory {
    var files: map<string, string>

    constructor (files: map<string, string>)
      ensures this.files == files
    {
      this.files := files;
    }

    /** `preserve_manifest`: the first free name of the hundred, the last one when none is free. */
    method Preserve(path: string) returns (saved: Option<string>)
      modifies this
      ensures saved == None <==> path !in old(files)
      ensures saved == None ==> files == old(files)
      ensures saved.Some? ==> files == old(files)[saved.value := old(files)[path]] - {path}
      ensures saved.Some? ==> exists k: nat :: FirstFree(old(files), path, k) && saved.value == Candidate(path, k)
    {
      hide Candidate;
      if path !in files { return None; }
      var prev := Candidate(path, 0);
      var i := 1;
      while i <= LAST && prev in files
        invariant 1 <= i <= LAST + 1 && prev == Candidate(path, i - 1) && files == old(files)
        invariant forall j: nat :: j < i - 1 ==> Candidate(path, j) in files
      {
        prev := Candidate(path, i);
        i := i + 1;
      }
      files := files[prev := files[path]] - {path};
      saved := Some(prev);
      assert FirstFree(old(files), path, i - 1);
    }
  }

  /** A backup is overwritten exactly when all hundred names are taken. */
  lemma OverwritesIff(files: map<string, string>, path: string, k: nat)
    requires FirstFree(files, path, k)
    ensures Candidate(path, k) in files <==> forall j: nat :: j <= LAST ==> Candidate(path, j) in files
  {
  }

  /** Every earlier backup survives, unless that is so. */
  lemma BackupsSurvive(files: map<string, string>, path: string, k: nat, j: nat)
    requires path in files && Candidate(path, j) in files && Candidate(path, k) !in files
    ensures var after := files[Candidate(path, k) := files[path]] - {path};
      Candidate(path, j) in after && after[Candidate(path, j)] == files[Candidate(path, j)]
      && Candidate(path, k) in after && after[Candidate(path, k)] == files[path]
  {
    
  }
}
