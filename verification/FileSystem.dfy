/** A file system in which any operation may fail, and a failed or running copy may leave its destination torn.
    A database and its sidecar files are one logical content, which a snapshot of it keeps. */
module FileSystems {
  import opened Wrappers

  datatype Path =
    | Database(name: string)
    | Snapshot(id: string)
    | Recovery(id: string)
    | Manifest(id: string)
    | Temporary(of: Path)
    | PreserveTemporary(of: Path)

  datatype Verification = Verification(schemaVersion: int, checksum: string)

  /** The manifest as read back from JSON: any key may be missing. */
  datatype Record = Record(deploymentId: string, databaseFile: string, databasePresent: bool, schemaVersion: Option<int>,
                           checksum: Option<string>, backupFile: Option<string>)

  datatype Content = Data(bytes: seq<int>) | Json(manifest: Record)

  type State = map<Path, Content>

  /** Two states agree on every path but those given. */
  ghost predicate AgreeExcept(a: State, b: State, paths: set<Path>) {
    forall p | p !in paths :: (p in a <==> p in b) && (p in a ==> a[p] == b[p])
  }

  /** The states recorded since `before`: the old ones are still there, and each new one differs from `base`
      on the given paths only. */
  ghost predicate Grew(before: seq<State>, after: seq<State>, base: State, paths: set<Path>) {
    && |before| <= |after| && after[..|before|] == before
    && forall i | |before| <= i < |after| :: AgreeExcept(after[i], base, paths)
  }

  /** The file at a path may be torn before it is as in `end`; both states are recorded. */
  ghost predicate WroteTo(before: seq<State>, after: seq<State>, base: State, end: State, p: Path) {
    && p in end && |after| == |before| + 2 && after[..|before|] == before
    && p in after[|before|] && AgreeExcept(after[|before|], base, {p})
    && after[|before| + 1] == end
  }

  /** These n operations go through. */
  ghost predicate AllGo(goes: nat -> bool, first: nat, n: nat) {
    forall k | first <= k < first + n :: goes(k)
  }

  class FileSystem {
    var files: State
    /** Every state the files went through; the last is the present one. */
    ghost var trace: seq<State>
    /** What verifying a database's content yields: its schema version and checksum, or an error. */
    const verification: Content -> Option<Verification>
    /** Which operations go through, by their number; the others fail. */
    const goes: nat -> bool
    /** How many operations there were. */
    var operations: nat

    constructor (files: State, verification: Content -> Option<Verification>, goes: nat -> bool)
      ensures this.files == files && this.verification == verification && this.goes == goes
      ensures Valid() && trace == [files] && operations == 0
    {
      this.files, this.verification, this.goes, trace, operations := files, verification, goes, [files], 0;
    }

    /** Operations fail only for a missing file. */
    ghost predicate Reliable() {
      forall n :: goes(n)
    }

    ghost predicate Valid()
      reads this
    {
      trace != [] && trace[|trace| - 1] == files
    }

    /** The only place where files change. */
    method Become(next: State)
      modifies `files, `trace
      ensures Valid() && files == next && trace == old(trace) + [next]
    {
      files := next;
      trace := trace + [next];
    }

    /** Whether the next operation goes through. */
    method Next() returns (ok: bool)
      modifies `operations
      ensures ok == goes(old(operations)) && operations == old(operations) + 1
    {
      ok := goes(operations);
      operations := operations + 1;
    }

    method Exists(p: Path) returns (present: bool)
      ensures present == (p in files)
    {
      present := p in files;
    }

    /** rmSync with force: removing what is not there succeeds. */
    method Remove(p: Path) returns (ok: bool)
      requires Valid()
      modifies this
      ensures Valid() && ok == goes(old(operations)) && operations == old(operations) + 1
      ensures files == if ok then old(files) - {p} else old(files)
      ensures trace == if ok then old(trace) + [files] else old(trace)
      ensures Grew(old(trace), trace, old(files), {p}) && AgreeExcept(files, old(files), {p})
    {
      ok := Next();
      if ok {
        Become(files - {p});
      }
    }

    /** copyFileSync, also VACUUM INTO: not atomic, and it can fail half-way. */
    method Copy(source: Path, target: Path) returns (ok: bool)
      requires Valid() && source != target
      modifies this
      ensures Valid() && ok == (goes(old(operations)) && source in old(files)) && operations == old(operations) + 1
      ensures ok ==> files == old(files)[target := old(files)[source]]
      ensures (!ok && trace == old(trace)) || WroteTo(old(trace), trace, old(files), files, target)
      ensures AgreeExcept(files, old(files), {target})
      ensures Grew(old(trace), trace, old(files), {target})
    {
      ok := Next();
      ok := ok && source in files;
      var begun: bool := *;
      if ok || begun {
        var content: Content := *;
        if ok {
          content := files[source];
        }
        var torn: Content := *;
        Become(files[target := torn]);
        Become(files[target := content]);
      }
    }

    /** renameSync: atomic. */
    method Rename(source: Path, target: Path) returns (ok: bool)
      requires Valid() && source != target
      modifies this
      ensures Valid() && ok == (goes(old(operations)) && source in old(files)) && operations == old(operations) + 1
      ensures files == if ok then old(files)[target := old(files)[source]] - {source} else old(files)
      ensures trace == if ok then old(trace) + [files] else old(trace)
      ensures Grew(old(trace), trace, old(files), {source, target}) && AgreeExcept(files, old(files), {source, target})
    {
      ok := Next();
      ok := ok && source in files;
      if ok {
        Become(files[target := files[source]] - {source});
      }
    }

    /** Creating a file afresh and writing it, or replacing what a running deployment writes. */
    method Write(p: Path, content: Content) returns (ok: bool)
      requires Valid()
      modifies this
      ensures Valid() && ok == goes(old(operations)) && operations == old(operations) + 1
      ensures ok ==> files == old(files)[p := content]
      ensures (!ok && trace == old(trace)) || WroteTo(old(trace), trace, old(files), files, p)
      ensures AgreeExcept(files, old(files), {p})
      ensures Grew(old(trace), trace, old(files), {p})
    {
      ok := Next();
      var begun: bool := *;
      if ok || begun {
        var torn, left: Content := *, *;
        Become(files[p := torn]);
        Become(files[p := if ok then content else left]);
      }
    }

    /** fsync of a file or directory, or chmod: no content changes, but it can fail. */
    method Sync() returns (ok: bool)
      modifies `operations
      ensures ok == goes(old(operations)) && operations == old(operations) + 1
    {
      ok := Next();
    }

    /** verifyDatabaseForMigration: None when it throws, which reading can always do. */
    method Verify(p: Path) returns (v: Option<Verification>)
      modifies `operations
      ensures v == (if goes(old(operations)) && p in files then verification(files[p]) else None)
      ensures operations == old(operations) + 1
    {
      v := None;
      var readable := Next();
      if readable && p in files {
        v := verification(files[p]);
      }
    }

    /** Verifying a database the running service may be writing to: what is seen may be out of date already. */
    method VerifyInUse(p: Path) returns (v: Option<Verification>)
      ensures v.Some? ==> p in files
    {
      v := None;
      var readable: bool := *;
      if readable && p in files {
        var seen: Verification := *;
        v := Some(seen);
      }
    }

    method Read(p: Path) returns (r: Option<Record>)
      modifies `operations
      ensures r == (if goes(old(operations)) && p in files && files[p].Json? then Some(files[p].manifest) else None)
      ensures operations == old(operations) + 1
    {
      r := None;
      var readable := Next();
      if readable && p in files && files[p].Json? {
        r := Some(files[p].manifest);
      }
    }
  }
}
