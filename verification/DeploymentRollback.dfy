/** Restoring a deployment's database (packages/dkrypt/src/deploymentDatabase.ts:26-34, 83-211, 246-288). A thrown
    error is a result; every file operation may throw. */
module DeploymentRollback {
  import opened Wrappers
  import opened Characters
  import opened FileSystems

  predicate SafeId(id: string) {
    && 1 <= |id| <= 120 && AlphaNumeric(id[0])
    && forall i | 0 <= i < |id| :: AlphaNumeric(id[i]) || id[i] == '.' || id[i] == '_' || id[i] == '-'
  }

  /** A plain filename: not empty, not hidden, no directory part. */
  predicate SafeFile(name: string) {
    name != "" && name[0] != '.' && '/' !in name
  }

  function BackupName(id: string): string {
    "rollback-" + id + ".sqlite"
  }

  predicate HexDigest(s: string) {
    |s| == 64 && forall i | 0 <= i < |s| :: '0' <= s[i] <= '9' || 'a' <= s[i] <= 'f'
  }

  /** The checks of readManifest. */
  predicate WellFormed(m: Record, id: string) {
    && m.deploymentId == id && SafeFile(m.databaseFile)
    && (m.backupFile.Some? ==> m.backupFile.value == BackupName(id))
    && (m.databasePresent ==> m.schemaVersion.Some? && m.checksum.Some? && m.backupFile.Some? && HexDigest(m.checksum.value))
  }

  function Expected(m: Record): Option<Verification> {
    if m.schemaVersion.Some? && m.checksum.Some? then Some(Verification(m.schemaVersion.value, m.checksum.value)) else None
  }

  function At(s: State, p: Path): Option<Content> {
    if p in s then Some(s[p]) else None
  }

  /** The content is whole at one of the two paths; there may have been none to hold. */
  predicate Held(s: State, live: Path, recovery: Path, content: Option<Content>) {
    content.Some? ==> At(s, live) == content || At(s, recovery) == content
  }

  /** Every state recorded after `before` holds the content. */
  ghost predicate HeldThroughout(before: seq<State>, after: seq<State>, live: Path, recovery: Path, content: Option<Content>) {
    && |before| <= |after| && after[..|before|] == before
    && forall i | |before| <= i < |after| :: Held(after[i], live, recovery, content)
  }

  /** Operations that leave alone the path where the content is keep it held. */
  lemma GrewHeld(before: seq<State>, after: seq<State>, base: State, paths: set<Path>,
                 live: Path, recovery: Path, content: Option<Content>)
    requires Grew(before, after, base, paths)
    requires content.Some? ==> (At(base, live) == content && live !in paths) || (At(base, recovery) == content && recovery !in paths)
    ensures HeldThroughout(before, after, live, recovery, content)
  {
  }

  lemma HeldTwice(a: seq<State>, b: seq<State>, c: seq<State>, live: Path, recovery: Path, content: Option<Content>)
    requires HeldThroughout(a, b, live, recovery, content) && HeldThroughout(b, c, live, recovery, content)
    ensures HeldThroughout(a, c, live, recovery, content)
  {
  }

  lemma GrewTwice(a: seq<State>, b: seq<State>, c: seq<State>, base: State, mid: State, end: State,
                  paths: set<Path>, more: set<Path>, all: set<Path>)
    requires Grew(a, b, base, paths) && Grew(b, c, mid, more)
    requires AgreeExcept(mid, base, paths) && AgreeExcept(end, mid, more) && paths <= all && more <= all
    ensures Grew(a, c, base, all) && AgreeExcept(end, base, all)
  {
  }

  /** fsync, chmod and the atomic rename that puts a finished file in place, and the directory's fsync. */
  method Publish(fs: FileSystem, temporary: Path, target: Path) returns (ok: bool)
    requires fs.Valid() && temporary != target
    modifies fs
    ensures fs.Valid() && (fs.Reliable() ==> ok == (temporary in old(fs.files)))
    ensures AllGo(fs.goes, old(fs.operations), 4) && temporary in old(fs.files) ==>
              && ok && fs.operations == old(fs.operations) + 4
              && fs.files == old(fs.files)[target := old(fs.files)[temporary]] - {temporary}
    ensures AgreeExcept(fs.files, old(fs.files), {temporary, target})
    ensures Grew(old(fs.trace), fs.trace, old(fs.files), {temporary, target})
    ensures ok ==> temporary in old(fs.files) && At(fs.files, target) == At(old(fs.files), temporary)
    ensures !ok ==> At(fs.files, target) == At(old(fs.files), target)
                    || (temporary in old(fs.files) && At(fs.files, target) == At(old(fs.files), temporary))
  {
    ok := fs.Sync();
    if ok { ok := fs.Sync(); }
    if ok { ok := fs.Rename(temporary, target); }
    if ok { ok := fs.Sync(); }
  }

  /** Clearing the temporary name and copying to it. */
  method CopyAside(fs: FileSystem, source: Path, temporary: Path) returns (cleared: bool, copied: bool)
    requires fs.Valid() && source != temporary
    modifies fs
    ensures fs.Valid() && (fs.Reliable() ==> cleared && copied == (source in old(fs.files)))
    ensures AllGo(fs.goes, old(fs.operations), 2) && source in old(fs.files) ==>
              && cleared && copied && fs.operations == old(fs.operations) + 2
              && fs.files == old(fs.files)[temporary := old(fs.files)[source]]
    ensures !fs.goes(old(fs.operations)) ==> !cleared && fs.files == old(fs.files) && fs.operations == old(fs.operations) + 1
    ensures AgreeExcept(fs.files, old(fs.files), {temporary}) && Grew(old(fs.trace), fs.trace, old(fs.files), {temporary})
    ensures copied ==> cleared && source in old(fs.files) && At(fs.files, temporary) == At(old(fs.files), source)
  {
    hide Grew, WroteTo;
    copied := false;
    cleared := fs.Remove(temporary);
    if cleared {
      ghost var trace1, files1 := fs.trace, fs.files;
      copied := fs.Copy(source, temporary);
      GrewTwice(old(fs.trace), trace1, fs.trace, old(fs.files), files1, fs.files, {temporary}, {temporary}, {temporary});
    }
  }

  /** The operations of a snapshot: two to copy, one to verify, four to publish. */
  lemma StretchOf(goes: nat -> bool, first: nat)
    ensures AllGo(goes, first, 7) ==> AllGo(goes, first, 2) && goes(first + 2) && AllGo(goes, first + 3, 4)
  {
  }

  /** createDatabaseSnapshot: the copy appears at the target whole or not at all. */
  method CreateDatabaseSnapshot(fs: FileSystem, source: Path, target: Path) returns (v: Option<Verification>)
    requires fs.Valid() && source != target && source != Temporary(target) && target != Temporary(target)
    modifies fs
    ensures fs.Valid()
    ensures AgreeExcept(fs.files, old(fs.files), {Temporary(target), target})
    ensures Grew(old(fs.trace), fs.trace, old(fs.files), {Temporary(target), target})
    ensures fs.Reliable() && source in old(fs.files) ==> v == fs.verification(old(fs.files)[source])
    ensures AllGo(fs.goes, old(fs.operations), 7) && source in old(fs.files) && fs.verification(old(fs.files)[source]).Some? ==>
              && v.Some? && fs.operations == old(fs.operations) + 7
              && fs.files == old(fs.files)[target := old(fs.files)[source]] - {Temporary(target)}
    ensures fs.Reliable() && v.None? ==> At(fs.files, target) == At(old(fs.files), target)
    ensures v.Some? ==> source in old(fs.files) && At(fs.files, target) == At(old(fs.files), source)
                        && fs.verification(fs.files[target]) == v
    ensures v.None? ==> At(fs.files, target) == At(old(fs.files), target)
                        || (source in old(fs.files) && At(fs.files, target) == At(old(fs.files), source))
  {
    hide Grew, WroteTo, AgreeExcept, AllGo;
    var temporary := Temporary(target);
    ghost var all := {temporary, target};
    StretchOf(fs.goes, fs.operations);
    var cleared, ok := CopyAside(fs, source, temporary);
    GrewMore(old(fs.trace), fs.trace, old(fs.files), fs.files, {temporary}, all);
    AgreedAt(fs.files, old(fs.files), {temporary}, target);
    if !cleared { return None; }
    ghost var trace2, files2 := fs.trace, fs.files;
    v := None;
    if ok {
      v := fs.Verify(temporary);
    }
    if v.Some? {
      ok := Publish(fs, temporary, target);
      GrewTwice(old(fs.trace), trace2, fs.trace, old(fs.files), files2, fs.files, all, all, all);
      if ok { return; }
    }
    ghost var trace3, files3 := fs.trace, fs.files;
    var _ := fs.Remove(temporary);
    GrewTwice(old(fs.trace), trace3, fs.trace, old(fs.files), files3, fs.files, all, {temporary}, all);
    v := None;
  }

  lemma GrewMore(a: seq<State>, b: seq<State>, base: State, end: State, paths: set<Path>, all: set<Path>)
    requires Grew(a, b, base, paths) && AgreeExcept(end, base, paths) && paths <= all
    ensures Grew(a, b, base, all) && AgreeExcept(end, base, all)
  {
  }

  lemma AgreedAt(a: State, b: State, paths: set<Path>, p: Path)
    requires AgreeExcept(a, b, paths) && p !in paths
    ensures At(a, p) == At(b, p)
  {
  }

  /** copyVerifiedSnapshot: the snapshot appears at the target verified and whole, or not at all. */
  method CopyVerifiedSnapshot(fs: FileSystem, source: Path, target: Path, expected: Option<Verification>) returns (ok: bool)
    requires fs.Valid() && source != target && source != Temporary(target) && target != Temporary(target)
    modifies fs
    ensures fs.Valid()
    ensures AgreeExcept(fs.files, old(fs.files), {Temporary(target), target})
    ensures Grew(old(fs.trace), fs.trace, old(fs.files), {Temporary(target), target})
    ensures !fs.goes(old(fs.operations)) ==> !ok && fs.files == old(fs.files) && fs.operations == old(fs.operations) + 1
    ensures fs.Reliable() && source in old(fs.files) && expected.Some? && fs.verification(old(fs.files)[source]) == expected ==> ok
    ensures ok ==> source in old(fs.files) && At(fs.files, target) == At(old(fs.files), source)
    ensures !ok ==> At(fs.files, target) == At(old(fs.files), target)
                    || (source in old(fs.files) && At(fs.files, target) == At(old(fs.files), source))
    ensures At(fs.files, target) != At(old(fs.files), target) ==> expected.Some? && fs.verification(fs.files[target]) == expected
  {
    hide Grew, WroteTo, AgreeExcept, AllGo;
    var temporary := Temporary(target);
    ghost var all := {temporary, target};
    var cleared;
    cleared, ok := CopyAside(fs, source, temporary);
    GrewMore(old(fs.trace), fs.trace, old(fs.files), fs.files, {temporary}, all);
    AgreedAt(fs.files, old(fs.files), {temporary}, target);
    if !cleared { return false; }
    ghost var trace2, files2 := fs.trace, fs.files;
    if ok {
      var v := fs.Verify(temporary);
      ok := v.Some? && v == expected;
    }
    if ok {
      ok := Publish(fs, temporary, target);
      GrewTwice(old(fs.trace), trace2, fs.trace, old(fs.files), files2, fs.files, all, all, all);
      if ok { return; }
    }
    ghost var trace3, files3 := fs.trace, fs.files;
    var _ := fs.Remove(temporary);
    GrewTwice(old(fs.trace), trace3, fs.trace, old(fs.files), files3, fs.files, all, {temporary}, all);
  }

  /** restoreCandidateFiles: copies in place, so a failure can leave the target torn. */
  method RestoreCandidateFiles(fs: FileSystem, live: Path, candidate: Path) returns (ok: bool)
    requires fs.Valid() && live != candidate
    modifies fs
    ensures fs.Valid()
    ensures AgreeExcept(fs.files, old(fs.files), {live}) && Grew(old(fs.trace), fs.trace, old(fs.files), {live})
    ensures ok && candidate in old(fs.files) ==> At(fs.files, live) == At(old(fs.files), candidate)
    ensures fs.goes(old(fs.operations)) && candidate in old(fs.files) ==>
              ok && fs.files == old(fs.files)[live := old(fs.files)[candidate]]
    ensures ok && candidate !in old(fs.files) ==> fs.files == old(fs.files)
  {
    var present := fs.Exists(candidate);
    if !present { return true; }
    ok := fs.Copy(candidate, live);
  }

  /** What stays of the pre-restore content when moving it aside: it leaves the live path only once it is whole
      at the recovery path. */
  predicate MovedAside(before: State, after: State, live: Path, candidate: Path) {
    || At(after, live) == At(before, live)
    || (At(after, live).None? && At(after, candidate) == At(before, live))
  }

  /** The copy made when no snapshot can be taken: the main file under a temporary name, renamed into place, and
      then the sidecars. In between the recovery path may hold a part of the content. */
  method PreserveByCopy(fs: FileSystem, live: Path, candidate: Path) returns (ok: bool)
    requires fs.Valid() && live.Database? && candidate.Recovery?
    modifies fs
    ensures fs.Valid() && (fs.Reliable() && live in old(fs.files) ==> ok)
    ensures AgreeExcept(fs.files, old(fs.files), {PreserveTemporary(live), candidate})
    ensures Grew(old(fs.trace), fs.trace, old(fs.files), {PreserveTemporary(live), candidate})
    ensures ok ==> live in old(fs.files) && At(fs.files, candidate) == At(old(fs.files), live)
  {
    hide Grew, WroteTo;
    var temporary := PreserveTemporary(live);
    ghost var all := {temporary, candidate};
    var main: Content := *;
    ok := fs.Write(temporary, main);
    ghost var trace1, files1 := fs.trace, fs.files;
    if !ok {
      GrewMore(old(fs.trace), fs.trace, old(fs.files), fs.files, {temporary}, all);
      return;
    }
    ok := Publish(fs, temporary, candidate);
    GrewTwice(old(fs.trace), trace1, fs.trace, old(fs.files), files1, fs.files, {temporary}, all, all);
    if !ok { return; }
    ghost var trace2, files2 := fs.trace, fs.files;
    ok := fs.Copy(live, candidate);
    GrewTwice(old(fs.trace), trace2, fs.trace, old(fs.files), files2, fs.files, all, {candidate}, all);
    if ok {
      ok := fs.Sync();
    }
  }

  ghost function Scratch(live: Path, candidate: Path): set<Path> {
    {Temporary(candidate), PreserveTemporary(live), Temporary(live)}
  }

  /** The copy at the recovery path: a snapshot or, when none can be taken and nothing appeared there, the files. */
  method CopyToCandidate(fs: FileSystem, live: Path, candidate: Path) returns (ok: bool)
    requires fs.Valid() && live.Database? && candidate.Recovery? && live in fs.files && candidate !in fs.files
    modifies fs
    ensures fs.Valid() && (fs.Reliable() ==> ok)
    ensures AgreeExcept(fs.files, old(fs.files), Scratch(live, candidate) + {candidate})
    ensures Grew(old(fs.trace), fs.trace, old(fs.files), Scratch(live, candidate) + {candidate})
    ensures ok ==> At(fs.files, candidate) == At(old(fs.files), live)
    ensures AllGo(fs.goes, old(fs.operations), 7) && fs.verification(old(fs.files)[live]).Some? ==>
              && ok && fs.operations == old(fs.operations) + 7
              && fs.files == old(fs.files)[candidate := old(fs.files)[live]] - {Temporary(candidate)}
  {
    hide Grew, WroteTo;
    ghost var aside := Scratch(live, candidate) + {candidate};
    var v := CreateDatabaseSnapshot(fs, live, candidate);
    GrewMore(old(fs.trace), fs.trace, old(fs.files), fs.files, {Temporary(candidate), candidate}, aside);
    if v.Some? { return true; }
    var taken := fs.Exists(candidate);
    if taken { return false; }
    ghost var trace1, files1 := fs.trace, fs.files;
    ok := PreserveByCopy(fs, live, candidate);
    GrewTwice(old(fs.trace), trace1, fs.trace, old(fs.files), files1, fs.files, {Temporary(candidate), candidate},
              {PreserveTemporary(live), candidate}, aside);
  }

  /** preserveCandidateDatabase: Some(preserved), or None when it throws. */
  method PreserveCandidateDatabase(fs: FileSystem, live: Path, candidate: Path) returns (preserved: Option<bool>)
    requires fs.Valid() && live.Database? && candidate.Recovery?
    modifies fs
    ensures fs.Valid()
    ensures AgreeExcept(fs.files, old(fs.files), Scratch(live, candidate) + {live, candidate})
    ensures candidate in old(fs.files) ==> preserved.None? && fs.files == old(fs.files) && fs.trace == old(fs.trace)
    ensures fs.Reliable() && candidate !in old(fs.files) ==> preserved.Some?
    ensures AllGo(fs.goes, old(fs.operations), 8) && candidate !in old(fs.files) && live in old(fs.files)
            && fs.verification(old(fs.files)[live]).Some? ==>
              && preserved == (if fs.goes(old(fs.operations) + 8) then Some(true) else None)
              && fs.operations == old(fs.operations) + 9
              && fs.files == MovedTo(old(fs.files), candidate.id, live) - {live}
    ensures preserved.Some? ==> live !in fs.files && At(fs.files, candidate) == At(old(fs.files), live)
                                && preserved.value == (live in old(fs.files))
    ensures live !in old(fs.files) ==> fs.files == old(fs.files)
    ensures MovedAside(old(fs.files), fs.files, live, candidate)
    ensures HeldThroughout(old(fs.trace), fs.trace, live, candidate, At(old(fs.files), live))
    ensures Held(fs.files, live, candidate, At(old(fs.files), live))
  {
    var taken := fs.Exists(candidate);
    if taken { return None; }
    var present := fs.Exists(live);
    if !present {
      // only sidecars, if anything: removing them may fail
      var ok := fs.Sync();
      return if ok then Some(false) else None;
    }
    ghost var content := At(fs.files, live);
    ghost var aside := Scratch(live, candidate) + {candidate};
    hide Grew, WroteTo, HeldThroughout;
    var ok := CopyToCandidate(fs, live, candidate);
    GrewHeld(old(fs.trace), fs.trace, old(fs.files), aside, live, candidate, content);
    if !ok { return None; }
    ghost var trace2, files2 := fs.trace, fs.files;
    ok := fs.Remove(live);
    GrewHeld(trace2, fs.trace, files2, {live}, live, candidate, content);
    HeldTwice(old(fs.trace), trace2, fs.trace, live, candidate, content);
    if !ok { return None; }
    ok := fs.Sync();
    preserved := if ok then Some(true) else None;
  }

  predicate Matches(fs: FileSystem, s: State, p: Path, expected: Option<Verification>) {
    expected.Some? && p in s && fs.verification(s[p]) == expected
  }

  /** The live path as a restore that throws leaves it before any repair: as it was, replaced by the verified
      snapshot, or emptied with its content whole at the recovery path. */
  predicate Interrupted(fs: FileSystem, before: State, after: State, live: Path, id: string, expected: Option<Verification>) {
    || MovedAside(before, after, live, Recovery(id))
    || (At(after, live) == At(before, Snapshot(id)) && Matches(fs, after, live, expected))
  }

  /** What success means for the live path. */
  predicate Reverted(fs: FileSystem, after: State, live: Path, m: Record) {
    if m.databasePresent then Matches(fs, after, live, Expected(m)) else live !in after
  }

  /** The pre-restore content after success: kept at the recovery path, or still live, or there was none. */
  predicate Accounted(before: State, after: State, live: Path, candidate: Path, preserved: bool) {
    if preserved then live in before && At(after, candidate) == At(before, live)
    else live in before ==> At(after, live) == At(before, live)
  }

  /** What a restore needs of the files: a snapshot that verifies, if there was a database, and no recovery file,
      unless the live database is already what the manifest promises. */
  predicate Revertible(fs: FileSystem, s: State, id: string, m: Record) {
    && (m.databasePresent ==> Matches(fs, s, Snapshot(id), Expected(m)))
    && (Recovery(id) in s ==> m.databasePresent && Matches(fs, s, Database(m.databaseFile), Expected(m)))
  }

  /** The files after a restore moved the live database to the recovery path, but for the live path itself. */
  function MovedTo(s: State, id: string, live: Path): State
    requires live in s
  {
    s[Recovery(id) := s[live]] - {Temporary(Recovery(id))}
  }

  /** A restore from here moves the live database aside, by a snapshot. */
  predicate Moves(fs: FileSystem, s: State, id: string, m: Record) {
    var live := Database(m.databaseFile);
    && live in s && Recovery(id) !in s && fs.verification(s[live]).Some?
    && (m.databasePresent ==> Matches(fs, s, Snapshot(id), Expected(m)) && !Matches(fs, s, live, Expected(m)))
  }

  /** The operations of its try block before the one that fails. With a database to restore: two verifications, the
      seven of the snapshot, the removal and the sync, before the copy's temporary name is cleared. Without one: the
      snapshot and the removal, before the sync. */
  function MovingTakes(m: Record): nat {
    if m.databasePresent then 11 else 8
  }

  /** Moving the live database aside and copying the verified snapshot in its place. */
  method ReplaceLive(fs: FileSystem, id: string, live: Path, expected: Option<Verification>) returns (preserved: Option<bool>)
    requires fs.Valid() && live.Database? && Matches(fs, fs.files, Snapshot(id), expected)
    modifies fs
    ensures fs.Valid()
    ensures Recovery(id) in old(fs.files) ==> preserved.None? && fs.files == old(fs.files) && fs.trace == old(fs.trace)
    ensures fs.Reliable() && Recovery(id) !in old(fs.files) ==> preserved.Some?
    ensures AgreeExcept(fs.files, old(fs.files), Scratch(live, Recovery(id)) + {live, Recovery(id)})
    ensures live !in old(fs.files) ==> At(fs.files, Recovery(id)) == At(old(fs.files), Recovery(id))
    ensures HeldThroughout(old(fs.trace), fs.trace, live, Recovery(id), At(old(fs.files), live))
    ensures Held(fs.files, live, Recovery(id), At(old(fs.files), live))
    ensures Interrupted(fs, old(fs.files), fs.files, live, id, expected)
    ensures preserved.Some? ==> At(fs.files, live) == At(old(fs.files), Snapshot(id))
                                && Accounted(old(fs.files), fs.files, live, Recovery(id), preserved.value)
    ensures AllGo(fs.goes, old(fs.operations), 9) && !fs.goes(old(fs.operations) + 9) && Recovery(id) !in old(fs.files)
            && live in old(fs.files) && fs.verification(old(fs.files)[live]).Some? ==>
              && preserved.None? && fs.operations == old(fs.operations) + 10
              && fs.files == MovedTo(old(fs.files), id, live) - {live}
  {
    hide Grew, WroteTo, HeldThroughout, AgreeExcept, AllGo;
    NineGo(fs.goes, fs.operations);
    preserved := PreserveCandidateDatabase(fs, live, Recovery(id));
    StillThere(fs.files, old(fs.files), live, id);
    if preserved.None? { return; }
    ghost var trace1, files1 := fs.trace, fs.files;
    var ok := CopyVerifiedSnapshot(fs, Snapshot(id), live, expected);
    StillKept(fs.files, files1, old(fs.files), live, id);
    GrewHeld(trace1, fs.trace, files1, {Temporary(live), live}, live, Recovery(id), At(old(fs.files), live));
    HeldTwice(old(fs.trace), trace1, fs.trace, live, Recovery(id), At(old(fs.files), live));
    if !ok { return None; }
  }

  lemma NineGo(goes: nat -> bool, first: nat)
    ensures AllGo(goes, first, 9) ==> AllGo(goes, first, 8) && goes(first + 8)
  {
  }

  /** Moving the live database leaves the snapshot. */
  lemma StillThere(after: State, before: State, live: Path, id: string)
    requires live.Database? && AgreeExcept(after, before, Scratch(live, Recovery(id)) + {live, Recovery(id)})
    ensures At(after, Snapshot(id)) == At(before, Snapshot(id))
  {
  }

  /** Putting the snapshot at the live path leaves the recovery file. */
  lemma StillKept(after: State, mid: State, before: State, live: Path, id: string)
    requires live.Database? && AgreeExcept(after, mid, {Temporary(live), live})
    requires AgreeExcept(mid, before, Scratch(live, Recovery(id)) + {live, Recovery(id)})
    ensures At(after, Recovery(id)) == At(mid, Recovery(id))
    ensures AgreeExcept(after, before, Scratch(live, Recovery(id)) + {live, Recovery(id)})
  {
  }

  /** The part of restoreDeploymentRollback inside its try block: Some(preserved), or None when it throws. */
  method Revert(fs: FileSystem, id: string, m: Record) returns (preserved: Option<bool>)
    requires fs.Valid() && WellFormed(m, id)
    modifies fs
    ensures fs.Valid()
    ensures preserved.Some? ==> Revertible(fs, old(fs.files), id, m)
    ensures fs.Reliable() && Revertible(fs, old(fs.files), id, m) ==> preserved.Some?
    ensures Recovery(id) in old(fs.files) ==> fs.files == old(fs.files) && fs.trace == old(fs.trace)
    ensures var live := Database(m.databaseFile);
      && AgreeExcept(fs.files, old(fs.files), Scratch(live, Recovery(id)) + {live, Recovery(id)})
      && (live !in old(fs.files) ==> At(fs.files, Recovery(id)) == At(old(fs.files), Recovery(id)))
      && HeldThroughout(old(fs.trace), fs.trace, live, Recovery(id), At(old(fs.files), live))
      && Held(fs.files, live, Recovery(id), At(old(fs.files), live))
      && Interrupted(fs, old(fs.files), fs.files, live, id, Expected(m))
      && (preserved.Some? ==> Reverted(fs, fs.files, live, m)
                              && Accounted(old(fs.files), fs.files, live, Recovery(id), preserved.value))
      && (Moves(fs, old(fs.files), id, m) && AllGo(fs.goes, old(fs.operations), MovingTakes(m))
          && !fs.goes(old(fs.operations) + MovingTakes(m)) ==>
            && preserved.None? && fs.operations == old(fs.operations) + MovingTakes(m) + 1
            && fs.files == MovedTo(old(fs.files), id, live) - {live})
  {
    var live, candidate, expected := Database(m.databaseFile), Recovery(id), Expected(m);
    hide Grew, WroteTo, HeldThroughout, AgreeExcept, AllGo, SafeFile, HexDigest, MovedAside, Held, MovedTo;
    NothingYet(fs.trace, live, candidate, At(fs.files, live));
    Unmoved(fs.files, live, candidate);
    if !m.databasePresent {
      preserved := PreserveCandidateDatabase(fs, live, candidate);
      return;
    }
    ElevenGo(fs.goes, fs.operations);
    var v := fs.Verify(Snapshot(id));
    if v != expected { return None; }
    var current := fs.Verify(live);
    preserved := Some(false);
    if current.None? || current != expected {
      preserved := ReplaceLive(fs, id, live, expected);
      if preserved.None? { return; }
    }
    var restored := fs.Verify(live);
    if restored.None? || restored != expected { return None; }
  }

  lemma ElevenGo(goes: nat -> bool, first: nat)
    ensures AllGo(goes, first, 11) ==> goes(first) && goes(first + 1) && AllGo(goes, first + 2, 9)
  {
  }

  lemma Unmoved(s: State, live: Path, candidate: Path)
    ensures AgreeExcept(s, s, Scratch(live, candidate) + {live, candidate})
    ensures MovedAside(s, s, live, candidate) && Held(s, live, candidate, At(s, live))
  {
  }

  lemma NothingYet(trace: seq<State>, live: Path, candidate: Path, content: Option<Content>)
    ensures HeldThroughout(trace, trace, live, candidate, content)
  {
  }

  /** How a restore ends: done; thrown before cleanup, with the repair of the live file done (or not needed) or
      itself thrown; thrown during cleanup. */
  datatype Outcome = Restored(databaseRestored: bool, preserved: bool) | Threw | ThrewInRepair | ThrewInCleanup

  function Recorded(s: State, id: string): Option<Record> {
    if Manifest(id) in s && s[Manifest(id)].Json? then Some(s[Manifest(id)].manifest) else None
  }

  function Live(s: State, id: string): Path {
    Database(if Recorded(s, id).Some? then Recorded(s, id).value.databaseFile else "")
  }

  /** The live path after a throw whose repair went through. */
  predicate Repaired(fs: FileSystem, before: State, after: State, live: Path, id: string, expected: Option<Verification>) {
    || At(after, live) == At(before, live)
    || (At(after, live) == At(before, Snapshot(id)) && Matches(fs, after, live, expected))
    || (At(before, live).None? && At(after, live) == At(before, Recovery(id)))
  }

  method ReadManifest(fs: FileSystem, id: string) returns (m: Option<Record>)
    modifies fs`operations
    ensures m.Some? ==> Recorded(fs.files, id) == m && WellFormed(m.value, id)
    ensures fs.operations == old(fs.operations) + 1
    ensures fs.goes(old(fs.operations)) && Recorded(fs.files, id).Some? && WellFormed(Recorded(fs.files, id).value, id) ==> m.Some?
    ensures fs.Reliable() && Recorded(fs.files, id).Some? && WellFormed(Recorded(fs.files, id).value, id) ==> m.Some?
  {
    m := fs.Read(Manifest(id));
    if m.Some? && !WellFormed(m.value, id) {
      m := None;
    }
  }

  method ClearRollbackArtifacts(fs: FileSystem, id: string, m: Record) returns (ok: bool)
    requires fs.Valid()
    modifies fs
    ensures fs.Valid() && (fs.Reliable() ==> ok)
    ensures Manifest(id) in fs.files ==> At(fs.files, Manifest(id)) == At(old(fs.files), Manifest(id))
    ensures AgreeExcept(fs.files, old(fs.files), {Manifest(id), Snapshot(id)})
    ensures Grew(old(fs.trace), fs.trace, old(fs.files), {Manifest(id), Snapshot(id)})
    ensures ok ==> Manifest(id) !in fs.files && (m.backupFile.Some? ==> Snapshot(id) !in fs.files)
  {
    hide Grew, WroteTo;
    ghost var all := {Manifest(id), Snapshot(id)};
    ok := fs.Remove(Manifest(id));
    GrewMore(old(fs.trace), fs.trace, old(fs.files), fs.files, {Manifest(id)}, all);
    if !ok { return; }
    if m.backupFile.Some? {
      ghost var trace1, files1 := fs.trace, fs.files;
      ok := fs.Remove(Snapshot(id));
      GrewTwice(old(fs.trace), trace1, fs.trace, old(fs.files), files1, fs.files, {Manifest(id)}, {Snapshot(id)}, all);
      if !ok { return; }
    }
    ok := fs.Sync();
  }

  // ---------------------------------------------------------------- one attempt and many

  /** A restore that ran: the states recorded before it and after it, the first and the last of its own. */
  datatype Attempt = Attempt(before: State, earlier: seq<State>, trace: seq<State>, after: State, outcome: Outcome)

  /** The path has the given content in every state recorded after `before`. */
  ghost predicate KeptThroughout(before: seq<State>, after: seq<State>, p: Path, content: Option<Content>) {
    && |before| <= |after| && after[..|before|] == before
    && forall i | |before| <= i < |after| :: At(after[i], p) == content
  }

  lemma NothingMoved(trace: seq<State>, p: Path, content: Option<Content>)
    ensures KeptThroughout(trace, trace, p, content)
  {
  }

  lemma GrewKept(before: seq<State>, after: seq<State>, base: State, paths: set<Path>, p: Path)
    requires Grew(before, after, base, paths) && p !in paths
    ensures KeptThroughout(before, after, p, At(base, p))
  {
  }

  /** Whether a restore can succeed at all. */
  predicate Restorable(fs: FileSystem, s: State, id: string) {
    var m := Recorded(s, id);
    SafeId(id) && m.Some? && WellFormed(m.value, id) && Revertible(fs, s, id, m.value)
  }

  predicate Done(outcome: Outcome) {
    outcome.Restored? || outcome.ThrewInCleanup?
  }

  /** What a restore does that matters to later ones. */
  ghost predicate Attempted(fs: FileSystem, id: string, t: Attempt) {
    var live := Live(t.before, id);
    && HeldThroughout(t.earlier, t.trace, live, Recovery(id), At(t.before, live))
    && Held(t.after, live, Recovery(id), At(t.before, live))
    && (Recovery(id) in t.before ==>
          && KeptThroughout(t.earlier, t.trace, Recovery(id), At(t.before, Recovery(id)))
          && At(t.after, Recovery(id)) == At(t.before, Recovery(id)))
    && (Recorded(t.before, id).None? ==> t.trace == t.earlier && t.after == t.before)
    && (At(t.after, Manifest(id)) == At(t.before, Manifest(id)) || Manifest(id) !in t.after)
    && (Done(t.outcome) ==> Restorable(fs, t.before, id))
    && (!Done(t.outcome) ==>
          && At(t.after, Manifest(id)) == At(t.before, Manifest(id)) && At(t.after, Snapshot(id)) == At(t.before, Snapshot(id))
          && (Recovery(id) in t.before && live in t.before ==> t.after == t.before))
  }

  /** The catch handler of a restore. */
  method Repair(fs: FileSystem, id: string, live: Path) returns (ok: bool)
    requires fs.Valid() && live.Database?
    modifies fs
    ensures fs.Valid()
    ensures AgreeExcept(fs.files, old(fs.files), {live}) && Grew(old(fs.trace), fs.trace, old(fs.files), {live})
    ensures live in old(fs.files) || Recovery(id) !in old(fs.files) ==> ok && fs.files == old(fs.files) && fs.trace == old(fs.trace)
    ensures ok && live !in old(fs.files) ==> At(fs.files, live) == At(old(fs.files), Recovery(id))
    ensures fs.goes(old(fs.operations)) && live !in old(fs.files) && Recovery(id) in old(fs.files) ==>
              ok && fs.files == old(fs.files)[live := old(fs.files)[Recovery(id)]]
  {
    ok := true;
    var there := fs.Exists(live);
    var recoverable := fs.Exists(Recovery(id));
    if !there && recoverable {
      ok := RestoreCandidateFiles(fs, live, Recovery(id));
    }
  }

  /** The repair writes the live path only when nothing is there. */
  lemma RepairHolds(before: seq<State>, after: seq<State>, base: State, live: Path, id: string, content: Option<Content>)
    requires Grew(before, after, base, {live}) && Held(base, live, Recovery(id), content) && live.Database?
    requires live in base ==> after == before
    ensures HeldThroughout(before, after, live, Recovery(id), content)
    ensures KeptThroughout(before, after, Recovery(id), At(base, Recovery(id)))
  {
  }

  /** The n operations go through, the next one does not, and the one after it does. */
  ghost predicate OneFailure(goes: nat -> bool, first: nat, n: nat) {
    AllGo(goes, first, n) && !goes(first + n) && goes(first + n + 1)
  }

  lemma OneFailureLater(goes: nat -> bool, first: nat, n: nat)
    requires OneFailure(goes, first, n + 1)
    ensures goes(first) && OneFailure(goes, first + 1, n)
  {
  }

  lemma MovedBack(fs: FileSystem, s: State, id: string, m: Record)
    ensures Moves(fs, s, id, m) ==>
              var live := Database(m.databaseFile);
              var moved := MovedTo(s, id, live) - {live};
              Recovery(id) in moved && moved[live := moved[Recovery(id)]] == MovedTo(s, id, live)
  {
  }

  /** The try block of a restore and, when that throws, its catch handler. */
  method RevertOrRepair(fs: FileSystem, id: string, m: Record) returns (preserved: Option<bool>, repaired: bool)
    requires fs.Valid() && WellFormed(m, id)
    modifies fs
    ensures fs.Valid()
    ensures preserved.Some? ==> Revertible(fs, old(fs.files), id, m)
    ensures fs.Reliable() && Revertible(fs, old(fs.files), id, m) ==> preserved.Some?
    ensures var before, live := old(fs.files), Database(m.databaseFile);
      && AgreeExcept(fs.files, before, Scratch(live, Recovery(id)) + {live, Recovery(id)})
      && HeldThroughout(old(fs.trace), fs.trace, live, Recovery(id), At(before, live))
      && Held(fs.files, live, Recovery(id), At(before, live))
      && (Recovery(id) in before ==>
            && KeptThroughout(old(fs.trace), fs.trace, Recovery(id), At(before, Recovery(id)))
            && At(fs.files, Recovery(id)) == At(before, Recovery(id)))
      && (preserved.Some? ==> Reverted(fs, fs.files, live, m)
                              && Accounted(before, fs.files, live, Recovery(id), preserved.value))
      && (preserved.None? && repaired ==> Repaired(fs, before, fs.files, live, id, Expected(m)))
      && (preserved.None? && Recovery(id) in before && live in before ==> fs.files == before)
      && (Moves(fs, before, id, m) && OneFailure(fs.goes, old(fs.operations), MovingTakes(m)) ==>
            preserved.None? && repaired && fs.files == MovedTo(before, id, live))
  {
    hide Grew, WroteTo, HeldThroughout, WellFormed, KeptThroughout, Revertible, Reverted, Expected, AllGo, Moves;
    MovedBack(fs, fs.files, id, m);
    hide Matches, MovedTo;
    var live := Database(m.databaseFile);
    ghost var content := At(fs.files, live);
    NothingMoved(fs.trace, Recovery(id), At(fs.files, Recovery(id)));
    preserved := Revert(fs, id, m);
    repaired := true;
    if preserved.None? {
      ghost var trace1, files1 := fs.trace, fs.files;
      repaired := Repair(fs, id, live);
      RepairHolds(trace1, fs.trace, files1, live, id, content);
      HeldTwice(old(fs.trace), trace1, fs.trace, live, Recovery(id), content);
    }
  }

  /** restoreDeploymentRollback. At every moment the pre-restore database is whole at the live or the recovery
      path. A throw before cleanup leaves manifest and snapshot intact and, once repaired, the live file as it
      was, the verified snapshot, or, if it was absent, what an earlier run left at the recovery path. It succeeds
      only from a restorable state, and from one always unless an operation fails for no missing file. */
  method RestoreDeploymentRollback(fs: FileSystem, id: string) returns (outcome: Outcome)
    requires fs.Valid()
    modifies fs
    ensures fs.Valid()
    ensures Done(outcome) ==> Restorable(fs, old(fs.files), id)
    ensures fs.Reliable() && Restorable(fs, old(fs.files), id) ==> outcome.Restored?
    ensures var before, live := old(fs.files), Live(old(fs.files), id);
      && HeldThroughout(old(fs.trace), fs.trace, live, Recovery(id), At(before, live))
      && Held(fs.files, live, Recovery(id), At(before, live))
      && AgreeExcept(fs.files, before, Scratch(live, Recovery(id)) + {live, Recovery(id), Manifest(id), Snapshot(id)})
      && (outcome.Threw? || outcome.ThrewInRepair? ==>
            At(fs.files, Manifest(id)) == At(before, Manifest(id)) && At(fs.files, Snapshot(id)) == At(before, Snapshot(id)))
      && (outcome.Threw? ==> Repaired(fs, before, fs.files, live, id,
                                      if Recorded(before, id).Some? then Expected(Recorded(before, id).value) else None))
      && (Done(outcome) ==> Reverted(fs, fs.files, live, Recorded(before, id).value))
      && (outcome.Restored? ==>
            var m := Recorded(before, id).value;
            && outcome.databaseRestored == m.databasePresent
            && Accounted(before, fs.files, live, Recovery(id), outcome.preserved)
            && Manifest(id) !in fs.files && (m.backupFile.Some? ==> Snapshot(id) !in fs.files))
    ensures Attempted(fs, id, Attempt(old(fs.files), old(fs.trace), fs.trace, fs.files, outcome))
    ensures Restorable(fs, old(fs.files), id) ==>
              var before, m := old(fs.files), Recorded(old(fs.files), id).value;
              Moves(fs, before, id, m) && OneFailure(fs.goes, old(fs.operations), MovingTakes(m) + 1) ==>
                outcome.Threw? && fs.files == MovedTo(before, id, Live(before, id))
  {
    hide Grew, WroteTo, HeldThroughout, WellFormed, SafeId, KeptThroughout, Revertible, Matches, Expected, Reverted, Accounted, Repaired,
         Moves, MovedTo, OneFailure, AgreeExcept, Held, Scratch;
    ghost var live := Live(fs.files, id);
    if Recorded(fs.files, id).Some? && OneFailure(fs.goes, fs.operations, MovingTakes(Recorded(fs.files, id).value) + 1) {
      OneFailureLater(fs.goes, fs.operations, MovingTakes(Recorded(fs.files, id).value));
    }
    ghost var content := At(fs.files, live);
    NothingYet(fs.trace, live, Recovery(id), content);
    NothingMoved(fs.trace, Recovery(id), At(fs.files, Recovery(id)));
    NothingTouched(fs.files, live, id);
    NothingRepaired(fs, fs.files, live, id, if Recorded(fs.files, id).Some? then Expected(Recorded(fs.files, id).value) else None);
    if !SafeId(id) { return Threw; }
    var m := ReadManifest(fs, id);
    if m.None? { return Threw; }
    var preserved, repaired := RevertOrRepair(fs, id, m.value);
    AfterRevert(old(fs.files), fs.files, live, id);
    if preserved.None? { return if repaired then Threw else ThrewInRepair; }
    ghost var trace1, files1 := fs.trace, fs.files;
    var ok := ClearRollbackArtifacts(fs, id, m.value);
    AfterCleanup(fs, old(fs.files), files1, fs.files, live, id, m.value, preserved.value);
    GrewHeld(trace1, fs.trace, files1, {Manifest(id), Snapshot(id)}, live, Recovery(id), content);
    HeldTwice(old(fs.trace), trace1, fs.trace, live, Recovery(id), content);
    GrewKept(trace1, fs.trace, files1, {Manifest(id), Snapshot(id)}, Recovery(id));
    KeptTwice(old(fs.trace), trace1, fs.trace, Recovery(id), At(files1, Recovery(id)));
    outcome := if ok then Restored(m.value.databasePresent, preserved.value) else ThrewInCleanup;
  }

  lemma NothingRepaired(fs: FileSystem, s: State, live: Path, id: string, expected: Option<Verification>)
    ensures Repaired(fs, s, s, live, id, expected)
  {
  }

  lemma KeptTwice(a: seq<State>, b: seq<State>, c: seq<State>, p: Path, content: Option<Content>)
    requires KeptThroughout(b, c, p, content)
    ensures KeptThroughout(a, b, p, content) ==> KeptThroughout(a, c, p, content)
  {
  }

  /** Cleaning up touches neither the database nor its recovery file. */
  lemma NothingTouched(s: State, live: Path, id: string)
    ensures AgreeExcept(s, s, Scratch(live, Recovery(id)) + {live, Recovery(id), Manifest(id), Snapshot(id)})
    ensures Held(s, live, Recovery(id), At(s, live))
  {
  }

  /** Neither the manifest nor the snapshot is touched before the cleanup. */
  lemma AfterRevert(before: State, after: State, live: Path, id: string)
    requires AgreeExcept(after, before, Scratch(live, Recovery(id)) + {live, Recovery(id)}) && live.Database?
    ensures At(after, Manifest(id)) == At(before, Manifest(id)) && At(after, Snapshot(id)) == At(before, Snapshot(id))
    ensures AgreeExcept(after, before, Scratch(live, Recovery(id)) + {live, Recovery(id), Manifest(id), Snapshot(id)})
  {
  }

  lemma AfterCleanup(fs: FileSystem, first: State, before: State, after: State, live: Path, id: string, m: Record, preserved: bool)
    requires AgreeExcept(after, before, {Manifest(id), Snapshot(id)}) && live.Database?
    requires AgreeExcept(before, first, Scratch(live, Recovery(id)) + {live, Recovery(id)})
    ensures AgreeExcept(after, first, Scratch(live, Recovery(id)) + {live, Recovery(id), Manifest(id), Snapshot(id)})
    ensures Held(before, live, Recovery(id), At(first, live)) ==> Held(after, live, Recovery(id), At(first, live))
    ensures At(after, live) == At(before, live) && At(after, Recovery(id)) == At(before, Recovery(id))
    ensures Reverted(fs, before, live, m) ==> Reverted(fs, after, live, m)
    ensures Accounted(first, before, live, Recovery(id), preserved) ==> Accounted(first, after, live, Recovery(id), preserved)
  {
  }
}
