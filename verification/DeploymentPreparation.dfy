/** Preparing a deployment's rollback (packages/dkrypt/src/deploymentDatabase.ts:62-81, 213-244). */
module DeploymentPreparation {
  import opened Wrappers
  import opened FileSystems
  import opened DeploymentRollback

  /** A manifest for this deployment is in place, and with it, if there was a database, a whole snapshot that
      verifies to what the manifest records. */
  predicate Prepared(fs: FileSystem, s: State, id: string, name: string, content: Option<Content>) {
    var m := Recorded(s, id);
    && m.Some? && m.value.deploymentId == id && m.value.databaseFile == name
    && if content.Some? then
         && m.value.databasePresent && m.value.backupFile == Some(BackupName(id))
         && Expected(m.value).Some? && Expected(m.value) == fs.verification(content.value)
         && At(s, Snapshot(id)) == content
       else !m.value.databasePresent && m.value.backupFile.None?
  }

  /** No state on the way has a manifest without what it promises. */
  ghost predicate NeverHalfPrepared(fs: FileSystem, before: seq<State>, after: seq<State>, id: string, name: string, content: Option<Content>) {
    && |before| <= |after| && after[..|before|] == before
    && forall i | |before| <= i < |after| :: Manifest(id) in after[i] ==> Prepared(fs, after[i], id, name, content)
  }

  lemma NoManifestYet(fs: FileSystem, before: seq<State>, after: seq<State>, base: State, paths: set<Path>,
                      id: string, name: string, content: Option<Content>)
    requires Grew(before, after, base, paths) && Manifest(id) !in base && Manifest(id) !in paths
    ensures NeverHalfPrepared(fs, before, after, id, name, content)
  {
  }

  lemma NeverHalfTwice(fs: FileSystem, a: seq<State>, b: seq<State>, c: seq<State>, id: string, name: string, content: Option<Content>)
    requires NeverHalfPrepared(fs, a, b, id, name, content) && NeverHalfPrepared(fs, b, c, id, name, content)
    ensures NeverHalfPrepared(fs, a, c, id, name, content)
  {
  }

  /** atomicWrite of the manifest. */
  method WriteManifest(fs: FileSystem, id: string, m: Record, ghost content: Option<Content>) returns (ok: bool)
    requires fs.Valid() && Manifest(id) !in fs.files
    requires Prepared(fs, fs.files[Manifest(id) := Json(m)], id, m.databaseFile, content)
    modifies fs
    ensures fs.Valid()
    ensures Manifest(id) in fs.files ==> Prepared(fs, fs.files, id, m.databaseFile, content)
    ensures AgreeExcept(fs.files, old(fs.files), {Manifest(id), Temporary(Manifest(id))})
    ensures NeverHalfPrepared(fs, old(fs.trace), fs.trace, id, m.databaseFile, content)
    ensures ok ==> Prepared(fs, fs.files, id, m.databaseFile, content) && Recorded(fs.files, id) == Some(m)
  {
    hide Grew, WroteTo, NeverHalfPrepared, Prepared;
    var temporary := Temporary(Manifest(id));
    var taken := fs.Exists(temporary);
    if taken {
      NoManifestYet(fs, fs.trace, fs.trace, fs.files, {}, id, m.databaseFile, content) by { GrewNothing(fs.trace, fs.files); }
      return false;
    }
    ok := fs.Write(temporary, Json(m));
    NoManifestYet(fs, old(fs.trace), fs.trace, old(fs.files), {temporary}, id, m.databaseFile, content);
    StillPrepared(fs, old(fs.files), fs.files, id, m, content);
    if ok {
      ok := fs.Sync();
    }
    ghost var trace1, files1 := fs.trace, fs.files;
    if !ok {
      var _ := fs.Remove(temporary);
      NoManifestYet(fs, trace1, fs.trace, files1, {temporary}, id, m.databaseFile, content);
      NeverHalfTwice(fs, old(fs.trace), trace1, fs.trace, id, m.databaseFile, content);
      return;
    }
    ok := PutManifest(fs, id, m, content);
    NeverHalfTwice(fs, old(fs.trace), trace1, fs.trace, id, m.databaseFile, content);
  }

  /** The rename that puts the written manifest in place, and the syncs after it. */
  method PutManifest(fs: FileSystem, id: string, m: Record, ghost content: Option<Content>) returns (ok: bool)
    requires fs.Valid() && Manifest(id) !in fs.files
    requires Temporary(Manifest(id)) in fs.files && fs.files[Temporary(Manifest(id))] == Json(m)
    requires Prepared(fs, fs.files[Manifest(id) := Json(m)], id, m.databaseFile, content)
    modifies fs
    ensures fs.Valid()
    ensures Manifest(id) in fs.files ==> Prepared(fs, fs.files, id, m.databaseFile, content)
    ensures AgreeExcept(fs.files, old(fs.files), {Manifest(id), Temporary(Manifest(id))})
    ensures NeverHalfPrepared(fs, old(fs.trace), fs.trace, id, m.databaseFile, content)
    ensures ok ==> Prepared(fs, fs.files, id, m.databaseFile, content) && Recorded(fs.files, id) == Some(m)
  {
    hide Grew, WroteTo, NeverHalfPrepared, Prepared;
    ok := fs.Rename(Temporary(Manifest(id)), Manifest(id));
    RenameWhole(fs, old(fs.trace), fs.trace, old(fs.files), fs.files, id, m, content);
    if ok { ok := fs.Sync(); }
    if ok { ok := fs.Sync(); }
  }

  /** The temporary file of the manifest does not matter to what the manifest will promise. */
  lemma StillPrepared(fs: FileSystem, before: State, after: State, id: string, m: Record, content: Option<Content>)
    requires Prepared(fs, before[Manifest(id) := Json(m)], id, m.databaseFile, content)
    requires AgreeExcept(after, before, {Temporary(Manifest(id))})
    ensures Prepared(fs, after[Manifest(id) := Json(m)], id, m.databaseFile, content)
  {
  }

  lemma GrewNothing(trace: seq<State>, base: State)
    ensures Grew(trace, trace, base, {})
  {
  }

  lemma RenameWhole(fs: FileSystem, before: seq<State>, after: seq<State>, base: State, end: State, id: string, m: Record,
                    content: Option<Content>)
    requires Manifest(id) !in base && Temporary(Manifest(id)) in base && base[Temporary(Manifest(id))] == Json(m)
    requires Prepared(fs, base[Manifest(id) := Json(m)], id, m.databaseFile, content)
    requires after == before || (after == before + [end] && end == base[Manifest(id) := Json(m)] - {Temporary(Manifest(id))})
    ensures NeverHalfPrepared(fs, before, after, id, m.databaseFile, content)
    ensures end == base[Manifest(id) := Json(m)] - {Temporary(Manifest(id))} ==>
              Prepared(fs, end, id, m.databaseFile, content) && Recorded(end, id) == Some(m)
  {
  }

  /** The snapshot that a manifest will name, kept only if it verifies to what the live database did. */
  method TakeSnapshot(fs: FileSystem, id: string, name: string, source: Verification) returns (ok: bool)
    requires fs.Valid() && Manifest(id) !in fs.files && Database(name) in fs.files
    modifies fs
    ensures fs.Valid()
    ensures AgreeExcept(fs.files, old(fs.files), {Temporary(Snapshot(id)), Snapshot(id)})
    ensures NeverHalfPrepared(fs, old(fs.trace), fs.trace, id, name, At(old(fs.files), Database(name)))
    ensures ok ==> At(fs.files, Snapshot(id)) == At(old(fs.files), Database(name)) && Snapshot(id) in fs.files
                   && fs.verification(fs.files[Snapshot(id)]) == Some(source)
  {
    hide Grew, WroteTo, NeverHalfPrepared, AllGo;
    ghost var content := At(fs.files, Database(name));
    var snapshot := CreateDatabaseSnapshot(fs, Database(name), Snapshot(id));
    NoManifestYet(fs, old(fs.trace), fs.trace, old(fs.files), {Temporary(Snapshot(id)), Snapshot(id)}, id, name, content);
    if snapshot.None? { return false; }
    if snapshot.value != source {
      ghost var trace1, files1 := fs.trace, fs.files;
      var _ := fs.Remove(Snapshot(id));
      NoManifestYet(fs, trace1, fs.trace, files1, {Snapshot(id)}, id, name, content);
      NeverHalfTwice(fs, old(fs.trace), trace1, fs.trace, id, name, content);
      return false;
    }
    ok := true;
  }

  /** prepareDeploymentRollback: the live database is never touched, no state on the way has a manifest without
      its snapshot, and success leaves everything a restore needs. */
  method PrepareDeploymentRollback(fs: FileSystem, id: string, name: string) returns (prepared: Option<Record>)
    requires fs.Valid()
    modifies fs
    ensures fs.Valid()
    ensures Manifest(id) !in old(fs.files) && Manifest(id) in fs.files ==>
              Prepared(fs, fs.files, id, name, At(old(fs.files), Database(name)))
    ensures AgreeExcept(fs.files, old(fs.files), {Manifest(id), Temporary(Manifest(id)), Snapshot(id), Temporary(Snapshot(id))})
    ensures Manifest(id) in old(fs.files) ==> prepared.None? && fs.files == old(fs.files)
    ensures Manifest(id) !in old(fs.files) ==> NeverHalfPrepared(fs, old(fs.trace), fs.trace, id, name, At(old(fs.files), Database(name)))
    ensures prepared.Some? ==> Prepared(fs, fs.files, id, name, At(old(fs.files), Database(name)))
                               && Recorded(fs.files, id) == prepared
  {
    hide Grew, WroteTo, NeverHalfPrepared, SafeId, SafeFile, AllGo;
    ghost var content := At(fs.files, Database(name));
    GrewNothing(fs.trace, fs.files);
    if Manifest(id) !in fs.files {
      NoManifestYet(fs, fs.trace, fs.trace, fs.files, {}, id, name, content);
    }
    if !SafeId(id) || !SafeFile(name) { return None; }
    var ok := fs.Sync();
    if ok { ok := fs.Sync(); }
    if !ok { return None; }
    var taken := fs.Exists(Manifest(id));
    if taken { return None; }
    var live := Database(name);
    var present := fs.Exists(live);
    if !present {
      var m := Record(id, name, false, None, None, None);
      ok := WriteManifest(fs, id, m, None);
      return if ok then Some(m) else None;
    }
    var source := fs.VerifyInUse(live);
    if source.None? { return None; }
    ok := TakeSnapshot(fs, id, name, source.value);
    if !ok { return None; }
    ghost var trace1 := fs.trace;
    var m := Record(id, name, true, Some(source.value.schemaVersion), Some(source.value.checksum), Some(BackupName(id)));
    ok := WriteManifest(fs, id, m, content);
    NeverHalfTwice(fs, old(fs.trace), trace1, fs.trace, id, name, content);
    prepared := if ok then Some(m) else None;
  }

  /** Whatever a deployment writes to the database alone, what was prepared stays prepared. */
  lemma DeploymentKeepsPrepared(fs: FileSystem, before: State, after: State, id: string, name: string, content: Option<Content>)
    requires Prepared(fs, before, id, name, content) && AgreeExcept(after, before, {Database(name)})
    ensures Prepared(fs, after, id, name, content)
  {
  }

  /** What was prepared can be restored, whatever the deployment wrote to the database, as long as no recovery file
      is in the way. */
  lemma PreparedIsRestorable(fs: FileSystem, before: State, after: State, id: string, name: string, content: Option<Content>)
    requires Prepared(fs, before, id, name, content) && AgreeExcept(after, before, {Database(name)})
    requires SafeId(id) && SafeFile(name) && Recovery(id) !in before
    requires forall c :: fs.verification(c).Some? ==> HexDigest(fs.verification(c).value.checksum)
    ensures Restorable(fs, after, id)
  {
    DeploymentKeepsPrepared(fs, before, after, id, name, content);
  }

  /** A restore that succeeds after a prepare brings back a database that verifies exactly as the one prepared,
      or none if there was none. */
  lemma RestoreUndoesDeployment(fs: FileSystem, prepared: State, after: State, id: string, name: string, content: Option<Content>)
    requires Prepared(fs, prepared, id, name, content)
    requires Reverted(fs, after, Live(prepared, id), Recorded(prepared, id).value)
    ensures match content
      case Some(c) => Database(name) in after && fs.verification(after[Database(name)]) == fs.verification(c)
      case None => Database(name) !in after
  {
  }
}
