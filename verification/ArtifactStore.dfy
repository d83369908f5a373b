/** The artifact store: an index of records over files on disk (packages/dkrypt/src/artifacts.ts). */
module ArtifactStores {
  import opened Wrappers
  import opened Keyed
  import opened Artifacts
  import opened ArtifactQuota
  import opened ArtifactUndo
  import StableSort

  /** How a promotion ends; a reused artifact is touched even when saving that fails, which throws. */
  datatype Promotion = Reused(id: string) | ReusedUnsaved(id: string) | Stored(artifact: Artifact) | Rejected

  /** When the caller's abort signal comes, as the promotion's checks see it. */
  datatype Signal = Never | AtStart | BeforeStoring | AfterStoring

  datatype FlagResult = Threw | Flagged(changedIds: seq<string>, previousAt: seq<Option<int>>, missingIds: seq<string>)

  datatype UndoResult = UndoThrew | Undone(undoneIds: seq<string>, conflictIds: seq<string>)

  datatype Preview = Preview(evicted: seq<Artifact>, retained: seq<Artifact>, currentBytes: nat, retainedBytes: nat,
                             reclaimedBytes: nat, remainingOverQuotaBytes: nat)

  function Stale(index: seq<Artifact>, disk: Disk): seq<Artifact> {
    if index == [] then []
    else
      var a := index[|index| - 1];
      Stale(index[..|index| - 1], disk) + if a.path in disk then [] else [a]
  }

  /** The index after files moved into the artifact directory were found again and every size re-read. */
  function Normalized(index: seq<Artifact>, disk: Disk, relocate: string -> string): seq<Artifact> {
    if index == [] then []
    else
      var a := index[|index| - 1];
      var before := Normalized(index[..|index| - 1], disk, relocate);
      if a.path in disk then before + [a.(size := disk[a.path])]
      else if relocate(a.path) in disk then before + [a.(path := relocate(a.path), size := disk[relocate(a.path)])]
      else before
  }

  /** The disk once the staging directory is empty. */
  function Unstaged(disk: Disk, staged: string -> bool): Disk {
    map p | p in disk && !staged(p) :: disk[p]
  }

  /** Where no record names a staged file, emptying the staging directory changes nothing for the index. */
  lemma {:induction false} StagingIsApart(index: seq<Artifact>, disk: Disk, relocate: string -> string, staged: string -> bool)
    requires forall a | a in index :: !staged(a.path) && !staged(relocate(a.path))
    ensures Available(index, Unstaged(disk, staged)) == Available(index, disk)
    ensures Normalized(index, Unstaged(disk, staged), relocate) == Normalized(index, disk, relocate)
  {
    if index == [] {
    } else {
      var n := |index| - 1;
      assert index == index[..n] + [index[n]];
      StagingIsApart(index[..n], disk, relocate, staged);
    }
  }

  /** A record once its file was looked for, if it was found. */
  function FoundAgain(a: Artifact, disk: Disk, relocate: string -> string): Artifact {
    if a.path in disk then a.(size := disk[a.path])
    else if relocate(a.path) in disk then a.(path := relocate(a.path), size := disk[relocate(a.path)])
    else a
  }

  /** The index when a size could not be read: each record as it was, or found, or found but for its size. */
  predicate PartlyFound(before: seq<Artifact>, after: seq<Artifact>, disk: Disk, relocate: string -> string) {
    && |after| == |before|
    && forall i | 0 <= i < |after| ::
         var found := FoundAgain(before[i], disk, relocate);
         after[i] == before[i] || after[i] == found || after[i] == found.(size := before[i].size)
  }

  function Paths(s: seq<Artifact>): set<string> {
    set a | a in s :: a.path
  }

  function Touched(index: seq<Artifact>, key: string, now: int): seq<Artifact> {
    var i := FirstIndex(index, ArtifactKey, key);
    if i < |index| then index[i := index[i].(lastAccessedAt := now)] else index
  }

  /** There is an artifact under this key, and its file is there. */
  predicate Reusable(index: seq<Artifact>, disk: Disk, key: string) {
    Has(index, ArtifactKey, key) && Get(index, ArtifactKey, key).path in disk
  }

  /** A new file of this size can be stored: evicting everything that may go makes room for it. */
  predicate RoomFor(index: seq<Artifact>, disk: Disk, added: Artifact, quota: nat) {
    var available := Available(index, disk);
    var order := LeastRecent(available, {added.key});
    added.size <= quota && FitsAfter(available, order, |order|, added.size, quota)
  }

  function WriteIds(writes: seq<Write>): seq<string> {
    seq(|writes|, i requires 0 <= i < |writes| => writes[i].id)
  }

  function PreviousAt(writes: seq<Write>): seq<Option<int>> {
    seq(|writes|, i requires 0 <= i < |writes| => writes[i].before.at)
  }

  /** The ids asked for that name no artifact, each once. */
  function Missing(index: seq<Artifact>, ids: seq<string>): (missing: seq<string>)
    ensures missing == [] <==> AllKnown(index, ids)
  {
    if ids == [] then []
    else
      var n := |ids| - 1;
      assert ids == ids[..n] + [ids[n]];
      Missing(index, ids[..n]) + if ids[n] in ids[..n] || Known(index, ids[n]) then [] else [ids[n]]
  }

  /** The tokens that no longer apply when their turn comes. */
  function Conflicts(index: seq<Artifact>, changes: seq<UndoChange>, clock: int -> int): seq<string> {
    if changes == [] then []
    else
      var n := |changes| - 1;
      var current := Written(index, UndoWrites(index, changes[..n], clock));
      Conflicts(index, changes[..n], clock) + if Applies(current, changes[n]) then [] else [changes[n].id]
  }

  lemma {:induction false} SplitByDisk(index: seq<Artifact>, disk: Disk)
    ensures multiset(Available(index, disk)) + multiset(Stale(index, disk)) == multiset(index)
  {
    if index == [] {
    } else {
      var n := |index| - 1;
      SplitByDisk(index[..n], disk);
      assert index == index[..n] + [index[n]];
      if index[n].path in disk {
        assert Stale(index, disk) == Stale(index[..n], disk);
      } else {
        assert Available(index, disk) == Available(index[..n], disk);
      }
    }
  }

  lemma BytesByDisk(index: seq<Artifact>, disk: Disk)
    ensures Bytes(Available(index, disk)) + Bytes(Stale(index, disk)) == Bytes(index)
  {
    SplitByDisk(index, disk);
    var both := Available(index, disk) + Stale(index, disk);
    BytesConcat(Available(index, disk), Stale(index, disk));
    assert multiset(both) == multiset(index);
    BytesOfPart(both, index);
  }

  /** With the stale records and an eviction plan gone, a file that fitted leaves the index within the quota. */
  lemma PromotionFits(index: seq<Artifact>, disk: Disk, order: seq<Artifact>, plan: seq<Artifact>, removed: set<string>,
                      added: Artifact, quota: nat)
    requires multiset(plan) <= multiset(Available(index, disk))
    requires plan <= order && FitsAfter(Available(index, disk), order, |plan|, added.size, quota)
    requires Ids(plan) + Ids(Stale(index, disk)) <= removed
    ensures Bytes(Without(index, removed) + [added]) <= quota
  {
    hide Available, Stale, Without;
    SplitByDisk(index, disk);
    BytesByDisk(index, disk);
    var stale := Stale(index, disk);
    var gone := plan + stale;
    assert multiset(gone) == multiset(plan) + multiset(stale);
    forall id | id in Ids(gone)
      ensures id in removed
    {
      assert id in Ids(plan) || id in Ids(stale);
    }
    WithoutFrees(index, removed, gone);
    BytesConcat(plan, stale);
    BytesConcat(Without(index, removed), [added]);
    assert Bytes([added]) == added.size;
    assert order[..|plan|] == plan;
  }

  /** A failed plan never happens when all that is asked for fits after evicting everything. */
  lemma PlanFits(available: seq<Artifact>, order: seq<Artifact>, plan: seq<Artifact>, required: nat, quota: nat)
    requires ShortestPrefix(available, order, plan, required, quota) && FitsAfter(available, order, |order|, required, quota)
    ensures FitsAfter(available, order, |plan|, required, quota)
  {
  }

  lemma {:induction false} WithoutNone(s: seq<Artifact>)
    ensures Without(s, Ids([])) == s
  {
    if s == [] {
    } else {
      WithoutNone(s[..|s| - 1]);
    }
  }

  /** After reconciling, the index is within the quota or nothing unpinned is left in it. */
  lemma ReconciledFits(before: seq<Artifact>, evicted: seq<Artifact>, quota: nat)
    requires ShortestPrefix(before, LeastRecent(before, {}), evicted, 0, quota)
    ensures var after := Without(before, Ids(evicted));
            Bytes(after) <= quota || forall a | a in after :: a.pin.at.Some?
  {
    var order, after := LeastRecent(before, {}), Without(before, Ids(evicted));
    PlanIsLeastRecent(before, {}, evicted, 0, quota);
    WithoutFrees(before, Ids(evicted), evicted);
    WithoutAre(before, Ids(evicted));
    if |evicted| == |order| {
      assert evicted == order;
      CandidatesAre(before, {});
      InMultiset(order, Candidates(before, {}));
      forall a | a in after
        ensures a.pin.at.Some?
      {
        assert a in order ==> a.id in Ids(evicted);
      }
    } else {
      assert order[..|evicted|] == evicted;
    }
  }

  /** Pinned files survive every promotion and reconciliation. */
  lemma PinnedStays(available: seq<Artifact>, protectedKeys: set<string>, plan: seq<Artifact>, required: nat, quota: nat, a: Artifact)
    requires Unique(available, ArtifactId) && a in available && a.pin.at.Some?
    requires ShortestPrefix(available, LeastRecent(available, protectedKeys), plan, required, quota)
    ensures a.id !in Ids(plan)
  {
    PlanIsLeastRecent(available, protectedKeys, plan, required, quota);
    forall b | b in plan
      ensures b.id != a.id
    {
      var i :| 0 <= i < |available| && available[i] == a;
      var j :| 0 <= j < |available| && available[j] == b;
      assert i != j;
      assert ArtifactId(available[i]) != ArtifactId(available[j]);
    }
  }

  class ArtifactStore {
    var index: seq<Artifact>
    var disk: Disk
    const quota: nat
    /** Where a file of an old artifact directory would be now. */
    const relocate: string -> string
    /** The artifact directory's own files, those with the extension of an app. */
    const owned: string -> bool
    /** The staging directory's files. */
    const staged: string -> bool

    constructor (index: seq<Artifact>, disk: Disk, quota: nat, relocate: string -> string, owned: string -> bool,
                 staged: string -> bool)
      ensures this.index == index && this.disk == disk && this.quota == quota
      ensures this.relocate == relocate && this.owned == owned && this.staged == staged
    {
      this.index, this.disk, this.quota, this.relocate := index, disk, quota, relocate;
      this.owned, this.staged := owned, staged;
    }

    method AvailableArtifacts() returns (available: seq<Artifact>, stale: seq<Artifact>)
      ensures available == Available(index, disk) && stale == Stale(index, disk)
    {
      available, stale := [], [];
      for i := 0 to |index|
        invariant available == Available(index[..i], disk) && stale == Stale(index[..i], disk)
      {
        assert index[..i + 1][..i] == index[..i];
        if index[i].path in disk {
          available := available + [index[i]];
        } else {
          stale := stale + [index[i]];
        }
      }
      assert index[..|index|] == index;
    }

    method WithoutIds(records: seq<Artifact>, ids: set<string>) returns (kept: seq<Artifact>)
      ensures kept == Without(records, ids)
    {
      kept := [];
      for i := 0 to |records|
        invariant kept == Without(records[..i], ids)
      {
        assert records[..i + 1][..i] == records[..i];
        if records[i].id !in ids {
          kept := kept + [records[i]];
        }
      }
      assert records[..|records|] == records;
    }

    /** Deleting evicted files: each deletion can fail, which is only logged. */
    method RemoveFiles(records: seq<Artifact>)
      modifies `disk
      ensures forall p :: p in disk ==> p in old(disk) && disk[p] == old(disk)[p]
      ensures forall p :: p in old(disk) && p !in disk ==> exists a :: a in records && a.path == p
    {
      for i := 0 to |records|
        invariant forall p :: p in disk ==> p in old(disk) && disk[p] == old(disk)[p]
        invariant forall p :: p in old(disk) && p !in disk ==> exists a :: a in records && a.path == p
      {
        assert records[i] in records;
        var removed: bool := *;
        if removed {
          disk := disk - {records[i].path};
        }
      }
    }

    /** promoteArtifact: `added` is the record to store, its size that of the staged file. A file already stored
        under the key is reused. Otherwise the promotion is rejected exactly when the caller aborts, there is no
        room even after evicting all that may go, or persisting fails, and then the old index stays. */
    method PromoteArtifact(added: Artifact, now: int, signal: Signal, persists: bool) returns (p: Promotion, ghost plan: seq<Artifact>)
      modifies `index, `disk
      ensures p.Rejected? <==>
        || signal.AtStart?
        || (!Reusable(old(index), old(disk), added.key)
            && (!signal.Never? || !RoomFor(old(index), old(disk), added, quota) || !persists))
      ensures p.Rejected? ==> index == old(index)
      ensures !signal.AtStart? && Reusable(old(index), old(disk), added.key) ==>
        && index == Touched(old(index), added.key, now) && disk == old(disk)
        && var id := Get(old(index), ArtifactKey, added.key).id;
           p == if persists then Reused(id) else ReusedUnsaved(id)
      ensures p.Stored? ==>
        && p.artifact == added
        && ShortestPrefix(Available(old(index), old(disk)), LeastRecent(Available(old(index), old(disk)), {added.key}),
                          plan, added.size, quota)
        && index == Without(old(index), Ids(plan) + Ids(Stale(old(index), old(disk)))) + [added]
        && Bytes(index) <= quota
    {
      plan := [];
      if signal.AtStart? { return Rejected, []; }
      var i := Find(index, ArtifactKey, added.key);
      if i < |index| && index[i].path in disk {
        index := index[i := index[i].(lastAccessedAt := now)];
        return if persists then Reused(index[i].id) else ReusedUnsaved(index[i].id), [];
      }
      hide RoomFor, ShortestPrefix;
      var planned, stale := PlanRoom(added);
      if planned.None? || signal.BeforeStoring? { return Rejected, []; }
      plan := planned.value;
      disk := disk[added.path := added.size];
      if signal.AfterStoring? {
        RemoveFiles([added]);
        return Rejected, [];
      }
      var previous := index;
      var kept := WithoutIds(previous, Ids(planned.value) + Ids(stale));
      index := kept + [added];
      if !persists {
        index := previous;
        RemoveFiles([added]);
        return Rejected, [];
      }
      RemoveFiles(planned.value);
      RemoveFiles(stale);
      p := Stored(added);
    }

    /** What to evict for a new file, if there can be room for it, and the records whose files are gone. */
    method PlanRoom(added: Artifact) returns (plan: Option<seq<Artifact>>, stale: seq<Artifact>)
      ensures plan.Some? <==> RoomFor(index, disk, added, quota)
      ensures stale == Stale(index, disk)
      ensures plan.Some? ==>
        && ShortestPrefix(Available(index, disk), LeastRecent(Available(index, disk), {added.key}), plan.value, added.size, quota)
        && Bytes(Without(index, Ids(plan.value) + Ids(stale)) + [added]) <= quota
    {
      var available;
      available, stale := AvailableArtifacts();
      var planned := PlanArtifactEvictions(available, added.size, quota, {added.key}, true);
      ghost var order := LeastRecent(available, {added.key});
      if planned.Failure? {
        assert planned.error.TooLarge? || planned.error.NotEnough?;
        return None, stale;
      }
      hide LeastRecent, Available, Bytes, Without, Stale;
      PlanIsLeastRecent(available, {added.key}, planned.value, added.size, quota);
      PlanFits(available, order, planned.value, added.size, quota);
      PromotionFits(index, disk, order, planned.value, Ids(planned.value) + Ids(stale), added, quota);
      plan := Some(planned.value);
    }

    /** previewArtifactQuotaRetention: None for a target below one byte. */
    method PreviewArtifactQuotaRetention(target: int) returns (preview: Option<Preview>)
      ensures preview.None? <==> target < 1
      ensures preview.Some? ==>
        var available, r := Available(index, disk), preview.value;
        && ShortestPrefix(available, LeastRecent(available, {}), r.evicted, 0, target)
        && r.retained == Without(available, Ids(r.evicted))
        && r.currentBytes == Bytes(available) && r.retainedBytes == Bytes(r.retained) && r.reclaimedBytes == Bytes(r.evicted)
        && r.remainingOverQuotaBytes == (if r.retainedBytes > target then r.retainedBytes - target else 0)
    {
      if target < 1 { return None; }
      var available, _ := AvailableArtifacts();
      var planned := PlanArtifactEvictions(available, 0, target, {}, false);
      var evicted := planned.value;
      var retained := WithoutIds(available, Ids(evicted));
      var retainedBytes := Bytes(retained);
      preview := Some(Preview(evicted, retained, Bytes(available), retainedBytes, Bytes(evicted),
                              if retainedBytes > target then retainedBytes - target else 0));
    }

    /** The sweep of the artifact directory: every file of its own that no record names is deleted, up to the first
        deletion that fails. */
    method SweepUnindexed() returns (ok: bool)
      modifies `disk
      ensures forall p :: p in disk ==> p in old(disk) && disk[p] == old(disk)[p]
      ensures forall p :: p in old(disk) && p !in disk ==> owned(p) && p !in Paths(index)
      ensures ok ==> forall p :: p in disk && owned(p) ==> p in Paths(index)
    {
      ok := *;
      var left: set<string> := *;
      var indexed := Paths(index);
      disk := map p | p in disk && (!owned(p) || p in indexed || (!ok && p in left)) :: disk[p];
    }

    /** Finding moved files again and reading every size, which can fail: the records found so far keep their new path
        and size then. */
    method Normalize() returns (ok: bool)
      modifies `index
      ensures ok ==> index == Normalized(old(index), disk, relocate)
      ensures !ok ==> PartlyFound(old(index), index, disk, relocate)
    {
      var given, normalized := index, [];
      for i := 0 to |given|
        invariant |index| == |given| && normalized == Normalized(given[..i], disk, relocate)
        invariant forall j | 0 <= j < i :: index[j] == FoundAgain(given[j], disk, relocate)
        invariant forall j | i <= j < |given| :: index[j] == given[j]
      {
        assert given[..i + 1][..i] == given[..i];
        var path := if index[i].path in disk then index[i].path else relocate(index[i].path);
        if path in disk {
          index := index[i := index[i].(path := path)];
          var readable: bool := *;
          if !readable { return false; }
          index := index[i := index[i].(size := disk[path])];
          normalized := normalized + [index[i]];
        }
      }
      assert given[..|given|] == given;
      index := normalized;
      ok := true;
    }

    /** Emptying the staging directory, up to the first deletion that fails. */
    method EmptyStaging() returns (ok: bool)
      modifies `disk
      ensures forall p :: p in disk ==> p in old(disk) && disk[p] == old(disk)[p]
      ensures forall p :: p in old(disk) && p !in disk ==> staged(p)
      ensures ok ==> disk == Unstaged(old(disk), staged)
    {
      ok := *;
      var left: set<string> := *;
      disk := map p | p in disk && (!staged(p) || (!ok && p in left)) :: disk[p];
    }

    /** reconcileArtifactStore. Success means saved; the files deleted are the staged ones, those no record names and
        those evicted. */
    method ReconcileArtifactStore(persists: bool) returns (ok: bool, evicted: seq<Artifact>)
      modifies `index, `disk
      ensures ok ==> persists
      ensures forall p :: p in disk ==> p in old(disk) && disk[p] == old(disk)[p]
      ensures var before := Normalized(old(index), Unstaged(old(disk), staged), relocate);
        && (forall p :: p in old(disk) && p !in disk && !staged(p) ==> (owned(p) && p !in Paths(before)) || p in Paths(evicted))
        && (!ok ==>
              && evicted == []
              && (|| index == before
                  || (index == old(index) && forall p :: p in old(disk) && p !in disk ==> staged(p))
                  || (disk == Unstaged(old(disk), staged) && PartlyFound(old(index), index, disk, relocate))))
        && (ok ==>
              && ShortestPrefix(before, LeastRecent(before, {}), evicted, 0, quota) && index == Without(before, Ids(evicted))
              && forall p :: p in disk ==> !staged(p) && (owned(p) ==> p in Paths(before)))
    {
      evicted := [];
      ok := EmptyStaging();
      if !ok { return; }
      ok := Normalize();
      if !ok { return; }
      ok := SweepUnindexed();
      if !ok { return; }
      if Bytes(index) > quota {
        var previous := index;
        var planned := PlanArtifactEvictions(index, 0, quota, {}, false);
        index := WithoutIds(previous, Ids(planned.value));
        if !persists {
          index := previous;
          return false, [];
        }
        evicted := planned.value;
        RemoveFiles(evicted);
      } else {
        WithoutNone(index);
      }
      ok := persists;
    }

    method FlagWrites(kind: FlagKind, ids: seq<string>, on: bool, at: int, clock: string -> int) returns (writes: seq<Write>)
      requires AllKnown(index, ids)
      ensures writes == SetWrites(index, kind, ids, on, at, clock)
    {
      writes := [];
      for i := 0 to |ids|
        invariant AllKnown(index, ids[..i])
        invariant writes == SetWrites(index, kind, ids[..i], on, at, clock)
      {
        assert ids[..i + 1][..i] == ids[..i] && ids[i] in ids;
        var flag := FlagAt(index, ids[i], kind);
        if ids[i] !in ids[..i] && flag.at.Some? != on {
          writes := writes + [Write(ids[i], kind, flag,
                                    Flag(if on then Some(at) else None, Some(NextRevision(flag.revision, clock(ids[i])))))];
        }
      }
      assert ids[..|ids|] == ids;
    }

    /** setArtifactsPinned (kind Pin) and setArtifactsArchived (kind Archive). */
    method SetArtifactsFlag(kind: FlagKind, ids: seq<string>, on: bool, at: int, clock: string -> int, persists: bool)
      returns (result: FlagResult)
      modifies `index
      ensures index == Called(old(index), SetCall(kind, ids, on, at, clock, persists))
      ensures result ==
        var missing, writes := Missing(old(index), ids), CallWrites(old(index), SetCall(kind, ids, on, at, clock, persists));
        if missing != [] then Flagged([], [], missing)
        else if writes == [] || persists then Flagged(WriteIds(writes), PreviousAt(writes), [])
        else Threw
    {
      var missing := [];
      for i := 0 to |ids|
        invariant index == old(index) && missing == Missing(index, ids[..i])
      {
        assert ids[..i + 1][..i] == ids[..i];
        var found := Find(index, ArtifactId, ids[i]);
        if found == |index| && ids[i] !in ids[..i] {
          missing := missing + [ids[i]];
        }
      }
      assert ids[..|ids|] == ids;
      if missing != [] { return Flagged([], [], missing); }
      var writes := FlagWrites(kind, ids, on, at, clock);
      WriteAll(writes);
      if persists || writes == [] { return Flagged(WriteIds(writes), PreviousAt(writes), []); }
      TakeBack(writes);
      result := Threw;
    }

    /** Applying writes in order. */
    method WriteAll(writes: seq<Write>)
      modifies `index
      ensures index == Written(old(index), writes)
    {
      for i := 0 to |writes|
        invariant index == Written(old(index), writes[..i])
      {
        assert writes[..i + 1][..i] == writes[..i];
        index := PutFlag(index, writes[i].id, writes[i].kind, writes[i].after);
      }
      assert writes[..|writes|] == writes;
    }

    /** Putting back, first to last, what each write replaced. */
    method TakeBack(writes: seq<Write>)
      modifies `index
      ensures index == Replayed(old(index), writes)
    {
      for i := 0 to |writes|
        invariant index == Replayed(old(index), writes[..i])
      {
        assert writes[..i + 1][..i] == writes[..i];
        index := PutFlag(index, writes[i].id, writes[i].kind, writes[i].before);
      }
      assert writes[..|writes|] == writes;
    }

    /** undoArtifactStateChanges. */
    method UndoArtifactStateChanges(changes: seq<UndoChange>, clock: int -> int, persists: bool) returns (result: UndoResult)
      modifies `index
      ensures index == Called(old(index), UndoCall(changes, clock, persists))
      ensures result ==
        var writes := UndoWrites(old(index), changes, clock);
        if writes == [] || persists then Undone(WriteIds(writes), Conflicts(old(index), changes, clock)) else UndoThrew
    {
      var writes: seq<Write> := [];
      var conflicts := [];
      for i := 0 to |changes|
        invariant writes == UndoWrites(old(index), changes[..i], clock)
        invariant conflicts == Conflicts(old(index), changes[..i], clock)
        invariant index == Written(old(index), writes)
      {
        assert changes[..i + 1][..i] == changes[..i];
        var c := changes[i];
        if Applies(index, c) {
          var flag := FlagAt(index, c.id, c.kind);
          var w := Write(c.id, c.kind, flag, Flag(c.restoreAt, Some(NextRevision(flag.revision, clock(i)))));
          assert (writes + [w])[..|writes|] == writes;
          writes := writes + [w];
          index := PutFlag(index, c.id, c.kind, w.after);
        } else {
          conflicts := conflicts + [c.id];
        }
      }
      assert changes[..|changes|] == changes;
      if persists || writes == [] { return Undone(WriteIds(writes), conflicts); }
      TakeBack(writes);
      result := UndoThrew;
    }
  }
}
