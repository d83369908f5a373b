/** When a retention preview names what reconciling would evict (packages/dkrypt/src/artifacts.ts:363-375, 451-484,
    642-680): the preview goes by the sizes the index records, reconciling by the files' own, and it finds moved
    files again. */
module ArtifactPreview {
  import opened Wrappers
  import opened Artifacts
  import opened ArtifactQuota
  import opened ArtifactStores
  import StableSort

  /** What presses for the eviction of the n-th candidate: the bytes left with those before it gone. */
  function Pressure(available: seq<Artifact>, order: seq<Artifact>, n: nat): int {
    if n < |order| then Bytes(available) - Bytes(order[..n]) else 0
  }

  ghost predicate Part(order: seq<Artifact>, available: seq<Artifact>) {
    multiset(order) <= multiset(available)
  }

  lemma PressureNatural(available: seq<Artifact>, order: seq<Artifact>, n: nat)
    requires Part(order, available)
    ensures Pressure(available, order, n) >= 0
  {
    if n < |order| {
      BytesOfPart(order, available);
      BytesGrow(order, n, |order|);
      assert order[..|order|] == order;
    }
  }

  /** A plan evicts the candidates whose pressure is over the quota. */
  lemma PlanByPressure(available: seq<Artifact>, order: seq<Artifact>, plan: seq<Artifact>, quota: nat, n: nat)
    requires ShortestPrefix(available, order, plan, 0, quota)
    ensures n < |plan| <==> Pressure(available, order, n) > quota
  {
    if n < |plan| {
      assert !FitsAfter(available, order, n, 0, quota);
    } else if n < |order| {
      BytesGrow(order, |plan|, n);
    }
  }

  lemma {:induction false} PlanExists(available: seq<Artifact>, order: seq<Artifact>, quota: nat, tried: nat) returns (plan: seq<Artifact>)
    requires tried <= |order| && forall n | 0 <= n < tried :: !FitsAfter(available, order, n, 0, quota)
    ensures ShortestPrefix(available, order, plan, 0, quota)
    decreases |order| - tried
  {
    if tried == |order| || FitsAfter(available, order, tried, 0, quota) {
      plan := order[..tried];
    } else {
      plan := PlanExists(available, order, quota, tried + 1);
    }
  }

  predicate SameIds(a: seq<Artifact>, b: seq<Artifact>) {
    |a| == |b| && forall i | 0 <= i < |a| :: a[i].id == b[i].id
  }

  /** Two lists of files lead to plans that name the same records at every quota. */
  ghost predicate SamePlans(a: seq<Artifact>, orderA: seq<Artifact>, b: seq<Artifact>, orderB: seq<Artifact>) {
    forall quota: nat, planA: seq<Artifact>, planB: seq<Artifact> | ShortestPrefix(a, orderA, planA, 0, quota) && ShortestPrefix(b, orderB, planB, 0, quota) ::
      SameIds(planA, planB)
  }

  /** The same record is next under the same pressure, as long as there is any. */
  ghost predicate SamePressure(a: seq<Artifact>, orderA: seq<Artifact>, b: seq<Artifact>, orderB: seq<Artifact>) {
    forall n: nat ::
      && Pressure(a, orderA, n) == Pressure(b, orderB, n)
      && (Pressure(a, orderA, n) > 0 ==> orderA[n].id == orderB[n].id)
  }

  lemma SamePressurePlans(a: seq<Artifact>, orderA: seq<Artifact>, b: seq<Artifact>, orderB: seq<Artifact>)
    requires SamePressure(a, orderA, b, orderB)
    ensures SamePlans(a, orderA, b, orderB)
  {
    hide Pressure, FitsAfter;
    forall quota: nat, planA: seq<Artifact>, planB: seq<Artifact> | ShortestPrefix(a, orderA, planA, 0, quota) && ShortestPrefix(b, orderB, planB, 0, quota)
      ensures SameIds(planA, planB)
    {
      PlanByPressure(a, orderA, planA, quota, |planA|);
      PlanByPressure(b, orderB, planB, quota, |planA|);
      PlanByPressure(a, orderA, planA, quota, |planB|);
      PlanByPressure(b, orderB, planB, quota, |planB|);
      forall i | 0 <= i < |planA|
        ensures planA[i].id == planB[i].id
      {
        PlanByPressure(a, orderA, planA, quota, i);
        assert planA[i] == orderA[i] && planB[i] == orderB[i];
      }
    }
  }

  /** A candidate under more pressure in one list than in the other is evicted from that one alone at some quota. */
  lemma MorePressure(a: seq<Artifact>, orderA: seq<Artifact>, b: seq<Artifact>, orderB: seq<Artifact>, n: nat)
    requires Part(orderB, b) && Pressure(a, orderA, n) > Pressure(b, orderB, n)
    ensures !SamePlans(a, orderA, b, orderB) && !SamePlans(b, orderB, a, orderA)
  {
    hide Pressure, FitsAfter;
    PressureNatural(b, orderB, n);
    var quota: nat := Pressure(b, orderB, n);
    var planA := PlanExists(a, orderA, quota, 0);
    var planB := PlanExists(b, orderB, quota, 0);
    PlanByPressure(a, orderA, planA, quota, n);
    PlanByPressure(b, orderB, planB, quota, n);
    assert !SameIds(planA, planB) && !SameIds(planB, planA);
  }

  /** The two lists lead to the same plans at every quota exactly when the pressures agree. */
  lemma SamePlansExactly(a: seq<Artifact>, orderA: seq<Artifact>, b: seq<Artifact>, orderB: seq<Artifact>)
    requires Part(orderA, a) && Part(orderB, b)
    ensures SamePlans(a, orderA, b, orderB) <==> SamePressure(a, orderA, b, orderB)
  {
    if SamePressure(a, orderA, b, orderB) {
      SamePressurePlans(a, orderA, b, orderB);
    } else {
      var n: nat :| !(Pressure(a, orderA, n) == Pressure(b, orderB, n)
                      && (Pressure(a, orderA, n) > 0 ==> orderA[n].id == orderB[n].id));
      hide Pressure, SamePlans;
      if Pressure(a, orderA, n) > Pressure(b, orderB, n) {
        MorePressure(a, orderA, b, orderB, n);
      } else if Pressure(a, orderA, n) < Pressure(b, orderB, n) {
        MorePressure(b, orderB, a, orderA, n);
      } else {
        OtherRecord(a, orderA, b, orderB, n);
      }
    }
  }

  lemma OtherRecord(a: seq<Artifact>, orderA: seq<Artifact>, b: seq<Artifact>, orderB: seq<Artifact>, n: nat)
    requires Pressure(a, orderA, n) == Pressure(b, orderB, n) > 0 && orderA[n].id != orderB[n].id
    ensures !SamePlans(a, orderA, b, orderB)
  {
    hide Pressure, FitsAfter;
    var quota: nat := Pressure(a, orderA, n) - 1;
    var planA := PlanExists(a, orderA, quota, 0);
    var planB := PlanExists(b, orderB, quota, 0);
    PlanByPressure(a, orderA, planA, quota, n);
    assert planA[n] == orderA[n];
    assert n < |planB| ==> planB[n] == orderB[n];
    assert !SameIds(planA, planB);
  }

  /** The pressures exceed the quota at the same positions, and the same records stand there. */
  ghost predicate SamePressureOver(a: seq<Artifact>, orderA: seq<Artifact>, b: seq<Artifact>, orderB: seq<Artifact>, quota: nat) {
    forall n: nat ::
      && (Pressure(a, orderA, n) > quota <==> Pressure(b, orderB, n) > quota)
      && (Pressure(a, orderA, n) > quota ==> orderA[n].id == orderB[n].id)
  }

  /** At one quota the plans name the same records exactly when the pressures over it stand at the same records. */
  lemma SameAtQuotaExactly(a: seq<Artifact>, orderA: seq<Artifact>, planA: seq<Artifact>,
                           b: seq<Artifact>, orderB: seq<Artifact>, planB: seq<Artifact>, quota: nat)
    requires ShortestPrefix(a, orderA, planA, 0, quota) && ShortestPrefix(b, orderB, planB, 0, quota)
    ensures SameIds(planA, planB) <==> SamePressureOver(a, orderA, b, orderB, quota)
  {
    forall n: nat
      ensures n < |planA| <==> Pressure(a, orderA, n) > quota
      ensures n < |planB| <==> Pressure(b, orderB, n) > quota
      ensures n < |planA| ==> planA[n] == orderA[n]
      ensures n < |planB| ==> planB[n] == orderB[n]
    {
      PlanByPressure(a, orderA, planA, quota, n);
      PlanByPressure(b, orderB, planB, quota, n);
    }
    hide Pressure, FitsAfter, ShortestPrefix;
    if SamePressureOver(a, orderA, b, orderB, quota) {
      var n, m := |planA|, |planB|;
      assert Pressure(a, orderA, n) > quota <==> Pressure(b, orderB, n) > quota;
      assert Pressure(a, orderA, m) > quota <==> Pressure(b, orderB, m) > quota;
    }
  }

  // ---------------------------------------------------------------- the preview and the reconciliation of a store

  lemma LeastRecentIsPart(available: seq<Artifact>)
    ensures Part(LeastRecent(available, {}), available)
  {
    CandidatesAre(available, {});
    StableSort.SortKeeps(Colder, Candidates(available, {}));
  }

  /** What the preview at a quota names is what reconciling at that quota evicts, whatever the quota. The disk is as it
      is with the staging directory empty; see ArtifactStores.StagingIsApart. */
  ghost predicate PreviewTells(index: seq<Artifact>, disk: Disk, relocate: string -> string) {
    var shown, found := Available(index, disk), Normalized(index, disk, relocate);
    SamePlans(shown, LeastRecent(shown, {}), found, LeastRecent(found, {}))
  }

  /** The preview names exactly what reconciling evicts, at every quota, if and only if, before each eviction, the
      recorded bytes left are the bytes found to be left and the same record is next: moved files found again,
      pinned ones too, count among the bytes found. */
  lemma PreviewTellsExactly(index: seq<Artifact>, disk: Disk, relocate: string -> string)
    ensures PreviewTells(index, disk, relocate) <==>
      var shown, found := Available(index, disk), Normalized(index, disk, relocate);
      SamePressure(shown, LeastRecent(shown, {}), found, LeastRecent(found, {}))
  {
    var shown, found := Available(index, disk), Normalized(index, disk, relocate);
    LeastRecentIsPart(shown);
    LeastRecentIsPart(found);
    SamePlansExactly(shown, LeastRecent(shown, {}), found, LeastRecent(found, {}));
  }

  /** At the one quota in force: what is previewed is what is evicted if and only if the recorded and the found bytes
      left exceed the quota before the same records. */
  lemma PreviewTellsAtQuota(index: seq<Artifact>, disk: Disk, relocate: string -> string, quota: nat,
                            previewed: seq<Artifact>, evicted: seq<Artifact>)
    requires ShortestPrefix(Available(index, disk), LeastRecent(Available(index, disk), {}), previewed, 0, quota)
    requires var found := Normalized(index, disk, relocate); ShortestPrefix(found, LeastRecent(found, {}), evicted, 0, quota)
    ensures SameIds(previewed, evicted) <==>
      var shown, found := Available(index, disk), Normalized(index, disk, relocate);
      SamePressureOver(shown, LeastRecent(shown, {}), found, LeastRecent(found, {}), quota)
  {
    var shown, found := Available(index, disk), Normalized(index, disk, relocate);
    SameAtQuotaExactly(shown, LeastRecent(shown, {}), previewed, found, LeastRecent(found, {}), evicted, quota);
  }

  /** Files that grew or were found again mislead the preview whenever anything can be evicted. */
  lemma MoreFoundMisleadsPreview(index: seq<Artifact>, disk: Disk, relocate: string -> string)
    requires var shown, found := Available(index, disk), Normalized(index, disk, relocate);
             Bytes(shown) < Bytes(found) && LeastRecent(found, {}) != []
    ensures !PreviewTells(index, disk, relocate)
  {
    hide Available, Normalized, LeastRecent, SamePlans;
    var shown, found := Available(index, disk), Normalized(index, disk, relocate);
    assert LeastRecent(found, {})[..0] == [];
    assert Bytes([]) == 0;
    LeastRecentIsPart(shown);
    MorePressure(found, LeastRecent(found, {}), shown, LeastRecent(shown, {}), 0);
  }

  // ---------------------------------------------------------------- no file moved

  predicate NoneMoved(index: seq<Artifact>, disk: Disk, relocate: string -> string) {
    forall a | a in index && a.path !in disk :: relocate(a.path) !in disk
  }

  predicate OnDisk(s: seq<Artifact>, disk: Disk) {
    forall a | a in s :: a.path in disk
  }

  /** The records with the sizes of their files. */
  function Resized(s: seq<Artifact>, disk: Disk): (r: seq<Artifact>)
    requires OnDisk(s, disk)
    ensures |r| == |s| && forall i | 0 <= i < |s| :: r[i] == s[i].(size := disk[s[i].path])
  {
    seq(|s|, i requires 0 <= i < |s| => s[i].(size := disk[s[i].path]))
  }

  lemma {:induction false} NoneMovedResized(index: seq<Artifact>, disk: Disk, relocate: string -> string)
    requires NoneMoved(index, disk, relocate)
    ensures OnDisk(Available(index, disk), disk)
    ensures Normalized(index, disk, relocate) == Resized(Available(index, disk), disk)
  {
    if index == [] {
    } else {
      var n := |index| - 1;
      assert index == index[..n] + [index[n]];
      NoneMovedResized(index[..n], disk, relocate);
    }
  }

  lemma {:induction false} CandidatesResized(s: seq<Artifact>, disk: Disk)
    requires OnDisk(s, disk)
    ensures OnDisk(Candidates(s, {}), disk) && Candidates(Resized(s, disk), {}) == Resized(Candidates(s, {}), disk)
  {
    if s == [] {
    } else {
      var n := |s| - 1;
      assert s == s[..n] + [s[n]];
      CandidatesResized(s[..n], disk);
      assert Resized(s, disk)[..n] == Resized(s[..n], disk);
    }
  }

  lemma {:induction false} InsertResized(x: Artifact, sorted: seq<Artifact>, disk: Disk)
    requires OnDisk(sorted, disk) && x.path in disk
    ensures OnDisk(StableSort.Insert(Colder, x, sorted), disk)
    ensures StableSort.Insert(Colder, x.(size := disk[x.path]), Resized(sorted, disk)) == Resized(StableSort.Insert(Colder, x, sorted), disk)
  {
    if sorted == [] {
    } else {
      InsertResized(x, sorted[1..], disk);
      assert Resized(sorted, disk)[1..] == Resized(sorted[1..], disk);
    }
  }

  lemma {:induction false} SortResized(s: seq<Artifact>, disk: Disk)
    requires OnDisk(s, disk)
    ensures OnDisk(StableSort.Sort(Colder, s), disk)
    ensures StableSort.Sort(Colder, Resized(s, disk)) == Resized(StableSort.Sort(Colder, s), disk)
  {
    if s == [] {
    } else {
      var n := |s| - 1;
      SortResized(s[..n], disk);
      assert Resized(s, disk)[..n] == Resized(s[..n], disk);
      InsertResized(s[n], StableSort.Sort(Colder, s[..n]), disk);
    }
  }

  /** Recorded and found totals agree, and so do the sizes of all candidates but the most recently used; or there is
      no candidate at all. */
  predicate SizesAgree(shown: seq<Artifact>, order: seq<Artifact>, disk: Disk) {
    order != [] ==>
      && Bytes(shown) == BytesOnDisk(shown, disk)
      && forall i | 0 <= i < |order| - 1 :: SizeIsRight(order[i], disk)
  }

  predicate SizeIsRight(a: Artifact, disk: Disk) {
    a.path in disk && disk[a.path] == a.size
  }

  function BytesOnDisk(s: seq<Artifact>, disk: Disk): nat {
    if s == [] then 0
    else
      var a := s[|s| - 1];
      BytesOnDisk(s[..|s| - 1], disk) + if a.path in disk then disk[a.path] else 0
  }

  lemma {:induction false} ResizedTotal(s: seq<Artifact>, disk: Disk)
    requires OnDisk(s, disk)
    ensures Bytes(Resized(s, disk)) == BytesOnDisk(s, disk)
  {
    if s == [] {
    } else {
      ResizedTotal(s[..|s| - 1], disk);
      assert Resized(s, disk)[..|s| - 1] == Resized(s[..|s| - 1], disk);
    }
  }

  lemma {:induction false} BytesResized(s: seq<Artifact>, disk: Disk, n: nat)
    requires OnDisk(s, disk) && n <= |s|
    requires forall i | 0 <= i < n :: SizeIsRight(s[i], disk)
    ensures Bytes(Resized(s, disk)[..n]) == Bytes(s[..n])
  {
    if n == 0 {
    } else {
      BytesResized(s, disk, n - 1);
      assert s[..n][..n - 1] == s[..n - 1];
      assert Resized(s, disk)[..n][..n - 1] == Resized(s, disk)[..n - 1];
    }
  }

  /** Where the sizes first differ the bytes left differ after it. */
  lemma FirstDifference(s: seq<Artifact>, disk: Disk, n: nat)
    requires OnDisk(s, disk) && n < |s|
    requires forall i | 0 <= i < n :: SizeIsRight(s[i], disk)
    requires !SizeIsRight(s[n], disk)
    ensures Bytes(Resized(s, disk)[..n + 1]) != Bytes(s[..n + 1])
  {
    BytesResized(s, disk, n);
    assert s[..n + 1][..n] == s[..n];
    assert Resized(s, disk)[..n + 1][..n] == Resized(s, disk)[..n];
  }

  lemma {:induction false} FirstWrong(s: seq<Artifact>, disk: Disk, i: nat) returns (n: nat)
    requires i < |s| && !SizeIsRight(s[i], disk)
    ensures n <= i && !SizeIsRight(s[n], disk) && forall j | 0 <= j < n :: SizeIsRight(s[j], disk)
    decreases i
  {
    if j :| 0 <= j < i && !SizeIsRight(s[j], disk) {
      n := FirstWrong(s, disk, j);
    } else {
      n := i;
    }
  }

  lemma ResizedPressure(shown: seq<Artifact>, order: seq<Artifact>, disk: Disk)
    requires OnDisk(shown, disk) && OnDisk(order, disk)
    ensures SamePressure(shown, order, Resized(shown, disk), Resized(order, disk)) <==> SizesAgree(shown, order, disk)
  {
    hide Bytes, BytesOnDisk;
    var found, again := Resized(shown, disk), Resized(order, disk);
    ResizedTotal(shown, disk);
    if SizesAgree(shown, order, disk) {
      forall n: nat
        ensures Pressure(shown, order, n) == Pressure(found, again, n)
      {
        if n < |order| {
          BytesResized(order, disk, n);
        }
      }
    } else {
      assert order[..0] == again[..0];
      if i :| 0 <= i < |order| - 1 && !SizeIsRight(order[i], disk) {
        var n := FirstWrong(order, disk, i);
        FirstDifference(order, disk, n);
        assert Pressure(shown, order, 0) != Pressure(found, again, 0) || Pressure(shown, order, n + 1) != Pressure(found, again, n + 1);
      } else {
        assert Pressure(shown, order, 0) != Pressure(found, again, 0);
      }
    }
  }

  /** With no file moved, the preview names exactly what reconciling evicts, at every quota, if and only if nothing
      can be evicted or recorded and found sizes agree in total and for all candidates but the last. */
  lemma UnmovedPreviewTellsExactly(index: seq<Artifact>, disk: Disk, relocate: string -> string)
    requires NoneMoved(index, disk, relocate)
    ensures PreviewTells(index, disk, relocate) <==>
              SizesAgree(Available(index, disk), LeastRecent(Available(index, disk), {}), disk)
  {
    hide SamePressure, PreviewTells, SizesAgree;
    var shown := Available(index, disk);
    NoneMovedResized(index, disk, relocate);
    CandidatesResized(shown, disk);
    SortResized(Candidates(shown, {}), disk);
    PreviewTellsExactly(index, disk, relocate);
    ResizedPressure(shown, LeastRecent(shown, {}), disk);
  }

  /** Even a single unpinned file misleads the preview when it has not the size recorded. */
  lemma ResizedFileMisleadsPreview(a: Artifact, disk: Disk, relocate: string -> string)
    requires a.path in disk && a.size != disk[a.path] && a.pin.at.None?
    ensures !PreviewTells([a], disk, relocate)
  {
    hide Available, LeastRecent, PreviewTells, Bytes, BytesOnDisk;
    UnmovedPreviewTellsExactly([a], disk, relocate);
    OneShown(a, disk);
    OneCandidate(a);
    OneRecord(a);
    OneRecord(a.(size := disk[a.path]));
    assert Resized([a], disk) == [a.(size := disk[a.path])];
    ResizedTotal([a], disk);
  }

  lemma OneShown(a: Artifact, disk: Disk)
    requires a.path in disk
    ensures Available([a], disk) == [a]
  {
    assert [a][..0] == [];
  }

  lemma OneCandidate(a: Artifact)
    requires a.pin.at.None?
    ensures LeastRecent([a], {}) != []
  {
    CandidatesAre([a], {});
    assert a in [a];
    hide Candidates;
    StableSort.SortKeeps(Colder, Candidates([a], {}));
  }

  lemma OneRecord(a: Artifact)
    ensures Bytes([a]) == a.size
  {
    assert [a][..0] == [];
  }

  // ---------------------------------------------------------------- every file as recorded

  /** Every file is where the index says, with the size it says, and no missing one has been moved. */
  predicate DiskAgrees(index: seq<Artifact>, disk: Disk, relocate: string -> string) {
    forall a | a in index :: if a.path in disk then disk[a.path] == a.size else relocate(a.path) !in disk
  }

  lemma {:induction false} AgreedIsAvailable(index: seq<Artifact>, disk: Disk, relocate: string -> string)
    requires DiskAgrees(index, disk, relocate)
    ensures Normalized(index, disk, relocate) == Available(index, disk)
  {
    if index == [] {
    } else {
      var n := |index| - 1;
      assert index == index[..n] + [index[n]];
      AgreedIsAvailable(index[..n], disk, relocate);
      assert index[n] in index;
    }
  }

  /** When the disk agrees with the index throughout, the preview at the current quota names exactly what reconciling
      evicts, in the same order. */
  lemma PreviewIsWhatReconcileEvicts(index: seq<Artifact>, disk: Disk, relocate: string -> string, quota: nat,
                                     previewed: seq<Artifact>, evicted: seq<Artifact>)
    requires DiskAgrees(index, disk, relocate)
    requires ShortestPrefix(Available(index, disk), LeastRecent(Available(index, disk), {}), previewed, 0, quota)
    requires var before := Normalized(index, disk, relocate); ShortestPrefix(before, LeastRecent(before, {}), evicted, 0, quota)
    ensures previewed == evicted
  {
    AgreedIsAvailable(index, disk, relocate);
    var available := Available(index, disk);
    TighterExtends(available, LeastRecent(available, {}), previewed, evicted, 0, quota, quota);
    TighterExtends(available, LeastRecent(available, {}), evicted, previewed, 0, quota, quota);
  }
}
