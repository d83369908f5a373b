/** Eviction under a storage quota (packages/dkrypt/src/artifacts.ts:363-397, 451-484, 523-588, 642-695). */
module ArtifactQuota {
  import opened Wrappers
  import opened Keyed
  import opened Artifacts
  import StableSort

  /** Files by path, with their sizes. */
  type Disk = map<string, nat>

  datatype PlanError = TooLarge | NotEnough

  predicate Colder(a: Artifact, b: Artifact) {
    a.lastAccessedAt < b.lastAccessedAt || (a.lastAccessedAt == b.lastAccessedAt && a.createdAt < b.createdAt)
  }

  predicate Evictable(a: Artifact, protectedKeys: set<string>) {
    a.pin.at.None? && a.key !in protectedKeys
  }

  function Candidates(available: seq<Artifact>, protectedKeys: set<string>): seq<Artifact> {
    if available == [] then []
    else
      var a := available[|available| - 1];
      Candidates(available[..|available| - 1], protectedKeys) + if Evictable(a, protectedKeys) then [a] else []
  }

  function LeastRecent(available: seq<Artifact>, protectedKeys: set<string>): seq<Artifact> {
    StableSort.Sort(Colder, Candidates(available, protectedKeys))
  }

  function Available(index: seq<Artifact>, disk: Disk): seq<Artifact> {
    if index == [] then []
    else
      var a := index[|index| - 1];
      Available(index[..|index| - 1], disk) + if a.path in disk then [a] else []
  }

  /** The request fits once the first n candidates are gone. */
  predicate FitsAfter(available: seq<Artifact>, order: seq<Artifact>, n: nat, required: nat, quota: nat)
    requires n <= |order|
  {
    Bytes(available) + required <= quota + Bytes(order[..n])
  }

  /** The shortest prefix of the order after which the request fits, or all of it. */
  ghost predicate ShortestPrefix(available: seq<Artifact>, order: seq<Artifact>, plan: seq<Artifact>, required: nat, quota: nat) {
    && |plan| <= |order| && plan == order[..|plan|]
    && (|plan| < |order| ==> FitsAfter(available, order, |plan|, required, quota))
    && forall n | 0 <= n < |plan| :: !FitsAfter(available, order, n, required, quota)
  }

  lemma NothingUsed()
    ensures Bytes([]) == 0
  {
  }

  method UsedBytes(available: seq<Artifact>) returns (used: nat)
    ensures used == Bytes(available)
  {
    used := 0;
    for i := 0 to |available|
      invariant used == Bytes(available[..i])
    {
      assert available[..i + 1][..i] == available[..i];
      used := used + available[i].size;
    }
    assert available[..|available|] == available;
  }

  method OrderCandidates(available: seq<Artifact>, protectedKeys: set<string>) returns (order: seq<Artifact>)
    ensures order == LeastRecent(available, protectedKeys)
  {
    var candidates := [];
    for i := 0 to |available|
      invariant candidates == Candidates(available[..i], protectedKeys)
    {
      assert available[..i + 1][..i] == available[..i];
      if available[i].pin.at.None? && available[i].key !in protectedKeys {
        candidates := candidates + [available[i]];
      }
    }
    assert available[..|available|] == available;
    order := StableSort.Sort(Colder, candidates);
  }

  /** The loop over the candidates: evicting until the request fits or none is left. */
  method EvictInOrder(available: seq<Artifact>, order: seq<Artifact>, required: nat, quota: nat) returns (evictions: seq<Artifact>, fits: bool)
    ensures |evictions| <= |order| && evictions == order[..|evictions|]
    ensures fits == FitsAfter(available, order, |evictions|, required, quota) && (!fits ==> |evictions| == |order|)
    ensures forall n | 0 <= n < |evictions| :: !FitsAfter(available, order, n, required, quota)
  {
    var used: int := UsedBytes(available);
    hide Bytes;
    assert order[..0] == [] && Bytes(order[..0]) == 0 by { NothingUsed(); }
    evictions := [];
    var k := 0;
    while k < |order| && used + required > quota
      invariant 0 <= k <= |order| && evictions == order[..k]
      invariant used == Bytes(available) - Bytes(order[..k])
      invariant forall n | 0 <= n < k :: !FitsAfter(available, order, n, required, quota)
    {
      BytesOneMore(order[..k], order[k]);
      assert order[..k + 1] == order[..k] + [order[k]];
      evictions := evictions + [order[k]];
      used := used - order[k].size;
      k := k + 1;
    }
    fits := used + required <= quota;
  }

  /** planArtifactEvictions: evicting in least-recently-used order until the request fits. */
  method PlanArtifactEvictions(available: seq<Artifact>, required: nat, quota: nat, protectedKeys: set<string>, reject: bool)
    returns (plan: Result<seq<Artifact>, PlanError>)
    ensures plan.Failure? ==> required > quota || reject
    ensures plan == Failure(TooLarge) <==> required > quota
    ensures plan == Failure(NotEnough) <==>
      required <= quota && reject
      && var order := LeastRecent(available, protectedKeys); !FitsAfter(available, order, |order|, required, quota)
    ensures plan.Success? ==> ShortestPrefix(available, LeastRecent(available, protectedKeys), plan.value, required, quota)
  {
    if required > quota { return Failure(TooLarge); }
    var order := OrderCandidates(available, protectedKeys);
    hide LeastRecent;
    var evictions, fits := EvictInOrder(available, order, required, quota);
    if reject && !fits { return Failure(NotEnough); }
    if fits {
      BytesGrow(order, |evictions|, |order|);
    }
    plan := Success(evictions);
  }

  // ---------------------------------------------------------------- sums

  lemma {:induction false} BytesGrow(s: seq<Artifact>, m: nat, n: nat)
    requires m <= n <= |s|
    ensures Bytes(s[..m]) <= Bytes(s[..n])
    decreases n - m
  {
    if m >= n {
    } else {
      assert s[..n][..n - 1] == s[..n - 1];
      BytesGrow(s, m, n - 1);
    }
  }

  lemma BytesOneMore(s: seq<Artifact>, a: Artifact)
    ensures Bytes(s + [a]) == Bytes(s) + a.size
  {
    assert (s + [a])[..|s|] == s;
  }

  lemma {:induction false} BytesConcat(a: seq<Artifact>, b: seq<Artifact>)
    ensures Bytes(a + b) == Bytes(a) + Bytes(b)
  {
    if b == [] {
      assert a + b == a;
    } else {
      assert (a + b)[..|a + b| - 1] == a + b[..|b| - 1];
      BytesConcat(a, b[..|b| - 1]);
    }
  }

  lemma BytesWithout(s: seq<Artifact>, i: nat)
    requires i < |s|
    ensures Bytes(s) == Bytes(s[..i] + s[i + 1..]) + s[i].size
  {
    hide Bytes;
    SplitAt(s, i);
    BytesBetween(s[..i], s[i], s[i + 1..]);
  }

  lemma SplitAt<T>(s: seq<T>, i: nat)
    requires i < |s|
    ensures s == s[..i] + [s[i]] + s[i + 1..]
  {
  }

  lemma BytesBetween(left: seq<Artifact>, a: Artifact, right: seq<Artifact>)
    ensures Bytes(left + [a] + right) == Bytes(left + right) + a.size
  {
    hide Bytes;
    BytesOne(a);
    BytesConcat(left, [a]);
    BytesConcat(left + [a], right);
    BytesConcat(left, right);
  }

  lemma BytesOne(a: Artifact)
    ensures Bytes([a]) == a.size
  {
  }

  lemma MultisetWithout(s: seq<Artifact>, i: nat)
    requires i < |s|
    ensures multiset(s[..i] + s[i + 1..]) == multiset(s) - multiset{s[i]}
  {
    assert s == s[..i] + [s[i]] + s[i + 1..];
  }

  /** Counted with multiplicity, fewer records take no more bytes. */
  lemma {:induction false} BytesOfPart(part: seq<Artifact>, whole: seq<Artifact>)
    requires multiset(part) <= multiset(whole)
    ensures Bytes(part) <= Bytes(whole)
    ensures multiset(part) == multiset(whole) ==> Bytes(part) == Bytes(whole)
    decreases |part|
  {
    if part == [] {
      if multiset(part) == multiset(whole) {
        assert |multiset(whole)| == 0;
      }
    } else {
      var n := |part| - 1;
      assert part == part[..n] + [part[n]];
      assert part[n] in multiset(part);
      assert part[n] in whole;
      var i :| 0 <= i < |whole| && whole[i] == part[n];
      BytesWithout(whole, i);
      MultisetWithout(whole, i);
      assert multiset(part[..n]) == multiset(part) - multiset{part[n]};
      BytesOfPart(part[..n], whole[..i] + whole[i + 1..]);
    }
  }

  // ---------------------------------------------------------------- what a plan is

  lemma ColderIsOrder()
    ensures StableSort.StrictWeakOrder(Colder)
  {
  }

  lemma {:induction false} CandidatesAre(available: seq<Artifact>, protectedKeys: set<string>)
    ensures forall a :: a in Candidates(available, protectedKeys) <==> a in available && Evictable(a, protectedKeys)
    ensures multiset(Candidates(available, protectedKeys)) <= multiset(available)
  {
    if available == [] {
    } else {
      var n := |available| - 1;
      CandidatesAre(available[..n], protectedKeys);
      assert available == available[..n] + [available[n]];
    }
  }

  lemma InMultiset(s: seq<Artifact>, t: seq<Artifact>)
    requires multiset(s) == multiset(t)
    ensures forall a :: a in s <==> a in t
  {
    assert forall a :: a in s <==> a in multiset(s);
    assert forall a :: a in t <==> a in multiset(t);
  }

  /** Nothing pinned or protected is evicted, and nothing is evicted before something colder. */
  lemma PlanIsLeastRecent(available: seq<Artifact>, protectedKeys: set<string>, plan: seq<Artifact>, required: nat, quota: nat)
    requires ShortestPrefix(available, LeastRecent(available, protectedKeys), plan, required, quota)
    ensures forall a | a in plan :: a in available && a.pin.at.None? && a.key !in protectedKeys
    ensures multiset(plan) <= multiset(available)
    ensures var order := LeastRecent(available, protectedKeys);
            && multiset(order) == multiset(Candidates(available, protectedKeys))
            && forall i, j | 0 <= i < |plan| <= j < |order| :: !Colder(order[j], plan[i])
  {
    var candidates, order := Candidates(available, protectedKeys), LeastRecent(available, protectedKeys);
    CandidatesAre(available, protectedKeys);
    StableSort.SortKeeps(Colder, candidates);
    InMultiset(order, candidates);
    ColderIsOrder();
    StableSort.SortOrdered(Colder, candidates);
    assert order == plan + order[|plan|..];
  }

  /** A tighter quota's plan extends a looser one's. */
  lemma TighterExtends(available: seq<Artifact>, order: seq<Artifact>, tight: seq<Artifact>, loose: seq<Artifact>,
                       required: nat, less: nat, quota: nat)
    requires less <= quota
    requires ShortestPrefix(available, order, tight, required, less) && ShortestPrefix(available, order, loose, required, quota)
    ensures loose <= tight
  {
    assert |tight| < |loose| ==> !FitsAfter(available, order, |tight|, required, quota);
    assert |tight| < |order| ==> FitsAfter(available, order, |tight|, required, less);
    assert loose == tight[..|loose|];
  }

  // ---------------------------------------------------------------- removing by id

  function Ids(s: seq<Artifact>): set<string> {
    set a | a in s :: a.id
  }

  function Without(s: seq<Artifact>, ids: set<string>): seq<Artifact> {
    if s == [] then []
    else
      var a := s[|s| - 1];
      Without(s[..|s| - 1], ids) + if a.id in ids then [] else [a]
  }

  function Only(s: seq<Artifact>, ids: set<string>): seq<Artifact> {
    if s == [] then []
    else
      var a := s[|s| - 1];
      Only(s[..|s| - 1], ids) + if a.id in ids then [a] else []
  }

  lemma {:induction false} WithoutAre(s: seq<Artifact>, ids: set<string>)
    ensures forall a :: a in Without(s, ids) <==> a in s && a.id !in ids
  {
    if s == [] {
    } else {
      var n := |s| - 1;
      WithoutAre(s[..n], ids);
      assert s == s[..n] + [s[n]];
    }
  }

  lemma SplitLast(s: seq<Artifact>, ids: set<string>)
    requires s != []
    ensures var before, a := s[..|s| - 1], s[|s| - 1];
            && Bytes(s) == Bytes(before) + a.size
            && Bytes(Without(s, ids)) == Bytes(Without(before, ids)) + (if a.id in ids then 0 else a.size)
            && Bytes(Only(s, ids)) == Bytes(Only(before, ids)) + (if a.id in ids then a.size else 0)
  {
    var before, a := s[..|s| - 1], s[|s| - 1];
    if a.id in ids {
      assert Without(s, ids) == Without(before, ids) && Only(s, ids) == Only(before, ids) + [a];
      hide Bytes, Without, Only;
      BytesOneMore(Only(before, ids), a);
    } else {
      assert Without(s, ids) == Without(before, ids) + [a] && Only(s, ids) == Only(before, ids);
      hide Bytes, Without, Only;
      BytesOneMore(Without(before, ids), a);
    }
    assert Bytes(s) == Bytes(before) + a.size by { BytesLast(s); }
  }

  lemma BytesLast(s: seq<Artifact>)
    requires s != []
    ensures Bytes(s) == Bytes(s[..|s| - 1]) + s[|s| - 1].size
  {
  }

  lemma {:induction false} WithoutAndOnly(s: seq<Artifact>, ids: set<string>)
    ensures Bytes(Without(s, ids)) + Bytes(Only(s, ids)) == Bytes(s)
  {
    if s == [] {
    } else {
      hide Bytes, Without, Only;
      WithoutAndOnly(s[..|s| - 1], ids);
      SplitLast(s, ids);
    }
  }

  lemma {:induction false} OnlyCounts(s: seq<Artifact>, ids: set<string>, a: Artifact)
    requires a.id in ids
    ensures multiset(Only(s, ids))[a] == multiset(s)[a]
  {
    if s == [] {
    } else {
      var n := |s| - 1;
      OnlyCounts(s[..n], ids, a);
      assert s == s[..n] + [s[n]];
    }
  }

  /** Removing a plan's records by their ids frees at least the plan's bytes. */
  lemma WithoutFrees(s: seq<Artifact>, ids: set<string>, plan: seq<Artifact>)
    requires multiset(plan) <= multiset(s) && Ids(plan) <= ids
    ensures Bytes(Without(s, ids)) + Bytes(plan) <= Bytes(s)
  {
    WithoutAndOnly(s, ids);
    forall a: Artifact
      ensures multiset(plan)[a] <= multiset(Only(s, ids))[a]
    {
      if a in plan {
        assert a.id in Ids(plan);
        OnlyCounts(s, ids, a);
      }
    }
    BytesOfPart(plan, Only(s, ids));
  }
}
