/** The profile store and who an id resolves to (packages/dkrypt/src/identity.ts:157-209, 227-252, 299-319). */
module Profiles {
  import opened Wrappers
  import opened Keyed
  import opened Characters
  import opened Usernames
  import opened Identity

  /** No id or alias belongs to two profiles. */
  ghost predicate IdsSound(profiles: seq<Profile>) {
    forall i, j, id | 0 <= i < j < |profiles| && Answers(profiles[i], id) :: !Answers(profiles[j], id)
  }

  lemma LookupIs(profiles: seq<Profile>, i: nat, id: string)
    requires IdsSound(profiles) && i < |profiles| && Answers(profiles[i], id)
    ensures Lookup(profiles, id) == i
  {
  }

  /** No profile but the one at i answers to an id of p. */
  ghost predicate Apart(profiles: seq<Profile>, i: nat, p: Profile) {
    forall j, id | 0 <= j < |profiles| && j != i && Answers(p, id) :: !Answers(profiles[j], id)
  }

  lemma ReplacedExactly(profiles: seq<Profile>, i: nat, p: Profile)
    requires IdsSound(profiles) && i < |profiles|
    ensures IdsSound(profiles[i := p]) <==> Apart(profiles, i, p)
  {
    var after := profiles[i := p];
    if IdsSound(after) {
      forall j, id | 0 <= j < |profiles| && j != i && Answers(p, id)
        ensures !Answers(profiles[j], id)
      {
        assert after[i] == p && after[j] == profiles[j];
      }
    }
  }

  lemma AddedExactly(profiles: seq<Profile>, p: Profile)
    requires IdsSound(profiles)
    ensures IdsSound(profiles + [p]) <==> Apart(profiles, |profiles|, p)
  {
    var after := profiles + [p];
    assert after[|profiles|] == p && forall j | 0 <= j < |profiles| :: after[j] == profiles[j];
    if IdsSound(after) {
      forall j, id | 0 <= j < |profiles| && Answers(p, id)
        ensures !Answers(profiles[j], id)
      {
        assert after[j] == profiles[j];
      }
    }
  }

  lemma DroppedIdsSound(profiles: seq<Profile>, i: nat)
    requires IdsSound(profiles) && i < |profiles|
    ensures IdsSound(Dropped(profiles, i))
  {
  }

  lemma NormalizedAnswers(p: Profile, id: string)
    ensures Answers(Normalized(p), id) <==> id == p.userId || (id in p.aliases && id != "")
  {
    ProperHas(p.aliases, p.userId);
    DeduplicatedHas(Proper(p.aliases, p.userId));
  }

  /** Storing a profile directly keeps ids and aliases apart exactly when no other profile answers to its id or to
      one of its aliases. */
  lemma UpsertKeepsIdsExactly(profiles: seq<Profile>, p: Profile)
    requires IdsSound(profiles) && UpsertedProfile(profiles, p).Some?
    ensures IdsSound(UpsertedProfile(profiles, p).value) <==> Apart(profiles, FirstIndex(profiles, UserId, p.userId), Normalized(p))
  {
    var after := UpsertedProfile(profiles, p).value;
    var i := FirstIndex(profiles, UserId, p.userId);
    var incoming := Normalized(p);
    hide Normalized, Merged, Chosen, OtherNames;
    if i == |profiles| {
      AddedExactly(profiles, after[i]);
      assert forall id :: Answers(after[i], id) <==> Answers(incoming, id);
    } else {
      ReplacedExactly(profiles, i, after[i]);
      DeduplicatedHas(profiles[i].aliases + incoming.aliases);
      assert incoming.userId == p.userId by { NormalizedKeepsId(p); }
      forall id
        ensures Answers(after[i], id) <==> Answers(incoming, id) || Answers(profiles[i], id)
      {
      }
      if Apart(profiles, i, incoming) {
        forall j, id | 0 <= j < |profiles| && j != i && Answers(after[i], id)
          ensures !Answers(profiles[j], id)
        {
          assert Answers(incoming, id) || Answers(profiles[i], id);
        }
      }
    }
  }

  /** Linking an identity creates a profile only under an id nobody answers to. */
  lemma UpsertIdentityKeepsIds(profiles: seq<Profile>, userId: string, l: Linked)
    requires IdsSound(profiles)
    ensures UpsertedIdentity(profiles, userId, l).Some? ==> IdsSound(UpsertedIdentity(profiles, userId, l).value)
  {
    var i := Lookup(profiles, userId);
    if UpsertedIdentity(profiles, userId, l).None? {
    } else if i == |profiles| {
      var p := Profile(userId, l.provider, l.providerId, l.username, None, Some([l]), []);
      AbsentEverywhere(profiles, UserId, userId);
      forall j, id | 0 <= j < |profiles| && Answers(Normalized(p), id)
        ensures !Answers(profiles[j], id)
      {
        NormalizedAnswers(p, id);
      }
      UpsertKeepsIdsExactly(profiles, p);
    } else {
      hide Merged;
      ReplacedExactly(profiles, i, profiles[i].(identities := Some(Merged(KnownOrLegacy(profiles[i]) + [l]))));
    }
  }

  lemma AbsorbedAnswers(target: Profile, source: Profile, id: string)
    ensures Answers(Absorbed(target, source), id) <==> Answers(target, id) || Answers(source, id)
  {
    DeduplicatedHas(target.aliases + [source.userId] + source.aliases);
  }

  /** The store after merging two different profiles, one id at a time: whoever answered to it still does, and
      where that was the source it is now the target. */
  lemma MergeResolves(profiles: seq<Profile>, target: string, source: string, id: string)
    requires IdsSound(profiles)
    requires var t, s := Lookup(profiles, target), Lookup(profiles, source); t < |profiles| && s < |profiles| && t != s
    ensures var t, s := Lookup(profiles, target), Lookup(profiles, source);
            var after := MergedProfiles(profiles, target, source);
            var was, now := Lookup(profiles, id), Lookup(after, id);
            && IdsSound(after) && |after| == |profiles| - 1
            && (now < |after| <==> was < |profiles|)
            && (now < |after| ==> after[now].userId == profiles[if was == s then t else was].userId)
  {
    var t, s := Lookup(profiles, target), Lookup(profiles, source);
    var absorbed := Absorbed(profiles[t], profiles[s]);
    var mid, after := profiles[t := absorbed], MergedProfiles(profiles, target, source);
    hide Absorbed, Answers, IdsSound, MergedProfiles;
    MergeShape(profiles, target, source);
    forall x
      ensures Answers(absorbed, x) <==> Answers(profiles[t], x) || Answers(profiles[s], x)
    {
      AbsorbedAnswers(profiles[t], profiles[s], x);
    }
    AbsorbedKeepsId(profiles[t], profiles[s]);
    MergedSound(profiles, mid, after, t, s);
    MergedLookup(profiles, mid, after, t, s, id);
  }

  lemma MergeShape(profiles: seq<Profile>, target: string, source: string)
    requires var t, s := Lookup(profiles, target), Lookup(profiles, source); t < |profiles| && s < |profiles| && t != s
    ensures var t, s := Lookup(profiles, target), Lookup(profiles, source);
            var mid, after := profiles[t := Absorbed(profiles[t], profiles[s])], MergedProfiles(profiles, target, source);
            |after| == |mid| - 1 && forall j | 0 <= j < |after| :: after[j] == mid[if j < s then j else j + 1]
  {
    hide Absorbed, Lookup, Dropped;
    var t, s := Lookup(profiles, target), Lookup(profiles, source);
    assert MergedProfiles(profiles, target, source) == Dropped(profiles[t := Absorbed(profiles[t], profiles[s])], s);
    DroppedAt(profiles[t := Absorbed(profiles[t], profiles[s])], s);
  }

  lemma DroppedAt(profiles: seq<Profile>, i: nat)
    requires i < |profiles|
    ensures var after := Dropped(profiles, i);
            |after| == |profiles| - 1 && forall j | 0 <= j < |after| :: after[j] == profiles[if j < i then j else j + 1]
  {
  }

  lemma MergedLookup(profiles: seq<Profile>, mid: seq<Profile>, after: seq<Profile>, t: nat, s: nat, id: string)
    requires IdsSound(profiles) && IdsSound(after) && t < |profiles| && s < |profiles| && t != s
    requires |mid| == |profiles| && (forall j | 0 <= j < |mid| && j != t :: mid[j] == profiles[j])
    requires mid[t].userId == profiles[t].userId
    requires forall x :: Answers(mid[t], x) <==> Answers(profiles[t], x) || Answers(profiles[s], x)
    requires |after| == |mid| - 1 && forall j | 0 <= j < |after| :: after[j] == mid[if j < s then j else j + 1]
    ensures var was, now := Lookup(profiles, id), Lookup(after, id);
            && (now < |after| <==> was < |profiles|)
            && (now < |after| ==> after[now].userId == profiles[if was == s then t else was].userId)
  {
    hide Answers, IdsSound;
    var was := Lookup(profiles, id);
    if was < |profiles| {
      var home := if was == s then t else was;
      var at := if home < s then home else home - 1;
      assert after[at] == mid[home];
      LookupIs(after, at, id);
    }
  }

  lemma AbsorbedKeepsId(target: Profile, source: Profile)
    ensures Absorbed(target, source).userId == target.userId
  {
  }

  lemma MergedSound(profiles: seq<Profile>, mid: seq<Profile>, after: seq<Profile>, t: nat, s: nat)
    requires IdsSound(profiles) && t < |profiles| && s < |profiles| && t != s
    requires |mid| == |profiles| && (forall j | 0 <= j < |mid| && j != t :: mid[j] == profiles[j])
    requires forall x :: Answers(mid[t], x) <==> Answers(profiles[t], x) || Answers(profiles[s], x)
    requires |after| == |mid| - 1 && forall j | 0 <= j < |after| :: after[j] == mid[if j < s then j else j + 1]
    ensures IdsSound(after)
  {
  }

  /** Merging keeps every identity key of both profiles, one record each, with OAuth records unharmed. */
  lemma MergeKeepsIdentities(target: Profile, source: Profile)
    ensures var after := Absorbed(target, source).identities;
            && after.Some? && Unique(after.value, LinkedKey)
            && (forall k :: Has(after.value, LinkedKey, k) <==>
                  (exists l :: (l in KnownOrLegacy(target) || l in KnownOrLegacy(source)) && LinkedKey(l) == k))
            && (forall l | (l in KnownOrLegacy(target) || l in KnownOrLegacy(source)) && l.source.OAuth? ::
                  Has(after.value, LinkedKey, LinkedKey(l)) && Get(after.value, LinkedKey, LinkedKey(l)).source.OAuth?)
  {
    var all := KnownOrLegacy(target) + KnownOrLegacy(source);
    MergedKeepsWinners(all);
    forall k
      ensures Has(Merged(all), LinkedKey, k) <==> exists l :: l in all && LinkedKey(l) == k
    {
      WinnerExists(all, k);
    }
    forall l | l in all && l.source.OAuth?
      ensures Has(Merged(all), LinkedKey, LinkedKey(l)) && Get(Merged(all), LinkedKey, LinkedKey(l)).source.OAuth?
    {
      WinnerExists(all, LinkedKey(l));
    }
    assert forall l :: l in all <==> l in KnownOrLegacy(target) || l in KnownOrLegacy(source);
  }

  lemma MergeKeepsIds(profiles: seq<Profile>, target: string, source: string)
    requires IdsSound(profiles)
    ensures IdsSound(MergedProfiles(profiles, target, source))
  {
    var t, s := Lookup(profiles, target), Lookup(profiles, source);
    if target != source && s < |profiles| {
      if t == |profiles| {
        var moved := MergedProfiles(profiles, target, source)[s];
        DeduplicatedHas(profiles[s].aliases + [profiles[s].userId]);
        ReplacedExactly(profiles, s, moved);
        assert forall id :: Answers(moved, id) <==> Answers(profiles[s], id) || id == target;
      } else if t != s {
        MergeResolves(profiles, target, source, source);
      } else {
        var absorbed := Absorbed(profiles[t], profiles[s]);
        forall id
          ensures Answers(absorbed, id) <==> Answers(profiles[t], id)
        {
          AbsorbedAnswers(profiles[t], profiles[s], id);
        }
        hide Absorbed;
        ReplacedExactly(profiles, t, absorbed);
        DroppedIdsSound(profiles[t := absorbed], s);
      }
    }
  }

  /** A merge keeps the target reachable exactly when it does not join a profile with itself under another name;
      when it does, the profile is deleted. */
  lemma MergeKeepsTargetExactly(profiles: seq<Profile>, target: string, source: string)
    requires IdsSound(profiles) && Lookup(profiles, target) < |profiles| && Lookup(profiles, source) < |profiles|
    ensures var after := MergedProfiles(profiles, target, source);
            Lookup(after, target) < |after| <==> target == source || Lookup(profiles, target) != Lookup(profiles, source)
  {
    var t, s := Lookup(profiles, target), Lookup(profiles, source);
    if target != source {
      if t != s {
        MergeResolves(profiles, target, source, target);
      } else {
        var after := MergedProfiles(profiles, target, source);
        hide Absorbed;
        assert forall j | 0 <= j < |after| :: after[j] == profiles[if j < s then j else j + 1];
      }
    }
  }

  lemma RenameKeepsIds(profiles: seq<Profile>, id: string, name: string)
    requires IdsSound(profiles) && Renamed(profiles, id, name).Success?
    ensures IdsSound(Renamed(profiles, id, name).value)
  {
  }

  lemma StepKeepsIds(profiles: seq<Profile>, o: Operation)
    requires IdsSound(profiles) && !o.UpsertProfileOp?
    ensures IdsSound(Applied(profiles, o))
  {
    hide UpsertedIdentity, MergedProfiles, Renamed, Lookup, Dropped, IdsSound;
    match o
    case UpsertIdentityOp(id, l) =>
      UpsertIdentityKeepsIds(profiles, id, l);
    case MergeOp(t, s) => MergeKeepsIds(profiles, t, s);
    case RenameOp(id, name) =>
      if Renamed(profiles, id, name).Success? { RenameKeepsIds(profiles, id, name); }
    case DeleteOp(id) =>
      if Lookup(profiles, id) < |profiles| { DroppedIdsSound(profiles, Lookup(profiles, id)); }
  }

  /** Over any run in which profiles are created by linking identities, ids and aliases stay apart. */
  lemma {:induction false} RunKeepsIds(profiles: seq<Profile>, os: seq<Operation>)
    requires IdsSound(profiles) && forall o | o in os :: !o.UpsertProfileOp?
    ensures IdsSound(Ran(profiles, os))
  {
    hide IdsSound, Applied;
    if os == [] {
    } else {
      assert os[|os| - 1] in os;
      assert forall o | o in os[..|os| - 1] :: o in os;
      RunKeepsIds(profiles, os[..|os| - 1]);
      StepKeepsIds(Ran(profiles, os[..|os| - 1]), os[|os| - 1]);
    }
  }

  // ---------------------------------------------------------------- the store

  class IdentityStore {
    var profiles: seq<Profile>

    constructor (profiles: seq<Profile>)
      ensures this.profiles == profiles
    {
      this.profiles := profiles;
    }

    method GetAuthProfile(id: string) returns (i: nat)
      ensures i == Lookup(profiles, id)
    {
      i := 0;
      while i < |profiles| && profiles[i].userId != id && id !in profiles[i].aliases
        invariant i <= |profiles| && forall j | 0 <= j < i :: !Answers(profiles[j], id)
      {
        i := i + 1;
      }
    }

    method UsedNames(among: seq<Profile>, userId: string) returns (names: set<string>)
      ensures names == OtherNames(among, userId)
    {
      names := {};
      for i := 0 to |among|
        invariant names == OtherNames(among[..i], userId)
      {
        assert among[..i + 1] == among[..i] + [among[i]];
        assert OtherNames(among[..i + 1], userId)
            == OtherNames(among[..i], userId) + if among[i].userId != userId then {Lower(among[i].username)} else {};
        if among[i].userId != userId {
          names := names + {Lower(among[i].username)};
        }
      }
      assert among[..|among|] == among;
    }

    method UpsertAuthProfile(p: Profile) returns (ok: bool)
      modifies this
      ensures ok == UpsertedProfile(old(profiles), p).Some?
      ensures profiles == if ok then UpsertedProfile(old(profiles), p).value else old(profiles)
    {
      var incoming := Normalized(p);
      var i := Find(profiles, UserId, p.userId);
      if i == |profiles| {
        var others := UsedNames(profiles, p.userId);
        var name := AvailableUsername(incoming.username, others);
        if name.None? { return false; }
        profiles := profiles + [Named(incoming, name.value)];
        return true;
      }
      var e := profiles[i];
      var identities := MergeIdentities(Known(e) + Known(incoming));
      profiles := profiles[i := incoming.(
        username := e.username,
        customUsername := if e.customUsername.Some? then e.customUsername else incoming.customUsername,
        identities := Some(identities),
        aliases := Deduplicated(e.aliases + incoming.aliases))];
      ok := true;
    }

    method UpsertAuthIdentity(userId: string, l: Linked) returns (ok: bool)
      modifies this
      ensures ok == UpsertedIdentity(old(profiles), userId, l).Some?
      ensures profiles == if ok then UpsertedIdentity(old(profiles), userId, l).value else old(profiles)
    {
      var i := GetAuthProfile(userId);
      if i == |profiles| {
        ok := UpsertAuthProfile(Profile(userId, l.provider, l.providerId, l.username, None, Some([l]), []));
        return;
      }
      var identities := MergeIdentities(KnownOrLegacy(profiles[i]) + [l]);
      profiles := profiles[i := profiles[i].(identities := Some(identities))];
      ok := true;
    }

    method MergeAuthProfiles(target: string, source: string)
      modifies this
      ensures profiles == MergedProfiles(old(profiles), target, source)
    {
      if target == source { return; }
      var t := GetAuthProfile(target);
      var s := GetAuthProfile(source);
      if s == |profiles| { return; }
      if t == |profiles| {
        var moved := profiles[s];
        profiles := profiles[s := moved.(aliases := Deduplicated(moved.aliases + [moved.userId]), userId := target)];
        return;
      }
      var kept, gone := profiles[t], profiles[s];
      var identities := MergeIdentities(KnownOrLegacy(kept) + KnownOrLegacy(gone));
      profiles := profiles[t := kept.(identities := Some(identities),
                                      aliases := Deduplicated(kept.aliases + [gone.userId] + gone.aliases))];
      profiles := profiles[..s] + profiles[s + 1..];
    }

    method SetAuthUsername(id: string, name: string) returns (error: Option<RenameError>)
      modifies this
      ensures match Renamed(old(profiles), id, name)
              case Success(after) => error == None && profiles == after
              case Failure(e) => error == Some(e) && profiles == old(profiles)
    {
      var i := GetAuthProfile(id);
      if i == |profiles| { return Some(NoProfile); }
      var requested := TrimEnd(TrimStart(name));
      if !WellFormed(requested) { return Some(Malformed); }
      if Reserved(requested) { return Some(Unavailable); }
      for j := 0 to |profiles|
        invariant profiles == old(profiles)
        invariant forall k | 0 <= k < j && k != i :: Lower(profiles[k].username) != Lower(requested)
      {
        if j != i && Lower(profiles[j].username) == Lower(requested) { return Some(Taken); }
      }
      profiles := profiles[i := profiles[i].(username := requested, customUsername := Some(requested))];
      error := None;
    }

    method DeleteAuthProfile(id: string) returns (deleted: bool)
      modifies this
      ensures deleted == (Lookup(old(profiles), id) < |old(profiles)|) && profiles == Deleted(old(profiles), id)
    {
      var i := GetAuthProfile(id);
      deleted := i < |profiles|;
      if deleted {
        profiles := profiles[..i] + profiles[i + 1..];
      }
    }

    /** normalizeAccountUsernames over the stored profiles, as on load. */
    method NormalizeAccountUsernames() returns (ok: bool)
      modifies this
      ensures ok == Assigned(old(profiles)).Some?
      ensures profiles == if ok then Assigned(old(profiles)).value else old(profiles)
    {
      hide Chosen, OtherNames;
      var settled := [];
      for i := 0 to |profiles|
        invariant profiles == old(profiles) && Assigned(profiles[..i]) == Some(settled)
      {
        assert profiles[..i + 1][..i] == profiles[..i];
        var others := UsedNames(settled, profiles[i].userId);
        var name := AvailableUsername(profiles[i].username, others);
        if name.None? {
          NoneFromHere(profiles, i + 1);
          return false;
        }
        settled := settled + [Named(profiles[i], name.value)];
      }
      assert profiles[..|profiles|] == profiles;
      profiles := settled;
      ok := true;
    }
  }

  lemma {:induction false} NoneFromHere(profiles: seq<Profile>, n: nat)
    requires n <= |profiles| && Assigned(profiles[..n]).None?
    ensures Assigned(profiles).None?
    decreases |profiles|
  {
    if n == |profiles| {
      assert profiles[..n] == profiles;
    } else {
      assert profiles[..|profiles| - 1][..n] == profiles[..n];
      NoneFromHere(profiles[..|profiles| - 1], n);
    }
  }
}
