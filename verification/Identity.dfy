/** Account profiles (packages/dkrypt/src/identity.ts:42-111, 157-209, 227-252, 299-319). */
module Identity {
  import opened Wrappers
  import opened Characters
  import opened Keyed
  import opened Usernames

  datatype IdentityProvider = GitHub | Discord

  datatype Source = OAuth | DiscordConnection

  datatype Linked = Linked(provider: IdentityProvider, providerId: string, username: string, source: Source)

  datatype Profile = Profile(userId: string, provider: IdentityProvider, providerId: string, username: string,
                             customUsername: Option<string>, identities: Option<seq<Linked>>, aliases: seq<string>)

  datatype RenameError = NoProfile | Malformed | Unavailable | Taken

  function LinkedKey(l: Linked): (IdentityProvider, string) { (l.provider, l.providerId) }

  function KeyString(l: Linked): string {
    (if l.provider.GitHub? then "github:" else "discord:") + l.providerId
  }

  function UserId(p: Profile): string { p.userId }

  function Legacy(p: Profile): Linked {
    Linked(p.provider, p.providerId, p.username, OAuth)
  }

  function Known(p: Profile): seq<Linked> {
    if p.identities.Some? then p.identities.value else []
  }

  function KnownOrLegacy(p: Profile): seq<Linked> {
    if p.identities.Some? then p.identities.value else [Legacy(p)]
  }

  // ---------------------------------------------------------------- merging identities

  function MergedOne(merged: seq<Linked>, l: Linked): seq<Linked> {
    var i := FirstIndex(merged, LinkedKey, LinkedKey(l));
    if i == |merged| then merged + [l]
    else if merged[i].source.DiscordConnection? || l.source.OAuth? then merged[i := l]
    else merged
  }

  function Merged(list: seq<Linked>): seq<Linked> {
    if list == [] then [] else MergedOne(Merged(list[..|list| - 1]), list[|list| - 1])
  }

  /** The record of a key that should win: the last one from OAuth, or else the last one. */
  function Winner(list: seq<Linked>, k: (IdentityProvider, string)): Option<Linked> {
    if list == [] then None
    else
      var before, l := Winner(list[..|list| - 1], k), list[|list| - 1];
      if LinkedKey(l) != k then before
      else if before.Some? && before.value.source.OAuth? && l.source.DiscordConnection? then before
      else Some(l)
  }

  ghost predicate LastWhere(list: seq<Linked>, k: (IdentityProvider, string), l: Linked, oauthOnly: bool) {
    exists i :: 0 <= i < |list| && list[i] == l && LinkedKey(l) == k
                && forall j | i < j < |list| && LinkedKey(list[j]) == k :: oauthOnly && list[j].source.DiscordConnection?
  }

  lemma {:induction false} WinnerExists(list: seq<Linked>, k: (IdentityProvider, string))
    ensures Winner(list, k).None? <==> forall l | l in list :: LinkedKey(l) != k
    ensures Winner(list, k).Some? && Winner(list, k).value.source.DiscordConnection? ==>
              forall l | l in list && LinkedKey(l) == k :: l.source.DiscordConnection?
  {
    if list == [] {
    } else {
      WinnerExists(list[..|list| - 1], k);
      assert list == list[..|list| - 1] + [list[|list| - 1]];
    }
  }

  lemma LastWhereGrows(before: seq<Linked>, last: Linked, k: (IdentityProvider, string), l: Linked, oauthOnly: bool)
    requires LastWhere(before, k, l, oauthOnly)
    requires LinkedKey(last) == k ==> oauthOnly && last.source.DiscordConnection?
    ensures LastWhere(before + [last], k, l, oauthOnly)
  {
    var i :| 0 <= i < |before| && before[i] == l && LinkedKey(l) == k
             && forall j | i < j < |before| && LinkedKey(before[j]) == k :: oauthOnly && before[j].source.DiscordConnection?;
    var all := before + [last];
    assert all[i] == l;
  }

  /** Winner means what it says: the last of the OAuth records with the key or, without any, the last of all. */
  lemma {:induction false} WinnerIsLast(list: seq<Linked>, k: (IdentityProvider, string))
    ensures Winner(list, k).Some? ==> LastWhere(list, k, Winner(list, k).value, Winner(list, k).value.source.OAuth?)
  {
    if list == [] {
    } else {
      var before, last := list[..|list| - 1], list[|list| - 1];
      var earlier := Winner(before, k);
      WinnerIsLast(before, k);
      assert list == before + [last];
      hide LastWhere;
      if LinkedKey(last) != k || (earlier.Some? && earlier.value.source.OAuth? && last.source.DiscordConnection?) {
        if earlier.Some? {
          LastWhereGrows(before, last, k, earlier.value, earlier.value.source.OAuth?);
        }
      } else {
        LastItself(list, k);
      }
    }
  }

  lemma LastItself(list: seq<Linked>, k: (IdentityProvider, string))
    requires list != [] && LinkedKey(list[|list| - 1]) == k
    ensures LastWhere(list, k, list[|list| - 1], list[|list| - 1].source.OAuth?)
  {
  }

  /** Merging in one more record changes nothing but its own key. */
  lemma MergedOneKeeps(before: seq<Linked>, l: Linked)
    requires Unique(before, LinkedKey)
    ensures var after, k := MergedOne(before, l), LinkedKey(l);
            && Unique(after, LinkedKey) && Has(after, LinkedKey, k)
            && Get(after, LinkedKey, k) == (if Has(before, LinkedKey, k) && Get(before, LinkedKey, k).source.OAuth?
                                               && l.source.DiscordConnection? then Get(before, LinkedKey, k) else l)
            && (forall x | x != k :: Has(after, LinkedKey, x) == Has(before, LinkedKey, x)
                                     && (Has(before, LinkedKey, x) ==> Get(after, LinkedKey, x) == Get(before, LinkedKey, x)))
  {
    hide Unique, FirstIndex;
    var i := FirstIndex(before, LinkedKey, LinkedKey(l));
    if i == |before| {
      AppendKeeps(before, LinkedKey, l);
    } else {
      ReplaceKeeps(before, LinkedKey, i, l);
    }
  }

  /** Merging keeps one record per key, of every key there was and no other, and it is the winner: a record from
      a Discord connection never takes the place of one from OAuth. */
  lemma {:induction false} MergedKeepsWinners(list: seq<Linked>)
    ensures Unique(Merged(list), LinkedKey)
    ensures forall k :: Has(Merged(list), LinkedKey, k) <==> Winner(list, k).Some?
    ensures forall k | Has(Merged(list), LinkedKey, k) :: Some(Get(Merged(list), LinkedKey, k)) == Winner(list, k)
  {
    if list == [] {
    } else {
      var before, l := Merged(list[..|list| - 1]), list[|list| - 1];
      MergedKeepsWinners(list[..|list| - 1]);
      MergedOneKeeps(before, l);
      hide MergedOne, Unique, Has, Get, FirstIndex;
    }
  }

  /** The keys of a list in the order they first appear. */
  function FirstKeys(list: seq<Linked>): seq<(IdentityProvider, string)> {
    if list == [] then []
    else
      var before, k := FirstKeys(list[..|list| - 1]), LinkedKey(list[|list| - 1]);
      if k in before then before else before + [k]
  }

  lemma {:induction false} MergedKeys(list: seq<Linked>)
    ensures |Merged(list)| == |FirstKeys(list)|
    ensures forall i | 0 <= i < |Merged(list)| :: LinkedKey(Merged(list)[i]) == FirstKeys(list)[i]
  {
    if list == [] {
    } else {
      var before, l := list[..|list| - 1], list[|list| - 1];
      MergedKeys(before);
      KeyAmong(Merged(before), FirstKeys(before), LinkedKey(l));
    }
  }

  lemma KeyAmong(merged: seq<Linked>, keys: seq<(IdentityProvider, string)>, k: (IdentityProvider, string))
    requires |merged| == |keys| && forall i | 0 <= i < |merged| :: LinkedKey(merged[i]) == keys[i]
    ensures FirstIndex(merged, LinkedKey, k) < |merged| <==> k in keys
  {
    AbsentEverywhere(merged, LinkedKey, k);
  }

  /** The merged list, record by record: the winner of each key, in the order the keys first appear. */
  lemma MergedInOrder(list: seq<Linked>)
    ensures |Merged(list)| == |FirstKeys(list)|
    ensures forall i | 0 <= i < |Merged(list)| ::
              LinkedKey(Merged(list)[i]) == FirstKeys(list)[i] && Winner(list, FirstKeys(list)[i]) == Some(Merged(list)[i])
  {
    MergedKeys(list);
    MergedKeepsWinners(list);
    hide Merged, Winner, FirstKeys;
    forall i | 0 <= i < |Merged(list)|
      ensures Winner(list, FirstKeys(list)[i]) == Some(Merged(list)[i])
    {
      FirstIndexIs(Merged(list), LinkedKey, LinkedKey(Merged(list)[i]), i);
    }
  }

  method MergeIdentities(list: seq<Linked>) returns (merged: seq<Linked>)
    ensures merged == Merged(list)
  {
    merged := [];
    for n := 0 to |list|
      invariant merged == Merged(list[..n])
    {
      assert list[..n + 1][..n] == list[..n];
      var i := Find(merged, LinkedKey, LinkedKey(list[n]));
      if i == |merged| {
        merged := merged + [list[n]];
      } else if merged[i].source.DiscordConnection? || list[n].source.OAuth? {
        merged := merged[i := list[n]];
      }
    }
    assert list[..|list|] == list;
  }

  // ---------------------------------------------------------------- normalising a profile

  function Deduplicated(list: seq<string>): seq<string> {
    if list == [] then []
    else
      var before, x := Deduplicated(list[..|list| - 1]), list[|list| - 1];
      if x in before then before else before + [x]
  }

  function Proper(list: seq<string>, userId: string): seq<string> {
    if list == [] then []
    else
      var before, x := Proper(list[..|list| - 1], userId), list[|list| - 1];
      if x != "" && x != userId then before + [x] else before
  }

  lemma {:induction false} DeduplicatedHas(list: seq<string>)
    ensures forall x :: x in Deduplicated(list) <==> x in list
  {
    if list == [] {
    } else {
      DeduplicatedHas(list[..|list| - 1]);
      assert list == list[..|list| - 1] + [list[|list| - 1]];
    }
  }

  lemma {:induction false} ProperHas(list: seq<string>, userId: string)
    ensures forall x :: x in Proper(list, userId) <==> x in list && x != "" && x != userId
  {
    if list == [] {
    } else {
      ProperHas(list[..|list| - 1], userId);
      assert list == list[..|list| - 1] + [list[|list| - 1]];
    }
  }

  function FirstOf(list: seq<Linked>, wanted: Linked -> bool): Option<Linked> {
    if list == [] then None else if wanted(list[0]) then Some(list[0]) else FirstOf(list[1..], wanted)
  }

  /** The identity a profile shows: the one its id names, else one from OAuth, else its own provider's, else any. */
  function Primary(p: Profile, identities: seq<Linked>): Option<Linked> {
    var named := FirstOf(identities, l => KeyString(l) == p.userId);
    var oauth := FirstOf(identities, (l: Linked) => l.source.OAuth?);
    var own := FirstOf(identities, l => LinkedKey(l) == (p.provider, p.providerId));
    if named.Some? then named
    else if oauth.Some? then oauth
    else if own.Some? then own
    else if identities != [] then Some(identities[0]) else None
  }

  function Normalized(p: Profile): Profile {
    var identities := Merged(Known(p) + [Legacy(p)]);
    var primary := Primary(p, identities);
    var username := if p.customUsername.Some? then p.customUsername.value
                    else if primary.Some? then primary.value.username else p.username;
    p.(username := username, customUsername := Some(username), identities := Some(identities),
       aliases := Deduplicated(Proper(p.aliases, p.userId)))
  }

  lemma {:induction false} MergedTwice(list: seq<Linked>)
    requires Unique(list, LinkedKey)
    ensures Merged(list) == list
  {
    if list == [] {
    } else {
      var n := |list| - 1;
      assert Unique(list[..n], LinkedKey);
      MergedTwice(list[..n]);
      AbsentEverywhere(list[..n], LinkedKey, LinkedKey(list[n]));
    }
  }

  /** The profile's own record comes out of normalising as it went in. */
  lemma LegacyWins(p: Profile)
    ensures var list := Merged(Known(p) + [Legacy(p)]);
            && Unique(list, LinkedKey) && Has(list, LinkedKey, LinkedKey(Legacy(p)))
            && Get(list, LinkedKey, LinkedKey(Legacy(p))) == Legacy(p)
  {
    var all := Known(p) + [Legacy(p)];
    assert all[..|all| - 1] == Known(p);
    MergedKeepsWinners(all);
  }

  // ---------------------------------------------------------------- the operations

  predicate Answers(p: Profile, id: string) {
    p.userId == id || id in p.aliases
  }

  /** getAuthProfile: the first profile with this id or alias, or the length. */
  function Lookup(profiles: seq<Profile>, id: string): (i: nat)
    ensures i <= |profiles|
    ensures i < |profiles| ==> Answers(profiles[i], id)
    ensures forall j | 0 <= j < i :: !Answers(profiles[j], id)
  {
    if profiles == [] then 0
    else if Answers(profiles[0], id) then 0
    else
      var rest := Lookup(profiles[1..], id);
      assert forall j | 0 < j < rest + 1 :: profiles[j] == profiles[1..][j - 1];
      rest + 1
  }

  /** The lower-cased names of the profiles with another id. */
  function OtherNames(profiles: seq<Profile>, userId: string): set<string> {
    set p | p in profiles && p.userId != userId :: Lower(p.username)
  }

  function Named(p: Profile, name: string): Profile {
    p.(username := name, customUsername := Some(name))
  }

  function UpsertedProfile(profiles: seq<Profile>, p: Profile): Option<seq<Profile>> {
    var incoming := Normalized(p);
    var i := FirstIndex(profiles, UserId, p.userId);
    if i == |profiles| then
      var name := Chosen(incoming.username, OtherNames(profiles, p.userId));
      if name.None? then None else Some(profiles + [Named(incoming, name.value)])
    else
      var e := profiles[i];
      Some(profiles[i := incoming.(
        username := e.username,
        customUsername := if e.customUsername.Some? then e.customUsername else incoming.customUsername,
        identities := Some(Merged(Known(e) + Known(incoming))),
        aliases := Deduplicated(e.aliases + incoming.aliases))])
  }

  function UpsertedIdentity(profiles: seq<Profile>, userId: string, l: Linked): Option<seq<Profile>> {
    var i := Lookup(profiles, userId);
    if i == |profiles| then
      UpsertedProfile(profiles, Profile(userId, l.provider, l.providerId, l.username, None, Some([l]), []))
    else
      Some(profiles[i := profiles[i].(identities := Some(Merged(KnownOrLegacy(profiles[i]) + [l])))])
  }

  function Absorbed(target: Profile, source: Profile): Profile {
    target.(identities := Some(Merged(KnownOrLegacy(target) + KnownOrLegacy(source))),
            aliases := Deduplicated(target.aliases + [source.userId] + source.aliases))
  }

  function Dropped(profiles: seq<Profile>, i: nat): seq<Profile>
    requires i < |profiles|
  {
    profiles[..i] + profiles[i + 1..]
  }

  function MergedProfiles(profiles: seq<Profile>, target: string, source: string): seq<Profile> {
    var t, s := Lookup(profiles, target), Lookup(profiles, source);
    if target == source || s == |profiles| then profiles
    else if t == |profiles| then
      profiles[s := profiles[s].(aliases := Deduplicated(profiles[s].aliases + [profiles[s].userId]), userId := target)]
    else Dropped(profiles[t := Absorbed(profiles[t], profiles[s])], s)
  }

  function Renamed(profiles: seq<Profile>, id: string, name: string): Result<seq<Profile>, RenameError> {
    var i, requested := Lookup(profiles, id), TrimEnd(TrimStart(name));
    if i == |profiles| then Failure(NoProfile)
    else if !WellFormed(requested) then Failure(Malformed)
    else if Reserved(requested) then Failure(Unavailable)
    else if exists j :: 0 <= j < |profiles| && j != i && Lower(profiles[j].username) == Lower(requested) then Failure(Taken)
    else Success(profiles[i := Named(profiles[i], requested)])
  }

  function Deleted(profiles: seq<Profile>, id: string): seq<Profile> {
    var i := Lookup(profiles, id);
    if i == |profiles| then profiles else Dropped(profiles, i)
  }

  /** normalizeAccountUsernames: each profile in turn keeps its name or gets one free among those before it. */
  function Assigned(profiles: seq<Profile>): Option<seq<Profile>> {
    if profiles == [] then Some([])
    else
      var before, p := Assigned(profiles[..|profiles| - 1]), profiles[|profiles| - 1];
      if before.None? then None
      else
        var name := Chosen(p.username, OtherNames(before.value, p.userId));
        if name.None? then None else Some(before.value + [Named(p, name.value)])
  }

  // ---------------------------------------------------------------- usernames

  /** Ids are distinct, and so are names, letter case aside; every name is acceptable. */
  ghost predicate NamesSound(profiles: seq<Profile>) {
    && Unique(profiles, UserId)
    && (forall p | p in profiles :: Acceptable(p.username))
    && (forall i, j | 0 <= i < j < |profiles| :: Lower(profiles[i].username) != Lower(profiles[j].username))
  }

  lemma AddedNameSound(profiles: seq<Profile>, p: Profile)
    requires NamesSound(profiles) && !Has(profiles, UserId, p.userId)
    requires Acceptable(p.username) && Lower(p.username) !in OtherNames(profiles, p.userId)
    ensures NamesSound(profiles + [p])
  {
  }

  /** The same profile but for things other than id and name. */
  lemma KeptNameSound(profiles: seq<Profile>, i: nat, p: Profile)
    requires NamesSound(profiles) && i < |profiles| && p.userId == profiles[i].userId && p.username == profiles[i].username
    ensures NamesSound(profiles[i := p])
  {
  }

  lemma DroppedNameSound(profiles: seq<Profile>, i: nat)
    requires NamesSound(profiles) && i < |profiles|
    ensures NamesSound(Dropped(profiles, i))
  {
  }

  lemma UpsertKeepsNames(profiles: seq<Profile>, p: Profile)
    requires NamesSound(profiles)
    ensures UpsertedProfile(profiles, p).Some? ==> NamesSound(UpsertedProfile(profiles, p).value)
  {
    hide Normalized, Chosen, OtherNames, Merged, Deduplicated;
    assert Normalized(p).userId == p.userId by { NormalizedKeepsId(p); }
    var i := FirstIndex(profiles, UserId, p.userId);
    if UpsertedProfile(profiles, p).None? {
    } else if i == |profiles| {
      ChosenIsUsable(Normalized(p).username, OtherNames(profiles, p.userId));
      AddedNameSound(profiles, UpsertedProfile(profiles, p).value[i]);
    } else {
      KeptNameSound(profiles, i, UpsertedProfile(profiles, p).value[i]);
    }
  }

  lemma NormalizedKeepsId(p: Profile)
    ensures Normalized(p).userId == p.userId
  {
  }

  lemma MergeKeepsNames(profiles: seq<Profile>, target: string, source: string)
    requires NamesSound(profiles)
    ensures NamesSound(MergedProfiles(profiles, target, source))
  {
    hide Merged, Deduplicated;
    var t, s := Lookup(profiles, target), Lookup(profiles, source);
    if target != source && s < |profiles| {
      if t < |profiles| {
        KeptNameSound(profiles, t, Absorbed(profiles[t], profiles[s]));
        DroppedNameSound(profiles[t := Absorbed(profiles[t], profiles[s])], s);
      } else {
        MovedIdSound(profiles, s, MergedProfiles(profiles, target, source)[s]);
      }
    }
  }

  lemma MovedIdSound(profiles: seq<Profile>, i: nat, p: Profile)
    requires NamesSound(profiles) && i < |profiles| && p.username == profiles[i].username && !Has(profiles, UserId, p.userId)
    ensures NamesSound(profiles[i := p])
  {
  }

  lemma RenameKeepsNames(profiles: seq<Profile>, id: string, name: string)
    requires NamesSound(profiles) && Renamed(profiles, id, name).Success?
    ensures NamesSound(Renamed(profiles, id, name).value)
  {
  }

  datatype Operation =
    | UpsertProfileOp(profile: Profile)
    | UpsertIdentityOp(userId: string, linked: Linked)
    | MergeOp(target: string, source: string)
    | RenameOp(userId: string, name: string)
    | DeleteOp(userId: string)

  /** An operation that throws changes nothing. */
  function Applied(profiles: seq<Profile>, o: Operation): seq<Profile> {
    match o
    case UpsertProfileOp(p) => if UpsertedProfile(profiles, p).Some? then UpsertedProfile(profiles, p).value else profiles
    case UpsertIdentityOp(id, l) => if UpsertedIdentity(profiles, id, l).Some? then UpsertedIdentity(profiles, id, l).value else profiles
    case MergeOp(t, s) => MergedProfiles(profiles, t, s)
    case RenameOp(id, name) => if Renamed(profiles, id, name).Success? then Renamed(profiles, id, name).value else profiles
    case DeleteOp(id) => Deleted(profiles, id)
  }

  function Ran(profiles: seq<Profile>, os: seq<Operation>): seq<Profile> {
    if os == [] then profiles else Applied(Ran(profiles, os[..|os| - 1]), os[|os| - 1])
  }

  lemma StepKeepsNames(profiles: seq<Profile>, o: Operation)
    requires NamesSound(profiles)
    ensures NamesSound(Applied(profiles, o))
  {
    hide NamesSound, UpsertedProfile, MergedProfiles, Renamed;
    match o
    case UpsertProfileOp(p) => UpsertKeepsNames(profiles, p);
    case UpsertIdentityOp(id, l) =>
      var i := Lookup(profiles, id);
      if i < |profiles| {
        KeptNameSound(profiles, i, profiles[i].(identities := Some(Merged(KnownOrLegacy(profiles[i]) + [l]))));
      } else if UpsertedIdentity(profiles, id, l).Some? {
        UpsertKeepsNames(profiles, Profile(id, l.provider, l.providerId, l.username, None, Some([l]), []));
      }
    case MergeOp(t, s) => MergeKeepsNames(profiles, t, s);
    case RenameOp(id, name) =>
      if Renamed(profiles, id, name).Success? { RenameKeepsNames(profiles, id, name); }
    case DeleteOp(id) =>
      if Lookup(profiles, id) < |profiles| { DroppedNameSound(profiles, Lookup(profiles, id)); }
  }

  /** After any run of creates, links, merges, renames and deletes, usernames are unique letter case aside,
      unreserved and well formed. */
  lemma {:induction false} RunKeepsNames(profiles: seq<Profile>, os: seq<Operation>)
    requires NamesSound(profiles)
    ensures NamesSound(Ran(profiles, os))
  {
    hide NamesSound, Applied;
    if os == [] {
    } else {
      RunKeepsNames(profiles, os[..|os| - 1]);
      StepKeepsNames(Ran(profiles, os[..|os| - 1]), os[|os| - 1]);
    }
  }

  /** Assigning usernames on load makes them sound, whatever they were. */
  lemma {:induction false} AssignedIsSound(profiles: seq<Profile>)
    requires Unique(profiles, UserId)
    ensures Assigned(profiles).Some? ==>
            var r := Assigned(profiles).value;
            && NamesSound(r) && |r| == |profiles|
            && (forall i | 0 <= i < |r| :: r[i] == Named(profiles[i], r[i].username))
  {
    hide Chosen, NamesSound, OtherNames, Unique;
    if profiles == [] {
      NoNames();
    } else if Assigned(profiles).Some? {
      var n := |profiles| - 1;
      PrefixUnique(profiles, n);
      AssignedIsSound(profiles[..n]);
      NextAssigned(profiles, Assigned(profiles[..n]).value);
    }
  }

  lemma NoNames()
    ensures NamesSound([])
  {
  }

  lemma PrefixUnique(profiles: seq<Profile>, n: nat)
    requires Unique(profiles, UserId) && n <= |profiles|
    ensures Unique(profiles[..n], UserId)
  {
  }

  lemma NextAssigned(profiles: seq<Profile>, before: seq<Profile>)
    requires Unique(profiles, UserId) && profiles != [] && |before| == |profiles| - 1
    requires NamesSound(before) && forall i | 0 <= i < |before| :: before[i] == Named(profiles[i], before[i].username)
    requires Chosen(profiles[|before|].username, OtherNames(before, profiles[|before|].userId)).Some?
    ensures var p := profiles[|before|];
            NamesSound(before + [Named(p, Chosen(p.username, OtherNames(before, p.userId)).value)])
  {
    hide Chosen, NamesSound, OtherNames;
    var p := profiles[|before|];
    ChosenIsUsable(p.username, OtherNames(before, p.userId));
    assert forall i | 0 <= i < |before| :: before[i].userId == profiles[i].userId && UserId(profiles[i]) != UserId(p);
    AbsentEverywhere(before, UserId, p.userId);
    AddedNameSound(before, Named(p, Chosen(p.username, OtherNames(before, p.userId)).value));
  }

  /** Sound usernames are kept as they are, so assigning again changes nothing. */
  lemma {:induction false} AssignedTwice(profiles: seq<Profile>)
    requires NamesSound(profiles) && forall p | p in profiles :: p.customUsername == Some(p.username)
    ensures Assigned(profiles) == Some(profiles)
  {
    if profiles == [] {
    } else {
      var n := |profiles| - 1;
      var before, p := profiles[..n], profiles[n];
      assert profiles == before + [p];
      assert NamesSound(before) by {
        assert forall q | q in before :: q in profiles;
      }
      AssignedTwice(before);
      ChosenIsUsable(p.username, OtherNames(before, p.userId));
    }
  }

  /** Assigning usernames once more to profiles that were assigned theirs changes nothing. */
  lemma AssignedAgain(profiles: seq<Profile>)
    requires Unique(profiles, UserId)
    ensures Assigned(profiles).Some? ==> Assigned(Assigned(profiles).value) == Assigned(profiles)
  {
    hide Assigned, NamesSound;
    AssignedIsSound(profiles);
    if Assigned(profiles).Some? {
      AssignedTwice(Assigned(profiles).value);
    }
  }
}
