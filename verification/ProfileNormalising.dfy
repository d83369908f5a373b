/** The identity a profile shows, and normalising a profile twice (packages/dkrypt/src/identity.ts:72-89). */
module ProfileNormalising {
  import opened Wrappers
  import opened Keyed
  import opened Identity

  // ---------------------------------------------------------------- the identity shown

  /** All that a profile knows of its identities, its own record last. */
  function Gathered(p: Profile): seq<Linked> {
    Known(p) + [Legacy(p)]
  }

  /** The identity a profile shows when it is normalised. */
  function PrimaryOf(p: Profile): Option<Linked> {
    Primary(p, Merged(Gathered(p)))
  }

  lemma {:induction false} FirstOfIs(list: seq<Linked>, wanted: Linked -> bool)
    ensures FirstOf(list, wanted).None? <==> forall i | 0 <= i < |list| :: !wanted(list[i])
    ensures FirstOf(list, wanted).Some? ==>
              exists i :: 0 <= i < |list| && FirstOf(list, wanted) == Some(list[i]) && wanted(list[i])
                          && forall j | 0 <= j < i :: !wanted(list[j])
  {
    if list == [] {
    } else {
      FirstOfIs(list[1..], wanted);
      assert forall i | 0 < i < |list| :: list[i] == list[1..][i - 1];
      if !wanted(list[0]) && FirstOf(list[1..], wanted).Some? {
        var i :| 0 <= i < |list[1..]| && FirstOf(list[1..], wanted) == Some(list[1..][i]) && wanted(list[1..][i])
                 && forall j | 0 <= j < i :: !wanted(list[1..][j]);
        assert list[i + 1] == list[1..][i];
        assert forall j | 0 <= j < i + 1 :: j == 0 || list[j] == list[1..][j - 1];
      }
    }
  }

  /** The identity shown is the winner of the key that the profile's id names, if it has one. */
  lemma PrimaryNamed(p: Profile, l: Linked)
    requires l in Gathered(p) && KeyString(l) == p.userId
    ensures PrimaryOf(p) == Winner(Gathered(p), LinkedKey(l)) && PrimaryOf(p).Some?
  {
    var all := Gathered(p);
    var list := Merged(all);
    MergedKeepsWinners(all);
    WinnerExists(all, LinkedKey(l));
    FirstOfIs(list, x => KeyString(x) == p.userId);
    hide Merged, Winner, FirstOf;
    var record := Get(list, LinkedKey, LinkedKey(l));
    assert KeyString(record) == p.userId;
    var i :| 0 <= i < |list| && FirstOf(list, x => KeyString(x) == p.userId) == Some(list[i]) && KeyString(list[i]) == p.userId;
    SameKeyString(list[i], l);
    FirstIndexOfUnique(list, i);
  }

  lemma SameKeyString(a: Linked, b: Linked)
    requires KeyString(a) == KeyString(b)
    ensures LinkedKey(a) == LinkedKey(b)
  {
    assert KeyString(a)[0] == KeyString(b)[0];
    var n := if a.provider.GitHub? then 7 else 8;
    assert KeyString(a)[n..] == a.providerId && KeyString(b)[n..] == b.providerId;
  }

  lemma FirstIndexOfUnique(list: seq<Linked>, i: nat)
    requires Unique(list, LinkedKey) && i < |list|
    ensures Has(list, LinkedKey, LinkedKey(list[i])) && Get(list, LinkedKey, LinkedKey(list[i])) == list[i]
  {
    FirstIndexIs(list, LinkedKey, LinkedKey(list[i]), i);
  }

  lemma MergedUnnamed(p: Profile)
    requires forall l | l in Gathered(p) :: KeyString(l) != p.userId
    ensures forall l | l in Merged(Gathered(p)) :: KeyString(l) != p.userId
  {
    MergedAreGathered(p);
    hide Merged, Gathered;
    forall l | l in Merged(Gathered(p))
      ensures KeyString(l) != p.userId
    {
      var m :| m in Gathered(p) && LinkedKey(m) == LinkedKey(l);
      assert KeyString(m) == KeyString(l);
    }
  }

  lemma OwnIsMerged(p: Profile)
    ensures exists i :: 0 <= i < |Merged(Gathered(p))| && Merged(Gathered(p))[i].source.OAuth?
  {
    LegacyWins(p);
    assert Legacy(p) in Merged(Gathered(p));
  }

  /** Otherwise the first merged record from OAuth is shown, and there is one. */
  lemma ShownByOAuth(p: Profile)
    requires forall l | l in Gathered(p) :: KeyString(l) != p.userId
    ensures PrimaryOf(p).Some? && PrimaryOf(p) == FirstOf(Merged(Gathered(p)), (x: Linked) => x.source.OAuth?)
  {
    MergedUnnamed(p);
    OwnIsMerged(p);
    hide Merged, FirstOf, Gathered, KeyString, LinkedKey;
    var list := Merged(Gathered(p));
    FirstOfIs(list, x => KeyString(x) == p.userId);
    FirstOfIs(list, (x: Linked) => x.source.OAuth?);
  }

  /** That is the winner of the first key to have a record from OAuth, the profile's own at the latest. */
  lemma PrimaryUnnamed(p: Profile) returns (i: nat)
    requires forall l | l in Gathered(p) :: KeyString(l) != p.userId
    ensures i < |FirstKeys(Gathered(p))|
    ensures PrimaryOf(p).Some? && PrimaryOf(p) == Winner(Gathered(p), FirstKeys(Gathered(p))[i]) && PrimaryOf(p).value.source.OAuth?
    ensures forall j | 0 <= j < i ::
              var w := Winner(Gathered(p), FirstKeys(Gathered(p))[j]); w.Some? && w.value.source.DiscordConnection?
  {
    ShownByOAuth(p);
    hide Merged, Winner, FirstOf, FirstKeys, Gathered, Primary;
    var list := Merged(Gathered(p));
    MergedInOrder(Gathered(p));
    FirstOfIs(list, (x: Linked) => x.source.OAuth?);
    i :| 0 <= i < |list| && FirstOf(list, (x: Linked) => x.source.OAuth?) == Some(list[i]) && list[i].source.OAuth?
         && forall j | 0 <= j < i :: !list[j].source.OAuth?;
  }

  /** No record is made up by merging. */
  lemma MergedAreGathered(p: Profile)
    ensures forall l | l in Merged(Gathered(p)) :: exists m :: m in Gathered(p) && LinkedKey(m) == LinkedKey(l)
  {
    var all := Gathered(p);
    MergedKeepsWinners(all);
    forall l | l in Merged(all)
      ensures exists m :: m in all && LinkedKey(m) == LinkedKey(l)
    {
      var i :| 0 <= i < |Merged(all)| && Merged(all)[i] == l;
      FirstIndexOfUnique(Merged(all), i);
      WinnerExists(all, LinkedKey(l));
    }
  }

  // ---------------------------------------------------------------- normalising twice

  lemma AliasesTwice(aliases: seq<string>, userId: string)
    ensures var once := Deduplicated(Proper(aliases, userId)); Deduplicated(Proper(once, userId)) == once
  {
  }

  lemma IdentitiesTwice(p: Profile, q: Profile)
    requires q.identities == Some(Merged(Known(p) + [Legacy(p)])) && q.provider == p.provider && q.providerId == p.providerId
    ensures Merged(Known(q) + [Legacy(q)]) == Known(q) <==> q.username == p.username
  {
    hide Merged, MergedOne, FirstIndex, Unique;
    var list := Known(q);
    LegacyWins(p);
    MergedTwice(list);
    MergedNext(list, Legacy(q));
    LegacyReplaces(list, Legacy(q));
    ReplacedIsSame(list, FirstIndex(list, LinkedKey, LinkedKey(Legacy(q))), Legacy(q));
  }

  /** A record from OAuth takes the place of the one with its key. */
  lemma LegacyReplaces(list: seq<Linked>, l: Linked)
    requires Has(list, LinkedKey, LinkedKey(l)) && l.source.OAuth?
    ensures MergedOne(list, l) == list[FirstIndex(list, LinkedKey, LinkedKey(l)) := l]
  {
  }

  lemma ReplacedIsSame<T>(s: seq<T>, i: nat, x: T)
    requires i < |s|
    ensures s[i := x] == s <==> s[i] == x
  {
    assert s[i := x][i] == x;
  }

  lemma MergedNext(list: seq<Linked>, l: Linked)
    ensures Merged(list + [l]) == MergedOne(Merged(list), l)
  {
  }

  lemma OwnWins(p: Profile)
    ensures Winner(Gathered(p), LinkedKey(Legacy(p))) == Some(Legacy(p)) && Legacy(p) in Gathered(p)
  {
    assert Gathered(p)[|Gathered(p)| - 1] == Legacy(p);
  }

  lemma OwnShown(p: Profile)
    requires KeyString(Legacy(p)) == p.userId
    ensures PrimaryOf(p) == Some(Legacy(p))
  {
    OwnWins(p);
    hide Gathered, Winner, PrimaryOf, KeyString;
    PrimaryNamed(p, Legacy(p));
  }

  lemma ShownName(p: Profile)
    ensures p.customUsername.None? && PrimaryOf(p).Some? ==> Normalized(p).username == PrimaryOf(p).value.username
    ensures p.customUsername.None? && PrimaryOf(p).None? ==> Normalized(p).username == p.username
    ensures p.customUsername.Some? ==> Normalized(p).username == p.customUsername.value
  {
    hide Primary, Merged, Deduplicated, Proper;
  }

  lemma AlwaysShown(p: Profile)
    ensures PrimaryOf(p).Some?
  {
    OwnWins(p);
    if l :| l in Gathered(p) && KeyString(l) == p.userId {
      PrimaryNamed(p, l);
    } else {
      ShownByOAuth(p);
    }
  }

  /** The username stays under normalising: it is the custom one, or there is none and it is that of the identity shown. */
  predicate KeepsName(p: Profile) {
    if p.customUsername.Some? then p.customUsername.value == p.username
    else KeyString(Legacy(p)) == p.userId || (AlwaysShown(p); PrimaryOf(p).value.username == p.username)
  }

  lemma KeepsNameExactly(p: Profile)
    ensures Normalized(p).username == p.username <==> KeepsName(p)
  {
    hide Normalized, PrimaryOf, KeyString;
    ShownName(p);
    AlwaysShown(p);
    if KeyString(Legacy(p)) == p.userId {
      OwnShown(p);
    }
  }

  /** Normalising twice is normalising once exactly when the profile's username is its custom one or, without one,
      its id is its own record's or the identity it shows has that username. */
  lemma NormalizedTwiceExactly(p: Profile)
    ensures Normalized(Normalized(p)) == Normalized(p) <==> KeepsName(p)
  {
    KeepsNameExactly(p);
    hide Merged, Deduplicated, Proper, Primary, KeepsName;
    AliasesTwice(p.aliases, p.userId);
    IdentitiesTwice(p, Normalized(p));
  }

  const OLD := "old"
  const NEW := "new"

  /** A renamed account that still carries its provider's name changes again. */
  lemma RenamedChangesAgain(id: string)
    ensures var p := Profile("github:" + id, GitHub, id, OLD, Some(NEW), None, []); Normalized(Normalized(p)) != Normalized(p)
  {
    assert OLD[0] != NEW[0];
    NormalizedTwiceExactly(Profile("github:" + id, GitHub, id, OLD, Some(NEW), None, []));
    hide Normalized;
  }

  /** And so does an account whose id is that of another of its identities, under another name. */
  lemma OtherIdentityChangesAgain(id: string, other: string)
    ensures var p := Profile("discord:" + other, GitHub, id, OLD, None, Some([Linked(Discord, other, NEW, OAuth)]), []);
            Normalized(Normalized(p)) != Normalized(p)
  {
    var l := Linked(Discord, other, NEW, OAuth);
    var p := Profile("discord:" + other, GitHub, id, OLD, None, Some([l]), []);
    assert Gathered(p) == [l, Legacy(p)] && [l, Legacy(p)][..1] == [l] && [l][..0] == [];
    PrimaryNamed(p, l);
    assert Winner([l], LinkedKey(l)) == Some(l);
    assert Winner(Gathered(p), LinkedKey(l)) == Some(l);
    assert OLD[0] != NEW[0] && KeyString(Legacy(p))[0] != p.userId[0];
    NormalizedTwiceExactly(p);
    hide Normalized, Primary, Merged, Winner;
  }
}
