/** Loading the stored profiles (packages/dkrypt/src/identity.ts:113-119): each is normalised, and then usernames are
    assigned in turn. */
module ProfileLoading {
  import opened Wrappers
  import opened Characters
  import opened Keyed
  import opened Usernames
  import opened Identity
  import opened ProfileNormalising

  function NormalizedEach(profiles: seq<Profile>): (r: seq<Profile>)
    ensures |r| == |profiles| && forall i | 0 <= i < |r| :: r[i] == Normalized(profiles[i])
  {
    seq(|profiles|, i requires 0 <= i < |profiles| => Normalized(profiles[i]))
  }

  /** None when a profile is left without a free name. */
  function Load(profiles: seq<Profile>): Option<seq<Profile>> {
    Assigned(NormalizedEach(profiles))
  }

  /** Loading keeps every profile's id and own record; the name becomes the custom one. */
  lemma LoadedEach(profiles: seq<Profile>)
    requires Unique(profiles, UserId) && Load(profiles).Some?
    ensures var r := Load(profiles).value;
            && NamesSound(r) && |r| == |profiles|
            && forall i | 0 <= i < |r| :: r[i] == Named(Normalized(profiles[i]), r[i].username)
  {
    hide Assigned, Chosen;
    assert Unique(NormalizedEach(profiles), UserId);
    hide NamesSound, Unique, Normalized, Named;
    AssignedIsSound(NormalizedEach(profiles));
  }

  /** Normalising a profile once loaded changes nothing exactly when loading left its username as it was. */
  lemma LoadedNormalized(p: Profile, name: string)
    ensures var q := Named(Normalized(p), name);
            && Normalized(q).username == name
            && (Normalized(q) == q <==> name == p.username)
            && (Normalized(q).identities == q.identities <==> name == p.username)
  {
    var q := Named(Normalized(p), name);
    AliasesTwice(p.aliases, p.userId);
    IdentitiesTwice(p, q);
    hide Merged, Deduplicated, Proper, Primary;
  }

  /** Loading what a load returned returns it again if and only if every username is still the one stored before the
      first load: a profile whose name changed gets its own record changed by the second. */
  lemma LoadedTwiceExactly(profiles: seq<Profile>)
    requires Unique(profiles, UserId) && Load(profiles).Some?
    ensures var r := Load(profiles).value;
            && |r| == |profiles|
            && (Load(r) == Some(r) <==> forall i | 0 <= i < |r| :: r[i].username == profiles[i].username)
  {
    hide NamesSound, Normalized, Assigned, Unique;
    LoadedEach(profiles);
    var r := Load(profiles).value;
    forall i | 0 <= i < |r|
      ensures Normalized(r[i]) == r[i] <==> r[i].username == profiles[i].username
      ensures Normalized(r[i]).identities == r[i].identities <==> r[i].username == profiles[i].username
    {
      LoadedNormalized(profiles[i], r[i].username);
    }
    if forall i | 0 <= i < |r| :: r[i].username == profiles[i].username {
      assert NormalizedEach(r) == r;
      AssignedTwice(r);
    } else if Load(r) == Some(r) {
      LoadedSame(r);
    }
  }

  /** What comes back from a load unchanged was normalised already. */
  lemma LoadedSame(r: seq<Profile>)
    requires NamesSound(r) && Load(r) == Some(r)
    ensures forall i | 0 <= i < |r| :: Normalized(r[i]).identities == r[i].identities
  {
    assert Unique(r, UserId);
    LoadedEach(r);
    hide NamesSound, Normalized, Load, Unique;
  }

  /** Loading twice is loading once for profiles that normalising leaves their names and whose names are sound. */
  lemma SettledLoadsTwice(profiles: seq<Profile>)
    requires NamesSound(profiles) && forall p | p in profiles :: KeepsName(p)
    ensures Load(profiles).Some? && Load(Load(profiles).value) == Load(profiles)
  {
    assert Unique(profiles, UserId);
    var each := NormalizedEach(profiles);
    forall i | 0 <= i < |profiles|
      ensures each[i].username == profiles[i].username && each[i].userId == profiles[i].userId
      ensures each[i].customUsername == Some(each[i].username)
    {
      assert profiles[i] in profiles;
      KeepsNameExactly(profiles[i]);
    }
    assert NamesSound(each);
    hide NamesSound, Normalized, Unique, KeepsName;
    assert forall p | p in each :: p.customUsername == Some(p.username);
    AssignedTwice(each);
    LoadedTwiceExactly(profiles);
  }

  lemma SoleLoad(p: Profile)
    requires Acceptable(Normalized(p).username)
    ensures Load([p]) == Some([Named(Normalized(p), Normalized(p).username)])
  {
    var q := Normalized(p);
    hide Normalized, Acceptable, Chosen;
    assert NormalizedEach([p]) == [q] && [q][..0] == [];
    assert Assigned([]) == Some([]);
    assert OtherNames([], q.userId) == {};
    ChosenIsUsable(q.username, {});
    assert [] + [Named(q, q.username)] == [Named(q, q.username)];
  }

  lemma NewIsAcceptable()
    ensures Acceptable(NEW)
  {
    assert Lower(NEW)[0] == 'n' && ROOT[0] == 'r' && SYSTEM[0] == 's';
  }

  /** A renamed account that still carries its provider's name is changed by a second load. */
  lemma RenamedLoadsAgain(id: string)
    ensures var stored := [Profile("github:" + id, GitHub, id, OLD, Some(NEW), None, [])];
            Load(stored).Some? && Load(Load(stored).value) != Load(stored)
  {
    var p := Profile("github:" + id, GitHub, id, OLD, Some(NEW), None, []);
    assert OLD[0] != NEW[0];
    assert Normalized(p).username == NEW;
    hide Normalized, Load, Acceptable;
    NewIsAcceptable();
    SoleLoad(p);
    LoadedTwiceExactly([p]);
  }
}
