/** Pin and archive flags with revisions, and their undo (packages/dkrypt/src/artifacts.ts:76-78, 231-257, 264-323).
    Every operation is a list of writes to flags, persisted as a whole or taken back by replaying, first to
    last, what each write replaced. */
module ArtifactUndo {
  import opened Wrappers
  import opened Keyed
  import opened Artifacts

  /** One write to a flag, with what it replaced. */
  datatype Write = Write(id: string, kind: FlagKind, before: Flag, after: Flag)

  /** A token to undo one change. */
  datatype UndoChange = UndoChange(id: string, kind: FlagKind, expectedRevision: int, expectedState: bool, restoreAt: Option<int>)

  /** One past the previous revision, or the clock if that is later. */
  function NextRevision(previous: Option<int>, now: int): int {
    var least := (if previous.Some? then previous.value else 0) + 1;
    if now > least then now else least
  }

  predicate Known(index: seq<Artifact>, id: string) {
    Has(index, ArtifactId, id)
  }

  function FlagAt(index: seq<Artifact>, id: string, kind: FlagKind): Flag
    requires Known(index, id)
  {
    FlagOf(Get(index, ArtifactId, id), kind)
  }

  function PutFlag(index: seq<Artifact>, id: string, kind: FlagKind, flag: Flag): (r: seq<Artifact>)
    ensures |r| == |index|
  {
    var i := FirstIndex(index, ArtifactId, id);
    if i < |index| then index[i := WithFlag(index[i], kind, flag)] else index
  }

  function Written(index: seq<Artifact>, writes: seq<Write>): (r: seq<Artifact>)
    ensures |r| == |index|
  {
    if writes == [] then index
    else
      var w := writes[|writes| - 1];
      PutFlag(Written(index, writes[..|writes| - 1]), w.id, w.kind, w.after)
  }

  /** Taking writes back: what each replaced is put back in the order of the writes. */
  function Replayed(index: seq<Artifact>, writes: seq<Write>): (r: seq<Artifact>)
    ensures |r| == |index|
  {
    if writes == [] then index
    else
      var w := writes[|writes| - 1];
      PutFlag(Replayed(index, writes[..|writes| - 1]), w.id, w.kind, w.before)
  }

  // ---------------------------------------------------------------- single writes

  /** The record a lookup by its id finds. */
  predicate Foremost(index: seq<Artifact>, i: nat)
    requires i < |index|
  {
    forall j | 0 <= j < i :: index[j].id != index[i].id
  }

  /** Two indexes hold the same records in the same places, up to the flags of those that lookups find. */
  predicate SameButFlags(a: seq<Artifact>, b: seq<Artifact>) {
    && |a| == |b|
    && (forall i | 0 <= i < |a| :: b[i].(pin := a[i].pin, archive := a[i].archive) == a[i])
    && (forall i | 0 <= i < |a| && !Foremost(a, i) :: a[i] == b[i])
  }

  lemma SameIds(a: seq<Artifact>, b: seq<Artifact>)
    requires SameButFlags(a, b)
    ensures forall id :: FirstIndex(a, ArtifactId, id) == FirstIndex(b, ArtifactId, id)
  {
  }

  lemma PutFlagEffect(index: seq<Artifact>, id: string, kind: FlagKind, flag: Flag)
    ensures SameButFlags(index, PutFlag(index, id, kind, flag))
    ensures forall x :: Known(PutFlag(index, id, kind, flag), x) <==> Known(index, x)
    ensures forall x, k | Known(index, x) ::
      FlagAt(PutFlag(index, id, kind, flag), x, k) == if x == id && k == kind then flag else FlagAt(index, x, k)
  {
  }

  /** The index is determined by its records up to flags and by every flag. */
  lemma FlagsDetermine(a: seq<Artifact>, b: seq<Artifact>)
    requires SameButFlags(a, b)
    requires forall id, kind | Known(a, id) && Known(b, id) :: FlagAt(a, id, kind) == FlagAt(b, id, kind)
    ensures a == b
  {
    SameIds(a, b);
    forall i | 0 <= i < |a|
      ensures a[i] == b[i]
    {
      if Foremost(a, i) {
        FirstIndexIs(a, ArtifactId, a[i].id, i);
        FirstIndexIs(b, ArtifactId, a[i].id, i);
        assert FlagAt(a, a[i].id, Pin) == FlagAt(b, a[i].id, Pin);
        assert FlagAt(a, a[i].id, Archive) == FlagAt(b, a[i].id, Archive);
      }
    }
  }

  // ---------------------------------------------------------------- many writes, one flag at a time

  predicate Touches(w: Write, id: string, kind: FlagKind) {
    w.id == id && w.kind == kind
  }

  function LastAfter(writes: seq<Write>, id: string, kind: FlagKind, otherwise: Flag): Flag {
    if writes == [] then otherwise
    else if Touches(writes[|writes| - 1], id, kind) then writes[|writes| - 1].after
    else LastAfter(writes[..|writes| - 1], id, kind, otherwise)
  }

  function LastBefore(writes: seq<Write>, id: string, kind: FlagKind, otherwise: Flag): Flag {
    if writes == [] then otherwise
    else if Touches(writes[|writes| - 1], id, kind) then writes[|writes| - 1].before
    else LastBefore(writes[..|writes| - 1], id, kind, otherwise)
  }

  lemma {:induction false} WrittenFlags(index: seq<Artifact>, writes: seq<Write>)
    ensures SameButFlags(index, Written(index, writes))
    ensures forall x :: Known(Written(index, writes), x) <==> Known(index, x)
    ensures forall x, k | Known(index, x) :: FlagAt(Written(index, writes), x, k) == LastAfter(writes, x, k, FlagAt(index, x, k))
  {
    if writes == [] {
    } else {
      var n := |writes| - 1;
      WrittenFlags(index, writes[..n]);
      PutFlagEffect(Written(index, writes[..n]), writes[n].id, writes[n].kind, writes[n].after);
    }
  }

  lemma {:induction false} ReplayedFlags(index: seq<Artifact>, writes: seq<Write>)
    ensures SameButFlags(index, Replayed(index, writes))
    ensures forall x :: Known(Replayed(index, writes), x) <==> Known(index, x)
    ensures forall x, k | Known(index, x) :: FlagAt(Replayed(index, writes), x, k) == LastBefore(writes, x, k, FlagAt(index, x, k))
  {
    if writes == [] {
    } else {
      var n := |writes| - 1;
      ReplayedFlags(index, writes[..n]);
      PutFlagEffect(Replayed(index, writes[..n]), writes[n].id, writes[n].kind, writes[n].before);
    }
  }

  /** Each write knows a record, remembers what it replaces, and takes the next revision. */
  ghost predicate Logged(index: seq<Artifact>, writes: seq<Write>) {
    forall n | 0 <= n < |writes| ::
      && Known(index, writes[n].id)
      && writes[n].before == LastAfter(writes[..n], writes[n].id, writes[n].kind, FlagAt(index, writes[n].id, writes[n].kind))
      && exists now :: writes[n].after.revision == Some(NextRevision(writes[n].before.revision, now))
  }

  /** Later than no revision is any, and than a revision a greater one. */
  predicate Newer(a: Option<int>, b: Option<int>) {
    b.Some? && (a.None? || a.value < b.value)
  }

  predicate TouchedIn(writes: seq<Write>, id: string, kind: FlagKind) {
    writes != [] && (Touches(writes[|writes| - 1], id, kind) || TouchedIn(writes[..|writes| - 1], id, kind))
  }

  predicate TouchedTwice(writes: seq<Write>, id: string, kind: FlagKind) {
    writes != [] &&
      var before := writes[..|writes| - 1];
      (Touches(writes[|writes| - 1], id, kind) && TouchedIn(before, id, kind)) || TouchedTwice(before, id, kind)
  }

  lemma {:induction false} TouchedSomewhere(writes: seq<Write>, id: string, kind: FlagKind)
    ensures TouchedIn(writes, id, kind) <==> exists n :: 0 <= n < |writes| && Touches(writes[n], id, kind)
  {
    if writes == [] {
    } else {
      var before := writes[..|writes| - 1];
      TouchedSomewhere(before, id, kind);
      assert forall m | 0 <= m < |before| :: before[m] == writes[m];
    }
  }

  /** No flag is written twice. */
  predicate Separate(writes: seq<Write>) {
    forall m, n | 0 <= m < n < |writes| :: !(writes[m].id == writes[n].id && writes[m].kind == writes[n].kind)
  }

  lemma {:induction false} NotTwice(writes: seq<Write>, id: string, kind: FlagKind)
    requires Separate(writes)
    ensures !TouchedTwice(writes, id, kind)
  {
    if writes == [] {
    } else {
      var last, before := writes[|writes| - 1], writes[..|writes| - 1];
      assert forall m | 0 <= m < |before| :: before[m] == writes[m];
      NotTwice(before, id, kind);
      TouchedSomewhere(before, id, kind);
    }
  }

  lemma {:induction false} TwiceAt(writes: seq<Write>, m: nat, n: nat)
    requires m < n < |writes| && writes[m].id == writes[n].id && writes[m].kind == writes[n].kind
    ensures TouchedTwice(writes, writes[n].id, writes[n].kind)
  {
    var before := writes[..|writes| - 1];
    if n == |before| {
      assert Touches(before[m], writes[n].id, writes[n].kind);
      TouchedSomewhere(before, writes[n].id, writes[n].kind);
    } else {
      TwiceAt(before, m, n);
    }
  }

  lemma LoggedPrefix(index: seq<Artifact>, writes: seq<Write>, n: nat)
    requires Logged(index, writes) && n <= |writes|
    ensures Logged(index, writes[..n])
  {
    forall m | 0 <= m < n
      ensures writes[..n][m] == writes[m] && writes[..n][..m] == writes[..m]
    {
    }
  }

  lemma LoggedLast(index: seq<Artifact>, writes: seq<Write>)
    requires Logged(index, writes) && writes != []
    ensures var n, w := |writes| - 1, writes[|writes| - 1];
            && Known(index, w.id)
            && w.before == LastAfter(writes[..n], w.id, w.kind, FlagAt(index, w.id, w.kind))
            && Newer(w.before.revision, w.after.revision)
  {
  }

  /** A flag that is written gets a newer revision; one that is not is left as it was. */
  lemma {:induction false} WritesAreNewer(index: seq<Artifact>, writes: seq<Write>, id: string, kind: FlagKind)
    requires Logged(index, writes) && Known(index, id)
    ensures var f, g := FlagAt(index, id, kind), LastAfter(writes, id, kind, FlagAt(index, id, kind));
            if TouchedIn(writes, id, kind) then Newer(f.revision, g.revision) else f == g
  {
    if writes == [] {
    } else {
      var n := |writes| - 1;
      LoggedPrefix(index, writes, n);
      WritesAreNewer(index, writes[..n], id, kind);
      if Touches(writes[n], id, kind) {
        LoggedLast(index, writes);
      }
    }
  }

  // ---------------------------------------------------------------- taking a batch back

  /** What replaying puts back: the flag itself unless it was written twice, and then a newer revision. */
  lemma {:induction false} PutsBack(index: seq<Artifact>, writes: seq<Write>, id: string, kind: FlagKind)
    requires Logged(index, writes) && Known(index, id)
    ensures var f, g := FlagAt(index, id, kind), LastBefore(writes, id, kind, FlagAt(index, id, kind));
            if TouchedTwice(writes, id, kind) then Newer(f.revision, g.revision) else g == f
  {
    if writes == [] {
    } else {
      var n := |writes| - 1;
      LoggedPrefix(index, writes, n);
      WritesAreNewer(index, writes[..n], id, kind);
      PutsBack(index, writes[..n], id, kind);
      if TouchedTwice(writes[..n], id, kind) {
        TwiceIsOnce(writes[..n], id, kind);
      }
      if Touches(writes[n], id, kind) {
        LoggedLast(index, writes);
      }
    }
  }

  lemma {:induction false} TwiceIsOnce(writes: seq<Write>, id: string, kind: FlagKind)
    requires TouchedTwice(writes, id, kind)
    ensures TouchedIn(writes, id, kind)
  {
    if !Touches(writes[|writes| - 1], id, kind) {
      TwiceIsOnce(writes[..|writes| - 1], id, kind);
    }
  }

  /** A failed batch leaves the index exactly as it was if and only if no flag was written twice in it. */
  lemma RollbackExactlyWhenSeparate(index: seq<Artifact>, writes: seq<Write>)
    requires Logged(index, writes)
    ensures Replayed(Written(index, writes), writes) == index <==> Separate(writes)
  {
    var back := Replayed(Written(index, writes), writes);
    hide Replayed, Written, Logged, FlagAt;
    if Separate(writes) {
      BackShape(index, writes);
      forall id, kind | Known(index, id) && Known(back, id)
        ensures FlagAt(index, id, kind) == FlagAt(back, id, kind)
      {
        BackFlag(index, writes, id, kind);
        NotTwice(writes, id, kind);
      }
      FlagsDetermine(index, back);
    } else {
      var m, n :| 0 <= m < n < |writes| && writes[m].id == writes[n].id && writes[m].kind == writes[n].kind;
      TwiceAt(writes, m, n);
      var id, kind := writes[n].id, writes[n].kind;
      TwiceIsKnown(index, writes, id, kind);
      BackFlag(index, writes, id, kind);
      assert FlagAt(back, id, kind) != FlagAt(index, id, kind);
    }
  }

  lemma BackShape(index: seq<Artifact>, writes: seq<Write>)
    ensures SameButFlags(index, Replayed(Written(index, writes), writes))
  {
    WrittenFlags(index, writes);
    ReplayedFlags(Written(index, writes), writes);
  }

  /** One flag after a failed batch. */
  lemma BackFlag(index: seq<Artifact>, writes: seq<Write>, id: string, kind: FlagKind)
    requires Logged(index, writes) && Known(index, id)
    ensures var back := Replayed(Written(index, writes), writes);
            && Known(back, id)
            && var f, g := FlagAt(index, id, kind), FlagAt(back, id, kind);
            if TouchedTwice(writes, id, kind) then Newer(f.revision, g.revision) else g == f
  {
    var written := Written(index, writes);
    hide Replayed, Written;
    WrittenFlags(index, writes);
    ReplayedFlags(written, writes);
    LastBeforeOf(writes, id, kind, FlagAt(index, id, kind), FlagAt(written, id, kind));
    WritesAreNewer(index, writes, id, kind);
    PutsBack(index, writes, id, kind);
  }

  lemma TwiceIsKnown(index: seq<Artifact>, writes: seq<Write>, id: string, kind: FlagKind)
    requires Logged(index, writes)
    ensures TouchedTwice(writes, id, kind) ==> Known(index, id)
  {
    if TouchedTwice(writes, id, kind) {
      TwiceIsOnce(writes, id, kind);
      TouchedSomewhere(writes, id, kind);
    }
  }

  lemma {:induction false} LastBeforeOf(writes: seq<Write>, id: string, kind: FlagKind, f: Flag, g: Flag)
    ensures TouchedIn(writes, id, kind) ==> LastBefore(writes, id, kind, f) == LastBefore(writes, id, kind, g)
    ensures !TouchedIn(writes, id, kind) ==> LastBefore(writes, id, kind, f) == f && LastBefore(writes, id, kind, g) == g
  {
    if writes == [] {
    } else {
      var n := |writes| - 1;
      LastBeforeOf(writes[..n], id, kind, f, g);
    }
  }

  // ---------------------------------------------------------------- the operations as writes

  predicate AllKnown(index: seq<Artifact>, ids: seq<string>) {
    forall id | id in ids :: Known(index, id)
  }

  /** setArtifactsPinned and setArtifactsArchived: one write per artifact whose flag is not as wanted. `clock` is the
      reading when an artifact is stamped; nothing is assumed of it. */
  function SetWrites(index: seq<Artifact>, kind: FlagKind, ids: seq<string>, on: bool, at: int, clock: string -> int): seq<Write>
    requires AllKnown(index, ids)
  {
    if ids == [] then []
    else
      var n := |ids| - 1;
      var before := SetWrites(index, kind, ids[..n], on, at, clock);
      var flag := FlagAt(index, ids[n], kind);
      if ids[n] in ids[..n] || flag.at.Some? == on then before
      else before + [Write(ids[n], kind, flag, Flag(if on then Some(at) else None, Some(NextRevision(flag.revision, clock(ids[n])))))]
  }

  /** The token still fits: nothing changed the flag since. */
  predicate Applies(index: seq<Artifact>, c: UndoChange) {
    && Known(index, c.id)
    && var flag := FlagAt(index, c.id, c.kind);
    flag.revision == Some(c.expectedRevision) && flag.at.Some? == c.expectedState
  }

  /** undoArtifactStateChanges: each token is tested against what the ones before it left. */
  function UndoWrites(index: seq<Artifact>, changes: seq<UndoChange>, clock: int -> int): seq<Write> {
    if changes == [] then []
    else
      var n := |changes| - 1;
      var before := UndoWrites(index, changes[..n], clock);
      var current, c := Written(index, before), changes[n];
      if !Applies(current, c) then before
      else
        var flag := FlagAt(current, c.id, c.kind);
        before + [Write(c.id, c.kind, flag, Flag(c.restoreAt, Some(NextRevision(flag.revision, clock(n)))))]
  }

  datatype Call =
    | SetCall(kind: FlagKind, ids: seq<string>, on: bool, at: int, stamp: string -> int, persists: bool)
    | UndoCall(changes: seq<UndoChange>, clock: int -> int, persists: bool)

  function CallWrites(index: seq<Artifact>, call: Call): seq<Write> {
    match call
    case SetCall(kind, ids, on, at, stamp, _) => if AllKnown(index, ids) then SetWrites(index, kind, ids, on, at, stamp) else []
    case UndoCall(changes, clock, _) => UndoWrites(index, changes, clock)
  }

  /** The index after a call: written, or written and taken back when persisting fails. */
  function Called(index: seq<Artifact>, call: Call): seq<Artifact> {
    var writes := CallWrites(index, call);
    if call.persists then Written(index, writes) else Replayed(Written(index, writes), writes)
  }

  function History(index: seq<Artifact>, calls: seq<Call>): seq<Artifact> {
    if calls == [] then index else Called(History(index, calls[..|calls| - 1]), calls[|calls| - 1])
  }

  lemma SeparateNext(before: seq<Write>, w: Write)
    requires Separate(before) && forall x | x in before :: x.id != w.id
    ensures Separate(before + [w])
  {
    assert forall i | 0 <= i < |before| :: before[i] in before;
  }

  lemma {:induction false} SetTouches(index: seq<Artifact>, kind: FlagKind, ids: seq<string>, on: bool, at: int, clock: string -> int)
    requires AllKnown(index, ids)
    ensures var writes := SetWrites(index, kind, ids, on, at, clock);
            Separate(writes) && forall w | w in writes :: w.id in ids
  {
    if ids == [] {
    } else {
      var n := |ids| - 1;
      assert ids == ids[..n] + [ids[n]];
      SetTouches(index, kind, ids[..n], on, at, clock);
      var before := SetWrites(index, kind, ids[..n], on, at, clock);
      var writes := SetWrites(index, kind, ids, on, at, clock);
      if writes != before {
        hide SetWrites, Separate, FlagAt;
        SeparateNext(before, writes[|before|]);
      }
    }
  }

  lemma {:induction false} SetIsLogged(index: seq<Artifact>, kind: FlagKind, ids: seq<string>, on: bool, at: int, clock: string -> int)
    requires AllKnown(index, ids)
    ensures Logged(index, SetWrites(index, kind, ids, on, at, clock))
  {
    if ids == [] {
    } else {
      var n := |ids| - 1;
      assert ids == ids[..n] + [ids[n]];
      SetIsLogged(index, kind, ids[..n], on, at, clock);
      SetTouches(index, kind, ids[..n], on, at, clock);
      var before := SetWrites(index, kind, ids[..n], on, at, clock);
      var flag := FlagAt(index, ids[n], kind);
      if !(ids[n] in ids[..n] || flag.at.Some? == on) {
        var w := Write(ids[n], kind, flag, Flag(if on then Some(at) else None, Some(NextRevision(flag.revision, clock(ids[n])))));
        UntouchedIsLast(before, w.id, kind, w.before);
        hide Logged;
        AppendLogged(index, before, w, clock(ids[n]));
      }
    }
  }

  lemma {:induction false} UntouchedIsLast(writes: seq<Write>, id: string, kind: FlagKind, f: Flag)
    requires forall w | w in writes :: w.id != id
    ensures LastAfter(writes, id, kind, f) == f
  {
    if writes == [] {
    } else {
      assert writes[|writes| - 1] in writes;
      UntouchedIsLast(writes[..|writes| - 1], id, kind, f);
    }
  }

  lemma AppendLogged(index: seq<Artifact>, writes: seq<Write>, w: Write, now: int)
    requires Logged(index, writes) && Known(index, w.id)
    requires w.before == LastAfter(writes, w.id, w.kind, FlagAt(index, w.id, w.kind))
    requires w.after.revision == Some(NextRevision(w.before.revision, now))
    ensures Logged(index, writes + [w])
  {
    var all := writes + [w];
    forall n | 0 <= n < |all|
      ensures Known(index, all[n].id)
      ensures all[n].before == LastAfter(all[..n], all[n].id, all[n].kind, FlagAt(index, all[n].id, all[n].kind))
      ensures exists m :: all[n].after.revision == Some(NextRevision(all[n].before.revision, m))
    {
      if n < |writes| {
        assert all[n] == writes[n] && all[..n] == writes[..n];
      } else {
        assert all[..n] == writes;
      }
    }
  }

  lemma {:induction false} UndoIsLogged(index: seq<Artifact>, changes: seq<UndoChange>, clock: int -> int)
    ensures Logged(index, UndoWrites(index, changes, clock))
  {
    if changes == [] {
    } else {
      var n := |changes| - 1;
      UndoIsLogged(index, changes[..n], clock);
      var before := UndoWrites(index, changes[..n], clock);
      var writes := UndoWrites(index, changes, clock);
      WrittenFlags(index, before);
      if writes != before {
        AppendLogged(index, before, writes[|before|], clock(n));
        assert writes == before + [writes[|before|]];
      }
    }
  }

  lemma CallIsLogged(index: seq<Artifact>, call: Call)
    ensures Logged(index, CallWrites(index, call))
    ensures call.SetCall? ==> Separate(CallWrites(index, call))
  {
    match call
    case SetCall(kind, ids, on, at, stamp, _) =>
      if AllKnown(index, ids) {
        SetIsLogged(index, kind, ids, on, at, stamp);
        SetTouches(index, kind, ids, on, at, stamp);
      }
    case UndoCall(changes, clock, _) => UndoIsLogged(index, changes, clock);
  }

  // ---------------------------------------------------------------- every history

  /** A failed pin or archive leaves the index exactly as it was; a failed undo does if and only if it applied
      no two tokens to one flag. */
  lemma FailedCallRestores(index: seq<Artifact>, call: Call)
    requires !call.persists
    ensures Called(index, call) == index <==> Separate(CallWrites(index, call))
    ensures call.SetCall? ==> Called(index, call) == index
  {
    CallIsLogged(index, call);
    RollbackExactlyWhenSeparate(index, CallWrites(index, call));
  }

  /** As it was, or changed with a newer revision. */
  predicate SameOrNewer(f: Flag, g: Flag) {
    f == g || Newer(f.revision, g.revision)
  }

  /** Whatever the clock says, no call changes a flag without giving it a newer revision. */
  lemma CallIsNewer(index: seq<Artifact>, call: Call, id: string, kind: FlagKind)
    requires Known(index, id)
    ensures Known(Called(index, call), id)
    ensures SameOrNewer(FlagAt(index, id, kind), FlagAt(Called(index, call), id, kind))
  {
    var writes := CallWrites(index, call);
    CallIsLogged(index, call);
    hide CallWrites, Written, Replayed, Logged;
    WrittenFlags(index, writes);
    WritesAreNewer(index, writes, id, kind);
    BackFlag(index, writes, id, kind);
  }

  lemma {:induction false} HistoryIsNewer(index: seq<Artifact>, calls: seq<Call>, id: string, kind: FlagKind)
    requires Known(index, id)
    ensures Known(History(index, calls), id)
    ensures SameOrNewer(FlagAt(index, id, kind), FlagAt(History(index, calls), id, kind))
  {
    if |calls| == 0 {
    } else {
      var n := |calls| - 1;
      HistoryIsNewer(index, calls[..n], id, kind);
      CallIsNewer(History(index, calls[..n]), calls[n], id, kind);
    }
  }

  /** Once the flag has changed, whether by this token or otherwise, the token never applies again. */
  lemma TokenSpent(index: seq<Artifact>, call: Call, calls: seq<Call>, c: UndoChange)
    requires Applies(index, c) && Known(Called(index, call), c.id)
    requires FlagAt(Called(index, call), c.id, c.kind) != FlagAt(index, c.id, c.kind)
    ensures !Applies(History(Called(index, call), calls), c)
  {
    CallIsNewer(index, call, c.id, c.kind);
    HistoryIsNewer(Called(index, call), calls, c.id, c.kind);
  }

  lemma {:induction false} UndoPrefixNewer(index: seq<Artifact>, changes: seq<UndoChange>, clock: int -> int, n: nat,
                                           id: string, kind: FlagKind)
    requires n <= |changes| && Known(index, id)
    ensures var early, late := Written(index, UndoWrites(index, changes[..n], clock)), Written(index, UndoWrites(index, changes, clock));
            Known(early, id) && Known(late, id) && SameOrNewer(FlagAt(early, id, kind), FlagAt(late, id, kind))
    decreases |changes|
  {
    hide Written, UndoWrites, Applies, FlagAt, Known;
    if n == |changes| {
      assert changes[..n] == changes;
      WrittenFlags(index, UndoWrites(index, changes, clock));
    } else {
      var m := |changes| - 1;
      UndoPrefixNewer(index, changes[..m], clock, n, id, kind);
      assert changes[..m][..n] == changes[..n];
      UndoOneNewer(index, changes, clock, id, kind);
    }
  }

  /** The last token of a batch, if it applies, gives its flag the next revision and touches no other. */
  lemma UndoOneNewer(index: seq<Artifact>, changes: seq<UndoChange>, clock: int -> int, id: string, kind: FlagKind)
    requires changes != [] && Known(index, id)
    ensures var m := |changes| - 1;
            var early, late := Written(index, UndoWrites(index, changes[..m], clock)), Written(index, UndoWrites(index, changes, clock));
            && Known(early, id) && Known(late, id)
            && if Applies(early, changes[m]) && changes[m].id == id && changes[m].kind == kind
               then Newer(FlagAt(early, id, kind).revision, FlagAt(late, id, kind).revision)
                    && FlagAt(late, id, kind).at == changes[m].restoreAt
               else FlagAt(late, id, kind) == FlagAt(early, id, kind)
  {
    var m := |changes| - 1;
    var before, writes := UndoWrites(index, changes[..m], clock), UndoWrites(index, changes, clock);
    WrittenFlags(index, before);
    if Applies(Written(index, before), changes[m]) {
      assert writes[..|writes| - 1] == before;
      var w := writes[|writes| - 1];
      PutFlagEffect(Written(index, before), w.id, w.kind, w.after);
    }
  }

  /** A token succeeds at most once: after an undo that applied it and was persisted, no later history lets it
      apply again, nor does the rest of its own batch. */
  lemma UndoSpendsToken(index: seq<Artifact>, changes: seq<UndoChange>, clock: int -> int, n: nat, calls: seq<Call>)
    requires n < |changes| && Applies(Written(index, UndoWrites(index, changes[..n], clock)), changes[n])
    ensures !Applies(History(Called(index, UndoCall(changes, clock, true)), calls), changes[n])
  {
    var c := changes[n];
    hide Written, UndoWrites, History;
    WrittenFlags(index, UndoWrites(index, changes[..n], clock));
    assert changes[..n + 1][..n] == changes[..n];
    UndoOneNewer(index, changes[..n + 1], clock, c.id, c.kind);
    UndoPrefixNewer(index, changes, clock, n + 1, c.id, c.kind);
    HistoryIsNewer(Called(index, UndoCall(changes, clock, true)), calls, c.id, c.kind);
  }

  /** Setting a flag and undoing it, with anything in between that leaves that flag alone, brings back the
      original time. */
  lemma ChangeThenUndo(index: seq<Artifact>, change: Call, calls: seq<Call>, id: string, clock: int -> int)
    requires change.SetCall? && change.persists && AllKnown(index, change.ids) && id in change.ids
    requires FlagAt(index, id, change.kind).at.Some? != change.on
    requires Known(Called(index, change), id) && Known(History(Called(index, change), calls), id)
    requires FlagAt(History(Called(index, change), calls), id, change.kind) == FlagAt(Called(index, change), id, change.kind)
    ensures var flag := FlagAt(Called(index, change), id, change.kind);
            && flag.at.Some? == change.on && flag.revision.Some?
            && var token := UndoChange(id, change.kind, flag.revision.value, change.on, FlagAt(index, id, change.kind).at);
            var undone := Called(History(Called(index, change), calls), UndoCall([token], clock, true));
            Known(undone, id) && FlagAt(undone, id, change.kind).at == FlagAt(index, id, change.kind).at
  {
    SetSets(index, change, id);
    var later := History(Called(index, change), calls);
    var flag := FlagAt(Called(index, change), id, change.kind);
    var token := UndoChange(id, change.kind, flag.revision.value, change.on, FlagAt(index, id, change.kind).at);
    assert [token][..0] == [];
    assert UndoWrites(later, [], clock) == [];
    UndoOneNewer(later, [token], clock, id, change.kind);
  }

  lemma SetSets(index: seq<Artifact>, call: Call, id: string)
    requires call.SetCall? && call.persists && AllKnown(index, call.ids) && id in call.ids
    requires FlagAt(index, id, call.kind).at.Some? != call.on
    ensures Known(Called(index, call), id)
    ensures var flag := FlagAt(Called(index, call), id, call.kind); flag.at.Some? == call.on && flag.revision.Some?
  {
    WrittenFlags(index, CallWrites(index, call));
    SetLast(index, call.kind, call.ids, call.on, call.at, call.stamp, id);
  }

  lemma {:induction false} SetLast(index: seq<Artifact>, kind: FlagKind, ids: seq<string>, on: bool, at: int, clock: string -> int, id: string)
    requires AllKnown(index, ids) && id in ids && FlagAt(index, id, kind).at.Some? != on
    ensures var f := LastAfter(SetWrites(index, kind, ids, on, at, clock), id, kind, FlagAt(index, id, kind));
            f.at.Some? == on && f.revision.Some?
  {
    var n := |ids| - 1;
    assert ids == ids[..n] + [ids[n]];
    var before := SetWrites(index, kind, ids[..n], on, at, clock);
    var writes := SetWrites(index, kind, ids, on, at, clock);
    if id in ids[..n] {
      SetLast(index, kind, ids[..n], on, at, clock, id);
      assert writes == before || (writes[..|writes| - 1] == before && writes[|writes| - 1].id != id);
    } else {
      assert writes[..|writes| - 1] == before;
    }
  }

  /** A batch that undoes a change and then undoes the undo, whose revision can be foreseen, does not come back
      when it fails. */
  lemma DoubleUndoStays(index: seq<Artifact>, c: UndoChange, again: UndoChange, clock: int -> int)
    requires Applies(index, c)
    requires again.id == c.id && again.kind == c.kind && again.expectedState == c.restoreAt.Some?
    requires again.expectedRevision == NextRevision(Some(c.expectedRevision), clock(0))
    ensures Called(index, UndoCall([c, again], clock, false)) != index
  {
    assert [c, again][..1] == [c] && [c][..0] == [];
    var first := UndoWrites(index, [c], clock);
    assert UndoWrites(index, [], clock) == [];
    UndoOneNewer(index, [c], clock, c.id, c.kind);
    assert first == [first[0]] && first[..0] == [];
    PutFlagEffect(index, c.id, c.kind, first[0].after);
    var writes := UndoWrites(index, [c, again], clock);
    assert |writes| == 2 && writes[0] == first[0];
    FailedCallRestores(index, UndoCall([c, again], clock, false));
  }
}
