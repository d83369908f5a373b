/** When a failed undo leaves the index as it was, told from the tokens handed in
    (packages/dkrypt/src/artifacts.ts:292-323). */
module ArtifactUndoTokens {
  import opened Wrappers
  import opened Keyed
  import opened Artifacts
  import opened ArtifactUndo

  predicate SameFlag(c: UndoChange, id: string, kind: FlagKind) {
    c.id == id && c.kind == kind
  }

  /** The first token for a flag that fits the index as it is before the call, or the number of tokens. */
  function FirstFit(index: seq<Artifact>, changes: seq<UndoChange>, id: string, kind: FlagKind): (m: nat)
    ensures m <= |changes|
    ensures m < |changes| ==> SameFlag(changes[m], id, kind) && Applies(index, changes[m])
  {
    if changes == [] then 0
    else
      var n := |changes| - 1;
      var earlier := FirstFit(index, changes[..n], id, kind);
      if earlier < n then earlier
      else if SameFlag(changes[n], id, kind) && Applies(index, changes[n]) then n
      else n + 1
  }

  /** Token n fits what an earlier token can leave of its flag: its state, under some later revision. */
  predicate FitsAgain(index: seq<Artifact>, changes: seq<UndoChange>, n: nat)
    requires n < |changes|
  {
    var c := changes[n];
    var m := FirstFit(index, changes[..n], c.id, c.kind);
    && m < n
    && c.expectedState == changes[m].restoreAt.Some?
    && c.expectedRevision > changes[m].expectedRevision
  }

  /** No token fits what an earlier one can leave. */
  predicate NoneFitsAgain(index: seq<Artifact>, changes: seq<UndoChange>) {
    forall n | 0 <= n < |changes| :: !FitsAgain(index, changes, n)
  }

  /** What the tokens leave of one flag: the first that fits is applied to it. */
  function FlagAfter(index: seq<Artifact>, changes: seq<UndoChange>, clock: int -> int, id: string, kind: FlagKind): Flag
    requires Known(index, id)
  {
    var f, m := FlagAt(index, id, kind), FirstFit(index, changes, id, kind);
    if m == |changes| then f else Flag(changes[m].restoreAt, Some(NextRevision(f.revision, clock(m))))
  }

  /** The log after one more token. */
  lemma OneMoreToken(index: seq<Artifact>, changes: seq<UndoChange>, clock: int -> int)
    requires changes != []
    ensures var n, c := |changes| - 1, changes[|changes| - 1];
            var before, writes := UndoWrites(index, changes[..n], clock), UndoWrites(index, changes, clock);
            var current := Written(index, before);
            if Applies(current, c) then
              && |writes| == |before| + 1 && writes[..|before|] == before
              && writes[|before|].id == c.id && writes[|before|].kind == c.kind
              && writes[|before|].after == Flag(c.restoreAt, Some(NextRevision(FlagAt(current, c.id, c.kind).revision, clock(n))))
              && Written(index, writes) == PutFlag(current, c.id, c.kind, writes[|before|].after)
            else writes == before
  {
  }

  lemma TouchedNext(before: seq<Write>, writes: seq<Write>, id: string, kind: FlagKind)
    requires |writes| == |before| + 1 && writes[..|before|] == before
    ensures TouchedIn(writes, id, kind) <==> Touches(writes[|before|], id, kind) || TouchedIn(before, id, kind)
    ensures Separate(writes) ==> Separate(before)
    ensures Separate(writes) && Touches(writes[|before|], id, kind) ==> !TouchedIn(before, id, kind)
    ensures Separate(before) && !Separate(writes) ==> TouchedIn(before, writes[|before|].id, writes[|before|].kind)
  {
    TouchedSomewhere(before, id, kind);
    TouchedSomewhere(before, writes[|before|].id, writes[|before|].kind);
    assert forall m | 0 <= m < |before| :: writes[m] == before[m];
  }

  lemma FlagAfterNext(index: seq<Artifact>, changes: seq<UndoChange>, clock: int -> int, id: string, kind: FlagKind)
    requires changes != [] && Known(index, id)
    ensures var n, c := |changes| - 1, changes[|changes| - 1];
            var earlier, f := FirstFit(index, changes[..n], id, kind), FlagAfter(index, changes[..n], clock, id, kind);
            && (earlier == n ==> f == FlagAt(index, id, kind))
            && if earlier == n && SameFlag(c, id, kind) && Applies(index, c) then
                 && FirstFit(index, changes, id, kind) == n
                 && FlagAfter(index, changes, clock, id, kind) == Flag(c.restoreAt, Some(NextRevision(f.revision, clock(n))))
               else
                 && (FirstFit(index, changes, id, kind) < n + 1 <==> earlier < n)
                 && FlagAfter(index, changes, clock, id, kind) == f
  {
  }

  /** As long as no flag is written twice, each flag is as its first fitting token leaves it. */
  lemma {:induction false} FlagsSoFar(index: seq<Artifact>, changes: seq<UndoChange>, clock: int -> int, id: string, kind: FlagKind)
    requires Known(index, id) && Separate(UndoWrites(index, changes, clock))
    ensures var writes := UndoWrites(index, changes, clock);
            && Known(Written(index, writes), id)
            && FlagAt(Written(index, writes), id, kind) == FlagAfter(index, changes, clock, id, kind)
            && (TouchedIn(writes, id, kind) <==> FirstFit(index, changes, id, kind) < |changes|)
    decreases |changes|
  {
    if changes == [] {
    } else {
      var n, c := |changes| - 1, changes[|changes| - 1];
      var before, writes := UndoWrites(index, changes[..n], clock), UndoWrites(index, changes, clock);
      OneMoreToken(index, changes, clock);
      FlagAfterNext(index, changes, clock, id, kind);
      hide UndoWrites, Written, Separate, TouchedIn, PutFlag, FirstFit, FlagAfter, FlagAt, Known;
      if writes != before {
        TouchedNext(before, writes, id, kind);
        PutFlagEffect(Written(index, before), c.id, c.kind, writes[|before|].after);
      }
      FlagsSoFar(index, changes[..n], clock, id, kind);
    }
  }

  lemma FitsAgainPrefix(index: seq<Artifact>, changes: seq<UndoChange>)
    requires changes != [] && NoneFitsAgain(index, changes)
    ensures NoneFitsAgain(index, changes[..|changes| - 1])
  {
    var n := |changes| - 1;
    forall k | 0 <= k < n
      ensures !FitsAgain(index, changes[..n], k)
    {
      assert changes[..n][..k] == changes[..k] && !FitsAgain(index, changes, k);
    }
  }

  /** A token that fits what its flag's first one left fits again. */
  lemma AppliedTwiceFits(index: seq<Artifact>, changes: seq<UndoChange>, clock: int -> int)
    requires changes != []
    requires var n, c := |changes| - 1, changes[|changes| - 1];
             var before := UndoWrites(index, changes[..n], clock);
             Separate(before) && Applies(Written(index, before), c) && TouchedIn(before, c.id, c.kind)
    ensures FitsAgain(index, changes, |changes| - 1)
  {
    var n, c := |changes| - 1, changes[|changes| - 1];
    WrittenFlags(index, UndoWrites(index, changes[..n], clock));
    FlagsSoFar(index, changes[..n], clock, c.id, c.kind);
    hide UndoWrites, Written, Separate, TouchedIn, FirstFit;
  }

  lemma {:induction false} NoneFitsSeparate(index: seq<Artifact>, changes: seq<UndoChange>, clock: int -> int)
    requires NoneFitsAgain(index, changes)
    ensures Separate(UndoWrites(index, changes, clock))
    decreases |changes|
  {
    if changes == [] {
    } else {
      var n, c := |changes| - 1, changes[|changes| - 1];
      var before, writes := UndoWrites(index, changes[..n], clock), UndoWrites(index, changes, clock);
      OneMoreToken(index, changes, clock);
      FitsAgainPrefix(index, changes);
      NoneFitsSeparate(index, changes[..n], clock);
      hide UndoWrites, Written, Separate, TouchedIn, FitsAgain, Applies;
      if writes != before {
        TouchedNext(before, writes, c.id, c.kind);
        if TouchedIn(before, c.id, c.kind) {
          AppliedTwiceFits(index, changes, clock);
        }
      }
    }
  }

  lemma {:induction false} SeparateSoFar(index: seq<Artifact>, changes: seq<UndoChange>, clock: int -> int, n: nat)
    requires n <= |changes| && Separate(UndoWrites(index, changes, clock))
    ensures Separate(UndoWrites(index, changes[..n], clock))
    decreases |changes|
  {
    if n == |changes| {
      assert changes[..n] == changes;
    } else {
      var m := |changes| - 1;
      OneMoreToken(index, changes, clock);
      hide UndoWrites, Written, Separate;
      if UndoWrites(index, changes, clock) != UndoWrites(index, changes[..m], clock) {
        TouchedNext(UndoWrites(index, changes[..m], clock), UndoWrites(index, changes, clock), "", Pin);
      }
      SeparateSoFar(index, changes[..m], clock, n);
      assert changes[..m][..n] == changes[..n];
    }
  }

  /** A token that applies to a flag already written writes it twice. */
  lemma SecondWrite(index: seq<Artifact>, changes: seq<UndoChange>, clock: int -> int)
    requires changes != []
    requires var n, c := |changes| - 1, changes[|changes| - 1];
             var before := UndoWrites(index, changes[..n], clock);
             Applies(Written(index, before), c) && TouchedIn(before, c.id, c.kind)
    ensures !Separate(UndoWrites(index, changes, clock))
  {
    var n, c := |changes| - 1, changes[|changes| - 1];
    OneMoreToken(index, changes, clock);
    hide UndoWrites, Written, Separate, TouchedIn, Applies;
    TouchedNext(UndoWrites(index, changes[..n], clock), UndoWrites(index, changes, clock), c.id, c.kind);
  }

  /** A token applies to what the first one left when the clock showed the revision it expects. */
  lemma FitsNow(index: seq<Artifact>, changes: seq<UndoChange>, clock: int -> int, c: UndoChange)
    requires Separate(UndoWrites(index, changes, clock))
    requires var m := FirstFit(index, changes, c.id, c.kind);
             && m < |changes| && c.expectedState == changes[m].restoreAt.Some?
             && c.expectedRevision > changes[m].expectedRevision && clock(m) == c.expectedRevision
    ensures var writes := UndoWrites(index, changes, clock);
            Applies(Written(index, writes), c) && TouchedIn(writes, c.id, c.kind)
  {
    FlagsSoFar(index, changes, clock, c.id, c.kind);
    hide UndoWrites, Written, Separate, TouchedIn, FirstFit;
  }

  lemma SecondWriteAt(index: seq<Artifact>, changes: seq<UndoChange>, n: nat, clock: int -> int)
    requires n < |changes|
    requires var before := UndoWrites(index, changes[..n], clock);
             Applies(Written(index, before), changes[n]) && TouchedIn(before, changes[n].id, changes[n].kind)
    ensures !Separate(UndoWrites(index, changes, clock))
  {
    hide UndoWrites, Written, Separate, TouchedIn, FirstFit, Applies;
    LastOf(changes, n);
    SecondWrite(index, changes[..n + 1], clock);
    if Separate(UndoWrites(index, changes, clock)) {
      SeparateSoFar(index, changes, clock, n + 1);
    }
  }

  lemma LastOf(changes: seq<UndoChange>, n: nat)
    requires n < |changes|
    ensures var upTo := changes[..n + 1]; |upTo| == n + 1 && upTo[..|upTo| - 1] == changes[..n] && upTo[|upTo| - 1] == changes[n]
  {
  }

  /** Such a token does apply when the clock shows the revision it expects as the earlier one is undone. */
  lemma FittingClock(index: seq<Artifact>, changes: seq<UndoChange>, n: nat, clock: int -> int)
    requires n < |changes| && FitsAgain(index, changes, n)
    requires clock(FirstFit(index, changes[..n], changes[n].id, changes[n].kind)) == changes[n].expectedRevision
    ensures !Separate(UndoWrites(index, changes, clock))
  {
    hide UndoWrites, Written, Separate, TouchedIn, FirstFit, Applies;
    if Separate(UndoWrites(index, changes, clock)) {
      SeparateSoFar(index, changes, clock, n);
      FitsNow(index, changes[..n], clock, changes[n]);
      SecondWriteAt(index, changes, n, clock);
    }
  }

  // ---------------------------------------------------------------- the tokens decide

  /** A failed undo leaves the index as it was, whatever the clock shows, if and only if no token fits what an
      earlier token of the batch can leave of the same flag. */
  lemma FailedUndoRestoresExactly(index: seq<Artifact>, changes: seq<UndoChange>)
    ensures (forall clock :: Called(index, UndoCall(changes, clock, false)) == index) <==> NoneFitsAgain(index, changes)
  {
    hide Called, FitsAgain, Separate, UndoWrites, FirstFit;
    if NoneFitsAgain(index, changes) {
      forall clock
        ensures Called(index, UndoCall(changes, clock, false)) == index
      {
        NoneFitsSeparate(index, changes, clock);
        FailedCallRestores(index, UndoCall(changes, clock, false));
      }
    } else {
      var n :| 0 <= n < |changes| && FitsAgain(index, changes, n);
      var c := changes[n];
      var m := FirstFit(index, changes[..n], c.id, c.kind);
      var clock := x => if x == m then c.expectedRevision else 0;
      FittingClock(index, changes, n, clock);
      FailedCallRestores(index, UndoCall(changes, clock, false));
    }
  }

  /** In particular when no two tokens are for one flag. */
  lemma DistinctTokensRestore(index: seq<Artifact>, changes: seq<UndoChange>, clock: int -> int)
    requires forall m, n | 0 <= m < n < |changes| :: !(changes[m].id == changes[n].id && changes[m].kind == changes[n].kind)
    ensures Called(index, UndoCall(changes, clock, false)) == index
  {
    forall n | 0 <= n < |changes|
      ensures !FitsAgain(index, changes, n)
    {
      var c := changes[n];
      assert forall m | 0 <= m < n :: !SameFlag(changes[..n][m], c.id, c.kind);
    }
    FailedUndoRestoresExactly(index, changes);
  }
}
