/** Restoring again after a restore that threw (packages/dkrypt/src/deploymentDatabase.ts:246-288). */
module DeploymentAttempts {
  import opened Wrappers
  import opened FileSystems
  import opened DeploymentRollback
  import opened DeploymentPreparation

  /** Attempts one after another, the first from the given state and record of states. */
  ghost predicate Attempts(fs: FileSystem, id: string, run: seq<Attempt>, files: State, trace: seq<State>) {
    run != [] ==>
      && run[0].before == files && run[0].earlier == trace && Attempted(fs, id, run[0])
      && Attempts(fs, id, run[1..], run[0].after, run[0].trace)
  }

  function TraceAfter(run: seq<Attempt>, trace: seq<State>): seq<State> {
    if run == [] then trace else TraceAfter(run[1..], run[0].trace)
  }

  function FilesAfter(run: seq<Attempt>, files: State): State {
    if run == [] then files else FilesAfter(run[1..], run[0].after)
  }

  /** Over any number of restore attempts, whatever fails in them, the content live before the first one is whole
      at the live or the recovery path at every moment. */
  lemma AttemptsHoldContent(fs: FileSystem, id: string, run: seq<Attempt>, files: State, trace: seq<State>)
    requires Attempts(fs, id, run, files, trace)
    ensures var live := Live(files, id);
            && HeldThroughout(trace, TraceAfter(run, trace), live, Recovery(id), At(files, live))
            && Held(FilesAfter(run, files), live, Recovery(id), At(files, live))
  {
    AttemptsHold(fs, id, run, files, trace, Live(files, id), At(files, Live(files, id)));
  }

  lemma {:induction false} AttemptsHold(fs: FileSystem, id: string, run: seq<Attempt>, files: State, trace: seq<State>,
                                        live: Path, content: Option<Content>)
    requires Attempts(fs, id, run, files, trace)
    requires Held(files, live, Recovery(id), content) && (Recorded(files, id).Some? ==> Live(files, id) == live)
    ensures HeldThroughout(trace, TraceAfter(run, trace), live, Recovery(id), content)
    ensures Held(FilesAfter(run, files), live, Recovery(id), content)
    decreases |run|
  {
    hide HeldThroughout, Attempted, Restorable;
    if run == [] {
      NothingYet(trace, live, Recovery(id), content);
    } else {
      var t := run[0];
      AttemptHolds(fs, id, t, live, content);
      AttemptsHold(fs, id, run[1..], t.after, t.trace, live, content);
      HeldTwice(trace, t.trace, TraceAfter(run, trace), live, Recovery(id), content);
    }
  }

  lemma AttemptHolds(fs: FileSystem, id: string, t: Attempt, live: Path, content: Option<Content>)
    requires Attempted(fs, id, t)
    requires Held(t.before, live, Recovery(id), content) && (Recorded(t.before, id).Some? ==> Live(t.before, id) == live)
    ensures HeldThroughout(t.earlier, t.trace, live, Recovery(id), content)
    ensures Held(t.after, live, Recovery(id), content) && (Recorded(t.after, id).Some? ==> Live(t.after, id) == live)
  {
  }

  /** After an attempt that threw before its cleanup, from a state it could have succeeded from, the next one can
      succeed exactly when no recovery file was left, or the live database is already the promised one. */
  lemma RetryExactly(fs: FileSystem, id: string, t: Attempt)
    requires Attempted(fs, id, t) && !Done(t.outcome) && Restorable(fs, t.before, id)
    ensures var m := Recorded(t.before, id).value;
            Restorable(fs, t.after, id) <==>
              Recovery(id) !in t.after || (m.databasePresent && Matches(fs, t.after, Database(m.databaseFile), Expected(m)))
  {
  }

  /** A recovery file beside a live database that is not the promised one. */
  predicate Stuck(fs: FileSystem, files: State, id: string) {
    Recovery(id) in files && Live(files, id) in files && !Restorable(fs, files, id)
  }

  /** From a stuck state every attempt is refused, and none changes anything. */
  lemma {:induction false} RefusedForGood(fs: FileSystem, id: string, run: seq<Attempt>, files: State, trace: seq<State>)
    requires Attempts(fs, id, run, files, trace) && Stuck(fs, files, id)
    ensures FilesAfter(run, files) == files && forall t | t in run :: !Done(t.outcome)
    decreases |run|
  {
    hide Restorable;
    if run == [] {
    } else {
      RefusedForGood(fs, id, run[1..], run[0].after, run[0].trace);
      assert run == [run[0]] + run[1..];
    }
  }

  /** An attempt that preserves the live database, fails just after removing it, and repairs it: clearing the
      temporary name, a copy that is torn before it is whole, the rename to the recovery path, the removal, and
      the copy back, torn before it is whole. */
  function PreservedThenRepaired(files: State, trace: seq<State>, id: string, live: Path, torn: Content): Attempt
    requires live in files
  {
    var content, temporary, recovery := files[live], Temporary(Recovery(id)), Recovery(id);
    var cleared := files - {temporary};
    var aside := cleared[recovery := content];
    var states := [cleared, cleared[temporary := torn], cleared[temporary := content], aside, aside - {live},
                   aside[live := torn], aside];
    Attempt(files, trace, trace + states, aside, Threw)
  }

  /** A prepared deployment gets there: the restore could have succeeded, and after one such failure none can. */
  lemma PreparedCanStick(fs: FileSystem, prepared: State, files: State, trace: seq<State>, id: string, name: string,
                         content: Option<Content>, torn: Content)
    requires Prepared(fs, prepared, id, name, content) && AgreeExcept(files, prepared, {Database(name)})
    requires SafeId(id) && SafeFile(name) && Recovery(id) !in prepared
    requires forall c :: fs.verification(c).Some? ==> HexDigest(fs.verification(c).value.checksum)
    requires Database(name) in files && fs.verification(files[Database(name)]).Some?
    requires content.Some? ==> fs.verification(files[Database(name)]) != fs.verification(content.value)
    ensures var t := PreservedThenRepaired(files, trace, id, Database(name), torn);
            Restorable(fs, files, id) && Attempted(fs, id, t) && t.outcome.Threw? && Stuck(fs, t.after, id)
  {
    PreparedIsRestorable(fs, prepared, files, id, name, content);
  }

  /** And the restore itself takes that way when, of all its operations, only the one after the live database was
      moved fails: clearing the temporary name of the copy or, with nothing to copy, the last sync. */
  method StickingRestore(given: FileSystem, prepared: State, files: State, id: string, name: string, content: Option<Content>)
    returns (fs: FileSystem, outcome: Outcome)
    requires Prepared(given, prepared, id, name, content) && AgreeExcept(files, prepared, {Database(name)})
    requires SafeId(id) && SafeFile(name) && Recovery(id) !in prepared
    requires forall c :: given.verification(c).Some? ==> HexDigest(given.verification(c).value.checksum)
    requires Database(name) in files && given.verification(files[Database(name)]).Some?
    requires content.Some? ==> given.verification(files[Database(name)]) != given.verification(content.value)
    ensures fresh(fs) && fs.verification == given.verification && outcome.Threw? && Stuck(fs, fs.files, id)
    ensures fs.files == PreservedThenRepaired(files, [files], id, Database(name), files[Database(name)]).after
  {
    hide HexDigest, SafeId, SafeFile;
    var first := if content.Some? then 12 else 9;
    fs := new FileSystem(files, given.verification, n => n != first);
    PreparedCanStick(fs, prepared, files, fs.trace, id, name, content, files[Database(name)]);
    DeploymentKeepsPrepared(fs, prepared, files, id, name, content);
    hide Restorable, Attempted;
    outcome := RestoreDeploymentRollback(fs, id);
  }
}
