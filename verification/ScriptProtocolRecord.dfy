/** The server's record over whole runs: how targets move, what a restart brings back and what it does
    not, what becomes of deleted runs, and when the wait for answers ends. */
module ScriptProtocolRecord {
  import opened Base
  import opened Json
  import opened ScriptRuns
  import opened RunStore
  import opened Sequences
  import opened ServerController
  import opened MonitorWorker
  import opened ScriptProtocol
  import opened ScriptProtocolTheorems
  import Record = ScriptProtocolServer
  import Files = ScriptProtocolFiles
  import Fleet

  // ----- how a target may move -----

  /** Dispatched may become anything but Pending; NoResponse may still be answered; an answer is final. */
  ghost predicate MovesTo(t: RunTarget, t': RunTarget) {
    && t.hostId == t'.hostId
    && (t == t' || (t.state == Dispatched && t'.state != Pending && t'.state != Dispatched)
        || (t.state == NoResponse && (t'.state == Completed || t'.state == Failed || t'.state == Refused)))
  }

  ghost predicate RunMovesTo(run: ScriptRun, run': ScriptRun) {
    && run.runId == run'.runId && run.scriptBody == run'.scriptBody
    && |run.targets| == |run'.targets|
    && forall i | 0 <= i < |run.targets| :: MovesTo(run.targets[i], run'.targets[i])
  }

  lemma MovesCompose(a: ScriptRun, b: ScriptRun, c: ScriptRun)
    requires RunMovesTo(a, b) && RunMovesTo(b, c)
    ensures RunMovesTo(a, c)
  {
    forall i | 0 <= i < |a.targets|
      ensures MovesTo(a.targets[i], c.targets[i])
    {
      assert MovesTo(a.targets[i], b.targets[i]) && MovesTo(b.targets[i], c.targets[i]);
    }
  }

  lemma UniqueRun(runs: seq<ScriptRun>, a: ScriptRun, b: ScriptRun)
    requires DistinctRuns(runs) && a in runs && b in runs && a.runId == b.runId
    ensures a == b
  {
    var i :| 0 <= i < |runs| && runs[i] == a;
    var j :| 0 <= j < |runs| && runs[j] == b;
    assert i == j;
  }

  /** A run found after a change of run i is run i changed, or was there before. */
  lemma AfterChange(runs: seq<ScriptRun>, i: nat, changed: ScriptRun, run: ScriptRun, run': ScriptRun)
    requires DistinctRuns(runs) && i < |runs| && changed.runId == runs[i].runId
    requires run in runs && run' in runs[i := changed] && run.runId == run'.runId
    ensures run' == run || (run == runs[i] && run' == changed)
  {
    var j :| 0 <= j < |runs| && runs[i := changed][j] == run';
    UniqueRun(runs, run, runs[j]);
  }

  lemma AnswerMoves(run: ScriptRun, result: ScriptResult)
    requires FindTarget(run.targets, result.hostId) < |run.targets|
    requires MayAnswer(run.targets[FindTarget(run.targets, result.hostId)].state)
    ensures RunMovesTo(run, ApplyResult(run, result))
  {
  }

  lemma ResultMoves(sv: Server, result: ScriptResult, failing: set<string>, run: ScriptRun, run': ScriptRun)
    requires DistinctRuns(sv.runs) && run in sv.runs && run' in ResultTaken(sv, result, failing).runs
    requires run.runId == run'.runId
    ensures RunMovesTo(run, run')
  {
    var r := FindRun(sv.runs, result.runId);
    if r < |sv.runs| && run' !in sv.runs {
      var t := FindTarget(sv.runs[r].targets, result.hostId);
      assert t < |sv.runs[r].targets| && MayAnswer(sv.runs[r].targets[t].state);
      AfterChange(sv.runs, r, ApplyResult(sv.runs[r], result), run, run');
      AnswerMoves(sv.runs[r], result);
    } else {
      UniqueRun(sv.runs, run, run');
    }
  }

  lemma DeadlineMoves(sv: Server, runId: string, failing: set<string>, run: ScriptRun, run': ScriptRun)
    requires DistinctRuns(sv.runs) && run in sv.runs && run' in DeadlinePassed(sv, runId, failing).runs
    requires run.runId == run'.runId
    ensures RunMovesTo(run, run')
  {
    var r := FindRun(sv.runs, runId);
    if r < |sv.runs| && run' !in sv.runs {
      AfterChange(sv.runs, r, ApplyDeadline(sv.runs[r]), run, run');
    } else {
      UniqueRun(sv.runs, run, run');
    }
  }

  lemma TruncatedMoves(run: ScriptRun)
    ensures RunMovesTo(run, Truncated(run))
  {
  }

  lemma FilterMoves(keep: ScriptRun -> bool, runs: seq<ScriptRun>, run: ScriptRun, run': ScriptRun)
    requires DistinctRuns(runs) && run in runs && run' in Filter(keep, runs) && run.runId == run'.runId
    ensures run == run'
  {
    FilterKeeps(keep, runs, run');
    UniqueRun(runs, run, run');
  }

  lemma StartMoves(s: System, a: Action, run: ScriptRun, run': ScriptRun)
    requires ServerOk(s) && a.StartRun? && Enabled(s, a)
    requires run in s.server.runs && run' in Do(s, a).server.runs && run.runId == run'.runId
    ensures run == run'
  {
    assert RunOk(run, s.log.issued, s.results);
    assert Do(s, a).server.runs == s.server.runs + [RunFor(a.request, a.fleet)];
    UniqueRun(s.server.runs, run, run');
  }

  ghost predicate Known(sv: Server, runId: string) {
    exists run | run in sv.runs :: run.runId == runId
  }

  lemma ResultAddsNoRun(sv: Server, result: ScriptResult, failing: set<string>, run: ScriptRun)
    requires run in ResultTaken(sv, result, failing).runs
    ensures Known(sv, run.runId)
  {
    var r := FindRun(sv.runs, result.runId);
    if run !in sv.runs {
      assert run.runId == sv.runs[r].runId;
    }
  }

  lemma DeadlineAddsNoRun(sv: Server, id: string, failing: set<string>, run: ScriptRun)
    requires run in DeadlinePassed(sv, id, failing).runs
    ensures Known(sv, run.runId)
  {
    var r := FindRun(sv.runs, id);
    if run !in sv.runs {
      assert run.runId == sv.runs[r].runId;
    }
  }

  lemma NewRunIsIssued(sv: Server, request: Request, fleet: seq<Fleet.FleetEntry>, failing: set<string>, run: ScriptRun)
    requires run in Started(sv, request, fleet, failing).runs
    ensures Known(sv, run.runId) || run.runId == request.runId
  {
    assert run in sv.runs || run == RunFor(request, fleet);
  }

  /** There is a file of that name, and it can be opened. */
  predicate Readable(disk: map<string, Json>, listing: Listing, name: string) {
    name in disk && name !in listing.unreadable
  }

  /** Every run after a step was there before, or is the one just started, or had a file that a restart
      could read. */
  lemma StepAddsNoRun(s: System, a: Action, run: ScriptRun)
    requires Invariant(s) && Enabled(s, a) && run in Do(s, a).server.runs
    ensures
      || Known(s.server, run.runId) || (a.StartRun? && run.runId == a.request.runId)
      || (a.RestartServer? && Readable(s.server.disk, a.listing, run.runId))
  {
    match a
    case StartRun(request, fleet, failing) => NewRunIsIssued(s.server, request, fleet, failing, run);
    case DeliverResult(result, failing) => ResultAddsNoRun(s.server, result, failing, run);
    case DeadlineFires(id, failing) => DeadlineAddsNoRun(s.server, id, failing, run);
    case DeleteRun(id, _) => FilterKeeps(OtherThan(id), s.server.runs, run);
    case DeleteRunsBefore(cutoff, _) => FilterKeeps(IssuedSince(cutoff), s.server.runs, run);
    case RestartServer(listing, reloaded) => Files.ReloadedIsItsFile(s, listing, reloaded, run);
    case _ =>
  }

  lemma ChangedRunOnly(runs: seq<ScriptRun>, r: nat, changed: ScriptRun, run: ScriptRun)
    requires r < |runs| && run in runs && run.runId != runs[r].runId
    ensures run in runs[r := changed]
  {
    var i :| 0 <= i < |runs| && runs[i] == run;
    assert runs[r := changed][i] == run;
  }

  /** Within one server process a step leaves every run as it is, but the one that a result answers, that a
      deadline expires, or that is deleted. */
  lemma OtherRunsStay(s: System, a: Action, run: ScriptRun)
    requires Enabled(s, a) && run in s.server.runs && !a.RestartServer?
    requires a.DeliverResult? ==> a.result.runId != run.runId
    requires a.DeadlineFires? ==> a.runId != run.runId
    ensures run in Do(s, a).server.runs
      <==> !(a.DeleteRun? && a.runId == run.runId) && !(a.DeleteRunsBefore? && run.issuedAt < a.cutoff)
  {
    match a
    case DeliverResult(result, _) =>
      var r := FindRun(s.server.runs, result.runId);
      if r < |s.server.runs| {
        ChangedRunOnly(s.server.runs, r, ApplyResult(s.server.runs[r], result), run);
      }
    case DeadlineFires(id, _) =>
      var r := FindRun(s.server.runs, id);
      if r < |s.server.runs| {
        ChangedRunOnly(s.server.runs, r, ApplyDeadline(s.server.runs[r]), run);
      }
    case DeleteRun(id, _) => FilterKeeps(OtherThan(id), s.server.runs, run);
    case DeleteRunsBefore(cutoff, _) => FilterKeeps(IssuedSince(cutoff), s.server.runs, run);
    case _ =>
  }

  // ----- what a restart brings back, whatever has failed before -----

  ghost predicate AllWritten(run: ScriptRun, unwritten: set<(string, HostId)>) {
    forall i | 0 <= i < |run.targets| :: (run.runId, run.targets[i].hostId) !in unwritten
  }

  /** A restart knows exactly the runs that have a file it can open. */
  lemma RestartKnowsFiles(s: System, listing: Listing, reloaded: Server, runId: string)
    requires Invariant(s) && IsReload(s.server.disk, listing, reloaded)
    ensures Known(reloaded, runId) <==> Readable(s.server.disk, listing, runId)
  {
    if Readable(s.server.disk, listing, runId) {
      assert FileOk(s.server.disk, runId, s.log.issued, s.results);
      var run := RunFromJson(s.server.disk[runId]).value;
      Files.ReloadedIsItsFile(s, listing, reloaded, run);
    }
    forall run | run in reloaded.runs
      ensures Readable(s.server.disk, listing, run.runId)
    {
      Files.ReloadedIsItsFile(s, listing, reloaded, run);
    }
  }

  /** The reloaded form of a run the server knew. */
  lemma ReloadedForm(s: System, listing: Listing, reloaded: Server, run: ScriptRun, run': ScriptRun)
    requires Invariant(s) && IsReload(s.server.disk, listing, reloaded)
    requires run in s.server.runs && run' in reloaded.runs && run.runId == run'.runId
    ensures FileFits(run, run', s.log.unwritten)
  {
    Files.ReloadedIsItsFile(s, listing, reloaded, run');
    assert RunWritten(run, s.server.saved, s.server.disk, s.log.unwritten);
  }

  lemma FileOfKnown(s: System, listing: Listing, reloaded: Server, run: ScriptRun) returns (run': ScriptRun)
    requires Invariant(s) && IsReload(s.server.disk, listing, reloaded)
    requires run in s.server.runs && Readable(s.server.disk, listing, run.runId)
    ensures run' in reloaded.runs && run'.runId == run.runId
    ensures RunFromJson(s.server.disk[run.runId]) == Success(run') && FileFits(run, run', s.log.unwritten)
  {
    assert FileOk(s.server.disk, run.runId, s.log.issued, s.results);
    assert RunWritten(run, s.server.saved, s.server.disk, s.log.unwritten);
    run' := RunFromJson(s.server.disk[run.runId]).value;
    Files.ReloadedIsItsFile(s, listing, reloaded, run');
  }

  /** A file is the run as it is, but for the fraction of a second, exactly when all of it was written. */
  lemma FileIsTheRun(run: ScriptRun, file: ScriptRun, unwritten: set<(string, HostId)>)
    requires FileFits(run, file, unwritten)
    ensures file == Truncated(run) <==> AllWritten(run, unwritten)
  {
    if AllWritten(run, unwritten) {
      assert forall i | 0 <= i < |run.targets| :: TargetFits(run.targets[i], file.targets[i], false);
      assert file.targets == run.targets;
    } else {
      var i :| 0 <= i < |run.targets| && (run.runId, run.targets[i].hostId) in unwritten;
      assert TargetFits(run.targets[i], file.targets[i], true);
    }
  }

  /** In every reachable state a run comes back from a restart as it was shown, exactly when the server
      counts it as saved, no target of it has changed since its last successful save, and its file can be
      opened. */
  lemma RestartBringsBack(s: System, listing: Listing, reloaded: Server, run: ScriptRun)
    requires Reachable(s) && IsReload(s.server.disk, listing, reloaded) && run in s.server.runs
    ensures Truncated(run) in reloaded.runs <==>
      run.runId in s.server.saved && AllWritten(run, s.log.unwritten) && run.runId !in listing.unreadable
    ensures Truncated(run) in reloaded.runs <==>
      Readable(s.server.disk, listing, run.runId) && RunFromJson(s.server.disk[run.runId]) == Success(Truncated(run))
  {
    ReachableOk(s);
    assert RunWritten(run, s.server.saved, s.server.disk, s.log.unwritten);
    Files.ReloadedIsItsFile(s, listing, reloaded, Truncated(run));
    if Readable(s.server.disk, listing, run.runId) {
      var run' := FileOfKnown(s, listing, reloaded, run);
      FileIsTheRun(run, run', s.log.unwritten);
    }
  }

  /** In every reachable state a target comes back from a restart as it was shown exactly when its run was
      saved after the target last changed and the file can be opened; else it comes back unanswered, or the
      run not at all. */
  lemma TargetSurvivesExactlyWhen(s: System, listing: Listing, reloaded: Server, run: ScriptRun, i: nat)
    requires Reachable(s) && IsReload(s.server.disk, listing, reloaded) && run in s.server.runs && i < |run.targets|
    ensures (exists run' | run' in reloaded.runs ::
      run'.runId == run.runId && i < |run'.targets| && run'.targets[i] == run.targets[i])
      <==> (run.runId, run.targets[i].hostId) !in s.log.unwritten && run.runId !in listing.unreadable
    ensures forall run' | run' in reloaded.runs && run'.runId == run.runId ::
      && |run'.targets| == |run.targets|
      && (run'.targets[i] == run.targets[i] || (run'.targets[i].state == NoResponse && run.targets[i].result.Some?))
  {
    ReachableOk(s);
    var behind := (run.runId, run.targets[i].hostId) in s.log.unwritten;
    assert RunWritten(run, s.server.saved, s.server.disk, s.log.unwritten);
    RestartKnowsFiles(s, listing, reloaded, run.runId);
    forall run' | run' in reloaded.runs && run'.runId == run.runId
      ensures |run'.targets| == |run.targets| && TargetFits(run.targets[i], run'.targets[i], behind)
    {
      ReloadedForm(s, listing, reloaded, run, run');
    }
    if !behind && run.runId !in listing.unreadable {
      var run' := FileOfKnown(s, listing, reloaded, run);
    }
  }

  lemma AnswerTaken(s: System, result: ScriptResult, failing: set<string>, r: nat, i: nat)
    requires Invariant(s) && r == FindRun(s.server.runs, result.runId) < |s.server.runs|
    requires i == FindTarget(s.server.runs[r].targets, result.hostId) < |s.server.runs[r].targets|
    requires s.server.runs[r].targets[i].state == NoResponse && IsFinished(s.server.runs[r])
    ensures ResultTaken(s.server, result, failing).runs == s.server.runs[r := ApplyResult(s.server.runs[r], result)]
    ensures (result.runId, result.hostId) in UnwrittenByResult(s.log.unwritten, s.server, result, failing) <==>
      result.runId in failing
  {
    var run := s.server.runs[r];
    assert RunOk(run, s.log.issued, s.results);
    AnswerFinishes(run, i, result);
  }

  /** So a late answer that is shown survives a restart right after it exactly when neither its save nor the
      reading of it failed. */
  lemma LateAnswerSurvivesExactlyWhen(s: System, result: ScriptResult, failing: set<string>, listing: Listing,
                                      reloaded: Server, r: nat, i: nat)
    requires Reachable(s) && result in s.results && r == FindRun(s.server.runs, result.runId) < |s.server.runs|
    requires i == FindTarget(s.server.runs[r].targets, result.hostId) < |s.server.runs[r].targets|
    requires s.server.runs[r].targets[i].state == NoResponse && IsFinished(s.server.runs[r])
    requires IsReload(ResultTaken(s.server, result, failing).disk, listing, reloaded)
    ensures var answered := Answered(s.server.runs[r].targets[i], result);
      (exists run' | run' in reloaded.runs ::
        run'.runId == result.runId && i < |run'.targets| && run'.targets[i] == answered)
      <==> result.runId !in failing && result.runId !in listing.unreadable
  {
    ReachableOk(s);
    ReachableThen(s, DeliverResult(result, failing));
    AnswerTaken(s, result, failing, r, i);
    var s', run' := Do(s, DeliverResult(result, failing)), ApplyResult(s.server.runs[r], result);
    assert s'.server.runs[r] == run';
    TargetSurvivesExactlyWhen(s', listing, reloaded, run', i);
  }

  lemma AnswerFinishes(run: ScriptRun, i: nat, result: ScriptResult)
    requires IsFinished(run) && i == FindTarget(run.targets, result.hostId) < |run.targets|
    ensures IsFinished(ApplyResult(run, result))
  {
    assert forall j | 0 <= j < |run.targets| :: !Waiting(run.targets[j]);
  }

  // ----- moving on over restarts -----

  /** A restart moves a run only forward exactly when no answer in it is still unwritten. */
  lemma RestartMovesExactlyWhen(s: System, listing: Listing, reloaded: Server, run: ScriptRun, run': ScriptRun)
    requires Invariant(s) && IsReload(s.server.disk, listing, reloaded)
    requires run in s.server.runs && run' in reloaded.runs && run.runId == run'.runId
    ensures RunMovesTo(run, run') <==> AllWritten(run, s.log.unwritten)
  {
    ReloadedForm(s, listing, reloaded, run, run');
    FileIsTheRun(run, run', s.log.unwritten);
    if AllWritten(run, s.log.unwritten) {
      TruncatedMoves(run);
    } else {
      var i :| 0 <= i < |run.targets| && (run.runId, run.targets[i].hostId) in s.log.unwritten;
      assert TargetFits(run.targets[i], run'.targets[i], true);
      assert !MovesTo(run.targets[i], run'.targets[i]);
    }
  }

  /** If the server restarts and can open a file of this run, it knew the run and had written all of it. */
  ghost predicate FileIsCurrent(s: System, a: Action, runId: string) {
    a.RestartServer? && Readable(s.server.disk, a.listing, runId) ==>
      exists run | run in s.server.runs :: run.runId == runId && AllWritten(run, s.log.unwritten)
  }

  ghost predicate FileCurrentAtRestarts(s: System, actions: seq<Action>, runId: string)
    requires Runs(s, actions)
    decreases |actions|
  {
    actions == []
      || (FileIsCurrent(s, actions[0], runId) && FileCurrentAtRestarts(Do(s, actions[0]), actions[1..], runId))
  }

  lemma ReloadMoves(s: System, a: Action, run: ScriptRun, run': ScriptRun)
    requires Invariant(s) && a.RestartServer? && Enabled(s, a) && FileIsCurrent(s, a, run.runId)
    requires run in s.server.runs && run' in a.reloaded.runs && run.runId == run'.runId
    ensures RunMovesTo(run, run')
  {
    RestartKnowsFiles(s, a.listing, a.reloaded, run.runId);
    var known :| known in s.server.runs && known.runId == run.runId && AllWritten(known, s.log.unwritten);
    UniqueRun(s.server.runs, run, known);
    RestartMovesExactlyWhen(s, a.listing, a.reloaded, run, run');
  }

  lemma StepMovesForward(s: System, a: Action, run: ScriptRun, run': ScriptRun)
    requires Invariant(s) && Enabled(s, a) && FileIsCurrent(s, a, run.runId)
    requires run in s.server.runs && run' in Do(s, a).server.runs && run.runId == run'.runId
    ensures RunMovesTo(run, run')
  {
    match a
    case StartRun(_, _, _) => StartMoves(s, a, run, run');
    case DeliverResult(result, failing) => ResultMoves(s.server, result, failing, run, run');
    case DeadlineFires(runId, failing) => DeadlineMoves(s.server, runId, failing, run, run');
    case DeleteRun(runId, _) => FilterMoves(OtherThan(runId), s.server.runs, run, run');
    case DeleteRunsBefore(cutoff, _) => FilterMoves(IssuedSince(cutoff), s.server.runs, run, run');
    case RestartServer(listing, reloaded) => ReloadMoves(s, a, run, run');
    case _ => UniqueRun(s.server.runs, run, run');
  }

  // ----- deleted runs -----

  /** The step removes the file of the run. */
  predicate Removes(a: Action, runId: string) {
    a.DeleteRun? && a.runId == runId && runId !in a.failing
  }

  lemma ResultKeepsFile(sv: Server, result: ScriptResult, failing: set<string>, runId: string)
    requires !Known(sv, runId)
    ensures runId in ResultTaken(sv, result, failing).disk <==> runId in sv.disk
  {
    var r := FindRun(sv.runs, result.runId);
    if r < |sv.runs| {
      assert sv.runs[r] in sv.runs;
    }
  }

  lemma DeadlineKeepsFile(sv: Server, id: string, failing: set<string>, runId: string)
    requires !Known(sv, runId)
    ensures runId in DeadlinePassed(sv, id, failing).disk <==> runId in sv.disk
  {
    var r := FindRun(sv.runs, id);
    if r < |sv.runs| {
      assert sv.runs[r] in sv.runs;
    }
  }

  lemma DoomedKeepsFile(sv: Server, cutoff: int64, failing: set<string>, runId: string)
    requires !Known(sv, runId)
    ensures runId in DeletedBefore(sv, cutoff, failing).disk <==> runId in sv.disk
  {
    assert runId !in DoomedIds(sv.runs, cutoff);
  }

  /** Only removing it changes whether a run that the server does not know has a file. */
  lemma StepKeepsOrphan(s: System, a: Action, runId: string)
    requires Invariant(s) && Enabled(s, a) && runId in s.log.issued && !Known(s.server, runId)
    ensures runId in Do(s, a).server.disk <==> runId in s.server.disk && !Removes(a, runId)
  {
    match a
    case DeliverResult(result, failing) => ResultKeepsFile(s.server, result, failing, runId);
    case DeadlineFires(id, failing) => DeadlineKeepsFile(s.server, id, failing, runId);
    case DeleteRun(id, failing) =>
      assert runId in s.server.disk ==> FileOk(s.server.disk, runId, s.log.issued, s.results);
    case DeleteRunsBefore(cutoff, failing) => DoomedKeepsFile(s.server, cutoff, failing, runId);
    case _ =>
  }

  lemma StepKeepsGone(s: System, a: Action, runId: string)
    requires Invariant(s) && Enabled(s, a) && runId in s.log.issued && !Known(s.server, runId)
    requires a.RestartServer? ==> !Readable(s.server.disk, a.listing, runId)
    ensures runId in Do(s, a).log.issued && !Known(Do(s, a).server, runId)
  {
    forall run | run in Do(s, a).server.runs
      ensures run.runId != runId
    {
      StepAddsNoRun(s, a, run);
    }
  }

  /** A run that is deleted and whose file is gone never comes back, whatever fails and restarts later. */
  lemma {:induction false} GoneForGood(s: System, actions: seq<Action>, runId: string)
    requires Invariant(s) && Runs(s, actions) && runId in s.log.issued
    requires !Known(s.server, runId) && runId !in s.server.disk
    ensures !Known(After(s, actions).server, runId) && runId !in After(s, actions).server.disk
    decreases |actions|
  {
    if actions != [] {
      StepKeepsInvariant(s, actions[0]);
      StepKeepsOrphan(s, actions[0], runId);
      StepKeepsGone(s, actions[0], runId);
      GoneForGood(Do(s, actions[0]), actions[1..], runId);
    }
  }

  lemma {:induction false} StaysGone(s: System, actions: seq<Action>, runId: string)
    requires Invariant(s) && Runs(s, actions) && FileCurrentAtRestarts(s, actions, runId)
    requires runId in s.log.issued && !Known(s.server, runId)
    ensures !Known(After(s, actions).server, runId)
    decreases |actions|
  {
    if actions != [] {
      StepKeepsInvariant(s, actions[0]);
      StepKeepsGone(s, actions[0], runId);
      StaysGone(Do(s, actions[0]), actions[1..], runId);
    }
  }

  ghost predicate NoRestart(actions: seq<Action>) {
    forall k | 0 <= k < |actions| :: !actions[k].RestartServer?
  }

  ghost predicate RemovedIn(actions: seq<Action>, runId: string) {
    exists k | 0 <= k < |actions| :: Removes(actions[k], runId)
  }

  /** Until the next restart a deleted run stays unknown, and its file stays until it is removed. */
  lemma {:induction false} OrphanStays(s: System, actions: seq<Action>, runId: string)
    requires Invariant(s) && Runs(s, actions) && NoRestart(actions)
    requires runId in s.log.issued && !Known(s.server, runId)
    ensures Invariant(After(s, actions)) && !Known(After(s, actions).server, runId)
    ensures runId in After(s, actions).server.disk <==> runId in s.server.disk && !RemovedIn(actions, runId)
    decreases |actions|
  {
    if actions != [] {
      var a, rest := actions[0], actions[1..];
      StepKeepsInvariant(s, a);
      StepKeepsOrphan(s, a, runId);
      StepKeepsGone(s, a, runId);
      OrphanStays(Do(s, a), rest, runId);
      assert RemovedIn(actions, runId) <==> Removes(a, runId) || RemovedIn(rest, runId) by {
        if k :| 0 <= k < |rest| && Removes(rest[k], runId) {
          assert actions[k + 1] == rest[k];
        }
        if k :| 0 < k < |actions| && Removes(actions[k], runId) {
          assert rest[k - 1] == actions[k];
        }
      }
    }
  }

  lemma DeletedLeavesFile(s: System, runId: string, failing: set<string>)
    requires Invariant(s)
    ensures !Known(Deleted(s.server, runId, failing), runId)
    ensures runId in Deleted(s.server, runId, failing).disk <==> runId in s.server.disk && runId in failing
  {
    var sv' := Deleted(s.server, runId, failing);
    forall run | run in sv'.runs
      ensures run.runId != runId
    {
      FilterKeeps(OtherThan(runId), s.server.runs, run);
    }
    assert runId in s.server.disk ==> FileOk(s.server.disk, runId, s.log.issued, s.results);
  }

  lemma DoomedLeavesFile(s: System, cutoff: int64, failing: set<string>, run: ScriptRun)
    requires Invariant(s) && run in s.server.runs && run.issuedAt < cutoff
    ensures !Known(DeletedBefore(s.server, cutoff, failing), run.runId)
    ensures run.runId in DeletedBefore(s.server, cutoff, failing).disk <==>
      run.runId in s.server.disk && run.runId in failing
  {
    forall other | other in DeletedBefore(s.server, cutoff, failing).runs
      ensures other.runId != run.runId
    {
      FilterKeeps(IssuedSince(cutoff), s.server.runs, other);
      if other.runId == run.runId {
        UniqueRun(s.server.runs, other, run);
      }
    }
    assert run.runId in s.server.disk ==> FileOk(s.server.disk, run.runId, s.log.issued, s.results);
  }

  /** A deleted run is back after the next restart exactly when it had a file, the removal of that very file
      failed, no later delete of the run removed it, and the restart can open it. */
  lemma DeletedReturnsExactlyWhen(s: System, runId: string, failing: set<string>, actions: seq<Action>,
                                  listing: Listing, reloaded: Server)
    requires Reachable(s) && runId in s.log.issued
    requires var deleted := Do(s, DeleteRun(runId, failing));
      Runs(deleted, actions) && NoRestart(actions) && IsReload(After(deleted, actions).server.disk, listing, reloaded)
    ensures Known(reloaded, runId) <==>
      && runId in s.server.disk && runId in failing
      && !RemovedIn(actions, runId) && runId !in listing.unreadable
  {
    ReachableOk(s);
    var deleted := Do(s, DeleteRun(runId, failing));
    StepKeepsInvariant(s, DeleteRun(runId, failing));
    DeletedLeavesFile(s, runId, failing);
    OrphanStays(deleted, actions, runId);
    RestartKnowsFiles(After(deleted, actions), listing, reloaded, runId);
  }

  /** The same for a run deleted among all those issued before a cutoff. */
  lemma DoomedReturnsExactlyWhen(s: System, cutoff: int64, failing: set<string>, run: ScriptRun, actions: seq<Action>,
                                 listing: Listing, reloaded: Server)
    requires Reachable(s) && run in s.server.runs && run.issuedAt < cutoff
    requires var deleted := Do(s, DeleteRunsBefore(cutoff, failing));
      Runs(deleted, actions) && NoRestart(actions) && IsReload(After(deleted, actions).server.disk, listing, reloaded)
    ensures Known(reloaded, run.runId) <==>
      && run.runId in s.server.disk && run.runId in failing
      && !RemovedIn(actions, run.runId) && run.runId !in listing.unreadable
  {
    ReachableOk(s);
    assert RunOk(run, s.log.issued, s.results);
    var deleted := Do(s, DeleteRunsBefore(cutoff, failing));
    StepKeepsInvariant(s, DeleteRunsBefore(cutoff, failing));
    DoomedLeavesFile(s, cutoff, failing, run);
    OrphanStays(deleted, actions, run.runId);
    RestartKnowsFiles(After(deleted, actions), listing, reloaded, run.runId);
  }

  /** Over any stretch of any run the targets of a run move only forward, server restarts included, as long
      as each finds this run's own file, if it has one, current; in particular an answer once shown never
      changes. */
  lemma {:induction false} TargetsMoveForward(s: System, actions: seq<Action>, run: ScriptRun, run': ScriptRun)
    requires Invariant(s) && Runs(s, actions) && FileCurrentAtRestarts(s, actions, run.runId)
    requires run in s.server.runs && run' in After(s, actions).server.runs && run.runId == run'.runId
    ensures RunMovesTo(run, run')
    decreases |actions|
  {
    assert RunOk(run, s.log.issued, s.results);
    if actions == [] {
      UniqueRun(s.server.runs, run, run');
    } else {
      var next, rest := Do(s, actions[0]), actions[1..];
      StepKeepsInvariant(s, actions[0]);
      StepKeepsIssued(s, actions[0], run.runId);
      assert Known(After(next, rest).server, run.runId);
      if Known(next.server, run.runId) {
        var between :| between in next.server.runs && between.runId == run.runId;
        StepMovesForward(s, actions[0], run, between);
        TargetsMoveForward(next, rest, between, run');
        MovesCompose(run, between, run');
      } else {
        StaysGone(next, rest, run.runId);
      }
    }
  }

  // ----- answers and deletes that did not reach the disk -----

  // One run of one host, answered after its deadline.

  const UNANSWERED := OneHostRun("a").(targets := [RunTarget("h", NoResponse, "", None)])
  const ANSWER := OutcomeResult("h", "a", DONE)

  lemma OneAnswer() returns (s: System)
    ensures Reachable(s) && s.server == Server([OneHostRun("a")], {}, map[], {"a"}) && ANSWER in s.results
  {
    s := NothingYet();
    s := StartOneHost(s, "a");
    s := IdleStarts(s, FIRST);
    s := FinishLive(s, FIRST);
  }

  lemma Unanswered() returns (s: System)
    ensures Reachable(s) && s.server == Server([UNANSWERED], {"a"}, map["a" := RunToJson(UNANSWERED)], {})
    ensures ANSWER in s.results
  {
    s := OneAnswer();
    var expires := DeadlineFires("a", {});
    DeadlineOfOne();
    ReachableThen(s, expires);
    s := Do(s, expires);
  }

  lemma DeadlineOfOne()
    ensures CountState(OneHostRun("a").targets, Dispatched) == 1
    ensures ApplyDeadline(OneHostRun("a")) == UNANSWERED && IsFinished(UNANSWERED) && IsSafeRunId("a")
  {
    var targets := OneHostRun("a").targets;
    assert CountState(targets[..0], Dispatched) == 0;
    assert ApplyDeadline(OneHostRun("a")).targets == UNANSWERED.targets;
  }

  /** After a failed file operation a restart may take an answer back: the late answer was shown but could
      not be written, and the record still says that there was none. */
  lemma RestartTakesBack() returns (s: System, a: Action, run: ScriptRun, run': ScriptRun)
    ensures Reachable(s) && a.RestartServer? && Enabled(s, a)
    ensures run in s.server.runs && run' in Do(s, a).server.runs && run.runId == run'.runId
    ensures |run.targets| == |run'.targets| == 1
    ensures run.targets[0].state == Completed && run'.targets[0].state == NoResponse
  {
    s := Unanswered();
    var late := DeliverResult(ANSWER, {"a"});
    ReachableThen(s, late);
    s := Do(s, late);
    run, run' := ApplyResult(UNANSWERED, ANSWER), UNANSWERED;
    assert run == s.server.runs[0];
    var listing, reloaded := OneFile();
    a := RestartServer(listing, reloaded);
  }

  /** A deleted run whose file could not be removed is back after a restart. */
  lemma DeletedComesBack() returns (s: System, listing: Listing, reloaded: Server)
    ensures Reachable(s) && Known(s.server, "a") && "a" in s.log.issued
    ensures !Known(Do(s, DeleteRun("a", {"a"})).server, "a")
    ensures Enabled(Do(s, DeleteRun("a", {"a"})), RestartServer(listing, reloaded)) && Known(reloaded, "a")
  {
    s := Unanswered();
    assert s.server.runs[0] == UNANSWERED;
    DeleteForgets(s, UNANSWERED);
    listing, reloaded := OneFile();
  }

  /** A saved run whose file cannot be opened at a restart is missing until a restart that can open it. */
  lemma UnopenedFileHidesRun() returns (s: System, a: Action, s': System, b: Action)
    ensures Reachable(s) && a.RestartServer? && Enabled(s, a) && Known(s.server, "a")
    ensures s' == Do(s, a) && !Known(s'.server, "a")
    ensures b.RestartServer? && Enabled(s', b) && Known(Do(s', b).server, "a")
  {
    s := Unanswered();
    assert s.server.runs[0] == UNANSWERED;
    var disk := map["a" := RunToJson(UNANSWERED)];
    assert LoadRuns(disk, ["a"][..0], {"a"}) == [];
    assert LoadRuns(disk, ["a"], {"a"}) == [];
    a := RestartServer(Listing(["a"], {"a"}), Server([], {}, disk, {}));
    s' := Do(s, a);
    var listing, reloaded := OneFile();
    b := RestartServer(listing, reloaded);
  }

  /** A delete that fails forgets the run and leaves every file. */
  lemma DeleteForgets(s: System, run: ScriptRun)
    requires Reachable(s) && run in s.server.runs
    ensures Known(s.server, run.runId) && run.runId in s.log.issued
    ensures var sv' := Do(s, DeleteRun(run.runId, {run.runId})).server;
      !Known(sv', run.runId) && sv'.disk == s.server.disk
  {
    ReachableOk(s);
    assert RunOk(run, s.log.issued, s.results);
    DeletedLeavesFile(s, run.runId, {run.runId});
  }

  lemma OneFile() returns (listing: Listing, reloaded: Server)
    ensures IsReload(map["a" := RunToJson(UNANSWERED)], listing, reloaded) && Known(reloaded, "a")
    ensures reloaded.runs == [UNANSWERED]
  {
    RunRoundTrip(UNANSWERED);
    var disk := map["a" := RunToJson(UNANSWERED)];
    assert LoadRuns(disk, ["a"][..0], {}) == [];
    assert LoadRuns(disk, ["a"], {}) == [UNANSWERED];
    listing, reloaded := Listing(["a"], {}), Server([UNANSWERED], {"a"}, disk, {});
    assert UNANSWERED in reloaded.runs;
  }

  lemma StepKeepsIssued(s: System, a: Action, runId: string)
    requires Enabled(s, a) && runId in s.log.issued
    ensures runId in Do(s, a).log.issued
  {
  }

  // ----- deadlines -----

  /** Nothing is left Pending; an unfinished run has its deadline armed; and when that deadline fires
      the run is finished. */
  lemma DeadlineEndsTheWait(s: System, run: ScriptRun, failing: set<string>)
    requires Reachable(s) && run in s.server.runs && !IsFinished(run)
    ensures forall t | t in run.targets :: t.state != Pending
    ensures Enabled(s, DeadlineFires(run.runId, failing))
    ensures exists run' | run' in Do(s, DeadlineFires(run.runId, failing)).server.runs :: run'.runId == run.runId
    ensures forall run' | run' in Do(s, DeadlineFires(run.runId, failing)).server.runs && run'.runId == run.runId ::
      IsFinished(run') && forall i | 0 <= i < |run.targets| ::
        i < |run'.targets| && run'.targets[i] == Expired(run.targets[i])
  {
    ReachableOk(s);
    assert RunOk(run, s.log.issued, s.results);
    forall t | t in run.targets
      ensures t.state != Pending
    {
      var i :| 0 <= i < |run.targets| && run.targets[i] == t;
      assert TargetOk(t, run.runId, s.log.issued[run.runId].sentTo, s.results);
    }
    Record.DeadlineFinishes(run, s.log.issued, s.results);
    DeadlineTouches(s.server, run, failing);
  }

  lemma DeadlineTouches(sv: Server, run: ScriptRun, failing: set<string>)
    requires DistinctRuns(sv.runs) && run in sv.runs && CountState(run.targets, Dispatched) > 0
    ensures ApplyDeadline(run) in DeadlinePassed(sv, run.runId, failing).runs
    ensures forall run' | run' in DeadlinePassed(sv, run.runId, failing).runs && run'.runId == run.runId ::
      run' == ApplyDeadline(run)
  {
    var r := FindRun(sv.runs, run.runId);
    UniqueRun(sv.runs, run, sv.runs[r]);
    var after := DeadlinePassed(sv, run.runId, failing);
    assert after.runs == sv.runs[r := ApplyDeadline(run)];
    assert after.runs[r] == ApplyDeadline(run);
  }

  // ----- crash and reload -----

  /** When no file operation has failed, the directory holds the finished runs and only those, each in
      its current form, late corrections included and deleted ones gone. */
  lemma DiskIsTheFinishedRuns(s: System)
    requires Reachable(s) && s.log.clean
    ensures DiskMirrors(s.server)
  {
    ReachableOk(s);
  }

  /** When no file operation has failed, a server that crashes and reloads recovers precisely the finished runs
      whose files it can open, with the time of issue cut to whole seconds. */
  lemma ReloadRecoversFinishedRuns(s: System, listing: Listing, reloaded: Server, run: ScriptRun)
    requires Reachable(s) && s.log.clean && IsReload(s.server.disk, listing, reloaded)
    ensures run in reloaded.runs <==>
      run.runId !in listing.unreadable
      && exists original | original in s.server.runs :: IsFinished(original) && run == Truncated(original)
  {
    ReachableOk(s);
    Record.ReloadedRun(s.server.disk, listing, reloaded, run);
    if run in reloaded.runs {
      var name :| name in s.server.disk && name !in listing.unreadable
        && RunFromJson(s.server.disk[name]) == Success(run);
      var original := Record.FileIsItsRun(s, name);
    }
    if original :| original in s.server.runs && IsFinished(original) && run == Truncated(original) {
      Record.RecordReadsBack(original, s.log.issued, s.results);
      assert original.runId in s.server.disk;
    }
  }
}
