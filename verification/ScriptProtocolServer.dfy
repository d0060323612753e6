/** Every step keeps what the server's record promises (see ScriptProtocol). */
module ScriptProtocolServer {
  import opened Base
  import opened Json
  import opened ScriptRuns
  import opened RunStore
  import opened Sequences
  import opened ServerController
  import opened ScriptProtocol
  import Fleet

  type Issued = map<string, Issue>

  ghost predicate Extends(issued: Issued, issued': Issued) {
    forall id | id in issued :: id in issued' && issued'[id] == issued[id]
  }

  lemma FileOkGrows(disk: map<string, Json>, issued: Issued, results: set<ScriptResult>, issued': Issued,
                    results': set<ScriptResult>)
    requires forall name | name in disk :: FileOk(disk, name, issued, results)
    requires Extends(issued, issued') && results <= results'
    ensures forall name | name in disk :: FileOk(disk, name, issued', results')
  {
    forall name | name in disk
      ensures FileOk(disk, name, issued', results')
    {
      assert FileOk(disk, name, issued, results);
    }
  }

  lemma RunsOkGrows(sv: Server, issued: Issued, results: set<ScriptResult>, issued': Issued,
                    results': set<ScriptResult>)
    requires RunsOk(sv, issued, results) && Extends(issued, issued') && results <= results'
    ensures RunsOk(sv, issued', results')
  {
    FileOkGrows(sv.disk, issued, results, issued', results');
    forall run | run in sv.runs
      ensures RunOk(run, issued', results')
    {
      assert RunOk(run, issued, results);
    }
  }

  // ----- recording a run -----

  lemma RecordReadsBack(run: ScriptRun, issued: Issued, results: set<ScriptResult>)
    requires RunOk(run, issued, results)
    ensures RunFromJson(RunToJson(run)) == Success(Truncated(run))
    ensures RunOk(Truncated(run), issued, results)
  {
    forall i | 0 <= i < |run.targets| && run.targets[i].result.Some?
      ensures run.targets[i].result.value.hostId == run.targets[i].hostId
      ensures run.targets[i].result.value.runId == run.runId
    {
      assert TargetOk(run.targets[i], run.runId, issued[run.runId].sentTo, results);
    }
    RunRoundTrip(run);
  }

  lemma PersistKeepsRuns(sv: Server, i: nat, failing: set<string>, issued: Issued, results: set<ScriptResult>)
    requires RunsOk(sv, issued, results) && i < |sv.runs|
    ensures RunsOk(Persisted(sv, i, failing), issued, results)
  {
    var run, sv' := sv.runs[i], Persisted(sv, i, failing);
    assert RunOk(run, issued, results);
    RecordReadsBack(run, issued, results);
    forall name | name in sv'.disk
      ensures FileOk(sv'.disk, name, issued, results)
    {
      if sv'.disk[name] != RunToJson(run) {
        assert FileOk(sv.disk, name, issued, results);
      } else if name in sv.disk && sv.disk[name] == sv'.disk[name] {
        assert FileOk(sv.disk, name, issued, results);
      }
    }
  }

  /** Like DiskMirrors, but says nothing about run i, which is about to be recorded. */
  ghost predicate MirrorsExcept(sv: Server, i: nat)
    requires i < |sv.runs|
  {
    && (forall j | 0 <= j < |sv.runs| && j != i && IsFinished(sv.runs[j]) ::
          sv.runs[j].runId in sv.disk && sv.disk[sv.runs[j].runId] == RunToJson(sv.runs[j]))
    && (forall name | name in sv.disk ::
        exists j | 0 <= j < |sv.runs| :: sv.runs[j].runId == name && IsFinished(sv.runs[j]))
    && sv.saved == sv.disk.Keys
  }

  lemma PersistRestoresMirror(sv: Server, i: nat, failing: set<string>)
    requires i < |sv.runs| && DistinctRuns(sv.runs) && IsSafeRunId(sv.runs[i].runId) && failing == {}
    requires MirrorsExcept(sv, i)
    ensures DiskMirrors(Persisted(sv, i, failing))
  {
    var sv' := Persisted(sv, i, failing);
    forall run | run in sv'.runs && IsFinished(run)
      ensures run.runId in sv'.disk && sv'.disk[run.runId] == RunToJson(run)
    {
      var j :| 0 <= j < |sv.runs| && sv.runs[j] == run;
    }
    forall name | name in sv'.disk
      ensures exists run | run in sv'.runs :: run.runId == name && IsFinished(run)
    {
      if name in sv.disk {
        var j :| 0 <= j < |sv.runs| && sv.runs[j].runId == name && IsFinished(sv.runs[j]);
        assert sv.runs[j] in sv'.runs;
      } else {
        assert sv.runs[i] in sv'.runs;
      }
    }
  }

  lemma MirrorWithChange(sv: Server, i: nat, run: ScriptRun)
    requires DiskMirrors(sv) && DistinctRuns(sv.runs) && i < |sv.runs|
    requires run.runId == sv.runs[i].runId && (IsFinished(sv.runs[i]) ==> IsFinished(run))
    ensures MirrorsExcept(sv.(runs := sv.runs[i := run]), i)
    ensures DistinctRuns(sv.runs[i := run])
  {
    var runs' := sv.runs[i := run];
    forall name | name in sv.disk
      ensures exists j | 0 <= j < |runs'| :: runs'[j].runId == name && IsFinished(runs'[j])
    {
      var r :| r in sv.runs && r.runId == name && IsFinished(r);
      var j :| 0 <= j < |sv.runs| && sv.runs[j] == r;
      assert runs'[j].runId == name && IsFinished(runs'[j]);
    }
  }

  lemma ReplaceKeepsRuns(sv: Server, i: nat, run: ScriptRun, issued: Issued, results: set<ScriptResult>)
    requires RunsOk(sv, issued, results) && i < |sv.runs|
    requires run.runId == sv.runs[i].runId && RunOk(run, issued, results)
    requires IsFinished(sv.runs[i]) ==> IsFinished(run)
    ensures RunsOk(sv.(runs := sv.runs[i := run]), issued, results)
  {
    var runs' := sv.runs[i := run];
    forall r | r in runs'
      ensures RunOk(r, issued, results) && (!IsFinished(r) ==> r.runId in sv.timers)
    {
      var j :| 0 <= j < |runs'| && runs'[j] == r;
      assert sv.runs[j] in sv.runs;
    }
  }

  // ----- starting -----

  lemma NewTargetOk(request: Request, fleet: seq<Fleet.FleetEntry>, i: nat, results: set<ScriptResult>)
    requires i < |RunFor(request, fleet).targets|
    ensures TargetOk(RunFor(request, fleet).targets[i], request.runId, IssueOf(RunFor(request, fleet)).sentTo, results)
  {
    var run := RunFor(request, fleet);
    var t := run.targets[i];
    assert t in run.targets;
    forall u | u in run.targets && u.hostId == t.hostId
      ensures u == t
    {
      var j :| 0 <= j < |run.targets| && run.targets[j] == u;
      assert Unique(request.hosts)[i] == Unique(request.hosts)[j];
    }
  }

  lemma NewRunOk(request: Request, fleet: seq<Fleet.FleetEntry>, issued: Issued, results: set<ScriptResult>)
    requires IsSafeRunId(request.runId)
    ensures var run := RunFor(request, fleet);
      && RunOk(run, issued[run.runId := IssueOf(run)], results)
      && (!IsFinished(run) ==> CountState(run.targets, Dispatched) > 0)
  {
    var run := RunFor(request, fleet);
    forall i | 0 <= i < |run.targets|
      ensures TargetOk(run.targets[i], run.runId, IssueOf(run).sentTo, results)
    {
      NewTargetOk(request, fleet, i, results);
    }
    NoneCounted(run.targets, Dispatched);
    assert DistinctHosts(run.targets);
  }

  lemma StartKeepsServer(s: System, request: Request, fleet: seq<Fleet.FleetEntry>, failing: set<string>)
    requires ServerOk(s) && Enabled(s, StartRun(request, fleet, failing))
    ensures ServerOk(Do(s, StartRun(request, fleet, failing)))
  {
    var s' := Do(s, StartRun(request, fleet, failing));
    var run := RunFor(request, fleet);
    var sv := s.server;
    NewRunOk(request, fleet, s.log.issued, s.results);
    RunsOkGrows(sv, s.log.issued, s.results, s'.log.issued, s.results);
    var timers := if CountState(run.targets, Dispatched) > 0 then sv.timers + {run.runId} else sv.timers;
    var added := sv.(runs := sv.runs + [run], timers := timers);
    var last := |sv.runs|;
    assert added.runs[last] == run;
    forall r | r in sv.runs
      ensures r.runId != run.runId
    {
      assert RunOk(r, s.log.issued, s.results);
    }
    assert RunsOk(added, s'.log.issued, s.results) by {
      assert forall j | 0 <= j < |sv.runs| :: added.runs[j] == sv.runs[j] && sv.runs[j] in sv.runs;
      forall r | r in added.runs
        ensures RunOk(r, s'.log.issued, s.results) && (!IsFinished(r) ==> r.runId in timers)
      {
        assert r in sv.runs || r == run;
      }
      assert forall r | r in sv.runs :: RunOk(r, s.log.issued, s.results);
    }
    PersistKeepsRuns(added, last, failing, s'.log.issued, s.results);
    if s'.log.clean {
      AddedMirrors(sv, added, run);
      PersistRestoresMirror(added, last, failing);
    }
  }

  lemma AddedMirrors(sv: Server, added: Server, run: ScriptRun)
    requires DiskMirrors(sv) && added == sv.(runs := sv.runs + [run], timers := added.timers)
    ensures MirrorsExcept(added, |sv.runs|)
  {
    forall name | name in added.disk
      ensures exists j | 0 <= j < |added.runs| :: added.runs[j].runId == name && IsFinished(added.runs[j])
    {
      var r :| r in sv.runs && r.runId == name && IsFinished(r);
      var j :| 0 <= j < |sv.runs| && sv.runs[j] == r;
      assert added.runs[j] == r;
    }
    forall j | 0 <= j < |added.runs| && j != |sv.runs|
      ensures added.runs[j] in sv.runs
    {
    }
  }

  // ----- results -----

  lemma AnswerOk(run: ScriptRun, t: nat, result: ScriptResult, issued: Issued, results: set<ScriptResult>)
    requires RunOk(run, issued, results) && t < |run.targets| && result in results
    requires run.targets[t].hostId == result.hostId && run.runId == result.runId && MayAnswer(run.targets[t].state)
    ensures var run' := run.(targets := run.targets[t := Answered(run.targets[t], result)]);
      RunOk(run', issued, results) && (IsFinished(run) ==> IsFinished(run'))
  {
  }

  lemma ResultKeepsServer(s: System, result: ScriptResult, failing: set<string>)
    requires ServerOk(s) && result in s.results
    ensures ServerOk(Do(s, DeliverResult(result, failing)))
  {
    var sv := s.server;
    var r := FindRun(sv.runs, result.runId);
    if r < |sv.runs| {
      var run := sv.runs[r];
      var t := FindTarget(run.targets, result.hostId);
      if t < |run.targets| && MayAnswer(run.targets[t].state) {
        assert RunOk(run, s.log.issued, s.results);
        AnswerOk(run, t, result, s.log.issued, s.results);
        var run' := ApplyResult(run, result);
        var changed := sv.(runs := sv.runs[r := run']);
        ReplaceKeepsRuns(sv, r, run', s.log.issued, s.results);
        PersistKeepsRuns(changed, r, failing, s.log.issued, s.results);
        if s.log.clean && failing == {} {
          MirrorWithChange(sv, r, run');
          PersistRestoresMirror(changed, r, failing);
        }
      }
    }
  }

  // ----- the deadline -----

  lemma DeadlineFinishes(run: ScriptRun, issued: Issued, results: set<ScriptResult>)
    requires RunOk(run, issued, results)
    ensures RunOk(ApplyDeadline(run), issued, results) && IsFinished(ApplyDeadline(run))
    ensures CountState(run.targets, Dispatched) == 0 ==> IsFinished(run)
  {
    var run' := ApplyDeadline(run);
    NoneCounted(run.targets, Dispatched);
    forall i | 0 <= i < |run.targets|
      ensures TargetOk(run'.targets[i], run.runId, issued[run.runId].sentTo, results) && !Waiting(run'.targets[i])
      ensures run.targets[i].state != Pending
    {
      assert TargetOk(run.targets[i], run.runId, issued[run.runId].sentTo, results);
    }
  }

  lemma TimerSpent(sv: Server, runId: string, issued: Issued, results: set<ScriptResult>)
    requires RunsOk(sv, issued, results)
    requires forall run | run in sv.runs && run.runId == runId :: IsFinished(run)
    ensures RunsOk(sv.(timers := sv.timers - {runId}), issued, results)
  {
  }

  lemma DeadlineKeepsServer(s: System, runId: string, failing: set<string>)
    requires ServerOk(s) && Enabled(s, DeadlineFires(runId, failing))
    ensures ServerOk(Do(s, DeadlineFires(runId, failing)))
    ensures forall run | run in Do(s, DeadlineFires(runId, failing)).server.runs && run.runId == runId ::
      IsFinished(run)
  {
    var sv := s.server;
    var r := FindRun(sv.runs, runId);
    forall j | 0 <= j < |sv.runs| && sv.runs[j].runId == runId
      ensures j == r
    {
    }
    if r < |sv.runs| {
      assert RunOk(sv.runs[r], s.log.issued, s.results);
      DeadlineFinishes(sv.runs[r], s.log.issued, s.results);
      if CountState(sv.runs[r].targets, Dispatched) > 0 {
        var run' := ApplyDeadline(sv.runs[r]);
        var changed := sv.(runs := sv.runs[r := run']);
        ReplaceKeepsRuns(sv, r, run', s.log.issued, s.results);
        TimerSpent(changed, runId, s.log.issued, s.results);
        var fired := changed.(timers := sv.timers - {runId});
        PersistKeepsRuns(fired, r, failing, s.log.issued, s.results);
        if s.log.clean && failing == {} {
          MirrorWithChange(sv, r, run');
          PersistRestoresMirror(fired, r, failing);
        }
      } else {
        TimerSpent(sv, runId, s.log.issued, s.results);
      }
    } else {
      TimerSpent(sv, runId, s.log.issued, s.results);
    }
  }

  // ----- deletion -----

  lemma FilterKeepsDistinct(keep: ScriptRun -> bool, runs: seq<ScriptRun>)
    requires DistinctRuns(runs)
    ensures DistinctRuns(Filter(keep, runs))
  {
    FilterDistinct(keep, (run: ScriptRun) => run.runId, runs);
  }

  /** Dropping runs, and files that stay readable, keeps the rest of the record sound. */
  lemma DropKeepsRuns(sv: Server, sv': Server, keep: ScriptRun -> bool, issued: Issued, results: set<ScriptResult>)
    requires RunsOk(sv, issued, results)
    requires sv'.runs == Filter(keep, sv.runs) && sv'.timers == sv.timers
    requires forall name | name in sv'.disk :: name in sv.disk && sv'.disk[name] == sv.disk[name]
    ensures RunsOk(sv', issued, results)
  {
    FilterKeepsDistinct(keep, sv.runs);
    forall run
      ensures run in sv'.runs ==> run in sv.runs
    {
      FilterKeeps(keep, sv.runs, run);
    }
    forall name | name in sv'.disk
      ensures FileOk(sv'.disk, name, issued, results)
    {
      assert FileOk(sv.disk, name, issued, results);
    }
  }

  lemma DropKeepsMirror(sv: Server, sv': Server, keep: ScriptRun -> bool, gone: set<string>)
    requires DiskMirrors(sv)
    requires forall run | run in sv.runs :: keep(run) <==> run.runId !in gone
    requires sv'.runs == Filter(keep, sv.runs) && sv'.disk == sv.disk - gone && sv'.saved == sv.saved - gone
    ensures DiskMirrors(sv')
  {
    forall run
      ensures run in sv'.runs <==> run in sv.runs && run.runId !in gone
    {
      FilterKeeps(keep, sv.runs, run);
    }
    forall name | name in sv'.disk
      ensures exists run | run in sv'.runs :: run.runId == name && IsFinished(run)
    {
      var run :| run in sv.runs && run.runId == name && IsFinished(run);
      assert run in sv'.runs;
    }
  }

  /** With no failing file, exactly the files that exist can be deleted. */
  ghost predicate AllDeletable(disk: map<string, Json>) {
    forall name :: CanDelete(disk, name, {}) <==> name in disk
  }

  lemma SafeNames(sv: Server, issued: Issued, results: set<ScriptResult>)
    requires RunsOk(sv, issued, results)
    ensures AllDeletable(sv.disk)
  {
    forall name | name in sv.disk
      ensures IsSafeRunId(name)
    {
      assert FileOk(sv.disk, name, issued, results);
    }
  }

  lemma DeleteKeepsMirror(sv: Server, runId: string)
    requires AllDeletable(sv.disk) && DiskMirrors(sv)
    ensures DiskMirrors(Deleted(sv, runId, {}))
  {
    var sv' := Deleted(sv, runId, {});
    assert CanDelete(sv.disk, runId, {}) <==> runId in sv.disk;
    assert sv'.disk == sv.disk - {runId};
    DropKeepsMirror(sv, sv', OtherThan(runId), {runId});
  }

  lemma DeleteKeepsServer(s: System, runId: string, failing: set<string>)
    requires ServerOk(s)
    ensures ServerOk(Do(s, DeleteRun(runId, failing)))
  {
    var sv := s.server;
    DropKeepsRuns(sv, Deleted(sv, runId, failing), OtherThan(runId), s.log.issued, s.results);
    if s.log.clean && failing == {} {
      SafeNames(sv, s.log.issued, s.results);
      DeleteKeepsMirror(sv, runId);
    }
  }

  lemma DoomedExactly(runs: seq<ScriptRun>, cutoff: int64, run: ScriptRun)
    requires DistinctRuns(runs) && run in runs
    ensures IssuedSince(cutoff)(run) <==> run.runId !in DoomedIds(runs, cutoff)
  {
    if run.runId in DoomedIds(runs, cutoff) {
      var other :| other in runs && other.issuedAt < cutoff && other.runId == run.runId;
      var i :| 0 <= i < |runs| && runs[i] == run;
      var j :| 0 <= j < |runs| && runs[j] == other;
      assert i == j;
    }
  }

  lemma DoomedFilesGo(disk: map<string, Json>, doomed: set<string>)
    requires AllDeletable(disk)
    ensures disk - (set id | id in doomed && CanDelete(disk, id, {})) == disk - doomed
  {
    assert forall id | id in disk :: CanDelete(disk, id, {});
  }

  lemma KeptExactly(runs: seq<ScriptRun>, cutoff: int64)
    requires DistinctRuns(runs)
    ensures forall run | run in runs :: IssuedSince(cutoff)(run) <==> run.runId !in DoomedIds(runs, cutoff)
  {
    forall run | run in runs
      ensures IssuedSince(cutoff)(run) <==> run.runId !in DoomedIds(runs, cutoff)
    {
      DoomedExactly(runs, cutoff, run);
    }
  }

  lemma DeleteBeforeKeepsMirror(sv: Server, cutoff: int64)
    requires AllDeletable(sv.disk) && DiskMirrors(sv) && DistinctRuns(sv.runs)
    ensures DiskMirrors(DeletedBefore(sv, cutoff, {}))
  {
    DoomedFilesGo(sv.disk, DoomedIds(sv.runs, cutoff));
    KeptExactly(sv.runs, cutoff);
    DropKeepsMirror(sv, DeletedBefore(sv, cutoff, {}), IssuedSince(cutoff), DoomedIds(sv.runs, cutoff));
  }

  lemma DeleteBeforeKeepsServer(s: System, cutoff: int64, failing: set<string>)
    requires ServerOk(s)
    ensures ServerOk(Do(s, DeleteRunsBefore(cutoff, failing)))
  {
    var sv := s.server;
    DropKeepsRuns(sv, DeletedBefore(sv, cutoff, failing), IssuedSince(cutoff), s.log.issued, s.results);
    if s.log.clean && failing == {} {
      SafeNames(sv, s.log.issued, s.results);
      DeleteBeforeKeepsMirror(sv, cutoff);
    }
  }

  // ----- restart -----

  lemma {:induction false} LoadedDistinct(disk: map<string, Json>, names: seq<string>, unreadable: set<string>,
                                          issued: Issued, results: set<ScriptResult>)
    requires forall name | name in names :: name in disk && FileOk(disk, name, issued, results)
    requires forall i, j | 0 <= i < j < |names| :: names[i] != names[j]
    ensures DistinctRuns(LoadRuns(disk, names, unreadable))
  {
    if names != [] {
      var front, last := names[..|names| - 1], names[|names| - 1];
      var loaded := LoadRuns(disk, front, unreadable);
      LoadedDistinct(disk, front, unreadable, issued, results);
      forall i | 0 <= i < |loaded|
        ensures loaded[i].runId != last
      {
        LoadedRuns(disk, front, unreadable, loaded[i]);
        var name :| name in front && ReadRun(disk, name, unreadable) == Some(loaded[i]);
        assert FileOk(disk, name, issued, results);
      }
      assert FileOk(disk, last, issued, results);
    }
  }

  lemma ReloadedRun(disk: map<string, Json>, listing: Listing, sv: Server, run: ScriptRun)
    requires IsReload(disk, listing, sv)
    ensures run in sv.runs <==>
      exists name | name in disk :: name !in listing.unreadable && RunFromJson(disk[name]) == Success(run)
  {
    var loaded := LoadRuns(disk, listing.names, listing.unreadable);
    LoadedRuns(disk, listing.names, listing.unreadable, run);
    assert run in sv.runs <==> run in multiset(sv.runs);
    assert run in loaded <==> run in multiset(loaded);
    if name :| name in disk && name !in listing.unreadable && RunFromJson(disk[name]) == Success(run) {
      assert ReadRun(disk, name, listing.unreadable) == Some(run);
    }
    if name :| name in listing.names && ReadRun(disk, name, listing.unreadable) == Some(run) {
      assert RunFromJson(disk[name]) == Success(run);
    }
  }

  lemma ReloadKeepsServer(s: System, listing: Listing, reloaded: Server)
    requires ServerOk(s) && Enabled(s, RestartServer(listing, reloaded))
    ensures ServerOk(Do(s, RestartServer(listing, reloaded)))
    ensures forall run | run in reloaded.runs :: IsFinished(run)
  {
    var disk := s.server.disk;
    LoadedDistinct(disk, listing.names, listing.unreadable, s.log.issued, s.results);
    PermutationDistinct((run: ScriptRun) => run.runId, reloaded.runs,
      LoadRuns(disk, listing.names, listing.unreadable));
    forall run | run in reloaded.runs
      ensures RunOk(run, s.log.issued, s.results) && IsFinished(run)
    {
      ReloadedRun(disk, listing, reloaded, run);
      var name :| name in disk && RunFromJson(disk[name]) == Success(run);
      assert FileOk(disk, name, s.log.issued, s.results);
    }
    if s.log.clean && listing.unreadable == {} {
      ReloadMirrors(s, listing, reloaded);
    }
  }

  /** The file of a finished run reads back as that run and encodes to itself. */
  lemma FileIsItsRun(s: System, name: string) returns (run: ScriptRun)
    requires ServerOk(s) && s.log.clean && name in s.server.disk
    ensures run in s.server.runs && IsFinished(run) && run.runId == name
    ensures RunFromJson(s.server.disk[name]) == Success(Truncated(run))
    ensures s.server.disk[name] == RunToJson(Truncated(run))
  {
    run :| run in s.server.runs && run.runId == name && IsFinished(run);
    RecordReadsBack(run, s.log.issued, s.results);
    TruncatedEncodesAlike(run);
  }

  lemma ReloadedIsOnDisk(s: System, listing: Listing, reloaded: Server, run: ScriptRun)
    requires ServerOk(s) && s.log.clean && IsReload(s.server.disk, listing, reloaded) && run in reloaded.runs
    ensures run.runId in s.server.disk && s.server.disk[run.runId] == RunToJson(run) && IsFinished(run)
  {
    var disk := s.server.disk;
    ReloadedRun(disk, listing, reloaded, run);
    var name :| name in disk && RunFromJson(disk[name]) == Success(run);
    var original := FileIsItsRun(s, name);
  }

  lemma FileIsReloaded(s: System, listing: Listing, reloaded: Server, name: string)
    requires ServerOk(s) && s.log.clean && IsReload(s.server.disk, listing, reloaded) && name in s.server.disk
    requires listing.unreadable == {}
    ensures exists run | run in reloaded.runs :: run.runId == name && IsFinished(run)
  {
    var original := FileIsItsRun(s, name);
    ReloadedRun(s.server.disk, listing, reloaded, Truncated(original));
    assert Truncated(original) in reloaded.runs;
  }

  lemma ReloadMirrors(s: System, listing: Listing, reloaded: Server)
    requires ServerOk(s) && s.log.clean && IsReload(s.server.disk, listing, reloaded) && listing.unreadable == {}
    ensures DiskMirrors(reloaded)
  {
    var disk := s.server.disk;
    forall run | run in reloaded.runs
      ensures run.runId in disk && disk[run.runId] == RunToJson(run) && IsFinished(run)
    {
      ReloadedIsOnDisk(s, listing, reloaded, run);
    }
    forall name | name in disk
      ensures exists run | run in reloaded.runs :: run.runId == name && IsFinished(run)
    {
      FileIsReloaded(s, listing, reloaded, name);
    }
    assert reloaded.saved == disk.Keys;
  }

  // ----- every step -----

  lemma OtherStepKeepsServer(s: System, s': System)
    requires ServerOk(s)
    requires s'.server == s.server && s'.log.issued == s.log.issued && s'.log.clean == s.log.clean
    requires s.results <= s'.results
    ensures ServerOk(s')
  {
    RunsOkGrows(s.server, s.log.issued, s.results, s'.log.issued, s'.results);
  }

  lemma StepKeepsServer(s: System, a: Action)
    requires ServerOk(s) && Enabled(s, a)
    ensures ServerOk(Do(s, a))
  {
    match a
    case StartRun(request, fleet, failing) => StartKeepsServer(s, request, fleet, failing);
    case DeliverCommand(_) => OtherStepKeepsServer(s, Do(s, a));
    case EndScript(_, _) => OtherStepKeepsServer(s, Do(s, a));
    case PublishOutcome(_) => OtherStepKeepsServer(s, Do(s, a));
    case RestartClient(_, _, _) => OtherStepKeepsServer(s, Do(s, a));
    case DeliverResult(result, failing) => ResultKeepsServer(s, result, failing);
    case DeadlineFires(runId, failing) => DeadlineKeepsServer(s, runId, failing);
    case DeleteRun(runId, failing) => DeleteKeepsServer(s, runId, failing);
    case DeleteRunsBefore(cutoff, failing) => DeleteBeforeKeepsServer(s, cutoff, failing);
    case RestartServer(listing, reloaded) => ReloadKeepsServer(s, listing, reloaded);
  }
}
