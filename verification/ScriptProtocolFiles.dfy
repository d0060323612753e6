/** Every step keeps what is said of the files, whatever fails (see RecordOk in ScriptProtocol). */
module ScriptProtocolFiles {
  import opened Base
  import opened Json
  import opened ScriptRuns
  import opened RunStore
  import opened Sequences
  import opened ServerController
  import opened ScriptProtocol
  import Record = ScriptProtocolServer
  import Fleet

  type Unwritten = set<(string, HostId)>

  /** What is said of one run speaks only of its own file and its own targets. */
  lemma OthersStayWritten(run: ScriptRun, saved: set<string>, disk: map<string, Json>, unwritten: Unwritten,
                          saved': set<string>, disk': map<string, Json>, unwritten': Unwritten)
    requires RunWritten(run, saved, disk, unwritten)
    requires run.runId in saved <==> run.runId in saved'
    requires run.runId in disk <==> run.runId in disk'
    requires run.runId in disk ==> disk'[run.runId] == disk[run.runId]
    requires forall h :: (run.runId, h) in unwritten <==> (run.runId, h) in unwritten'
    ensures RunWritten(run, saved', disk', unwritten')
  {
    if run.runId in disk {
      var file := RunFromJson(disk[run.runId]).value;
      forall i | 0 <= i < |run.targets|
        ensures TargetFits(run.targets[i], file.targets[i], (run.runId, run.targets[i].hostId) in unwritten')
      {
        assert TargetFits(run.targets[i], file.targets[i], (run.runId, run.targets[i].hostId) in unwritten);
      }
    }
  }

  lemma JustWritten(run: ScriptRun, saved: set<string>, disk: map<string, Json>, unwritten: Unwritten)
    requires IsFinished(run) && run.runId in saved && run.runId in disk
    requires RunFromJson(disk[run.runId]) == Success(Truncated(run))
    requires forall h :: (run.runId, h) !in unwritten
    ensures RunWritten(run, saved, disk, unwritten)
  {
    assert Truncated(run) == Truncated(run).(targets := run.targets);
  }

  lemma WrittenWholeSeconds(run: ScriptRun, disk: map<string, Json>)
    requires WholeSeconds(disk) && RunFromJson(RunToJson(run)) == Success(Truncated(run))
    ensures WholeSeconds(disk[run.runId := RunToJson(run)])
  {
    TruncatedEncodesAlike(run);
  }

  /** Recording run i, which a step has changed: `changed` marks the changed targets. */
  lemma PersistKeepsRecord(sv: Server, i: nat, failing: set<string>, unwritten: Unwritten, changed: Unwritten,
                           issued: map<string, Issue>, results: set<ScriptResult>)
    requires i < |sv.runs| && DistinctRuns(sv.runs) && RunOk(sv.runs[i], issued, results)
    requires forall mark | mark in changed :: mark.0 == sv.runs[i].runId
    requires forall j | 0 <= j < |sv.runs| && j != i :: RunWritten(sv.runs[j], sv.saved, sv.disk, unwritten)
    requires RunWritten(sv.runs[i], sv.saved, sv.disk, unwritten + changed)
    requires sv.saved <= sv.disk.Keys && WholeSeconds(sv.disk)
    ensures var sv', unwritten' := Persisted(sv, i, failing), NowUnwritten(unwritten, sv.runs[i], changed, failing);
      && (forall run | run in sv'.runs :: RunWritten(run, sv'.saved, sv'.disk, unwritten'))
      && sv'.saved <= sv'.disk.Keys && WholeSeconds(sv'.disk)
  {
    var run := sv.runs[i];
    var sv', unwritten' := Persisted(sv, i, failing), NowUnwritten(unwritten, run, changed, failing);
    Record.RecordReadsBack(run, issued, results);
    if Saves(run, failing) {
      WrittenWholeSeconds(run, sv.disk);
      JustWritten(run, sv'.saved, sv'.disk, unwritten');
    }
    forall r | r in sv'.runs
      ensures RunWritten(r, sv'.saved, sv'.disk, unwritten')
    {
      var j :| 0 <= j < |sv.runs| && sv.runs[j] == r;
      if j != i {
        OthersStayWritten(r, sv.saved, sv.disk, unwritten, sv'.saved, sv'.disk, unwritten');
      }
    }
  }

  // ----- starting -----

  lemma NoFileYet(s: System, runId: string)
    requires ServerOk(s) && RecordOk(s) && runId !in s.log.issued
    ensures runId !in s.server.disk && runId !in s.server.saved
    ensures forall run | run in s.server.runs :: run.runId != runId
  {
    forall name | name in s.server.disk
      ensures name in s.log.issued
    {
      assert FileOk(s.server.disk, name, s.log.issued, s.results);
    }
    forall run | run in s.server.runs
      ensures run.runId != runId
    {
      assert RunOk(run, s.log.issued, s.results);
    }
  }

  lemma StartKeepsRecord(s: System, request: Request, fleet: seq<Fleet.FleetEntry>, failing: set<string>)
    requires ServerOk(s) && RecordOk(s) && Enabled(s, StartRun(request, fleet, failing))
    ensures RecordOk(Do(s, StartRun(request, fleet, failing)))
  {
    var run, sv := RunFor(request, fleet), s.server;
    var timers := if CountState(run.targets, Dispatched) > 0 then sv.timers + {run.runId} else sv.timers;
    var added := sv.(runs := sv.runs + [run], timers := timers);
    var marks, unwritten := Marks(run, run.targets), s.log.unwritten;
    NoFileYet(s, request.runId);
    Record.NewRunOk(request, fleet, s.log.issued, s.results);
    forall j | 0 <= j < |sv.runs|
      ensures RunWritten(added.runs[j], added.saved, added.disk, unwritten)
    {
      assert added.runs[j] == sv.runs[j] && sv.runs[j] in sv.runs;
    }
    NeverWritten(run, added.saved, added.disk, unwritten + marks);
    assert DistinctRuns(added.runs) by {
      assert forall j | 0 <= j < |sv.runs| :: sv.runs[j] in sv.runs;
    }
    PersistKeepsRecord(added, |sv.runs|, failing, unwritten, marks, s.log.issued[run.runId := IssueOf(run)], s.results);
  }

  lemma NeverWritten(run: ScriptRun, saved: set<string>, disk: map<string, Json>, unwritten: Unwritten)
    requires run.runId !in saved && run.runId !in disk && Marks(run, run.targets) <= unwritten
    ensures RunWritten(run, saved, disk, unwritten)
  {
    forall i | 0 <= i < |run.targets|
      ensures (run.runId, run.targets[i].hostId) in unwritten
    {
      assert run.targets[i] in run.targets;
    }
  }

  // ----- results -----

  /** A late answer is behind the file, where the target still has none. */
  lemma AnswerFits(run: ScriptRun, file: ScriptRun, t: nat, result: ScriptResult, unwritten: Unwritten)
    requires FileFits(run, file, unwritten) && IsFinished(run) && DistinctHosts(run.targets)
    requires t < |run.targets| && run.targets[t].hostId == result.hostId && MayAnswer(run.targets[t].state)
    ensures FileFits(ApplyResult(run, result), file, unwritten + {(run.runId, result.hostId)})
  {
    ResultMovesOneTarget(run, result, t);
    var run' := ApplyResult(run, result);
    forall i | 0 <= i < |run'.targets|
      ensures TargetFits(run'.targets[i], file.targets[i],
        (run'.runId, run'.targets[i].hostId) in unwritten + {(run.runId, result.hostId)})
    {
      assert TargetFits(run.targets[i], file.targets[i], (run.runId, run.targets[i].hostId) in unwritten);
      assert !Waiting(run.targets[i]);
    }
  }

  lemma AnswerKeepsWritten(run: ScriptRun, t: nat, result: ScriptResult, saved: set<string>, disk: map<string, Json>,
                           unwritten: Unwritten)
    requires RunWritten(run, saved, disk, unwritten) && DistinctHosts(run.targets)
    requires t < |run.targets| && run.targets[t].hostId == result.hostId && MayAnswer(run.targets[t].state)
    ensures RunWritten(ApplyResult(run, result), saved, disk, unwritten + {(run.runId, result.hostId)})
  {
    ResultMovesOneTarget(run, result, t);
    if run.runId in disk {
      AnswerFits(run, RunFromJson(disk[run.runId]).value, t, result, unwritten);
      assert forall i | 0 <= i < |run.targets| :: !Waiting(run.targets[i]);
    }
  }

  lemma ResultKeepsRecord(s: System, result: ScriptResult, failing: set<string>)
    requires ServerOk(s) && RecordOk(s) && result in s.results
    ensures RecordOk(Do(s, DeliverResult(result, failing)))
  {
    var sv := s.server;
    var r := FindRun(sv.runs, result.runId);
    if r < |sv.runs| {
      var run := sv.runs[r];
      var t := FindTarget(run.targets, result.hostId);
      if t < |run.targets| && MayAnswer(run.targets[t].state) {
        assert RunOk(run, s.log.issued, s.results);
        Record.AnswerOk(run, t, result, s.log.issued, s.results);
        AnswerKeepsWritten(run, t, result, sv.saved, sv.disk, s.log.unwritten);
        ChangedKeepsRecord(s, r, ApplyResult(run, result), {(result.runId, result.hostId)}, sv.timers, failing);
      }
    }
  }

  /** Run r becomes run' and is recorded. */
  lemma ChangedKeepsRecord(s: System, r: nat, run': ScriptRun, changed: Unwritten, timers: set<string>,
                           failing: set<string>)
    requires ServerOk(s) && RecordOk(s) && r < |s.server.runs|
    requires run'.runId == s.server.runs[r].runId && RunOk(run', s.log.issued, s.results)
    requires forall mark | mark in changed :: mark.0 == run'.runId
    requires RunWritten(run', s.server.saved, s.server.disk, s.log.unwritten + changed)
    ensures var sv' := Persisted(s.server.(runs := s.server.runs[r := run'], timers := timers), r, failing);
      var unwritten' := NowUnwritten(s.log.unwritten, run', changed, failing);
      && (forall run | run in sv'.runs :: RunWritten(run, sv'.saved, sv'.disk, unwritten'))
      && sv'.saved <= sv'.disk.Keys && WholeSeconds(sv'.disk)
  {
    var sv := s.server;
    var after := sv.(runs := sv.runs[r := run'], timers := timers);
    forall j | 0 <= j < |after.runs| && j != r
      ensures RunWritten(after.runs[j], after.saved, after.disk, s.log.unwritten)
    {
      assert after.runs[j] == sv.runs[j] && sv.runs[j] in sv.runs;
    }
    PersistKeepsRecord(after, r, failing, s.log.unwritten, changed, s.log.issued, s.results);
  }

  // ----- the deadline -----

  lemma DeadlineKeepsWritten(run: ScriptRun, changed: Unwritten, saved: set<string>, disk: map<string, Json>,
                             unwritten: Unwritten)
    requires RunWritten(run, saved, disk, unwritten) && CountState(run.targets, Dispatched) > 0
    ensures RunWritten(ApplyDeadline(run), saved, disk, unwritten + changed)
  {
    NoneCounted(run.targets, Dispatched);
    assert !IsFinished(run);
  }

  lemma DeadlineKeepsRecord(s: System, runId: string, failing: set<string>)
    requires ServerOk(s) && RecordOk(s) && Enabled(s, DeadlineFires(runId, failing))
    ensures RecordOk(Do(s, DeadlineFires(runId, failing)))
  {
    var sv := s.server;
    var r := FindRun(sv.runs, runId);
    if r < |sv.runs| && CountState(sv.runs[r].targets, Dispatched) > 0 {
      var run := sv.runs[r];
      var changed := set t | t in run.targets && t.state == Dispatched :: (runId, t.hostId);
      assert RunOk(run, s.log.issued, s.results);
      Record.DeadlineFinishes(run, s.log.issued, s.results);
      DeadlineKeepsWritten(run, changed, sv.saved, sv.disk, s.log.unwritten);
      ChangedKeepsRecord(s, r, ApplyDeadline(run), changed, sv.timers - {runId}, failing);
    }
  }

  // ----- deletion -----

  lemma DropKeepsRecord(s: System, sv': Server, keep: ScriptRun -> bool, gone: set<string>)
    requires RecordOk(s) && sv'.runs == Filter(keep, s.server.runs)
    requires forall run | run in s.server.runs && keep(run) :: run.runId !in gone
    requires sv'.saved == s.server.saved - gone
    requires s.server.disk - gone == sv'.disk - gone && sv'.disk.Keys <= s.server.disk.Keys
    requires forall name | name in sv'.disk :: sv'.disk[name] == s.server.disk[name]
    ensures forall run | run in sv'.runs :: RunWritten(run, sv'.saved, sv'.disk, s.log.unwritten)
    ensures sv'.saved <= sv'.disk.Keys && WholeSeconds(sv'.disk)
  {
    var sv := s.server;
    forall name | name !in gone
      ensures name in sv.disk <==> name in sv'.disk
    {
      assert name in sv.disk <==> name in sv.disk - gone;
      assert name in sv'.disk <==> name in sv'.disk - gone;
    }
    forall run | run in sv'.runs
      ensures RunWritten(run, sv'.saved, sv'.disk, s.log.unwritten)
    {
      FilterKeeps(keep, sv.runs, run);
      OthersStayWritten(run, sv.saved, sv.disk, s.log.unwritten, sv'.saved, sv'.disk, s.log.unwritten);
    }
  }

  lemma DeleteKeepsRecord(s: System, runId: string, failing: set<string>)
    requires ServerOk(s) && RecordOk(s)
    ensures RecordOk(Do(s, DeleteRun(runId, failing)))
  {
    DropKeepsRecord(s, Deleted(s.server, runId, failing), OtherThan(runId), {runId});
  }

  lemma DoomedFiles(sv: Server, cutoff: int64, failing: set<string>)
    ensures var sv', doomed := DeletedBefore(sv, cutoff, failing), DoomedIds(sv.runs, cutoff);
      && sv'.saved == sv.saved - doomed && sv.disk - doomed == sv'.disk - doomed && sv'.disk.Keys <= sv.disk.Keys
      && forall name | name in sv'.disk :: sv'.disk[name] == sv.disk[name]
  {
  }

  lemma DeleteBeforeKeepsRecord(s: System, cutoff: int64, failing: set<string>)
    requires ServerOk(s) && RecordOk(s)
    ensures RecordOk(Do(s, DeleteRunsBefore(cutoff, failing)))
  {
    Record.KeptExactly(s.server.runs, cutoff);
    DoomedFiles(s.server, cutoff, failing);
    DropKeepsRecord(s, DeletedBefore(s.server, cutoff, failing), IssuedSince(cutoff), DoomedIds(s.server.runs, cutoff));
  }

  // ----- restart -----

  /** After a restart every run is what its file holds. */
  lemma ReloadedIsItsFile(s: System, listing: Listing, reloaded: Server, run: ScriptRun)
    requires ServerOk(s) && IsReload(s.server.disk, listing, reloaded)
    ensures run in reloaded.runs <==>
      run.runId in s.server.disk && run.runId !in listing.unreadable
        && RunFromJson(s.server.disk[run.runId]) == Success(run)
  {
    var disk := s.server.disk;
    Record.ReloadedRun(disk, listing, reloaded, run);
    if run in reloaded.runs {
      var name :| name in disk && name !in listing.unreadable && RunFromJson(disk[name]) == Success(run);
      assert FileOk(disk, name, s.log.issued, s.results);
    }
  }

  lemma ReloadKeepsRecord(s: System, listing: Listing, reloaded: Server)
    requires ServerOk(s) && RecordOk(s) && IsReload(s.server.disk, listing, reloaded)
    ensures RecordOk(Do(s, RestartServer(listing, reloaded)))
  {
    var disk := s.server.disk;
    forall run | run in reloaded.runs
      ensures RunWritten(run, reloaded.saved, disk, {}) && run.runId in disk
    {
      ReloadedIsItsFile(s, listing, reloaded, run);
      assert FileOk(disk, run.runId, s.log.issued, s.results);
      assert Truncated(run) == run;
      JustWritten(run, reloaded.saved, disk, {});
    }
  }

  // ----- every step -----

  lemma StepKeepsRecord(s: System, a: Action)
    requires ServerOk(s) && RecordOk(s) && Enabled(s, a)
    ensures RecordOk(Do(s, a))
  {
    match a
    case StartRun(request, fleet, failing) => StartKeepsRecord(s, request, fleet, failing);
    case DeliverResult(result, failing) => ResultKeepsRecord(s, result, failing);
    case DeadlineFires(runId, failing) => DeadlineKeepsRecord(s, runId, failing);
    case DeleteRun(runId, failing) => DeleteKeepsRecord(s, runId, failing);
    case DeleteRunsBefore(cutoff, failing) => DeleteBeforeKeepsRecord(s, cutoff, failing);
    case RestartServer(listing, reloaded) => ReloadKeepsRecord(s, listing, reloaded);
    case _ =>
  }
}
