/** The server's script runs: starting one, taking results, the deadline, the record on disk and its
    deletion (apps/server/server_controller.cpp). Each operation is a function on the server's state;
    the class below performs it step by step and is proved to compute that function. */
module ServerController {
  import opened Base
  import opened Json
  import opened ScriptRuns
  import opened RunStore
  import opened Sequences
  import opened Sorting
  import Fleet

  /** disk is the runs directory, one file per run id; timers are the armed deadlines. */
  datatype Server = Server(
    runs: seq<ScriptRun>, saved: set<string>, disk: map<string, Json>, timers: set<string>)

  /** What an operator asks for, with the id drawn and the clock read while serving it. */
  datatype Request = Request(
    runId: string, scriptName: string, scriptBody: string, hosts: seq<HostId>,
    timeoutSeconds: uint32, now: int64)

  ghost predicate DistinctRuns(runs: seq<ScriptRun>) {
    forall i, j | 0 <= i < j < |runs| :: runs[i].runId != runs[j].runId
  }

  function FindRun(runs: seq<ScriptRun>, runId: string): (i: nat)
    ensures i <= |runs|
    ensures forall j | 0 <= j < i :: runs[j].runId != runId
    ensures i < |runs| ==> runs[i].runId == runId
  {
    if runs == [] || runs[0].runId == runId then 0 else 1 + FindRun(runs[1..], runId)
  }

  /** `failing` names the files whose save or delete fails during this step. */
  function Persisted(s: Server, i: nat, failing: set<string>): Server
    requires i < |s.runs|
  {
    var run := s.runs[i];
    if IsFinished(run) && IsSafeRunId(run.runId) && run.runId !in failing
    then s.(saved := s.saved + {run.runId}, disk := s.disk[run.runId := RunToJson(run)])
    else s
  }

  // ----- dispatch -----

  function EntryFor(fleet: seq<Fleet.FleetEntry>, hostId: HostId): Option<Fleet.FleetEntry> {
    if fleet == [] then None
    else if fleet[0].hostId == hostId then Some(fleet[0])
    else EntryFor(fleet[1..], hostId)
  }

  /** Why a host cannot be asked at all, if it cannot. */
  function RefusalFor(fleet: seq<Fleet.FleetEntry>, hostId: HostId): Option<string> {
    match EntryFor(fleet, hostId)
    case None => Some("host is not in the fleet")
    case Some(entry) =>
      if entry.state != Fleet.Online then Some("host is " + Fleet.StateText(entry.state) + ", not Online")
      else if Fleet.Scripts !in entry.caps then Some("not enrolled for script execution")
      else None
  }

  function DispatchedTarget(fleet: seq<Fleet.FleetEntry>, hostId: HostId): RunTarget {
    match RefusalFor(fleet, hostId)
    case Some(reason) => RunTarget(hostId, Refused, reason, None)
    case None => RunTarget(hostId, Dispatched, "", None)
  }

  /** First occurrences, in order. */
  function Unique(hosts: seq<HostId>): (r: seq<HostId>)
    ensures forall h :: h in r <==> h in hosts
    ensures forall i, j | 0 <= i < j < |r| :: r[i] != r[j]
  {
    if hosts == [] then []
    else
      var front, last := Unique(hosts[..|hosts| - 1]), hosts[|hosts| - 1];
      assert hosts == hosts[..|hosts| - 1] + [last];
      if last in front then front else front + [last]
  }

  function RunFor(request: Request, fleet: seq<Fleet.FleetEntry>): ScriptRun {
    var hosts := Unique(request.hosts);
    ScriptRun(request.runId, request.scriptName, request.scriptBody, request.now, request.timeoutSeconds,
      seq(|hosts|, i requires 0 <= i < |hosts| => DispatchedTarget(fleet, hosts[i])))
  }

  function CommandTo(run: ScriptRun, hostId: HostId): ScriptCommand {
    ScriptCommand(hostId, run.runId, run.scriptName, run.scriptBody, run.timeoutSeconds)
  }

  /** The commands a run publishes: one for each target it dispatched. */
  function CommandsOf(run: ScriptRun, targets: seq<RunTarget>): seq<ScriptCommand> {
    if targets == [] then []
    else
      var front, last := CommandsOf(run, targets[..|targets| - 1]), targets[|targets| - 1];
      if last.state == Dispatched then front + [CommandTo(run, last.hostId)] else front
  }

  /** Hosts are asked in the order in which they were first named. */
  lemma {:induction false} UniqueInOrder(hosts: seq<HostId>, i: nat, j: nat)
    requires i < j < |Unique(hosts)|
    ensures exists k | 0 <= k < |hosts| ::
      hosts[k] == Unique(hosts)[i] && forall m | 0 <= m <= k :: hosts[m] != Unique(hosts)[j]
  {
    var n := |hosts| - 1;
    var front := Unique(hosts[..n]);
    if j < |front| {
      UniqueInOrder(hosts[..n], i, j);
      var k :| 0 <= k < n && hosts[..n][k] == front[i] && forall m | 0 <= m <= k :: hosts[..n][m] != front[j];
      assert hosts[k] == front[i];
      assert forall m | 0 <= m <= k :: hosts[m] == hosts[..n][m];
    } else {
      assert front[i] in hosts[..n];
      var k :| 0 <= k < n && hosts[..n][k] == front[i];
      assert hosts[k] == front[i];
      forall m | 0 <= m <= k
        ensures hosts[m] != hosts[n]
      {
        assert hosts[m] == hosts[..n][m];
      }
    }
  }

  /** A new run has one target for each host named, sent to exactly when the fleet's first entry for it is
      online and enrolled for scripts, and otherwise refused on the spot. */
  lemma DispatchedExactlyWhen(request: Request, fleet: seq<Fleet.FleetEntry>, h: HostId)
    requires h in request.hosts
    ensures exists t | t in RunFor(request, fleet).targets :: t.hostId == h
    ensures forall t | t in RunFor(request, fleet).targets && t.hostId == h ::
      && t.result == None && (t.state == Dispatched || t.state == Refused)
      && (t.state == Dispatched <==>
            exists i | 0 <= i < |fleet| ::
              && fleet[i].hostId == h && fleet[i].state == Fleet.Online && Fleet.Scripts in fleet[i].caps
              && forall j | 0 <= j < i :: fleet[j].hostId != h)
  {
    var hosts := Unique(request.hosts);
    var k :| 0 <= k < |hosts| && hosts[k] == h;
    assert RunFor(request, fleet).targets[k].hostId == h;
    EntryIsFirst(fleet, h);
  }

  lemma {:induction false} EntryIsFirst(fleet: seq<Fleet.FleetEntry>, h: HostId)
    ensures forall i | 0 <= i < |fleet| && fleet[i].hostId == h && (forall j | 0 <= j < i :: fleet[j].hostId != h) ::
      EntryFor(fleet, h) == Some(fleet[i])
    ensures EntryFor(fleet, h).Some? ==>
      exists i | 0 <= i < |fleet| ::
        fleet[i].hostId == h && fleet[i] == EntryFor(fleet, h).value && forall j | 0 <= j < i :: fleet[j].hostId != h
  {
    if fleet != [] && fleet[0].hostId != h {
      EntryIsFirst(fleet[1..], h);
      forall i | 0 <= i < |fleet| && fleet[i].hostId == h && (forall j | 0 <= j < i :: fleet[j].hostId != h)
        ensures EntryFor(fleet, h) == Some(fleet[i])
      {
        assert fleet[1..][i - 1] == fleet[i];
        assert forall j | 0 <= j < i - 1 :: fleet[1..][j] == fleet[j + 1];
      }
      if EntryFor(fleet, h).Some? {
        var i :| 0 <= i < |fleet[1..]| && fleet[1..][i].hostId == h && fleet[1..][i] == EntryFor(fleet, h).value
          && forall j | 0 <= j < i :: fleet[1..][j].hostId != h;
        assert fleet[i + 1] == fleet[1..][i];
        assert forall j | 0 < j < i + 1 :: fleet[j] == fleet[1..][j - 1];
      }
    }
  }

  lemma {:induction false} CommandsReach(run: ScriptRun, targets: seq<RunTarget>, command: ScriptCommand)
    ensures command in CommandsOf(run, targets) <==>
      exists t | t in targets :: t.state == Dispatched && command == CommandTo(run, t.hostId)
  {
    if targets != [] {
      CommandsReach(run, targets[..|targets| - 1], command);
      assert targets == targets[..|targets| - 1] + [targets[|targets| - 1]];
    }
  }

  function Started(s: Server, request: Request, fleet: seq<Fleet.FleetEntry>, failing: set<string>): Server {
    var run := RunFor(request, fleet);
    var timers := if CountState(run.targets, Dispatched) > 0 then s.timers + {run.runId} else s.timers;
    Persisted(s.(runs := s.runs + [run], timers := timers), |s.runs|, failing)
  }

  // ----- results, deadline -----

  /** Only a host that was sent the script and has not answered may be moved by a result. */
  predicate MayAnswer(state: TargetState) {
    state == Dispatched || state == NoResponse
  }

  function ResultTaken(s: Server, result: ScriptResult, failing: set<string>): Server {
    var r := FindRun(s.runs, result.runId);
    if r == |s.runs| then s
    else
      var t := FindTarget(s.runs[r].targets, result.hostId);
      if t == |s.runs[r].targets| || !MayAnswer(s.runs[r].targets[t].state) then s
      else Persisted(s.(runs := s.runs[r := ApplyResult(s.runs[r], result)]), r, failing)
  }

  function DeadlinePassed(s: Server, runId: string, failing: set<string>): Server {
    var fired := s.(timers := s.timers - {runId});
    var r := FindRun(s.runs, runId);
    if r == |s.runs| || CountState(s.runs[r].targets, Dispatched) == 0 then fired
    else Persisted(fired.(runs := s.runs[r := ApplyDeadline(s.runs[r])]), r, failing)
  }

  // ----- deletion -----

  predicate CanDelete(disk: map<string, Json>, runId: string, failing: set<string>) {
    IsSafeRunId(runId) && runId in disk && runId !in failing
  }

  function OtherThan(runId: string): ScriptRun -> bool {
    (run: ScriptRun) => run.runId != runId
  }

  function IssuedSince(cutoff: int64): ScriptRun -> bool {
    (run: ScriptRun) => run.issuedAt >= cutoff
  }

  function Deleted(s: Server, runId: string, failing: set<string>): Server {
    s.(
      disk := if CanDelete(s.disk, runId, failing) then s.disk - {runId} else s.disk,
      runs := Filter(OtherThan(runId), s.runs),
      saved := s.saved - {runId})
  }

  function DoomedIds(runs: seq<ScriptRun>, cutoff: int64): set<string> {
    set run | run in runs && run.issuedAt < cutoff :: run.runId
  }

  function DeletedBefore(s: Server, cutoff: int64, failing: set<string>): Server {
    var doomed := DoomedIds(s.runs, cutoff);
    s.(
      disk := s.disk - (set id | id in doomed && CanDelete(s.disk, id, failing)),
      runs := Filter(IssuedSince(cutoff), s.runs),
      saved := s.saved - doomed)
  }

  // ----- restart -----

  predicate IssuedEarlier(a: ScriptRun, b: ScriptRun) {
    a.issuedAt < b.issuedAt
  }

  /** What load_runs finds in the directory; `unreadable` names the files that cannot be opened this time. */
  datatype Listing = Listing(names: seq<string>, unreadable: set<string>)

  /** The run of a file, unless it cannot be opened or does not parse. */
  function ReadRun(disk: map<string, Json>, name: string, unreadable: set<string>): Option<ScriptRun>
    requires name in disk
  {
    if name in unreadable then None
    else
      var read := RunFromJson(disk[name]);
      if read.Success? then Some(read.value) else None
  }

  /** The readable files, in listing order. */
  function LoadRuns(disk: map<string, Json>, names: seq<string>, unreadable: set<string>): seq<ScriptRun>
    requires forall name | name in names :: name in disk
  {
    if names == [] then []
    else
      var front := LoadRuns(disk, names[..|names| - 1], unreadable);
      var run := ReadRun(disk, names[|names| - 1], unreadable);
      if run.Some? then front + [run.value] else front
  }

  lemma {:induction false} LoadedRuns(disk: map<string, Json>, names: seq<string>, unreadable: set<string>,
                                      run: ScriptRun)
    requires forall name | name in names :: name in disk
    ensures run in LoadRuns(disk, names, unreadable) <==>
      exists name | name in names :: ReadRun(disk, name, unreadable) == Some(run)
  {
    if names != [] {
      LoadedRuns(disk, names[..|names| - 1], unreadable, run);
      assert names == names[..|names| - 1] + [names[|names| - 1]];
    }
  }

  /** names lists each file of the runs directory once. */
  ghost predicate IsListing(disk: map<string, Json>, names: seq<string>) {
    && (forall name :: name in names <==> name in disk)
    && (forall i, j | 0 <= i < j < |names| :: names[i] != names[j])
  }

  /** A new process: what load_config finds on disk, oldest first, no deadline armed. */
  ghost predicate IsReload(disk: map<string, Json>, listing: Listing, s: Server) {
    && IsListing(disk, listing.names)
    && multiset(s.runs) == multiset(LoadRuns(disk, listing.names, listing.unreadable))
    && Sorted(s.runs, IssuedEarlier)
    && s == Server(s.runs, set run | run in s.runs :: run.runId, disk, {})
  }

  class Controller {
    var runs: seq<ScriptRun>
    var saved: set<string>
    var disk: map<string, Json>
    var timers: set<string>
    /** Commands handed to the transport, in order. */
    var outbox: seq<ScriptCommand>

    ghost function State(): Server
      reads this
    {
      Server(runs, saved, disk, timers)
    }

    /** load_config on the runs directory. */
    constructor (disk: map<string, Json>, listing: Listing)
      requires IsListing(disk, listing.names)
      ensures IsReload(disk, listing, State()) && outbox == []
    {
      var names := listing.names;
      var loaded: seq<ScriptRun> := [];
      for i := 0 to |names|
        invariant loaded == LoadRuns(disk, names[..i], listing.unreadable)
      {
        assert names[..i + 1][..i] == names[..i];
        if names[i] !in listing.unreadable {
          var read := RunFromJson(disk[names[i]]);
          if read.Success? {
            loaded := loaded + [read.value];
          }
        }
      }
      assert names[..|names|] == names;
      var sorted := Sort(loaded, IssuedEarlier);
      runs := sorted;
      saved := set run | run in sorted :: run.runId;
      this.disk := disk;
      timers := {};
      outbox := [];
    }

    method LocateRun(runId: string) returns (i: nat)
      ensures i == FindRun(runs, runId)
    {
      i := 0;
      while i < |runs| && runs[i].runId != runId
        invariant i <= |runs|
        invariant FindRun(runs, runId) == i + FindRun(runs[i..], runId)
      {
        i := i + 1;
      }
    }

    method PersistRunIfFinished(i: nat, failing: set<string>)
      requires i < |runs|
      modifies this`saved, this`disk
      ensures State() == Persisted(old(State()), i, failing)
    {
      if IsFinished(runs[i]) {
        if IsSafeRunId(runs[i].runId) && runs[i].runId !in failing {
          var document := EncodeRun(runs[i]);
          disk := disk[runs[i].runId := document];
          saved := saved + {runs[i].runId};
        }
      }
    }

    /** Draws ids until one is unused. */
    method DrawRunId(draws: seq<string>) returns (runId: string)
      requires exists k | 0 <= k < |draws| :: FindRun(runs, draws[k]) == |runs|
      ensures runId in draws && FindRun(runs, runId) == |runs|
    {
      var d := 0;
      var found := LocateRun(draws[d]);
      while found < |runs|
        invariant 0 <= d < |draws| && found == FindRun(runs, draws[d])
        invariant exists k | d <= k < |draws| :: FindRun(runs, draws[k]) == |runs|
        decreases |draws| - d
      {
        d := d + 1;
        found := LocateRun(draws[d]);
      }
      runId := draws[d];
    }

    /** Refuses or sends to target i of the newest run. */
    method DispatchTarget(i: nat, fleet: seq<Fleet.FleetEntry>, ghost goal: ScriptRun, ghost pending: seq<RunTarget>)
      requires runs != [] && DistinctHosts(pending) && i < |pending|
      requires IsDispatchOf(goal.(targets := pending), goal, fleet)
      requires runs[|runs| - 1] == PartlyDispatched(goal, pending, i)
      modifies this`runs, this`outbox
      ensures runs == old(runs)[|old(runs)| - 1 := PartlyDispatched(goal, pending, i + 1)]
      ensures outbox == old(outbox) +
        if goal.targets[i].state == Dispatched then [CommandTo(goal, goal.targets[i].hostId)] else []
    {
      var last := |runs| - 1;
      DispatchStep(goal, pending, fleet, i);
      var run, sent := DispatchTo(runs[last], fleet, runs[last].targets[i].hostId);
      outbox := outbox + sent;
      runs := runs[last := run];
    }

    /** Refuses or sends to each target of the newest run. */
    method DispatchNewest(fleet: seq<Fleet.FleetEntry>, ghost goal: ScriptRun)
      requires runs != [] && DistinctHosts(runs[|runs| - 1].targets)
      requires IsDispatchOf(runs[|runs| - 1], goal, fleet)
      modifies this`runs, this`outbox
      ensures runs == old(runs)[|old(runs)| - 1 := goal]
      ensures outbox == old(outbox) + CommandsOf(goal, goal.targets)
    {
      var last := |runs| - 1;
      var n := |runs[last].targets|;
      ghost var was, pending := runs, runs[last].targets;
      NothingDispatched(goal, pending);
      for i := 0 to n
        invariant |pending| == |goal.targets| == n
        invariant runs == was[last := PartlyDispatched(goal, pending, i)]
        invariant outbox == old(outbox) + CommandsOf(goal, goal.targets[..i])
      {
        CommandStep(goal, i);
        DispatchTarget(i, fleet, goal, pending);
      }
      AllDispatched(goal, pending);
    }

    /** Stores the run before a single command goes out, and dispatches it. */
    method Launch(request: Request, fleet: seq<Fleet.FleetEntry>)
      modifies this`runs, this`outbox
      ensures runs == old(runs) + [RunFor(request, fleet)]
      ensures outbox == old(outbox) + CommandsOf(RunFor(request, fleet), RunFor(request, fleet).targets)
    {
      var targets := CollapseHosts(request.hosts);
      runs := runs + [
        ScriptRun(request.runId, request.scriptName, request.scriptBody, request.now, request.timeoutSeconds, targets)];
      IsDraftOf(request, fleet, targets);
      DispatchNewest(fleet, RunFor(request, fleet));
    }

    /** Launches the run under an unused id, arms its deadline when something was sent, and records it when
        nothing was. */
    method StartScriptRun(scriptName: string, scriptBody: string, hosts: seq<HostId>, timeoutSeconds: uint32,
                          now: int64, draws: seq<string>, fleet: seq<Fleet.FleetEntry>, failing: set<string>)
      returns (runId: string)
      requires exists k | 0 <= k < |draws| :: FindRun(runs, draws[k]) == |runs|
      modifies this
      ensures runId in draws && FindRun(old(runs), runId) == |old(runs)|
      ensures var request := Request(runId, scriptName, scriptBody, hosts, timeoutSeconds, now);
        && State() == Started(old(State()), request, fleet, failing)
        && outbox == old(outbox) + CommandsOf(RunFor(request, fleet), RunFor(request, fleet).targets)
    {
      runId := DrawRunId(draws);
      Launch(Request(runId, scriptName, scriptBody, hosts, timeoutSeconds, now), fleet);
      ArmDeadline(|runs| - 1);
      PersistRunIfFinished(|runs| - 1, failing);
    }

    /** A deadline is armed only when something was sent. */
    method ArmDeadline(i: nat)
      requires i < |runs|
      modifies this`timers
      ensures timers ==
        if CountState(runs[i].targets, Dispatched) > 0 then old(timers) + {runs[i].runId} else old(timers)
    {
      var tally := Tally(runs[i]);
      if tally.dispatched > 0 {
        timers := timers + {runs[i].runId};
      }
    }

    method OnScriptResult(result: ScriptResult, failing: set<string>)
      modifies this
      ensures State() == ResultTaken(old(State()), result, failing) && unchanged(`outbox)
    {
      var r := LocateRun(result.runId);
      if r == |runs| {
        return;
      }
      var t := LocateTarget(runs[r].targets, result.hostId);
      if t == |runs[r].targets| {
        return;
      }
      match runs[r].targets[t].state {
        case Dispatched =>
        case NoResponse =>
        case Pending => return;
        case Completed => return;
        case Failed => return;
        case Refused => return;
      }
      runs := runs[r := ApplyResult(runs[r], result)];
      PersistRunIfFinished(r, failing);
    }

    /** The single-shot timer of one run fires. */
    method OnRunDeadline(runId: string, failing: set<string>)
      modifies this
      ensures State() == DeadlinePassed(old(State()), runId, failing) && unchanged(`outbox)
    {
      timers := timers - {runId};
      var r := LocateRun(runId);
      if r == |runs| {
        return;
      }
      var tally := Tally(runs[r]);
      if tally.dispatched == 0 {
        return;
      }
      var expired := ExpireTargets(runs[r]);
      runs := runs[r := expired];
      PersistRunIfFinished(r, failing);
    }

    method DeleteScriptRun(runId: string, failing: set<string>) returns (removed: bool)
      modifies this
      ensures State() == Deleted(old(State()), runId, failing) && unchanged(`outbox)
      ensures removed == CanDelete(old(disk), runId, failing)
    {
      removed := CanDelete(disk, runId, failing);
      if removed {
        disk := disk - {runId};
      }
      runs := Erase(OtherThan(runId), runs);
      saved := saved - {runId};
    }

    method DeleteScriptRunsBefore(cutoff: int64, failing: set<string>)
      modifies this
      ensures State() == DeletedBefore(old(State()), cutoff, failing) && unchanged(`outbox)
    {
      var doomed: seq<string> := [];
      for i := 0 to |runs|
        invariant forall id :: id in doomed <==> id in DoomedIds(runs[..i], cutoff)
      {
        assert runs[..i + 1] == runs[..i] + [runs[i]];
        if runs[i].issuedAt < cutoff {
          doomed := doomed + [runs[i].runId];
        }
      }
      assert runs[..|runs|] == runs;
      for i := 0 to |doomed|
        invariant unchanged(`runs) && unchanged(`timers) && unchanged(`outbox)
        invariant disk == old(disk) - (set id | id in doomed[..i] && CanDelete(old(disk), id, failing))
        invariant saved == old(saved) - (set id | id in doomed[..i])
      {
        assert doomed[..i + 1] == doomed[..i] + [doomed[i]];
        if CanDelete(disk, doomed[i], failing) {
          disk := disk - {doomed[i]};
        }
        saved := saved - {doomed[i]};
      }
      assert doomed[..|doomed|] == doomed;
      runs := Erase(IssuedSince(cutoff), runs);
    }
  }

  /** goal is draft with every target refused or dispatched. */
  ghost predicate IsDispatchOf(draft: ScriptRun, goal: ScriptRun, fleet: seq<Fleet.FleetEntry>) {
    && goal == draft.(targets := goal.targets)
    && |goal.targets| == |draft.targets|
    && (forall i | 0 <= i < |draft.targets| ::
          && draft.targets[i] == RunTarget(draft.targets[i].hostId, Pending, "", None)
          && goal.targets[i] == DispatchedTarget(fleet, draft.targets[i].hostId))
  }

  lemma IsDraftOf(request: Request, fleet: seq<Fleet.FleetEntry>, targets: seq<RunTarget>)
    requires |targets| == |Unique(request.hosts)|
    requires forall i | 0 <= i < |targets| :: targets[i] == RunTarget(Unique(request.hosts)[i], Pending, "", None)
    ensures IsDispatchOf(
      ScriptRun(request.runId, request.scriptName, request.scriptBody, request.now, request.timeoutSeconds, targets),
      RunFor(request, fleet), fleet)
  {
  }

  method DispatchTo(run: ScriptRun, fleet: seq<Fleet.FleetEntry>, hostId: HostId)
    returns (after: ScriptRun, sent: seq<ScriptCommand>)
    ensures var refusal := RefusalFor(fleet, hostId);
      && after == (if refusal.Some? then RefuseAtDispatch(run, hostId, refusal.value) else MarkDispatched(run, hostId))
      && sent == if refusal.Some? then [] else [CommandTo(run, hostId)]
  {
    match RefusalFor(fleet, hostId) {
      case Some(reason) =>
        after, sent := RefuseAtDispatch(run, hostId, reason), [];
      case None =>
        sent := [CommandTo(run, hostId)];
        after := MarkDispatched(run, hostId);
    }
  }

  ghost function PartlyDispatched(goal: ScriptRun, pending: seq<RunTarget>, i: nat): ScriptRun
    requires i <= |pending| == |goal.targets|
  {
    goal.(targets := goal.targets[..i] + pending[i..])
  }

  lemma NothingDispatched(goal: ScriptRun, pending: seq<RunTarget>)
    requires |pending| == |goal.targets|
    ensures PartlyDispatched(goal, pending, 0) == goal.(targets := pending)
    ensures CommandsOf(goal, goal.targets[..0]) == []
  {
    assert goal.targets[..0] + pending[0..] == pending;
  }

  lemma AllDispatched(goal: ScriptRun, pending: seq<RunTarget>)
    requires |pending| == |goal.targets|
    ensures PartlyDispatched(goal, pending, |pending|) == goal
    ensures goal.targets[..|pending|] == goal.targets
  {
    assert goal.targets[..|pending|] + pending[|pending|..] == goal.targets;
  }

  lemma FindPending(goal: ScriptRun, pending: seq<RunTarget>, fleet: seq<Fleet.FleetEntry>, i: nat)
    requires IsDispatchOf(goal.(targets := pending), goal, fleet) && DistinctHosts(pending) && i < |pending|
    ensures FindTarget(PartlyDispatched(goal, pending, i).targets, pending[i].hostId) == i
    ensures PartlyDispatched(goal, pending, i).targets[i] == pending[i]
  {
    var mixed := goal.targets[..i] + pending[i..];
    assert mixed[i] == pending[i];
    forall j | 0 <= j < i
      ensures mixed[j].hostId != pending[i].hostId
    {
      assert goal.targets[j].hostId == pending[j].hostId;
    }
    assert FindTarget(mixed, pending[i].hostId) <= i;
  }

  lemma DispatchStep(goal: ScriptRun, pending: seq<RunTarget>, fleet: seq<Fleet.FleetEntry>, i: nat)
    requires IsDispatchOf(goal.(targets := pending), goal, fleet) && DistinctHosts(pending) && i < |pending|
    ensures var run, hostId := PartlyDispatched(goal, pending, i), pending[i].hostId;
      var refusal := RefusalFor(fleet, hostId);
      && run.targets[i].hostId == hostId == goal.targets[i].hostId
      && PartlyDispatched(goal, pending, i + 1) ==
         (if refusal.Some? then RefuseAtDispatch(run, hostId, refusal.value) else MarkDispatched(run, hostId))
      && (refusal.None? <==> goal.targets[i].state == Dispatched)
  {
    FindPending(goal, pending, fleet, i);
    assert (goal.targets[..i] + pending[i..])[i := goal.targets[i]] == goal.targets[..i + 1] + pending[i + 1..];
  }

  lemma CommandStep(goal: ScriptRun, i: nat)
    requires i < |goal.targets|
    ensures CommandsOf(goal, goal.targets[..i + 1]) == CommandsOf(goal, goal.targets[..i])
      + if goal.targets[i].state == Dispatched then [CommandTo(goal, goal.targets[i].hostId)] else []
  {
    assert goal.targets[..i + 1][..i] == goal.targets[..i];
  }

  /** The first target of each host, all pending. */
  method CollapseHosts(hosts: seq<HostId>) returns (targets: seq<RunTarget>)
    ensures |targets| == |Unique(hosts)| && DistinctHosts(targets)
    ensures forall i | 0 <= i < |targets| :: targets[i] == RunTarget(Unique(hosts)[i], Pending, "", None)
  {
    targets := [];
    for i := 0 to |hosts|
      invariant |targets| == |Unique(hosts[..i])|
      invariant forall j | 0 <= j < |targets| :: targets[j] == RunTarget(Unique(hosts[..i])[j], Pending, "", None)
    {
      assert hosts[..i + 1][..i] == hosts[..i];
      var t := LocateTarget(targets, hosts[i]);
      assert t < |targets| <==> hosts[i] in Unique(hosts[..i]);
      if t == |targets| {
        targets := targets + [RunTarget(hosts[i], Pending, "", None)];
      }
    }
    assert hosts[..|hosts|] == hosts;
  }
}
