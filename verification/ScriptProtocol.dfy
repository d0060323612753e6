/** Remote scripts end to end: one server, any number of clients with distinct host ids, a runs
    directory, and a network that may lose, duplicate and reorder messages but never forges one.
    A delivered message stays in the network, so it can be delivered again; nothing ever has to be
    delivered. Commands are Volatile (section 2.2.3.4 of OMG DDS 1.4): a client that restarts never
    receives one sent before. */
module ScriptProtocol {
  import opened Base
  import opened Json
  import opened ScriptRuns
  import opened RunStore
  import opened ServerController
  import opened MonitorWorker
  import Fleet

  datatype Issue = Issue(scriptName: string, scriptBody: string, timeoutSeconds: uint32, sentTo: set<HostId>)

  /** A script started on a host, in the client process numbered `epoch`. */
  datatype Start = Start(hostId: HostId, runId: string, scriptBody: string, epoch: nat)

  /** A script finished on a host. */
  datatype Report = Report(hostId: HostId, runId: string, outcome: ScriptOutcome)

  /** What has happened, for stating properties; no step reads it except the freshness of run ids.
      `clean` says that no file has failed to be saved, deleted or read; `unwritten` holds each target that has
      changed since its run was last written to its file. */
  datatype History = History(
    issued: map<string, Issue>, epochs: map<HostId, nat>, starts: seq<Start>, reports: set<Report>,
    deliveries: map<(HostId, string), nat>, clean: bool, unwritten: set<(string, HostId)>)

  datatype System = System(
    server: Server, clients: map<HostId, Client>, commands: set<ScriptCommand>,
    results: set<ScriptResult>, log: History)

  datatype Action =
    | StartRun(request: Request, fleet: seq<Fleet.FleetEntry>, failing: set<string>)
    | DeliverCommand(command: ScriptCommand)
    | EndScript(hostId: HostId, outcome: ScriptOutcome)
    | PublishOutcome(hostId: HostId)
    | RestartClient(hostId: HostId, allowScripts: bool, hasRunner: bool)
    | DeliverResult(result: ScriptResult, failing: set<string>)
    | DeadlineFires(runId: string, failing: set<string>)
    | DeleteRun(runId: string, failing: set<string>)
    | DeleteRunsBefore(cutoff: int64, failing: set<string>)
    | RestartServer(listing: Listing, reloaded: Server)

  ghost predicate Initial(s: System) {
    && s.server == Server([], {}, map[], {})
    && (forall h | h in s.clients :: s.clients[h] == FreshClient(s.clients[h].allowScripts, s.clients[h].hasRunner))
    && s.commands == {} && s.results == {}
    && s.log == History(map[], map h | h in s.clients :: 0, [], {}, map[], true, {})
  }

  ghost predicate Enabled(s: System, a: Action) {
    match a
    case StartRun(request, _, _) => request.runId !in s.log.issued && IsSafeRunId(request.runId)
    case DeliverCommand(command) => command in s.commands && command.hostId in s.clients
    case EndScript(h, _) => h in s.clients && s.clients[h].live != [] && s.clients[h].live[0].outcome.None?
    case PublishOutcome(h) => h in s.clients && s.clients[h].live != [] && s.clients[h].live[0].outcome.Some?
    case RestartClient(h, _, _) => h in s.clients && h in s.log.epochs
    case DeliverResult(result, _) => result in s.results
    case DeadlineFires(runId, _) => runId in s.server.timers
    case DeleteRun(_, _) => true
    case DeleteRunsBefore(_, _) => true
    case RestartServer(listing, reloaded) => IsReload(s.server.disk, listing, reloaded)
  }

  function Deliveries(log: History, h: HostId, runId: string): nat {
    if (h, runId) in log.deliveries then log.deliveries[(h, runId)] else 0
  }

  function IssueOf(run: ScriptRun): Issue {
    Issue(run.scriptName, run.scriptBody, run.timeoutSeconds,
      set t | t in run.targets && t.state == Dispatched :: t.hostId)
  }

  // ----- what has not reached the disk -----

  function Marks(run: ScriptRun, targets: seq<RunTarget>): set<(string, HostId)> {
    set t | t in targets :: (run.runId, t.hostId)
  }

  /** The run's save, attempted when it is finished, succeeds. */
  predicate Saves(run: ScriptRun, failing: set<string>) {
    IsFinished(run) && IsSafeRunId(run.runId) && run.runId !in failing
  }

  /** `changed` are the targets of `run` that a step changed. */
  function NowUnwritten(unwritten: set<(string, HostId)>, run: ScriptRun, changed: set<(string, HostId)>,
                        failing: set<string>):
    set<(string, HostId)>
  {
    if Saves(run, failing) then set mark | mark in unwritten && mark.0 != run.runId else unwritten + changed
  }

  function UnwrittenByResult(unwritten: set<(string, HostId)>, sv: Server, result: ScriptResult, failing: set<string>):
    set<(string, HostId)>
  {
    var r := FindRun(sv.runs, result.runId);
    if r == |sv.runs| then unwritten
    else
      var t := FindTarget(sv.runs[r].targets, result.hostId);
      if t == |sv.runs[r].targets| || !MayAnswer(sv.runs[r].targets[t].state) then unwritten
      else NowUnwritten(unwritten, ApplyResult(sv.runs[r], result), {(result.runId, result.hostId)}, failing)
  }

  function UnwrittenByDeadline(unwritten: set<(string, HostId)>, sv: Server, runId: string, failing: set<string>):
    set<(string, HostId)>
  {
    var r := FindRun(sv.runs, runId);
    if r == |sv.runs| || CountState(sv.runs[r].targets, Dispatched) == 0 then unwritten
    else
      var changed := set t | t in sv.runs[r].targets && t.state == Dispatched :: (runId, t.hostId);
      NowUnwritten(unwritten, ApplyDeadline(sv.runs[r]), changed, failing)
  }

  function SeqSet<T>(s: seq<T>): set<T> {
    set x | x in s
  }

  ghost function Do(s: System, a: Action): System
    requires Enabled(s, a)
  {
    match a
    case StartRun(request, fleet, failing) =>
      var run := RunFor(request, fleet);
      s.(
        server := Started(s.server, request, fleet, failing),
        commands := s.commands + SeqSet(CommandsOf(run, run.targets)),
        log := s.log.(
          issued := s.log.issued[run.runId := IssueOf(run)],
          clean := s.log.clean && failing == {},
          unwritten := NowUnwritten(s.log.unwritten, run, Marks(run, run.targets), failing)))
    case DeliverCommand(command) =>
      var h := command.hostId;
      var c := s.clients[h];
      var starts := if ReactionTo(c, h, command) == Starts && h in s.log.epochs
        then s.log.starts + [Start(h, command.runId, command.scriptBody, s.log.epochs[h])] else s.log.starts;
      s.(
        clients := s.clients[h := CommandTaken(c, h, command)],
        results := s.results + SeqSet(AnswersTo(c, h, command)),
        log := s.log.(
          starts := starts,
          deliveries := s.log.deliveries[(h, command.runId) := Deliveries(s.log, h, command.runId) + 1]))
    case EndScript(h, outcome) =>
      var c := s.clients[h];
      s.(clients := s.clients[h := c.(live := c.live[0 := c.live[0].(outcome := Some(outcome))])])
    case PublishOutcome(h) =>
      var c := s.clients[h];
      var done := c.live[0];
      s.(
        clients := s.clients[h := c.(running := false, live := c.live[1..])],
        results := s.results + {OutcomeResult(h, done.command.runId, done.outcome.value)},
        log := s.log.(reports := s.log.reports + {Report(h, done.command.runId, done.outcome.value)}))
    case RestartClient(h, allowScripts, hasRunner) =>
      s.(
        clients := s.clients[h := FreshClient(allowScripts, hasRunner)],
        commands := (set command | command in s.commands && command.hostId != h),
        log := s.log.(epochs := s.log.epochs[h := s.log.epochs[h] + 1]))
    case DeliverResult(result, failing) =>
      s.(
        server := ResultTaken(s.server, result, failing),
        log := s.log.(
          clean := s.log.clean && failing == {},
          unwritten := UnwrittenByResult(s.log.unwritten, s.server, result, failing)))
    case DeadlineFires(runId, failing) =>
      s.(
        server := DeadlinePassed(s.server, runId, failing),
        log := s.log.(
          clean := s.log.clean && failing == {},
          unwritten := UnwrittenByDeadline(s.log.unwritten, s.server, runId, failing)))
    case DeleteRun(runId, failing) =>
      s.(server := Deleted(s.server, runId, failing), log := s.log.(clean := s.log.clean && failing == {}))
    case DeleteRunsBefore(cutoff, failing) =>
      s.(server := DeletedBefore(s.server, cutoff, failing), log := s.log.(clean := s.log.clean && failing == {}))
    case RestartServer(listing, reloaded) =>
      s.(server := reloaded, log := s.log.(clean := s.log.clean && listing.unreadable == {}, unwritten := {}))
  }

  /** `actions` can be performed one after another from s. */
  ghost predicate Runs(s: System, actions: seq<Action>)
    decreases |actions|
  {
    actions == [] || (Enabled(s, actions[0]) && Runs(Do(s, actions[0]), actions[1..]))
  }

  ghost function After(s: System, actions: seq<Action>): System
    requires Runs(s, actions)
    decreases |actions|
  {
    if actions == [] then s else After(Do(s, actions[0]), actions[1..])
  }

  // ----- the invariant: clients and network -----

  ghost predicate Sent(issued: map<string, Issue>, c: ScriptCommand) {
    && c.runId in issued && c.hostId in issued[c.runId].sentTo
    && var issue := issued[c.runId];
       c == ScriptCommand(c.hostId, c.runId, issue.scriptName, issue.scriptBody, issue.timeoutSeconds)
  }

  ghost predicate CommandsOk(s: System) {
    forall c | c in s.commands :: Sent(s.log.issued, c)
  }

  /** A start is of a command that was sent, and is remembered by the process that made it; once that
      process is gone no copy of the command is left to deliver. */
  ghost predicate StartOk(st: Start, s: System) {
    && st.hostId in s.clients && st.hostId in s.log.epochs && st.epoch <= s.log.epochs[st.hostId]
    && st.runId in s.log.issued && st.hostId in s.log.issued[st.runId].sentTo
    && st.scriptBody == s.log.issued[st.runId].scriptBody
    && (st.epoch == s.log.epochs[st.hostId] ==> st.runId in s.clients[st.hostId].executed)
    && (st.epoch < s.log.epochs[st.hostId] ==>
          forall c | c in s.commands :: !(c.hostId == st.hostId && c.runId == st.runId))
  }

  ghost predicate StartedOnce(starts: seq<Start>) {
    forall i, j | 0 <= i < j < |starts| :: starts[i].hostId != starts[j].hostId || starts[i].runId != starts[j].runId
  }

  ghost predicate StartsOk(s: System) {
    (forall st | st in s.log.starts :: StartOk(st, s)) && StartedOnce(s.log.starts)
  }

  /** Running means exactly one live script, and `executed` remembers exactly what this process started. */
  ghost predicate ClientOk(h: HostId, c: Client, epoch: nat, starts: seq<Start>, issued: map<string, Issue>) {
    && (c.running <==> c.live != []) && |c.live| <= 1
    && (c.live != [] ==>
          && c.live[0].command.hostId == h && c.live[0].command.runId in issued
          && Start(h, c.live[0].command.runId, issued[c.live[0].command.runId].scriptBody, epoch) in starts)
    && (forall id | id in c.executed :: id in issued && Start(h, id, issued[id].scriptBody, epoch) in starts)
  }

  ghost predicate ClientsOk(s: System) {
    && s.clients.Keys == s.log.epochs.Keys
    && forall h | h in s.clients :: ClientOk(h, s.clients[h], s.log.epochs[h], s.log.starts, s.log.issued)
  }

  ghost predicate WasStarted(starts: seq<Start>, h: HostId, runId: string) {
    exists st | st in starts :: st.hostId == h && st.runId == runId
  }

  ghost predicate Backed(r: ScriptResult, reports: set<Report>) {
    exists p | p in reports :: r == OutcomeResult(p.hostId, p.runId, p.outcome)
  }

  ghost predicate ResultOk(r: ScriptResult, log: History) {
    && r.runId in log.issued && r.hostId in log.issued[r.runId].sentTo
    && (r.status != StatusRefused ==> Backed(r, log.reports))
  }

  ghost predicate ResultsOk(s: System) {
    && (forall r | r in s.results :: ResultOk(r, s.log))
    && (forall p | p in s.log.reports :: WasStarted(s.log.starts, p.hostId, p.runId))
  }

  /** A host reports at most one outcome of a run, and none of the script that is still live. */
  ghost predicate ReportsOk(s: System) {
    && (forall p, q | p in s.log.reports && q in s.log.reports && p.hostId == q.hostId && p.runId == q.runId :: p == q)
    && (forall h, p | h in s.clients && s.clients[h].live != [] && p in s.log.reports ::
          p.hostId != h || p.runId != s.clients[h].live[0].command.runId)
  }

  /** A run that is both refused by a host and started there was delivered there twice. */
  ghost predicate DeliveriesOk(s: System) {
    && (forall st | st in s.log.starts :: Deliveries(s.log, st.hostId, st.runId) >= 1)
    && (forall r | r in s.results && r.status == StatusRefused ::
          && Deliveries(s.log, r.hostId, r.runId) >= 1
          && (WasStarted(s.log.starts, r.hostId, r.runId) ==> Deliveries(s.log, r.hostId, r.runId) >= 2))
  }

  ghost predicate NetworkOk(s: System) {
    CommandsOk(s) && StartsOk(s) && ClientsOk(s) && ResultsOk(s) && DeliveriesOk(s)
  }

  // ----- the invariant: the server's record -----

  ghost predicate TargetOk(t: RunTarget, runId: string, sentTo: set<HostId>, results: set<ScriptResult>) {
    && t.state != Pending
    && (t.result.None? ==> t.state == Refused || t.state == Dispatched || t.state == NoResponse)
    && (t.result.None? && t.state == Refused ==> t.hostId !in sentTo)
    && (t.state == Dispatched || t.state == NoResponse ==> t.result.None? && t.hostId in sentTo)
    && (t.result.Some? ==>
          && t.result.value in results
          && t.result.value.hostId == t.hostId && t.result.value.runId == runId
          && t.state == StateFor(t.result.value.status))
  }

  ghost predicate RunOk(run: ScriptRun, issued: map<string, Issue>, results: set<ScriptResult>) {
    && IsSafeRunId(run.runId) && run.runId in issued
    && run.scriptName == issued[run.runId].scriptName && run.scriptBody == issued[run.runId].scriptBody
    && run.timeoutSeconds == issued[run.runId].timeoutSeconds
    && DistinctHosts(run.targets)
    && forall i | 0 <= i < |run.targets| :: TargetOk(run.targets[i], run.runId, issued[run.runId].sentTo, results)
  }

  ghost predicate FileOk(disk: map<string, Json>, name: string, issued: map<string, Issue>, results: set<ScriptResult>)
    requires name in disk
  {
    var read := RunFromJson(disk[name]);
    read.Success? && read.value.runId == name && IsFinished(read.value) && RunOk(read.value, issued, results)
  }

  ghost predicate RunsOk(sv: Server, issued: map<string, Issue>, results: set<ScriptResult>) {
    && (forall run | run in sv.runs :: RunOk(run, issued, results))
    && (forall name | name in sv.disk :: FileOk(sv.disk, name, issued, results))
    && DistinctRuns(sv.runs)
    && (forall run | run in sv.runs && !IsFinished(run) :: run.runId in sv.timers)
  }

  /** The runs directory holds exactly the finished runs, in their current form. */
  ghost predicate DiskMirrors(sv: Server) {
    && (forall run | run in sv.runs && IsFinished(run) :: run.runId in sv.disk && sv.disk[run.runId] == RunToJson(run))
    && (forall name | name in sv.disk :: exists run | run in sv.runs :: run.runId == name && IsFinished(run))
    && sv.saved == sv.disk.Keys
  }

  ghost predicate ServerOk(s: System) {
    && RunsOk(s.server, s.log.issued, s.results)
    && (s.log.clean ==> DiskMirrors(s.server))
  }

  // ----- the invariant: what the files hold, whatever failed -----

  /** A target not written since it changed is answered in memory and unanswered in the file; any other is
      in the file as it is in memory. */
  ghost predicate TargetFits(t: RunTarget, written: RunTarget, behind: bool) {
    if behind then written.state == NoResponse && t.hostId == written.hostId && t.result.Some? && !MayAnswer(t.state)
    else written == t
  }

  ghost predicate FileFits(run: ScriptRun, file: ScriptRun, unwritten: set<(string, HostId)>) {
    && file == Truncated(run).(targets := file.targets) && |file.targets| == |run.targets|
    && forall i | 0 <= i < |run.targets| ::
         TargetFits(run.targets[i], file.targets[i], (run.runId, run.targets[i].hostId) in unwritten)
  }

  /** The server counts a run as saved exactly when it has a file; without one all of it is unwritten. */
  ghost predicate RunWritten(run: ScriptRun, saved: set<string>, disk: map<string, Json>,
                             unwritten: set<(string, HostId)>) {
    && (run.runId in saved <==> run.runId in disk)
    && (if run.runId !in disk then forall i | 0 <= i < |run.targets| :: (run.runId, run.targets[i].hostId) in unwritten
        else
          var read := RunFromJson(disk[run.runId]);
          IsFinished(run) && read.Success? && FileFits(run, read.value, unwritten))
  }

  ghost predicate WholeSeconds(disk: map<string, Json>) {
    forall name | name in disk && RunFromJson(disk[name]).Success? ::
      Truncated(RunFromJson(disk[name]).value) == RunFromJson(disk[name]).value
  }

  ghost predicate RecordOk(s: System) {
    && (forall run | run in s.server.runs :: RunWritten(run, s.server.saved, s.server.disk, s.log.unwritten))
    && s.server.saved <= s.server.disk.Keys
    && WholeSeconds(s.server.disk)
  }

  ghost predicate Invariant(s: System) {
    NetworkOk(s) && ReportsOk(s) && ServerOk(s) && RecordOk(s)
  }
}
