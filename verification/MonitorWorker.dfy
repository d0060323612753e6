/** How a client takes script commands (apps/client/monitor_worker.cpp): at most one script at a time,
    a run id at most once per process, every refusal answered. */
module MonitorWorker {
  import opened Base
  import opened ScriptRuns

  /** A script on its thread; the outcome is there once the runner has returned and the result still
      waits to be published on the worker thread. */
  datatype Live = Live(command: ScriptCommand, outcome: Option<ScriptOutcome>)

  datatype Client = Client(
    allowScripts: bool, hasRunner: bool, executed: set<string>, running: bool, live: seq<Live>)

  function FreshClient(allowScripts: bool, hasRunner: bool): Client {
    Client(allowScripts, hasRunner, {}, false, [])
  }

  const NOT_ENROLLED := "this machine is not enrolled for script execution (--allow-scripts)"
  const NO_RUNNER := "this platform has no script runner"
  const BUSY := "another script is already running on this machine"

  function Refusal(hostId: HostId, command: ScriptCommand, reason: string): ScriptResult {
    ScriptResult(hostId, command.runId, StatusRefused, reason, 0, false, false, "", "", "", 0)
  }

  /** The result published for a finished script: the outcome's own verdict and fields. */
  function OutcomeResult(hostId: HostId, runId: string, outcome: ScriptOutcome): ScriptResult {
    ScriptResult(hostId, runId, OutcomeStatus(outcome), "", outcome.exitCode, outcome.reported.Some?,
      outcome.reported.Some? && outcome.reported.value.ok,
      if outcome.reported.Some? then outcome.reported.value.message else "",
      outcome.stdoutText, outcome.stderrText, outcome.durationMs)
  }

  datatype Reaction = Ignores | Refuses(reason: string) | Starts

  function ReactionTo(c: Client, hostId: HostId, command: ScriptCommand): Reaction {
    if command.hostId != hostId then Ignores
    else if !c.allowScripts then Refuses(NOT_ENROLLED)
    else if !c.hasRunner then Refuses(NO_RUNNER)
    else if command.runId in c.executed then Ignores
    else if c.running then Refuses(BUSY)
    else Starts
  }

  function CommandTaken(c: Client, hostId: HostId, command: ScriptCommand): Client {
    if ReactionTo(c, hostId, command) != Starts then c
    else c.(executed := c.executed + {command.runId}, running := true, live := c.live + [Live(command, None)])
  }

  function AnswersTo(c: Client, hostId: HostId, command: ScriptCommand): seq<ScriptResult> {
    match ReactionTo(c, hostId, command)
    case Refuses(reason) => [Refusal(hostId, command, reason)]
    case _ => []
  }

  class Worker {
    const hostId: HostId
    const allowScripts: bool
    const hasRunner: bool
    var executed: set<string>
    var running: bool
    var live: seq<Live>
    /** Results handed to the transport, in order. */
    var outbox: seq<ScriptResult>

    ghost function State(): Client
      reads this
    {
      Client(allowScripts, hasRunner, executed, running, live)
    }

    constructor (hostId: HostId, allowScripts: bool, hasRunner: bool)
      ensures State() == FreshClient(allowScripts, hasRunner) && outbox == [] && this.hostId == hostId
    {
      this.hostId, this.allowScripts, this.hasRunner := hostId, allowScripts, hasRunner;
      executed, running, live, outbox := {}, false, [], [];
    }

    method RefuseScript(command: ScriptCommand, reason: string)
      modifies this`outbox
      ensures outbox == old(outbox) + [Refusal(hostId, command, reason)]
    {
      outbox := outbox + [ScriptResult(hostId, command.runId, StatusRefused, reason, 0, false, false, "", "", "", 0)];
    }

    method OnScriptCommand(command: ScriptCommand)
      modifies this
      ensures State() == CommandTaken(old(State()), hostId, command)
      ensures outbox == old(outbox) + AnswersTo(old(State()), hostId, command)
    {
      if command.hostId != hostId {
        return;
      }
      if !allowScripts {
        RefuseScript(command, NOT_ENROLLED);
        return;
      }
      if !hasRunner {
        RefuseScript(command, NO_RUNNER);
        return;
      }
      if command.runId in executed {
        return;
      }
      executed := executed + {command.runId};
      var wasRunning := running;
      running := true;
      if wasRunning {
        executed := executed - {command.runId};
        RefuseScript(command, BUSY);
        return;
      }
      live := live + [Live(command, None)];
    }

    /** The runner returns on the script's thread. */
    method ScriptEnds(outcome: ScriptOutcome)
      requires live != []
      modifies this`live
      ensures live == old(live)[0 := old(live)[0].(outcome := Some(outcome))]
    {
      live := live[0 := live[0].(outcome := Some(outcome))];
    }

    /** The queued completion on the worker thread: publish, then stop being busy. */
    method FinishScript()
      requires live != [] && live[0].outcome.Some?
      modifies this
      ensures State() == old(State()).(running := false, live := old(live)[1..])
      ensures outbox == old(outbox)
        + [OutcomeResult(hostId, old(live)[0].command.runId, old(live)[0].outcome.value)]
    {
      var outcome := live[0].outcome.value;
      var message := ScriptResult(hostId, live[0].command.runId, OutcomeStatus(outcome), "", outcome.exitCode,
        outcome.reported.Some?, false, "", outcome.stdoutText, outcome.stderrText, outcome.durationMs);
      if outcome.reported.Some? {
        message := message.(reportedOk := outcome.reported.value.ok, reportedMessage := outcome.reported.value.message);
      }
      outbox := outbox + [message];
      running := false;
      live := live[1..];
    }
  }
}
