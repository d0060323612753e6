/** One dispatch of a script and what each targeted host made of it
    (apps/server/script_run.cpp, with the outcome verdict of libs/core/src/script.cpp). */
module ScriptRuns {
  import opened Base
  import opened Json

  datatype ScriptStatus = StatusCompleted | StatusFailed | StatusRefused | StatusError

  datatype ReportedResult = ReportedResult(ok: bool, message: string)

  /** One execution, as the client observed it. */
  datatype ScriptOutcome = ScriptOutcome(
    exitCode: int32, reported: Option<ReportedResult>, stdoutText: string, stderrText: string,
    durationMs: uint64, timedOut: bool, started: bool)

  /** The one verdict on an execution. */
  function OutcomeStatus(outcome: ScriptOutcome): ScriptStatus {
    if !outcome.started || outcome.timedOut then StatusError
    else if outcome.exitCode != 0 then StatusFailed
    else if outcome.reported.Some? && !outcome.reported.value.ok then StatusFailed
    else StatusCompleted
  }

  datatype ScriptCommand = ScriptCommand(
    hostId: HostId, runId: string, scriptName: string, scriptBody: string, timeoutSeconds: uint32)

  datatype ScriptResult = ScriptResult(
    hostId: HostId, runId: string, status: ScriptStatus, refusalReason: string, exitCode: int32,
    hasReported: bool, reportedOk: bool, reportedMessage: string, stdoutText: string,
    stderrText: string, durationMs: uint64)

  datatype TargetState = Pending | Dispatched | Completed | Failed | Refused | NoResponse

  datatype RunTarget = RunTarget(
    hostId: HostId, state: TargetState, detail: string, result: Option<ScriptResult>)

  /** issuedAt counts clock ticks since the epoch. */
  datatype ScriptRun = ScriptRun(
    runId: string, scriptName: string, scriptBody: string, issuedAt: int64, timeoutSeconds: uint32,
    targets: seq<RunTarget>)

  function StateFor(status: ScriptStatus): TargetState {
    match status
    case StatusCompleted => Completed
    case StatusFailed => Failed
    case StatusRefused => Refused
    case StatusError => Failed
  }

  // ----- targets are looked up by host id, first match -----

  function FindTarget(targets: seq<RunTarget>, hostId: HostId): (i: nat)
    ensures i <= |targets|
    ensures forall j | 0 <= j < i :: targets[j].hostId != hostId
    ensures i < |targets| ==> targets[i].hostId == hostId
  {
    if targets == [] || targets[0].hostId == hostId then 0
    else 1 + FindTarget(targets[1..], hostId)
  }

  /** The loop behind std::find_if in find_target. */
  method LocateTarget(targets: seq<RunTarget>, hostId: HostId) returns (i: nat)
    ensures i == FindTarget(targets, hostId)
  {
    i := 0;
    while i < |targets| && targets[i].hostId != hostId
      invariant i <= |targets|
      invariant FindTarget(targets, hostId) == i + FindTarget(targets[i..], hostId)
    {
      i := i + 1;
    }
  }

  ghost predicate DistinctHosts(targets: seq<RunTarget>) {
    forall i, j | 0 <= i < j < |targets| :: targets[i].hostId != targets[j].hostId
  }

  function MarkDispatched(run: ScriptRun, hostId: HostId): ScriptRun {
    var i := FindTarget(run.targets, hostId);
    if i == |run.targets| then run
    else run.(targets := run.targets[i := run.targets[i].(state := Dispatched)])
  }

  function RefuseAtDispatch(run: ScriptRun, hostId: HostId, reason: string): ScriptRun {
    var i := FindTarget(run.targets, hostId);
    if i == |run.targets| then run
    else run.(targets := run.targets[i := run.targets[i].(state := Refused, detail := reason)])
  }

  function Answered(target: RunTarget, result: ScriptResult): RunTarget {
    target.(
      state := StateFor(result.status),
      detail := if result.status == StatusRefused then result.refusalReason else target.detail,
      result := Some(result))
  }

  function ApplyResult(run: ScriptRun, result: ScriptResult): ScriptRun {
    var i := FindTarget(run.targets, result.hostId);
    if i == |run.targets| then run
    else run.(targets := run.targets[i := Answered(run.targets[i], result)])
  }

  function Expired(target: RunTarget): RunTarget {
    if target.state == Dispatched then target.(state := NoResponse) else target
  }

  /** A deadline moves exactly the targets still waiting. */
  ghost predicate DeadlineApplied(before: ScriptRun, after: ScriptRun) {
    && after == before.(targets := after.targets)
    && |after.targets| == |before.targets|
    && forall i | 0 <= i < |before.targets| :: after.targets[i] == Expired(before.targets[i])
  }

  function ApplyDeadline(run: ScriptRun): (after: ScriptRun)
    ensures DeadlineApplied(run, after)
  {
    run.(targets := seq(|run.targets|, i requires 0 <= i < |run.targets| => Expired(run.targets[i])))
  }

  method ExpireTargets(run: ScriptRun) returns (after: ScriptRun)
    ensures after == ApplyDeadline(run)
  {
    after := run;
    for i := 0 to |run.targets|
      invariant after == run.(targets := after.targets) && |after.targets| == |run.targets|
      invariant forall j | 0 <= j < i :: after.targets[j] == Expired(run.targets[j])
      invariant forall j | i <= j < |run.targets| :: after.targets[j] == run.targets[j]
    {
      if after.targets[i].state == Dispatched {
        after := after.(targets := after.targets[i := after.targets[i].(state := NoResponse)]);
      }
    }
    assert after.targets == ApplyDeadline(run).targets;
  }

  // ----- tally -----

  datatype RunTally = RunTally(
    pending: nat, dispatched: nat, completed: nat, failed: nat, refused: nat, noResponse: nat)

  function CountState(targets: seq<RunTarget>, state: TargetState): nat {
    if targets == [] then 0
    else (if targets[|targets| - 1].state == state then 1 else 0) + CountState(targets[..|targets| - 1], state)
  }

  function TallyOf(targets: seq<RunTarget>): RunTally {
    RunTally(
      CountState(targets, Pending), CountState(targets, Dispatched), CountState(targets, Completed),
      CountState(targets, Failed), CountState(targets, Refused), CountState(targets, NoResponse))
  }

  function Bump(tally: RunTally, state: TargetState): RunTally {
    match state
    case Pending => tally.(pending := tally.pending + 1)
    case Dispatched => tally.(dispatched := tally.dispatched + 1)
    case Completed => tally.(completed := tally.completed + 1)
    case Failed => tally.(failed := tally.failed + 1)
    case Refused => tally.(refused := tally.refused + 1)
    case NoResponse => tally.(noResponse := tally.noResponse + 1)
  }

  function Total(tally: RunTally): nat {
    tally.pending + tally.dispatched + tally.completed + tally.failed + tally.refused + tally.noResponse
  }

  /** The switch inside tally(). */
  method Tally(run: ScriptRun) returns (tally: RunTally)
    ensures tally == TallyOf(run.targets)
  {
    tally := RunTally(0, 0, 0, 0, 0, 0);
    for i := 0 to |run.targets|
      invariant tally == TallyOf(run.targets[..i])
    {
      assert run.targets[..i + 1][..i] == run.targets[..i];
      tally := Bump(tally, run.targets[i].state);
    }
    assert run.targets[..|run.targets|] == run.targets;
  }

  /** Every target is counted once, and a run is finished exactly when nothing is pending or dispatched. */
  lemma {:induction false} TallySums(targets: seq<RunTarget>)
    ensures Total(TallyOf(targets)) == |targets|
    ensures (forall i | 0 <= i < |targets| :: !Waiting(targets[i]))
      <==> TallyOf(targets).pending == 0 && TallyOf(targets).dispatched == 0
  {
    if targets != [] {
      var front, last := targets[..|targets| - 1], targets[|targets| - 1];
      TallySums(front);
      assert TallyOf(targets) == Bump(TallyOf(front), last.state);
      assert targets == front + [last];
    }
  }

  predicate Waiting(target: RunTarget) {
    target.state == Pending || target.state == Dispatched
  }

  predicate IsFinished(run: ScriptRun) {
    forall i | 0 <= i < |run.targets| :: !Waiting(run.targets[i])
  }

  /** The deadline's guard in on_run_deadline reads only the dispatched count. */
  lemma {:induction false} NoneCounted(targets: seq<RunTarget>, state: TargetState)
    ensures CountState(targets, state) == 0 <==> forall i | 0 <= i < |targets| :: targets[i].state != state
  {
    if targets != [] {
      var front, last := targets[..|targets| - 1], targets[|targets| - 1];
      NoneCounted(front, state);
      assert targets == front + [last];
    }
  }

  /** A result moves the first target of its host and nothing else. */
  lemma ResultMovesOneTarget(run: ScriptRun, result: ScriptResult, i: nat)
    requires i < |run.targets| && run.targets[i].hostId == result.hostId && DistinctHosts(run.targets)
    ensures ApplyResult(run, result) == run.(targets := run.targets[i := Answered(run.targets[i], result)])
  {
    assert FindTarget(run.targets, result.hostId) == i;
  }
}
