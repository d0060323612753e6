/** The record of one finished run on disk (apps/server/run_store.cpp). A file's content is its JSON tree. */
module RunStore {
  import opened Base
  import opened Json
  import opened ScriptRuns

  /** Clock ticks in a second; std::chrono::system_clock counts 100 ns ticks on Windows. */
  const TICKS_PER_SECOND: int := 10_000_000

  /** duration_cast to seconds truncates toward zero. */
  function ToSeconds(ticks: int64): int64 {
    var t: int := ticks;
    if t >= 0 then t / TICKS_PER_SECOND else -((-t) / TICKS_PER_SECOND)
  }

  function FromSeconds(seconds: int64): int64 {
    ToInt64(seconds * TICKS_PER_SECOND)
  }

  function Truncated(run: ScriptRun): ScriptRun {
    run.(issuedAt := FromSeconds(ToSeconds(run.issuedAt)))
  }

  /** Truncation rewinds by less than a second and does nothing the second time. */
  lemma TruncatedIsWholeSeconds(ticks: int64)
    ensures var t := FromSeconds(ToSeconds(ticks));
      && t % TICKS_PER_SECOND == 0
      && -TICKS_PER_SECOND < ticks - t < TICKS_PER_SECOND
      && ToSeconds(t) == ToSeconds(ticks)
  {
    var s := ToSeconds(ticks);
    var t: int := ticks;
    var magnitude: int := if t >= 0 then t else -t;
    assert magnitude == (magnitude / TICKS_PER_SECOND) * TICKS_PER_SECOND + magnitude % TICKS_PER_SECOND;
    assert FromSeconds(s) == s * TICKS_PER_SECOND;
  }

  function StatusName(status: ScriptStatus): string {
    match status
    case StatusCompleted => "Completed"
    case StatusFailed => "Failed"
    case StatusRefused => "Refused"
    case StatusError => "Error"
  }

  function StatusFromName(text: string): Result<ScriptStatus, ReadError> {
    if text == "Completed" then Success(StatusCompleted)
    else if text == "Failed" then Success(StatusFailed)
    else if text == "Refused" then Success(StatusRefused)
    else if text == "Error" then Success(StatusError)
    else Failure(UnknownName)
  }

  function StateName(state: TargetState): string {
    match state
    case Pending => "Pending"
    case Dispatched => "Dispatched"
    case Completed => "Completed"
    case Failed => "Failed"
    case Refused => "Refused"
    case NoResponse => "NoResponse"
  }

  function StateFromName(text: string): Result<TargetState, ReadError> {
    if text == "Pending" then Success(Pending)
    else if text == "Dispatched" then Success(Dispatched)
    else if text == "Completed" then Success(Completed)
    else if text == "Failed" then Success(Failed)
    else if text == "Refused" then Success(Refused)
    else if text == "NoResponse" then Success(NoResponse)
    else Failure(UnknownName)
  }

  /** A path-traversal guard on the file name. */
  predicate IsSafeRunId(runId: string) {
    && runId != ""
    && (forall i | 0 <= i < |runId| :: runId[i] != '/' && runId[i] != '\\' && runId[i] != ':')
    && (forall i | 0 <= i < |runId| - 1 :: !(runId[i] == '.' && runId[i + 1] == '.'))
  }

  // ----- encoding -----

  /** The host id and run id are not stored: they are on the enclosing target and run. */
  function ResultToJson(result: ScriptResult): Json {
    JObject(map[
      "status" := JString(StatusName(result.status)),
      "refusal_reason" := JString(result.refusalReason),
      "exit_code" := JInt(result.exitCode),
      "has_reported" := JBool(result.hasReported),
      "reported_ok" := JBool(result.reportedOk),
      "reported_message" := JString(result.reportedMessage),
      "stdout_text" := JString(result.stdoutText),
      "stderr_text" := JString(result.stderrText),
      "duration_ms" := JInt(result.durationMs)])
  }

  function TargetToJson(target: RunTarget): Json {
    var fields := map[
      "host_id" := JString(target.hostId),
      "state" := JString(StateName(target.state)),
      "detail" := JString(target.detail)];
    JObject(if target.result.Some? then fields["result" := ResultToJson(target.result.value)] else fields)
  }

  function TargetsToJson(targets: seq<RunTarget>): seq<Json> {
    seq(|targets|, i requires 0 <= i < |targets| => TargetToJson(targets[i]))
  }

  function RunToJson(run: ScriptRun): Json {
    JObject(map[
      "run_id" := JString(run.runId),
      "script_name" := JString(run.scriptName),
      "script_body" := JString(run.scriptBody),
      "issued_at" := JInt(ToSeconds(run.issuedAt)),
      "timeout_seconds" := JInt(run.timeoutSeconds),
      "targets" := JArray(TargetsToJson(run.targets))])
  }

  // ----- decoding -----

  function ResultFromJson(j: Json, hostId: HostId, runId: string): Result<ScriptResult, ReadError> {
    var statusText :- StringAt(j, "status");
    var status :- StatusFromName(statusText);
    var refusalReason :- StringAt(j, "refusal_reason");
    var exitCode :- Int32At(j, "exit_code");
    var hasReported :- BoolAt(j, "has_reported");
    var reportedOk :- BoolAt(j, "reported_ok");
    var reportedMessage :- StringAt(j, "reported_message");
    var stdoutText :- StringAt(j, "stdout_text");
    var stderrText :- StringAt(j, "stderr_text");
    var durationMs :- Uint64At(j, "duration_ms");
    Success(ScriptResult(hostId, runId, status, refusalReason, exitCode, hasReported, reportedOk,
      reportedMessage, stdoutText, stderrText, durationMs))
  }

  function TargetFromJson(j: Json, runId: string): Result<RunTarget, ReadError> {
    var hostId :- StringAt(j, "host_id");
    var stateText :- StringAt(j, "state");
    var state :- StateFromName(stateText);
    var detail :- StringAt(j, "detail");
    if "result" in j.members && !j.members["result"].JNull? then
      var result :- ResultFromJson(j.members["result"], hostId, runId);
      Success(RunTarget(hostId, state, detail, Some(result)))
    else
      Success(RunTarget(hostId, state, detail, None))
  }

  function TargetReader(runId: string): Json -> Result<RunTarget, ReadError> {
    j => TargetFromJson(j, runId)
  }

  /** The members every document needs before anything is read field by field. */
  function CheckedHeader(document: Json): Result<string, ReadError> {
    if !document.JObject? || "run_id" !in document.members || !document.members["run_id"].JString?
      || document.members["run_id"].text == "" then Failure(MissingRunId)
    else if "targets" !in document.members || !document.members["targets"].JArray? then Failure(MissingTargets)
    else Success(document.members["run_id"].text)
  }

  function RunFromJson(document: Json): Result<ScriptRun, ReadError> {
    var runId :- CheckedHeader(document);
    var scriptName :- StringAt(document, "script_name");
    var scriptBody :- StringAt(document, "script_body");
    var issuedAt :- Int64At(document, "issued_at");
    var timeoutSeconds :- Uint32At(document, "timeout_seconds");
    var items :- AsArray(document.members["targets"]);
    var targets :- Traverse(TargetReader(runId), items);
    Success(ScriptRun(runId, scriptName, scriptBody, FromSeconds(issuedAt), timeoutSeconds, targets))
  }

  method EncodeRun(run: ScriptRun) returns (document: Json)
    ensures document == RunToJson(run)
  {
    var items: seq<Json> := [];
    for i := 0 to |run.targets|
      invariant |items| == i && forall j | 0 <= j < i :: items[j] == TargetToJson(run.targets[j])
    {
      items := items + [TargetToJson(run.targets[i])];
    }
    assert items == TargetsToJson(run.targets);
    document := JObject(map[
      "run_id" := JString(run.runId),
      "script_name" := JString(run.scriptName),
      "script_body" := JString(run.scriptBody),
      "issued_at" := JInt(ToSeconds(run.issuedAt)),
      "timeout_seconds" := JInt(run.timeoutSeconds),
      "targets" := JArray(items)]);
  }

  // ----- round trip -----

  /** Every stored result carries its target's host id and its run's id. */
  ghost predicate ResultsBelong(targets: seq<RunTarget>, runId: string) {
    forall i | 0 <= i < |targets| && targets[i].result.Some? ::
      targets[i].result.value.hostId == targets[i].hostId && targets[i].result.value.runId == runId
  }

  lemma ResultRoundTrip(result: ScriptResult, hostId: HostId, runId: string)
    ensures ResultFromJson(ResultToJson(result), hostId, runId)
      == Success(result.(hostId := hostId, runId := runId))
  {
    var j := ResultToJson(result);
    assert StatusFromName(StatusName(result.status)) == Success(result.status);
    assert StringAt(j, "status") == Success(StatusName(result.status));
    assert Int32At(j, "exit_code") == Success(result.exitCode);
    assert Uint64At(j, "duration_ms") == Success(result.durationMs);
  }

  function Rehomed(target: RunTarget, runId: string): RunTarget {
    if target.result.None? then target
    else target.(result := Some(target.result.value.(hostId := target.hostId, runId := runId)))
  }

  lemma TargetRoundTrip(target: RunTarget, runId: string)
    ensures TargetFromJson(TargetToJson(target), runId) == Success(Rehomed(target, runId))
  {
    if target.result.Some? {
      ResultRoundTrip(target.result.value, target.hostId, runId);
    }
  }

  function RehomedAll(targets: seq<RunTarget>, runId: string): seq<RunTarget> {
    seq(|targets|, i requires 0 <= i < |targets| => Rehomed(targets[i], runId))
  }

  lemma TargetsRoundTrip(targets: seq<RunTarget>, runId: string)
    ensures Traverse(TargetReader(runId), TargetsToJson(targets)) == Success(RehomedAll(targets, runId))
  {
    forall i | 0 <= i < |targets|
      ensures TargetReader(runId)(TargetsToJson(targets)[i]) == Success(RehomedAll(targets, runId)[i])
    {
      TargetRoundTrip(targets[i], runId);
    }
    TraverseSucceeds(TargetReader(runId), TargetsToJson(targets), RehomedAll(targets, runId));
  }

  lemma RehomingIsIdentity(targets: seq<RunTarget>, runId: string)
    ensures RehomedAll(targets, runId) == targets <==> ResultsBelong(targets, runId)
  {
    if RehomedAll(targets, runId) == targets {
      forall i | 0 <= i < |targets| && targets[i].result.Some?
        ensures targets[i].result.value.hostId == targets[i].hostId && targets[i].result.value.runId == runId
      {
        assert RehomedAll(targets, runId)[i] == targets[i];
      }
    }
  }

  lemma RunFieldsRoundTrip(run: ScriptRun, targets: seq<RunTarget>)
    requires run.runId != ""
    requires Traverse(TargetReader(run.runId), TargetsToJson(run.targets)) == Success(targets)
    ensures RunFromJson(RunToJson(run)) == Success(Truncated(run).(targets := targets))
  {
    var document := RunToJson(run);
    assert CheckedHeader(document) == Success(run.runId);
    assert StringAt(document, "script_name") == Success(run.scriptName);
    assert StringAt(document, "script_body") == Success(run.scriptBody);
    assert Int64At(document, "issued_at") == Success(ToSeconds(run.issuedAt));
    assert Uint32At(document, "timeout_seconds") == Success(run.timeoutSeconds);
  }

  /** Reading back a written run gives the run, with issuedAt cut to whole seconds, exactly when its id
      is not empty and every stored result belongs to its target and run. */
  lemma RunRoundTrip(run: ScriptRun)
    ensures RunFromJson(RunToJson(run)) == Success(Truncated(run))
      <==> run.runId != "" && ResultsBelong(run.targets, run.runId)
  {
    if run.runId == "" {
      assert CheckedHeader(RunToJson(run)) == Failure(MissingRunId);
    } else {
      TargetsRoundTrip(run.targets, run.runId);
      RunFieldsRoundTrip(run, RehomedAll(run.targets, run.runId));
      RehomingIsIdentity(run.targets, run.runId);
    }
  }

  /** A reloaded run encodes to the very file it came from. */
  lemma TruncatedEncodesAlike(run: ScriptRun)
    ensures RunToJson(Truncated(run)) == RunToJson(run)
    ensures Truncated(Truncated(run)) == Truncated(run)
  {
    TruncatedIsWholeSeconds(run.issuedAt);
  }
}
