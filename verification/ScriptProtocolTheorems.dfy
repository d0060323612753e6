/** What holds in every reachable state of the script protocol, and what does not. */
module ScriptProtocolTheorems {
  import opened Base
  import opened ScriptRuns
  import opened RunStore
  import opened Sequences
  import opened ServerController
  import opened MonitorWorker
  import opened ScriptProtocol
  import Network = ScriptProtocolNetwork
  import Record = ScriptProtocolServer
  import Files = ScriptProtocolFiles
  import Fleet

  ghost predicate Reachable(s: System) {
    exists first, actions :: Initial(first) && Runs(first, actions) && After(first, actions) == s
  }

  lemma StepKeepsInvariant(s: System, a: Action)
    requires Invariant(s) && Enabled(s, a)
    ensures Invariant(Do(s, a))
  {
    Network.StepKeepsNetwork(s, a);
    Network.StepKeepsReports(s, a);
    Record.StepKeepsServer(s, a);
    Files.StepKeepsRecord(s, a);
  }

  lemma {:induction false} RunsKeepInvariant(s: System, actions: seq<Action>)
    requires Invariant(s) && Runs(s, actions)
    ensures Invariant(After(s, actions))
    decreases |actions|
  {
    if actions != [] {
      StepKeepsInvariant(s, actions[0]);
      RunsKeepInvariant(Do(s, actions[0]), actions[1..]);
    }
  }

  lemma ReachableOk(s: System)
    requires Reachable(s)
    ensures Invariant(s)
  {
    var first, actions :| Initial(first) && Runs(first, actions) && After(first, actions) == s;
    assert NetworkOk(first) && ReportsOk(first) && ServerOk(first) && RecordOk(first);
    RunsKeepInvariant(first, actions);
  }

  // ----- what the record shows happened -----

  /** Whatever is lost, duplicated or reordered, and whichever processes restart: a target shown as
      Completed or Failed belongs to a host that started this run with this very body, and the stored
      result is the one that host published for the only outcome it ever reported of the run, which has that
      verdict. */
  lemma ShownMeansRan(s: System, run: ScriptRun, t: RunTarget)
    requires Reachable(s) && run in s.server.runs && t in run.targets
    requires t.state == Completed || t.state == Failed
    ensures exists st | st in s.log.starts ::
        st.hostId == t.hostId && st.runId == run.runId && st.scriptBody == run.scriptBody
    ensures exists p | p in s.log.reports ::
        && t.result == Some(OutcomeResult(t.hostId, run.runId, p.outcome))
        && p.hostId == t.hostId && p.runId == run.runId
        && (t.state == Completed <==> OutcomeStatus(p.outcome) == StatusCompleted)
        && forall q | q in s.log.reports && q.hostId == t.hostId && q.runId == run.runId :: q == p
  {
    ReachableOk(s);
    assert RunOk(run, s.log.issued, s.results);
    var i :| 0 <= i < |run.targets| && run.targets[i] == t;
    var p := AnswerIsReported(s, t, run.runId);
    ReportIsOfStart(s, run, p);
  }

  lemma AnswerIsReported(s: System, t: RunTarget, runId: string) returns (p: Report)
    requires ResultsOk(s) && ReportsOk(s) && runId in s.log.issued
    requires TargetOk(t, runId, s.log.issued[runId].sentTo, s.results) && (t.state == Completed || t.state == Failed)
    ensures p in s.log.reports && p.hostId == t.hostId && p.runId == runId
    ensures t.result == Some(OutcomeResult(t.hostId, runId, p.outcome))
    ensures t.state == Completed <==> OutcomeStatus(p.outcome) == StatusCompleted
    ensures forall q | q in s.log.reports && q.hostId == t.hostId && q.runId == runId :: q == p
  {
    var r := t.result.value;
    assert ResultOk(r, s.log);
    p :| p in s.log.reports && r == OutcomeResult(p.hostId, p.runId, p.outcome);
  }

  lemma ReportIsOfStart(s: System, run: ScriptRun, p: Report)
    requires ResultsOk(s) && StartsOk(s) && RunOk(run, s.log.issued, s.results)
    requires p in s.log.reports && p.runId == run.runId
    ensures exists st | st in s.log.starts ::
        st.hostId == p.hostId && st.runId == run.runId && st.scriptBody == run.scriptBody
  {
    assert WasStarted(s.log.starts, p.hostId, p.runId);
    var st :| st in s.log.starts && st.hostId == p.hostId && st.runId == p.runId;
    assert StartOk(st, s);
  }

  /** The same, for the record on disk. */
  lemma RecordedMeansRan(s: System, name: string, run: ScriptRun, t: RunTarget)
    requires Reachable(s) && name in s.server.disk && RunFromJson(s.server.disk[name]) == Success(run)
    requires t in run.targets && t.state == Completed
    ensures run.runId == name
    ensures exists p | p in s.log.reports ::
        && t.result == Some(OutcomeResult(t.hostId, name, p.outcome)) && OutcomeStatus(p.outcome) == StatusCompleted
        && WasStarted(s.log.starts, t.hostId, name)
  {
    ReachableOk(s);
    assert FileOk(s.server.disk, name, s.log.issued, s.results);
    var i :| 0 <= i < |run.targets| && run.targets[i] == t;
    assert TargetOk(t, run.runId, s.log.issued[run.runId].sentTo, s.results);
    assert ResultOk(t.result.value, s.log);
    var p :| p in s.log.reports && t.result.value == OutcomeResult(p.hostId, p.runId, p.outcome);
    assert WasStarted(s.log.starts, p.hostId, p.runId);
  }

  /** A target refused at dispatch was never started anywhere. */
  lemma RefusedAtDispatchNeverRan(s: System, run: ScriptRun, t: RunTarget)
    requires Reachable(s) && run in s.server.runs && t in run.targets
    requires t.state == Refused && t.result == None
    ensures !WasStarted(s.log.starts, t.hostId, run.runId)
    ensures forall c | c in s.commands :: !(c.hostId == t.hostId && c.runId == run.runId)
  {
    ReachableOk(s);
    assert RunOk(run, s.log.issued, s.results);
    var i :| 0 <= i < |run.targets| && run.targets[i] == t;
    assert TargetOk(t, run.runId, s.log.issued[run.runId].sentTo, s.results);
    forall st | st in s.log.starts
      ensures !(st.hostId == t.hostId && st.runId == run.runId)
    {
      assert StartOk(st, s);
    }
    forall c | c in s.commands
      ensures !(c.hostId == t.hostId && c.runId == run.runId)
    {
      assert Sent(s.log.issued, c);
    }
  }

  /** A target refused by its host was not started there either, unless the command was delivered twice. */
  lemma RefusedOnceNeverRan(s: System, run: ScriptRun, t: RunTarget)
    requires Reachable(s) && run in s.server.runs && t in run.targets && t.state == Refused
    requires Deliveries(s.log, t.hostId, run.runId) <= 1
    ensures !WasStarted(s.log.starts, t.hostId, run.runId)
  {
    ReachableOk(s);
    if t.result == None {
      RefusedAtDispatchNeverRan(s, run, t);
    } else {
      assert RunOk(run, s.log.issued, s.results);
      var i :| 0 <= i < |run.targets| && run.targets[i] == t;
      assert TargetOk(t, run.runId, s.log.issued[run.runId].sentTo, s.results);
    }
  }

  lemma {:induction false} RunsThen(s: System, actions: seq<Action>, a: Action)
    requires Runs(s, actions) && Enabled(After(s, actions), a)
    ensures Runs(s, actions + [a]) && After(s, actions + [a]) == Do(After(s, actions), a)
    decreases |actions|
  {
    RestOfConcat(actions, [a]);
    if actions == [] {
      assert [a][1..] == [];
    } else {
      RunsThen(Do(s, actions[0]), actions[1..], a);
    }
  }

  lemma ReachableThen(s: System, a: Action)
    requires Reachable(s) && Enabled(s, a)
    ensures Reachable(Do(s, a))
  {
    var first, actions :| Initial(first) && Runs(first, actions) && After(first, actions) == s;
    RunsThen(first, actions, a);
  }

  lemma InitialReachable(s: System)
    requires Initial(s)
    ensures Reachable(s)
  {
    assert Runs(s, []) && After(s, []) == s;
  }

  // One host, "h", which the server sees online and enrolled.

  const ONE_HOST := [Fleet.FleetEntry("h", "", Fleet.Online, None, false, {Fleet.Scripts})]

  function OneHostRequest(runId: string): Request {
    Request(runId, "n", "x", ["h"], 1, 0)
  }

  function OneHostRun(runId: string): ScriptRun {
    ScriptRun(runId, "n", "x", 0, 1, [RunTarget("h", Dispatched, "", None)])
  }

  lemma OneHostDispatch(runId: string)
    ensures RunFor(OneHostRequest(runId), ONE_HOST) == OneHostRun(runId)
    ensures CommandsOf(OneHostRun(runId), OneHostRun(runId).targets) == [ScriptCommand("h", runId, "n", "x", 1)]
  {
    assert Unique(["h"][..0]) == [];
    assert Unique(["h"]) == ["h"];
    var targets := OneHostRun(runId).targets;
    assert RefusalFor(ONE_HOST, "h") == None;
    assert RunFor(OneHostRequest(runId), ONE_HOST).targets == targets;
    assert CommandsOf(OneHostRun(runId), targets[..0]) == [];
  }

  lemma StartOneHost(s: System, runId: string) returns (s': System)
    requires Reachable(s) && runId !in s.log.issued && IsSafeRunId(runId)
    ensures Reachable(s')
    ensures s'.server.runs == s.server.runs + [OneHostRun(runId)] && s'.log.issued.Keys == s.log.issued.Keys + {runId}
    ensures s'.commands == s.commands + {ScriptCommand("h", runId, "n", "x", 1)}
    ensures s'.clients == s.clients && s'.log.epochs == s.log.epochs
    ensures s'.server.(runs := s.server.runs) == s.server.(timers := s.server.timers + {runId})
  {
    var a := StartRun(OneHostRequest(runId), ONE_HOST, {});
    OneHostDispatch(runId);
    ReachableThen(s, a);
    s' := Do(s, a);
  }

  lemma IdleStarts(s: System, command: ScriptCommand) returns (s': System)
    requires Reachable(s) && command in s.commands && command.hostId == "h"
    requires "h" in s.clients && s.clients["h"] == FreshClient(true, true)
    ensures Reachable(s') && s'.server == s.server && s'.commands == s.commands
    ensures "h" in s'.clients && s'.clients["h"] == Client(true, true, {command.runId}, true, [Live(command, None)])
  {
    ReachableThen(s, DeliverCommand(command));
    s' := Do(s, DeliverCommand(command));
  }

  lemma BusyRefuses(s: System, first: ScriptCommand, second: ScriptCommand) returns (s': System)
    requires Reachable(s) && second in s.commands && first.runId != second.runId && second.hostId == "h"
    requires "h" in s.clients && s.clients["h"] == Client(true, true, {first.runId}, true, [Live(first, None)])
    ensures Reachable(s') && s'.server == s.server && s'.commands == s.commands && s'.clients == s.clients
    ensures Refusal("h", second, BUSY) in s'.results
  {
    ReachableThen(s, DeliverCommand(second));
    s' := Do(s, DeliverCommand(second));
    assert AnswersTo(s.clients["h"], "h", second) == [Refusal("h", second, BUSY)];
  }

  /** An idle enrolled client starts one script, and refuses a second while the first runs. */
  lemma BusyRefusal(s: System, first: ScriptCommand, second: ScriptCommand) returns (s': System)
    requires Reachable(s) && first in s.commands && second in s.commands && first.runId != second.runId
    requires first.hostId == second.hostId == "h" && "h" in s.clients && s.clients["h"] == FreshClient(true, true)
    ensures Reachable(s') && s'.server == s.server && s'.commands == s.commands
    ensures "h" in s'.clients && s'.clients["h"] == Client(true, true, {first.runId}, true, [Live(first, None)])
    ensures Refusal("h", second, BUSY) in s'.results
  {
    s' := IdleStarts(s, first);
    s' := BusyRefuses(s', first, second);
  }

  const DONE := ScriptOutcome(0, None, "", "", 0, false, true)

  lemma FinishLive(s: System, first: ScriptCommand) returns (s': System)
    requires Reachable(s) && "h" in s.clients
    requires s.clients["h"] == Client(true, true, {first.runId}, true, [Live(first, None)])
    ensures Reachable(s') && s'.server == s.server && s'.commands == s.commands
    ensures "h" in s'.clients && s'.clients["h"] == Client(true, true, {first.runId}, false, [])
    ensures OutcomeResult("h", first.runId, DONE) in s'.results
  {
    var ends := EndScript("h", DONE);
    ReachableThen(s, ends);
    var ended := Do(s, ends);
    ReachableThen(ended, PublishOutcome("h"));
    s' := Do(ended, PublishOutcome("h"));
    assert s'.clients["h"].live == [];
  }

  lemma RecordRefusal(s: System, refusal: ScriptResult) returns (s': System)
    requires Reachable(s) && s.server.runs == [OneHostRun("a"), OneHostRun("b")]
    requires refusal in s.results && refusal.hostId == "h" && refusal.runId == "b" && refusal.status == StatusRefused
    ensures Reachable(s') && s'.clients == s.clients && s'.commands == s.commands
    ensures s'.server.runs == [OneHostRun("a"), ApplyResult(OneHostRun("b"), refusal)]
    ensures ApplyResult(OneHostRun("b"), refusal).targets == [Answered(OneHostRun("b").targets[0], refusal)]
  {
    ReachableThen(s, DeliverResult(refusal, {}));
    s' := Do(s, DeliverResult(refusal, {}));
    assert FindRun(s.server.runs, "b") == 1;
    assert FindTarget(OneHostRun("b").targets, "h") == 0;
  }

  const FIRST := ScriptCommand("h", "a", "n", "x", 1)
  const SECOND := ScriptCommand("h", "b", "n", "x", 1)

  lemma NothingYet() returns (s: System)
    ensures Reachable(s) && s.server == Server([], {}, map[], {}) && s.log.issued == map[]
    ensures s.clients == map["h" := FreshClient(true, true)]
  {
    var clients := map["h" := FreshClient(true, true)];
    var log := History(map[], map h | h in clients :: 0, [], {}, map[], true, {});
    s := System(Server([], {}, map[], {}), clients, {}, {}, log);
    InitialReachable(s);
  }

  lemma TwoStarted() returns (s: System)
    ensures Reachable(s) && s.server.runs == [OneHostRun("a"), OneHostRun("b")]
    ensures FIRST in s.commands && SECOND in s.commands
    ensures "h" in s.clients && s.clients["h"] == FreshClient(true, true)
  {
    s := NothingYet();
    s := StartOneHost(s, "a");
    s := StartOneHost(s, "b");
  }

  lemma StartsSecond(s: System) returns (s': System)
    requires Reachable(s) && SECOND in s.commands
    requires "h" in s.clients && s.clients["h"] == Client(true, true, {"a"}, false, [])
    ensures Reachable(s') && s'.server == s.server && WasStarted(s'.log.starts, "h", "b")
  {
    ReachableOk(s);
    ReachableThen(s, DeliverCommand(SECOND));
    s' := Do(s, DeliverCommand(SECOND));
    assert s'.log.starts[|s.log.starts|] == Start("h", "b", "x", s.log.epochs["h"]);
  }

  /** A refusal by a busy host does not mean the script never runs: the refused id is forgotten, so a
      second delivery of the same command, once the host is idle, starts it after the server has
      recorded Refused. */
  lemma RefusedThenRan() returns (s: System, run: ScriptRun)
    ensures Reachable(s) && run in s.server.runs
    ensures |run.targets| == 1 && run.targets[0].state == Refused && run.targets[0].result.Some?
    ensures WasStarted(s.log.starts, run.targets[0].hostId, run.runId)
  {
    s := TwoStarted();
    s := BusyRefusal(s, FIRST, SECOND);
    var refusal := Refusal("h", SECOND, BUSY);
    s := RecordRefusal(s, refusal);
    run := ApplyResult(OneHostRun("b"), refusal);
    assert run == s.server.runs[1];
    s := FinishLive(s, FIRST);
    s := StartsSecond(s);
  }

  // ----- at most once -----

  /** Under any redelivery, interleaving and restarts a host starts a run id at most once; a client has
      at most one live script, and exactly while it is running; what its process started it remembers,
      and it remembers nothing else. */
  lemma AtMostOnce(s: System)
    requires Reachable(s)
    ensures StartedOnce(s.log.starts)
    ensures forall h | h in s.clients ::
      && |s.clients[h].live| <= 1 && (s.clients[h].running <==> |s.clients[h].live| == 1)
      && h in s.log.epochs
      && forall id :: id in s.clients[h].executed <==>
           exists st | st in s.log.starts :: st.hostId == h && st.runId == id && st.epoch == s.log.epochs[h]
  {
    ReachableOk(s);
    forall h | h in s.clients
      ensures |s.clients[h].live| <= 1 && (s.clients[h].running <==> |s.clients[h].live| == 1)
      ensures h in s.log.epochs
      ensures forall id :: id in s.clients[h].executed <==>
        exists st | st in s.log.starts :: st.hostId == h && st.runId == id && st.epoch == s.log.epochs[h]
    {
      assert ClientOk(h, s.clients[h], s.log.epochs[h], s.log.starts, s.log.issued);
      assert forall st | st in s.log.starts :: StartOk(st, s);
    }
  }

  /** A delivery starts the script exactly when the client is enrolled, can run scripts, is idle and has
      not started that run in this process; a busy client lets a later delivery through. */
  lemma DeliveryStartsExactlyWhen(s: System, command: ScriptCommand)
    requires Invariant(s) && Enabled(s, DeliverCommand(command))
    ensures var c, s' := s.clients[command.hostId], Do(s, DeliverCommand(command));
      && (s'.log.starts != s.log.starts <==>
            c.allowScripts && c.hasRunner && c.live == [] && command.runId !in c.executed)
      && (c.allowScripts && c.hasRunner && c.live != [] && command.runId !in c.executed ==>
            command.runId !in s'.clients[command.hostId].executed
            && Refusal(command.hostId, command, BUSY) in s'.results)
  {
    var h := command.hostId;
    assert ClientOk(h, s.clients[h], s.log.epochs[h], s.log.starts, s.log.issued);
    if ReactionTo(s.clients[h], h, command) == Starts {
      assert |Do(s, DeliverCommand(command)).log.starts| == |s.log.starts| + 1;
    }
    if ReactionTo(s.clients[h], h, command) == Refuses(BUSY) {
      assert Refusal(h, command, BUSY) in AnswersTo(s.clients[h], h, command);
    }
  }

  // ----- what makes a script run, over whole runs -----

  /** The step delivers the command of this run to this host, and finds it enrolled, with a runner, idle, and
      without having taken the run in this process. */
  predicate FindsOpen(s: System, a: Action, h: HostId, runId: string) {
    && a.DeliverCommand? && a.command.hostId == h && a.command.runId == runId && h in s.clients
    && s.clients[h].allowScripts && s.clients[h].hasRunner && !s.clients[h].running && runId !in s.clients[h].executed
  }

  ghost predicate FoundOpen(s: System, actions: seq<Action>, h: HostId, runId: string)
    requires Runs(s, actions)
    decreases |actions|
  {
    actions != [] && (FindsOpen(s, actions[0], h, runId) || FoundOpen(Do(s, actions[0]), actions[1..], h, runId))
  }

  lemma StepStartsExactlyWhen(s: System, a: Action, h: HostId, runId: string)
    requires Invariant(s) && Enabled(s, a)
    ensures WasStarted(Do(s, a).log.starts, h, runId) <==>
      WasStarted(s.log.starts, h, runId) || FindsOpen(s, a, h, runId)
  {
    var starts, starts' := s.log.starts, Do(s, a).log.starts;
    if a.DeliverCommand? && starts' != starts {
      var st := Start(a.command.hostId, a.command.runId, a.command.scriptBody, s.log.epochs[a.command.hostId]);
      assert starts' == starts + [st];
      assert forall x :: x in starts' <==> x in starts || x == st;
      assert WasStarted([st], h, runId) <==> st.hostId == h && st.runId == runId;
    }
    if a.DeliverCommand? {
      DeliveryStartsExactlyWhen(s, a.command);
      assert ClientOk(a.command.hostId, s.clients[a.command.hostId], s.log.epochs[a.command.hostId], s.log.starts,
        s.log.issued);
    }
  }

  lemma {:induction false} StartedExactlyWhen(s: System, actions: seq<Action>, h: HostId, runId: string)
    requires Invariant(s) && Runs(s, actions)
    ensures WasStarted(After(s, actions).log.starts, h, runId) <==>
      WasStarted(s.log.starts, h, runId) || FoundOpen(s, actions, h, runId)
    decreases |actions|
  {
    if actions != [] {
      StepStartsExactlyWhen(s, actions[0], h, runId);
      StepKeepsInvariant(s, actions[0]);
      StartedExactlyWhen(Do(s, actions[0]), actions[1..], h, runId);
    }
  }

  /** From the beginning, a host has run a script exactly when some delivery of its command found it open;
      so a target that the host refused stays never-run exactly while no delivery does, however many there
      are. */
  lemma RanExactlyWhenFoundOpen(first: System, actions: seq<Action>, h: HostId, runId: string)
    requires Initial(first) && Runs(first, actions)
    ensures WasStarted(After(first, actions).log.starts, h, runId) <==> FoundOpen(first, actions, h, runId)
  {
    assert NetworkOk(first) && ReportsOk(first) && ServerOk(first) && RecordOk(first);
    StartedExactlyWhen(first, actions, h, runId);
  }
}
