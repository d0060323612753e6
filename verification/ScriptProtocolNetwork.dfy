/** Every step keeps what clients and network promise (see ScriptProtocol). */
module ScriptProtocolNetwork {
  import opened Base
  import opened ScriptRuns
  import opened ServerController
  import opened MonitorWorker
  import opened ScriptProtocol
  import Fleet

  // ----- delivering a command -----

  /** A command that starts was never started on this host before, in this process or an earlier one. */
  lemma FreshStart(s: System, command: ScriptCommand)
    requires StartsOk(s) && ClientsOk(s) && Enabled(s, DeliverCommand(command))
    requires command.runId !in s.clients[command.hostId].executed
    ensures !WasStarted(s.log.starts, command.hostId, command.runId)
  {
    forall st | st in s.log.starts
      ensures st.hostId != command.hostId || st.runId != command.runId
    {
      assert StartOk(st, s);
    }
  }

  lemma DeliveryKeepsStart(s: System, command: ScriptCommand, st: Start)
    requires StartsOk(s) && Enabled(s, DeliverCommand(command)) && st in s.log.starts
    ensures StartOk(st, Do(s, DeliverCommand(command)))
  {
    var h := command.hostId;
    assert StartOk(st, s);
    assert s.clients[h].executed <= Do(s, DeliverCommand(command)).clients[h].executed;
  }

  lemma DeliveryKeepsStarts(s: System, command: ScriptCommand)
    requires CommandsOk(s) && StartsOk(s) && ClientsOk(s) && Enabled(s, DeliverCommand(command))
    ensures StartsOk(Do(s, DeliverCommand(command)))
  {
    var h, s' := command.hostId, Do(s, DeliverCommand(command));
    assert Sent(s.log.issued, command);
    forall st | st in s.log.starts
      ensures StartOk(st, s')
    {
      DeliveryKeepsStart(s, command, st);
    }
    if ReactionTo(s.clients[h], h, command) == Starts {
      FreshStart(s, command);
      var st := Start(h, command.runId, command.scriptBody, s.log.epochs[h]);
      assert s'.log.starts == s.log.starts + [st];
      assert StartOk(st, s');
      assert forall x | x in s.log.starts :: x.hostId != h || x.runId != command.runId;
    }
  }

  lemma DeliveryKeepsClients(s: System, command: ScriptCommand)
    requires CommandsOk(s) && ClientsOk(s) && Enabled(s, DeliverCommand(command))
    ensures ClientsOk(Do(s, DeliverCommand(command)))
  {
    var h, s' := command.hostId, Do(s, DeliverCommand(command));
    assert Sent(s.log.issued, command);
    assert forall st | st in s.log.starts :: st in s'.log.starts;
    if ReactionTo(s.clients[h], h, command) == Starts {
      assert s'.log.starts[|s.log.starts|] == Start(h, command.runId, command.scriptBody, s.log.epochs[h]);
    }
    forall g | g in s'.clients
      ensures ClientOk(g, s'.clients[g], s'.log.epochs[g], s'.log.starts, s'.log.issued)
    {
      assert ClientOk(g, s.clients[g], s.log.epochs[g], s.log.starts, s.log.issued);
    }
  }

  lemma DeliveryKeepsResults(s: System, command: ScriptCommand)
    requires CommandsOk(s) && ResultsOk(s) && Enabled(s, DeliverCommand(command))
    ensures ResultsOk(Do(s, DeliverCommand(command)))
  {
    var s' := Do(s, DeliverCommand(command));
    assert Sent(s.log.issued, command);
    forall r | r in s'.results
      ensures ResultOk(r, s'.log)
    {
      assert r in s.results ==> ResultOk(r, s.log);
    }
    forall p | p in s'.log.reports
      ensures WasStarted(s'.log.starts, p.hostId, p.runId)
    {
      var st :| st in s.log.starts && st.hostId == p.hostId && st.runId == p.runId;
      assert st in s'.log.starts;
    }
  }

  lemma DeliveryCounted(s: System, command: ScriptCommand)
    requires StartsOk(s) && ClientsOk(s) && DeliveriesOk(s) && Enabled(s, DeliverCommand(command))
    ensures DeliveriesOk(Do(s, DeliverCommand(command)))
  {
    var h, s' := command.hostId, Do(s, DeliverCommand(command));
    assert forall g, id ::
        Deliveries(s'.log, g, id) == Deliveries(s.log, g, id) + (if g == h && id == command.runId then 1 else 0);
    assert forall st | st in s'.log.starts :: st in s.log.starts || (st.hostId == h && st.runId == command.runId);
    forall r | r in s'.results && r.status == StatusRefused
      ensures Deliveries(s'.log, r.hostId, r.runId) >= 1
      ensures WasStarted(s'.log.starts, r.hostId, r.runId) ==> Deliveries(s'.log, r.hostId, r.runId) >= 2
    {
      if WasStarted(s'.log.starts, r.hostId, r.runId) {
        var st :| st in s'.log.starts && st.hostId == r.hostId && st.runId == r.runId;
        assert r in s.results || st in s.log.starts;
      }
    }
  }

  // ----- a script ending, its outcome published, a client restarted -----

  lemma EndKeepsStarts(s: System, h: HostId, outcome: ScriptOutcome)
    requires StartsOk(s) && Enabled(s, EndScript(h, outcome))
    ensures StartsOk(Do(s, EndScript(h, outcome)))
  {
    var s' := Do(s, EndScript(h, outcome));
    forall st | st in s'.log.starts
      ensures StartOk(st, s')
    {
      assert StartOk(st, s);
    }
  }

  lemma EndKeepsClients(s: System, h: HostId, outcome: ScriptOutcome)
    requires ClientsOk(s) && Enabled(s, EndScript(h, outcome))
    ensures ClientsOk(Do(s, EndScript(h, outcome)))
  {
    assert forall g | g in s.clients :: ClientOk(g, s.clients[g], s.log.epochs[g], s.log.starts, s.log.issued);
  }

  lemma EndKeepsNetwork(s: System, h: HostId, outcome: ScriptOutcome)
    requires NetworkOk(s) && Enabled(s, EndScript(h, outcome))
    ensures NetworkOk(Do(s, EndScript(h, outcome)))
  {
    EndKeepsStarts(s, h, outcome);
    EndKeepsClients(s, h, outcome);
    var s' := Do(s, EndScript(h, outcome));
    assert s'.log == s.log && s'.results == s.results && s'.commands == s.commands;
  }

  lemma PublishKeepsResults(s: System, h: HostId)
    requires StartsOk(s) && ClientsOk(s) && ResultsOk(s) && Enabled(s, PublishOutcome(h))
    ensures ResultsOk(Do(s, PublishOutcome(h)))
  {
    var s' := Do(s, PublishOutcome(h));
    var done := s.clients[h].live[0];
    assert ClientOk(h, s.clients[h], s.log.epochs[h], s.log.starts, s.log.issued);
    var st := Start(h, done.command.runId, s.log.issued[done.command.runId].scriptBody, s.log.epochs[h]);
    assert st in s.log.starts && StartOk(st, s);
    assert Report(h, done.command.runId, done.outcome.value) in s'.log.reports;
    forall r | r in s'.results
      ensures ResultOk(r, s'.log)
    {
      if r in s.results {
        assert ResultOk(r, s.log);
        assert forall q | q in s.log.reports :: q in s'.log.reports;
      }
    }
  }

  lemma PublishKeepsStarts(s: System, h: HostId)
    requires StartsOk(s) && Enabled(s, PublishOutcome(h))
    ensures StartsOk(Do(s, PublishOutcome(h)))
  {
    forall st | st in s.log.starts
      ensures StartOk(st, Do(s, PublishOutcome(h)))
    {
      assert StartOk(st, s);
    }
  }

  lemma PublishKeepsClients(s: System, h: HostId)
    requires ClientsOk(s) && Enabled(s, PublishOutcome(h))
    ensures ClientsOk(Do(s, PublishOutcome(h)))
  {
    assert forall g | g in s.clients :: ClientOk(g, s.clients[g], s.log.epochs[g], s.log.starts, s.log.issued);
  }

  lemma PublishKeepsDeliveries(s: System, h: HostId)
    requires DeliveriesOk(s) && Enabled(s, PublishOutcome(h))
    ensures DeliveriesOk(Do(s, PublishOutcome(h)))
  {
    var s' := Do(s, PublishOutcome(h));
    assert s'.log.starts == s.log.starts && s'.log.deliveries == s.log.deliveries;
    assert forall r | r in s'.results && r.status == StatusRefused :: r in s.results;
    assert forall g, id :: Deliveries(s'.log, g, id) == Deliveries(s.log, g, id);
  }

  lemma ClientRestartKeepsStarts(s: System, h: HostId, allowScripts: bool, hasRunner: bool)
    requires StartsOk(s) && Enabled(s, RestartClient(h, allowScripts, hasRunner))
    ensures StartsOk(Do(s, RestartClient(h, allowScripts, hasRunner)))
  {
    forall st | st in s.log.starts
      ensures StartOk(st, Do(s, RestartClient(h, allowScripts, hasRunner)))
    {
      assert StartOk(st, s);
    }
  }

  lemma ClientRestartKeepsClients(s: System, h: HostId, allowScripts: bool, hasRunner: bool)
    requires ClientsOk(s) && Enabled(s, RestartClient(h, allowScripts, hasRunner))
    ensures ClientsOk(Do(s, RestartClient(h, allowScripts, hasRunner)))
  {
    assert forall g | g in s.clients :: ClientOk(g, s.clients[g], s.log.epochs[g], s.log.starts, s.log.issued);
  }

  lemma ClientRestartKeepsResults(s: System, h: HostId, allowScripts: bool, hasRunner: bool)
    requires ResultsOk(s) && DeliveriesOk(s) && Enabled(s, RestartClient(h, allowScripts, hasRunner))
    ensures ResultsOk(Do(s, RestartClient(h, allowScripts, hasRunner)))
    ensures DeliveriesOk(Do(s, RestartClient(h, allowScripts, hasRunner)))
  {
    var s' := Do(s, RestartClient(h, allowScripts, hasRunner));
    assert s'.log == s.log.(epochs := s'.log.epochs) && s'.results == s.results;
    assert forall r | r in s.results :: ResultOk(r, s.log);
    assert forall g, id :: Deliveries(s'.log, g, id) == Deliveries(s.log, g, id);
  }

  // ----- starting a run; everything else the server does -----

  lemma StartRunSends(s: System, request: Request, fleet: seq<Fleet.FleetEntry>, failing: set<string>, c: ScriptCommand)
    requires CommandsOk(s) && Enabled(s, StartRun(request, fleet, failing))
    requires c in Do(s, StartRun(request, fleet, failing)).commands
    ensures Sent(Do(s, StartRun(request, fleet, failing)).log.issued, c)
    ensures c !in s.commands ==> c.runId == request.runId
  {
    if c !in s.commands {
      var run := RunFor(request, fleet);
      CommandsReach(run, run.targets, c);
    } else {
      assert Sent(s.log.issued, c);
    }
  }

  lemma StartRunKeepsStarts(s: System, request: Request, fleet: seq<Fleet.FleetEntry>, failing: set<string>)
    requires CommandsOk(s) && StartsOk(s) && Enabled(s, StartRun(request, fleet, failing))
    ensures CommandsOk(Do(s, StartRun(request, fleet, failing))) && StartsOk(Do(s, StartRun(request, fleet, failing)))
  {
    var s' := Do(s, StartRun(request, fleet, failing));
    forall c | c in s'.commands
      ensures Sent(s'.log.issued, c)
      ensures c !in s.commands ==> c.runId == request.runId
    {
      StartRunSends(s, request, fleet, failing, c);
    }
    forall st | st in s'.log.starts
      ensures StartOk(st, s')
    {
      assert StartOk(st, s);
    }
  }

  lemma StartRunKeepsResults(s: System, request: Request, fleet: seq<Fleet.FleetEntry>, failing: set<string>)
    requires ResultsOk(s) && DeliveriesOk(s) && Enabled(s, StartRun(request, fleet, failing))
    ensures ResultsOk(Do(s, StartRun(request, fleet, failing)))
    ensures DeliveriesOk(Do(s, StartRun(request, fleet, failing)))
  {
    var s' := Do(s, StartRun(request, fleet, failing));
    assert s'.results == s.results && s'.log.starts == s.log.starts && s'.log.reports == s.log.reports;
    assert forall r | r in s.results :: ResultOk(r, s.log);
    assert forall g, id :: Deliveries(s'.log, g, id) == Deliveries(s.log, g, id);
  }

  lemma StartRunKeepsClients(s: System, request: Request, fleet: seq<Fleet.FleetEntry>, failing: set<string>)
    requires ClientsOk(s) && Enabled(s, StartRun(request, fleet, failing))
    ensures ClientsOk(Do(s, StartRun(request, fleet, failing)))
  {
    assert forall g | g in s.clients :: ClientOk(g, s.clients[g], s.log.epochs[g], s.log.starts, s.log.issued);
  }

  lemma StartRunKeepsNetwork(s: System, request: Request, fleet: seq<Fleet.FleetEntry>, failing: set<string>)
    requires NetworkOk(s) && Enabled(s, StartRun(request, fleet, failing))
    ensures NetworkOk(Do(s, StartRun(request, fleet, failing)))
  {
    StartRunKeepsStarts(s, request, fleet, failing);
    StartRunKeepsClients(s, request, fleet, failing);
    StartRunKeepsResults(s, request, fleet, failing);
  }

  /** Steps that touch only the server and what the history says of its files. */
  lemma ServerStepKeepsNetwork(s: System, s': System)
    requires NetworkOk(s)
    requires s' == s.(server := s'.server, log := s.log.(clean := s'.log.clean, unwritten := s'.log.unwritten))
    ensures NetworkOk(s')
  {
    forall st | st in s'.log.starts
      ensures StartOk(st, s')
    {
      assert StartOk(st, s);
    }
    assert forall r | r in s'.results :: ResultOk(r, s.log);
  }

  lemma StepKeepsNetwork(s: System, a: Action)
    requires NetworkOk(s) && Enabled(s, a)
    ensures NetworkOk(Do(s, a))
  {
    match a
    case StartRun(request, fleet, failing) => StartRunKeepsNetwork(s, request, fleet, failing);
    case DeliverCommand(command) =>
      DeliveryKeepsStarts(s, command);
      DeliveryKeepsClients(s, command);
      DeliveryKeepsResults(s, command);
      DeliveryCounted(s, command);
    case EndScript(h, outcome) => EndKeepsNetwork(s, h, outcome);
    case PublishOutcome(h) =>
      PublishKeepsStarts(s, h);
      PublishKeepsClients(s, h);
      PublishKeepsResults(s, h);
      PublishKeepsDeliveries(s, h);
    case RestartClient(h, allowScripts, hasRunner) =>
      ClientRestartKeepsStarts(s, h, allowScripts, hasRunner);
      ClientRestartKeepsClients(s, h, allowScripts, hasRunner);
      ClientRestartKeepsResults(s, h, allowScripts, hasRunner);
    case DeliverResult(_, _) => ServerStepKeepsNetwork(s, Do(s, a));
    case DeadlineFires(_, _) => ServerStepKeepsNetwork(s, Do(s, a));
    case DeleteRun(_, _) => ServerStepKeepsNetwork(s, Do(s, a));
    case DeleteRunsBefore(_, _) => ServerStepKeepsNetwork(s, Do(s, a));
    case RestartServer(_, _) => ServerStepKeepsNetwork(s, Do(s, a));
  }

  // ----- one outcome per host and run -----

  lemma DeliveryKeepsReports(s: System, command: ScriptCommand)
    requires StartsOk(s) && ClientsOk(s) && ResultsOk(s) && ReportsOk(s) && Enabled(s, DeliverCommand(command))
    ensures ReportsOk(Do(s, DeliverCommand(command)))
  {
    var h := command.hostId;
    assert ClientOk(h, s.clients[h], s.log.epochs[h], s.log.starts, s.log.issued);
    if ReactionTo(s.clients[h], h, command) == Starts {
      FreshStart(s, command);
      forall p | p in s.log.reports
        ensures p.hostId != h || p.runId != command.runId
      {
        assert WasStarted(s.log.starts, p.hostId, p.runId);
      }
    }
  }

  lemma PublishKeepsReports(s: System, h: HostId)
    requires ClientsOk(s) && ReportsOk(s) && Enabled(s, PublishOutcome(h))
    ensures ReportsOk(Do(s, PublishOutcome(h)))
  {
    assert ClientOk(h, s.clients[h], s.log.epochs[h], s.log.starts, s.log.issued);
    var s' := Do(s, PublishOutcome(h));
    assert s'.clients[h].live == [];
  }

  lemma EndKeepsReports(s: System, h: HostId, outcome: ScriptOutcome)
    requires ReportsOk(s) && Enabled(s, EndScript(h, outcome))
    ensures ReportsOk(Do(s, EndScript(h, outcome)))
  {
    SameReports(s, Do(s, EndScript(h, outcome)));
  }

  lemma ClientRestartKeepsReports(s: System, h: HostId, allowScripts: bool, hasRunner: bool)
    requires ReportsOk(s) && Enabled(s, RestartClient(h, allowScripts, hasRunner))
    ensures ReportsOk(Do(s, RestartClient(h, allowScripts, hasRunner)))
  {
    SameReports(s, Do(s, RestartClient(h, allowScripts, hasRunner)));
  }

  /** What the server does reports nothing and touches no client. */
  lemma ServerLeavesClients(s: System, a: Action)
    requires Enabled(s, a)
    requires !a.DeliverCommand? && !a.EndScript? && !a.PublishOutcome? && !a.RestartClient?
    ensures Do(s, a).clients == s.clients && Do(s, a).log.reports == s.log.reports
  {
  }

  lemma ServerKeepsReports(s: System, a: Action)
    requires ReportsOk(s) && Enabled(s, a)
    requires !a.DeliverCommand? && !a.EndScript? && !a.PublishOutcome? && !a.RestartClient?
    ensures ReportsOk(Do(s, a))
  {
    ServerLeavesClients(s, a);
    SameReports(s, Do(s, a));
  }

  lemma StepKeepsReports(s: System, a: Action)
    requires NetworkOk(s) && ReportsOk(s) && Enabled(s, a)
    ensures ReportsOk(Do(s, a))
  {
    match a
    case DeliverCommand(command) => DeliveryKeepsReports(s, command);
    case PublishOutcome(h) => PublishKeepsReports(s, h);
    case EndScript(h, outcome) => EndKeepsReports(s, h, outcome);
    case RestartClient(h, allowScripts, hasRunner) => ClientRestartKeepsReports(s, h, allowScripts, hasRunner);
    case _ => ServerKeepsReports(s, a);
  }

  /** Nothing is reported and no script starts. */
  lemma SameReports(s: System, s': System)
    requires ReportsOk(s) && s'.log.reports == s.log.reports
    requires forall h | h in s'.clients && s'.clients[h].live != [] ::
        h in s.clients && s.clients[h].live != [] && s'.clients[h].live[0].command == s.clients[h].live[0].command
    ensures ReportsOk(s')
  {
  }
}
