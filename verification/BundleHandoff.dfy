/** The hand-off of received bundles to whoever registers for them, when registrations and arrivals run
    on different threads (libs/transport/src/fastdds/fast_dds_transport.cpp, the client transport). Each
    call holds the lock for one section, and calls the handler after releasing it. */
module BundleHandoff {
  import opened Base

  /** The two fields the lock guards: which registration's handler is set, and which call's bundle is kept. */
  datatype Guarded = Guarded(handler: Option<nat>, retained: Option<nat>)

  /** A handler called with the bundle of one handle_bundle call. */
  datatype Delivery = Delivery(handler: nat, call: nat)

  /** One lock section. `given` is false when an empty handler is registered. */
  datatype Section = Registered(handler: nat, given: bool) | Stored(call: nat)

  function AfterSection(g: Guarded, e: Section): Guarded {
    match e
    case Registered(h, given) => g.(handler := if given then Some(h) else None)
    case Stored(c) => g.(retained := Some(c))
  }

  /** What the thread leaving the section will do unlocked. */
  function ToSend(g: Guarded, e: Section): Option<Delivery> {
    match e
    case Registered(h, given) => if given && g.retained.Some? then Some(Delivery(h, g.retained.value)) else None
    case Stored(c) => if g.handler.Some? then Some(Delivery(g.handler.value, c)) else None
  }

  class Transport {
    var onBundle: Option<nat>
    var retainedBundle: Option<nat>

    constructor ()
      ensures State() == Guarded(None, None)
    {
      onBundle, retainedBundle := None, None;
    }

    function State(): Guarded
      reads this
    {
      Guarded(onBundle, retainedBundle)
    }

    /** The locked part of on_bundle; `send` is the call left for after the lock. */
    method Register(handler: nat, given: bool) returns (send: Option<Delivery>)
      modifies this
      ensures State() == AfterSection(old(State()), Registered(handler, given))
      ensures send == ToSend(old(State()), Registered(handler, given))
    {
      onBundle := if given then Some(handler) else None;
      var retained := retainedBundle;
      send := None;
      if given && retained.Some? {
        send := Some(Delivery(handler, retained.value));
      }
    }

    /** The locked part of handle_bundle. */
    method Store(call: nat) returns (send: Option<Delivery>)
      modifies this
      ensures State() == AfterSection(old(State()), Stored(call))
      ensures send == ToSend(old(State()), Stored(call))
    {
      retainedBundle := Some(call);
      var handler := onBundle;
      send := None;
      if handler.Some? {
        send := Some(Delivery(handler.value, call));
      }
    }
  }

  // ----- the interleavings -----

  datatype Thread = Registrar(handler: nat) | Listener(call: nat)

  datatype Phase = Holding(send: Option<Delivery>) | Finished

  /** log: the lock sections in the order they were entered; calls: the places in it of the threads that
      have since made their call, in the order of the calls. A thread not in `phases` has not started. */
  datatype System = System(
    guarded: Guarded, phases: map<Thread, Phase>, log: seq<Section>, calls: seq<nat>, delivered: seq<Delivery>)

  datatype Step = Lock(section: Section) | Call(thread: Thread)

  const START := System(Guarded(None, None), map[], [], [], [])

  function ThreadOf(e: Section): Thread {
    match e
    case Registered(h, _) => Registrar(h)
    case Stored(c) => Listener(c)
  }

  /** Where the thread entered its section, or |log|. */
  function Place(log: seq<Section>, t: Thread): (i: nat)
    ensures i <= |log| && (i < |log| ==> ThreadOf(log[i]) == t) && forall j | 0 <= j < i :: ThreadOf(log[j]) != t
  {
    if log == [] || ThreadOf(log[0]) == t then 0 else 1 + Place(log[1..], t)
  }

  predicate Enabled(s: System, step: Step) {
    match step
    case Lock(e) => ThreadOf(e) !in s.phases
    case Call(t) => t in s.phases && s.phases[t].Holding?
  }

  function Do(s: System, step: Step): System
    requires Enabled(s, step)
  {
    match step
    case Lock(e) =>
      System(
        AfterSection(s.guarded, e), s.phases[ThreadOf(e) := Holding(ToSend(s.guarded, e))],
        s.log + [e], s.calls, s.delivered)
    case Call(t) =>
      var send := s.phases[t].send;
      s.(
        phases := s.phases[t := Finished],
        calls := s.calls + [Place(s.log, t)],
        delivered := if send.Some? then s.delivered + [send.value] else s.delivered)
  }

  ghost predicate Runs(s: System, steps: seq<Step>, end: System)
    decreases |steps|
  {
    if steps == [] then s == end
    else Enabled(s, steps[0]) && Runs(Do(s, steps[0]), steps[1..], end)
  }

  /** Every thread that entered its section has also made its call. */
  ghost predicate Complete(s: System) {
    forall t | t in s.phases :: s.phases[t].Finished?
  }

  // ----- what the order of the lock sections decides -----

  function GuardedAfter(log: seq<Section>): Guarded {
    if log == [] then Guarded(None, None) else AfterSection(GuardedAfter(log[..|log| - 1]), log[|log| - 1])
  }

  function SentAt(log: seq<Section>, i: nat): Option<Delivery>
    requires i < |log|
  {
    ToSend(GuardedAfter(log[..i]), log[i])
  }

  ghost predicate NoneRegistered(log: seq<Section>, from: nat, to: nat)
    requires to <= |log|
  {
    forall k | from <= k < to :: !log[k].Registered?
  }

  ghost predicate NoneStored(log: seq<Section>, from: nat, to: nat)
    requires to <= |log|
  {
    forall k | from <= k < to :: !log[k].Stored?
  }

  /** The handler was registered and then the bundle arrived before the next registration, or the bundle
      was the last to arrive before the handler was registered. */
  ghost predicate Meet(log: seq<Section>, i: nat, j: nat)
    requires i < |log| && j < |log|
  {
    if i < j then NoneRegistered(log, i + 1, j) else NoneStored(log, j + 1, i)
  }

  ghost predicate Due(log: seq<Section>, d: Delivery) {
    exists i, j | 0 <= i < |log| && 0 <= j < |log| ::
      log[i] == Registered(d.handler, true) && log[j] == Stored(d.call) && Meet(log, i, j)
  }

  lemma {:induction false} HandlerSetBy(log: seq<Section>) returns (i: nat)
    ensures i <= |log| && NoneRegistered(log, if i < |log| then i + 1 else 0, |log|)
    ensures i < |log| ==> log[i].Registered?
    ensures GuardedAfter(log).handler == if i < |log| && log[i].given then Some(log[i].handler) else None
  {
    i := 0;
    if log != [] {
      var front := log[..|log| - 1];
      if log[|log| - 1].Registered? {
        i := |log| - 1;
      } else {
        i := HandlerSetBy(front);
        if i == |front| {
          i := |log|;
        }
        assert forall k | 0 <= k < |front| :: log[k] == front[k];
      }
    }
  }

  lemma {:induction false} BundleKeptFrom(log: seq<Section>) returns (j: nat)
    ensures j <= |log| && NoneStored(log, if j < |log| then j + 1 else 0, |log|)
    ensures j < |log| ==> log[j].Stored?
    ensures GuardedAfter(log).retained == if j < |log| then Some(log[j].call) else None
  {
    j := 0;
    if log != [] {
      var front := log[..|log| - 1];
      if log[|log| - 1].Stored? {
        j := |log| - 1;
      } else {
        j := BundleKeptFrom(front);
        if j == |front| {
          j := |log|;
        }
        assert forall k | 0 <= k < |front| :: log[k] == front[k];
      }
    }
  }

  lemma SentIsDue(log: seq<Section>, k: nat, d: Delivery)
    requires k < |log| && SentAt(log, k) == Some(d)
    ensures Due(log, d)
    ensures log[k].Registered? ==> log[k].handler == d.handler && exists j | 0 <= j < k :: log[j] == Stored(d.call)
    ensures log[k].Stored? ==> log[k].call == d.call && exists i | 0 <= i < k :: log[i] == Registered(d.handler, true)
  {
    var before := log[..k];
    if log[k].Registered? {
      var j := BundleKeptFrom(before);
      assert before[j] == log[j];
      assert Meet(log, k, j) by {
        assert forall m | j + 1 <= m < k :: log[m] == before[m];
      }
    } else {
      var i := HandlerSetBy(before);
      assert before[i] == log[i];
      assert Meet(log, i, k) by {
        assert forall m | i + 1 <= m < k :: log[m] == before[m];
      }
    }
  }

  lemma DueIsSent(log: seq<Section>, d: Delivery) returns (k: nat)
    requires Due(log, d)
    ensures k < |log| && SentAt(log, k) == Some(d)
  {
    var i, j :| 0 <= i < |log| && 0 <= j < |log| && log[i] == Registered(d.handler, true) && log[j] == Stored(d.call)
      && Meet(log, i, j);
    if i < j {
      k := j;
      var setBy := HandlerSetBy(log[..j]);
      assert log[..j][i] == log[i];
      assert setBy == i;
    } else {
      k := i;
      var kept := BundleKeptFrom(log[..i]);
      assert log[..i][j] == log[j];
      assert kept == j;
    }
  }

  ghost predicate OncePerThread(log: seq<Section>) {
    forall i, j | 0 <= i < j < |log| :: ThreadOf(log[i]) != ThreadOf(log[j])
  }

  lemma OtherCameFirst(log: seq<Section>, k: nat, d: Delivery, other: nat)
    requires OncePerThread(log) && k < |log| && other < |log| && SentAt(log, k) == Some(d)
    ensures log[k].Registered? && log[other].Stored? && log[other].call == d.call ==> other < k
    ensures log[k].Stored? && log[other].Registered? && log[other].handler == d.handler ==> other < k
  {
    SentIsDue(log, k, d);
    assert forall j | 0 <= j < |log| && ThreadOf(log[j]) == ThreadOf(log[other]) :: j == other;
  }

  /** The registering thread and the listener thread never both send one bundle to one handler. */
  lemma SentOnce(log: seq<Section>, i: nat, j: nat, d: Delivery)
    requires OncePerThread(log) && i < |log| && j < |log|
    requires SentAt(log, i) == Some(d) && SentAt(log, j) == Some(d)
    ensures i == j
  {
    SentIsDue(log, i, d);
    SentIsDue(log, j, d);
    OtherCameFirst(log, i, d, j);
    OtherCameFirst(log, j, d, i);
  }

  // ----- the invariant -----

  ghost predicate Made(s: System, i: nat)
    requires i < |s.log|
  {
    ThreadOf(s.log[i]) in s.phases && s.phases[ThreadOf(s.log[i])].Finished?
  }

  ghost predicate PhaseFits(s: System, i: nat)
    requires i < |s.log|
  {
    && ThreadOf(s.log[i]) in s.phases
    && (Made(s, i) || s.phases[ThreadOf(s.log[i])] == Holding(SentAt(s.log, i)))
  }

  ghost predicate Logged(log: seq<Section>, t: Thread) {
    exists i | 0 <= i < |log| :: ThreadOf(log[i]) == t
  }

  ghost predicate PhasesFollowLog(s: System) {
    && OncePerThread(s.log)
    && (forall i | 0 <= i < |s.log| :: PhaseFits(s, i))
    && forall t | t in s.phases :: Logged(s.log, t)
  }

  ghost predicate DeliveredAt(s: System, d: Delivery) {
    exists i | 0 <= i < |s.log| :: Made(s, i) && SentAt(s.log, i) == Some(d)
  }

  ghost predicate DeliveredAreMade(s: System) {
    && (forall i, j | 0 <= i < j < |s.delivered| :: s.delivered[i] != s.delivered[j])
    && forall d :: d in s.delivered <==> DeliveredAt(s, d)
  }

  ghost predicate Invariant(s: System) {
    s.guarded == GuardedAfter(s.log) && PhasesFollowLog(s) && DeliveredAreMade(s)
  }

  lemma LongerLog(log: seq<Section>, e: Section)
    ensures GuardedAfter(log + [e]) == AfterSection(GuardedAfter(log), e)
    ensures SentAt(log + [e], |log|) == ToSend(GuardedAfter(log), e)
    ensures forall i | 0 <= i < |log| :: SentAt(log + [e], i) == SentAt(log, i)
  {
    assert (log + [e])[..|log|] == log;
    forall i | 0 <= i < |log|
      ensures SentAt(log + [e], i) == SentAt(log, i)
    {
      assert (log + [e])[..i] == log[..i];
    }
  }

  lemma LockChanges(s: System, e: Section, i: nat)
    requires PhasesFollowLog(s) && Enabled(s, Lock(e)) && i <= |s.log| && s.guarded == GuardedAfter(s.log)
    ensures PhaseFits(Do(s, Lock(e)), i)
    ensures Made(Do(s, Lock(e)), i) <==> i < |s.log| && Made(s, i)
  {
    LongerLog(s.log, e);
    if i < |s.log| {
      assert PhaseFits(s, i);
    }
  }

  lemma LogLonger(s: System, e: Section)
    requires PhasesFollowLog(s) && Enabled(s, Lock(e))
    ensures OncePerThread(s.log + [e])
    ensures forall t | t in s.phases || t == ThreadOf(e) :: Logged(s.log + [e], t)
  {
    forall i | 0 <= i < |s.log|
      ensures ThreadOf(s.log[i]) != ThreadOf(e)
    {
      assert PhaseFits(s, i);
    }
    forall t | t in s.phases || t == ThreadOf(e)
      ensures Logged(s.log + [e], t)
    {
      var i := if t == ThreadOf(e) then |s.log| else var k :| 0 <= k < |s.log| && ThreadOf(s.log[k]) == t; k;
      assert ThreadOf((s.log + [e])[i]) == t;
    }
  }

  lemma LockKeeps(s: System, e: Section)
    requires Invariant(s) && Enabled(s, Lock(e))
    ensures Invariant(Do(s, Lock(e)))
  {
    LongerLog(s.log, e);
    LogLonger(s, e);
    var s' := Do(s, Lock(e));
    forall i | 0 <= i < |s'.log|
      ensures PhaseFits(s', i) && (Made(s', i) <==> i < |s.log| && Made(s, i))
    {
      LockChanges(s, e, i);
    }
    forall d
      ensures DeliveredAt(s', d) <==> DeliveredAt(s, d)
    {
      if DeliveredAt(s, d) {
        var i :| 0 <= i < |s.log| && Made(s, i) && SentAt(s.log, i) == Some(d);
        assert Made(s', i) && SentAt(s'.log, i) == Some(d);
      }
    }
  }

  /** The call of the thread at k is the first to deliver what it holds. */
  lemma NotYetDelivered(s: System, k: nat)
    requires Invariant(s) && k < |s.log| && !Made(s, k) && SentAt(s.log, k).Some?
    ensures SentAt(s.log, k).value !in s.delivered
  {
    forall i | 0 <= i < |s.log| && Made(s, i)
      ensures SentAt(s.log, i) != SentAt(s.log, k)
    {
      if SentAt(s.log, i) == SentAt(s.log, k) {
        SentOnce(s.log, i, k, SentAt(s.log, k).value);
      }
    }
  }

  lemma CallChanges(s: System, k: nat, i: nat)
    requires PhasesFollowLog(s) && k < |s.log| && Enabled(s, Call(ThreadOf(s.log[k]))) && i < |s.log|
    ensures PhaseFits(Do(s, Call(ThreadOf(s.log[k]))), i)
    ensures Made(Do(s, Call(ThreadOf(s.log[k]))), i) <==> Made(s, i) || i == k
  {
    assert PhaseFits(s, i) && PhaseFits(s, k);
  }

  lemma CallDelivers(s: System, k: nat, d: Delivery)
    requires Invariant(s) && k < |s.log| && Enabled(s, Call(ThreadOf(s.log[k])))
    ensures d in Do(s, Call(ThreadOf(s.log[k]))).delivered <==> d in s.delivered || SentAt(s.log, k) == Some(d)
    ensures DeliveredAt(Do(s, Call(ThreadOf(s.log[k]))), d) <==> DeliveredAt(s, d) || SentAt(s.log, k) == Some(d)
  {
    assert PhaseFits(s, k);
    var s' := Do(s, Call(ThreadOf(s.log[k])));
    forall i | 0 <= i < |s.log|
      ensures Made(s', i) <==> Made(s, i) || i == k
    {
      CallChanges(s, k, i);
    }
    if DeliveredAt(s, d) {
      var i :| 0 <= i < |s.log| && Made(s, i) && SentAt(s.log, i) == Some(d);
      assert Made(s', i);
    }
    assert Made(s', k);
  }

  lemma CallKeeps(s: System, t: Thread)
    requires Invariant(s) && Enabled(s, Call(t))
    ensures Invariant(Do(s, Call(t)))
  {
    assert Logged(s.log, t);
    var k :| 0 <= k < |s.log| && ThreadOf(s.log[k]) == t;
    assert PhaseFits(s, k);
    if SentAt(s.log, k).Some? {
      NotYetDelivered(s, k);
    }
    forall i | 0 <= i < |s.log|
      ensures PhaseFits(Do(s, Call(t)), i)
    {
      CallChanges(s, k, i);
    }
    forall d
      ensures d in Do(s, Call(t)).delivered <==> DeliveredAt(Do(s, Call(t)), d)
    {
      CallDelivers(s, k, d);
    }
  }

  lemma {:induction false} RunKeeps(s: System, steps: seq<Step>, end: System)
    requires Invariant(s) && Runs(s, steps, end)
    ensures Invariant(end)
    decreases |steps|
  {
    if steps != [] {
      match steps[0] {
        case Lock(e) => LockKeeps(s, e);
        case Call(t) => CallKeeps(s, t);
      }
      RunKeeps(Do(s, steps[0]), steps[1..], end);
    }
  }

  // ----- what follows -----

  ghost predicate Reachable(s: System) {
    exists steps :: Runs(START, steps, s)
  }

  lemma ReachableKeeps(s: System)
    requires Reachable(s)
    ensures Invariant(s)
  {
    var steps :| Runs(START, steps, s);
    RunKeeps(START, steps, s);
  }

  function Count(delivered: seq<Delivery>, d: Delivery): nat {
    multiset(delivered)[d]
  }

  lemma {:induction false} CountDistinct(delivered: seq<Delivery>, d: Delivery)
    requires forall i, j | 0 <= i < j < |delivered| :: delivered[i] != delivered[j]
    ensures Count(delivered, d) == if d in delivered then 1 else 0
  {
    if delivered != [] {
      var front := delivered[..|delivered| - 1];
      CountDistinct(front, d);
      assert delivered == front + [delivered[|delivered| - 1]];
    }
  }

  /** In every interleaving, at every moment, no handler has been given a bundle twice, and it has only
      been given what the order of the lock sections makes due; once every call is complete it has been
      given exactly that. */
  lemma DeliveredIsDue(s: System, d: Delivery)
    requires Reachable(s)
    ensures Count(s.delivered, d) <= if Due(s.log, d) then 1 else 0
    ensures Complete(s) ==> Count(s.delivered, d) == if Due(s.log, d) then 1 else 0
  {
    ReachableKeeps(s);
    CountDistinct(s.delivered, d);
    if d in s.delivered {
      assert DeliveredAt(s, d);
      var i :| 0 <= i < |s.log| && Made(s, i) && SentAt(s.log, i) == Some(d);
      SentIsDue(s.log, i, d);
    }
    if Complete(s) && Due(s.log, d) {
      var k := DueIsSent(s.log, d);
      assert PhaseFits(s, k);
    }
  }

  /** One registration and any number of arrivals: once all calls are complete, the last bundle to enter
      the lock was delivered exactly once, whichever thread delivered it, as was every bundle that entered
      after the registration; one that a later bundle replaced before the registration never was. */
  lemma NewestDeliveredOnce(s: System, r: nat, newest: nat)
    requires Reachable(s) && Complete(s)
    requires OneRegistration(s.log, r, newest)
    ensures Count(s.delivered, Delivery(s.log[r].handler, s.log[newest].call)) == 1
    ensures forall j | 0 <= j < |s.log| && s.log[j].Stored? ::
      Count(s.delivered, Delivery(s.log[r].handler, s.log[j].call)) ==
        if r < j || NoneStored(s.log, j + 1, r) then 1 else 0
  {
    ReachableKeeps(s);
    forall j | 0 <= j < |s.log| && s.log[j].Stored?
      ensures Count(s.delivered, Delivery(s.log[r].handler, s.log[j].call)) ==
        if r < j || NoneStored(s.log, j + 1, r) then 1 else 0
    {
      var d := Delivery(s.log[r].handler, s.log[j].call);
      DeliveredIsDue(s, d);
      OnePlaceEach(s.log, r, j);
    }
  }

  lemma OnePlaceEach(log: seq<Section>, r: nat, j: nat)
    requires OncePerThread(log) && r < |log| && j < |log| && log[r].Registered? && log[r].given && log[j].Stored?
    ensures Due(log, Delivery(log[r].handler, log[j].call)) <==> Meet(log, r, j)
  {
    var d := Delivery(log[r].handler, log[j].call);
    if Due(log, d) {
      var i, k :| 0 <= i < |log| && 0 <= k < |log| && log[i] == Registered(d.handler, true) && log[k] == Stored(d.call)
        && Meet(log, i, k);
      assert ThreadOf(log[i]) == ThreadOf(log[r]) && ThreadOf(log[k]) == ThreadOf(log[j]);
      assert i == r && k == j;
    }
  }

  // ----- one listener at a time -----

  /** Bundles arrive through one reader whose listener takes them one after another: it has made its call
      for one before it enters the lock with the next. */
  ghost predicate ListenerReady(s: System, step: Step) {
    step.Lock? && step.section.Stored? ==> forall t | t in s.phases && t.Listener? :: s.phases[t].Finished?
  }

  ghost predicate SerialRuns(s: System, steps: seq<Step>, end: System)
    decreases |steps|
  {
    if steps == [] then s == end
    else Enabled(s, steps[0]) && ListenerReady(s, steps[0]) && SerialRuns(Do(s, steps[0]), steps[1..], end)
  }

  lemma {:induction false} SerialRunsRun(s: System, steps: seq<Step>, end: System)
    requires SerialRuns(s, steps, end)
    ensures Runs(s, steps, end)
    decreases |steps|
  {
    if steps != [] {
      SerialRunsRun(Do(s, steps[0]), steps[1..], end);
    }
  }

  function Sends(log: seq<Section>, calls: seq<nat>): seq<Delivery>
    requires forall k | 0 <= k < |calls| :: calls[k] < |log|
  {
    if calls == [] then []
    else
      var n := |calls| - 1;
      var front := Sends(log, calls[..n]);
      if SentAt(log, calls[n]).Some? then front + [SentAt(log, calls[n]).value] else front
  }

  ghost predicate CallsAreMade(s: System) {
    && (forall k | 0 <= k < |s.calls| :: s.calls[k] < |s.log| && Made(s, s.calls[k]))
    && (forall i | 0 <= i < |s.log| && Made(s, i) :: i in s.calls)
    && (forall j, k | 0 <= j < k < |s.calls| :: s.calls[j] != s.calls[k])
    && s.delivered == Sends(s.log, s.calls)
  }

  ghost predicate StoredCallsAscend(log: seq<Section>, calls: seq<nat>) {
    forall j, k | 0 <= j < k < |calls| && calls[j] < |log| && calls[k] < |log| ::
      log[calls[j]].Stored? && log[calls[k]].Stored? ==> calls[j] < calls[k]
  }

  lemma OneMoreAscends(log: seq<Section>, calls: seq<nat>, k: nat)
    requires StoredCallsAscend(log, calls) && k < |log|
    requires forall j | 0 <= j < |calls| && calls[j] < |log| :: log[calls[j]].Stored? && log[k].Stored? ==> calls[j] < k
    ensures StoredCallsAscend(log, calls + [k])
  {
  }

  lemma LongerLogAscends(log: seq<Section>, e: Section, calls: seq<nat>)
    requires StoredCallsAscend(log, calls) && forall k | 0 <= k < |calls| :: calls[k] < |log|
    ensures StoredCallsAscend(log + [e], calls)
  {
  }

  /** The listener calls in the order in which it stored, and only its newest bundle may still be held. */
  ghost predicate ListenerInOrder(s: System) {
    && StoredCallsAscend(s.log, s.calls)
    && forall i | 0 <= i < |s.log| && s.log[i].Stored? && !Made(s, i) :: NoneStored(s.log, i + 1, |s.log|)
  }

  lemma {:induction false} SendsLonger(log: seq<Section>, e: Section, calls: seq<nat>)
    requires forall k | 0 <= k < |calls| :: calls[k] < |log|
    ensures Sends(log + [e], calls) == Sends(log, calls)
  {
    if calls != [] {
      LongerLog(log, e);
      SendsLonger(log, e, calls[..|calls| - 1]);
    }
  }

  lemma LockKeepsCalls(s: System, e: Section)
    requires Invariant(s) && Enabled(s, Lock(e)) && CallsAreMade(s)
    ensures CallsAreMade(Do(s, Lock(e)))
  {
    SendsLonger(s.log, e, s.calls);
    forall i | 0 <= i <= |s.log|
      ensures Made(Do(s, Lock(e)), i) <==> i < |s.log| && Made(s, i)
    {
      LockChanges(s, e, i);
    }
  }

  lemma LockKeepsOrder(s: System, e: Section)
    requires Invariant(s) && Enabled(s, Lock(e)) && ListenerReady(s, Lock(e)) && CallsAreMade(s) && ListenerInOrder(s)
    ensures ListenerInOrder(Do(s, Lock(e)))
  {
    var s' := Do(s, Lock(e));
    LongerLogAscends(s.log, e, s.calls);
    forall i | 0 <= i < |s'.log| && s'.log[i].Stored? && !Made(s', i)
      ensures NoneStored(s'.log, i + 1, |s'.log|)
    {
      LockChanges(s, e, i);
      if i < |s.log| {
        assert PhaseFits(s, i);
        assert NoneStored(s.log, i + 1, |s.log|);
      }
    }
  }

  lemma CallPlace(s: System, t: Thread)
    requires Invariant(s) && Enabled(s, Call(t))
    ensures Place(s.log, t) < |s.log| && ThreadOf(s.log[Place(s.log, t)]) == t && !Made(s, Place(s.log, t))
    ensures s.phases[t].send == SentAt(s.log, Place(s.log, t))
  {
    assert Logged(s.log, t);
    assert PhaseFits(s, Place(s.log, t));
  }

  lemma CallMakes(s: System, t: Thread)
    requires Invariant(s) && Enabled(s, Call(t))
    ensures var k := Place(s.log, t);
      && k < |s.log| && ThreadOf(s.log[k]) == t && !Made(s, k)
      && Do(s, Call(t)).log == s.log && Do(s, Call(t)).calls == s.calls + [k]
      && forall i | 0 <= i < |s.log| :: Made(Do(s, Call(t)), i) <==> Made(s, i) || i == k
  {
    var k := Place(s.log, t);
    CallPlace(s, t);
    forall i | 0 <= i < |s.log|
      ensures Made(Do(s, Call(t)), i) <==> Made(s, i) || i == k
    {
      CallChanges(s, k, i);
    }
  }

  lemma CallSends(s: System, t: Thread)
    requires Invariant(s) && Enabled(s, Call(t)) && CallsAreMade(s)
    ensures Place(s.log, t) < |s.log| && Do(s, Call(t)).delivered == Sends(s.log, s.calls + [Place(s.log, t)])
  {
    CallPlace(s, t);
    assert (s.calls + [Place(s.log, t)])[..|s.calls|] == s.calls;
  }

  lemma CallKeepsCalls(s: System, t: Thread)
    requires Invariant(s) && Enabled(s, Call(t)) && CallsAreMade(s)
    ensures CallsAreMade(Do(s, Call(t)))
  {
    CallMakes(s, t);
    CallSends(s, t);
    assert Place(s.log, t) !in s.calls;
  }

  lemma CallKeepsOrder(s: System, t: Thread)
    requires Invariant(s) && Enabled(s, Call(t)) && CallsAreMade(s) && ListenerInOrder(s)
    ensures ListenerInOrder(Do(s, Call(t)))
  {
    CallMakes(s, t);
    var k := Place(s.log, t);
    forall j | 0 <= j < |s.calls| && s.log[s.calls[j]].Stored? && s.log[k].Stored?
      ensures s.calls[j] < k
    {
      assert NoneStored(s.log, k + 1, |s.log|);
    }
    OneMoreAscends(s.log, s.calls, k);
  }

  lemma {:induction false} SerialKeeps(s: System, steps: seq<Step>, end: System)
    requires Invariant(s) && CallsAreMade(s) && ListenerInOrder(s) && SerialRuns(s, steps, end)
    ensures Invariant(end) && CallsAreMade(end) && ListenerInOrder(end)
    decreases |steps|
  {
    if steps != [] {
      match steps[0] {
        case Lock(e) =>
          LockKeeps(s, e);
          LockKeepsCalls(s, e);
          LockKeepsOrder(s, e);
        case Call(t) =>
          CallKeeps(s, t);
          CallKeepsCalls(s, t);
          CallKeepsOrder(s, t);
      }
      SerialKeeps(Do(s, steps[0]), steps[1..], end);
    }
  }

  ghost predicate SerialReachable(s: System) {
    exists steps :: SerialRuns(START, steps, s)
  }

  lemma SerialOk(s: System)
    requires SerialReachable(s)
    ensures Reachable(s) && Invariant(s) && CallsAreMade(s) && ListenerInOrder(s)
  {
    var steps :| SerialRuns(START, steps, s);
    SerialRunsRun(START, steps, s);
    SerialKeeps(START, steps, s);
  }

  /** The one registration at r, and the newest bundle at `newest`. */
  ghost predicate OneRegistration(log: seq<Section>, r: nat, newest: nat) {
    && r < |log| && newest < |log| && log[r].Registered? && log[r].given
    && (forall i | 0 <= i < |log| && log[i].Registered? :: i == r)
    && log[newest].Stored? && NoneStored(log, newest + 1, |log|)
  }

  /** The registering thread delivers the bundle it found after the listener has delivered the newest. */
  ghost predicate RegistrarCallsLast(s: System, r: nat, newest: nat) {
    r < newest && r < |s.log| && SentAt(s.log, r).Some? && exists j, k | 0 <= j < k < |s.calls| ::
      s.calls[j] == newest && s.calls[k] == r
  }

  lemma SentToTheOne(log: seq<Section>, r: nat, newest: nat)
    requires OneRegistration(log, r, newest) && OncePerThread(log) && r < newest
    ensures SentAt(log, newest) == Some(Delivery(log[r].handler, log[newest].call))
    ensures SentAt(log, r).Some? ==> SentAt(log, r).value.call != log[newest].call
  {
    var before := log[..newest];
    var i := HandlerSetBy(before);
    assert before[r] == log[r];
    assert i == r;
    if SentAt(log, r).Some? {
      SentIsDue(log, r, SentAt(log, r).value);
      OtherCameFirst(log, r, SentAt(log, r).value, newest);
    }
  }

  /** Nothing but the registering thread can call after the listener's call for the newest. */
  lemma AfterTheNewest(s: System, r: nat, newest: nat, k: nat)
    requires CallsAreMade(s) && ListenerInOrder(s) && OneRegistration(s.log, r, newest)
    requires k < |s.calls| && s.calls[k] == newest
    ensures k == |s.calls| - 1 || (k == |s.calls| - 2 && s.calls[k + 1] == r)
  {
    var later := s.calls[k + 1..];
    forall j | 0 <= j < |later|
      ensures later[j] == r
    {
      assert later[j] == s.calls[k + 1 + j];
    }
    OnlyOnce(later, r);
  }

  lemma OnlyOnce(later: seq<nat>, r: nat)
    requires forall j | 0 <= j < |later| :: later[j] == r
    requires |later| >= 2 ==> later[0] != later[1]
    ensures |later| <= 1
  {
  }

  lemma RegisteredAfterNewest(s: System, r: nat, newest: nat)
    requires SerialReachable(s) && Complete(s) && OneRegistration(s.log, r, newest) && newest < r
    ensures s.delivered != [] && s.delivered[|s.delivered| - 1] == Delivery(s.log[r].handler, s.log[newest].call)
  {
    SerialOk(s);
    var d := Delivery(s.log[r].handler, s.log[newest].call);
    NewestDeliveredOnce(s, r, newest);
    assert d in s.delivered;
    var last := s.delivered[|s.delivered| - 1];
    DeliveredIsDue(s, last);
    CountDistinct(s.delivered, last);
    OnlyTheNewestDue(s.log, r, newest, last);
  }

  /** What the calls from the newest's on leave as the last delivery. */
  lemma LastOfCalls(log: seq<Section>, calls: seq<nat>, r: nat, k: nat)
    requires k < |calls| && (forall j | 0 <= j < |calls| :: calls[j] < |log|) && SentAt(log, calls[k]).Some?
    requires k == |calls| - 1 || (k == |calls| - 2 && calls[k + 1] == r)
    ensures var sends := Sends(log, calls);
      sends != [] && sends[|sends| - 1] ==
        if k < |calls| - 1 && SentAt(log, r).Some? then SentAt(log, r).value else SentAt(log, calls[k]).value
  {
    LastSends(log, calls);
    if k < |calls| - 1 {
      LastSends(log, calls[..k + 1]);
    }
  }

  lemma RegisteredBeforeNewest(s: System, r: nat, newest: nat, k: nat)
    requires OncePerThread(s.log) && CallsAreMade(s) && ListenerInOrder(s) && OneRegistration(s.log, r, newest)
    requires r < newest
    requires k < |s.calls| && s.calls[k] == newest
    ensures s.delivered != []
    ensures s.delivered[|s.delivered| - 1] == Delivery(s.log[r].handler, s.log[newest].call) <==>
      !RegistrarCallsLast(s, r, newest)
  {
    SentToTheOne(s.log, r, newest);
    AfterTheNewest(s, r, newest, k);
    LastOfCalls(s.log, s.calls, r, k);
    LateExactlyWhen(s, r, newest, k);
  }

  lemma LateExactlyWhen(s: System, r: nat, newest: nat, k: nat)
    requires CallsAreMade(s) && r < newest && r < |s.log| && k < |s.calls| && s.calls[k] == newest
    requires k == |s.calls| - 1 || (k == |s.calls| - 2 && s.calls[k + 1] == r)
    ensures RegistrarCallsLast(s, r, newest) <==> k < |s.calls| - 1 && SentAt(s.log, r).Some?
  {
  }

  /** With one registration and all calls complete, what the handler is left with is the newest bundle exactly
      when the registering thread did not deliver an older one after the listener had delivered the newest. */
  lemma LastIsNewestExactlyWhen(s: System, r: nat, newest: nat)
    requires SerialReachable(s) && Complete(s) && OneRegistration(s.log, r, newest)
    ensures s.delivered != []
    ensures s.delivered[|s.delivered| - 1] == Delivery(s.log[r].handler, s.log[newest].call) <==>
      !RegistrarCallsLast(s, r, newest)
  {
    if newest < r {
      RegisteredAfterNewest(s, r, newest);
    } else {
      SerialOk(s);
      assert PhaseFits(s, newest);
      var k :| 0 <= k < |s.calls| && s.calls[k] == newest;
      RegisteredBeforeNewest(s, r, newest, k);
    }
  }

  lemma LastSends(log: seq<Section>, calls: seq<nat>)
    requires calls != [] && forall k | 0 <= k < |calls| :: calls[k] < |log|
    ensures var n, sends := |calls| - 1, Sends(log, calls);
      if SentAt(log, calls[n]).Some? then sends != [] && sends[|sends| - 1] == SentAt(log, calls[n]).value
      else sends == Sends(log, calls[..n])
  {
  }

  lemma OnlyTheNewestDue(log: seq<Section>, r: nat, newest: nat, d: Delivery)
    requires OneRegistration(log, r, newest) && newest < r && Due(log, d)
    ensures d == Delivery(log[r].handler, log[newest].call)
  {
    var i, j :| 0 <= i < |log| && 0 <= j < |log| && log[i] == Registered(d.handler, true) && log[j] == Stored(d.call)
      && Meet(log, i, j);
    assert i == r && j <= newest;
  }

  /** The order of deliveries is not the order of the lock sections: a registering thread that found one
      bundle may deliver it after the listener has delivered the next, and the handler is then left with
      the older one. */
  lemma NewestMayComeFirst() returns (s: System)
    ensures SerialReachable(s) && Complete(s)
    ensures s.log == [Stored(0), Registered(0, true), Stored(1)]
    ensures s.delivered == [Delivery(0, 1), Delivery(0, 0)]
    ensures s.guarded == Guarded(Some(0), Some(1)) && s.phases.Keys == {Listener(0), Registrar(0), Listener(1)}
  {
    s := RegistrarFindsOne();
    s := SerialThen(s, Lock(Stored(1)));
    s := SerialThen(s, Call(Listener(1)));
    s := SerialThen(s, Call(Registrar(0)));
  }

  lemma RegistrarFindsOne() returns (s: System)
    ensures SerialReachable(s) && s.delivered == []
    ensures s.guarded == Guarded(Some(0), Some(0)) && s.log == [Stored(0), Registered(0, true)]
    ensures s.phases == map[Listener(0) := Finished, Registrar(0) := Holding(Some(Delivery(0, 0)))]
  {
    SerialStart();
    s := SerialThen(START, Lock(Stored(0)));
    s := SerialThen(s, Call(Listener(0)));
    s := SerialThen(s, Lock(Registered(0, true)));
  }

  /** Calling after a later bundle's call is not yet what leaves the handler with an old one: the newest may
      still follow. */
  lemma OlderMayComeBetween() returns (s: System)
    ensures SerialReachable(s) && Complete(s)
    ensures s.log == [Stored(0), Registered(0, true), Stored(1), Stored(2)]
    ensures s.delivered == [Delivery(0, 1), Delivery(0, 0), Delivery(0, 2)]
  {
    s := NewestMayComeFirst();
    s := SerialThen(s, Lock(Stored(2)));
    s := SerialThen(s, Call(Listener(2)));
  }

  lemma SerialStart()
    ensures SerialReachable(START)
  {
    assert SerialRuns(START, [], START);
  }

  lemma SerialThen(s: System, step: Step) returns (s': System)
    requires SerialReachable(s) && Enabled(s, step) && ListenerReady(s, step)
    ensures s' == Do(s, step) && SerialReachable(s')
  {
    s' := Do(s, step);
    var steps :| SerialRuns(START, steps, s);
    SerialRunsThen(START, steps, s, step);
  }

  lemma {:induction false} SerialRunsThen(first: System, steps: seq<Step>, s: System, step: Step)
    requires SerialRuns(first, steps, s) && Enabled(s, step) && ListenerReady(s, step)
    ensures SerialRuns(first, steps + [step], Do(s, step))
    decreases |steps|
  {
    if steps == [] {
      assert ([] + [step])[1..] == [];
    } else {
      SerialRunsThen(Do(first, steps[0]), steps[1..], s, step);
      assert (steps + [step])[1..] == steps[1..] + [step];
    }
  }
}
