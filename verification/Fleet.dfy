/** What the server knows about each machine and how it classifies them
    (libs/core/src/client_registry.cpp, libs/core/src/fleet.cpp). Times are clock ticks. */
module Fleet {
  import opened Base
  import opened Text
  import opened Sorting

  datatype Capability = Resources | Processes | Services | Registry | Network | Dds | Scripts | Elevated

  datatype HostState = Missing | Offline | Unexpected | Online | Paused

  function StateText(state: HostState): string {
    match state
    case Online => "Online"
    case Offline => "Offline"
    case Missing => "Missing"
    case Unexpected => "Unexpected"
    case Paused => "Paused"
  }

  datatype ExpectedHost = ExpectedHost(hostId: HostId, address: string)

  datatype DiscoveredClient = DiscoveredClient(
    hostId: HostId, lastSeen: int, caps: set<Capability>, appliedRevision: nat, paused: bool)

  datatype FleetEntry = FleetEntry(
    hostId: HostId, address: string, state: HostState, lastSeen: Option<int>, stale: bool,
    caps: set<Capability>)

  datatype FleetCounts = FleetCounts(
    online: nat, offline: nat, missing: nat, unexpected: nat, paused: nat, stale: nat)

  datatype FleetView = FleetView(entries: seq<FleetEntry>, counts: FleetCounts)

  datatype ReconcileOptions = ReconcileOptions(livelinessLease: nat, currentRevision: nat)

  // ----- the registry -----

  type Clients = map<HostId, DiscoveredClient>

  datatype RegistryEvent =
    | Announced(hostId: HostId, caps: set<Capability>, paused: bool, at: int)
    | Sampled(hostId: HostId, at: int)
    | Reported(hostId: HostId, revision: nat, at: int)
    | Lost(hostId: HostId)

  function Touched(clients: Clients, hostId: HostId, at: int): DiscoveredClient {
    if hostId !in clients then DiscoveredClient(hostId, at, {}, 0, false)
    else if at > clients[hostId].lastSeen then clients[hostId].(lastSeen := at)
    else clients[hostId]
  }

  function Recorded(clients: Clients, event: RegistryEvent): Clients {
    match event
    case Announced(h, caps, paused, at) => clients[h := Touched(clients, h, at).(caps := caps, paused := paused)]
    case Sampled(h, at) => clients[h := Touched(clients, h, at)]
    case Reported(h, revision, at) => clients[h := Touched(clients, h, at).(appliedRevision := revision)]
    case Lost(h) => clients - {h}
  }

  class ClientRegistry {
    var clients: Clients

    constructor ()
      ensures clients == map[]
    {
      clients := map[];
    }

    method Touch(hostId: HostId, seenAt: int)
      modifies this
      ensures clients == Recorded(old(clients), Sampled(hostId, seenAt))
    {
      if hostId !in clients {
        clients := clients[hostId := DiscoveredClient(hostId, seenAt, {}, 0, false)];
      } else if seenAt > clients[hostId].lastSeen {
        clients := clients[hostId := clients[hostId].(lastSeen := seenAt)];
      }
    }

    method RecordAnnounce(hostId: HostId, caps: set<Capability>, paused: bool, seenAt: int)
      modifies this
      ensures clients == Recorded(old(clients), Announced(hostId, caps, paused, seenAt))
    {
      Touch(hostId, seenAt);
      clients := clients[hostId := clients[hostId].(caps := caps, paused := paused)];
    }

    method RecordReport(hostId: HostId, revision: nat, seenAt: int)
      modifies this
      ensures clients == Recorded(old(clients), Reported(hostId, revision, seenAt))
    {
      Touch(hostId, seenAt);
      clients := clients[hostId := clients[hostId].(appliedRevision := revision)];
    }

    method MarkLost(hostId: HostId)
      modifies this
      ensures clients == Recorded(old(clients), Lost(hostId))
    {
      clients := clients - {hostId};
    }

    /** The clients in the order of their ids. */
    method Snapshot() returns (discovered: seq<DiscoveredClient>)
      requires forall h | h in clients :: clients[h].hostId == h
      ensures IsSnapshot(discovered, clients)
      ensures forall i, j | 0 <= i < j < |discovered| :: Less(discovered[i].hostId, discovered[j].hostId)
    {
      discovered := [];
      var pending := clients.Keys;
      while pending != {}
        invariant pending <= clients.Keys
        invariant forall i | 0 <= i < |discovered| ::
            discovered[i].hostId in clients && clients[discovered[i].hostId] == discovered[i]
        invariant forall h | h in clients :: h in pending || clients[h] in discovered
        invariant forall i, h | 0 <= i < |discovered| && h in pending :: Less(discovered[i].hostId, h)
        invariant forall i, j | 0 <= i < j < |discovered| :: Less(discovered[i].hostId, discovered[j].hostId)
        decreases pending
      {
        ghost var least := LeastHost(pending);
        var h :| h in pending && forall other | other in pending && other != h :: Less(h, other);
        discovered := discovered + [clients[h]];
        pending := pending - {h};
      }
    }
  }

  /** Each client once, and nothing else. */
  ghost predicate IsSnapshot(discovered: seq<DiscoveredClient>, clients: Clients) {
    && (forall i | 0 <= i < |discovered| ::
          discovered[i].hostId in clients && clients[discovered[i].hostId] == discovered[i])
    && forall h | h in clients :: clients[h] in discovered
  }

  lemma SnapshotIsLatest(discovered: seq<DiscoveredClient>, clients: Clients)
    requires IsSnapshot(discovered, clients) && forall h | h in clients :: clients[h].hostId == h
    ensures LatestOf(discovered) == clients
  {
    var latest := LatestOf(discovered);
    forall h
      ensures h in latest <==> h in clients
      ensures h in latest ==> latest[h] == clients[h]
    {
      LatestIsNewest(discovered, h);
      if h in clients {
        var i :| 0 <= i < |discovered| && discovered[i] == clients[h];
      }
    }
  }

  function Replay(events: seq<RegistryEvent>): Clients {
    if events == [] then map[] else Recorded(Replay(events[..|events| - 1]), events[|events| - 1])
  }

  /** Event i tells of h and h was not lost after it. */
  ghost predicate Live(events: seq<RegistryEvent>, h: HostId, i: int) {
    && 0 <= i < |events|
    && events[i].hostId == h && !events[i].Lost?
    && forall j | i < j < |events| :: events[j] != Lost(h)
  }

  lemma LiveStep(events: seq<RegistryEvent>, h: HostId, i: int)
    requires events != []
    ensures var n := |events| - 1;
      Live(events, h, i) <==>
        (if i == n then events[n].hostId == h && !events[n].Lost?
         else events[n] != Lost(h) && Live(events[..n], h, i))
  {
  }

  /** After any events in any order, a host is known exactly when it was heard of since it was last
      lost, and its lastSeen is the newest time it was heard of since then. */
  lemma {:induction false} LastSeenIsNewest(events: seq<RegistryEvent>, h: HostId)
    ensures h in Replay(events) <==> exists i :: Live(events, h, i)
    ensures h in Replay(events) ==>
      && Replay(events)[h].hostId == h
      && (exists i :: Live(events, h, i) && events[i].at == Replay(events)[h].lastSeen)
      && (forall i | Live(events, h, i) :: events[i].at <= Replay(events)[h].lastSeen)
  {
    if events != [] {
      var n := |events| - 1;
      var front := events[..n];
      LastSeenIsNewest(front, h);
      forall i: int
        ensures Live(events, h, i) <==>
          (if i == n then events[n].hostId == h && !events[n].Lost? else events[n] != Lost(h) && Live(front, h, i))
      {
        LiveStep(events, h, i);
      }
      if events[n].hostId == h {
        if !events[n].Lost? {
          assert Live(events, h, n);
          if h in Replay(front) && events[n].at <= Replay(front)[h].lastSeen {
            var i :| Live(front, h, i) && front[i].at == Replay(front)[h].lastSeen;
            assert Live(events, h, i) && events[i].at == Replay(events)[h].lastSeen;
          } else {
            assert events[n].at == Replay(events)[h].lastSeen;
            forall i | Live(events, h, i)
              ensures events[i].at <= Replay(events)[h].lastSeen
            {
              assert i == n || Live(front, h, i);
            }
          }
        }
      } else if h in Replay(front) {
        var i :| Live(front, h, i) && front[i].at == Replay(front)[h].lastSeen;
        assert Live(events, h, i) && events[i].at == Replay(events)[h].lastSeen;
      }
    }
  }

  /** The newest announce since the host was last lost says what it can do and whether it is paused;
      the newest report since then says what it applied. Neither kind disturbs the other's fields. */
  lemma {:induction false} NewestOfEachKindWins(events: seq<RegistryEvent>, h: HostId, i: nat)
    requires Live(events, h, i)
    ensures h in Replay(events)
    ensures events[i].Announced? && (forall j | i < j < |events| && events[j].hostId == h :: !events[j].Announced?) ==>
      Replay(events)[h].caps == events[i].caps && Replay(events)[h].paused == events[i].paused
    ensures events[i].Reported? && (forall j | i < j < |events| && events[j].hostId == h :: !events[j].Reported?) ==>
      Replay(events)[h].appliedRevision == events[i].revision
    decreases |events|
  {
    var n := |events| - 1;
    if i < n {
      LiveStep(events, h, i);
      NewestOfEachKindWins(events[..n], h, i);
    }
  }

  // ----- which hosts are expected -----

  ghost predicate HostsAscend(hosts: seq<ExpectedHost>, from: nat) {
    forall i, j | from <= i < j < |hosts| :: Less(hosts[i].hostId, hosts[j].hostId)
  }

  lemma LeastHost(hosts: set<HostId>) returns (h: HostId)
    requires hosts != {}
    ensures h in hosts && forall other | other in hosts && other != h :: Less(h, other)
    decreases hosts
  {
    h :| h in hosts;
    var rest := hosts - {h};
    assert forall other | other in hosts && other != h :: other in rest;
    if rest != {} {
      var least := LeastHost(rest);
      LessTotal(h, least);
      if Less(h, least) {
        forall other | other in hosts && other != h
          ensures Less(h, other)
        {
          if other != least {
            LessTransitive(h, least, other);
          }
        }
      } else {
        h := least;
      }
    }
  }

  /** hosts is `expected`, then those of `added` that it lacks, without an address and in the order of their
      ids. */
  ghost predicate ExtendedBy(hosts: seq<ExpectedHost>, expected: seq<ExpectedHost>, added: set<HostId>) {
    && expected <= hosts && Ids(hosts) == Ids(expected) + added
    && (forall i | |expected| <= i < |hosts| :: hosts[i].address == "" && hosts[i].hostId !in Ids(expected))
    && HostsAscend(hosts, |expected|)
    && (DistinctIds(expected) ==> DistinctIds(hosts))
  }

  lemma AddedAreTail(hosts: seq<ExpectedHost>, expected: seq<ExpectedHost>, added: set<HostId>)
    requires ExtendedBy(hosts, expected, added)
    ensures forall i | |expected| <= i < |hosts| :: hosts[i].hostId in added
  {
    forall i | |expected| <= i < |hosts|
      ensures hosts[i].hostId in Ids(hosts)
    {
      assert hosts[i] in hosts;
    }
  }

  lemma AppendDistinct(hosts: seq<ExpectedHost>, host: ExpectedHost)
    requires host.hostId !in Ids(hosts)
    ensures DistinctIds(hosts) ==> DistinctIds(hosts + [host])
  {
    assert forall i | 0 <= i < |hosts| :: hosts[i] in hosts && hosts[i].hostId != host.hostId;
  }

  lemma AppendAscends(hosts: seq<ExpectedHost>, from: nat, host: ExpectedHost)
    requires HostsAscend(hosts, from) && forall i | from <= i < |hosts| :: Less(hosts[i].hostId, host.hostId)
    ensures HostsAscend(hosts + [host], from)
  {
  }

  lemma ExtendByNew(hosts: seq<ExpectedHost>, expected: seq<ExpectedHost>, added: set<HostId>, h: HostId)
    requires ExtendedBy(hosts, expected, added) && h !in Ids(hosts) && forall other | other in added :: Less(other, h)
    ensures ExtendedBy(hosts + [ExpectedHost(h, "")], expected, added + {h})
  {
    var longer := hosts + [ExpectedHost(h, "")];
    AddedAreTail(hosts, expected, added);
    AppendDistinct(hosts, ExpectedHost(h, ""));
    AppendAscends(hosts, |expected|, ExpectedHost(h, ""));
    IdsGrow(hosts, ExpectedHost(h, ""));
    forall i | |expected| <= i < |longer|
      ensures longer[i].address == "" && longer[i].hostId !in Ids(expected)
    {
      assert i < |hosts| ==> longer[i] == hosts[i];
    }
  }

  lemma ExtendByOne(hosts: seq<ExpectedHost>, expected: seq<ExpectedHost>, added: set<HostId>, h: HostId)
    requires ExtendedBy(hosts, expected, added) && forall other | other in added :: Less(other, h)
    ensures ExtendedBy(if h in Ids(hosts) then hosts else hosts + [ExpectedHost(h, "")], expected, added + {h})
  {
    if h !in Ids(hosts) {
      ExtendByNew(hosts, expected, added, h);
    }
  }

  /** The operator's list, then every assigned host it does not already hold, in the order of their ids, as
      the map of assignments has them (apps/server/server_controller.cpp). Explicit entries win, and distinct
      ids stay distinct. */
  method EffectiveExpectedHosts(expected: seq<ExpectedHost>, withTemplates: set<HostId>)
    returns (hosts: seq<ExpectedHost>)
    ensures expected <= hosts && Ids(hosts) == Ids(expected) + withTemplates
    ensures forall i | |expected| <= i < |hosts| :: hosts[i].address == "" && hosts[i].hostId !in Ids(expected)
    ensures HostsAscend(hosts, |expected|)
    ensures DistinctIds(expected) ==> DistinctIds(hosts)
  {
    hosts := expected;
    var pending := withTemplates;
    ghost var added := {};
    while pending != {}
      invariant added + pending == withTemplates && ExtendedBy(hosts, expected, added)
      invariant forall a, p | a in added && p in pending :: Less(a, p)
      decreases pending
    {
      ghost var least := LeastHost(pending);
      var h :| h in pending && forall other | other in pending && other != h :: Less(h, other);
      ExtendByOne(hosts, expected, added, h);
      if h !in Ids(hosts) {
        hosts := hosts + [ExpectedHost(h, "")];
      }
      pending, added := pending - {h}, added + {h};
    }
  }

  lemma IdsGrow(hosts: seq<ExpectedHost>, host: ExpectedHost)
    ensures Ids(hosts + [host]) == Ids(hosts) + {host.hostId}
  {
    assert forall x :: x in hosts + [host] <==> x in hosts || x == host;
  }

  // ----- reconcile -----

  function LatestOf(discovered: seq<DiscoveredClient>): Clients {
    if discovered == [] then map[]
    else
      var latest := LatestOf(discovered[..|discovered| - 1]);
      var client := discovered[|discovered| - 1];
      if client.hostId !in latest || client.lastSeen > latest[client.hostId].lastSeen
      then latest[client.hostId := client] else latest
  }

  /** One sighting per host, the newest. */
  lemma {:induction false} LatestIsNewest(discovered: seq<DiscoveredClient>, h: HostId)
    ensures h in LatestOf(discovered) <==> exists i | 0 <= i < |discovered| :: discovered[i].hostId == h
    ensures h in LatestOf(discovered) ==>
      && LatestOf(discovered)[h] in discovered
      && LatestOf(discovered)[h].hostId == h
      && forall i | 0 <= i < |discovered| && discovered[i].hostId == h ::
           discovered[i].lastSeen <= LatestOf(discovered)[h].lastSeen
  {
    if discovered != [] {
      var front, last := discovered[..|discovered| - 1], discovered[|discovered| - 1];
      LatestIsNewest(front, h);
      assert discovered == front + [last];
    }
  }

  predicate WithinLease(lastSeen: int, now: int, lease: nat) {
    lastSeen >= now || now - lastSeen <= lease
  }

  function ExpectedEntry(host: ExpectedHost, latest: Clients, now: int, options: ReconcileOptions): FleetEntry {
    if host.hostId !in latest then FleetEntry(host.hostId, host.address, Missing, None, false, {})
    else
      var seen := latest[host.hostId];
      FleetEntry(
        host.hostId, host.address,
        if !WithinLease(seen.lastSeen, now, options.livelinessLease) then Offline
        else if seen.paused then Paused else Online,
        Some(seen.lastSeen), seen.appliedRevision != options.currentRevision, seen.caps)
  }

  function UnexpectedEntry(hostId: HostId, client: DiscoveredClient, options: ReconcileOptions): FleetEntry {
    FleetEntry(hostId, "", Unexpected, Some(client.lastSeen), client.appliedRevision != options.currentRevision,
      client.caps)
  }

  function ExpectedEntries(expected: seq<ExpectedHost>, latest: Clients, now: int,
                           options: ReconcileOptions): seq<FleetEntry> {
    seq(|expected|, i requires 0 <= i < |expected| => ExpectedEntry(expected[i], latest, now, options))
  }

  function Ids(expected: seq<ExpectedHost>): set<HostId> {
    set host | host in expected :: host.hostId
  }

  function UnexpectedEntries(ids: set<HostId>, latest: Clients, options: ReconcileOptions): set<FleetEntry>
    requires ids <= latest.Keys
  {
    set h | h in ids :: UnexpectedEntry(h, latest[h], options)
  }

  function Urgency(state: HostState): nat {
    match state
    case Missing => 0
    case Offline => 1
    case Unexpected => 2
    case Paused => 3
    case Online => 4
  }

  predicate MoreUrgent(a: FleetEntry, b: FleetEntry) {
    if Urgency(a.state) != Urgency(b.state) then Urgency(a.state) < Urgency(b.state) else Less(a.hostId, b.hostId)
  }

  lemma UrgencyIsAnOrder()
    ensures StrictWeakOrder(MoreUrgent)
  {
    forall a, b | MoreUrgent(a, b)
      ensures !MoreUrgent(b, a)
    {
      if Urgency(a.state) == Urgency(b.state) {
        LessAsymmetric(a.hostId, b.hostId);
      }
    }
    forall a, b, c | !MoreUrgent(b, a) && !MoreUrgent(c, b)
      ensures !MoreUrgent(c, a)
    {
      if MoreUrgent(c, a) && Urgency(a.state) == Urgency(c.state) {
        LessTotal(a.hostId, b.hostId);
        LessTotal(b.hostId, c.hostId);
        LessAsymmetric(c.hostId, a.hostId);
        if a.hostId != b.hostId && b.hostId != c.hostId {
          LessTransitive(a.hostId, b.hostId, c.hostId);
        }
      }
    }
  }

  function CountWhere(entries: seq<FleetEntry>, state: HostState): nat {
    if entries == [] then 0
    else (if entries[|entries| - 1].state == state then 1 else 0) + CountWhere(entries[..|entries| - 1], state)
  }

  function CountStale(entries: seq<FleetEntry>): nat {
    if entries == [] then 0
    else (if entries[|entries| - 1].stale then 1 else 0) + CountStale(entries[..|entries| - 1])
  }

  function CountsOf(entries: seq<FleetEntry>): FleetCounts {
    FleetCounts(
      CountWhere(entries, Online), CountWhere(entries, Offline), CountWhere(entries, Missing),
      CountWhere(entries, Unexpected), CountWhere(entries, Paused), CountStale(entries))
  }

  function Counted(counts: FleetCounts, entry: FleetEntry): FleetCounts {
    var c := match entry.state
      case Online => counts.(online := counts.online + 1)
      case Offline => counts.(offline := counts.offline + 1)
      case Missing => counts.(missing := counts.missing + 1)
      case Unexpected => counts.(unexpected := counts.unexpected + 1)
      case Paused => counts.(paused := counts.paused + 1);
    if entry.stale then c.(stale := c.stale + 1) else c
  }

  /** What reconcile promises: the right entries, in order, counted. */
  ghost predicate IsReconciled(view: FleetView, expected: seq<ExpectedHost>, discovered: seq<DiscoveredClient>,
                               now: int, options: ReconcileOptions) {
    var latest := LatestOf(discovered);
    && multiset(view.entries) == multiset(ExpectedEntries(expected, latest, now, options))
         + multiset(UnexpectedEntries(latest.Keys - Ids(expected), latest, options))
    && Sorted(view.entries, MoreUrgent)
    && view.counts == CountsOf(view.entries)
  }

  method CollapseSightings(discovered: seq<DiscoveredClient>) returns (latest: Clients)
    ensures latest == LatestOf(discovered)
  {
    latest := map[];
    for i := 0 to |discovered|
      invariant latest == LatestOf(discovered[..i])
    {
      assert discovered[..i + 1][..i] == discovered[..i];
      var client := discovered[i];
      if client.hostId !in latest || client.lastSeen > latest[client.hostId].lastSeen {
        latest := latest[client.hostId := client];
      }
    }
    assert discovered[..|discovered|] == discovered;
  }

  method ListUnexpected(ids: set<HostId>, latest: Clients, options: ReconcileOptions) returns (entries: seq<FleetEntry>)
    requires ids <= latest.Keys
    ensures multiset(entries) == multiset(UnexpectedEntries(ids, latest, options))
  {
    entries := [];
    var pending, done := ids, {};
    while pending != {}
      invariant pending !! done && pending + done == ids
      invariant multiset(entries) == multiset(UnexpectedEntries(done, latest, options))
      decreases pending
    {
      var h :| h in pending;
      var entry := UnexpectedEntry(h, latest[h], options);
      assert UnexpectedEntries(done + {h}, latest, options) == UnexpectedEntries(done, latest, options) + {entry};
      assert entry !in UnexpectedEntries(done, latest, options);
      entries := entries + [entry];
      pending, done := pending - {h}, done + {h};
    }
    assert done == ids;
  }

  method CountEntries(entries: seq<FleetEntry>) returns (counts: FleetCounts)
    ensures counts == CountsOf(entries)
  {
    counts := FleetCounts(0, 0, 0, 0, 0, 0);
    for i := 0 to |entries|
      invariant counts == CountsOf(entries[..i])
    {
      assert entries[..i + 1][..i] == entries[..i];
      counts := Counted(counts, entries[i]);
    }
    assert entries[..|entries|] == entries;
  }

  method Reconcile(expected: seq<ExpectedHost>, discovered: seq<DiscoveredClient>, now: int, options: ReconcileOptions)
    returns (view: FleetView)
    ensures IsReconciled(view, expected, discovered, now, options)
  {
    var latest := CollapseSightings(discovered);
    var entries: seq<FleetEntry> := [];
    for i := 0 to |expected|
      invariant |entries| == i
      invariant forall j | 0 <= j < i :: entries[j] == ExpectedEntry(expected[j], latest, now, options)
    {
      entries := entries + [ExpectedEntry(expected[i], latest, now, options)];
    }
    assert entries == ExpectedEntries(expected, latest, now, options);
    var strangers := ListUnexpected(latest.Keys - Ids(expected), latest, options);
    UrgencyIsAnOrder();
    entries := Sort(entries + strangers, MoreUrgent);
    var counts := CountEntries(entries);
    view := FleetView(entries, counts);
  }

  ghost predicate DistinctIds(expected: seq<ExpectedHost>) {
    forall i, j | 0 <= i < j < |expected| :: expected[i].hostId != expected[j].hostId
  }

  /** The entry reconcile gives one host, by its id. */
  function EntryOf(h: HostId, expected: seq<ExpectedHost>, latest: Clients, now: int,
                   options: ReconcileOptions): FleetEntry
    requires h in Ids(expected) || h in latest
  {
    if h in Ids(expected) then ExpectedEntry(FirstWithId(expected, h), latest, now, options)
    else UnexpectedEntry(h, latest[h], options)
  }

  function FirstWithId(expected: seq<ExpectedHost>, h: HostId): (host: ExpectedHost)
    requires h in Ids(expected)
    ensures host in expected && host.hostId == h
  {
    if expected[0].hostId == h then expected[0]
    else
      assert h in Ids(expected[1..]) by {
        var host :| host in expected && host.hostId == h;
        assert host in expected[1..];
      }
      FirstWithId(expected[1..], h)
  }

  lemma EntryKinds(view: FleetView, expected: seq<ExpectedHost>, discovered: seq<DiscoveredClient>, now: int,
                   options: ReconcileOptions, e: FleetEntry)
    requires IsReconciled(view, expected, discovered, now, options)
    ensures var latest := LatestOf(discovered);
      var known := ExpectedEntries(expected, latest, now, options);
      var strangers := UnexpectedEntries(latest.Keys - Ids(expected), latest, options);
      && multiset(view.entries)[e] == multiset(known)[e] + (if e in strangers then 1 else 0)
      && (e in view.entries <==> e in known || e in strangers)
      && (e in known ==> e.hostId in Ids(expected))
  {
    var latest := LatestOf(discovered);
    var known := ExpectedEntries(expected, latest, now, options);
    assert e in view.entries <==> e in multiset(view.entries);
    assert e in known <==> e in multiset(known);
  }

  lemma EntryIsOwn(view: FleetView, expected: seq<ExpectedHost>, discovered: seq<DiscoveredClient>, now: int,
                   options: ReconcileOptions, e: FleetEntry)
    requires IsReconciled(view, expected, discovered, now, options) && DistinctIds(expected) && e in view.entries
    ensures e.hostId in Ids(expected) || e.hostId in LatestOf(discovered)
    ensures e == EntryOf(e.hostId, expected, LatestOf(discovered), now, options)
  {
    EntryKinds(view, expected, discovered, now, options, e);
    if e.hostId in Ids(expected) {
      var host := FirstWithId(expected, e.hostId);
      assert forall x | x in expected && x.hostId == e.hostId :: x == host;
    }
  }

  lemma OwnOccursOnce(view: FleetView, expected: seq<ExpectedHost>, discovered: seq<DiscoveredClient>, now: int,
                      options: ReconcileOptions, h: HostId)
    requires IsReconciled(view, expected, discovered, now, options) && DistinctIds(expected)
    requires h in Ids(expected) || h in LatestOf(discovered)
    ensures multiset(view.entries)[EntryOf(h, expected, LatestOf(discovered), now, options)] == 1
  {
    var latest := LatestOf(discovered);
    var own := EntryOf(h, expected, latest, now, options);
    EntryKinds(view, expected, discovered, now, options, own);
    var known := ExpectedEntries(expected, latest, now, options);
    if h in Ids(expected) {
      var k :| 0 <= k < |expected| && expected[k] == FirstWithId(expected, h);
      assert known[k] == own;
      OccursOnce(known, k);
    } else {
      assert own !in known && multiset(known)[own] == 0;
    }
  }

  /** For distinct expected ids the view has exactly one entry for each host expected or heard of, and
      none for any other. */
  lemma OneEntryPerHost(view: FleetView, expected: seq<ExpectedHost>, discovered: seq<DiscoveredClient>, now: int,
                        options: ReconcileOptions, h: HostId)
    requires IsReconciled(view, expected, discovered, now, options) && DistinctIds(expected)
    ensures (exists e | e in view.entries :: e.hostId == h) <==> h in Ids(expected) || h in LatestOf(discovered)
    ensures h in Ids(expected) || h in LatestOf(discovered) ==>
      var own := EntryOf(h, expected, LatestOf(discovered), now, options);
      multiset(view.entries)[own] == 1 && forall e | e in view.entries && e.hostId == h :: e == own
  {
    forall e | e in view.entries
      ensures e.hostId in Ids(expected) || e.hostId in LatestOf(discovered)
      ensures e == EntryOf(e.hostId, expected, LatestOf(discovered), now, options)
    {
      EntryIsOwn(view, expected, discovered, now, options, e);
    }
    if h in Ids(expected) || h in LatestOf(discovered) {
      OwnOccursOnce(view, expected, discovered, now, options, h);
      assert EntryOf(h, expected, LatestOf(discovered), now, options) in multiset(view.entries);
    }
  }

  lemma {:induction false} OccursOnce(entries: seq<FleetEntry>, k: nat)
    requires k < |entries|
    requires forall i, j | 0 <= i < j < |entries| :: entries[i].hostId != entries[j].hostId
    ensures multiset(entries)[entries[k]] == 1
  {
    assert entries == entries[..k] + [entries[k]] + entries[k + 1..];
    assert entries[k] !in entries[..k] && entries[k] !in entries[k + 1..];
  }

  /** Two runs of reconcile on the same input give the same view. */
  lemma ReconcileIsDetermined(a: FleetView, b: FleetView, expected: seq<ExpectedHost>,
                              discovered: seq<DiscoveredClient>, now: int, options: ReconcileOptions)
    requires IsReconciled(a, expected, discovered, now, options)
    requires IsReconciled(b, expected, discovered, now, options)
    requires DistinctIds(expected)
    ensures a == b
  {
    forall x, y | x in a.entries && y in a.entries && x != y
      ensures MoreUrgent(x, y) || MoreUrgent(y, x)
    {
      OneEntryPerHost(a, expected, discovered, now, options, x.hostId);
      LessTotal(x.hostId, y.hostId);
    }
    SortedUnique(a.entries, b.entries, MoreUrgent);
  }

  /** Every entry falls in one state, so the state counts add up. */
  lemma {:induction false} CountsAddUp(entries: seq<FleetEntry>)
    ensures var c := CountsOf(entries); c.online + c.offline + c.missing + c.unexpected + c.paused == |entries|
    ensures CountsOf(entries).stale <= |entries|
  {
    if entries != [] {
      CountsAddUp(entries[..|entries| - 1]);
    }
  }

  /** Letting time pass and nothing else only ever turns Online or Paused into Offline. */
  lemma TimeOnlySilences(before: FleetView, after: FleetView, expected: seq<ExpectedHost>,
                         discovered: seq<DiscoveredClient>, now: int, later: int, options: ReconcileOptions,
                         e: FleetEntry, e': FleetEntry)
    requires IsReconciled(before, expected, discovered, now, options)
    requires IsReconciled(after, expected, discovered, later, options)
    requires DistinctIds(expected) && now <= later
    requires e in before.entries && e' in after.entries && e.hostId == e'.hostId
    ensures e' == e || ((e.state == Online || e.state == Paused) && e' == e.(state := Offline))
  {
    OneEntryPerHost(before, expected, discovered, now, options, e.hostId);
    OneEntryPerHost(after, expected, discovered, later, options, e.hostId);
  }
}
