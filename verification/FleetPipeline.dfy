/** From what was heard of the clients to the table the operator sees: registry, reconciliation, and the merge
    into the rows (reconcile_now in apps/server/server_controller.cpp). */
module FleetPipeline {
  import opened Base
  import opened Sorting
  import opened Sequences
  import opened Fleet
  import opened FleetModel

  /** What the operator reads of a host that is expected or was heard of since it was last lost. */
  function StateOf(h: HostId, expected: seq<ExpectedHost>, clients: Clients, now: int, lease: nat): HostState {
    if h !in Ids(expected) then Unexpected
    else if h !in clients then Missing
    else if !WithinLease(clients[h].lastSeen, now, lease) then Offline
    else if clients[h].paused then Paused else Online
  }

  lemma EntryShowsState(h: HostId, expected: seq<ExpectedHost>, clients: Clients, now: int, options: ReconcileOptions)
    requires h in Ids(expected) || h in clients
    ensures var e := EntryOf(h, expected, clients, now, options);
      e.hostId == h && e.state == StateOf(h, expected, clients, now, options.livelinessLease)
  {
  }

  lemma ReplayNamesHosts(events: seq<RegistryEvent>)
    ensures forall h | h in Replay(events) :: Replay(events)[h].hostId == h
  {
    forall h | h in Replay(events)
      ensures Replay(events)[h].hostId == h
    {
      LastSeenIsNewest(events, h);
    }
  }

  lemma ViewHasOneEach(view: FleetView, expected: seq<ExpectedHost>, discovered: seq<DiscoveredClient>, now: int,
                       options: ReconcileOptions)
    requires IsReconciled(view, expected, discovered, now, options) && DistinctIds(expected)
    ensures OneEntryEach(view.entries)
  {
    var entries := view.entries;
    forall i, j | 0 <= i < j < |entries|
      ensures entries[i].hostId != entries[j].hostId
    {
      OneEntryPerHost(view, expected, discovered, now, options, entries[i].hostId);
      if entries[i] == entries[j] {
        TwiceInside(entries, i, j);
      }
    }
  }

  /** The host was heard of and not lost since. */
  ghost predicate HeardOf(events: seq<RegistryEvent>, h: HostId) {
    exists i :: Live(events, h, i)
  }

  ghost predicate HasEntry(entries: seq<FleetEntry>, h: HostId) {
    exists e | e in entries :: e.hostId == h
  }

  /** The row of its host, with the entry that the host's events and the clock give it, and with what its row
      already held. */
  ghost predicate RowShows(row: Row, before: seq<Row>, clients: Clients, expected: seq<ExpectedHost>, now: int,
                           options: ReconcileOptions)
  {
    var h := row.entry.hostId;
    && (h in Ids(expected) || h in clients)
    && row == RowAfter(before, EntryOf(h, expected, clients, now, options))
    && row.entry.state == StateOf(h, expected, clients, now, options.livelinessLease)
  }

  /** The rows are those of the fleet: one for each host that is expected or was heard of and not lost since. */
  ghost predicate ShowsFleet(rows: seq<Row>, before: seq<Row>, events: seq<RegistryEvent>, expected: seq<ExpectedHost>,
                             now: int, options: ReconcileOptions)
  {
    && Ascending(RowHosts(rows))
    && (forall h :: h in RowHosts(rows) <==> h in Ids(expected) || HeardOf(events, h))
    && forall k | 0 <= k < |rows| :: RowShows(rows[k], before, Replay(events), expected, now, options)
  }

  lemma EntriesAreTheFleet(view: FleetView, discovered: seq<DiscoveredClient>, events: seq<RegistryEvent>,
                           expected: seq<ExpectedHost>, now: int, options: ReconcileOptions, h: HostId)
    requires LatestOf(discovered) == Replay(events) && DistinctIds(expected)
    requires IsReconciled(view, expected, discovered, now, options)
    ensures HasEntry(view.entries, h) <==> h in Ids(expected) || HeardOf(events, h)
  {
    OneEntryPerHost(view, expected, discovered, now, options, h);
    LastSeenIsNewest(events, h);
  }

  lemma RowsAreTheEntries(rows: seq<Row>, incoming: seq<FleetEntry>, entries: seq<FleetEntry>)
    requires multiset(incoming) == multiset(entries) && |rows| == |incoming|
    requires forall k | 0 <= k < |rows| :: rows[k].entry == incoming[k]
    ensures forall k | 0 <= k < |rows| :: rows[k].entry in entries
    ensures forall h :: h in RowHosts(rows) <==> HasEntry(entries, h)
  {
    forall k | 0 <= k < |rows|
      ensures rows[k].entry in entries
    {
      assert incoming[k] in multiset(entries);
    }
    forall h
      ensures h in RowHosts(rows) <==> HasEntry(entries, h)
    {
      if e :| e in entries && e.hostId == h {
        assert e in multiset(incoming);
        var k :| 0 <= k < |incoming| && incoming[k] == e;
        assert RowHosts(rows)[k] == h;
      }
      if h in RowHosts(rows) {
        var k :| 0 <= k < |rows| && RowHosts(rows)[k] == h;
        assert rows[k].entry.hostId == h;
      }
    }
  }

  lemma EntryRowShows(row: Row, before: seq<Row>, view: FleetView, discovered: seq<DiscoveredClient>,
                      expected: seq<ExpectedHost>, now: int, options: ReconcileOptions)
    requires IsReconciled(view, expected, discovered, now, options) && DistinctIds(expected)
    requires row.entry in view.entries && row == RowAfter(before, row.entry)
    ensures RowShows(row, before, LatestOf(discovered), expected, now, options)
  {
    EntryIsOwn(view, expected, discovered, now, options, row.entry);
    EntryShowsState(row.entry.hostId, expected, LatestOf(discovered), now, options);
  }

  lemma MergeShowsFleet(before: seq<Row>, incoming: seq<FleetEntry>, view: FleetView, discovered: seq<DiscoveredClient>,
                        events: seq<RegistryEvent>, expected: seq<ExpectedHost>, now: int, options: ReconcileOptions)
    requires Ascending(RowHosts(before)) && LatestOf(discovered) == Replay(events) && DistinctIds(expected)
    requires IsReconciled(view, expected, discovered, now, options)
    requires multiset(incoming) == multiset(view.entries) && Sorted(incoming, EarlierHost)
    ensures ShowsFleet(Merge(before, incoming), before, events, expected, now, options)
  {
    var rows := Merge(before, incoming);
    ViewHasOneEach(view, expected, discovered, now, options);
    MergedHosts(before, view.entries, incoming);
    MergeEntries(before, incoming);
    RowsAreTheEntries(rows, incoming, view.entries);
    forall h
      ensures h in RowHosts(rows) <==> h in Ids(expected) || HeardOf(events, h)
    {
      EntriesAreTheFleet(view, discovered, events, expected, now, options, h);
    }
    forall k | 0 <= k < |rows|
      ensures RowShows(rows[k], before, Replay(events), expected, now, options)
    {
      EntryRowShows(rows[k], before, view, discovered, expected, now, options);
    }
  }

  /** Whatever the registry has been told and whatever samples and reports have come in between, the table shows
      the fleet, and its view follows it in every column but Adapters, and there too unless it was behind. */
  method ReconcileNow(registry: ClientRegistry, ghost events: seq<RegistryEvent>, expected: seq<ExpectedHost>, now: int,
                      options: ReconcileOptions, model: Model, ghost mirror: seq<seq<Cell>>)
    returns (view: FleetView)
    requires registry.clients == Replay(events) && DistinctIds(expected)
    requires Ascending(RowHosts(model.rows)) && model.Follows(mirror)
    modifies model
    ensures ShowsFleet(model.rows, old(model.rows), events, expected, now, options)
    ensures model.Follows(mirror) && (old(model.AllCurrent()) ==> model.AllCurrent())
    ensures HeardAll(mirror, model.signals) == MirrorOf(model.rows) <==> model.AllCurrent()
    ensures view.counts == CountsOf(view.entries) && OneEntryEach(view.entries)
  {
    ReplayNamesHosts(events);
    ghost var before := model.rows;
    var discovered := registry.Snapshot();
    view := Reconcile(expected, discovered, now, options);
    SnapshotIsLatest(discovered, Replay(events));
    ViewHasOneEach(view, expected, discovered, now, options);
    ghost var incoming := model.Apply(view, mirror);
    MergeShowsFleet(before, incoming, view, discovered, events, expected, now, options);
  }
}
