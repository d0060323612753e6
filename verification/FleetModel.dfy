/** The table of machines and the change signals that a view of it hears
    (libs/ui/src/fleet_model.cpp). A view holds what it last fetched and fetches again what a signal
    names, at the moment of the signal; a cell is what is displayed and what colours it. */
module FleetModel {
  import opened Base
  import opened Text
  import opened Sorting
  import opened Sequences
  import opened Fleet
  import Compliance

  datatype Summary = Summary(passed: nat, failing: nat, errors: nat, notApplicable: nat)
  datatype Tag = Tag(name: string, status: Compliance.CheckStatus)

  datatype Row = Row(
    entry: FleetEntry, resources: Compliance.ResourceSample, hasResources: bool,
    summary: Option<Summary>, tags: seq<Tag>)

  function FreshRow(entry: FleetEntry): Row {
    Row(entry, Compliance.ResourceSample(0.0, 0, 0, [], []), false, None, [])
  }

  // ----- cells -----

  const HOST := 0
  const STATE := 1
  const COMPLIANCE := 2
  const CPU := 3
  const MEMORY := 4
  const DISK := 5
  const ADAPTERS := 6
  const REVISION := 7
  const LAST_SEEN := 8
  const COLUMNS := 9

  datatype Health = IsUnexpected | IsMissing | IsOffline | IsPaused | Failing | Compliant | Unknown

  datatype Colour = LoadColour(percent: real) | HealthColour(health: Health)

  datatype CellText =
    | HostText(hostId: HostId)
    | StateName(state: HostState)
    | RatioText(passed: nat, checked: nat)
    | LastKnownText(passed: nat, checked: nat)
    | PausedText
    | NotReportingText
    | PercentText(percent: real)
    | CountText(connected: nat, total: nat)
    | RevisionText(stale: bool)
    | SeenText(lastSeen: Option<int>)
    | Dash

  datatype Cell = Cell(text: CellText, colour: Colour)

  function HealthOf(row: Row): Health {
    match row.entry.state
    case Unexpected => IsUnexpected
    case Missing => IsMissing
    case Offline => IsOffline
    case Paused => IsPaused
    case Online =>
      if row.summary.None? then Unknown
      else if row.summary.value.failing == 0 then Compliant else Failing
  }

  function UsedPercent(disk: Compliance.DiskUsage): real {
    if disk.totalBytes == 0 then 0.0
    else
      var used := (disk.totalBytes as int - disk.freeBytes) % 0x1_0000_0000_0000_0000;
      100.0 * (used as real) / (disk.totalBytes as real)
  }

  function FullestDisk(disks: seq<Compliance.DiskUsage>): real {
    if disks == [] then 0.0
    else
      var worst := FullestDisk(disks[..|disks| - 1]);
      if UsedPercent(disks[|disks| - 1]) > worst then UsedPercent(disks[|disks| - 1]) else worst
  }

  function LoadPercent(row: Row, column: nat): Option<real> {
    var r := row.resources;
    if !row.hasResources then None
    else if column == CPU then Some(r.cpuPercent)
    else if column == MEMORY then
      if r.memTotalBytes == 0 then None else Some(100.0 * (r.memUsedBytes as real) / (r.memTotalBytes as real))
    else if column == DISK then if r.disks == [] then None else Some(FullestDisk(r.disks))
    else None
  }

  function ComplianceText(row: Row): CellText {
    var state := row.entry.state;
    if state == Missing || state == Offline || state == Paused then
      if row.summary.Some? then LastKnownText(row.summary.value.passed, Checked(row.summary.value))
      else if state == Paused then PausedText else NotReportingText
    else if row.summary.None? then Dash
    else RatioText(row.summary.value.passed, Checked(row.summary.value))
  }

  function Checked(s: Summary): nat {
    s.passed + s.failing + s.errors
  }

  function AdaptersText(entry: FleetEntry, adapters: seq<Compliance.NetworkAdapter>): CellText {
    if Network !in entry.caps then Dash else CountText(Compliance.CountUp(adapters), |adapters|)
  }

  function Display(row: Row, column: nat): Cell {
    var percent := LoadPercent(row, column);
    Cell(
      if column == HOST then HostText(row.entry.hostId)
      else if column == STATE then StateName(row.entry.state)
      else if column == COMPLIANCE then ComplianceText(row)
      else if column <= DISK then if percent.Some? then PercentText(percent.value) else Dash
      else if column == ADAPTERS then AdaptersText(row.entry, row.resources.adapters)
      else if column == REVISION then RevisionText(row.entry.stale)
      else SeenText(row.entry.lastSeen),
      if row.entry.state == Online && percent.Some? then LoadColour(percent.value) else HealthColour(HealthOf(row)))
  }

  function RowCells(row: Row): seq<Cell> {
    seq(COLUMNS, c requires 0 <= c < COLUMNS => Display(row, c))
  }

  function MirrorOf(rows: seq<Row>): seq<seq<Cell>> {
    seq(|rows|, i requires 0 <= i < |rows| => RowCells(rows[i]))
  }

  // ----- what a view shows: every cell as it is, but for an Adapters cell last fetched from older adapters -----

  type Adapters = seq<Compliance.NetworkAdapter>

  function SeenRow(row: Row, adapters: Adapters): Row {
    row.(resources := row.resources.(adapters := adapters))
  }

  /** shown[i]: the adapters that row i's Adapters cell was last fetched from. */
  function Seen(rows: seq<Row>, shown: seq<Adapters>): seq<Row>
    requires |rows| == |shown|
  {
    seq(|rows|, i requires 0 <= i < |rows| => SeenRow(rows[i], shown[i]))
  }

  predicate CellCurrent(row: Row, adapters: Adapters) {
    AdaptersText(row.entry, adapters) == AdaptersText(row.entry, row.resources.adapters)
  }

  ghost predicate Current(rows: seq<Row>, shown: seq<Adapters>)
    requires |rows| == |shown|
  {
    forall i | 0 <= i < |rows| :: CellCurrent(rows[i], shown[i])
  }

  lemma SeenCells(row: Row, adapters: Adapters)
    ensures forall c | 0 <= c < COLUMNS && c != ADAPTERS :: Display(SeenRow(row, adapters), c) == Display(row, c)
    ensures Display(SeenRow(row, adapters), ADAPTERS) == Display(row, ADAPTERS) <==> CellCurrent(row, adapters)
  {
  }

  /** What such a view shows is right in every column but Adapters, and there exactly when the adapters it was
      fetched from read as the row's do now. */
  lemma ViewIsRightExactlyWhen(rows: seq<Row>, shown: seq<Adapters>)
    requires |rows| == |shown|
    ensures var view := MirrorOf(Seen(rows, shown));
      && |view| == |rows|
      && (forall i, c | 0 <= i < |rows| && 0 <= c < COLUMNS ::
            view[i][c] == Display(rows[i], c) <==> c != ADAPTERS || CellCurrent(rows[i], shown[i]))
      && (view == MirrorOf(rows) <==> Current(rows, shown))
  {
    var view := MirrorOf(Seen(rows, shown));
    forall i, c | 0 <= i < |rows| && 0 <= c < COLUMNS
      ensures view[i][c] == Display(rows[i], c) <==> c != ADAPTERS || CellCurrent(rows[i], shown[i])
    {
      SeenCells(rows[i], shown[i]);
    }
    if Current(rows, shown) {
      forall i | 0 <= i < |rows|
        ensures view[i] == RowCells(rows[i])
      {
        assert forall c | 0 <= c < COLUMNS :: view[i][c] == Display(rows[i], c);
      }
    }
    if view == MirrorOf(rows) {
      forall i | 0 <= i < |rows|
        ensures CellCurrent(rows[i], shown[i])
      {
        assert view[i][ADAPTERS] == MirrorOf(rows)[i][ADAPTERS] == Display(rows[i], ADAPTERS);
      }
    }
  }

  // ----- signals, with what a view fetches on hearing them -----

  datatype Signal =
    | RowInserted(at: nat, cells: seq<Cell>)
    | RowRemoved(at: nat)
    | DataChanged(row: nat, first: nat, cells: seq<Cell>)

  function Heard(mirror: seq<seq<Cell>>, signal: Signal): seq<seq<Cell>> {
    match signal
    case RowInserted(at, cells) => if at <= |mirror| then mirror[..at] + [cells] + mirror[at..] else mirror
    case RowRemoved(at) => if at < |mirror| then mirror[..at] + mirror[at + 1..] else mirror
    case DataChanged(row, first, cells) =>
      if row < |mirror| && first + |cells| <= |mirror[row]|
      then mirror[row := mirror[row][..first] + cells + mirror[row][first + |cells|..]] else mirror
  }

  function HeardAll(mirror: seq<seq<Cell>>, signals: seq<Signal>): seq<seq<Cell>> {
    if signals == [] then mirror else Heard(HeardAll(mirror, signals[..|signals| - 1]), signals[|signals| - 1])
  }

  lemma HeardOneMore(mirror: seq<seq<Cell>>, signals: seq<Signal>, signal: Signal)
    ensures HeardAll(mirror, signals + [signal]) == Heard(HeardAll(mirror, signals), signal)
  {
    assert (signals + [signal])[..|signals|] == signals;
  }

  lemma InsertMirrored(rows: seq<Row>, shown: seq<Adapters>, at: nat, row: Row)
    requires at <= |rows| == |shown|
    ensures Heard(MirrorOf(Seen(rows, shown)), RowInserted(at, RowCells(row)))
      == MirrorOf(Seen(rows[..at] + [row] + rows[at..], shown[..at] + [row.resources.adapters] + shown[at..]))
  {
    assert SeenRow(row, row.resources.adapters) == row;
    assert Seen(rows[..at] + [row] + rows[at..], shown[..at] + [row.resources.adapters] + shown[at..])
      == Seen(rows, shown)[..at] + [row] + Seen(rows, shown)[at..];
  }

  lemma RemoveMirrored(rows: seq<Row>, shown: seq<Adapters>, at: nat)
    requires at < |rows| == |shown|
    ensures Heard(MirrorOf(Seen(rows, shown)), RowRemoved(at))
      == MirrorOf(Seen(rows[..at] + rows[at + 1..], shown[..at] + shown[at + 1..]))
  {
    assert Seen(rows[..at] + rows[at + 1..], shown[..at] + shown[at + 1..])
      == Seen(rows, shown)[..at] + Seen(rows, shown)[at + 1..];
  }

  function CellRange(row: Row, first: nat, last: nat): seq<Cell>
    requires first <= last < COLUMNS
  {
    seq(last + 1 - first, c requires 0 <= c < last + 1 - first => Display(row, first + c))
  }

  /** A signal for columns first..last makes the mirror current when no other column changed. */
  lemma ChangeMirrored(mirror: seq<seq<Cell>>, rows: seq<Row>, i: nat, first: nat, last: nat)
    requires i < |rows| && first <= last < COLUMNS && |mirror| == |rows|
    requires forall j | 0 <= j < |rows| && j != i :: mirror[j] == RowCells(rows[j])
    requires |mirror[i]| == COLUMNS
    requires forall c | 0 <= c < COLUMNS && !(first <= c <= last) :: mirror[i][c] == Display(rows[i], c)
    ensures Heard(mirror, DataChanged(i, first, CellRange(rows[i], first, last))) == MirrorOf(rows)
  {
    var cells := CellRange(rows[i], first, last);
    assert mirror[i][..first] + cells + mirror[i][first + |cells|..] == RowCells(rows[i]);
  }

  function WholeRow(rows: seq<Row>, i: nat): Signal
    requires i < |rows|
  {
    DataChanged(i, HOST, CellRange(rows[i], HOST, COLUMNS - 1))
  }

  function RevisionCells(rows: seq<Row>, i: nat): Signal
    requires i < |rows|
  {
    DataChanged(i, REVISION, CellRange(rows[i], REVISION, LAST_SEEN))
  }

  lemma SeenChanged(rows: seq<Row>, shown: seq<Adapters>, i: nat, row: Row, adapters: Adapters)
    requires i < |rows| == |shown|
    ensures Seen(rows[i := row], shown[i := adapters]) == Seen(rows, shown)[i := SeenRow(row, adapters)]
    ensures Seen(rows[i := row], shown) == Seen(rows, shown)[i := SeenRow(row, shown[i])]
  {
  }

  /** However a row changed, a signal for the whole of it makes the view of it current. */
  lemma WholeRowHeard(rows: seq<Row>, shown: seq<Adapters>, i: nat, row: Row)
    requires i < |rows| == |shown|
    ensures Heard(MirrorOf(Seen(rows, shown)), WholeRow(rows[i := row], i))
      == MirrorOf(Seen(rows[i := row], shown[i := row.resources.adapters]))
  {
    SeenChanged(rows, shown, i, row, row.resources.adapters);
    assert SeenRow(row, row.resources.adapters) == row;
    ChangeMirrored(MirrorOf(Seen(rows, shown)), Seen(rows, shown)[i := row], i, HOST, COLUMNS - 1);
  }

  /** A signal that leaves out the Adapters column makes the view current when nothing but that column and
      what it names has changed. */
  lemma OthersHeard(rows: seq<Row>, shown: seq<Adapters>, i: nat, row: Row, first: nat, last: nat)
    requires i < |rows| == |shown| && first <= last < COLUMNS && !(first <= ADAPTERS <= last)
    requires forall c | 0 <= c < COLUMNS && !(first <= c <= last) ::
      Display(SeenRow(rows[i], shown[i]), c) == Display(SeenRow(row, shown[i]), c)
    ensures Heard(MirrorOf(Seen(rows, shown)), DataChanged(i, first, CellRange(row, first, last)))
      == MirrorOf(Seen(rows[i := row], shown))
  {
    var seen := SeenRow(row, shown[i]);
    SeenChanged(rows, shown, i, row, shown[i]);
    SeenCells(row, shown[i]);
    assert CellRange(row, first, last) == CellRange(seen, first, last);
    ChangeMirrored(MirrorOf(Seen(rows, shown)), Seen(rows, shown)[i := seen], i, first, last);
  }

  /** A new entry differing at most in staleness and last sighting changes no cell but those two. */
  lemma RevisionHeard(rows: seq<Row>, shown: seq<Adapters>, i: nat, entry: FleetEntry)
    requires i < |rows| == |shown| && entry == rows[i].entry.(stale := entry.stale, lastSeen := entry.lastSeen)
    ensures var rows' := rows[i := rows[i].(entry := entry)];
      Heard(MirrorOf(Seen(rows, shown)), RevisionCells(rows', i)) == MirrorOf(Seen(rows', shown))
  {
    OthersHeard(rows, shown, i, rows[i].(entry := entry), REVISION, LAST_SEEN);
  }

  predicate HostOrStateChanged(before: FleetEntry, entry: FleetEntry) {
    || before.hostId != entry.hostId || before.address != entry.address
    || before.state != entry.state || before.caps != entry.caps
  }

  predicate RevisionOrSeenChanged(before: FleetEntry, entry: FleetEntry) {
    before.stale != entry.stale || before.lastSeen != entry.lastSeen
  }

  function EntrySignals(before: FleetEntry, rows: seq<Row>, i: nat): seq<Signal>
    requires i < |rows|
  {
    (if HostOrStateChanged(before, rows[i].entry) then [WholeRow(rows, i)] else [])
    + (if RevisionOrSeenChanged(before, rows[i].entry) then [RevisionCells(rows, i)] else [])
  }

  lemma {:induction false} HeardInTurn(mirror: seq<seq<Cell>>, a: seq<Signal>, b: seq<Signal>)
    ensures HeardAll(mirror, a + b) == HeardAll(HeardAll(mirror, a), b)
  {
    if b == [] {
      assert a + b == a;
    } else {
      assert (a + b)[..|a + b| - 1] == a + b[..|b| - 1];
      HeardInTurn(mirror, a, b[..|b| - 1]);
    }
  }

  lemma HeardOneTwo(mirror: seq<seq<Cell>>, a: Signal, b: Signal)
    ensures HeardAll(mirror, []) == mirror
    ensures HeardAll(mirror, [a]) == Heard(mirror, a)
    ensures HeardAll(mirror, [a, b]) == Heard(Heard(mirror, a), b)
  {
    assert [a][..0] == [] && [a, b][..1] == [a];
  }

  /** The adapters the view's cell is of after a row's entry is replaced. */
  function ShownAfter(row: Row, adapters: Adapters, entry: FleetEntry): Adapters {
    if HostOrStateChanged(row.entry, entry) then row.resources.adapters else adapters
  }

  /** The signals for a replaced entry cover every cell that it changes. */
  lemma EntrySignalsHeard(rows: seq<Row>, shown: seq<Adapters>, i: nat, entry: FleetEntry)
    requires i < |rows| == |shown|
    ensures var rows' := rows[i := rows[i].(entry := entry)];
      HeardAll(MirrorOf(Seen(rows, shown)), EntrySignals(rows[i].entry, rows', i))
        == MirrorOf(Seen(rows', shown[i := ShownAfter(rows[i], shown[i], entry)]))
  {
    var row' := rows[i].(entry := entry);
    var rows' := rows[i := row'];
    var whole, revision := WholeRow(rows', i), RevisionCells(rows', i);
    HeardOneTwo(MirrorOf(Seen(rows, shown)), whole, revision);
    HeardOneTwo(MirrorOf(Seen(rows, shown)), revision, whole);
    if HostOrStateChanged(rows[i].entry, entry) {
      var shown' := shown[i := row'.resources.adapters];
      WholeRowHeard(rows, shown, i, row');
      if RevisionOrSeenChanged(rows[i].entry, entry) {
        assert rows'[i := rows'[i].(entry := entry)] == rows';
        RevisionHeard(rows', shown', i, entry);
        assert EntrySignals(rows[i].entry, rows', i) == [whole, revision];
      } else {
        assert EntrySignals(rows[i].entry, rows', i) == [whole];
      }
    } else {
      assert shown[i := shown[i]] == shown;
      if RevisionOrSeenChanged(rows[i].entry, entry) {
        RevisionHeard(rows, shown, i, entry);
        assert EntrySignals(rows[i].entry, rows', i) == [revision];
      } else {
        assert row' == rows[i] && rows' == rows;
        assert EntrySignals(rows[i].entry, rows', i) == [];
      }
    }
  }

  lemma EntryFollowed(mirror: seq<seq<Cell>>, signals: seq<Signal>, rows: seq<Row>, shown: seq<Adapters>, i: nat,
                      entry: FleetEntry)
    requires i < |rows| == |shown| && HeardAll(mirror, signals) == MirrorOf(Seen(rows, shown))
    ensures var rows' := rows[i := rows[i].(entry := entry)];
      HeardAll(mirror, signals + EntrySignals(rows[i].entry, rows', i))
        == MirrorOf(Seen(rows', shown[i := ShownAfter(rows[i], shown[i], entry)]))
    ensures !HostOrStateChanged(rows[i].entry, entry) ==> shown[i := ShownAfter(rows[i], shown[i], entry)] == shown
  {
    EntrySignalsHeard(rows, shown, i, entry);
    HeardInTurn(mirror, signals, EntrySignals(rows[i].entry, rows[i := rows[i].(entry := entry)], i));
  }

  lemma SameEntry(rows: seq<Row>, shown: seq<Adapters>, i: nat)
    requires i < |rows| == |shown|
    ensures rows[i := rows[i].(entry := rows[i].entry)] == rows
    ensures shown[i := ShownAfter(rows[i], shown[i], rows[i].entry)] == shown
  {
  }

  function SampleCells(rows: seq<Row>, i: nat): Signal
    requires i < |rows|
  {
    DataChanged(i, CPU, CellRange(rows[i], CPU, DISK))
  }

  /** After a sample, the signal for CPU to Disk covers every cell the sample changes but the Adapters one,
      which the view still has from the adapters it was last fetched from. */
  lemma SampleHeard(rows: seq<Row>, shown: seq<Adapters>, i: nat, sample: Compliance.ResourceSample)
    requires i < |rows| == |shown|
    ensures var rows' := rows[i := rows[i].(resources := sample, hasResources := true)];
      Heard(MirrorOf(Seen(rows, shown)), SampleCells(rows', i)) == MirrorOf(Seen(rows', shown))
  {
    OthersHeard(rows, shown, i, rows[i].(resources := sample, hasResources := true), CPU, DISK);
  }

  // ----- the merge -----

  predicate EarlierHost(a: FleetEntry, b: FleetEntry) {
    Less(a.hostId, b.hostId)
  }

  lemma HostOrder()
    ensures StrictWeakOrder(EarlierHost)
  {
    forall a, b | EarlierHost(a, b)
      ensures !EarlierHost(b, a)
    {
      LessAsymmetric(a.hostId, b.hostId);
    }
    forall a, b, c | !EarlierHost(b, a) && !EarlierHost(c, b)
      ensures !EarlierHost(c, a)
    {
      LessTotal(a.hostId, b.hostId);
      LessTotal(b.hostId, c.hostId);
      LessIrreflexive(a.hostId);
      if a.hostId != b.hostId && b.hostId != c.hostId {
        LessTransitive(a.hostId, b.hostId, c.hostId);
        LessAsymmetric(a.hostId, c.hostId);
      }
    }
  }

  /** Row by row: an equal host keeps its row, an earlier one is new, a later one is gone. */
  function Merge(rows: seq<Row>, incoming: seq<FleetEntry>): seq<Row>
    decreases |rows| + |incoming|
  {
    if rows != [] && incoming != [] && rows[0].entry.hostId == incoming[0].hostId then
      [rows[0].(entry := incoming[0])] + Merge(rows[1..], incoming[1..])
    else if incoming != [] && (rows == [] || Less(incoming[0].hostId, rows[0].entry.hostId)) then
      [FreshRow(incoming[0])] + Merge(rows, incoming[1..])
    else if rows != [] then Merge(rows[1..], incoming)
    else []
  }

  /** Of what adapters the view's cells are after the merge. */
  function MergeShown(rows: seq<Row>, shown: seq<Adapters>, incoming: seq<FleetEntry>): (r: seq<Adapters>)
    requires |rows| == |shown|
    ensures |r| == |Merge(rows, incoming)|
    decreases |rows| + |incoming|
  {
    if rows != [] && incoming != [] && rows[0].entry.hostId == incoming[0].hostId then
      [ShownAfter(rows[0], shown[0], incoming[0])] + MergeShown(rows[1..], shown[1..], incoming[1..])
    else if incoming != [] && (rows == [] || Less(incoming[0].hostId, rows[0].entry.hostId)) then
      [[]] + MergeShown(rows, shown, incoming[1..])
    else if rows != [] then MergeShown(rows[1..], shown[1..], incoming)
    else []
  }

  /** The merge leaves no Adapters cell out of date that was not before. */
  lemma {:induction false} MergeKeepsCurrent(rows: seq<Row>, shown: seq<Adapters>, incoming: seq<FleetEntry>)
    requires |rows| == |shown| && Current(rows, shown)
    ensures Current(Merge(rows, incoming), MergeShown(rows, shown, incoming))
    decreases |rows| + |incoming|
  {
    if rows != [] && incoming != [] && rows[0].entry.hostId == incoming[0].hostId {
      assert CellCurrent(rows[0], shown[0]);
      MergeKeepsCurrent(rows[1..], shown[1..], incoming[1..]);
    } else if incoming != [] && (rows == [] || Less(incoming[0].hostId, rows[0].entry.hostId)) {
      MergeKeepsCurrent(rows, shown, incoming[1..]);
    } else if rows != [] {
      MergeKeepsCurrent(rows[1..], shown[1..], incoming);
    }
  }

  function FirstIndex(rows: seq<Row>, hostId: HostId): (i: nat)
    ensures i <= |rows|
    ensures forall j | 0 <= j < i :: rows[j].entry.hostId != hostId
    ensures i < |rows| ==> rows[i].entry.hostId == hostId
  {
    if rows == [] || rows[0].entry.hostId == hostId then 0 else 1 + FirstIndex(rows[1..], hostId)
  }

  class Model {
    var rows: seq<Row>
    /** Every signal emitted, in order. */
    var signals: seq<Signal>
    /** For each row, its adapters at the last signal that covered the Adapters cell. */
    ghost var shown: seq<Adapters>

    ghost predicate Valid()
      reads this
    {
      forall i, j | 0 <= i < j < |rows| :: !Less(rows[j].entry.hostId, rows[i].entry.hostId)
    }

    /** A view that was `mirror` before the signals shows what it last fetched of each cell; and that is out of
        date only in Adapters cells. */
    ghost predicate Follows(mirror: seq<seq<Cell>>)
      reads this
    {
      |shown| == |rows| && HeardAll(mirror, signals) == MirrorOf(Seen(rows, shown))
    }

    ghost predicate AllCurrent()
      requires |shown| == |rows|
      reads this
    {
      Current(rows, shown)
    }

    constructor ()
      ensures Valid() && rows == [] && signals == [] && shown == [] && Follows([])
    {
      rows, signals, shown := [], [], [];
    }

    method EmitChanged(row: nat, first: nat, last: nat)
      requires row < |rows| == |shown| && first <= last < COLUMNS
      modifies this`signals, this`shown
      ensures signals == old(signals) + [DataChanged(row, first, CellRange(rows[row], first, last))]
      ensures shown ==
        if first <= ADAPTERS <= last then old(shown)[row := rows[row].resources.adapters] else old(shown)
    {
      signals := signals + [DataChanged(row, first, CellRange(rows[row], first, last))];
      if first <= ADAPTERS <= last {
        shown := shown[row := rows[row].resources.adapters];
      }
    }

    method EmitEntryChanges(i: nat, before: FleetEntry)
      requires i < |rows| == |shown|
      modifies this`signals, this`shown
      ensures signals == old(signals) + EntrySignals(before, rows, i)
      ensures shown ==
        if HostOrStateChanged(before, rows[i].entry) then old(shown)[i := rows[i].resources.adapters] else old(shown)
    {
      if HostOrStateChanged(before, rows[i].entry) {
        EmitChanged(i, HOST, COLUMNS - 1);
      }
      if RevisionOrSeenChanged(before, rows[i].entry) {
        EmitChanged(i, REVISION, LAST_SEEN);
      }
    }

    /** An entry that changed replaces the row's, and the view hears of every cell that it changed. */
    method ReplaceEntry(i: nat, entry: FleetEntry, ghost mirror: seq<seq<Cell>>)
      requires i < |rows| && rows[i].entry.hostId == entry.hostId && Follows(mirror)
      modifies this
      ensures rows == old(rows)[i := old(rows)[i].(entry := entry)]
      ensures Follows(mirror) && old(signals) <= signals
      ensures shown == old(shown)[i := ShownAfter(old(rows)[i], old(shown)[i], entry)]
    {
      var before := rows[i].entry;
      if before == entry {
        SameEntry(rows, shown, i);
        return;
      }
      EntryFollowed(mirror, signals, rows, shown, i, entry);
      rows := rows[i := rows[i].(entry := entry)];
      EmitEntryChanges(i, before);
    }

    method InsertRow(i: nat, row: Row, ghost mirror: seq<seq<Cell>>)
      requires i <= |rows| && Follows(mirror)
      modifies this
      ensures rows == old(rows)[..i] + [row] + old(rows)[i..]
      ensures Follows(mirror) && old(signals) <= signals
      ensures shown == old(shown)[..i] + [row.resources.adapters] + old(shown)[i..]
    {
      InsertMirrored(rows, shown, i, row);
      HeardOneMore(mirror, signals, RowInserted(i, RowCells(row)));
      rows := rows[..i] + [row] + rows[i..];
      shown := shown[..i] + [row.resources.adapters] + shown[i..];
      signals := signals + [RowInserted(i, RowCells(row))];
    }

    method RemoveRow(i: nat, ghost mirror: seq<seq<Cell>>)
      requires i < |rows| && Follows(mirror)
      modifies this
      ensures rows == old(rows)[..i] + old(rows)[i + 1..]
      ensures Follows(mirror) && old(signals) <= signals
      ensures shown == old(shown)[..i] + old(shown)[i + 1..]
    {
      RemoveMirrored(rows, shown, i);
      HeardOneMore(mirror, signals, RowRemoved(i));
      rows := rows[..i] + rows[i + 1..];
      shown := shown[..i] + shown[i + 1..];
      signals := signals + [RowRemoved(i)];
    }

    /** The in-place merge of a reconciled view. `mirror` is what any view showed before the signals. */
    method Apply(view: FleetView, ghost mirror: seq<seq<Cell>>) returns (ghost incoming: seq<FleetEntry>)
      requires Follows(mirror)
      modifies this
      ensures multiset(incoming) == multiset(view.entries) && Sorted(incoming, EarlierHost)
      ensures rows == Merge(old(rows), incoming) && Valid()
      ensures Follows(mirror) && old(signals) <= signals
      ensures shown == MergeShown(old(rows), old(shown), incoming)
      ensures HeardAll(mirror, signals) == MirrorOf(rows) <==> AllCurrent()
      ensures old(AllCurrent()) ==> AllCurrent()
      ensures OneEntryEach(view.entries) ==> Ascending(RowHosts(rows))
      ensures OneEntryEach(view.entries) && Ascending(RowHosts(old(rows))) ==>
        forall i | 0 <= i < |rows| :: rows[i] == RowAfter(old(rows), rows[i].entry)
    {
      HostOrder();
      var sorted := Sort(view.entries, EarlierHost);
      incoming := sorted;
      MergeRows(sorted, mirror);
      MergeEntries(old(rows), sorted);
      SortedRows(rows, sorted);
      MergedHosts(old(rows), view.entries, sorted);
      ViewIsRightExactlyWhen(rows, shown);
      if old(AllCurrent()) {
        MergeKeepsCurrent(old(rows), old(shown), sorted);
      }
    }

    method MergeRows(incoming: seq<FleetEntry>, ghost mirror: seq<seq<Cell>>)
      requires Follows(mirror)
      modifies this
      ensures rows == Merge(old(rows), incoming)
      ensures shown == MergeShown(old(rows), old(shown), incoming)
      ensures Follows(mirror) && old(signals) <= signals
    {
      var k, n := 0, 0;
      MergeBegins(rows, shown, incoming);
      while k < |rows| || n < |incoming|
        invariant k <= |rows| && n <= |incoming|
        invariant Follows(mirror) && old(signals) <= signals
        invariant Progress(rows, incoming, k, n) == Merge(old(rows), incoming)
        invariant ProgressShown(rows, shown, incoming, k, n) == MergeShown(old(rows), old(shown), incoming)
        decreases |rows| - k + 2 * (|incoming| - n)
      {
        var haveOld, haveNew := k < |rows|, n < |incoming|;
        if haveOld && haveNew && rows[k].entry.hostId == incoming[n].hostId {
          MergeKeeps(rows, incoming, k, n);
          ShownKeeps(rows, shown, incoming, k, n);
          ReplaceEntry(k, incoming[n], mirror);
          k, n := k + 1, n + 1;
        } else if haveNew && (!haveOld || Less(incoming[n].hostId, rows[k].entry.hostId)) {
          MergeInserts(rows, incoming, k, n);
          ShownInserts(rows, shown, incoming, k, n);
          InsertRow(k, FreshRow(incoming[n]), mirror);
          k, n := k + 1, n + 1;
        } else {
          MergeRemoves(rows, incoming, k, n);
          ShownRemoves(rows, shown, incoming, k, n);
          RemoveRow(k, mirror);
        }
      }
      MergeEnds(rows, shown, incoming);
    }

    /** std::lower_bound, then a check that it landed on the host. */
    method IndexOf(hostId: HostId) returns (index: int)
      requires Valid()
      ensures index == if FirstIndex(rows, hostId) == |rows| then -1 else FirstIndex(rows, hostId)
    {
      var low, high := 0, |rows|;
      while low < high
        invariant 0 <= low <= high <= |rows|
        invariant forall j | 0 <= j < low :: Less(rows[j].entry.hostId, hostId)
        invariant forall j | high <= j < |rows| :: !Less(rows[j].entry.hostId, hostId)
      {
        var mid := (low + high) / 2;
        if Less(rows[mid].entry.hostId, hostId) {
          BelowIsLess(rows, mid, hostId);
          low := mid + 1;
        } else {
          AboveIsNotLess(rows, mid, hostId);
          high := mid;
        }
      }
      LessIrreflexive(hostId);
      FoundAt(rows, low, hostId);
      if low == |rows| || rows[low].entry.hostId != hostId {
        return -1;
      }
      return low;
    }

    /** A resource sample changes one row's resources. The view hears of CPU to Disk, not of Adapters. */
    method ApplySample(hostId: HostId, sample: Compliance.ResourceSample, ghost mirror: seq<seq<Cell>>)
      requires Valid() && Follows(mirror)
      modifies this
      ensures var i := FirstIndex(old(rows), hostId);
        rows ==
          if i == |old(rows)| then old(rows)
          else old(rows)[i := old(rows)[i].(resources := sample, hasResources := true)]
      ensures Valid() && old(signals) <= signals && RowHosts(rows) == RowHosts(old(rows))
      ensures Follows(mirror) && shown == old(shown)
      ensures HeardAll(mirror, signals) == MirrorOf(rows) <==> AllCurrent()
      ensures old(AllCurrent()) ==>
        (AllCurrent() <==>
           FirstIndex(old(rows), hostId) < |old(rows)| ==>
             var row := old(rows)[FirstIndex(old(rows), hostId)];
             AdaptersText(row.entry, row.resources.adapters) == AdaptersText(row.entry, sample.adapters))
    {
      var i := IndexOf(hostId);
      if i >= 0 {
        SetResources(i, sample, mirror);
      }
      ViewIsRightExactlyWhen(rows, shown);
    }

    method SetResources(i: nat, sample: Compliance.ResourceSample, ghost mirror: seq<seq<Cell>>)
      requires i < |rows| && Follows(mirror)
      modifies this
      ensures rows == old(rows)[i := old(rows)[i].(resources := sample, hasResources := true)]
      ensures Follows(mirror) && shown == old(shown) && old(signals) <= signals
      ensures old(AllCurrent()) ==>
        (AllCurrent() <==>
           AdaptersText(old(rows)[i].entry, old(rows)[i].resources.adapters)
             == AdaptersText(old(rows)[i].entry, sample.adapters))
    {
      if AllCurrent() {
        OneCellCurrent(rows, shown, i, rows[i].(resources := sample, hasResources := true));
      }
      if rows[i].hasResources && rows[i].resources == sample {
        assert rows == rows[i := rows[i].(resources := sample, hasResources := true)];
        return;
      }
      SampleHeard(rows, shown, i, sample);
      rows := rows[i := rows[i].(resources := sample, hasResources := true)];
      HeardOneMore(mirror, signals, SampleCells(rows, i));
      EmitChanged(i, CPU, DISK);
    }

    /** A report's summary and tags change one row, and the view hears of the whole row, Adapters too. */
    method ApplyCompliance(hostId: HostId, summary: Summary, tags: seq<Tag>, ghost mirror: seq<seq<Cell>>)
      requires Valid() && Follows(mirror)
      modifies this
      ensures var i := FirstIndex(old(rows), hostId);
        && rows ==
           (if i == |old(rows)| then old(rows)
            else old(rows)[i := old(rows)[i].(summary := Some(summary), tags := tags)])
        && shown ==
           (if i == |old(rows)| || (old(rows)[i].summary == Some(summary) && old(rows)[i].tags == tags) then old(shown)
            else old(shown)[i := old(rows)[i].resources.adapters])
      ensures Valid() && old(signals) <= signals && RowHosts(rows) == RowHosts(old(rows))
      ensures Follows(mirror)
      ensures HeardAll(mirror, signals) == MirrorOf(rows) <==> AllCurrent()
      ensures old(AllCurrent()) ==> AllCurrent()
    {
      var i := IndexOf(hostId);
      if i >= 0 {
        SetCompliance(i, summary, tags, mirror);
      }
      ViewIsRightExactlyWhen(rows, shown);
    }

    method SetCompliance(i: nat, summary: Summary, tags: seq<Tag>, ghost mirror: seq<seq<Cell>>)
      requires i < |rows| && Follows(mirror)
      modifies this
      ensures rows == old(rows)[i := old(rows)[i].(summary := Some(summary), tags := tags)]
      ensures Follows(mirror) && old(signals) <= signals
      ensures shown ==
        if old(rows)[i].summary == Some(summary) && old(rows)[i].tags == tags then old(shown)
        else old(shown)[i := old(rows)[i].resources.adapters]
      ensures old(AllCurrent()) ==> AllCurrent()
    {
      if rows[i].summary == Some(summary) && rows[i].tags == tags {
        assert rows == rows[i := rows[i].(summary := Some(summary), tags := tags)];
        return;
      }
      ghost var was := rows;
      rows := rows[i := rows[i].(summary := Some(summary), tags := tags)];
      WholeRowHeard(was, shown, i, rows[i]);
      HeardOneMore(mirror, signals, WholeRow(rows, i));
      EmitChanged(i, HOST, COLUMNS - 1);
    }
  }

  lemma OneCellCurrent(rows: seq<Row>, shown: seq<Adapters>, i: nat, row: Row)
    requires i < |rows| == |shown| && row.entry == rows[i].entry && Current(rows, shown)
    ensures Current(rows[i := row], shown) <==>
      AdaptersText(row.entry, rows[i].resources.adapters) == AdaptersText(row.entry, row.resources.adapters)
  {
    var rows' := rows[i := row];
    assert CellCurrent(rows[i], shown[i]);
    if CellCurrent(row, shown[i]) {
      forall j | 0 <= j < |rows|
        ensures CellCurrent(rows'[j], shown[j])
      {
        assert CellCurrent(rows[j], shown[j]);
      }
    } else {
      assert !CellCurrent(rows'[i], shown[i]);
    }
  }

  lemma BelowIsLess(rows: seq<Row>, mid: nat, hostId: HostId)
    requires mid < |rows| && Less(rows[mid].entry.hostId, hostId)
    requires forall i, j | 0 <= i < j < |rows| :: !Less(rows[j].entry.hostId, rows[i].entry.hostId)
    ensures forall j | 0 <= j <= mid :: Less(rows[j].entry.hostId, hostId)
  {
    forall j | 0 <= j < mid
      ensures Less(rows[j].entry.hostId, hostId)
    {
      LessTotal(rows[j].entry.hostId, rows[mid].entry.hostId);
      if rows[j].entry.hostId != rows[mid].entry.hostId {
        LessTransitive(rows[j].entry.hostId, rows[mid].entry.hostId, hostId);
      }
    }
  }

  lemma AboveIsNotLess(rows: seq<Row>, mid: nat, hostId: HostId)
    requires mid < |rows| && !Less(rows[mid].entry.hostId, hostId)
    requires forall i, j | 0 <= i < j < |rows| :: !Less(rows[j].entry.hostId, rows[i].entry.hostId)
    ensures forall j | mid <= j < |rows| :: !Less(rows[j].entry.hostId, hostId)
  {
    forall j | mid < j < |rows|
      ensures !Less(rows[j].entry.hostId, hostId)
    {
      LessTotal(rows[mid].entry.hostId, rows[j].entry.hostId);
      if Less(rows[j].entry.hostId, hostId) && rows[mid].entry.hostId != rows[j].entry.hostId {
        LessTransitive(rows[mid].entry.hostId, rows[j].entry.hostId, hostId);
      }
    }
  }

  lemma FoundAt(rows: seq<Row>, low: nat, hostId: HostId)
    requires low <= |rows| && !Less(hostId, hostId)
    requires forall i, j | 0 <= i < j < |rows| :: !Less(rows[j].entry.hostId, rows[i].entry.hostId)
    requires forall j | 0 <= j < low :: Less(rows[j].entry.hostId, hostId)
    requires forall j | low <= j < |rows| :: !Less(rows[j].entry.hostId, hostId)
    ensures FirstIndex(rows, hostId) == if low < |rows| && rows[low].entry.hostId == hostId then low else |rows|
  {
    forall j | low < j < |rows|
      ensures rows[j].entry.hostId == hostId ==> rows[low].entry.hostId == hostId
    {
      LessTotal(rows[low].entry.hostId, hostId);
    }
    var f := FirstIndex(rows, hostId);
    assert f < |rows| ==> f >= low;
  }

  // ----- the merge's cases -----

  /** What the merge will have produced, k rows and n entries into it. */
  function Progress(rows: seq<Row>, incoming: seq<FleetEntry>, k: nat, n: nat): seq<Row>
    requires k <= |rows| && n <= |incoming|
  {
    rows[..k] + Merge(rows[k..], incoming[n..])
  }

  function ProgressShown(rows: seq<Row>, shown: seq<Adapters>, incoming: seq<FleetEntry>, k: nat, n: nat): seq<Adapters>
    requires k <= |rows| == |shown| && n <= |incoming|
  {
    shown[..k] + MergeShown(rows[k..], shown[k..], incoming[n..])
  }

  lemma MergeBegins(rows: seq<Row>, shown: seq<Adapters>, incoming: seq<FleetEntry>)
    requires |rows| == |shown|
    ensures Progress(rows, incoming, 0, 0) == Merge(rows, incoming)
    ensures ProgressShown(rows, shown, incoming, 0, 0) == MergeShown(rows, shown, incoming)
  {
    assert rows[0..] == rows && incoming[0..] == incoming && rows[..0] == [];
    assert shown[0..] == shown && shown[..0] == [];
  }

  lemma MergeEnds(rows: seq<Row>, shown: seq<Adapters>, incoming: seq<FleetEntry>)
    requires |rows| == |shown|
    ensures Progress(rows, incoming, |rows|, |incoming|) == rows
    ensures ProgressShown(rows, shown, incoming, |rows|, |incoming|) == shown
  {
    assert Merge([], []) == [];
    assert MergeShown([], [], []) == [];
    assert rows[..|rows|] == rows && rows[|rows|..] == [] && incoming[|incoming|..] == [];
    assert shown[..|rows|] == shown && shown[|rows|..] == [];
  }

  lemma ShownKeeps(rows: seq<Row>, shown: seq<Adapters>, incoming: seq<FleetEntry>, k: nat, n: nat)
    requires k < |rows| == |shown| && n < |incoming| && rows[k].entry.hostId == incoming[n].hostId
    ensures var after := ShownAfter(rows[k], shown[k], incoming[n]);
      ProgressShown(rows[k := rows[k].(entry := incoming[n])], shown[k := after], incoming, k + 1, n + 1)
        == ProgressShown(rows, shown, incoming, k, n)
  {
    var after := ShownAfter(rows[k], shown[k], incoming[n]);
    PutAt(rows, k, rows[k].(entry := incoming[n]));
    PutAt(shown, k, after);
    PutAt(incoming, n, incoming[n]);
    Regroup(shown[..k], [after], MergeShown(rows[k + 1..], shown[k + 1..], incoming[n + 1..]));
  }

  lemma ShownInserts(rows: seq<Row>, shown: seq<Adapters>, incoming: seq<FleetEntry>, k: nat, n: nat)
    requires k <= |rows| == |shown| && n < |incoming|
    requires k < |rows| ==> rows[k].entry.hostId != incoming[n].hostId && Less(incoming[n].hostId, rows[k].entry.hostId)
    ensures ProgressShown(rows[..k] + [FreshRow(incoming[n])] + rows[k..], shown[..k] + [[]] + shown[k..],
        incoming, k + 1, n + 1)
      == ProgressShown(rows, shown, incoming, k, n)
  {
    AddedAt(rows, k, FreshRow(incoming[n]));
    AddedAt(shown, k, []);
    PutAt(incoming, n, incoming[n]);
    Regroup(shown[..k], [[]], MergeShown(rows[k..], shown[k..], incoming[n + 1..]));
  }

  lemma ShownRemoves(rows: seq<Row>, shown: seq<Adapters>, incoming: seq<FleetEntry>, k: nat, n: nat)
    requires k < |rows| == |shown| && n <= |incoming|
    requires n < |incoming| ==>
      rows[k].entry.hostId != incoming[n].hostId && !Less(incoming[n].hostId, rows[k].entry.hostId)
    ensures ProgressShown(rows[..k] + rows[k + 1..], shown[..k] + shown[k + 1..], incoming, k, n)
      == ProgressShown(rows, shown, incoming, k, n)
  {
    var rows', shown' := rows[..k] + rows[k + 1..], shown[..k] + shown[k + 1..];
    assert rows[k..][1..] == rows[k + 1..] == rows'[k..];
    assert shown[k..][1..] == shown[k + 1..] == shown'[k..] && shown'[..k] == shown[..k];
  }

  lemma MergeKeeps(rows: seq<Row>, incoming: seq<FleetEntry>, k: nat, n: nat)
    requires k < |rows| && n < |incoming| && rows[k].entry.hostId == incoming[n].hostId
    ensures Progress(rows[k := rows[k].(entry := incoming[n])], incoming, k + 1, n + 1)
      == Progress(rows, incoming, k, n)
  {
    var kept := rows[k].(entry := incoming[n]);
    assert rows[k..][1..] == rows[k + 1..] && incoming[n..][1..] == incoming[n + 1..];
    assert rows[k := kept][..k + 1] == rows[..k] + [kept] && rows[k := kept][k + 1..] == rows[k + 1..];
    assert Merge(rows[k..], incoming[n..]) == [kept] + Merge(rows[k + 1..], incoming[n + 1..]);
  }

  lemma MergeInserts(rows: seq<Row>, incoming: seq<FleetEntry>, k: nat, n: nat)
    requires k <= |rows| && n < |incoming|
    requires k < |rows| ==> rows[k].entry.hostId != incoming[n].hostId && Less(incoming[n].hostId, rows[k].entry.hostId)
    ensures Progress(rows[..k] + [FreshRow(incoming[n])] + rows[k..], incoming, k + 1, n + 1)
      == Progress(rows, incoming, k, n)
  {
    var added := FreshRow(incoming[n]);
    var rows' := rows[..k] + [added] + rows[k..];
    assert incoming[n..][1..] == incoming[n + 1..];
    assert rows'[..k + 1] == rows[..k] + [added] && rows'[k + 1..] == rows[k..];
    assert Merge(rows[k..], incoming[n..]) == [added] + Merge(rows[k..], incoming[n + 1..]);
  }

  lemma MergeRemoves(rows: seq<Row>, incoming: seq<FleetEntry>, k: nat, n: nat)
    requires k < |rows| && n <= |incoming|
    requires n < |incoming| ==>
      rows[k].entry.hostId != incoming[n].hostId && !Less(incoming[n].hostId, rows[k].entry.hostId)
    ensures Progress(rows[..k] + rows[k + 1..], incoming, k, n) == Progress(rows, incoming, k, n)
  {
    var rows' := rows[..k] + rows[k + 1..];
    assert rows[k..][1..] == rows[k + 1..];
    assert rows'[..k] == rows[..k] && rows'[k..] == rows[k + 1..];
  }

  /** Whatever the rows were, the merged rows carry exactly the incoming entries, in their order. */
  lemma {:induction false} MergeEntries(rows: seq<Row>, incoming: seq<FleetEntry>)
    ensures |Merge(rows, incoming)| == |incoming|
    ensures forall i | 0 <= i < |incoming| :: Merge(rows, incoming)[i].entry == incoming[i]
    decreases |rows| + |incoming|
  {
    if rows != [] && incoming != [] && rows[0].entry.hostId == incoming[0].hostId {
      MergeEntries(rows[1..], incoming[1..]);
    } else if incoming != [] && (rows == [] || Less(incoming[0].hostId, rows[0].entry.hostId)) {
      MergeEntries(rows, incoming[1..]);
    } else if rows != [] {
      MergeEntries(rows[1..], incoming);
    }
  }

  lemma SortedRows(rows: seq<Row>, incoming: seq<FleetEntry>)
    requires |rows| == |incoming| && Sorted(incoming, EarlierHost)
    requires forall i | 0 <= i < |incoming| :: rows[i].entry == incoming[i]
    ensures forall i, j | 0 <= i < j < |rows| :: !Less(rows[j].entry.hostId, rows[i].entry.hostId)
  {
    forall i, j | 0 <= i < j < |rows|
      ensures !Less(rows[j].entry.hostId, rows[i].entry.hostId)
    {
      assert !EarlierHost(incoming[j], incoming[i]);
    }
  }

  ghost predicate Ascending(hosts: seq<HostId>) {
    forall i, j | 0 <= i < j < |hosts| :: Less(hosts[i], hosts[j])
  }

  function RowHosts(rows: seq<Row>): seq<HostId> {
    seq(|rows|, i requires 0 <= i < |rows| => rows[i].entry.hostId)
  }

  function EntryHosts(entries: seq<FleetEntry>): seq<HostId> {
    seq(|entries|, i requires 0 <= i < |entries| => entries[i].hostId)
  }

  /** The row a host ends up with: its old one with the new entry, or a fresh one. */
  function RowAfter(rows: seq<Row>, entry: FleetEntry): Row {
    var i := FirstIndex(rows, entry.hostId);
    if i < |rows| then rows[i].(entry := entry) else FreshRow(entry)
  }

  lemma NotAmongLater(rows: seq<Row>, hostId: HostId)
    requires Ascending(RowHosts(rows)) && (rows != [] ==> Less(hostId, rows[0].entry.hostId))
    ensures FirstIndex(rows, hostId) == |rows|
  {
    var f := FirstIndex(rows, hostId);
    if f < |rows| {
      LessIrreflexive(hostId);
      if f > 0 {
        assert Less(RowHosts(rows)[0], RowHosts(rows)[f]);
        LessAsymmetric(hostId, rows[0].entry.hostId);
      }
    }
  }

  ghost predicate OneEntryEach(entries: seq<FleetEntry>) {
    forall i, j | 0 <= i < j < |entries| :: entries[i].hostId != entries[j].hostId
  }

  lemma SortedAscending(entries: seq<FleetEntry>, incoming: seq<FleetEntry>)
    requires OneEntryEach(entries) && multiset(incoming) == multiset(entries) && Sorted(incoming, EarlierHost)
    ensures Ascending(EntryHosts(incoming))
  {
    PermutationDistinct((e: FleetEntry) => e.hostId, incoming, entries);
    forall i, j | 0 <= i < j < |incoming|
      ensures Less(incoming[i].hostId, incoming[j].hostId)
    {
      assert !EarlierHost(incoming[j], incoming[i]);
      LessTotal(incoming[i].hostId, incoming[j].hostId);
    }
  }

  lemma MergedHosts(rows: seq<Row>, entries: seq<FleetEntry>, incoming: seq<FleetEntry>)
    requires multiset(incoming) == multiset(entries) && Sorted(incoming, EarlierHost)
    ensures OneEntryEach(entries) ==> Ascending(RowHosts(Merge(rows, incoming)))
    ensures OneEntryEach(entries) && Ascending(RowHosts(rows)) ==>
      forall i | 0 <= i < |Merge(rows, incoming)| ::
        Merge(rows, incoming)[i] == RowAfter(rows, Merge(rows, incoming)[i].entry)
  {
    MergeEntries(rows, incoming);
    if OneEntryEach(entries) {
      SortedAscending(entries, incoming);
      assert RowHosts(Merge(rows, incoming)) == EntryHosts(incoming);
      if Ascending(RowHosts(rows)) {
        forall i | 0 <= i < |incoming|
          ensures Merge(rows, incoming)[i] == RowAfter(rows, incoming[i])
        {
          MergeKeepsSurvivors(rows, incoming, i);
        }
      }
    }
  }

  lemma TailAscending(hosts: seq<HostId>, tail: seq<HostId>)
    requires Ascending(hosts) && hosts != [] && tail == hosts[1..]
    ensures Ascending(tail)
  {
  }

  lemma TailsAscending(rows: seq<Row>, incoming: seq<FleetEntry>)
    requires Ascending(RowHosts(rows)) && Ascending(EntryHosts(incoming))
    ensures rows != [] ==> Ascending(RowHosts(rows[1..]))
    ensures incoming != [] ==> Ascending(EntryHosts(incoming[1..]))
  {
    if rows != [] {
      TailAscending(RowHosts(rows), RowHosts(rows[1..]));
    }
    if incoming != [] {
      TailAscending(EntryHosts(incoming), EntryHosts(incoming[1..]));
    }
  }

  /** From rows and entries in ascending order, surviving hosts keep their resources, summary and tags
      and new hosts start empty. */
  lemma {:induction false} MergeKeepsSurvivors(rows: seq<Row>, incoming: seq<FleetEntry>, i: nat)
    requires Ascending(RowHosts(rows)) && Ascending(EntryHosts(incoming)) && i < |incoming|
    ensures |Merge(rows, incoming)| == |incoming|
    ensures Merge(rows, incoming)[i] == RowAfter(rows, incoming[i])
    decreases |rows| + |incoming|
  {
    MergeEntries(rows, incoming);
    TailsAscending(rows, incoming);
    if rows != [] && incoming != [] && rows[0].entry.hostId == incoming[0].hostId {
      if i > 0 {
        MergeKeepsSurvivors(rows[1..], incoming[1..], i - 1);
        assert Less(EntryHosts(incoming)[0], EntryHosts(incoming)[i]);
        LessIrreflexive(incoming[i].hostId);
      }
    } else if rows == [] || Less(incoming[0].hostId, rows[0].entry.hostId) {
      if i == 0 {
        NotAmongLater(rows, incoming[0].hostId);
      } else {
        MergeKeepsSurvivors(rows, incoming[1..], i - 1);
      }
    } else {
      MergeKeepsSurvivors(rows[1..], incoming, i);
      NotEarlier(rows[0].entry.hostId, incoming, i);
    }
  }

  /** The adapters a host's cell ends up fetched from: those the row has when its host or state changed, those
      it was of before when it did not, and none for a new host. */
  function ShownOf(rows: seq<Row>, shown: seq<Adapters>, entry: FleetEntry): Adapters
    requires |rows| == |shown|
  {
    var i := FirstIndex(rows, entry.hostId);
    if i < |rows| then ShownAfter(rows[i], shown[i], entry) else []
  }

  lemma {:induction false} MergeShowsSurvivors(rows: seq<Row>, shown: seq<Adapters>, incoming: seq<FleetEntry>, i: nat)
    requires Ascending(RowHosts(rows)) && Ascending(EntryHosts(incoming)) && i < |incoming| && |rows| == |shown|
    ensures |MergeShown(rows, shown, incoming)| == |incoming|
    ensures MergeShown(rows, shown, incoming)[i] == ShownOf(rows, shown, incoming[i])
    decreases |rows| + |incoming|
  {
    MergeEntries(rows, incoming);
    TailsAscending(rows, incoming);
    if rows != [] && incoming != [] && rows[0].entry.hostId == incoming[0].hostId {
      if i > 0 {
        MergeShowsSurvivors(rows[1..], shown[1..], incoming[1..], i - 1);
        assert Less(EntryHosts(incoming)[0], EntryHosts(incoming)[i]);
        LessIrreflexive(incoming[i].hostId);
      }
    } else if rows == [] || Less(incoming[0].hostId, rows[0].entry.hostId) {
      if i == 0 {
        NotAmongLater(rows, incoming[0].hostId);
      } else {
        MergeShowsSurvivors(rows, shown, incoming[1..], i - 1);
      }
    } else {
      MergeShowsSurvivors(rows[1..], shown[1..], incoming, i);
      NotEarlier(rows[0].entry.hostId, incoming, i);
    }
  }

  lemma NotEarlier(hostId: HostId, incoming: seq<FleetEntry>, i: nat)
    requires Ascending(EntryHosts(incoming)) && i < |incoming|
    requires hostId != incoming[0].hostId && !Less(incoming[0].hostId, hostId)
    ensures hostId != incoming[i].hostId
  {
    LessTotal(incoming[0].hostId, hostId);
    if i > 0 {
      assert Less(EntryHosts(incoming)[0], EntryHosts(incoming)[i]);
      LessTransitive(hostId, incoming[0].hostId, incoming[i].hostId);
      LessIrreflexive(hostId);
    }
  }
}
