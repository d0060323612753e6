/** Evaluating rules against what was read on a host (libs/core/src/compliance.cpp). A result keeps its
    rule id, its status, and whether the data it needs had been read at all; the wording is left out. */
module Compliance {
  import opened Base
  import opened Sequences
  import opened Json
  import opened JsonPath
  import opened JsonWalk
  import opened Rules
  import opened Versions
  import opened RuleIds
  import Fleet
  import Sorting

  datatype NetworkAdapter = NetworkAdapter(name: string, link: LinkState)
  datatype DiskUsage = DiskUsage(mount: string, totalBytes: uint64, freeBytes: uint64)
  datatype ResourceSample = ResourceSample(
    cpuPercent: real, memTotalBytes: uint64, memUsedBytes: uint64, disks: seq<DiskUsage>, adapters: seq<NetworkAdapter>)
  datatype ProcessInfo = ProcessInfo(executable: string, version: Option<Version>)
  datatype ServiceInfo = ServiceInfo(name: string, state: ServiceState)
  datatype RegistryValue = RegistryValue(present: bool, data: string, error: string)
  datatype DdsTopicSample = DdsTopicSample(topicFound: bool, json: string, hasSample: bool, error: string)

  datatype HostFacts = HostFacts(
    hostId: HostId, resources: ResourceSample, processes: seq<ProcessInfo>, services: seq<ServiceInfo>,
    registry: map<string, RegistryValue>, dds: map<string, DdsTopicSample>)

  datatype CheckStatus = Pass | Fail | NotApplicable | Error

  datatype CheckResult = CheckResult(ruleId: string, status: CheckStatus, probed: bool)

  /** What std::stod can make of a text: it reads "nan" and "inf" too. */
  datatype Double = NotANumber | MinusInfinity | Finite(value: real) | PlusInfinity

  /** The library calls that read and print JSON text and numbers. */
  datatype Reader = Reader(
    parseJson: string -> Option<Json>, parseNumber: string -> Option<Double>, readable: Json -> string)

  // ----- the evaluators -----

  function EqualsIgnoreCase(a: string, b: string): bool {
    |a| == |b| && forall i | 0 <= i < |a| :: ToLower(a[i]) == ToLower(b[i])
  }

  predicate Contains(text: string, part: string) {
    exists k | 0 <= k <= |text| - |part| :: OccursAt(text, part, k)
  }

  predicate OccursAt(text: string, part: string, k: nat)
    requires k + |part| <= |text|
  {
    text[k..k + |part|] == part
  }

  function Verdict(rule: Rule, ok: bool): CheckResult {
    CheckResult(rule.id, if ok then Pass else Fail, true)
  }

  function Resolve(rule: Rule, present: bool): CheckResult {
    Verdict(rule, present == (rule.expectation == MustBePresent))
  }

  function CheckError(rule: Rule, probed: bool): CheckResult {
    CheckResult(rule.id, Error, probed)
  }

  function FindProcess(processes: seq<ProcessInfo>, executable: string): Option<ProcessInfo> {
    if processes == [] then None
    else if EqualsIgnoreCase(processes[0].executable, executable) then Some(processes[0])
    else FindProcess(processes[1..], executable)
  }

  function FindService(services: seq<ServiceInfo>, name: string): Option<ServiceInfo> {
    if services == [] then None
    else if EqualsIgnoreCase(services[0].name, name) then Some(services[0])
    else FindService(services[1..], name)
  }

  function FindAdapter(adapters: seq<NetworkAdapter>, name: string): Option<NetworkAdapter> {
    if adapters == [] then None
    else if EqualsIgnoreCase(adapters[0].name, name) then Some(adapters[0])
    else FindAdapter(adapters[1..], name)
  }

  function CountUp(adapters: seq<NetworkAdapter>): nat {
    if adapters == [] then 0
    else (if adapters[|adapters| - 1].link == Connected then 1 else 0) + CountUp(adapters[..|adapters| - 1])
  }

  function EvaluateProcess(rule: Rule, processes: seq<ProcessInfo>): CheckResult
    requires rule.payload.ProcessRule?
  {
    var found := FindProcess(processes, rule.payload.executable);
    if found.None? then Resolve(rule, false)
    else if rule.version.Some? && rule.expectation == MustBePresent then
      if found.value.version.None? then CheckError(rule, true)
      else
        var wanted := rule.version.value;
        Verdict(rule, Satisfies(CompareFrom(found.value.version.value, wanted.value, 0), wanted.op))
    else Resolve(rule, true)
  }

  function EvaluateService(rule: Rule, services: seq<ServiceInfo>): CheckResult
    requires rule.payload.ServiceRule?
  {
    var found := FindService(services, rule.payload.serviceName);
    if found.None? then Resolve(rule, false)
    else if rule.payload.expectedState.Some? && rule.expectation == MustBePresent then
      Verdict(rule, found.value.state == rule.payload.expectedState.value)
    else Resolve(rule, true)
  }

  function EvaluateRegistry(rule: Rule, entry: Option<RegistryValue>): CheckResult
    requires rule.payload.RegistryRule?
  {
    if entry.None? then CheckError(rule, false)
    else if entry.value.error != "" then CheckError(rule, true)
    else if !entry.value.present then Resolve(rule, false)
    else match rule.payload.match_
      case MatchExists => Resolve(rule, true)
      case MatchEquals => Resolve(rule, entry.value.data == rule.payload.expectedText)
      case MatchContains => Resolve(rule, Contains(entry.value.data, rule.payload.expectedText))
  }

  function EvaluateAdapterCount(rule: Rule, adapters: seq<NetworkAdapter>): CheckResult
    requires rule.payload.AdapterCountRule?
  {
    var up := CountUp(adapters);
    Verdict(rule, match rule.payload.comparison
      case AtLeast => up >= rule.payload.count
      case Exactly => up == rule.payload.count
      case AtMost => up <= rule.payload.count)
  }

  function EvaluateAdapterState(rule: Rule, adapters: seq<NetworkAdapter>): CheckResult
    requires rule.payload.AdapterStateRule?
  {
    var found := FindAdapter(adapters, rule.payload.adapterName);
    Resolve(rule, found.Some? && found.value.link == rule.payload.expectedLink)
  }

  function EvaluateDdsTopic(rule: Rule, sample: Option<DdsTopicSample>): CheckResult
    requires rule.payload.DdsTopicRule?
  {
    if sample.None? then CheckError(rule, false)
    else if sample.value.error != "" then CheckError(rule, true)
    else Resolve(rule, sample.value.topicFound)
  }

  // ----- values inside a DDS sample -----

  datatype Outcome = Matched | Differs | Incomparable

  function Number(value: Json): Option<real> {
    match value
    case JInt(n) => Some(n as real)
    case JReal(r) => Some(r)
    case _ => None
  }

  // Comparisons with a number of the document, which is always finite.

  predicate AtMostReal(d: Double, x: real) {
    d == MinusInfinity || (d.Finite? && d.value <= x)
  }

  predicate AtLeastReal(d: Double, x: real) {
    d == PlusInfinity || (d.Finite? && d.value >= x)
  }

  /** Whether one value satisfies the rule, or cannot be compared. */
  function Matches(value: Json, match_: DdsMatch, expected: string, reader: Reader): Outcome {
    if match_ == DdsAtLeast || match_ == DdsAtMost || (match_ == DdsEquals && Number(value).Some?) then
      var wanted := reader.parseNumber(expected);
      if Number(value).None? || wanted.None? then Incomparable
      else
        var observed := Number(value).value;
        var holds :=
          if match_ == DdsAtLeast then AtMostReal(wanted.value, observed)
          else if match_ == DdsAtMost then AtLeastReal(wanted.value, observed)
          else wanted.value == Finite(observed);
        if holds then Matched else Differs
    else
      var observed := reader.readable(value);
      var holds := if match_ == DdsContains then Contains(observed, expected) else observed == expected;
      if holds then Matched else Differs
  }

  /** Any value that matches passes the rule; it is an error only when no value could be compared. */
  ghost function AnyVerdict(rule: Rule, values: seq<Json>, reader: Reader): CheckStatus
    requires rule.payload.DdsValueRule?
  {
    var p := rule.payload;
    if exists v | v in values :: Matches(v, p.ddsMatch, p.expectedValue, reader) == Matched then Pass
    else if values != [] && forall v | v in values :: Matches(v, p.ddsMatch, p.expectedValue, reader) == Incomparable
    then Error
    else Fail
  }

  ghost function EvaluateDdsValue(rule: Rule, sample: Option<DdsTopicSample>, reader: Reader): CheckResult
    requires rule.payload.DdsValueRule?
  {
    if sample.None? then CheckError(rule, false)
    else if sample.value.error != "" then CheckError(rule, true)
    else if !sample.value.topicFound then Verdict(rule, false)
    else if !sample.value.hasSample then CheckError(rule, true)
    else
      var document := reader.parseJson(sample.value.json);
      if document.None? then CheckError(rule, true)
      else
        var found := ResolvedAll(document.value, rule.payload.path);
        if found.Failure? then CheckError(rule, true)
        else CheckResult(rule.id, AnyVerdict(rule, found.value, reader), true)
  }

  method CheckDdsValue(rule: Rule, sample: Option<DdsTopicSample>, reader: Reader) returns (result: CheckResult)
    requires rule.payload.DdsValueRule?
    ensures result == EvaluateDdsValue(rule, sample, reader)
  {
    if sample.None? {
      return CheckError(rule, false);
    }
    if sample.value.error != "" {
      return CheckError(rule, true);
    }
    if !sample.value.topicFound {
      return Verdict(rule, false);
    }
    if !sample.value.hasSample {
      return CheckError(rule, true);
    }
    var document := reader.parseJson(sample.value.json);
    if document.None? {
      return CheckError(rule, true);
    }
    var found := ResolveAll(document.value, rule.payload.path);
    if found.Failure? {
      return CheckError(rule, true);
    }
    var status := AnyMatch(rule, found.value, reader);
    return CheckResult(rule.id, status, true);
  }

  method AnyMatch(rule: Rule, values: seq<Json>, reader: Reader) returns (status: CheckStatus)
    requires rule.payload.DdsValueRule?
    ensures status == AnyVerdict(rule, values, reader)
  {
    if values == [] {
      return Fail;
    }
    var comparable := 0;
    for i := 0 to |values|
      invariant forall j | 0 <= j < i ::
        Matches(values[j], rule.payload.ddsMatch, rule.payload.expectedValue, reader) != Matched
      invariant comparable == 0 <==>
        forall j | 0 <= j < i ::
          Matches(values[j], rule.payload.ddsMatch, rule.payload.expectedValue, reader) == Incomparable
      invariant comparable >= 0
    {
      var outcome := Matches(values[i], rule.payload.ddsMatch, rule.payload.expectedValue, reader);
      if outcome == Matched {
        assert values[i] in values;
        return Pass;
      }
      if outcome == Differs {
        comparable := comparable + 1;
      }
    }
    return if comparable == 0 then Error else Fail;
  }

  // ----- the report -----

  /** Where evaluation reads the host: the facts gathered, or the host itself. */
  datatype View = View(
    processes: seq<ProcessInfo>, services: seq<ServiceInfo>, adapters: seq<NetworkAdapter>,
    registry: Location -> Option<RegistryValue>, dds: (uint32, string) -> Option<DdsTopicSample>)

  ghost function EvaluateWith(rule: Rule, view: View, caps: set<Fleet.Capability>, reader: Reader): CheckResult {
    if RequiredCapability(KindOf(rule)) !in caps then CheckResult(rule.id, NotApplicable, true)
    else match rule.payload
      case ProcessRule(_) => EvaluateProcess(rule, view.processes)
      case ServiceRule(_, _) => EvaluateService(rule, view.services)
      case RegistryRule(_, _, _, _, _) => EvaluateRegistry(rule, view.registry(LocationOf(rule.payload)))
      case AdapterCountRule(_, _) => EvaluateAdapterCount(rule, view.adapters)
      case AdapterStateRule(_, _) => EvaluateAdapterState(rule, view.adapters)
      case DdsTopicRule(d, t) => EvaluateDdsTopic(rule, view.dds(d, t))
      case DdsValueRule(d, t, _, _, _) => EvaluateDdsValue(rule, view.dds(d, t), reader)
  }

  function LookupRegistry(facts: HostFacts): Location -> Option<RegistryValue> {
    at => if RegistryKey(at) in facts.registry then Some(facts.registry[RegistryKey(at)]) else None
  }

  function LookupDds(facts: HostFacts): (uint32, string) -> Option<DdsTopicSample> {
    (d: uint32, t: string) => if DdsKey(d, t) in facts.dds then Some(facts.dds[DdsKey(d, t)]) else None
  }

  function FactsView(facts: HostFacts): View {
    View(facts.processes, facts.services, facts.resources.adapters, LookupRegistry(facts), LookupDds(facts))
  }

  ghost function Report(rules: seq<Rule>, view: View, caps: set<Fleet.Capability>, reader: Reader): seq<CheckResult> {
    seq(|rules|, i requires 0 <= i < |rules| => EvaluateWith(rules[i], view, caps, reader))
  }

  method Evaluate(bundle: TemplateBundle, facts: HostFacts, caps: set<Fleet.Capability>, reader: Reader)
    returns (results: seq<CheckResult>)
    ensures results == Report(RulesFor(bundle, facts.hostId), FactsView(facts), caps, reader)
  {
    var rules := CollectRules(bundle, facts.hostId);
    results := [];
    for i := 0 to |rules|
      invariant |results| == i
      invariant forall j | 0 <= j < i :: results[j] == EvaluateWith(rules[j], FactsView(facts), caps, reader)
    {
      var rule := rules[i];
      var result;
      if RequiredCapability(KindOf(rule)) !in caps {
        result := CheckResult(rule.id, NotApplicable, true);
      } else {
        match rule.payload {
          case ProcessRule(_) => result := EvaluateProcess(rule, facts.processes);
          case ServiceRule(_, _) => result := EvaluateService(rule, facts.services);
          case RegistryRule(_, _, _, _, _) =>
            result := EvaluateRegistry(rule, LookupRegistry(facts)(LocationOf(rule.payload)));
          case AdapterCountRule(_, _) => result := EvaluateAdapterCount(rule, facts.resources.adapters);
          case AdapterStateRule(_, _) => result := EvaluateAdapterState(rule, facts.resources.adapters);
          case DdsTopicRule(d, t) => result := EvaluateDdsTopic(rule, LookupDds(facts)(d, t));
          case DdsValueRule(d, t, _, _, _) => result := CheckDdsValue(rule, LookupDds(facts)(d, t), reader);
        }
      }
      results := results + [result];
    }
  }

  // ----- any element -----

  /** Every array in a document is small enough to index with a machine word. */
  ghost predicate Addressable(j: Json) {
    match j
    case JArray(items) => |items| < WORD && forall item | item in items :: Addressable(item)
    case JObject(members) => forall key | key in members :: Addressable(members[key])
    case _ => true
  }

  lemma {:induction false} HitsAddressable(node: Json, segments: seq<Segment>, lengthProjection: bool, h: Hit)
    requires Addressable(node) && h in Hits(node, segments, lengthProjection)
    ensures forall i | 0 <= i < |h.indices| :: h.indices[i] < WORD
    decreases |segments|
  {
    if segments != [] {
      if segments[0].AnyIndex? {
        ElementHitIn(node.items, segments[1..], lengthProjection, h);
        HitsAddressable(node.items[h.indices[0]], segments[1..], lengthProjection, Hit(h.indices[1..], h.value));
        assert h.indices == [h.indices[0]] + h.indices[1..];
      } else {
        HitsAddressable(Child(node, segments[0]).value, segments[1..], lengthProjection, h);
      }
    }
  }

  lemma {:induction false} InstantiatedSegments(segments: seq<Segment>, indices: seq<nat>)
    requires |indices| == Wildcards(segments) && (forall i | 0 <= i < |indices| :: indices[i] < WORD)
    requires forall i | 0 <= i < |segments| :: SegmentOk(segments[i])
    ensures var r := Instantiate(segments, indices);
      forall i | 0 <= i < |segments| ::
        SegmentOk(r[i]) && (segments[i].Field? <==> r[i].Field?) && (segments[i].Field? ==> r[i] == segments[i])
  {
    if segments != [] {
      var any := segments[0].AnyIndex?;
      InstantiatedSegments(segments[1..], if any then indices[1..] else indices);
      var r := Instantiate(segments, indices);
      var rest := Instantiate(segments[1..], if any then indices[1..] else indices);
      forall i | 0 <= i < |segments|
        ensures SegmentOk(r[i]) && (segments[i].Field? <==> r[i].Field?) && (segments[i].Field? ==> r[i] == segments[i])
      {
        if i > 0 {
          assert r[i] == rest[i - 1] && segments[i] == segments[1..][i - 1];
        }
      }
    }
  }

  /** A path with its [*] replaced by indices, as text. */
  function InstancePath(parsed: Parsed, indices: seq<nat>): string
    requires |indices| == Wildcards(parsed.segments)
  {
    Render(Parsed(Instantiate(parsed.segments, indices), parsed.lengthProjection))
  }

  /** What Canonical asks of a path with segments. */
  lemma CanonicalIs(parsed: Parsed)
    requires parsed.segments != []
    ensures Canonical(parsed) <==>
      && parsed.segments[0].Field? && (forall i | 0 <= i < |parsed.segments| :: SegmentOk(parsed.segments[i]))
      && (parsed.lengthProjection || parsed.segments[|parsed.segments| - 1] != Field("length"))
  {
    var n := |parsed.segments|;
    assert forall i | 0 <= i < n :: Written(parsed)[i] == parsed.segments[i];
    assert parsed.lengthProjection ==> Written(parsed)[n] == Field("length");
  }

  lemma InstanceCanonical(parsed: Parsed, indices: seq<nat>)
    requires Canonical(parsed) && parsed.segments != [] && |indices| == Wildcards(parsed.segments)
    requires forall i | 0 <= i < |indices| :: indices[i] < WORD
    ensures Canonical(Parsed(Instantiate(parsed.segments, indices), parsed.lengthProjection))
  {
    CanonicalIs(parsed);
    CanonicalIs(Parsed(Instantiate(parsed.segments, indices), parsed.lengthProjection));
    InstantiatedSegments(parsed.segments, indices);
  }

  lemma EmptyPathParses()
    ensures Parse("") == Success(Parsed([], false))
  {
  }

  lemma InstanceParses(parsed: Parsed, indices: seq<nat>)
    requires Canonical(parsed) && parsed.segments != [] && |indices| == Wildcards(parsed.segments)
    requires forall i | 0 <= i < |indices| :: indices[i] < WORD
    ensures Parse(InstancePath(parsed, indices))
      == Success(Parsed(Instantiate(parsed.segments, indices), parsed.lengthProjection))
    ensures InstancePath(parsed, indices) != ""
  {
    InstanceCanonical(parsed, indices);
    RenderRoundTrip(Parsed(Instantiate(parsed.segments, indices), parsed.lengthProjection));
    EmptyPathParses();
  }

  lemma ConcreteResolves(document: Json, path: string, segments: seq<Segment>, lengthProjection: bool)
    requires path != "" && Parse(path) == Success(Parsed(segments, lengthProjection)) && Wildcards(segments) == 0
    ensures var value := Lookup(document, segments, lengthProjection);
      ResolvedAll(document, path) == if value.Some? then Success([value.value]) else Failure(NoSuchField)
  {
    WithoutWildcards(document, segments, lengthProjection);
    var value := Lookup(document, segments, lengthProjection);
    if value.Some? {
      assert ValuesOf([Hit([], value.value)]) == [value.value];
    }
  }

  function Readdressed(rule: Rule, path: string): Rule
    requires rule.payload.DdsValueRule?
  {
    rule.(payload := rule.payload.(path := path))
  }

  lemma InstanceStatus(document: Json, parsed: Parsed, indices: seq<nat>)
    requires Canonical(parsed) && parsed.segments != []
    requires |indices| == Wildcards(parsed.segments) && forall i | 0 <= i < |indices| :: indices[i] < WORD
    ensures var found := ResolvedAll(document, InstancePath(parsed, indices));
      var value := Lookup(document, Instantiate(parsed.segments, indices), parsed.lengthProjection);
      if value.Some? then found == Success([value.value]) else found == Failure(NoSuchField)
  {
    InstanceParses(parsed, indices);
    ConcreteResolves(document, InstancePath(parsed, indices), Instantiate(parsed.segments, indices),
      parsed.lengthProjection);
  }

  ghost predicate InstancePasses(rule: Rule, sample: DdsTopicSample, parsed: Parsed, reader: Reader, indices: seq<nat>)
    requires rule.payload.DdsValueRule?
  {
    && |indices| == Wildcards(parsed.segments) && (forall i | 0 <= i < |indices| :: indices[i] < WORD)
    && EvaluateDdsValue(Readdressed(rule, InstancePath(parsed, indices)), Some(sample), reader).status == Pass
  }

  lemma HitInstancePasses(rule: Rule, sample: DdsTopicSample, document: Json, parsed: Parsed, reader: Reader, h: Hit)
    requires rule.payload.DdsValueRule? && Canonical(parsed) && parsed.segments != []
    requires sample.error == "" && sample.topicFound && sample.hasSample
    requires reader.parseJson(sample.json) == Some(document) && Addressable(document)
    requires h in Hits(document, parsed.segments, parsed.lengthProjection)
    requires Matches(h.value, rule.payload.ddsMatch, rule.payload.expectedValue, reader) == Matched
    ensures InstancePasses(rule, sample, parsed, reader, h.indices)
  {
    HitIsLookup(document, parsed.segments, parsed.lengthProjection, h);
    HitsAddressable(document, parsed.segments, parsed.lengthProjection, h);
    InstanceStatus(document, parsed, h.indices);
    assert h.value in [h.value];
  }

  lemma PassNeedsAValue(rule: Rule, sample: DdsTopicSample, document: Json, reader: Reader)
    requires rule.payload.DdsValueRule? && reader.parseJson(sample.json) == Some(document)
    requires EvaluateDdsValue(rule, Some(sample), reader).status == Pass
    requires rule.payload.path != ""
    ensures sample.error == "" && sample.topicFound && sample.hasSample
    ensures ResolvedAll(document, rule.payload.path).Success?
    ensures exists v | v in ResolvedAll(document, rule.payload.path).value ::
      Matches(v, rule.payload.ddsMatch, rule.payload.expectedValue, reader) == Matched
  {
  }

  lemma PassingInstanceHits(rule: Rule, sample: DdsTopicSample, document: Json, parsed: Parsed, reader: Reader,
                            indices: seq<nat>)
    returns (h: Hit)
    requires rule.payload.DdsValueRule? && Canonical(parsed) && parsed.segments != []
    requires reader.parseJson(sample.json) == Some(document)
    requires InstancePasses(rule, sample, parsed, reader, indices)
    ensures sample.error == "" && sample.topicFound && sample.hasSample
    ensures h in Hits(document, parsed.segments, parsed.lengthProjection)
    ensures Matches(h.value, rule.payload.ddsMatch, rule.payload.expectedValue, reader) == Matched
  {
    PassNeedsAValue(Readdressed(rule, InstancePath(parsed, indices)), sample, document, reader);
    InstanceStatus(document, parsed, indices);
    h := Hit(indices, Lookup(document, Instantiate(parsed.segments, indices), parsed.lengthProjection).value);
    HitIsLookup(document, parsed.segments, parsed.lengthProjection, h);
  }

  /** A rule on a path with [*] passes exactly when the same rule passes for some replacement of each
      [*] by an index. */
  lemma AnyElement(rule: Rule, sample: DdsTopicSample, parsed: Parsed, reader: Reader)
    requires rule.payload.DdsValueRule? && rule.payload.path != "" && Parse(rule.payload.path) == Success(parsed)
    requires Wildcards(parsed.segments) > 0
    requires reader.parseJson(sample.json).Some? ==> Addressable(reader.parseJson(sample.json).value)
    ensures EvaluateDdsValue(rule, Some(sample), reader).status == Pass <==>
      exists indices :: InstancePasses(rule, sample, parsed, reader, indices)
  {
    if reader.parseJson(sample.json).Some? {
      var document := reader.parseJson(sample.json).value;
      ParsedIsCanonical(rule.payload.path);
      var hits := Hits(document, parsed.segments, parsed.lengthProjection);
      if EvaluateDdsValue(rule, Some(sample), reader).status == Pass {
        var k := PassingHit(rule, sample, document, parsed, reader);
        HitInstancePasses(rule, sample, document, parsed, reader, hits[k]);
      }
      if indices :| InstancePasses(rule, sample, parsed, reader, indices) {
        var h := PassingInstanceHits(rule, sample, document, parsed, reader, indices);
        HitPasses(rule, sample, document, parsed, reader, h);
      }
    }
  }

  lemma PassingHit(rule: Rule, sample: DdsTopicSample, document: Json, parsed: Parsed, reader: Reader) returns (k: nat)
    requires rule.payload.DdsValueRule? && rule.payload.path != "" && Parse(rule.payload.path) == Success(parsed)
    requires reader.parseJson(sample.json) == Some(document)
    requires EvaluateDdsValue(rule, Some(sample), reader).status == Pass
    ensures sample.error == "" && sample.topicFound && sample.hasSample
    ensures var hits := Hits(document, parsed.segments, parsed.lengthProjection);
      k < |hits| && Matches(hits[k].value, rule.payload.ddsMatch, rule.payload.expectedValue, reader) == Matched
  {
    var hits := Hits(document, parsed.segments, parsed.lengthProjection);
    var v :| v in ValuesOf(hits) && Matches(v, rule.payload.ddsMatch, rule.payload.expectedValue, reader) == Matched;
    k :| 0 <= k < |hits| && ValuesOf(hits)[k] == v;
  }

  lemma HitPasses(rule: Rule, sample: DdsTopicSample, document: Json, parsed: Parsed, reader: Reader, h: Hit)
    requires rule.payload.DdsValueRule? && rule.payload.path != "" && Parse(rule.payload.path) == Success(parsed)
    requires reader.parseJson(sample.json) == Some(document) && sample.error == "" && sample.topicFound
    requires sample.hasSample
    requires h in Hits(document, parsed.segments, parsed.lengthProjection)
    requires Matches(h.value, rule.payload.ddsMatch, rule.payload.expectedValue, reader) == Matched
    ensures EvaluateDdsValue(rule, Some(sample), reader).status == Pass
  {
    var hits := Hits(document, parsed.segments, parsed.lengthProjection);
    var k :| 0 <= k < |hits| && hits[k] == h;
    assert ValuesOf(hits)[k] == h.value;
    assert h.value in ValuesOf(hits);
  }

  // ----- the order of elements does not matter -----

  /** d' is d with the arrays under the path's [*] permuted. */
  ghost predicate Permuted(d: Json, d': Json, segments: seq<Segment>)
    decreases |segments|
  {
    if segments == [] then d == d'
    else match segments[0]
      case AnyIndex =>
        if !d.JArray? then d == d'
        else d'.JArray? && exists order: seq<Json> ::
          && multiset(order) == multiset(d.items) && |order| == |d'.items|
          && forall i | 0 <= i < |order| :: Permuted(order[i], d'.items[i], segments[1..])
      case Field(name) =>
        if Child(d, segments[0]).None? then d == d'
        else
          && d'.JObject? && name in d'.members && d' == JObject(d.members[name := d'.members[name]])
          && Permuted(d.members[name], d'.members[name], segments[1..])
      case Index(index) =>
        if Child(d, segments[0]).None? then d == d'
        else
          && d'.JArray? && index < |d'.items| && d' == JArray(d.items[index := d'.items[index]])
          && Permuted(d.items[index], d'.items[index], segments[1..])
  }

  function ElementValues(items: seq<Json>, rest: seq<Segment>, lengthProjection: bool): seq<Json> {
    if items == [] then []
    else
      var k := |items| - 1;
      ElementValues(items[..k], rest, lengthProjection) + ValuesOf(Hits(items[k], rest, lengthProjection))
  }

  lemma {:induction false} ElementValuesAre(items: seq<Json>, rest: seq<Segment>, lengthProjection: bool)
    ensures ValuesOf(ElementHits(items, rest, lengthProjection)) == ElementValues(items, rest, lengthProjection)
  {
    if items != [] {
      var k := |items| - 1;
      ElementValuesAre(items[..k], rest, lengthProjection);
      assert items[..k + 1] == items;
      ElementStep(items, k, rest, lengthProjection);
    }
  }

  lemma {:induction false} ElementValuesJoin(a: seq<Json>, b: seq<Json>, rest: seq<Segment>, lengthProjection: bool)
    ensures ElementValues(a + b, rest, lengthProjection)
      == ElementValues(a, rest, lengthProjection) + ElementValues(b, rest, lengthProjection)
  {
    if b == [] {
      assert a + b == a;
    } else {
      var front, last := b[..|b| - 1], b[|b| - 1];
      FrontOfConcat(a, b);
      ElementValuesJoin(a, front, rest, lengthProjection);
      Regroup(ElementValues(a, rest, lengthProjection), ElementValues(front, rest, lengthProjection),
        ValuesOf(Hits(last, rest, lengthProjection)));
    }
  }

  lemma ElementValuesSplit(items: seq<Json>, k: nat, rest: seq<Segment>, lengthProjection: bool)
    requires k < |items|
    ensures multiset(ElementValues(items, rest, lengthProjection))
      == multiset(ElementValues(items[..k] + items[k + 1..], rest, lengthProjection))
         + multiset(ValuesOf(Hits(items[k], rest, lengthProjection)))
  {
    assert items == items[..k] + ([items[k]] + items[k + 1..]);
    ElementValuesJoin(items[..k], [items[k]] + items[k + 1..], rest, lengthProjection);
    ElementValuesJoin([items[k]], items[k + 1..], rest, lengthProjection);
    ElementValuesJoin(items[..k], items[k + 1..], rest, lengthProjection);
    assert [items[k]][..0] == [];
  }

  lemma WithoutOne(items: seq<Json>, order: seq<Json>, k: nat)
    requires items != [] && multiset(items) == multiset(order) && k < |order| && order[k] == items[|items| - 1]
    ensures multiset(items[..|items| - 1]) == multiset(order[..k] + order[k + 1..])
  {
    var n := |items| - 1;
    Sorting.Removed(items, n);
    Sorting.Removed(order, k);
    assert items[..n] + items[n + 1..] == items[..n];
  }

  /** Permuting the elements permutes the values. */
  lemma {:induction false} ShuffledValues(items: seq<Json>, order: seq<Json>, rest: seq<Segment>,
                                          lengthProjection: bool)
    requires multiset(items) == multiset(order)
    ensures multiset(ElementValues(items, rest, lengthProjection))
      == multiset(ElementValues(order, rest, lengthProjection))
    decreases |items|
  {
    assert |items| == |multiset(items)| == |multiset(order)| == |order|;
    if items != [] {
      var n := |items| - 1;
      assert items[n] in multiset(order);
      var k :| 0 <= k < |order| && order[k] == items[n];
      WithoutOne(items, order, k);
      ShuffledValues(items[..n], order[..k] + order[k + 1..], rest, lengthProjection);
      ElementValuesSplit(order, k, rest, lengthProjection);
      assert items[..n] + items[n + 1..] == items[..n];
      ElementValuesSplit(items, n, rest, lengthProjection);
    }
  }

  ghost predicate SameFindings(d: Json, d': Json, segments: seq<Segment>, lengthProjection: bool) {
    && multiset(ValuesOf(Hits(d, segments, lengthProjection)))
      == multiset(ValuesOf(Hits(d', segments, lengthProjection)))
    && (Breaks(d, segments, lengthProjection) <==> Breaks(d', segments, lengthProjection))
  }

  lemma {:induction false} PointwiseValues(order: seq<Json>, items: seq<Json>, rest: seq<Segment>,
                                           lengthProjection: bool)
    requires |order| == |items|
    requires forall i | 0 <= i < |order| :: SameFindings(order[i], items[i], rest, lengthProjection)
    ensures multiset(ElementValues(order, rest, lengthProjection))
      == multiset(ElementValues(items, rest, lengthProjection))
  {
    if order != [] {
      PointwiseValues(order[..|order| - 1], items[..|items| - 1], rest, lengthProjection);
    }
  }

  lemma ForkBreaks(items: seq<Json>, order: seq<Json>, items': seq<Json>, segments: seq<Segment>,
                   lengthProjection: bool)
    requires segments != [] && segments[0].AnyIndex?
    requires multiset(order) == multiset(items) && |order| == |items'|
    requires forall i | 0 <= i < |order| ::
      Breaks(order[i], segments[1..], lengthProjection) <==> Breaks(items'[i], segments[1..], lengthProjection)
    ensures Breaks(JArray(items), segments, lengthProjection) <==> Breaks(JArray(items'), segments, lengthProjection)
  {
    var rest := segments[1..];
    if Breaks(JArray(items), segments, lengthProjection) {
      var k :| 0 <= k < |items| && Breaks(items[k], rest, lengthProjection);
      assert items[k] in multiset(order);
      var i :| 0 <= i < |order| && order[i] == items[k];
      assert Breaks(items'[i], rest, lengthProjection);
    }
    if Breaks(JArray(items'), segments, lengthProjection) {
      var i :| 0 <= i < |items'| && Breaks(items'[i], rest, lengthProjection);
      assert order[i] in multiset(items);
      var k :| 0 <= k < |items| && items[k] == order[i];
      assert Breaks(items[k], rest, lengthProjection);
    }
  }

  lemma ForkFindings(items: seq<Json>, order: seq<Json>, items': seq<Json>, segments: seq<Segment>,
                     lengthProjection: bool)
    requires segments != [] && segments[0].AnyIndex?
    requires multiset(order) == multiset(items) && |order| == |items'|
    requires forall i | 0 <= i < |order| :: SameFindings(order[i], items'[i], segments[1..], lengthProjection)
    ensures SameFindings(JArray(items), JArray(items'), segments, lengthProjection)
  {
    var rest := segments[1..];
    ElementValuesAre(items, rest, lengthProjection);
    ElementValuesAre(items', rest, lengthProjection);
    ShuffledValues(items, order, rest, lengthProjection);
    PointwiseValues(order, items', rest, lengthProjection);
    ForkBreaks(items, order, items', segments, lengthProjection);
  }

  lemma {:induction false} PermutedFindings(d: Json, d': Json, segments: seq<Segment>, lengthProjection: bool)
    requires Permuted(d, d', segments)
    ensures SameFindings(d, d', segments, lengthProjection)
    decreases |segments|
  {
    if segments != [] && d != d' {
      if segments[0].AnyIndex? {
        var order :|
          && multiset(order) == multiset(d.items) && |order| == |d'.items|
          && forall i | 0 <= i < |order| :: Permuted(order[i], d'.items[i], segments[1..]);
        forall i | 0 <= i < |order|
          ensures SameFindings(order[i], d'.items[i], segments[1..], lengthProjection)
        {
          PermutedFindings(order[i], d'.items[i], segments[1..], lengthProjection);
        }
        ForkFindings(d.items, order, d'.items, segments, lengthProjection);
      } else {
        PermutedFindings(Child(d, segments[0]).value, Child(d', segments[0]).value, segments[1..], lengthProjection);
      }
    }
  }

  lemma VerdictOfMultiset(rule: Rule, values: seq<Json>, values': seq<Json>, reader: Reader)
    requires rule.payload.DdsValueRule? && multiset(values) == multiset(values')
    ensures AnyVerdict(rule, values, reader) == AnyVerdict(rule, values', reader)
  {
    assert forall v :: v in values <==> v in multiset(values);
    assert forall v :: v in values' <==> v in multiset(values');
    assert |values| == |multiset(values)| && |values'| == |multiset(values')|;
  }

  /** Permuting an array under a [*] does not change a rule's result. */
  lemma OrderIrrelevant(rule: Rule, sample: DdsTopicSample, sample': DdsTopicSample, document: Json, document': Json,
                        parsed: Parsed, reader: Reader)
    requires rule.payload.DdsValueRule? && rule.payload.path != "" && Parse(rule.payload.path) == Success(parsed)
    requires sample' == sample.(json := sample'.json)
    requires reader.parseJson(sample.json) == Some(document) && reader.parseJson(sample'.json) == Some(document')
    requires Permuted(document, document', parsed.segments)
    ensures EvaluateDdsValue(rule, Some(sample), reader) == EvaluateDdsValue(rule, Some(sample'), reader)
  {
    var hits := Hits(document, parsed.segments, parsed.lengthProjection);
    var hits' := Hits(document', parsed.segments, parsed.lengthProjection);
    PermutedFindings(document, document', parsed.segments, parsed.lengthProjection);
    assert |ValuesOf(hits)| == |multiset(ValuesOf(hits))| == |multiset(ValuesOf(hits'))| == |ValuesOf(hits')|;
    VerdictOfMultiset(rule, ValuesOf(hits), ValuesOf(hits'), reader);
  }
}
