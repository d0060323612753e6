/** Gathering the facts a host's rules need, and only those (libs/platform/src/host_probes.cpp). A probe
    is a function: within one collection it answers alike each time. */
module HostProbes {
  import opened Base
  import opened Text
  import opened Json
  import opened Rules
  import opened RuleIds
  import opened Compliance
  import Fleet

  /** None: the platform has no such probe. */
  datatype ProbeSet = ProbeSet(
    resources: Option<ResourceSample>,
    processes: Option<seq<ProcessInfo>>,
    services: Option<seq<ServiceInfo>>,
    registry: Option<Location -> RegistryValue>,
    network: Option<seq<NetworkAdapter>>,
    dds: Option<(uint32, string) -> DdsTopicSample>)

  const NO_RESOURCES := ResourceSample(0.0, 0, 0, [], [])

  function Serves(probes: ProbeSet, c: Fleet.Capability): bool {
    match c
    case Resources => probes.resources.Some?
    case Processes => probes.processes.Some?
    case Services => probes.services.Some?
    case Registry => probes.registry.Some?
    case Network => probes.network.Some?
    case Dds => probes.dds.Some?
    case Scripts => true
    case Elevated => true
  }

  /** A missing probe never advertises its capability; scripts and elevation are no probe's to serve. */
  method Intersect(declared: set<Fleet.Capability>, probes: ProbeSet) returns (caps: set<Fleet.Capability>)
    ensures forall c :: c in caps <==> c in declared && Serves(probes, c)
  {
    caps := {};
    caps := Keep(caps, declared, probes, Fleet.Resources, probes.resources.Some?);
    caps := Keep(caps, declared, probes, Fleet.Processes, probes.processes.Some?);
    caps := Keep(caps, declared, probes, Fleet.Services, probes.services.Some?);
    caps := Keep(caps, declared, probes, Fleet.Registry, probes.registry.Some?);
    caps := Keep(caps, declared, probes, Fleet.Network, probes.network.Some?);
    caps := Keep(caps, declared, probes, Fleet.Dds, probes.dds.Some?);
    caps := Keep(caps, declared, probes, Fleet.Scripts, true);
    caps := Keep(caps, declared, probes, Fleet.Elevated, true);
  }

  method Keep(before: set<Fleet.Capability>, declared: set<Fleet.Capability>, probes: ProbeSet, c: Fleet.Capability,
              served: bool)
    returns (caps: set<Fleet.Capability>)
    requires served == Serves(probes, c)
    ensures forall x :: x in caps <==> x in before || (x == c && x in declared && Serves(probes, x))
  {
    caps := before;
    if served && c in declared {
      caps := caps + {c};
    }
  }

  /** Capabilities that the probes behind them can serve. */
  ghost predicate Served(caps: set<Fleet.Capability>, probes: ProbeSet) {
    forall c | c in caps :: Serves(probes, c)
  }

  // ----- what the rules need -----

  function AnyOfKind(rules: seq<Rule>, kind: RuleKind): bool {
    exists i | 0 <= i < |rules| :: KindOf(rules[i]) == kind
  }

  function AddValue(values: seq<Location>, at: Location): seq<Location> {
    if exists i | 0 <= i < |values| :: RegistryKey(values[i]) == RegistryKey(at) then values else values + [at]
  }

  /** The registry values to read: for each key, the location of the first rule that has it. */
  function WantedValues(rules: seq<Rule>): seq<Location> {
    if rules == [] then []
    else
      var front, payload := WantedValues(rules[..|rules| - 1]), rules[|rules| - 1].payload;
      if payload.RegistryRule? then AddValue(front, LocationOf(payload)) else front
  }

  function TopicOf(payload: Payload): (uint32, string)
    requires payload.DdsTopicRule? || payload.DdsValueRule?
  {
    (payload.domainId, payload.topicName)
  }

  function KeyOf(topic: (uint32, string)): string {
    DdsKey(topic.0, topic.1)
  }

  /** The topics are kept in a map, which goes through them in the order of their keys. */
  function InsertByKey(topics: seq<(uint32, string)>, topic: (uint32, string)): (r: seq<(uint32, string)>)
    ensures forall t :: t in r <==> t in topics || t == topic
  {
    if topics == [] then [topic]
    else if Less(KeyOf(topic), KeyOf(topics[0])) then [topic] + topics
    else
      var rest := InsertByKey(topics[1..], topic);
      assert topics == [topics[0]] + topics[1..];
      [topics[0]] + rest
  }

  function AddTopic(topics: seq<(uint32, string)>, topic: (uint32, string)): seq<(uint32, string)> {
    if topic in topics then topics else InsertByKey(topics, topic)
  }

  /** The topics to look at, in that order. */
  function WantedTopics(rules: seq<Rule>): seq<(uint32, string)> {
    if rules == [] then []
    else
      var front, payload := WantedTopics(rules[..|rules| - 1]), rules[|rules| - 1].payload;
      if payload.DdsTopicRule? || payload.DdsValueRule? then AddTopic(front, TopicOf(payload)) else front
  }

  function ReadValues(wanted: seq<Location>, read: Location -> RegistryValue): map<string, RegistryValue> {
    if wanted == [] then map[]
    else
      var front, at := ReadValues(wanted[..|wanted| - 1], read), wanted[|wanted| - 1];
      if RegistryKey(at) in front then front else front[RegistryKey(at) := read(at)]
  }

  function ReadTopics(wanted: seq<(uint32, string)>,
                      look: (uint32, string) -> DdsTopicSample): map<string, DdsTopicSample> {
    if wanted == [] then map[]
    else
      var front, at := ReadTopics(wanted[..|wanted| - 1], look), wanted[|wanted| - 1];
      front[DdsKey(at.0, at.1) := look(at.0, at.1)]
  }

  function SampleOf(probes: ProbeSet, caps: set<Fleet.Capability>): ResourceSample
    requires Served(caps, probes)
  {
    var sample := if probes.resources.Some? then probes.resources.value else NO_RESOURCES;
    if Fleet.Network in caps then sample.(adapters := probes.network.value) else sample
  }

  function Collected(hostId: HostId, rules: seq<Rule>, probes: ProbeSet, caps: set<Fleet.Capability>): HostFacts
    requires Served(caps, probes)
  {
    HostFacts(
      hostId,
      SampleOf(probes, caps),
      if AnyOfKind(rules, ProcessKind) && Fleet.Processes in caps then probes.processes.value else [],
      if AnyOfKind(rules, ServiceKind) && Fleet.Services in caps then probes.services.value else [],
      if Fleet.Registry in caps then ReadValues(WantedValues(rules), probes.registry.value) else map[],
      if Fleet.Dds in caps then ReadTopics(WantedTopics(rules), probes.dds.value) else map[])
  }

  class Probes {
    const hostId: HostId
    const probes: ProbeSet
    const caps: set<Fleet.Capability>
    /** Every read of a registry value and every look at a topic, in order. */
    var registryReads: seq<Location>
    var topicLooks: seq<(uint32, string)>

    ghost predicate Valid() {
      Served(caps, probes)
    }

    constructor (hostId: HostId, probes: ProbeSet, declared: set<Fleet.Capability>)
      ensures Valid() && this.hostId == hostId && this.probes == probes
      ensures forall c :: c in caps <==> c in declared && Serves(probes, c)
      ensures registryReads == [] && topicLooks == []
    {
      this.hostId, this.probes := hostId, probes;
      var served := Intersect(declared, probes);
      caps := served;
      registryReads, topicLooks := [], [];
    }

    /** Which values and topics the rules name, each once, and which lists they need. */
    method Scan(rules: seq<Rule>)
      returns (needsProcesses: bool, needsServices: bool, values: seq<Location>, topics: seq<(uint32, string)>)
      ensures needsProcesses == AnyOfKind(rules, ProcessKind) && needsServices == AnyOfKind(rules, ServiceKind)
      ensures values == WantedValues(rules) && topics == WantedTopics(rules)
    {
      needsProcesses, needsServices, values, topics := false, false, [], [];
      var keys: set<string> := {};
      for i := 0 to |rules|
        invariant needsProcesses == AnyOfKind(rules[..i], ProcessKind)
        invariant needsServices == AnyOfKind(rules[..i], ServiceKind)
        invariant values == WantedValues(rules[..i]) && topics == WantedTopics(rules[..i])
        invariant KeysOf(values, keys)
      {
        AnyOfKindStep(rules, i, ProcessKind);
        AnyOfKindStep(rules, i, ServiceKind);
        WantedStep(rules, i);
        match rules[i].payload {
          case ProcessRule(_) => needsProcesses := true;
          case ServiceRule(_, _) => needsServices := true;
          case RegistryRule(_, _, _, _, _) => values, keys := WantValue(values, keys, LocationOf(rules[i].payload));
          case AdapterCountRule(_, _) =>
          case AdapterStateRule(_, _) =>
          case DdsTopicRule(d, t) => topics := WantTopic(topics, d, t);
          case DdsValueRule(d, t, _, _, _) => topics := WantTopic(topics, d, t);
        }
      }
      assert rules[..|rules|] == rules;
    }

    static method WantValue(values: seq<Location>, keys: set<string>, at: Location)
      returns (values': seq<Location>, keys': set<string>)
      requires KeysOf(values, keys)
      ensures values' == AddValue(values, at) && KeysOf(values', keys')
    {
      values', keys' := values, keys;
      if RegistryKey(at) !in keys {
        KeysGrow(values, keys, at);
        keys' := keys + {RegistryKey(at)};
        values' := values + [at];
      }
    }

    static method WantTopic(topics: seq<(uint32, string)>, domainId: uint32, topicName: string)
      returns (topics': seq<(uint32, string)>)
      ensures topics' == AddTopic(topics, (domainId, topicName))
    {
      topics' := topics;
      if (domainId, topicName) !in topics {
        topics' := InsertByKey(topics, (domainId, topicName));
      }
    }

    method ReadRegistry(values: seq<Location>) returns (registry: map<string, RegistryValue>)
      requires Valid() && Fleet.Registry in caps
      modifies this`registryReads
      ensures registry == ReadValues(values, probes.registry.value)
      ensures registryReads == old(registryReads) + values
    {
      registry := map[];
      for i := 0 to |values|
        invariant registry == ReadValues(values[..i], probes.registry.value)
        invariant registryReads == old(registryReads) + values[..i]
      {
        assert values[..i + 1][..i] == values[..i];
        registryReads := registryReads + [values[i]];
        if RegistryKey(values[i]) !in registry {
          registry := registry[RegistryKey(values[i]) := probes.registry.value(values[i])];
        }
      }
      assert values[..|values|] == values;
    }

    method LookAtTopics(topics: seq<(uint32, string)>) returns (dds: map<string, DdsTopicSample>)
      requires Valid() && Fleet.Dds in caps
      modifies this`topicLooks
      ensures dds == ReadTopics(topics, probes.dds.value)
      ensures topicLooks == old(topicLooks) + topics
    {
      dds := map[];
      for i := 0 to |topics|
        invariant dds == ReadTopics(topics[..i], probes.dds.value)
        invariant topicLooks == old(topicLooks) + topics[..i]
      {
        assert topics[..i + 1][..i] == topics[..i];
        topicLooks := topicLooks + [topics[i]];
        dds := dds[DdsKey(topics[i].0, topics[i].1) := probes.dds.value(topics[i].0, topics[i].1)];
      }
      assert topics[..|topics|] == topics;
    }

    method Collect(bundle: TemplateBundle) returns (facts: HostFacts)
      requires Valid()
      modifies this
      ensures facts == Collected(hostId, RulesFor(bundle, hostId), probes, caps)
      ensures registryReads == old(registryReads) +
        if Fleet.Registry in caps then WantedValues(RulesFor(bundle, hostId)) else []
      ensures topicLooks == old(topicLooks) + if Fleet.Dds in caps then WantedTopics(RulesFor(bundle, hostId)) else []
    {
      var resources := if probes.resources.Some? then probes.resources.value else NO_RESOURCES;
      if Fleet.Network in caps {
        resources := resources.(adapters := probes.network.value);
      }
      var rules := CollectRules(bundle, hostId);
      var needsProcesses, needsServices, values, topics := Scan(rules);
      facts := HostFacts(hostId, resources, [], [], map[], map[]);
      if needsProcesses && Fleet.Processes in caps {
        facts := facts.(processes := probes.processes.value);
      }
      if needsServices && Fleet.Services in caps {
        facts := facts.(services := probes.services.value);
      }
      if Fleet.Registry in caps {
        var registry := ReadRegistry(values);
        facts := facts.(registry := registry);
      }
      if Fleet.Dds in caps {
        var dds := LookAtTopics(topics);
        facts := facts.(dds := dds);
      }
    }
  }

  lemma AnyOfKindStep(rules: seq<Rule>, i: nat, kind: RuleKind)
    requires i < |rules|
    ensures AnyOfKind(rules[..i + 1], kind) <==> AnyOfKind(rules[..i], kind) || KindOf(rules[i]) == kind
  {
    if AnyOfKind(rules[..i], kind) {
      var j :| 0 <= j < i && KindOf(rules[..i][j]) == kind;
      assert rules[..i + 1][j] == rules[..i][j];
    }
    if AnyOfKind(rules[..i + 1], kind) {
      var j :| 0 <= j < i + 1 && KindOf(rules[..i + 1][j]) == kind;
      assert j < i ==> rules[..i][j] == rules[..i + 1][j];
    }
    assert rules[..i + 1][i] == rules[i];
  }

  lemma WantedStep(rules: seq<Rule>, i: nat)
    requires i < |rules|
    ensures var values, payload := WantedValues(rules[..i]), rules[i].payload;
      WantedValues(rules[..i + 1]) == if payload.RegistryRule? then AddValue(values, LocationOf(payload)) else values
    ensures var topics, payload := WantedTopics(rules[..i]), rules[i].payload;
      WantedTopics(rules[..i + 1]) ==
        if payload.DdsTopicRule? || payload.DdsValueRule? then AddTopic(topics, TopicOf(payload)) else topics
  {
    assert rules[..i + 1][..i] == rules[..i];
  }

  ghost predicate KeysOf(values: seq<Location>, keys: set<string>) {
    forall key :: key in keys <==> exists j | 0 <= j < |values| :: RegistryKey(values[j]) == key
  }

  lemma KeysGrow(values: seq<Location>, keys: set<string>, at: Location)
    requires KeysOf(values, keys)
    ensures KeysOf(values + [at], keys + {RegistryKey(at)})
  {
    assert (values + [at])[|values|] == at;
    forall key | key in keys
      ensures exists j | 0 <= j < |values + [at]| :: RegistryKey((values + [at])[j]) == key
    {
      var j :| 0 <= j < |values| && RegistryKey(values[j]) == key;
      assert (values + [at])[j] == values[j];
    }
  }

  // ----- each value and each topic is read at most once -----

  ghost predicate InKeyOrder(topics: seq<(uint32, string)>) {
    forall i, j | 0 <= i < j < |topics| :: Less(KeyOf(topics[i]), KeyOf(topics[j]))
  }

  lemma {:induction false} InsertKeepsOrder(topics: seq<(uint32, string)>, topic: (uint32, string))
    requires InKeyOrder(topics) && topic !in topics
    ensures InKeyOrder(InsertByKey(topics, topic))
  {
    if topics != [] {
      if Less(KeyOf(topic), KeyOf(topics[0])) {
        forall j | 0 <= j < |topics|
          ensures Less(KeyOf(topic), KeyOf(topics[j]))
        {
          if j > 0 {
            LessTransitive(KeyOf(topic), KeyOf(topics[0]), KeyOf(topics[j]));
          }
        }
      } else {
        InsertKeepsOrder(topics[1..], topic);
        HeadStaysFirst(topics, topic);
      }
    }
  }

  lemma HeadStaysFirst(topics: seq<(uint32, string)>, topic: (uint32, string))
    requires InKeyOrder(topics) && topics != [] && topic !in topics && !Less(KeyOf(topic), KeyOf(topics[0]))
    ensures forall t | t in InsertByKey(topics[1..], topic) :: Less(KeyOf(topics[0]), KeyOf(t))
  {
    LessTotal(KeyOf(topic), KeyOf(topics[0]));
    if KeyOf(topic) == KeyOf(topics[0]) {
      DdsKeyInjective(topic.0, topic.1, topics[0].0, topics[0].1);
    }
    forall t | t in topics[1..]
      ensures Less(KeyOf(topics[0]), KeyOf(t))
    {
      var j :| 0 <= j < |topics[1..]| && topics[1..][j] == t;
      assert topics[j + 1] == t;
    }
  }

  lemma {:induction false} TopicsInKeyOrder(rules: seq<Rule>)
    ensures InKeyOrder(WantedTopics(rules))
  {
    if rules != [] {
      var front, payload := rules[..|rules| - 1], rules[|rules| - 1].payload;
      TopicsInKeyOrder(front);
      if (payload.DdsTopicRule? || payload.DdsValueRule?) && TopicOf(payload) !in WantedTopics(front) {
        InsertKeepsOrder(WantedTopics(front), TopicOf(payload));
      }
    }
  }

  /** No registry key is read twice, and none that no rule names. */
  lemma {:induction false} ValuesReadOnce(rules: seq<Rule>)
    ensures forall i, j | 0 <= i < j < |WantedValues(rules)| ::
      RegistryKey(WantedValues(rules)[i]) != RegistryKey(WantedValues(rules)[j])
    ensures forall at | at in WantedValues(rules) ::
      exists rule | rule in rules :: rule.payload.RegistryRule? && LocationOf(rule.payload) == at
  {
    if rules != [] {
      ValuesReadOnce(rules[..|rules| - 1]);
      var last := rules[|rules| - 1];
      assert last in rules && forall rule | rule in rules[..|rules| - 1] :: rule in rules;
    }
  }

  lemma {:induction false} TopicsNamed(rules: seq<Rule>)
    ensures forall topic | topic in WantedTopics(rules) ::
      exists rule | rule in rules ::
        (rule.payload.DdsTopicRule? || rule.payload.DdsValueRule?) && TopicOf(rule.payload) == topic
  {
    if rules != [] {
      TopicsNamed(rules[..|rules| - 1]);
      var last := rules[|rules| - 1];
      assert last in rules && forall rule | rule in rules[..|rules| - 1] :: rule in rules;
    }
  }

  /** No registry key and no topic is read twice, topics are looked at in the order of their keys, and
      nothing is read that no rule names. */
  lemma ReadOnce(rules: seq<Rule>)
    ensures forall i, j | 0 <= i < j < |WantedValues(rules)| ::
      RegistryKey(WantedValues(rules)[i]) != RegistryKey(WantedValues(rules)[j])
    ensures forall at | at in WantedValues(rules) ::
      exists rule | rule in rules :: rule.payload.RegistryRule? && LocationOf(rule.payload) == at
    ensures forall i, j | 0 <= i < j < |WantedTopics(rules)| ::
      WantedTopics(rules)[i] != WantedTopics(rules)[j]
        && Less(KeyOf(WantedTopics(rules)[i]), KeyOf(WantedTopics(rules)[j]))
    ensures forall topic | topic in WantedTopics(rules) ::
      exists rule | rule in rules ::
        (rule.payload.DdsTopicRule? || rule.payload.DdsValueRule?) && TopicOf(rule.payload) == topic
  {
    ValuesReadOnce(rules);
    TopicsNamed(rules);
    TopicsInKeyOrder(rules);
    var topics := WantedTopics(rules);
    forall i, j | 0 <= i < j < |topics|
      ensures topics[i] != topics[j]
    {
      LessAsymmetric(KeyOf(topics[i]), KeyOf(topics[j]));
    }
  }

  // ----- lazy and eager agree -----

  /** Reading the host itself, whatever the rules need. */
  ghost function Eager(probes: ProbeSet, caps: set<Fleet.Capability>): View
    requires Served(caps, probes)
  {
    View(
      if Fleet.Processes in caps then probes.processes.value else [],
      if Fleet.Services in caps then probes.services.value else [],
      SampleOf(probes, caps).adapters,
      (at: Location) => if probes.registry.Some? then Some(probes.registry.value(at)) else None,
      (d: uint32, t: string) => if probes.dds.Some? then Some(probes.dds.value(d, t)) else None)
  }

  /** No two registry rules share a key but not a location. */
  ghost predicate KeysSeparate(rules: seq<Rule>) {
    forall a, b | a in rules && b in rules && a.payload.RegistryRule? && b.payload.RegistryRule? ::
      RegistryKey(LocationOf(a.payload)) == RegistryKey(LocationOf(b.payload)) ==>
        LocationOf(a.payload) == LocationOf(b.payload)
  }

  lemma BackslashFreeNamesSeparate(rules: seq<Rule>)
    requires forall rule | rule in rules && rule.payload.RegistryRule? :: NoBackslash(rule.payload.valueName)
    ensures KeysSeparate(rules)
  {
    forall a, b | a in rules && b in rules && a.payload.RegistryRule? && b.payload.RegistryRule?
      && RegistryKey(LocationOf(a.payload)) == RegistryKey(LocationOf(b.payload))
      ensures LocationOf(a.payload) == LocationOf(b.payload)
    {
      RegistryKeyInjective(LocationOf(a.payload), LocationOf(b.payload));
    }
  }

  lemma {:induction false} WantedCovers(rules: seq<Rule>, rule: Rule)
    requires rule in rules && rule.payload.RegistryRule?
    ensures exists at | at in WantedValues(rules) :: RegistryKey(at) == RegistryKey(LocationOf(rule.payload))
  {
    var front, last := rules[..|rules| - 1], rules[|rules| - 1];
    assert rules == front + [last];
    if rule in front {
      WantedCovers(front, rule);
      var at :| at in WantedValues(front) && RegistryKey(at) == RegistryKey(LocationOf(rule.payload));
      assert at in WantedValues(rules);
    } else {
      var at := LocationOf(last.payload);
      if i :| 0 <= i < |WantedValues(front)| && RegistryKey(WantedValues(front)[i]) == RegistryKey(at) {
        assert WantedValues(front)[i] in WantedValues(rules);
      } else {
        assert at in WantedValues(rules);
      }
    }
  }

  lemma {:induction false} ReadValuesAt(wanted: seq<Location>, read: Location -> RegistryValue, at: Location)
    requires at in wanted
    requires forall i, j | 0 <= i < j < |wanted| :: RegistryKey(wanted[i]) != RegistryKey(wanted[j])
    ensures RegistryKey(at) in ReadValues(wanted, read) && ReadValues(wanted, read)[RegistryKey(at)] == read(at)
  {
    var front, last := wanted[..|wanted| - 1], wanted[|wanted| - 1];
    assert wanted == front + [last];
    assert forall i | 0 <= i < |front| :: front[i] == wanted[i];
    NewKey(front, read, last);
    if at in front {
      ReadValuesAt(front, read, at);
    }
  }

  lemma NewKey(front: seq<Location>, read: Location -> RegistryValue, last: Location)
    requires forall i | 0 <= i < |front| :: RegistryKey(front[i]) != RegistryKey(last)
    ensures RegistryKey(last) !in ReadValues(front, read)
  {
    OnlyWantedRead(front, read);
  }

  lemma {:induction false} OnlyWantedRead(wanted: seq<Location>, read: Location -> RegistryValue)
    ensures forall key | key in ReadValues(wanted, read) ::
      exists i | 0 <= i < |wanted| :: RegistryKey(wanted[i]) == key
  {
    if wanted != [] {
      var front := wanted[..|wanted| - 1];
      OnlyWantedRead(front, read);
      forall key | key in ReadValues(wanted, read)
        ensures exists i | 0 <= i < |wanted| :: RegistryKey(wanted[i]) == key
      {
        if key in ReadValues(front, read) {
          var i :| 0 <= i < |front| && RegistryKey(front[i]) == key;
          assert RegistryKey(wanted[i]) == key;
        } else {
          assert RegistryKey(wanted[|wanted| - 1]) == key;
        }
      }
    }
  }

  lemma {:induction false} TopicsCover(rules: seq<Rule>, rule: Rule)
    requires rule in rules && (rule.payload.DdsTopicRule? || rule.payload.DdsValueRule?)
    ensures TopicOf(rule.payload) in WantedTopics(rules)
  {
    var front, last := rules[..|rules| - 1], rules[|rules| - 1];
    assert rules == front + [last];
    if rule in front {
      TopicsCover(front, rule);
    }
  }

  lemma {:induction false} ReadTopicsAt(wanted: seq<(uint32, string)>, look: (uint32, string) -> DdsTopicSample,
                                        at: (uint32, string))
    requires at in wanted
    ensures DdsKey(at.0, at.1) in ReadTopics(wanted, look)
    ensures ReadTopics(wanted, look)[DdsKey(at.0, at.1)] == look(at.0, at.1)
  {
    var front, last := wanted[..|wanted| - 1], wanted[|wanted| - 1];
    assert wanted == front + [last];
    if DdsKey(at.0, at.1) == DdsKey(last.0, last.1) {
      DdsKeyInjective(at.0, at.1, last.0, last.1);
    } else {
      ReadTopicsAt(front, look, at);
    }
  }

  /** A registry rule's key is read, at a location with that key. */
  lemma RegistryFound(hostId: HostId, rules: seq<Rule>, probes: ProbeSet, caps: set<Fleet.Capability>, rule: Rule)
    returns (at: Location)
    requires Served(caps, probes) && Fleet.Registry in caps && rule in rules && rule.payload.RegistryRule?
    ensures at in WantedValues(rules) && RegistryKey(at) == RegistryKey(LocationOf(rule.payload))
    ensures LookupRegistry(Collected(hostId, rules, probes, caps))(LocationOf(rule.payload))
      == Some(probes.registry.value(at))
  {
    WantedCovers(rules, rule);
    at :| at in WantedValues(rules) && RegistryKey(at) == RegistryKey(LocationOf(rule.payload));
    ValuesReadOnce(rules);
    ReadValuesAt(WantedValues(rules), probes.registry.value, at);
  }

  lemma RegistryAgrees(hostId: HostId, rules: seq<Rule>, probes: ProbeSet, caps: set<Fleet.Capability>, rule: Rule)
    requires Served(caps, probes) && KeysSeparate(rules) && Fleet.Registry in caps && rule in rules
    requires rule.payload.RegistryRule?
    ensures LookupRegistry(Collected(hostId, rules, probes, caps))(LocationOf(rule.payload))
      == Some(probes.registry.value(LocationOf(rule.payload)))
  {
    var at := RegistryFound(hostId, rules, probes, caps, rule);
    ValuesReadOnce(rules);
    var source :| source in rules && source.payload.RegistryRule? && LocationOf(source.payload) == at;
  }

  lemma DdsAgrees(hostId: HostId, rules: seq<Rule>, probes: ProbeSet, caps: set<Fleet.Capability>, rule: Rule)
    requires Served(caps, probes) && Fleet.Dds in caps && rule in rules
    requires rule.payload.DdsTopicRule? || rule.payload.DdsValueRule?
    ensures LookupDds(Collected(hostId, rules, probes, caps))(rule.payload.domainId, rule.payload.topicName)
      == Some(probes.dds.value(rule.payload.domainId, rule.payload.topicName))
  {
    TopicsCover(rules, rule);
    ReadTopicsAt(WantedTopics(rules), probes.dds.value, TopicOf(rule.payload));
  }

  lemma ListAgrees(hostId: HostId, rules: seq<Rule>, probes: ProbeSet, caps: set<Fleet.Capability>, rule: Rule)
    requires Served(caps, probes) && rule in rules && RequiredCapability(KindOf(rule)) in caps
    ensures KindOf(rule) == ProcessKind ==>
      Collected(hostId, rules, probes, caps).processes == Eager(probes, caps).processes
    ensures KindOf(rule) == ServiceKind ==>
      Collected(hostId, rules, probes, caps).services == Eager(probes, caps).services
  {
    var k :| 0 <= k < |rules| && rules[k] == rule;
    assert AnyOfKind(rules, KindOf(rule));
  }

  lemma RuleAgrees(hostId: HostId, rules: seq<Rule>, probes: ProbeSet, caps: set<Fleet.Capability>, reader: Reader,
                   rule: Rule)
    requires Served(caps, probes) && (Fleet.Registry in caps ==> KeysSeparate(rules)) && rule in rules
    ensures EvaluateWith(rule, FactsView(Collected(hostId, rules, probes, caps)), caps, reader)
      == EvaluateWith(rule, Eager(probes, caps), caps, reader)
    ensures EvaluateWith(rule, Eager(probes, caps), caps, reader).probed
  {
    if RequiredCapability(KindOf(rule)) in caps {
      match rule.payload {
        case RegistryRule(_, _, _, _, _) => RegistryAgrees(hostId, rules, probes, caps, rule);
        case DdsTopicRule(_, _) => DdsAgrees(hostId, rules, probes, caps, rule);
        case DdsValueRule(_, _, _, _, _) => DdsAgrees(hostId, rules, probes, caps, rule);
        case _ => ListAgrees(hostId, rules, probes, caps, rule);
      }
    }
  }

  /** Unless the host reads the registry and two of its registry rules share a key but not a location,
      evaluating what was gathered gives the same report as evaluating the host itself, and no result says
      "not probed". */
  lemma LazyIsEager(hostId: HostId, rules: seq<Rule>, probes: ProbeSet, caps: set<Fleet.Capability>, reader: Reader)
    requires Served(caps, probes) && (Fleet.Registry in caps ==> KeysSeparate(rules))
    ensures Report(rules, FactsView(Collected(hostId, rules, probes, caps)), caps, reader)
      == Report(rules, Eager(probes, caps), caps, reader)
    ensures forall r | r in Report(rules, FactsView(Collected(hostId, rules, probes, caps)), caps, reader) :: r.probed
  {
    forall i | 0 <= i < |rules|
      ensures EvaluateWith(rules[i], FactsView(Collected(hostId, rules, probes, caps)), caps, reader)
        == EvaluateWith(rules[i], Eager(probes, caps), caps, reader)
      ensures EvaluateWith(rules[i], Eager(probes, caps), caps, reader).probed
    {
      RuleAgrees(hostId, rules, probes, caps, reader, rules[i]);
    }
  }

  lemma OneWantedPerKey(rules: seq<Rule>, a: Location, b: Location)
    requires a in WantedValues(rules) && b in WantedValues(rules) && RegistryKey(a) == RegistryKey(b)
    ensures a == b
  {
    ReadOnce(rules);
    var i :| 0 <= i < |WantedValues(rules)| && WantedValues(rules)[i] == a;
    var j :| 0 <= j < |WantedValues(rules)| && WantedValues(rules)[j] == b;
    assert i == j;
  }

  /** A rule whose key is held first by another location. */
  lemma ShadowedRule(hostId: HostId, rules: seq<Rule>, probes: ProbeSet, caps: set<Fleet.Capability>)
    returns (rule: Rule, first: Location)
    requires Served(caps, probes) && Fleet.Registry in caps && !KeysSeparate(rules)
    ensures rule in rules && rule.payload.RegistryRule? && first in WantedValues(rules)
    ensures RegistryKey(first) == RegistryKey(LocationOf(rule.payload)) && first != LocationOf(rule.payload)
  {
    var a, b :| a in rules && b in rules && a.payload.RegistryRule? && b.payload.RegistryRule?
      && RegistryKey(LocationOf(a.payload)) == RegistryKey(LocationOf(b.payload))
      && LocationOf(a.payload) != LocationOf(b.payload);
    first := RegistryFound(hostId, rules, probes, caps, a);
    rule := if LocationOf(a.payload) == first then b else a;
  }

  lemma ShadowedRuleDiffers(hostId: HostId, rules: seq<Rule>, probes: ProbeSet, caps: set<Fleet.Capability>,
                            reader: Reader, rule: Rule, first: Location)
    requires Served(caps, probes) && Fleet.Registry in caps && rule in rules && rule.payload.RegistryRule?
    requires first in WantedValues(rules) && RegistryKey(first) == RegistryKey(LocationOf(rule.payload))
    requires probes.registry.value(first) == RegistryValue(true, "", "")
    requires probes.registry.value(LocationOf(rule.payload)) == RegistryValue(false, "", "denied")
    ensures EvaluateWith(rule, FactsView(Collected(hostId, rules, probes, caps)), caps, reader).status != Error
    ensures EvaluateWith(rule, Eager(probes, caps), caps, reader).status == Error
  {
    var at := RegistryFound(hostId, rules, probes, caps, rule);
    OneWantedPerKey(rules, at, first);
  }

  /** The condition is needed: when two registry rules share a key but not a location there is a registry
      for which the two reports differ. */
  lemma LazyDiffersOtherwise(hostId: HostId, rules: seq<Rule>, probes: ProbeSet, caps: set<Fleet.Capability>,
                             reader: Reader)
    returns (probes': ProbeSet)
    requires Served(caps, probes) && Fleet.Registry in caps && !KeysSeparate(rules)
    ensures Served(caps, probes') && probes' == probes.(registry := probes'.registry)
    ensures Report(rules, FactsView(Collected(hostId, rules, probes', caps)), caps, reader)
      != Report(rules, Eager(probes', caps), caps, reader)
  {
    var rule, first := ShadowedRule(hostId, rules, probes, caps);
    probes' := probes.(registry := Some((at: Location) =>
      if at == first then RegistryValue(true, "", "") else RegistryValue(false, "", "denied")));
    ShadowedRuleDiffers(hostId, rules, probes', caps, reader, rule, first);
    var k :| 0 <= k < |rules| && rules[k] == rule;
    assert Report(rules, FactsView(Collected(hostId, rules, probes', caps)), caps, reader)[k]
      != Report(rules, Eager(probes', caps), caps, reader)[k];
  }
}
