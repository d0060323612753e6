/** What the evaluators of libs/core/src/compliance.cpp mean to whoever writes rules: how a rule relates to
    its opposite, how the match modes relate to each other, and what presence says of the whole list. */
module ComplianceLaws {
  import opened Base
  import opened Json
  import opened Rules
  import opened Compliance
  import Fleet

  // ----- a rule and its opposite -----

  function Opposite(rule: Rule): Rule {
    rule.(expectation := if rule.expectation == MustBePresent then MustBeAbsent else MustBePresent)
  }

  /** Whether the rule asks for more than presence: a version, or a service's state. */
  predicate Qualified(rule: Rule) {
    (rule.payload.ProcessRule? && rule.version.Some?) || (rule.payload.ServiceRule? && rule.payload.expectedState.Some?)
  }

  /** Adapter counts and DDS values carry their own direction; every other rule without a qualifier passes
      exactly when its opposite fails, and can be answered exactly when its opposite can. */
  lemma OppositesDisagree(rule: Rule, view: View, caps: set<Fleet.Capability>, reader: Reader)
    ensures var status := EvaluateWith(rule, view, caps, reader).status;
      var opposite := EvaluateWith(Opposite(rule), view, caps, reader).status;
      if rule.payload.AdapterCountRule? || rule.payload.DdsValueRule? then status == opposite
      else if Qualified(rule) then !(status == Pass && opposite == Pass)
      else match status
        case Pass => opposite == Fail
        case Fail => opposite == Pass
        case _ => opposite == status
  {
    var other := Opposite(rule);
    match rule.payload
    case DdsValueRule(d, t, _, _, _) =>
      var sample := view.dds(d, t);
      if sample.Some? {
        SameVerdict(rule, other, sample.value, reader);
      }
    case _ =>
  }

  lemma SameVerdict(rule: Rule, other: Rule, sample: DdsTopicSample, reader: Reader)
    requires rule.payload.DdsValueRule? && other == rule.(expectation := other.expectation)
    ensures EvaluateDdsValue(rule, Some(sample), reader) == EvaluateDdsValue(other, Some(sample), reader)
  {
  }

  // ----- presence -----

  lemma {:induction false} ProcessFound(processes: seq<ProcessInfo>, executable: string)
    ensures FindProcess(processes, executable).None? <==>
      forall p | p in processes :: !EqualsIgnoreCase(p.executable, executable)
  {
    if processes != [] {
      ProcessFound(processes[1..], executable);
      assert processes == [processes[0]] + processes[1..];
    }
  }

  lemma {:induction false} ServiceFound(services: seq<ServiceInfo>, name: string)
    ensures FindService(services, name).None? <==> forall s | s in services :: !EqualsIgnoreCase(s.name, name)
  {
    if services != [] {
      ServiceFound(services[1..], name);
      assert services == [services[0]] + services[1..];
    }
  }

  /** Forbidding a process or a service, whatever else the rule says, passes exactly when nothing in the
      list goes by that name in any case of letters. */
  lemma ForbiddenMeansNoneListed(rule: Rule, processes: seq<ProcessInfo>, services: seq<ServiceInfo>)
    requires rule.expectation == MustBeAbsent
    ensures rule.payload.ProcessRule? ==>
      (EvaluateProcess(rule, processes).status == Pass <==>
        forall p | p in processes :: !EqualsIgnoreCase(p.executable, rule.payload.executable))
    ensures rule.payload.ServiceRule? ==>
      (EvaluateService(rule, services).status == Pass <==>
        forall s | s in services :: !EqualsIgnoreCase(s.name, rule.payload.serviceName))
  {
    if rule.payload.ProcessRule? {
      ProcessFound(processes, rule.payload.executable);
    }
    if rule.payload.ServiceRule? {
      ServiceFound(services, rule.payload.serviceName);
    }
  }

  lemma {:induction false} NameCaseIrrelevant(processes: seq<ProcessInfo>, a: string, b: string)
    requires EqualsIgnoreCase(a, b)
    ensures FindProcess(processes, a) == FindProcess(processes, b)
  {
    if processes != [] {
      NameCaseIrrelevant(processes[1..], a, b);
    }
  }

  // ----- the match modes -----

  function Matching(rule: Rule, mode: RegistryMatch): Rule
    requires rule.payload.RegistryRule?
  {
    rule.(payload := rule.payload.(match_ := mode))
  }

  /** For a value that must be present, Equals is the strictest mode and Exists the weakest; for one that
      must be absent it is the other way round. */
  lemma RegistryModesNest(rule: Rule, entry: Option<RegistryValue>)
    requires rule.payload.RegistryRule?
    ensures var passes := (mode: RegistryMatch) => EvaluateRegistry(Matching(rule, mode), entry).status == Pass;
      if rule.expectation == MustBePresent
      then (passes(MatchEquals) ==> passes(MatchContains)) && (passes(MatchContains) ==> passes(MatchExists))
      else (passes(MatchExists) ==> passes(MatchContains)) && (passes(MatchContains) ==> passes(MatchEquals))
  {
    ContainsItself(rule.payload.expectedText);
  }

  lemma ContainsItself(text: string)
    ensures Contains(text, text)
  {
    assert OccursAt(text, text, 0);
  }

  function Comparing(rule: Rule, comparison: Comparison): Rule
    requires rule.payload.AdapterCountRule?
  {
    rule.(payload := rule.payload.(comparison := comparison))
  }

  /** Exactly is both bounds at once, and one of the bounds always holds. */
  lemma CountComparisonsAgree(rule: Rule, adapters: seq<NetworkAdapter>)
    requires rule.payload.AdapterCountRule?
    ensures var passes := (c: Comparison) => EvaluateAdapterCount(Comparing(rule, c), adapters).status == Pass;
      && (passes(Exactly) <==> passes(AtLeast) && passes(AtMost))
      && (passes(AtLeast) || passes(AtMost))
  {
  }

  /** Adapters are counted wherever they stand in the list. */
  lemma {:induction false} CountIsOfConnected(a: seq<NetworkAdapter>, b: seq<NetworkAdapter>)
    ensures CountUp(a + b) == CountUp(a) + CountUp(b)
    ensures CountUp(a) <= |a|
    decreases |a| + |b|
  {
    if b != [] {
      assert (a + b)[..|a + b| - 1] == a + b[..|b| - 1];
      CountIsOfConnected(a, b[..|b| - 1]);
    } else if a != [] {
      assert a + b == a;
      CountIsOfConnected(a[..|a| - 1], []);
      assert a[..|a| - 1] + [] == a[..|a| - 1];
    }
  }

  /** On numbers the three numeric modes are one order, broken only by a wanted text that reads as "nan":
      Equals is both bounds at once, one bound holds exactly when the wanted text is not that, a bound met
      stays met further along, and all three can be compared or none can. */
  lemma NumericModesAgree(x: Json, y: Json, expected: string, reader: Reader)
    requires Number(x).Some? && Number(y).Some?
    ensures var outcome := (v: Json, mode: DdsMatch) => Matches(v, mode, expected, reader);
      if reader.parseNumber(expected).None?
      then outcome(x, DdsEquals) == outcome(x, DdsAtLeast) == outcome(x, DdsAtMost) == Incomparable
      else
        && (outcome(x, DdsEquals) == Matched <==> outcome(x, DdsAtLeast) == Matched && outcome(x, DdsAtMost) == Matched)
        && (outcome(x, DdsAtLeast) == Matched || outcome(x, DdsAtMost) == Matched <==>
              reader.parseNumber(expected).value != NotANumber)
        && outcome(x, DdsEquals) != Incomparable && outcome(x, DdsAtLeast) != Incomparable
        && outcome(x, DdsAtMost) != Incomparable
        && (Number(x).value <= Number(y).value ==>
              && (outcome(x, DdsAtLeast) == Matched ==> outcome(y, DdsAtLeast) == Matched)
              && (outcome(y, DdsAtMost) == Matched ==> outcome(x, DdsAtMost) == Matched))
  {
  }

  /** A value equal to the wanted text also contains it. */
  lemma TextModesNest(value: Json, expected: string, reader: Reader)
    requires Number(value).None? && Matches(value, DdsEquals, expected, reader) == Matched
    ensures Matches(value, DdsContains, expected, reader) == Matched
  {
    ContainsItself(expected);
  }
}
