/** Template bundles as JSON trees, and the hash of a bundle's content (libs/core/src/json.cpp). Dumping
    a tree to bytes is a function passed in. */
module BundleCodec {
  import opened Base
  import opened Json
  import opened Versions
  import opened Rules

  // ----- names on the wire -----

  function PresenceName(p: Presence): string {
    if p == MustBePresent then "MustBePresent" else "MustBeAbsent"
  }

  function PresenceFrom(text: string): Result<Presence, ReadError> {
    if text == "MustBePresent" then Success(MustBePresent)
    else if text == "MustBeAbsent" then Success(MustBeAbsent)
    else Failure(UnknownName)
  }

  function ServiceStateName(s: ServiceState): string {
    match s
    case Running => "Running"
    case Stopped => "Stopped"
    case StateUnknown => "Unknown"
  }

  function ServiceStateFrom(text: string): Result<ServiceState, ReadError> {
    if text == "Running" then Success(Running)
    else if text == "Stopped" then Success(Stopped)
    else if text == "Unknown" then Success(StateUnknown)
    else Failure(UnknownName)
  }

  function HiveFrom(text: string): Result<RegistryHive, ReadError> {
    if text == "HKLM" then Success(LocalMachine)
    else if text == "HKCU" then Success(CurrentUser)
    else if text == "HKCR" then Success(ClassesRoot)
    else if text == "HKU" then Success(Users)
    else Failure(UnknownName)
  }

  function RegistryMatchName(m: RegistryMatch): string {
    match m
    case MatchExists => "Exists"
    case MatchEquals => "Equals"
    case MatchContains => "Contains"
  }

  function RegistryMatchFrom(text: string): Result<RegistryMatch, ReadError> {
    if text == "Exists" then Success(MatchExists)
    else if text == "Equals" then Success(MatchEquals)
    else if text == "Contains" then Success(MatchContains)
    else Failure(UnknownName)
  }

  function ComparisonName(c: Comparison): string {
    match c
    case AtLeast => "AtLeast"
    case Exactly => "Exactly"
    case AtMost => "AtMost"
  }

  function ComparisonFrom(text: string): Result<Comparison, ReadError> {
    if text == "AtLeast" then Success(AtLeast)
    else if text == "Exactly" then Success(Exactly)
    else if text == "AtMost" then Success(AtMost)
    else Failure(UnknownName)
  }

  function LinkName(l: LinkState): string {
    match l
    case LinkUnknown => "Unknown"
    case Connected => "Connected"
    case NoMedia => "NoMedia"
    case Disconnected => "Disconnected"
    case Connecting => "Connecting"
    case Disabled => "Disabled"
    case Faulted => "Faulted"
  }

  function LinkFrom(text: string): Result<LinkState, ReadError> {
    if text == "Unknown" then Success(LinkUnknown)
    else if text == "Connected" then Success(Connected)
    else if text == "NoMedia" then Success(NoMedia)
    else if text == "Disconnected" then Success(Disconnected)
    else if text == "Connecting" then Success(Connecting)
    else if text == "Disabled" then Success(Disabled)
    else if text == "Faulted" then Success(Faulted)
    else Failure(UnknownName)
  }

  function DdsMatchName(m: DdsMatch): string {
    match m
    case DdsEquals => "Equals"
    case DdsContains => "Contains"
    case DdsAtLeast => "AtLeast"
    case DdsAtMost => "AtMost"
  }

  function DdsMatchFrom(text: string): Result<DdsMatch, ReadError> {
    if text == "Equals" then Success(DdsEquals)
    else if text == "Contains" then Success(DdsContains)
    else if text == "AtLeast" then Success(DdsAtLeast)
    else if text == "AtMost" then Success(DdsAtMost)
    else Failure(UnknownName)
  }

  function OpName(op: ComparisonOp): string {
    match op
    case Equal => "=="
    case NotEqual => "!="
    case Less_ => "<"
    case LessEqual => "<="
    case Greater => ">"
    case GreaterEqual => ">="
  }

  function OpFrom(text: string): Result<ComparisonOp, ReadError> {
    if text == "==" then Success(Equal)
    else if text == "!=" then Success(NotEqual)
    else if text == "<" then Success(Less_)
    else if text == "<=" then Success(LessEqual)
    else if text == ">" then Success(Greater)
    else if text == ">=" then Success(GreaterEqual)
    else Failure(UnknownName)
  }

  // ----- encoding -----

  function ConstraintToJson(c: VersionConstraint): Json {
    JObject(map["op" := JString(OpName(c.op)), "value" := JString(VersionText(c.value))])
  }

  function PayloadToJson(p: Payload): Json {
    match p
    case ProcessRule(executable) =>
      JObject(map["type" := JString("process"), "executable" := JString(executable)])
    case ServiceRule(name, state) =>
      var fields := map["type" := JString("service"), "service_name" := JString(name)];
      JObject(if state.Some? then fields["expected_state" := JString(ServiceStateName(state.value))] else fields)
    case RegistryRule(hive, keyPath, valueName, match_, expected) =>
      JObject(map[
        "type" := JString("registry"), "hive" := JString(HiveText(hive)), "key_path" := JString(keyPath),
        "value_name" := JString(valueName), "match" := JString(RegistryMatchName(match_)),
        "expected_value" := JString(expected)])
    case AdapterCountRule(comparison, count) =>
      JObject(map[
        "type" := JString("adapter_count"), "comparison" := JString(ComparisonName(comparison)),
        "count" := JInt(count)])
    case AdapterStateRule(name, expected) =>
      JObject(map[
        "type" := JString("adapter_state"), "adapter_name" := JString(name),
        "expected" := JString(LinkName(expected))])
    case DdsTopicRule(domain, topic) =>
      JObject(map["type" := JString("dds_topic"), "domain_id" := JInt(domain), "topic_name" := JString(topic)])
    case DdsValueRule(domain, topic, path, match_, expected) =>
      JObject(map[
        "type" := JString("dds_value"), "domain_id" := JInt(domain), "topic_name" := JString(topic),
        "path" := JString(path), "match" := JString(DdsMatchName(match_)), "expected_value" := JString(expected)])
  }

  function RuleToJson(rule: Rule): Json {
    var fields := map[
      "id" := JString(rule.id), "description" := JString(rule.description),
      "expectation" := JString(PresenceName(rule.expectation)), "payload" := PayloadToJson(rule.payload)];
    JObject(if rule.version.Some? then fields["version" := ConstraintToJson(rule.version.value)] else fields)
  }

  function RulesToJson(rules: seq<Rule>): Json {
    JArray(seq(|rules|, i requires 0 <= i < |rules| => RuleToJson(rules[i])))
  }

  function TemplateToJson(t: Template): Json {
    JObject(map["name" := JString(t.name), "rules" := RulesToJson(t.rules)])
  }

  function NamesToJson(names: seq<string>): Json {
    JArray(seq(|names|, i requires 0 <= i < |names| => JString(names[i])))
  }

  function TemplatesToJson(templates: seq<Template>): Json {
    JArray(seq(|templates|, i requires 0 <= i < |templates| => TemplateToJson(templates[i])))
  }

  function AssignmentsToJson(assignments: map<HostId, seq<string>>): Json {
    JObject(map h | h in assignments :: NamesToJson(assignments[h]))
  }

  function BundleToJson(b: TemplateBundle): Json {
    JObject(map[
      "revision" := JInt(b.revision), "hash" := JString(b.hash), "baseline" := TemplateToJson(b.baseline),
      "templates" := TemplatesToJson(b.templates), "assignments" := AssignmentsToJson(b.assignments)])
  }

  // ----- decoding -----

  function VersionFromJson(j: Json): Result<Version, ReadError> {
    var text :- AsString(j);
    var parsed := ParseVersion(text);
    if parsed.None? then Failure(UnknownName) else Success(parsed.value)
  }

  function ConstraintFromJson(j: Json): Result<VersionConstraint, ReadError> {
    var name :- StringAt(j, "op");
    var op :- OpFrom(name);
    var value :- At(j, "value");
    var version :- VersionFromJson(value);
    Success(VersionConstraint(op, version))
  }

  function PayloadFromJson(j: Json): Result<Payload, ReadError> {
    var kind :- StringAt(j, "type");
    if kind == "process" then
      var executable :- StringAt(j, "executable");
      Success(ProcessRule(executable))
    else if kind == "service" then
      var name :- StringAt(j, "service_name");
      if "expected_state" in j.members then
        var text :- StringAt(j, "expected_state");
        var state :- ServiceStateFrom(text);
        Success(ServiceRule(name, Some(state)))
      else Success(ServiceRule(name, None))
    else if kind == "registry" then
      var hiveName :- StringAt(j, "hive");
      var hive :- HiveFrom(hiveName);
      var keyPath :- StringAt(j, "key_path");
      var valueName :- StringAt(j, "value_name");
      var matchName :- StringAt(j, "match");
      var match_ :- RegistryMatchFrom(matchName);
      var expected :- StringAt(j, "expected_value");
      Success(RegistryRule(hive, keyPath, valueName, match_, expected))
    else if kind == "adapter_count" then
      var name :- StringAt(j, "comparison");
      var comparison :- ComparisonFrom(name);
      var count :- Int32At(j, "count");
      Success(AdapterCountRule(comparison, count))
    else if kind == "adapter_state" then
      var name :- StringAt(j, "adapter_name");
      var text :- StringAt(j, "expected");
      var link :- LinkFrom(text);
      Success(AdapterStateRule(name, link))
    else if kind == "dds_topic" then
      var domain :- Uint32At(j, "domain_id");
      var topic :- StringAt(j, "topic_name");
      Success(DdsTopicRule(domain, topic))
    else if kind == "dds_value" then
      var domain :- Uint32At(j, "domain_id");
      var topic :- StringAt(j, "topic_name");
      var path :- StringAt(j, "path");
      var text :- StringAt(j, "match");
      var match_ :- DdsMatchFrom(text);
      var expected :- StringAt(j, "expected_value");
      Success(DdsValueRule(domain, topic, path, match_, expected))
    else Failure(UnknownName)
  }

  function RuleFromJson(j: Json): Result<Rule, ReadError> {
    var id :- StringAt(j, "id");
    var description :- StringAt(j, "description");
    var presence :- StringAt(j, "expectation");
    var expectation :- PresenceFrom(presence);
    var body :- At(j, "payload");
    var payload :- PayloadFromJson(body);
    if "version" in j.members then
      var version :- ConstraintFromJson(j.members["version"]);
      Success(Rule(id, description, expectation, payload, Some(version)))
    else Success(Rule(id, description, expectation, payload, None))
  }

  function RulesFromJson(j: Json): Result<seq<Rule>, ReadError> {
    var items :- AsArray(j);
    Traverse(RuleFromJson, items)
  }

  function TemplateFromJson(j: Json): Result<Template, ReadError> {
    var name :- StringAt(j, "name");
    var list :- At(j, "rules");
    var rules :- RulesFromJson(list);
    Success(Template(name, rules))
  }

  function TemplatesFromJson(j: Json): Result<seq<Template>, ReadError> {
    var items :- AsArray(j);
    Traverse(TemplateFromJson, items)
  }

  function NamesFromJson(j: Json): Result<seq<string>, ReadError> {
    var items :- AsArray(j);
    Traverse(AsString, items)
  }

  function AssignmentsFromJson(j: Json): Result<map<HostId, seq<string>>, ReadError> {
    if !j.JObject? then Failure(WrongType)
    else if forall h | h in j.members :: NamesFromJson(j.members[h]).Success?
    then Success(map h | h in j.members :: NamesFromJson(j.members[h]).value)
    else Failure(WrongType)
  }

  function BundleFromJson(j: Json): Result<TemplateBundle, ReadError> {
    var revision :- Uint64At(j, "revision");
    var hash :- StringAt(j, "hash");
    var baselineJson :- At(j, "baseline");
    var baseline :- TemplateFromJson(baselineJson);
    var templatesJson :- At(j, "templates");
    var templates :- TemplatesFromJson(templatesJson);
    var assignmentsJson :- At(j, "assignments");
    var assignments :- AssignmentsFromJson(assignmentsJson);
    Success(TemplateBundle(revision, hash, baseline, templates, assignments))
  }

  // ----- round trips -----

  /** A version prints as text that parses back. */
  predicate VersionOk(v: Version) {
    v.parts != [] && NoneNegative(v.parts)
  }

  predicate RuleOk(rule: Rule) {
    rule.version.Some? ==> VersionOk(rule.version.value.value)
  }

  ghost predicate TemplateOk(t: Template) {
    forall i | 0 <= i < |t.rules| :: RuleOk(t.rules[i])
  }

  ghost predicate BundleOk(b: TemplateBundle) {
    TemplateOk(b.baseline) && forall i | 0 <= i < |b.templates| :: TemplateOk(b.templates[i])
  }

  lemma ServiceRoundTrip(p: Payload)
    requires p.ServiceRule?
    ensures PayloadFromJson(PayloadToJson(p)) == Success(p)
  {
    var j := PayloadToJson(p);
    assert StringAt(j, "type") == Success("service");
    assert StringAt(j, "service_name") == Success(p.serviceName);
    if p.expectedState.Some? {
      assert ServiceStateFrom(ServiceStateName(p.expectedState.value)) == Success(p.expectedState.value);
      assert StringAt(j, "expected_state") == Success(ServiceStateName(p.expectedState.value));
    }
  }

  lemma RegistryRoundTrip(p: Payload)
    requires p.RegistryRule?
    ensures PayloadFromJson(PayloadToJson(p)) == Success(p)
  {
    var j := PayloadToJson(p);
    assert HiveFrom(HiveText(p.hive)) == Success(p.hive);
    assert RegistryMatchFrom(RegistryMatchName(p.match_)) == Success(p.match_);
    assert StringAt(j, "type") == Success("registry");
    assert StringAt(j, "hive") == Success(HiveText(p.hive));
    assert StringAt(j, "key_path") == Success(p.keyPath);
    assert StringAt(j, "value_name") == Success(p.valueName);
    assert StringAt(j, "match") == Success(RegistryMatchName(p.match_));
    assert StringAt(j, "expected_value") == Success(p.expectedText);
  }

  lemma AdapterRoundTrip(p: Payload)
    requires p.AdapterCountRule? || p.AdapterStateRule?
    ensures PayloadFromJson(PayloadToJson(p)) == Success(p)
  {
    var j := PayloadToJson(p);
    if p.AdapterCountRule? {
      assert ComparisonFrom(ComparisonName(p.comparison)) == Success(p.comparison);
      assert StringAt(j, "type") == Success("adapter_count");
      assert Int32At(j, "count") == Success(p.count);
    } else {
      assert LinkFrom(LinkName(p.expectedLink)) == Success(p.expectedLink);
      assert StringAt(j, "type") == Success("adapter_state");
    }
  }

  lemma DdsRoundTrip(p: Payload)
    requires p.DdsTopicRule? || p.DdsValueRule?
    ensures PayloadFromJson(PayloadToJson(p)) == Success(p)
  {
    var j := PayloadToJson(p);
    assert Uint32At(j, "domain_id") == Success(p.domainId);
    assert StringAt(j, "topic_name") == Success(p.topicName);
    if p.DdsTopicRule? {
      assert StringAt(j, "type") == Success("dds_topic");
    } else {
      assert DdsMatchFrom(DdsMatchName(p.ddsMatch)) == Success(p.ddsMatch);
      assert StringAt(j, "type") == Success("dds_value");
      assert StringAt(j, "path") == Success(p.path);
      assert StringAt(j, "match") == Success(DdsMatchName(p.ddsMatch));
      assert StringAt(j, "expected_value") == Success(p.expectedValue);
    }
  }

  lemma PayloadRoundTrip(p: Payload)
    ensures PayloadFromJson(PayloadToJson(p)) == Success(p)
  {
    match p
    case ProcessRule(_) =>
    case ServiceRule(_, _) => ServiceRoundTrip(p);
    case RegistryRule(_, _, _, _, _) => RegistryRoundTrip(p);
    case AdapterCountRule(_, _) => AdapterRoundTrip(p);
    case AdapterStateRule(_, _) => AdapterRoundTrip(p);
    case DdsTopicRule(_, _) => DdsRoundTrip(p);
    case DdsValueRule(_, _, _, _, _) => DdsRoundTrip(p);
  }

  lemma OpRoundTrip(op: ComparisonOp)
    ensures OpFrom(OpName(op)) == Success(op)
  {
  }

  lemma ConstraintRoundTrip(c: VersionConstraint)
    ensures ConstraintFromJson(ConstraintToJson(c)) == if VersionOk(c.value) then Success(c) else Failure(UnknownName)
  {
    VersionRoundTrip(c.value);
    OpRoundTrip(c.op);
    var j := ConstraintToJson(c);
    assert StringAt(j, "op") == Success(OpName(c.op));
    assert At(j, "value") == Success(JString(VersionText(c.value)));
  }

  lemma RuleRoundTrip(rule: Rule)
    ensures RuleFromJson(RuleToJson(rule)) == if RuleOk(rule) then Success(rule) else Failure(UnknownName)
  {
    PayloadRoundTrip(rule.payload);
    assert PresenceFrom(PresenceName(rule.expectation)) == Success(rule.expectation);
    var j := RuleToJson(rule);
    assert StringAt(j, "id") == Success(rule.id);
    assert StringAt(j, "description") == Success(rule.description);
    assert StringAt(j, "expectation") == Success(PresenceName(rule.expectation));
    assert At(j, "payload") == Success(PayloadToJson(rule.payload));
    if rule.version.Some? {
      ConstraintRoundTrip(rule.version.value);
    }
  }

  lemma RulesRoundTrip(rules: seq<Rule>)
    ensures if forall i | 0 <= i < |rules| :: RuleOk(rules[i]) then RulesFromJson(RulesToJson(rules)) == Success(rules)
            else RulesFromJson(RulesToJson(rules)).Failure?
  {
    var items := RulesToJson(rules).items;
    forall i | 0 <= i < |rules|
      ensures RuleFromJson(items[i]) == if RuleOk(rules[i]) then Success(rules[i]) else Failure(UnknownName)
    {
      RuleRoundTrip(rules[i]);
    }
    if k :| 0 <= k < |rules| && !RuleOk(rules[k]) {
      TraverseFailsSomewhere(RuleFromJson, items, k);
    } else {
      TraverseSucceeds(RuleFromJson, items, rules);
    }
  }

  lemma TemplateRoundTrip(t: Template)
    ensures
      if TemplateOk(t) then TemplateFromJson(TemplateToJson(t)) == Success(t)
      else TemplateFromJson(TemplateToJson(t)).Failure?
  {
    RulesRoundTrip(t.rules);
    var j := TemplateToJson(t);
    assert StringAt(j, "name") == Success(t.name);
    assert At(j, "rules") == Success(RulesToJson(t.rules));
  }

  lemma TemplatesRoundTrip(templates: seq<Template>)
    ensures if forall i | 0 <= i < |templates| :: TemplateOk(templates[i])
            then TemplatesFromJson(TemplatesToJson(templates)) == Success(templates)
            else TemplatesFromJson(TemplatesToJson(templates)).Failure?
  {
    var items := TemplatesToJson(templates).items;
    forall i | 0 <= i < |templates|
      ensures
        if TemplateOk(templates[i]) then TemplateFromJson(items[i]) == Success(templates[i])
        else TemplateFromJson(items[i]).Failure?
    {
      TemplateRoundTrip(templates[i]);
    }
    if k :| 0 <= k < |templates| && !TemplateOk(templates[k]) {
      TraverseFailsSomewhere(TemplateFromJson, items, k);
    } else {
      TraverseSucceeds(TemplateFromJson, items, templates);
    }
  }

  lemma NamesRoundTrip(names: seq<string>)
    ensures NamesFromJson(NamesToJson(names)) == Success(names)
  {
    TraverseSucceeds(AsString, NamesToJson(names).items, names);
  }

  lemma AssignmentsRoundTrip(assignments: map<HostId, seq<string>>)
    ensures AssignmentsFromJson(AssignmentsToJson(assignments)) == Success(assignments)
  {
    var members := AssignmentsToJson(assignments).members;
    forall h | h in members
      ensures NamesFromJson(members[h]) == Success(assignments[h])
    {
      NamesRoundTrip(assignments[h]);
    }
    assert AssignmentsFromJson(AssignmentsToJson(assignments)).value == assignments;
  }

  lemma BundleFields(b: TemplateBundle)
    ensures var j := BundleToJson(b);
      && Uint64At(j, "revision") == Success(b.revision) && StringAt(j, "hash") == Success(b.hash)
      && At(j, "baseline") == Success(TemplateToJson(b.baseline))
      && At(j, "templates") == Success(TemplatesToJson(b.templates))
      && At(j, "assignments") == Success(AssignmentsToJson(b.assignments))
  {
  }

  /** Decoding a bundle's tree gives the bundle back exactly when every version constraint has parts and
      none is negative; otherwise it fails. */
  lemma BundleRoundTrip(b: TemplateBundle)
    ensures BundleFromJson(BundleToJson(b)) == Success(b) <==> BundleOk(b)
    ensures BundleFromJson(BundleToJson(b)).Failure? <==> !BundleOk(b)
  {
    BundleFields(b);
    TemplateRoundTrip(b.baseline);
    TemplatesRoundTrip(b.templates);
    AssignmentsRoundTrip(b.assignments);
  }

  // ----- the content hash -----

  type byte = x: int | 0 <= x < 256

  const FNV_OFFSET: uint64 := 14695981039346656037
  const FNV_PRIME: uint64 := 1099511628211

  function Xor(a: nat, b: nat): nat {
    if a == 0 && b == 0 then 0 else (a % 2 + b % 2) % 2 + 2 * Xor(a / 2, b / 2)
  }

  /** FNV-1a, 64 bits. */
  function Fnv(bytes: seq<byte>): uint64 {
    if bytes == [] then FNV_OFFSET
    else ToUint64(Xor(Fnv(bytes[..|bytes| - 1]), bytes[|bytes| - 1]) * FNV_PRIME)
  }

  const HEX_DIGITS := "0123456789abcdef"

  function Hex(n: nat, digits: nat): (s: string)
    ensures |s| == digits
  {
    if digits == 0 then "" else Hex(n / 16, digits - 1) + [HEX_DIGITS[n % 16]]
  }

  function HexValue(c: char): nat {
    if '0' <= c <= '9' then c as int - '0' as int
    else if 'a' <= c <= 'f' then c as int - 'a' as int + 10 else 0
  }

  function FromHex(s: string): nat {
    if s == "" then 0 else 16 * FromHex(s[..|s| - 1]) + HexValue(s[|s| - 1])
  }

  function Power16(n: nat): nat {
    if n == 0 then 1 else 16 * Power16(n - 1)
  }

  lemma LastHexDigit(front: string, c: char)
    ensures FromHex(front + [c]) == 16 * FromHex(front) + HexValue(c)
  {
    var s := front + [c];
    assert s[..|s| - 1] == front;
  }

  lemma HexDigitReadsBack(d: nat)
    requires d < 16
    ensures HexValue(HEX_DIGITS[d]) == d
  {
  }

  lemma {:induction false} HexReadsBack(n: nat, digits: nat)
    requires n < Power16(digits)
    ensures FromHex(Hex(n, digits)) == n
  {
    if digits > 0 {
      HexReadsBack(n / 16, digits - 1);
      var front := Hex(n / 16, digits - 1);
      LastHexDigit(front, HEX_DIGITS[n % 16]);
      HexDigitReadsBack(n % 16);
      assert Hex(n, digits) == front + [HEX_DIGITS[n % 16]];
    }
  }

  /** Sixteen digits hold a 64-bit value. */
  lemma SixteenDigitsLoseNothing(hash: uint64)
    ensures FromHex(Hex(hash, 16)) == hash
  {
    assert Power16(4) == 0x1_0000;
    assert Power16(8) == 0x1_0000_0000;
    assert Power16(12) == 0x1_0000_0000_0000;
    assert Power16(16) == 0x1_0000_0000_0000_0000;
    HexReadsBack(hash, 16);
  }

  function ContentHash(dump: Json -> seq<byte>, bundle: TemplateBundle): string {
    Hex(Fnv(dump(BundleToJson(bundle.(revision := 0, hash := "")))), 16)
  }

  method HashBytes(bytes: seq<byte>) returns (hash: uint64)
    ensures hash == Fnv(bytes)
  {
    hash := FNV_OFFSET;
    for i := 0 to |bytes|
      invariant hash == Fnv(bytes[..i])
    {
      assert bytes[..i + 1][..i] == bytes[..i];
      hash := ToUint64(Xor(hash, bytes[i]) * FNV_PRIME);
    }
    assert bytes[..|bytes|] == bytes;
  }

  /** Sixteen digits, the last first. */
  method HexText(hash: uint64) returns (out: string)
    ensures out == Hex(hash, 16)
  {
    var digits := new char[16](_ => '0');
    var rest, i := hash, 15;
    while i >= 0
      invariant -1 <= i <= 15
      invariant Hex(hash, 16) == Hex(rest, i + 1) + digits[i + 1..]
    {
      digits[i] := HEX_DIGITS[rest % 16];
      rest := rest / 16;
      i := i - 1;
    }
    out := digits[..];
    assert digits[0..] == digits[..];
  }

  method ComputeContentHash(dump: Json -> seq<byte>, bundle: TemplateBundle) returns (out: string)
    ensures out == ContentHash(dump, bundle)
  {
    var hash := HashBytes(dump(BundleToJson(bundle.(revision := 0, hash := ""))));
    out := HexText(hash);
  }

  /** The hash is of the content alone, and two bundles have the same hash exactly when the FNV values of
      their content agree. */
  lemma HashIsOfContent(dump: Json -> seq<byte>, a: TemplateBundle, b: TemplateBundle, revision: uint64, hash: string)
    ensures ContentHash(dump, a.(revision := revision, hash := hash)) == ContentHash(dump, a)
    ensures ContentHash(dump, a) == ContentHash(dump, b) <==>
      Fnv(dump(BundleToJson(a.(revision := 0, hash := "")))) == Fnv(dump(BundleToJson(b.(revision := 0, hash := ""))))
  {
    SixteenDigitsLoseNothing(Fnv(dump(BundleToJson(a.(revision := 0, hash := "")))));
    SixteenDigitsLoseNothing(Fnv(dump(BundleToJson(b.(revision := 0, hash := "")))));
    assert a.(revision := revision, hash := hash).(revision := 0, hash := "") == a.(revision := 0, hash := "");
  }
}
