/** Rules, templates and bundles (libs/core/include/lm/core/rule.hpp, template_bundle.hpp). */
module Rules {
  import opened Base
  import opened Json
  import opened Text
  import opened Versions
  import Fleet

  datatype Presence = MustBePresent | MustBeAbsent
  datatype ServiceState = Running | Stopped | StateUnknown
  datatype RegistryHive = LocalMachine | CurrentUser | ClassesRoot | Users
  datatype RegistryMatch = MatchExists | MatchEquals | MatchContains
  datatype Comparison = AtLeast | Exactly | AtMost
  datatype LinkState = LinkUnknown | Connected | NoMedia | Disconnected | Connecting | Disabled | Faulted
  datatype DdsMatch = DdsEquals | DdsContains | DdsAtLeast | DdsAtMost

  datatype Payload =
    | ProcessRule(executable: string)
    | ServiceRule(serviceName: string, expectedState: Option<ServiceState>)
    | RegistryRule(hive: RegistryHive, keyPath: string, valueName: string, match_: RegistryMatch, expectedText: string)
    | AdapterCountRule(comparison: Comparison, count: int32)
    | AdapterStateRule(adapterName: string, expectedLink: LinkState)
    | DdsTopicRule(domainId: uint32, topicName: string)
    | DdsValueRule(domainId: uint32, topicName: string, path: string, ddsMatch: DdsMatch, expectedValue: string)

  datatype Rule = Rule(
    id: string, description: string, expectation: Presence, payload: Payload, version: Option<VersionConstraint>)

  datatype Template = Template(name: string, rules: seq<Rule>)

  datatype TemplateBundle = TemplateBundle(
    revision: uint64, hash: string, baseline: Template, templates: seq<Template>,
    assignments: map<HostId, seq<string>>)

  datatype RuleKind = ProcessKind | ServiceKind | RegistryKind | NetworkKind | DdsKind

  function KindOf(rule: Rule): RuleKind {
    match rule.payload
    case ProcessRule(_) => ProcessKind
    case ServiceRule(_, _) => ServiceKind
    case RegistryRule(_, _, _, _, _) => RegistryKind
    case AdapterCountRule(_, _) => NetworkKind
    case AdapterStateRule(_, _) => NetworkKind
    case DdsTopicRule(_, _) => DdsKind
    case DdsValueRule(_, _, _, _, _) => DdsKind
  }

  function RequiredCapability(kind: RuleKind): Fleet.Capability {
    match kind
    case ProcessKind => Fleet.Processes
    case ServiceKind => Fleet.Services
    case RegistryKind => Fleet.Registry
    case NetworkKind => Fleet.Network
    case DdsKind => Fleet.Dds
  }

  function HiveText(hive: RegistryHive): string {
    match hive
    case LocalMachine => "HKLM"
    case CurrentUser => "HKCU"
    case ClassesRoot => "HKCR"
    case Users => "HKU"
  }

  /** Where a registry value lives. */
  datatype Location = Location(hive: RegistryHive, keyPath: string, valueName: string)

  function LocationOf(payload: Payload): Location
    requires payload.RegistryRule?
  {
    Location(payload.hive, payload.keyPath, payload.valueName)
  }

  /** hive \ key path \\ value name */
  function RegistryKey(at: Location): string {
    HiveText(at.hive) + "\\" + at.keyPath + "\\\\" + at.valueName
  }

  function DdsKey(domainId: uint32, topicName: string): string {
    Decimal(domainId) + "/" + topicName
  }

  lemma {:induction false} DdsKeyInjective(d: uint32, t: string, d': uint32, t': string)
    requires DdsKey(d, t) == DdsKey(d', t')
    ensures d == d' && t == t'
  {
    var s := DdsKey(d, t);
    SlashAfter(Decimal(d), t);
    SlashAfter(Decimal(d'), t');
    var k := Find(s, '/', 0);
    assert s[..k] == Decimal(d) && s[..k] == Decimal(d');
    DecimalInjective(d, d');
    assert s[k + 1..] == t && s[k + 1..] == t';
  }

  lemma SlashAfter(digits: string, rest: string)
    requires AllDigits(digits)
    ensures Find(digits + "/" + rest, '/', 0) == |digits|
  {
    var s := digits + "/" + rest;
    forall j | 0 <= j < |digits|
      ensures s[j] != '/'
    {
      assert s[j] == digits[j];
    }
    FindIs(s, '/', 0, |digits|);
  }

  predicate NoBackslash(s: string) {
    forall i | 0 <= i < |s| :: s[i] != '\\'
  }

  /** Registry keys of values whose names hold no backslash name the location. */
  lemma RegistryKeyInjective(a: Location, b: Location)
    requires NoBackslash(a.valueName) && NoBackslash(b.valueName)
    requires RegistryKey(a) == RegistryKey(b)
    ensures a == b
  {
    var s := RegistryKey(a);
    var headA, headB := HiveText(a.hive) + "\\" + a.keyPath, HiveText(b.hive) + "\\" + b.keyPath;
    assert s == headA + "\\\\" + a.valueName && s == headB + "\\\\" + b.valueName;
    NameLength(headA, a.valueName, headB, b.valueName);
    NameLength(headB, b.valueName, headA, a.valueName);
    assert headA == s[..|headA|] == headB;
    assert a.valueName == s[|headA| + 2..] == b.valueName;
    HiveEnds(a.hive, a.keyPath);
    HiveEnds(b.hive, b.keyPath);
    assert HiveText(a.hive) == headA[..|HiveText(a.hive)|] && HiveText(b.hive) == headB[..|HiveText(b.hive)|];
    assert a.hive == b.hive;
    assert a.keyPath == headA[|HiveText(a.hive)| + 1..] && b.keyPath == headB[|HiveText(b.hive)| + 1..];
  }

  /** The name's last backslash, were it inside the other's name, would be a backslash there. */
  lemma NameLength(head: string, name: string, head': string, name': string)
    requires head + "\\\\" + name == head' + "\\\\" + name'
    requires NoBackslash(name')
    ensures |name| >= |name'|
  {
    var s := head + "\\\\" + name;
    assert s[|s| - |name| - 1] == '\\';
    assert forall i | 0 <= i < |name'| :: s[|s| - |name'| + i] == name'[i];
  }

  lemma HiveEnds(hive: RegistryHive, rest: string)
    ensures Find(HiveText(hive) + "\\" + rest, '\\', 0) == |HiveText(hive)|
  {
    var s := HiveText(hive) + "\\" + rest;
    assert forall j | 0 <= j < |HiveText(hive)| :: s[j] == HiveText(hive)[j] && s[j] != '\\';
    FindIs(s, '\\', 0, |HiveText(hive)|);
  }

  /** Everything after the hive. */
  function Tail(at: Location): string {
    at.keyPath + "\\\\" + at.valueName
  }

  predicate SplitsAt(s: string, i: nat) {
    i + 2 <= |s| && s[i] == '\\' && s[i + 1] == '\\'
  }

  lemma KeyIsHiveAndTail(a: Location, b: Location)
    ensures RegistryKey(a) == RegistryKey(b) <==> a.hive == b.hive && Tail(a) == Tail(b)
  {
    HiveThen(a);
    HiveThen(b);
  }

  lemma HiveThen(at: Location)
    ensures var key := RegistryKey(at);
      var k := Find(key, '\\', 0);
      k < |key| && key[..k] == HiveText(at.hive) && key[k + 1..] == Tail(at)
  {
    HiveEnds(at.hive, Tail(at));
    assert RegistryKey(at) == HiveText(at.hive) + "\\" + Tail(at);
  }

  /** The location whose path ends where the tail splits at i. */
  function CutAt(hive: RegistryHive, tail: string, i: nat): (at: Location)
    requires SplitsAt(tail, i)
    ensures Tail(at) == tail && |at.keyPath| == i && at.hive == hive
  {
    assert tail == tail[..i] + "\\\\" + tail[i + 2..];
    Location(hive, tail[..i], tail[i + 2..])
  }

  lemma SameCut(a: Location, b: Location)
    requires Tail(a) == Tail(b) && |a.keyPath| == |b.keyPath|
    ensures a.keyPath == b.keyPath && a.valueName == b.valueName
  {
    var tail := Tail(a);
    assert a.keyPath == tail[..|a.keyPath|] == b.keyPath;
    assert a.valueName == tail[|a.keyPath| + 2..] == b.valueName;
  }

  /** A key names its location alone exactly when what follows the hive holds a double backslash in one place
      only, the one that ends the key path. */
  lemma KeyNamesAloneExactlyWhen(a: Location)
    ensures (forall b :: RegistryKey(b) == RegistryKey(a) ==> b == a)
      <==> forall i: nat | SplitsAt(Tail(a), i) :: i == |a.keyPath|
  {
    if forall b :: RegistryKey(b) == RegistryKey(a) ==> b == a {
      forall i: nat | SplitsAt(Tail(a), i)
        ensures i == |a.keyPath|
      {
        KeyIsHiveAndTail(CutAt(a.hive, Tail(a), i), a);
      }
    }
    if forall i: nat | SplitsAt(Tail(a), i) :: i == |a.keyPath| {
      forall b | RegistryKey(b) == RegistryKey(a)
        ensures b == a
      {
        KeyIsHiveAndTail(a, b);
        assert SplitsAt(Tail(b), |b.keyPath|);
        SameCut(a, b);
      }
    }
  }

  /** A value name with a backslash breaks it: two different values share this key. */
  lemma RegistryKeyCollides()
    ensures var a, b := Location(LocalMachine, "a\\", "b"), Location(LocalMachine, "a", "\\b");
      a != b && RegistryKey(a) == RegistryKey(b)
  {
    assert RegistryKey(Location(LocalMachine, "a\\", "b")) == "HKLM\\a\\\\\\b";
    assert RegistryKey(Location(LocalMachine, "a", "\\b")) == "HKLM\\a\\\\\\b";
  }
}
