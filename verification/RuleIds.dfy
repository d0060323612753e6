/** Rule ids: the slug, the search for a free id, the repair of a bundle's ids, and the merge of the
    rules that apply to a host (libs/core/src/template_bundle.cpp). */
module RuleIds {
  import opened Base
  import opened Text
  import opened Rules

  // ----- slugs -----

  predicate IsUpper(c: char) {
    'A' <= c <= 'Z'
  }

  predicate IsAlnum(c: char) {
    IsDigit(c) || IsUpper(c) || 'a' <= c <= 'z'
  }

  function ToLower(c: char): char {
    if IsUpper(c) then (c as int - 'A' as int + 'a' as int) as char else c
  }

  function SlugRuns(text: string): string {
    if text == "" then ""
    else
      var slug, c := SlugRuns(text[..|text| - 1]), text[|text| - 1];
      if IsAlnum(c) then slug + [ToLower(c)]
      else if slug != "" && slug[|slug| - 1] != '-' then slug + "-"
      else slug
  }

  function TrimDashes(slug: string): string {
    if slug != "" && slug[|slug| - 1] == '-' then TrimDashes(slug[..|slug| - 1]) else slug
  }

  function Slug(text: string): string {
    TrimDashes(SlugRuns(text))
  }

  method Slugify(text: string) returns (slug: string)
    ensures slug == Slug(text)
  {
    slug := "";
    for i := 0 to |text|
      invariant slug == SlugRuns(text[..i])
    {
      assert text[..i + 1][..i] == text[..i];
      if IsAlnum(text[i]) {
        slug := slug + [ToLower(text[i])];
      } else if slug != "" && slug[|slug| - 1] != '-' {
        slug := slug + "-";
      }
    }
    assert text[..|text|] == text;
    while slug != "" && slug[|slug| - 1] == '-'
      invariant TrimDashes(slug) == Slug(text)
      decreases |slug|
    {
      slug := slug[..|slug| - 1];
    }
  }

  /** Lower-case letters, digits and single dashes, none of them leading. */
  ghost predicate SlugShaped(s: string) {
    && (forall i | 0 <= i < |s| :: s[i] == '-' || (IsAlnum(s[i]) && !IsUpper(s[i])))
    && (s != "" ==> s[0] != '-')
    && (forall i | 0 <= i < |s| - 1 :: !(s[i] == '-' && s[i + 1] == '-'))
  }

  function Letters(text: string): string {
    if text == "" then ""
    else
      var front, c := Letters(text[..|text| - 1]), text[|text| - 1];
      if IsAlnum(c) then front + [ToLower(c)] else front
  }

  lemma {:induction false} SlugRunsShaped(text: string)
    ensures SlugShaped(SlugRuns(text)) && Letters(SlugRuns(text)) == Letters(text)
  {
    if text != "" {
      var slug := SlugRuns(text[..|text| - 1]);
      SlugRunsShaped(text[..|text| - 1]);
      var longer := SlugRuns(text);
      if longer != slug {
        assert longer[..|longer| - 1] == slug;
      }
    }
  }

  /** A slug holds the text's letters and digits, lower-cased and in order, with single dashes between
      runs of them and none at either end; a slug is its own slug. */
  lemma SlugIsClean(text: string)
    ensures SlugShaped(Slug(text)) && Letters(Slug(text)) == Letters(text)
    ensures Slug(text) != "" ==> Slug(text)[|Slug(text)| - 1] != '-'
    ensures Slug(text) == "" <==> Letters(text) == ""
    ensures Slug(Slug(text)) == Slug(text)
  {
    var runs := SlugRuns(text);
    SlugRunsShaped(text);
    TrimShaped(runs);
    var slug := Slug(text);
    SlugRunsOfShaped(slug);
    if slug != "" {
      assert Letters(slug) != "";
    }
  }

  lemma TrimShaped(s: string)
    requires SlugShaped(s)
    ensures SlugShaped(TrimDashes(s)) && Letters(TrimDashes(s)) == Letters(s)
    ensures TrimDashes(s) != "" ==> TrimDashes(s)[|TrimDashes(s)| - 1] != '-'
    ensures TrimDashes(TrimDashes(s)) == TrimDashes(s)
  {
    if s != "" && s[|s| - 1] == '-' {
      var cut := s[..|s| - 1];
      assert cut != "" && cut[|cut| - 1] != '-';
      assert TrimDashes(s) == TrimDashes(cut) == cut;
    }
  }

  lemma {:induction false} SlugRunsOfShaped(s: string)
    requires SlugShaped(s)
    ensures SlugRuns(s) == s
  {
    if s != "" {
      var front := s[..|s| - 1];
      SlugRunsOfShaped(front);
      assert s == front + [s[|s| - 1]];
      if s[|s| - 1] == '-' {
        assert front != "" && front[|front| - 1] != '-';
      }
    }
  }

  // ----- a free id -----

  function PrefixOf(kind: RuleKind): string {
    match kind
    case ProcessKind => "process"
    case ServiceKind => "service"
    case RegistryKind => "registry"
    case NetworkKind => "network"
    case DdsKind => "dds"
  }

  /** What follows the last backslash or slash. */
  function LastSegment(path: string): string {
    if path == "" || path[|path| - 1] == '\\' || path[|path| - 1] == '/' then ""
    else LastSegment(path[..|path| - 1]) + [path[|path| - 1]]
  }

  function TargetOf(rule: Rule): string {
    match rule.payload
    case ProcessRule(executable) => executable
    case ServiceRule(name, _) => name
    case RegistryRule(_, keyPath, valueName, _, _) => if valueName != "" then valueName else LastSegment(keyPath)
    case AdapterCountRule(_, _) => "adapters"
    case AdapterStateRule(name, _) => name
    case DdsTopicRule(_, topic) => topic
    case DdsValueRule(_, topic, path, _, _) => if path == "" then topic else topic + "-" + path
  }

  function BaseId(rule: Rule): (id: string)
    ensures id != ""
  {
    var target := Slug(TargetOf(rule));
    if target == "" then PrefixOf(KindOf(rule)) else PrefixOf(KindOf(rule)) + "-" + target
  }

  function Candidate(base: string, suffix: nat): string {
    base + "-" + Decimal(suffix)
  }

  lemma CandidatesDiffer(base: string, i: nat, j: nat)
    ensures Candidate(base, i) == Candidate(base, j) ==> i == j
    ensures Candidate(base, i) != base
  {
    if Candidate(base, i) == Candidate(base, j) {
      assert Decimal(i) == Candidate(base, i)[|base| + 1..] == Candidate(base, j)[|base| + 1..] == Decimal(j);
      DecimalInjective(i, j);
    }
    assert |Candidate(base, i)| > |base|;
  }

  /** The smallest free suffix at or after k; `left` holds the taken ids not yet tried. */
  function FirstFree(taken: set<string>, base: string, k: nat, left: set<string>): (suffix: nat)
    requires left <= taken
    requires forall j: nat | j >= k :: Candidate(base, j) in taken ==> Candidate(base, j) in left
    ensures k <= suffix <= k + |left|
    ensures Candidate(base, suffix) !in taken
    ensures forall j: nat | k <= j < suffix :: Candidate(base, j) in taken
    decreases |left|
  {
    if Candidate(base, k) !in taken then k
    else
      assert forall j: nat | j >= k + 1 :: Candidate(base, j) != Candidate(base, k) by {
        forall j: nat | j >= k + 1
          ensures Candidate(base, j) != Candidate(base, k)
        {
          CandidatesDiffer(base, j, k);
        }
      }
      FirstFree(taken, base, k + 1, left - {Candidate(base, k)})
  }

  /** Pigeonhole: at most |taken| + 1 texts are tried. */
  function FreeId(taken: set<string>, base: string): (id: string)
    ensures id !in taken && (base != "" ==> id != "")
    ensures id == base <==> base !in taken
    ensures id != base ==> exists k: nat ::
        2 <= k <= |taken| + 1 && id == Candidate(base, k) && forall j: nat | 2 <= j < k :: Candidate(base, j) in taken
  {
    if base !in taken then base
    else
      assert forall j: nat :: Candidate(base, j) != base by {
        forall j: nat
          ensures Candidate(base, j) != base
        {
          CandidatesDiffer(base, j, j);
        }
      }
      Candidate(base, FirstFree(taken, base, 2, taken - {base}))
  }

  /** The unbounded search of unique_id. */
  method UniqueId(taken: set<string>, rule: Rule) returns (id: string)
    ensures id == FreeId(taken, BaseId(rule))
  {
    var base := PrefixOf(KindOf(rule));
    var target := Slugify(TargetOf(rule));
    if target != "" {
      base := base + "-" + target;
    }
    if base !in taken {
      return base;
    }
    forall j: nat
      ensures Candidate(base, j) != base
    {
      CandidatesDiffer(base, j, j);
    }
    ghost var left := taken - {base};
    var suffix: nat := 2;
    while Candidate(base, suffix) in taken
      invariant left <= taken && suffix >= 2
      invariant forall j: nat | j >= suffix :: Candidate(base, j) in taken ==> Candidate(base, j) in left
      invariant FirstFree(taken, base, suffix, left) == FirstFree(taken, base, 2, taken - {base})
      decreases |left|
    {
      forall j: nat | j >= suffix + 1
        ensures Candidate(base, j) != Candidate(base, suffix)
      {
        CandidatesDiffer(base, j, suffix);
      }
      left := left - {Candidate(base, suffix)};
      suffix := suffix + 1;
    }
    return Candidate(base, suffix);
  }

  // ----- ids across a bundle -----

  function FlatRules(templates: seq<Template>): seq<Rule> {
    if templates == [] then [] else FlatRules(templates[..|templates| - 1]) + templates[|templates| - 1].rules
  }

  lemma FlatSnoc(templates: seq<Template>, t: nat)
    requires t < |templates|
    ensures FlatRules(templates[..t + 1]) == FlatRules(templates[..t]) + templates[t].rules
  {
    assert templates[..t + 1][..t] == templates[..t];
  }

  lemma FlatJoin(rules: seq<Rule>, templates: seq<Template>, tmpl: Template)
    ensures rules + FlatRules(templates + [tmpl]) == rules + FlatRules(templates) + tmpl.rules
  {
    assert (templates + [tmpl])[..|templates|] == templates;
  }

  function AllRules(bundle: TemplateBundle): seq<Rule> {
    bundle.baseline.rules + FlatRules(bundle.templates)
  }

  function IdSet(rules: seq<Rule>): set<string> {
    set rule | rule in rules :: rule.id
  }

  method CollectIds(rules: seq<Rule>, ids: set<string>) returns (r: set<string>)
    ensures r == ids + IdSet(rules)
  {
    r := ids;
    for i := 0 to |rules|
      invariant r == ids + IdSet(rules[..i])
    {
      assert rules[..i + 1] == rules[..i] + [rules[i]];
      r := r + {rules[i].id};
    }
    assert rules[..|rules|] == rules;
  }

  /** A new rule's id is held by no rule of the bundle. */
  method MakeRuleId(bundle: TemplateBundle, rule: Rule) returns (id: string)
    ensures id == FreeId(IdSet(AllRules(bundle)), BaseId(rule))
    ensures id != "" && forall other | other in AllRules(bundle) :: other.id != id
  {
    var ids := CollectIds(bundle.baseline.rules, {});
    for i := 0 to |bundle.templates|
      invariant ids == IdSet(bundle.baseline.rules + FlatRules(bundle.templates[..i]))
    {
      assert bundle.templates[..i + 1][..i] == bundle.templates[..i];
      ids := CollectIds(bundle.templates[i].rules, ids);
    }
    assert bundle.templates[..|bundle.templates|] == bundle.templates;
    id := UniqueId(ids, rule);
    assert forall other | other in AllRules(bundle) :: other.id in ids;
  }

  // ----- repair -----

  datatype Repaired = Repaired(rules: seq<Rule>, seen: set<string>, renames: seq<(string, string)>)

  function NewId(seen: set<string>, rule: Rule): (id: string)
    ensures id != "" && id !in seen
    ensures id == rule.id <==> rule.id != "" && rule.id !in seen
  {
    if rule.id != "" && rule.id !in seen then rule.id else FreeId(seen, BaseId(rule))
  }

  function RepairStep(before: Repaired, rule: Rule): Repaired {
    var id := NewId(before.seen, rule);
    Repaired(before.rules + [rule.(id := id)], before.seen + {id},
      if id == rule.id then before.renames else before.renames + [(rule.id, id)])
  }

  function RepairRules(rules: seq<Rule>, before: Repaired): Repaired {
    if rules == [] then before else RepairStep(RepairRules(rules[..|rules| - 1], before), rules[|rules| - 1])
  }

  const NOTHING := Repaired([], {}, [])

  function Repair(rules: seq<Rule>): Repaired {
    RepairRules(rules, NOTHING)
  }

  lemma {:induction false} RepairRest(a: seq<Rule>, b: seq<Rule>, before: Repaired)
    ensures RepairRules(a + b, before) == RepairRules(b, RepairRules(a, before))
  {
    if b == [] {
      assert a + b == a;
    } else {
      assert (a + b)[..|a + b| - 1] == a + b[..|b| - 1];
      RepairRest(a, b[..|b| - 1], before);
    }
  }

  lemma RepairSnoc(rules: seq<Rule>, i: nat, before: Repaired)
    requires i < |rules|
    ensures RepairRules(rules[..i + 1], before) == RepairStep(RepairRules(rules[..i], before), rules[i])
  {
    assert rules[..i + 1][..i] == rules[..i];
  }

  lemma StepIs(front: seq<Rule>, rules: seq<Rule>, seen: set<string>, renames: seq<(string, string)>, rule: Rule,
               id: string)
    requires id == NewId(seen, rule)
    ensures RepairStep(Repaired(front + rules, seen, renames), rule) == Repaired(
      front + (rules + [rule.(id := id)]), seen + {id}, if id == rule.id then renames else renames + [(rule.id, id)])
  {
    assert front + rules + [rule.(id := id)] == front + (rules + [rule.(id := id)]);
  }

  /** A non-empty id seen for the first time is kept. */
  method IdFor(rule: Rule, seen: set<string>) returns (id: string)
    ensures id == NewId(seen, rule)
  {
    if rule.id != "" && rule.id !in seen {
      return rule.id;
    }
    id := UniqueId(seen, rule);
  }

  /** The bundle whose ids an operator edits. */
  class BundleDraft {
    var bundle: TemplateBundle

    constructor (bundle: TemplateBundle)
      ensures this.bundle == bundle
    {
      this.bundle := bundle;
    }

    /** Repairs one rule list in place, as the lambda in deduplicate_rule_ids does. */
    static method RepairTemplate(tmpl: Template, seen: set<string>, renames: seq<(string, string)>,
                                 ghost before: Repaired)
      returns (tmpl': Template, seen': set<string>, renames': seq<(string, string)>)
      requires before.seen == seen && before.renames == renames
      ensures var after := RepairRules(tmpl.rules, before);
        && tmpl' == tmpl.(rules := tmpl'.rules) && |tmpl'.rules| == |tmpl.rules|
        && after == Repaired(before.rules + tmpl'.rules, seen', renames')
    {
      var rules: seq<Rule> := [];
      seen', renames' := seen, renames;
      assert before.rules + [] == before.rules;
      for i := 0 to |tmpl.rules|
        invariant |rules| == i
        invariant RepairRules(tmpl.rules[..i], before) == Repaired(before.rules + rules, seen', renames')
      {
        var rule := tmpl.rules[i];
        var id := IdFor(rule, seen');
        RepairSnoc(tmpl.rules, i, before);
        StepIs(before.rules, rules, seen', renames', rule, id);
        if id != rule.id {
          renames' := renames' + [(rule.id, id)];
        }
        seen' := seen' + {id};
        rules := rules + [rule.(id := id)];
      }
      assert tmpl.rules[..|tmpl.rules|] == tmpl.rules;
      tmpl' := tmpl.(rules := rules);
    }

    static method RepairTemplates(templates: seq<Template>, seen: set<string>, renames: seq<(string, string)>,
                                  ghost before: Repaired)
      returns (templates': seq<Template>, seen': set<string>, renames': seq<(string, string)>)
      requires before.seen == seen && before.renames == renames
      ensures RepairRules(FlatRules(templates), before)
        == Repaired(before.rules + FlatRules(templates'), seen', renames')
      ensures SameButRules(templates, templates')
    {
      templates', seen', renames' := [], seen, renames;
      assert before.rules + FlatRules([]) == before.rules;
      for t := 0 to |templates|
        invariant SameButRules(templates[..t], templates')
        invariant RepairRules(FlatRules(templates[..t]), before)
          == Repaired(before.rules + FlatRules(templates'), seen', renames')
      {
        ghost var so := Repaired(before.rules + FlatRules(templates'), seen', renames');
        var tmpl, seenNow, renamesNow := RepairTemplate(templates[t], seen', renames', so);
        FlatSnoc(templates, t);
        RepairRest(FlatRules(templates[..t]), templates[t].rules, before);
        FlatJoin(before.rules, templates', tmpl);
        SameSnoc(templates, templates', tmpl);
        templates', seen', renames' := templates' + [tmpl], seenNow, renamesNow;
      }
      assert templates[..|templates|] == templates;
    }

    /** Baseline first, then the templates in order. */
    method DeduplicateRuleIds() returns (renames: seq<(string, string)>)
      modifies this
      ensures bundle == old(bundle).(baseline := bundle.baseline, templates := bundle.templates)
      ensures bundle.baseline.name == old(bundle).baseline.name
      ensures |bundle.baseline.rules| == |old(bundle).baseline.rules|
      ensures SameButRules(old(bundle).templates, bundle.templates)
      ensures AllRules(bundle) == Repair(AllRules(old(bundle))).rules
      ensures renames == Repair(AllRules(old(bundle))).renames
    {
      var baseline, seen, first := RepairTemplate(bundle.baseline, {}, [], NOTHING);
      assert [] + baseline.rules == baseline.rules;
      var templates, all, both := RepairTemplates(bundle.templates, seen, first, Repaired(baseline.rules, seen, first));
      RepairRest(bundle.baseline.rules, FlatRules(bundle.templates), NOTHING);
      bundle := bundle.(baseline := baseline, templates := templates);
      renames := both;
    }
  }

  /** Only rule ids may differ: names, order and lengths are kept. */
  ghost predicate SameButRules(templates: seq<Template>, templates': seq<Template>) {
    && |templates| == |templates'|
    && forall t | 0 <= t < |templates| ::
         templates'[t].name == templates[t].name && |templates'[t].rules| == |templates[t].rules|
  }

  lemma SameSnoc(templates: seq<Template>, templates': seq<Template>, tmpl: Template)
    requires |templates'| < |templates| && SameButRules(templates[..|templates'|], templates')
    requires tmpl.name == templates[|templates'|].name && |tmpl.rules| == |templates[|templates'|].rules|
    ensures SameButRules(templates[..|templates'| + 1], templates' + [tmpl])
  {
    assert forall t | 0 <= t < |templates'| :: templates[..|templates'|][t] == templates[t];
  }

  // ----- what repair does -----

  ghost predicate DistinctIds(rules: seq<Rule>) {
    forall i, j | 0 <= i < j < |rules| :: rules[i].id != rules[j].id
  }

  /** A rule keeps its id exactly when the id is not empty and no earlier rule ends up with it. */
  ghost predicate KeepsId(rules: seq<Rule>, repaired: seq<Rule>, i: nat)
    requires i < |rules| && i < |repaired|
  {
    rules[i].id != "" && rules[i].id !in IdSet(repaired[..i])
  }

  function Changes(rules: seq<Rule>, repaired: seq<Rule>): seq<(string, string)>
    requires |rules| == |repaired|
  {
    if rules == [] then []
    else
      var n := |rules| - 1;
      var front := Changes(rules[..n], repaired[..n]);
      if rules[n].id == repaired[n].id then front else front + [(rules[n].id, repaired[n].id)]
  }

  lemma IdSetSnoc(rules: seq<Rule>, rule: Rule)
    ensures IdSet(rules + [rule]) == IdSet(rules) + {rule.id}
  {
    assert forall r :: r in rules + [rule] <==> r in rules || r == rule;
  }

  lemma InIdSet(rules: seq<Rule>, id: string)
    ensures id in IdSet(rules) <==> exists j | 0 <= j < |rules| :: rules[j].id == id
  {
    if id in IdSet(rules) {
      var rule :| rule in rules && rule.id == id;
      var j :| 0 <= j < |rules| && rules[j] == rule;
    }
  }

  ghost predicate OnlyIdsChange(rules: seq<Rule>, repaired: seq<Rule>) {
    && |repaired| == |rules|
    && forall i | 0 <= i < |rules| :: repaired[i].id != "" && repaired[i] == rules[i].(id := repaired[i].id)
  }

  ghost predicate KeepsIds(rules: seq<Rule>, repaired: seq<Rule>)
    requires |repaired| == |rules|
  {
    forall i | 0 <= i < |rules| :: repaired[i].id == rules[i].id <==> KeepsId(rules, repaired, i)
  }

  /** All ids are non-empty and distinct, `seen` is exactly the ids given out, nothing but ids has
      changed, a rule keeps its id exactly when it is not empty and no earlier rule ends up with it, and
      the renames list exactly the changes. */
  ghost predicate RepairedOk(rules: seq<Rule>, r: Repaired) {
    && OnlyIdsChange(rules, r.rules)
    && r.seen == IdSet(r.rules)
    && DistinctIds(r.rules)
    && KeepsIds(rules, r.rules)
    && r.renames == Changes(rules, r.rules)
  }

  lemma ExtendDistinct(front: seq<Rule>, rule: Rule)
    requires DistinctIds(front) && rule.id !in IdSet(front)
    ensures DistinctIds(front + [rule])
  {
    InIdSet(front, rule.id);
  }

  lemma ExtendKeeps(rules: seq<Rule>, front: seq<Rule>, last: Rule)
    requires |rules| == |front| + 1 && KeepsIds(rules[..|front|], front)
    requires last.id == rules[|front|].id <==> rules[|front|].id != "" && rules[|front|].id !in IdSet(front)
    ensures KeepsIds(rules, front + [last])
  {
    var n, repaired := |front|, front + [last];
    assert repaired[..n] == front;
    forall i | 0 <= i < n
      ensures repaired[i].id == rules[i].id <==> KeepsId(rules, repaired, i)
    {
      assert rules[..n][i] == rules[i] && repaired[i] == front[i] && repaired[..i] == front[..i];
      assert KeepsId(rules[..n], front, i) <==> KeepsId(rules, repaired, i);
    }
  }

  lemma ExtendRepaired(rules: seq<Rule>, front: Repaired, id: string)
    requires rules != [] && RepairedOk(rules[..|rules| - 1], front)
    requires id != "" && id !in front.seen
    requires id == rules[|rules| - 1].id <==> rules[|rules| - 1].id != "" && rules[|rules| - 1].id !in front.seen
    ensures var rule := rules[|rules| - 1];
      RepairedOk(rules, Repaired(front.rules + [rule.(id := id)], front.seen + {id},
           if id == rule.id then front.renames else front.renames + [(rule.id, id)]))
  {
    var n := |rules| - 1;
    var last := rules[n].(id := id);
    ExtendDistinct(front.rules, last);
    ExtendKeeps(rules, front.rules, last);
    IdSetSnoc(front.rules, last);
    assert (front.rules + [last])[..n] == front.rules;
  }

  lemma {:induction false} RepairIsOk(rules: seq<Rule>)
    ensures RepairedOk(rules, Repair(rules))
  {
    if rules != [] {
      var front := Repair(rules[..|rules| - 1]);
      RepairIsOk(rules[..|rules| - 1]);
      ExtendRepaired(rules, front, NewId(front.seen, rules[|rules| - 1]));
    }
  }

  // ----- what can be told before the repair -----

  /** The rule's generated id, or that with a suffix. */
  ghost predicate GeneratedFor(rule: Rule, id: string) {
    id == BaseId(rule) || exists k: nat :: 2 <= k && id == Candidate(BaseId(rule), k)
  }

  ghost predicate HeldBefore(rules: seq<Rule>, i: nat)
    requires i < |rules|
  {
    exists k | 0 <= k < i :: rules[k].id == rules[i].id
  }

  /** The id is empty, or held by an earlier rule, or one that an earlier rule might be given. */
  ghost predicate MayBeRenamed(rules: seq<Rule>, i: nat)
    requires i < |rules|
    decreases i
  {
    rules[i].id == "" || HeldBefore(rules, i)
    || exists k | 0 <= k < i :: MayBeRenamed(rules, k) && GeneratedFor(rules[k], rules[i].id)
  }

  lemma {:induction false} RenamedIsGenerated(rules: seq<Rule>, k: nat)
    requires k < |rules|
    ensures var repaired := Repair(rules).rules;
      |repaired| == |rules| && (repaired[k].id == rules[k].id || GeneratedFor(rules[k], repaired[k].id))
  {
    var n := |rules| - 1;
    var seen := RepairedLast(rules);
    if k < n {
      RenamedIsGenerated(rules[..n], k);
      assert rules[..n][k] == rules[k];
    } else {
      NewIsGenerated(seen, rules[n]);
    }
  }

  lemma RepairLength(rules: seq<Rule>)
    ensures |Repair(rules).rules| == |rules|
  {
    RepairIsOk(rules);
  }

  lemma RepairedLast(rules: seq<Rule>) returns (seen: set<string>)
    requires rules != []
    ensures var n, front, repaired := |rules| - 1, Repair(rules[..|rules| - 1]).rules, Repair(rules).rules;
      && |front| == n && |repaired| == n + 1 && repaired[n].id == NewId(seen, rules[n])
      && forall k | 0 <= k < n :: repaired[k] == front[k]
  {
    var front := Repair(rules[..|rules| - 1]);
    RepairLength(rules[..|rules| - 1]);
    LastRepaired(front, rules[|rules| - 1]);
    seen := front.seen;
  }

  lemma LastRepaired(before: Repaired, rule: Rule)
    ensures var after := RepairStep(before, rule).rules;
      && |after| == |before.rules| + 1 && after[|before.rules|].id == NewId(before.seen, rule)
      && forall k | 0 <= k < |before.rules| :: after[k] == before.rules[k]
  {
  }

  lemma NewIsGenerated(seen: set<string>, rule: Rule)
    ensures NewId(seen, rule) == rule.id || GeneratedFor(rule, NewId(seen, rule))
  {
  }

  lemma EndsWith(rules: seq<Rule>, i: nat, id: string)
    requires i <= |rules|
    ensures id in IdSet(rules[..i]) <==> exists k | 0 <= k < i :: rules[k].id == id
  {
    InIdSet(rules[..i], id);
    if k :| 0 <= k < i && rules[k].id == id {
      assert rules[..i][k] == rules[k];
    }
  }

  /** Only a first holder of a non-empty id can keep it. */
  lemma KeepsOnlyFirst(rules: seq<Rule>, i: nat)
    requires i < |rules|
    ensures |Repair(rules).rules| == |rules|
    ensures Repair(rules).rules[i].id == rules[i].id ==> rules[i].id != "" && !HeldBefore(rules, i)
  {
    RepairIsOk(rules);
    var repaired, id := Repair(rules).rules, rules[i].id;
    if k :| id != "" && 0 <= k < i && rules[k].id == id {
      EndsWith(repaired, k, id);
      EndsWith(repaired, i, id);
      assert repaired[k].id == rules[k].id <==> KeepsId(rules, repaired, k);
      assert id in IdSet(repaired[..i]);
    }
    assert repaired[i].id == rules[i].id <==> KeepsId(rules, repaired, i);
  }

  /** A rule of which it can be told beforehand that it is no candidate for renaming keeps its id. */
  lemma {:induction false} KeepsUnlessMayBeRenamed(rules: seq<Rule>, i: nat)
    requires i < |rules| && !MayBeRenamed(rules, i)
    ensures |Repair(rules).rules| == |rules| && Repair(rules).rules[i].id == rules[i].id
    decreases i
  {
    RepairIsOk(rules);
    var repaired, id := Repair(rules).rules, rules[i].id;
    forall k | 0 <= k < i
      ensures repaired[k].id != id
    {
      RenamedIsGenerated(rules, k);
      if !MayBeRenamed(rules, k) {
        KeepsUnlessMayBeRenamed(rules, k);
      }
    }
    EndsWith(repaired, i, id);
    assert repaired[i].id == rules[i].id <==> KeepsId(rules, repaired, i);
  }

  /** A second repair renames nothing. */
  lemma RepairTwice(rules: seq<Rule>)
    ensures Repair(Repair(rules).rules).rules == Repair(rules).rules
    ensures Repair(Repair(rules).rules).renames == []
  {
    RepairIsOk(rules);
    CleanIsKept(Repair(rules).rules);
  }

  lemma {:induction false} CleanIsKept(rules: seq<Rule>)
    requires DistinctIds(rules) && forall i | 0 <= i < |rules| :: rules[i].id != ""
    ensures Repair(rules) == Repaired(rules, IdSet(rules), [])
  {
    if rules != [] {
      var n := |rules| - 1;
      var front, last := rules[..n], rules[n];
      CleanIsKept(front);
      InIdSet(front, last.id);
      IdSetSnoc(front, last);
      assert rules == front + [last] && last.(id := last.id) == last;
      assert Repair(rules) == RepairStep(Repair(front), last);
    }
  }

  lemma RepairOne(x: Rule, before: Repaired)
    ensures RepairRules([x], before) == RepairStep(before, x)
  {
    assert [x][..0] == [];
  }

  lemma DedupOfThree(x: Rule, y: Rule, z: Rule)
    ensures Repair([x, y, z]) == RepairStep(RepairStep(RepairStep(NOTHING, x), y), z)
  {
    RepairRest([x, y], [z], NOTHING);
    RepairRest([x], [y], NOTHING);
    assert [x, y] + [z] == [x, y, z] && [x] + [y] == [x, y];
    RepairOne(x, NOTHING);
    RepairOne(y, Repair([x]));
    RepairOne(z, Repair([x, y]));
  }

  /** The first rule holding an id need not keep it: a rule repaired before it may have been given the
      id. Whatever rule x is, with its generated id X twice and then X-2, the third rule held X-2 alone
      and loses it. */
  lemma FirstHolderMayLose(x: Rule, z: Rule)
    requires x.id == BaseId(x) && z.id == Candidate(BaseId(x), 2)
    ensures z.id != x.id
    ensures |Repair([x, x, z]).rules| == 3
    ensures Repair([x, x, z]).rules[1].id == z.id && Repair([x, x, z]).rules[2].id != z.id
  {
    CandidatesDiffer(x.id, 2, 2);
    DedupOfThree(x, x, z);
    FirstTwo(x);
    LastRepaired(RepairStep(RepairStep(NOTHING, x), x), z);
  }

  lemma FirstTwo(x: Rule)
    requires x.id == BaseId(x)
    ensures var two := RepairStep(RepairStep(NOTHING, x), x);
      |two.rules| == 2 && two.rules[1].id == Candidate(x.id, 2) && Candidate(x.id, 2) in two.seen
  {
    assert RepairStep(NOTHING, x) == Repaired([x], {x.id}, []);
    SecondTryIsFree(x.id);
    LastRepaired(Repaired([x], {x.id}, []), x);
  }

  lemma SecondTryIsFree(base: string)
    ensures FreeId({base}, base) == Candidate(base, 2)
  {
    var k: nat :| 2 <= k <= |{base}| + 1 && FreeId({base}, base) == Candidate(base, k);
    assert k == 2;
  }

  // ----- the rules that apply to a host -----

  function FirstById(rules: seq<Rule>): seq<Rule> {
    if rules == [] then []
    else
      var n := |rules| - 1;
      var front := FirstById(rules[..n]);
      if rules[n].id in IdSet(front) then front else front + [rules[n]]
  }

  /** The first template of that name, if any. */
  function RulesNamed(templates: seq<Template>, name: string): seq<Rule> {
    if templates == [] then []
    else if templates[0].name == name then templates[0].rules
    else RulesNamed(templates[1..], name)
  }

  function AssignedRules(templates: seq<Template>, names: seq<string>): seq<Rule> {
    if names == [] then []
    else AssignedRules(templates, names[..|names| - 1]) + RulesNamed(templates, names[|names| - 1])
  }

  function RulesFor(bundle: TemplateBundle, hostId: HostId): seq<Rule> {
    FirstById(bundle.baseline.rules
      + if hostId in bundle.assignments then AssignedRules(bundle.templates, bundle.assignments[hostId]) else [])
  }

  lemma FirstByIdSnoc(before: seq<Rule>, rules: seq<Rule>, i: nat)
    requires i < |rules|
    ensures var front := FirstById(before + rules[..i]);
      FirstById(before + rules[..i + 1]) == if rules[i].id in IdSet(front) then front else front + [rules[i]]
  {
    assert (before + rules[..i + 1])[..|before| + i] == before + rules[..i];
  }

  /** The lambda in rules_for: adds the rules whose ids are new. */
  method AppendRules(rules: seq<Rule>, result: seq<Rule>, seen: set<string>, ghost before: seq<Rule>)
    returns (result': seq<Rule>, seen': set<string>)
    requires result == FirstById(before) && seen == IdSet(result)
    ensures result' == FirstById(before + rules) && seen' == IdSet(result')
  {
    result', seen' := result, seen;
    assert before + rules[..0] == before;
    for i := 0 to |rules|
      invariant result' == FirstById(before + rules[..i]) && seen' == IdSet(result')
    {
      FirstByIdSnoc(before, rules, i);
      IdSetSnoc(result', rules[i]);
      if rules[i].id !in seen' {
        seen' := seen' + {rules[i].id};
        result' := result' + [rules[i]];
      }
    }
    assert rules[..|rules|] == rules;
  }

  method LocateTemplate(templates: seq<Template>, name: string) returns (rules: seq<Rule>)
    ensures rules == RulesNamed(templates, name)
  {
    var i := 0;
    while i < |templates| && templates[i].name != name
      invariant i <= |templates|
      invariant RulesNamed(templates, name) == RulesNamed(templates[i..], name)
    {
      i := i + 1;
    }
    return if i < |templates| then templates[i].rules else [];
  }

  function Applicable(bundle: TemplateBundle, names: seq<string>): seq<Rule> {
    bundle.baseline.rules + AssignedRules(bundle.templates, names)
  }

  lemma ApplicableStep(bundle: TemplateBundle, names: seq<string>, i: nat)
    requires i < |names|
    ensures Applicable(bundle, names[..i + 1])
      == Applicable(bundle, names[..i]) + RulesNamed(bundle.templates, names[i])
  {
    assert names[..i + 1][..i] == names[..i];
  }

  method CollectRules(bundle: TemplateBundle, hostId: HostId) returns (result: seq<Rule>)
    ensures result == RulesFor(bundle, hostId)
  {
    var seen: set<string>;
    result, seen := AppendRules(bundle.baseline.rules, [], {}, []);
    assert [] + bundle.baseline.rules == bundle.baseline.rules + [];
    if hostId !in bundle.assignments {
      return;
    }
    var names := bundle.assignments[hostId];
    for i := 0 to |names|
      invariant result == FirstById(Applicable(bundle, names[..i])) && seen == IdSet(result)
    {
      ApplicableStep(bundle, names, i);
      var rules := LocateTemplate(bundle.templates, names[i]);
      result, seen := AppendRules(rules, result, seen, Applicable(bundle, names[..i]));
    }
    assert names[..|names|] == names;
  }

  /** Every id of the list survives exactly once. */
  lemma {:induction false} FirstByIdKeepsIds(rules: seq<Rule>)
    ensures IdSet(FirstById(rules)) == IdSet(rules) && DistinctIds(FirstById(rules))
  {
    if rules != [] {
      var n := |rules| - 1;
      FirstByIdKeepsIds(rules[..n]);
      var front := FirstById(rules[..n]);
      IdSetSnoc(rules[..n], rules[n]);
      IdSetSnoc(front, rules[n]);
      InIdSet(front, rules[n].id);
      assert rules == rules[..n] + [rules[n]];
    }
  }

  ghost predicate FirstHolder(rules: seq<Rule>, k: nat) {
    k < |rules| && forall j | 0 <= j < k :: rules[j].id != rules[k].id
  }

  /** Of the rules sharing an id the first wins. */
  lemma {:induction false} FirstByIdKeepsFirst(rules: seq<Rule>, k: nat)
    requires k < |rules| && FirstHolder(rules, k)
    ensures rules[k] in FirstById(rules)
  {
    var n := |rules| - 1;
    if k < n {
      assert FirstHolder(rules[..n], k);
      FirstByIdKeepsFirst(rules[..n], k);
    } else {
      FirstByIdKeepsIds(rules[..n]);
      InIdSet(rules[..n], rules[n].id);
    }
  }

  lemma {:induction false} FirstByIdAddsNone(rules: seq<Rule>, rule: Rule)
    ensures rule in FirstById(rules) ==> rule in rules
  {
    if rules != [] {
      FirstByIdAddsNone(rules[..|rules| - 1], rule);
      assert rules == rules[..|rules| - 1] + [rules[|rules| - 1]];
    }
  }

  lemma {:induction false} NamedIsListed(templates: seq<Template>, name: string, rule: Rule)
    requires rule in RulesNamed(templates, name)
    ensures rule in FlatRules(templates)
  {
    if templates[0].name == name {
      InFlat(templates, 0, rule);
    } else {
      NamedIsListed(templates[1..], name, rule);
      var t := FromFlat(templates[1..], rule);
      InFlat(templates, t + 1, rule);
    }
  }

  lemma {:induction false} InFlat(templates: seq<Template>, t: nat, rule: Rule)
    requires t < |templates| && rule in templates[t].rules
    ensures rule in FlatRules(templates)
  {
    if t < |templates| - 1 {
      InFlat(templates[..|templates| - 1], t, rule);
    }
  }

  lemma {:induction false} FromFlat(templates: seq<Template>, rule: Rule) returns (t: nat)
    requires rule in FlatRules(templates)
    ensures t < |templates| && rule in templates[t].rules
  {
    if rule in templates[|templates| - 1].rules {
      t := |templates| - 1;
    } else {
      t := FromFlat(templates[..|templates| - 1], rule);
    }
  }

  lemma {:induction false} AssignedIsListed(templates: seq<Template>, names: seq<string>, rule: Rule)
    ensures rule in AssignedRules(templates, names) <==>
      exists name | name in names :: rule in RulesNamed(templates, name)
    ensures rule in AssignedRules(templates, names) ==> rule in FlatRules(templates)
  {
    if names != [] {
      var last := names[|names| - 1];
      AssignedIsListed(templates, names[..|names| - 1], rule);
      assert names == names[..|names| - 1] + [last];
      if rule in RulesNamed(templates, last) {
        NamedIsListed(templates, last, rule);
      }
    }
  }

  /** When all ids of a bundle are distinct, as they are after repair, the merge drops no rule of the
      baseline or of an assigned template, and adds none. */
  lemma MergeDropsNothing(bundle: TemplateBundle, hostId: HostId, rule: Rule)
    requires DistinctIds(AllRules(bundle))
    ensures rule in RulesFor(bundle, hostId) <==>
      rule in bundle.baseline.rules
      || (hostId in bundle.assignments && exists name | name in bundle.assignments[hostId] ::
        rule in RulesNamed(bundle.templates, name))
  {
    var names := if hostId in bundle.assignments then bundle.assignments[hostId] else [];
    var list := bundle.baseline.rules + AssignedRules(bundle.templates, names);
    FirstByIdKeepsIds(list);
    FirstByIdAddsNone(list, rule);
    AssignedIsListed(bundle.templates, names, rule);
    if rule in list {
      assert rule.id in IdSet(FirstById(list));
      var other :| other in FirstById(list) && other.id == rule.id;
      FirstByIdAddsNone(list, other);
      AssignedIsListed(bundle.templates, names, other);
      UniqueById(AllRules(bundle), rule, other);
    }
  }

  lemma UniqueById(rules: seq<Rule>, a: Rule, b: Rule)
    requires DistinctIds(rules) && a in rules && b in rules && a.id == b.id
    ensures a == b
  {
    var i :| 0 <= i < |rules| && rules[i] == a;
    var j :| 0 <= j < |rules| && rules[j] == b;
    assert i == j;
  }
}
