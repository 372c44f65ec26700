/** Delegation policies: building one (`DelegationPolicy.create`,
    src/seed_society/domain.py) and applying it (`DelegationPolicyEvaluator.decide`,
    src/seed_society/a2a_governance.py). */
module Policy {
  import opened Domain

  const SECONDS_PER_HOUR := 3600

  /** The limits a rule grants and a decision records; the timeout is in whole seconds. */
  datatype Limits = Limits(maxRequestBytes: int, maxResultBytes: int, maxPolls: int, totalTimeout: int)
  {
    predicate Positive() {
      maxRequestBytes >= 1 && maxResultBytes >= 1 && maxPolls >= 1 && totalTimeout >= 1
    }

    predicate AtMost(other: Limits) {
      && maxRequestBytes <= other.maxRequestBytes && maxResultBytes <= other.maxResultBytes
      && maxPolls <= other.maxPolls && totalTimeout <= other.totalTimeout
    }
  }

  /** The limits an executor is configured with (`A2ALimits`). */
  datatype RuntimeLimits = RuntimeLimits(
    requestTimeout: real,
    totalTimeout: real,
    maxRequestBytes: int,
    maxResponseBytes: int,
    maxResultBytes: int,
    maxPolls: int,
    pollInterval: real)
  {
    /** What the evaluator demands of them. */
    predicate Acceptable() {
      maxRequestBytes >= 1 && maxResultBytes >= 1 && maxPolls >= 1 && totalTimeout >= 1.0
    }

    predicate AtMost(other: RuntimeLimits) {
      && requestTimeout <= other.requestTimeout && totalTimeout <= other.totalTimeout
      && maxRequestBytes <= other.maxRequestBytes && maxResponseBytes <= other.maxResponseBytes
      && maxResultBytes <= other.maxResultBytes && maxPolls <= other.maxPolls
      && pollInterval <= other.pollInterval
    }

    /** No grant of `granted` is exceeded. */
    predicate Within(granted: Limits) {
      && requestTimeout <= granted.totalTimeout as real && totalTimeout <= granted.totalTimeout as real
      && maxRequestBytes <= granted.maxRequestBytes && maxResultBytes <= granted.maxResultBytes
      && maxPolls <= granted.maxPolls
    }
  }

  function Min(a: int, b: int): int {
    if b < a then b else a
  }

  function MinReal(a: real, b: real): real {
    if b < a then b else a
  }

  /** A normalised rule: its lists are sets, its limits positive. */
  datatype Rule = Rule(
    ruleId: Id,
    taskTypes: set<Id>,
    agentIds: set<Id>,
    cards: set<Id>,
    contexts: set<Id>,
    limits: Limits,
    requiredKinds: seq<Id>,
    maxAgeHours: int)
  {
    predicate Matches(taskType: Id, agentId: Id, card: Id) {
      taskType in taskTypes && agentId in agentIds && card in cards
    }

    /** The pairwise test of `create`. */
    predicate Overlaps(other: Rule) {
      taskTypes * other.taskTypes != {} && agentIds * other.agentIds != {} && cards * other.cards != {}
    }
  }

  /** The pairwise test finds exactly the pairs with a common triple. */
  lemma OverlapIsCommonTriple(a: Rule, b: Rule)
    ensures a.Overlaps(b) <==> exists t, g, c :: a.Matches(t, g, c) && b.Matches(t, g, c)
  {
    if a.Overlaps(b) {
      var t :| t in a.taskTypes * b.taskTypes;
      var g :| g in a.agentIds * b.agentIds;
      var c :| c in a.cards * b.cards;
      assert a.Matches(t, g, c) && b.Matches(t, g, c);
    }
    if t, g, c :| a.Matches(t, g, c) && b.Matches(t, g, c) {
      assert t in a.taskTypes * b.taskTypes && g in a.agentIds * b.agentIds && c in a.cards * b.cards;
    }
  }

  // ---------------------------------------------------------------- building a policy

  predicate ById(rules: seq<Rule>) {
    forall i, j :: 0 <= i < j < |rules| ==> rules[i].ruleId <= rules[j].ruleId
  }

  predicate DistinctIds(rules: seq<Rule>) {
    forall i, j :: 0 <= i < j < |rules| ==> rules[i].ruleId != rules[j].ruleId
  }

  /** Two different rules answer for the same triple. */
  ghost predicate MatchedTwice(rules: seq<Rule>, t: Id, g: Id, c: Id) {
    exists a, b :: a in rules && b in rules && a != b && a.Matches(t, g, c) && b.Matches(t, g, c)
  }

  ghost predicate Unambiguous(rules: seq<Rule>) {
    forall t, g, c :: !MatchedTwice(rules, t, g, c)
  }

  function Insert(sorted: seq<Rule>, r: Rule): seq<Rule> {
    if sorted == [] || r.ruleId < sorted[0].ruleId then [r] + sorted
    else [sorted[0]] + Insert(sorted[1..], r)
  }

  lemma {:induction false} InsertAdds(sorted: seq<Rule>, r: Rule)
    ensures multiset(Insert(sorted, r)) == multiset(sorted) + multiset{r}
  {
    if sorted != [] && r.ruleId >= sorted[0].ruleId {
      InsertAdds(sorted[1..], r);
      assert sorted == [sorted[0]] + sorted[1..];
    }
  }

  lemma ByIdCons(first: Rule, rest: seq<Rule>)
    requires ById(rest) && forall r :: r in rest ==> first.ruleId <= r.ruleId
    ensures ById([first] + rest)
  {
  }

  lemma FirstIsLeast(sorted: seq<Rule>, r: Rule)
    requires ById(sorted) && r in sorted
    ensures sorted[0].ruleId <= r.ruleId
  {
  }

  lemma InsertHolds(sorted: seq<Rule>, r: Rule, x: Rule)
    ensures x in Insert(sorted, r) <==> x in sorted || x == r
  {
    InsertAdds(sorted, r);
    assert x in Insert(sorted, r) <==> x in multiset(Insert(sorted, r));
    assert x in sorted <==> x in multiset(sorted);
  }

  lemma {:induction false} InsertSorts(sorted: seq<Rule>, r: Rule)
    requires ById(sorted)
    ensures ById(Insert(sorted, r))
  {
    if sorted == [] || r.ruleId < sorted[0].ruleId {
      forall x | x in sorted ensures r.ruleId <= x.ruleId {
        FirstIsLeast(sorted, x);
      }
      ByIdCons(r, sorted);
    } else {
      var rest := sorted[1..];
      InsertSorts(rest, r);
      forall x | x in Insert(rest, r) ensures sorted[0].ruleId <= x.ruleId {
        InsertHolds(rest, r, x);
      }
      ByIdCons(sorted[0], Insert(rest, r));
    }
  }

  /** `sorted(rules, key=rule_id)`: Python's sort is stable, and so is this one. */
  function SortById(rules: seq<Rule>): seq<Rule> {
    if rules == [] then [] else Insert(SortById(rules[..|rules| - 1]), rules[|rules| - 1])
  }

  lemma {:induction false} SortByIdAdds(rules: seq<Rule>)
    ensures multiset(SortById(rules)) == multiset(rules)
  {
    if rules != [] {
      var init, last := rules[..|rules| - 1], rules[|rules| - 1];
      SortByIdAdds(init);
      InsertAdds(SortById(init), last);
      assert rules == init + [last];
    }
  }

  lemma {:induction false} SortByIdSorts(rules: seq<Rule>)
    ensures ById(SortById(rules)) && multiset(SortById(rules)) == multiset(rules)
  {
    SortByIdAdds(rules);
    if rules != [] {
      SortByIdSorts(rules[..|rules| - 1]);
      InsertSorts(SortById(rules[..|rules| - 1]), rules[|rules| - 1]);
    }
  }

  lemma SameElements(a: seq<Rule>, b: seq<Rule>)
    requires multiset(a) == multiset(b)
    ensures |a| == |b| && forall r :: r in a <==> r in b
  {
    assert |a| == |multiset(a)| && |b| == |multiset(b)|;
    forall r ensures r in a <==> r in b {
      assert r in a <==> r in multiset(a);
      assert r in b <==> r in multiset(b);
    }
  }

  function Ids(rules: seq<Rule>): set<Id> {
    set r <- rules :: r.ruleId
  }

  lemma DistinctIdsGrow(init: seq<Rule>, last: Rule)
    ensures Ids(init + [last]) == Ids(init) + {last.ruleId}
    ensures DistinctIds(init + [last]) <==> DistinctIds(init) && last.ruleId !in Ids(init)
  {
    var rules := init + [last];
    forall i | 0 <= i < |init| ensures rules[i] == init[i] && init[i] in init {
    }
    if last.ruleId in Ids(init) {
      var r :| r in init && r.ruleId == last.ruleId;
      var i :| 0 <= i < |init| && init[i] == r;
      assert rules[i].ruleId == rules[|init|].ruleId;
    }
    if DistinctIds(rules) {
      forall i, j | 0 <= i < j < |init| ensures init[i].ruleId != init[j].ruleId {
        assert rules[i].ruleId != rules[j].ruleId;
      }
    }
  }

  /** The size test of `create` is pairwise distinctness. */
  lemma {:induction false} DistinctIdsBySize(rules: seq<Rule>)
    ensures |Ids(rules)| <= |rules|
    ensures |Ids(rules)| == |rules| <==> DistinctIds(rules)
  {
    if rules != [] {
      var init, last := rules[..|rules| - 1], rules[|rules| - 1];
      DistinctIdsBySize(init);
      DistinctIdsGrow(init, last);
      assert rules == init + [last];
    }
  }

  lemma SortedKeepsDistinctIds(rules: seq<Rule>, sorted: seq<Rule>)
    requires multiset(rules) == multiset(sorted)
    ensures DistinctIds(rules) <==> DistinctIds(sorted)
  {
    SameElements(rules, sorted);
    assert Ids(rules) == Ids(sorted);
    DistinctIdsBySize(rules);
    DistinctIdsBySize(sorted);
  }

  ghost predicate PairwiseDisjoint(rules: seq<Rule>) {
    forall i, j :: 0 <= i < j < |rules| ==> !rules[i].Overlaps(rules[j])
  }

  lemma PairwiseIsUnambiguous(rules: seq<Rule>)
    requires DistinctIds(rules)
    ensures PairwiseDisjoint(rules) <==> Unambiguous(rules)
  {
    if PairwiseDisjoint(rules) {
      forall t, g, c ensures !MatchedTwice(rules, t, g, c) {
        if MatchedTwice(rules, t, g, c) {
          var i, j :| 0 <= i < |rules| && 0 <= j < |rules| && i != j && rules[i].Matches(t, g, c)
            && rules[j].Matches(t, g, c);
          OverlapIsCommonTriple(rules[i], rules[j]);
        }
      }
    }
    if Unambiguous(rules) {
      forall i, j | 0 <= i < j < |rules| ensures !rules[i].Overlaps(rules[j]) {
        OverlapIsCommonTriple(rules[i], rules[j]);
        if t, g, c :| rules[i].Matches(t, g, c) && rules[j].Matches(t, g, c) {
          assert MatchedTwice(rules, t, g, c);
        }
      }
    }
  }

  /** `DelegationPolicy.create` on rules that passed their own checks. */
  method CreatePolicy(rules: seq<Rule>) returns (policy: Result<seq<Rule>>)
    ensures policy.Ok? <==> rules != [] && DistinctIds(rules) && Unambiguous(rules)
    ensures policy.Ok? ==> ById(policy.value) && multiset(policy.value) == multiset(rules)
    ensures policy.Ok? ==> DistinctIds(policy.value) && Unambiguous(policy.value)
  {
    var sorted := SortById(rules);
    SortByIdSorts(rules);
    SameElements(rules, sorted);
    if sorted == [] {
      return Err(InvalidValue);
    }
    SortedKeepsDistinctIds(rules, sorted);
    DistinctIdsBySize(sorted);
    if |Ids(sorted)| != |sorted| {
      return Err(InvalidValue);
    }
    PairwiseIsUnambiguous(sorted);
    SameAmbiguity(rules, sorted);
    var disjoint := Disjoint(sorted);
    policy := if disjoint then Ok(sorted) else Err(InvalidValue);
  }

  /** The nested loop over pairs of rules. */
  method Disjoint(rules: seq<Rule>) returns (ok: bool)
    ensures ok <==> PairwiseDisjoint(rules)
  {
    for i := 0 to |rules|
      invariant forall k, j :: 0 <= k < i && k < j < |rules| ==> !rules[k].Overlaps(rules[j])
    {
      for j := i + 1 to |rules|
        invariant forall m :: i < m < j ==> !rules[i].Overlaps(rules[m])
      {
        if rules[i].Overlaps(rules[j]) {
          return false;
        }
      }
    }
    ok := true;
  }

  lemma SameAmbiguity(a: seq<Rule>, b: seq<Rule>)
    requires forall r :: r in a <==> r in b
    ensures Unambiguous(a) <==> Unambiguous(b)
  {
    forall t, g, c ensures MatchedTwice(a, t, g, c) <==> MatchedTwice(b, t, g, c) {
    }
  }

  // ---------------------------------------------------------------- applying a policy

  datatype Registration = Registration(agentId: Id, card: Id, contexts: set<Id>)

  datatype Attestation = Attestation(attestationId: Id, kind: Id, passed: bool, observedAt: Instant)

  datatype Reason =
    | NoActivePolicy | PolicyNotFound | NoMatchingRule | AmbiguousPolicyRule | ContextNotAllowed
    | MissingAttestation | FailedAttestation | StaleAttestation | PolicyAllowed

  datatype Decision = Deny(reason: Reason) | Allow(ruleId: Id, limits: Limits, evidence: seq<Id>)

  /** The rules of `policy` that answer for a triple, in policy order. */
  function Matching(policy: seq<Rule>, t: Id, g: Id, c: Id): (found: seq<Rule>)
    ensures forall r :: r in found <==> r in policy && r.Matches(t, g, c)
  {
    if policy == [] then []
    else (if policy[0].Matches(t, g, c) then [policy[0]] else []) + Matching(policy[1..], t, g, c)
  }

  predicate AnswerTogether(policy: seq<Rule>, i: int, j: int, t: Id, g: Id, c: Id) {
    0 <= i < j < |policy| && policy[i].Matches(t, g, c) && policy[j].Matches(t, g, c)
  }

  lemma {:induction false} TwoMatches(policy: seq<Rule>, t: Id, g: Id, c: Id) returns (i: int, j: int)
    requires |Matching(policy, t, g, c)| > 1
    ensures AnswerTogether(policy, i, j, t, g, c)
  {
    var rest := policy[1..];
    var others := Matching(rest, t, g, c);
    if policy[0].Matches(t, g, c) {
      assert others[0] in rest;
      var k :| 0 <= k < |rest| && rest[k] == others[0];
      i, j := 0, k + 1;
    } else {
      i, j := TwoMatches(rest, t, g, c);
      i, j := i + 1, j + 1;
    }
  }

  lemma TwoMatchesIsMatchedTwice(policy: seq<Rule>, t: Id, g: Id, c: Id)
    requires DistinctIds(policy) && |Matching(policy, t, g, c)| > 1
    ensures MatchedTwice(policy, t, g, c)
  {
    var i, j := TwoMatches(policy, t, g, c);
    assert policy[i] != policy[j];
  }

  /** In a policy that `create` built, no triple is answered by two rules. */
  lemma AtMostOneRuleMatches(policy: seq<Rule>, t: Id, g: Id, c: Id)
    requires DistinctIds(policy) && Unambiguous(policy)
    ensures |Matching(policy, t, g, c)| <= 1
  {
    if |Matching(policy, t, g, c)| > 1 {
      TwoMatchesIsMatchedTwice(policy, t, g, c);
    }
  }

  /** The attestation of `kind` observed last; of several, the first in the list. */
  ghost predicate IsLatest(attestations: seq<Attestation>, kind: Id, i: int) {
    && 0 <= i < |attestations| && attestations[i].kind == kind
    && (forall j :: 0 <= j < |attestations| && attestations[j].kind == kind ==>
      attestations[j].observedAt <= attestations[i].observedAt)
    && (forall j :: 0 <= j < i && attestations[j].kind == kind ==>
      attestations[j].observedAt < attestations[i].observedAt)
  }

  predicate Current(a: Attestation, now: Instant, maxAgeHours: int) {
    a.passed && now - 3600 * maxAgeHours <= a.observedAt <= now
  }

  /** The latest evidence of `kind` passed and is neither stale nor from the future. */
  ghost predicate Attested(attestations: seq<Attestation>, kind: Id, now: Instant, maxAgeHours: int) {
    exists i :: IsLatest(attestations, kind, i) && Current(attestations[i], now, maxAgeHours)
  }

  ghost predicate Satisfied(rule: Rule, registration: Registration, attestations: seq<Attestation>, now: Instant) {
    registration.contexts <= rule.contexts && AllAttested(rule, attestations, now)
  }

  ghost predicate AllAttested(rule: Rule, attestations: seq<Attestation>, now: Instant) {
    forall kind :: kind in rule.requiredKinds ==> Attested(attestations, kind, now, rule.maxAgeHours)
  }

  /** The reason for a denial is true of the first required kind without current evidence. */
  ghost predicate DenialExplained(rule: Rule, attestations: seq<Attestation>, now: Instant, reason: Reason) {
    exists k :: 0 <= k < |rule.requiredKinds| && FirstUnattested(rule, attestations, now, k)
      && ExplainedBy(rule, attestations, now, reason, rule.requiredKinds[k])
  }

  ghost predicate FirstUnattested(rule: Rule, attestations: seq<Attestation>, now: Instant, k: nat)
    requires k < |rule.requiredKinds|
  {
    && !Attested(attestations, rule.requiredKinds[k], now, rule.maxAgeHours)
    && forall m :: 0 <= m < k ==> Attested(attestations, rule.requiredKinds[m], now, rule.maxAgeHours)
  }

  ghost predicate ExplainedBy(rule: Rule, attestations: seq<Attestation>, now: Instant, reason: Reason, kind: Id) {
    match reason
    case MissingAttestation => forall a :: a in attestations ==> a.kind != kind
    case FailedAttestation => exists i :: IsLatest(attestations, kind, i) && !attestations[i].passed
    case StaleAttestation =>
      exists i :: IsLatest(attestations, kind, i) && attestations[i].passed
        && !Current(attestations[i], now, rule.maxAgeHours)
    case _ => false
  }

  /** `max(candidates, key=observed_at)` over the attestations of one kind. */
  method Latest(attestations: seq<Attestation>, kind: Id) returns (latest: Option<nat>)
    ensures latest.Some? ==> IsLatest(attestations, kind, latest.value)
    ensures latest.None? ==> forall a :: a in attestations ==> a.kind != kind
  {
    latest := None;
    for i := 0 to |attestations|
      invariant latest.Some? ==> latest.value < i && IsLatest(attestations[..i], kind, latest.value)
      invariant latest.None? ==> forall j :: 0 <= j < i ==> attestations[j].kind != kind
    {
      if attestations[i].kind == kind
         && (latest.None? || attestations[latest.value].observedAt < attestations[i].observedAt) {
        latest := Some(i);
      }
    }
    assert attestations[..|attestations|] == attestations;
  }

  lemma LatestIsUnique(attestations: seq<Attestation>, kind: Id, i: int, j: int)
    requires IsLatest(attestations, kind, i) && IsLatest(attestations, kind, j)
    ensures i == j
  {
  }

  /** What the latest attestation of one kind is worth: the reason to deny, or the
      attestation that backs the kind. */
  method Examine(rule: Rule, attestations: seq<Attestation>, now: Instant, kind: Id)
    returns (denial: Option<Reason>, id: Id)
    ensures denial.Some? ==> ExplainedBy(rule, attestations, now, denial.value, kind)
    ensures denial.Some? ==> !Attested(attestations, kind, now, rule.maxAgeHours)
    ensures denial.None? ==> Attested(attestations, kind, now, rule.maxAgeHours)
    ensures denial.None? ==> Backs(attestations, kind, now, rule.maxAgeHours, id)
  {
    var found := Latest(attestations, kind);
    if found.None? {
      return Some(MissingAttestation), 0;
    }
    var latest := attestations[found.value];
    id := latest.attestationId;
    forall i | IsLatest(attestations, kind, i) ensures i == found.value {
      LatestIsUnique(attestations, kind, i, found.value);
    }
    if !latest.passed {
      denial := Some(FailedAttestation);
    } else if latest.observedAt > now || now - latest.observedAt > SECONDS_PER_HOUR * rule.maxAgeHours {
      denial := Some(StaleAttestation);
    } else {
      denial := None;
    }
  }

  /** The loop over the kinds a rule requires. */
  method SelectEvidence(rule: Rule, attestations: seq<Attestation>, now: Instant)
    returns (denial: Option<Reason>, selected: seq<Id>)
    ensures denial.None? <==> AllAttested(rule, attestations, now)
    ensures denial.None? ==> EvidenceFor(rule, attestations, now, selected)
    ensures denial.Some? ==> DenialExplained(rule, attestations, now, denial.value)
  {
    selected := [];
    for k := 0 to |rule.requiredKinds|
      invariant |selected| == k && EvidenceSoFar(rule, attestations, now, selected)
    {
      var id;
      denial, id := Examine(rule, attestations, now, rule.requiredKinds[k]);
      if denial.Some? {
        DenialStands(rule, attestations, now, selected, denial.value);
        return;
      }
      EvidenceGrows(rule, attestations, now, selected, id);
      selected := selected + [id];
    }
    EvidenceIsComplete(rule, attestations, now, selected);
    denial := None;
  }

  lemma DenialStands(rule: Rule, attestations: seq<Attestation>, now: Instant, selected: seq<Id>, reason: Reason)
    requires EvidenceSoFar(rule, attestations, now, selected) && |selected| < |rule.requiredKinds|
    requires ExplainedBy(rule, attestations, now, reason, rule.requiredKinds[|selected|])
    requires !Attested(attestations, rule.requiredKinds[|selected|], now, rule.maxAgeHours)
    ensures !AllAttested(rule, attestations, now) && DenialExplained(rule, attestations, now, reason)
  {
    assert rule.requiredKinds[|selected|] in rule.requiredKinds;
    forall m | 0 <= m < |selected| ensures Attested(attestations, rule.requiredKinds[m], now, rule.maxAgeHours) {
      assert BacksAt(rule, attestations, now, selected, m);
    }
    assert FirstUnattested(rule, attestations, now, |selected|);
  }

  ghost predicate EvidenceSoFar(rule: Rule, attestations: seq<Attestation>, now: Instant, evidence: seq<Id>) {
    && |evidence| <= |rule.requiredKinds|
    && forall m :: 0 <= m < |evidence| ==> BacksAt(rule, attestations, now, evidence, m)
  }

  ghost predicate BacksAt(rule: Rule, attestations: seq<Attestation>, now: Instant, evidence: seq<Id>, m: nat)
    requires m < |evidence| <= |rule.requiredKinds|
  {
    Backs(attestations, rule.requiredKinds[m], now, rule.maxAgeHours, evidence[m])
  }

  lemma EvidenceGrows(rule: Rule, attestations: seq<Attestation>, now: Instant, evidence: seq<Id>, id: Id)
    requires EvidenceSoFar(rule, attestations, now, evidence) && |evidence| < |rule.requiredKinds|
    requires Backs(attestations, rule.requiredKinds[|evidence|], now, rule.maxAgeHours, id)
    ensures EvidenceSoFar(rule, attestations, now, evidence + [id])
  {
    forall m | 0 <= m < |evidence| + 1 ensures BacksAt(rule, attestations, now, evidence + [id], m) {
      if m < |evidence| {
        assert BacksAt(rule, attestations, now, evidence, m);
      }
    }
  }

  lemma EvidenceIsComplete(rule: Rule, attestations: seq<Attestation>, now: Instant, evidence: seq<Id>)
    requires EvidenceFor(rule, attestations, now, evidence)
    ensures AllAttested(rule, attestations, now)
  {
    forall kind | kind in rule.requiredKinds ensures Attested(attestations, kind, now, rule.maxAgeHours) {
      var m :| 0 <= m < |rule.requiredKinds| && rule.requiredKinds[m] == kind;
      assert BacksAt(rule, attestations, now, evidence, m);
    }
  }

  /** `min` of configuration and rule, field by field; the timeout in whole seconds. */
  function Grant(runtime: RuntimeLimits, rule: Rule): Limits {
    Limits(Min(runtime.maxRequestBytes, rule.limits.maxRequestBytes),
           Min(runtime.maxResultBytes, rule.limits.maxResultBytes),
           Min(runtime.maxPolls, rule.limits.maxPolls),
           Min(runtime.totalTimeout.Floor, rule.limits.totalTimeout))
  }

  /** Limits that exceed neither the configuration nor the rule. */
  predicate Permitted(limits: Limits, runtime: RuntimeLimits, rule: Rule) {
    && limits.AtMost(rule.limits)
    && limits.maxRequestBytes <= runtime.maxRequestBytes && limits.maxResultBytes <= runtime.maxResultBytes
    && limits.maxPolls <= runtime.maxPolls && limits.totalTimeout as real <= runtime.totalTimeout
  }

  /** A grant is the greatest of the limits that exceed neither, and usable. */
  ghost predicate Greatest(granted: Limits, runtime: RuntimeLimits, rule: Rule) {
    && (rule.limits.Positive() ==> granted.Positive()) && Permitted(granted, runtime, rule)
    && forall other :: Permitted(other, runtime, rule) ==> other.AtMost(granted)
  }

  lemma GrantIsGreatest(runtime: RuntimeLimits, rule: Rule)
    requires runtime.Acceptable()
    ensures Greatest(Grant(runtime, rule), runtime, rule)
  {
  }

  /** `DelegationPolicyEvaluator.decide`: the stored decision of the attempt
      if there is one, otherwise the verdict of the active policy. */
  method Decide(existing: Option<Decision>, activation: Option<Id>, policies: map<Id, seq<Rule>>, taskType: Id,
                registration: Registration, attestations: seq<Attestation>, now: Instant, runtime: RuntimeLimits)
    returns (r: Result<Decision>)
    ensures existing.Some? ==> r == Ok(existing.value)
    ensures existing.None? && activation.None? ==> r == Ok(Deny(NoActivePolicy))
    ensures existing.None? && activation.Some? && activation.value !in policies ==> r == Ok(Deny(PolicyNotFound))
    ensures
      existing.None? && activation.Some? && activation.value in policies ==>
        Answers(r, Matching(policies[activation.value], taskType, registration.agentId, registration.card),
                registration, attestations, now, runtime)
  {
    if existing.Some? {
      return Ok(existing.value);
    }
    if activation.None? {
      return Ok(Deny(NoActivePolicy));
    }
    if activation.value !in policies {
      return Ok(Deny(PolicyNotFound));
    }
    var matches := Matching(policies[activation.value], taskType, registration.agentId, registration.card);
    if |matches| != 1 {
      return Ok(Deny(if matches != [] then AmbiguousPolicyRule else NoMatchingRule));
    }
    var rule := matches[0];
    if !(registration.contexts <= rule.contexts) {
      return Ok(Deny(ContextNotAllowed));
    }
    var denial, selected := SelectEvidence(rule, attestations, now);
    if denial.Some? {
      return Ok(Deny(denial.value));
    }
    if !runtime.Acceptable() {
      return Err(InvalidValue);
    }
    GrantIsGreatest(runtime, rule);
    r := Ok(Allow(rule.ruleId, Grant(runtime, rule), selected));
  }

  /** The answer that the rules matching a request call for: allowed exactly when one
      rule matches and is satisfied, with the greatest limits within bounds and backed
      by evidence; unusable limits are an error only then; every denial has a true
      reason, that of the first required kind without current evidence. */
  ghost predicate Answers(r: Result<Decision>, matches: seq<Rule>, registration: Registration,
                          attestations: seq<Attestation>, now: Instant, runtime: RuntimeLimits)
  {
    var permitted := |matches| == 1 && Satisfied(matches[0], registration, attestations, now);
    var usable := runtime.maxRequestBytes > 0 && runtime.maxResultBytes > 0 && runtime.maxPolls > 0
                  && runtime.totalTimeout >= 1.0;
    && (r.Err? <==> permitted && !usable) && (r.Err? ==> r.error.InvalidValue?)
    && (r.Ok? && r.value.Allow? <==> permitted && usable)
    && (r == Ok(Deny(AmbiguousPolicyRule)) <==> |matches| > 1)
    && (r == Ok(Deny(NoMatchingRule)) <==> |matches| == 0)
    && (r == Ok(Deny(ContextNotAllowed)) <==> |matches| == 1 && !(registration.contexts <= matches[0].contexts))
    && (r.Ok? && r.value.Deny? && |matches| == 1 && registration.contexts <= matches[0].contexts ==>
          DenialExplained(matches[0], attestations, now, r.value.reason))
    && (r.Ok? && r.value.Allow? ==>
          && r.value.ruleId == matches[0].ruleId
          && Greatest(r.value.limits, runtime, matches[0])
          && EvidenceFor(matches[0], attestations, now, r.value.evidence))
  }

  /** `id` names the latest attestation of `kind`, and that one is current. */
  ghost predicate Backs(attestations: seq<Attestation>, kind: Id, now: Instant, maxAgeHours: int, id: Id) {
    exists i :: IsLatest(attestations, kind, i) && Current(attestations[i], now, maxAgeHours)
      && attestations[i].attestationId == id
  }

  /** One backing attestation for every required kind, in their order. */
  ghost predicate EvidenceFor(rule: Rule, attestations: seq<Attestation>, now: Instant, evidence: seq<Id>) {
    |evidence| == |rule.requiredKinds| && EvidenceSoFar(rule, attestations, now, evidence)
  }

  // ---------------------------------------------------------------- the limits in force

  /** `A2ARemoteExecutor._limits_from_decision`. */
  function LimitsFromDecision(runtime: RuntimeLimits, decision: Decision): (r: Result<RuntimeLimits>)
    ensures r.Ok? <==> decision.Allow?
    ensures r.Ok? ==> r.value.AtMost(runtime) && r.value.Within(decision.limits)
    ensures
      r.Ok? ==> forall other: RuntimeLimits :: other.AtMost(runtime) && other.Within(decision.limits) ==>
        other.AtMost(r.value)
  {
    if !decision.Allow? then Err(InvalidValue)
    else
      var granted := decision.limits;
      Ok(RuntimeLimits(
           MinReal(runtime.requestTimeout, granted.totalTimeout as real),
           MinReal(runtime.totalTimeout, granted.totalTimeout as real),
           Min(runtime.maxRequestBytes, granted.maxRequestBytes),
           runtime.maxResponseBytes,
           Min(runtime.maxResultBytes, granted.maxResultBytes),
           Min(runtime.maxPolls, granted.maxPolls),
           runtime.pollInterval))
  }

  /** Whatever the executor's configuration becomes after a restart, a stored
      decision keeps bounding it: the limits in force never exceed the ones
      granted, and a stored grant is never widened by being applied again. */
  lemma StoredGrantKeepsBounding(before: RuntimeLimits, now: RuntimeLimits, decision: Decision)
    requires decision.Allow? && before.AtMost(now)
    ensures LimitsFromDecision(before, decision).value.AtMost(LimitsFromDecision(now, decision).value)
    ensures LimitsFromDecision(LimitsFromDecision(now, decision).value, decision) == LimitsFromDecision(now, decision)
  {
  }
}
