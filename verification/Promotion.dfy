/** Promoting lessons from experience to knowledge: duplicate screening
    (src/seed_society/predicates.py) and the choice of candidates
    (`_promotion_candidates`, src/seed_society/consolidation.py). */
module Promotion {
  import opened Domain

  const NEAR_DUPLICATE_SCORE := 0.8
  const SIMILAR_WARN_SCORE := 0.5

  /** The token set of a seed's title and content. */
  type Words = set<Id>

  // ---------------------------------------------------------------- duplicate screening

  /** Jaccard similarity; two texts without tokens have nothing in common. */
  function Similarity(a: Words, b: Words): real {
    if a == {} || b == {} then 0.0
    else
      UnionIsNotEmpty(a, b);
      |a * b| as real / |a + b| as real
  }

  lemma UnionIsNotEmpty(a: Words, b: Words)
    requires a != {}
    ensures |a + b| > 0
  {
    var x :| x in a;
    assert x in a + b;
  }

  lemma SimilarityIsAMeasure(a: Words, b: Words)
    ensures 0.0 <= Similarity(a, b) <= 1.0
    ensures Similarity(a, b) == Similarity(b, a)
    ensures Similarity(a, b) == 1.0 <==> a == b && a != {}
    ensures Similarity(a, b) == 0.0 <==> a * b == {}
    ensures Similarity(a, b) * |a + b| as real == |a * b| as real
  {
    if a != {} && b != {} {
      UnionIsNotEmpty(a, b);
      SubsetSize(a * b, a + b);
      assert a * b == b * a && a + b == b + a;
      assert a * b == a + b <==> a == b;
      RatioBounds(|a * b|, |a + b|);
    }
  }

  lemma SubsetSize(a: Words, b: Words)
    requires a <= b
    ensures |a| <= |b| && (|a| == |b| <==> a == b)
  {
    assert b == a + (b - a);
    assert |b| == |a| + |b - a|;
  }

  lemma RatioBounds(m: nat, n: nat)
    requires m <= n && n > 0
    ensures 0.0 <= m as real / n as real <= 1.0
    ensures m as real / n as real == 1.0 <==> m == n
    ensures m as real / n as real == 0.0 <==> m == 0
  {
    var q := m as real / n as real;
    assert q * n as real == m as real;
  }

  predicate NearDuplicate(a: Words, b: Words) {
    Similarity(a, b) >= NEAR_DUPLICATE_SCORE
  }

  datatype Screening = Screening(score: real, blocked: bool, warned: bool, matched: Option<nat>)

  /** `screen_duplicate`: the first best match, and what it means. */
  method ScreenDuplicate(candidate: Words, existing: seq<Words>) returns (best: Screening)
    ensures best.blocked <==> exists i :: 0 <= i < |existing| && Similarity(candidate, existing[i]) >= 0.8
    ensures best.warned <==> exists i :: 0 <= i < |existing| && Similarity(candidate, existing[i]) >= 0.5
    ensures forall i :: 0 <= i < |existing| ==> Similarity(candidate, existing[i]) <= best.score
    ensures best.matched.Some? ==>
      best.matched.value < |existing| && Similarity(candidate, existing[best.matched.value]) == best.score
      && forall i :: 0 <= i < best.matched.value ==> Similarity(candidate, existing[i]) < best.score
    ensures best.matched.None? <==> best.score == 0.0
  {
    best := Screening(0.0, false, false, None);
    for i := 0 to |existing|
      invariant best.score >= 0.0 && (best.matched.None? <==> best.score == 0.0)
      invariant best.blocked == (best.score >= NEAR_DUPLICATE_SCORE)
        && best.warned == (best.score >= SIMILAR_WARN_SCORE)
      invariant forall j :: 0 <= j < i ==> Similarity(candidate, existing[j]) <= best.score
      invariant best.matched.Some? ==>
        best.matched.value < i && Similarity(candidate, existing[best.matched.value]) == best.score
        && forall j :: 0 <= j < best.matched.value ==> Similarity(candidate, existing[j]) < best.score
    {
      var score := Similarity(candidate, existing[i]);
      if score > best.score {
        best := Screening(score, score >= NEAR_DUPLICATE_SCORE, score >= SIMILAR_WARN_SCORE, Some(i));
      }
    }
  }

  // ---------------------------------------------------------------- experience and its groups

  datatype Experience = Experience(
    id: Id,
    goal: Id,
    taskType: Id,
    lesson: Id,
    prefix: Id,
    passed: bool,
    strength: real,
    salience: real)
  {
    function GroupKey(): Key {
      Key(taskType, prefix)
    }
  }

  /** A task type and the first 120 characters of a lesson. */
  datatype Key = Key(taskType: Id, prefix: Id)
  {
    predicate Before(other: Key) {
      taskType < other.taskType || (taskType == other.taskType && prefix < other.prefix)
    }
  }

  datatype Thresholds = Thresholds(minGoals: int, minStrength: real, minSalience: real, maxItems: int)

  datatype Group = Group(goals: set<Id>, peak: real, lesson: Id)

  datatype Candidate = Candidate(key: Key, lesson: Id, goals: set<Id>, peak: real)

  /** The keys the replayed goal makes interesting. */
  function KeysOfInterest(replayed: seq<Experience>, t: Thresholds): set<Key> {
    set r | r in replayed && r.passed && r.strength >= t.minStrength && r.salience >= t.minSalience :: r.GroupKey()
  }

  /** The strength a record counts with: the last replayed copy wins. */
  function StrengthOf(replayed: seq<Experience>, r: Experience): real {
    if replayed == [] then r.strength
    else if replayed[|replayed| - 1].id == r.id then replayed[|replayed| - 1].strength
    else StrengthOf(replayed[..|replayed| - 1], r)
  }

  /** `replayed_by_id.get(id, record).strength`: of several replayed copies the last one
      counts, and without one the record itself. */
  lemma {:induction false} LastCopyCounts(replayed: seq<Experience>, r: Experience)
    ensures (forall i :: 0 <= i < |replayed| ==> replayed[i].id != r.id) ==> StrengthOf(replayed, r) == r.strength
    ensures forall i :: 0 <= i < |replayed| && LastCopy(replayed, i, r.id) ==>
                          StrengthOf(replayed, r) == replayed[i].strength
  {
    if replayed != [] {
      var init := replayed[..|replayed| - 1];
      LastCopyCounts(init, r);
      forall i | 0 <= i < |init| && LastCopy(replayed, i, r.id) ensures LastCopy(init, i, r.id) {
      }
    }
  }

  predicate LastCopy(replayed: seq<Experience>, i: nat, id: Id)
    requires i < |replayed|
  {
    replayed[i].id == id && forall j :: i < j < |replayed| ==> replayed[j].id != id
  }

  predicate FirstCopy(sources: seq<Experience>, i: nat)
    requires i < |sources|
  {
    forall j :: 0 <= j < i ==> sources[j].id != sources[i].id
  }

  /** Record `i` supports the lesson `key`: the first copy of a passing episode. */
  predicate Supports(sources: seq<Experience>, i: nat, key: Key) {
    i < |sources| && sources[i].passed && sources[i].GroupKey() == key && FirstCopy(sources, i)
  }

  function GoalsOf(sources: seq<Experience>, n: nat, key: Key): set<Id> {
    set i: nat | i < n && Supports(sources, i, key) :: sources[i].goal
  }

  ghost predicate IsPeak(sources: seq<Experience>, replayed: seq<Experience>, n: nat, key: Key, peak: real) {
    && peak >= 0.0
    && (forall i: nat :: i < n && Supports(sources, i, key) ==> StrengthOf(replayed, sources[i]) <= peak)
    && (peak == 0.0
        || exists i: nat :: i < n && Supports(sources, i, key) && StrengthOf(replayed, sources[i]) == peak)
  }

  ghost predicate Summarises(sources: seq<Experience>, replayed: seq<Experience>, n: nat, key: Key, g: Group) {
    && g.goals == GoalsOf(sources, n, key)
    && IsPeak(sources, replayed, n, key, g.peak)
    && exists i: nat :: i < n && FirstSupport(sources, i, key) && sources[i].lesson == g.lesson
  }

  predicate FirstSupport(sources: seq<Experience>, i: nat, key: Key) {
    Supports(sources, i, key) && forall j: nat :: j < i ==> !Supports(sources, j, key)
  }

  /** The summary of a lesson's support is unambiguous. */
  lemma SummaryIsUnique(sources: seq<Experience>, replayed: seq<Experience>, n: nat, key: Key, g: Group, h: Group)
    requires Summarises(sources, replayed, n, key, g) && Summarises(sources, replayed, n, key, h)
    ensures g == h
  {
    var i: nat :| i < n && FirstSupport(sources, i, key) && sources[i].lesson == g.lesson;
    var j: nat :| j < n && FirstSupport(sources, j, key) && sources[j].lesson == h.lesson;
    assert i == j;
  }

  ghost predicate HasSupport(sources: seq<Experience>, n: nat, key: Key) {
    exists i: nat :: i < n && Supports(sources, i, key)
  }

  /** One more record, for a key it supports. */
  lemma GroupGrows(sources: seq<Experience>, replayed: seq<Experience>, n: nat, key: Key, g: Option<Group>)
    returns (g': Group)
    requires Supports(sources, n, key)
    requires if g.Some? then Summarises(sources, replayed, n, key, g.value) else !HasSupport(sources, n, key)
    ensures g' == Join(g, sources[n], StrengthOf(replayed, sources[n]))
    ensures Summarises(sources, replayed, n + 1, key, g')
  {
    g' := Join(g, sources[n], StrengthOf(replayed, sources[n]));
    assert GoalsOf(sources, n + 1, key) == GoalsOf(sources, n, key) + {sources[n].goal};
    if g.None? {
      assert GoalsOf(sources, n, key) == {};
    }
  }

  /** A record that supports another key, or none, changes nothing. */
  lemma GroupStays(sources: seq<Experience>, replayed: seq<Experience>, n: nat, key: Key, g: Group)
    requires Summarises(sources, replayed, n, key, g) && !Supports(sources, n, key)
    ensures Summarises(sources, replayed, n + 1, key, g)
  {
    assert GoalsOf(sources, n + 1, key) == GoalsOf(sources, n, key);
  }

  function Join(g: Option<Group>, r: Experience, strength: real): Group {
    match g
    case None => Group({r.goal}, if strength > 0.0 then strength else 0.0, r.lesson)
    case Some(group) =>
      Group(group.goals + {r.goal}, if strength > group.peak then strength else group.peak, group.lesson)
  }

  /** The groups after `n` records. */
  ghost predicate Grouped(sources: seq<Experience>, replayed: seq<Experience>, n: nat, keys: set<Key>,
                          groups: map<Key, Group>)
  {
    && (forall k :: k in groups <==> k in keys && HasSupport(sources, n, k))
    && forall k :: k in groups ==> Summarises(sources, replayed, n, k, groups[k])
  }

  /** A record supports one key only, so the other groups stay. */
  lemma OtherGroupStays(sources: seq<Experience>, replayed: seq<Experience>, n: nat, keys: set<Key>,
                        groups: map<Key, Group>, k: Key)
    requires Grouped(sources, replayed, n, keys, groups) && !Supports(sources, n, k)
    ensures HasSupport(sources, n + 1, k) <==> HasSupport(sources, n, k)
    ensures k in groups ==> Summarises(sources, replayed, n + 1, k, groups[k])
  {
    if k in groups {
      GroupStays(sources, replayed, n, k, groups[k]);
    }
  }

  lemma RecordJoins(sources: seq<Experience>, replayed: seq<Experience>, n: nat, keys: set<Key>,
                    groups: map<Key, Group>, key: Key)
    requires Grouped(sources, replayed, n, keys, groups) && Supports(sources, n, key) && key in keys
    ensures
      var group := if key in groups then Some(groups[key]) else None;
      Grouped(sources, replayed, n + 1, keys, groups[key := Join(group, sources[n], StrengthOf(replayed, sources[n]))])
  {
    var group := if key in groups then Some(groups[key]) else None;
    var joined := GroupGrows(sources, replayed, n, key, group);
    forall k | k != key
      ensures HasSupport(sources, n + 1, k) <==> HasSupport(sources, n, k)
      ensures k in groups ==> Summarises(sources, replayed, n + 1, k, groups[k])
    {
      OtherGroupStays(sources, replayed, n, keys, groups, k);
    }
    assert HasSupport(sources, n + 1, key);
  }

  lemma RecordPasses(sources: seq<Experience>, replayed: seq<Experience>, n: nat, keys: set<Key>,
                     groups: map<Key, Group>)
    requires Grouped(sources, replayed, n, keys, groups)
    requires forall k :: k in keys ==> !Supports(sources, n, k)
    ensures Grouped(sources, replayed, n + 1, keys, groups)
  {
    forall k | k in groups ensures Summarises(sources, replayed, n + 1, k, groups[k]) {
      GroupStays(sources, replayed, n, k, groups[k]);
    }
    forall k | k in keys ensures HasSupport(sources, n + 1, k) <==> HasSupport(sources, n, k) {
    }
  }

  ghost predicate SeenUpTo(sources: seq<Experience>, n: nat, seen: set<Id>)
    requires n <= |sources|
  {
    forall id :: id in seen <==> exists i :: 0 <= i < n && sources[i].id == id
  }

  /** The loop's test finds the records that support a key of interest. */
  lemma TestIsSupport(sources: seq<Experience>, n: nat, seen: set<Id>, keys: set<Key>)
    requires n < |sources| && SeenUpTo(sources, n, seen)
    ensures
      var r := sources[n];
      if r.id !in seen && r.passed && r.GroupKey() in keys then Supports(sources, n, r.GroupKey())
      else forall k :: k in keys ==> !Supports(sources, n, k)
    ensures SeenUpTo(sources, n + 1, seen + {sources[n].id})
  {
  }

  /** The grouping loop. */
  method CollectGroups(sources: seq<Experience>, replayed: seq<Experience>, keys: set<Key>)
    returns (groups: map<Key, Group>)
    ensures Grouped(sources, replayed, |sources|, keys, groups)
  {
    groups := map[];
    var seen: set<Id> := {};
    for n := 0 to |sources|
      invariant SeenUpTo(sources, n, seen)
      invariant Grouped(sources, replayed, n, keys, groups)
    {
      TestIsSupport(sources, n, seen, keys);
      groups := Consume(sources, replayed, n, keys, groups, sources[n].id !in seen);
      seen := seen + {sources[n].id};
    }
  }

  method Consume(sources: seq<Experience>, replayed: seq<Experience>, n: nat, keys: set<Key>, groups: map<Key, Group>,
                 first: bool)
    returns (groups': map<Key, Group>)
    requires n < |sources| && Grouped(sources, replayed, n, keys, groups)
    requires
      var r := sources[n];
      if first && r.passed && r.GroupKey() in keys then Supports(sources, n, r.GroupKey())
      else forall k :: k in keys ==> !Supports(sources, n, k)
    ensures Grouped(sources, replayed, n + 1, keys, groups')
  {
    var r := sources[n];
    var key := r.GroupKey();
    if first && r.passed && key in keys {
      RecordJoins(sources, replayed, n, keys, groups, key);
      var group := if key in groups then Some(groups[key]) else None;
      groups' := groups[key := Join(group, r, StrengthOf(replayed, r))];
    } else {
      RecordPasses(sources, replayed, n, keys, groups);
      groups' := groups;
    }
  }

  // ---------------------------------------------------------------- the candidates

  predicate Strong(g: Group, t: Thresholds) {
    |g.goals| >= t.minGoals && g.peak >= t.minStrength
  }

  /** Everything the choice depends on. */
  datatype Context = Context(
    sources: seq<Experience>,
    replayed: seq<Experience>,
    knowledge: seq<Words>,
    thresholds: Thresholds,
    words: (Id, Id) -> Words,
    secret: (Id, Id) -> bool)
  {
    function TextOf(key: Key, lesson: Id): Words {
      words(key.taskType, lesson)
    }

    function Text(c: Candidate): Words {
      TextOf(c.key, c.lesson)
    }

    /** Corroborated and strong enough: a lesson of interest with this summary. */
    ghost predicate Qualifies(key: Key, g: Group) {
      && Interesting(key) && Summarises(sources, replayed, |sources|, key, g)
      && thresholds.minGoals <= |g.goals| && thresholds.minStrength <= g.peak
    }

    /** A strong and salient episode of the replayed goal that passed teaches it. */
    predicate Interesting(key: Key) {
      exists r :: r in replayed && r.passed && thresholds.minStrength <= r.strength
        && thresholds.minSalience <= r.salience && key == Key(r.taskType, r.prefix)
    }

    predicate KnownAlready(text: Words) {
      exists i :: 0 <= i < |knowledge| && NearDuplicate(text, knowledge[i])
    }

    predicate ChosenAlready(chosen: seq<Candidate>, key: Key, text: Words) {
      exists c :: c in chosen && c.key.Before(key) && NearDuplicate(text, Text(c))
    }

    /** The reasons a qualifying lesson is not among the candidates. */
    predicate Dropped(chosen: seq<Candidate>, key: Key, g: Group) {
      || KnownAlready(TextOf(key, g.lesson))
      || ChosenAlready(chosen, key, TextOf(key, g.lesson))
      || secret(key.taskType, g.lesson)
      || PastTheCap(chosen, key)
    }

    predicate PastTheCap(chosen: seq<Candidate>, key: Key) {
      chosen != [] && |chosen| >= thresholds.maxItems && chosen[|chosen| - 1].key.Before(key)
    }

    ghost predicate Backed(c: Candidate) {
      Qualifies(c.key, Group(c.goals, c.peak, c.lesson))
    }

    /** A candidate is news: not in the knowledge, not in an earlier candidate. */
    predicate News(chosen: seq<Candidate>, i: nat)
      requires i < |chosen|
    {
      && !secret(chosen[i].key.taskType, chosen[i].lesson) && !KnownAlready(Text(chosen[i]))
      && forall j :: 0 <= j < i ==>
           chosen[j].key.Before(chosen[i].key) && !NearDuplicate(Text(chosen[i]), Text(chosen[j]))
    }
  }

  predicate Promoted(chosen: seq<Candidate>, key: Key) {
    exists c :: c in chosen && c.key == key
  }

  method LeastKey(todo: set<Key>) returns (key: Key)
    requires todo != {}
    ensures key in todo && forall k :: k in todo && k != key ==> key.Before(k)
  {
    key :| key in todo;
    var rest := todo - {key};
    while rest != {}
      invariant rest <= todo && key in todo && key !in rest
      invariant forall k :: k in todo && k !in rest && k != key ==> key.Before(k)
      decreases |rest|
    {
      var k :| k in rest;
      if k.Before(key) {
        key := k;
      }
      rest := rest - {k};
    }
  }

  // ---------------------------------------------------------------- the loop over the groups

  predicate Handled(ctx: Context, chosen: seq<Candidate>, key: Key, g: Group) {
    Strong(g, ctx.thresholds) ==> Promoted(chosen, key) || ctx.Dropped(chosen, key, g)
  }

  predicate Behind(groups: map<Key, Group>, todo: set<Key>, done: Key) {
    done in groups && done !in todo
  }

  ghost predicate Collected(ctx: Context, groups: map<Key, Group>) {
    Grouped(ctx.sources, ctx.replayed, |ctx.sources|, KeysOfInterest(ctx.replayed, ctx.thresholds), groups)
  }

  /** The keys behind the loop are smaller than those ahead, and each of them is
      promoted or dropped for a reason. */
  ghost predicate Choosing(ctx: Context, groups: map<Key, Group>, todo: set<Key>, chosen: seq<Candidate>) {
    && todo <= groups.Keys
    && (forall k, done :: k in todo && Behind(groups, todo, done) ==> done.Before(k))
    && (forall c :: c in chosen ==> Behind(groups, todo, c.key) && ctx.Backed(c))
    && (forall i :: 0 <= i < |chosen| ==> ctx.News(chosen, i))
    && (forall k :: Behind(groups, todo, k) ==> Handled(ctx, chosen, k, groups[k]))
  }

  ghost predicate Leads(groups: map<Key, Group>, todo: set<Key>, key: Key) {
    key in todo && key in groups && forall k :: k in todo && k != key ==> key.Before(k)
  }

  lemma SkipStep(ctx: Context, groups: map<Key, Group>, todo: set<Key>, chosen: seq<Candidate>, key: Key)
    requires Choosing(ctx, groups, todo, chosen) && Leads(groups, todo, key)
    requires Handled(ctx, chosen, key, groups[key])
    ensures Choosing(ctx, groups, todo - {key}, chosen)
  {
    forall k | Behind(groups, todo - {key}, k) ensures k == key || Behind(groups, todo, k) {
    }
  }

  lemma ChooseStep(ctx: Context, groups: map<Key, Group>, todo: set<Key>, chosen: seq<Candidate>, c: Candidate)
    requires Choosing(ctx, groups, todo, chosen) && Leads(groups, todo, c.key)
    requires chosen == [] || |chosen| < ctx.thresholds.maxItems
    requires ctx.Backed(c) && !ctx.secret(c.key.taskType, c.lesson) && !ctx.KnownAlready(ctx.Text(c))
    requires forall d :: d in chosen ==> !NearDuplicate(ctx.Text(c), ctx.Text(d))
    ensures Choosing(ctx, groups, todo - {c.key}, chosen + [c])
  {
    var longer := chosen + [c];
    ChoiceGrows(ctx, chosen, longer);
    forall i | 0 <= i < |longer| ensures ctx.News(longer, i) {
      if i < |chosen| {
        assert ctx.News(chosen, i);
      } else {
        forall j | 0 <= j < i ensures longer[j].key.Before(c.key) && !NearDuplicate(ctx.Text(c), ctx.Text(longer[j])) {
          assert longer[j] in chosen && Behind(groups, todo, longer[j].key);
        }
      }
    }
    forall k | Behind(groups, todo - {c.key}, k) ensures Handled(ctx, longer, k, groups[k]) {
      if k != c.key {
        assert Behind(groups, todo, k) && Handled(ctx, chosen, k, groups[k]);
      }
    }
  }

  /** At the end nothing is ahead, or the cap cut off what is. */
  lemma ChoiceIsComplete(ctx: Context, groups: map<Key, Group>, todo: set<Key>, chosen: seq<Candidate>)
    requires Collected(ctx, groups) && Choosing(ctx, groups, todo, chosen)
    requires todo == {} || (chosen != [] && |chosen| >= ctx.thresholds.maxItems)
    ensures forall c :: c in chosen ==> ctx.Backed(c)
    ensures forall i :: 0 <= i < |chosen| ==> ctx.News(chosen, i)
    ensures forall key, g :: ctx.Qualifies(key, g) ==> Promoted(chosen, key) || ctx.Dropped(chosen, key, g)
  {
    forall key, g | ctx.Qualifies(key, g) ensures Promoted(chosen, key) || ctx.Dropped(chosen, key, g) {
      assert key in groups;
      SummaryIsUnique(ctx.sources, ctx.replayed, |ctx.sources|, key, g, groups[key]);
      if key in todo {
        var last := chosen[|chosen| - 1];
        assert last in chosen && Behind(groups, todo, last.key);
      } else {
        assert Behind(groups, todo, key) && Handled(ctx, chosen, key, groups[key]);
      }
    }
  }

  /** `_promotion_candidates`: sound, new, ordered, capped, and complete up to the
      reasons for dropping a lesson. */
  method PromotionCandidates(ctx: Context) returns (chosen: seq<Candidate>)
    ensures forall c :: c in chosen ==> ctx.Backed(c)
    ensures forall i :: 0 <= i < |chosen| ==> ctx.News(chosen, i)
    ensures |chosen| <= if ctx.thresholds.maxItems < 1 then 1 else ctx.thresholds.maxItems
    ensures forall i, j :: 0 <= i < j < |chosen| ==>
              chosen[i].key.taskType < chosen[j].key.taskType
              || (chosen[i].key.taskType == chosen[j].key.taskType && chosen[i].key.prefix < chosen[j].key.prefix)
    ensures forall key, g :: ctx.Qualifies(key, g) ==> Promoted(chosen, key) || ctx.Dropped(chosen, key, g)
  {
    var groups := CollectGroups(ctx.sources, ctx.replayed, KeysOfInterest(ctx.replayed, ctx.thresholds));
    ghost var todo;
    chosen, todo := Choose(ctx, groups);
    ChoiceIsComplete(ctx, groups, todo, chosen);
    forall i, j | 0 <= i < j < |chosen| ensures chosen[i].key.Before(chosen[j].key) {
      assert ctx.News(chosen, j);
    }
  }

  /** The body of the loop for one key. */
  method Consider(ctx: Context, groups: map<Key, Group>, ghost todo: set<Key>, pairs: seq<Words>,
                  chosen: seq<Candidate>, key: Key)
    returns (chosen': seq<Candidate>, pairs': seq<Words>)
    requires Choosing(ctx, groups, todo, chosen) && Lists(ctx, pairs, chosen) && Leads(groups, todo, key)
    requires chosen == [] || |chosen| < ctx.thresholds.maxItems
    requires Collected(ctx, groups)
    ensures Choosing(ctx, groups, todo - {key}, chosen') && Lists(ctx, pairs', chosen')
    ensures chosen' == chosen || |chosen'| == |chosen| + 1
  {
    var g := groups[key];
    if Strong(g, ctx.thresholds) {
      var text := ctx.TextOf(key, g.lesson);
      var screening := ScreenDuplicate(text, pairs);
      ScreeningSplits(ctx, pairs, chosen, text);
      if !screening.blocked && !ctx.secret(key.taskType, g.lesson) {
        var candidate := Candidate(key, g.lesson, g.goals, g.peak);
        ChooseStep(ctx, groups, todo, chosen, candidate);
        return chosen + [candidate], pairs + [text];
      }
      forall c | c in chosen ensures c.key.Before(key) {
        assert Behind(groups, todo, c.key);
      }
    }
    SkipStep(ctx, groups, todo, chosen, key);
    return chosen, pairs;
  }

  /** The loop over `sorted(groups)`, left early at the cap. */
  method Choose(ctx: Context, groups: map<Key, Group>) returns (chosen: seq<Candidate>, ghost todo: set<Key>)
    requires Collected(ctx, groups)
    ensures Choosing(ctx, groups, todo, chosen)
    ensures todo == {} || (chosen != [] && |chosen| >= ctx.thresholds.maxItems)
    ensures |chosen| <= if ctx.thresholds.maxItems < 1 then 1 else ctx.thresholds.maxItems
  {
    chosen := [];
    var pairs, rest := ctx.knowledge, groups.Keys;
    StartChoosing(ctx, groups);
    while rest != {} && (chosen == [] || |chosen| < ctx.thresholds.maxItems)
      invariant Choosing(ctx, groups, rest, chosen) && Lists(ctx, pairs, chosen)
      invariant |chosen| <= if ctx.thresholds.maxItems < 1 then 1 else ctx.thresholds.maxItems
      decreases |rest|
    {
      var key := LeastKey(rest);
      LeastLeads(ctx, groups, rest, chosen, key);
      chosen, pairs := Consider(ctx, groups, rest, pairs, chosen, key);
      rest := rest - {key};
    }
    todo := rest;
  }

  lemma StartChoosing(ctx: Context, groups: map<Key, Group>)
    ensures Choosing(ctx, groups, groups.Keys, []) && Lists(ctx, ctx.knowledge, [])
  {
  }

  lemma LeastLeads(ctx: Context, groups: map<Key, Group>, todo: set<Key>, chosen: seq<Candidate>, key: Key)
    requires Choosing(ctx, groups, todo, chosen) && key in todo && forall k :: k in todo && k != key ==> key.Before(k)
    ensures Leads(groups, todo, key)
  {
  }

  /** The texts a new seed is screened against. */
  ghost predicate Lists(ctx: Context, pairs: seq<Words>, chosen: seq<Candidate>) {
    && |pairs| == |ctx.knowledge| + |chosen|
    && (forall i :: 0 <= i < |ctx.knowledge| ==> pairs[i] == ctx.knowledge[i])
    && forall i :: 0 <= i < |chosen| ==> pairs[|ctx.knowledge| + i] == ctx.Text(chosen[i])
  }

  lemma ScreeningSplits(ctx: Context, pairs: seq<Words>, chosen: seq<Candidate>, text: Words)
    requires Lists(ctx, pairs, chosen)
    ensures (exists i :: 0 <= i < |pairs| && NearDuplicate(text, pairs[i])) <==>
            ctx.KnownAlready(text) || exists c :: c in chosen && NearDuplicate(text, ctx.Text(c))
  {
    if i :| 0 <= i < |pairs| && NearDuplicate(text, pairs[i]) {
      if i >= |ctx.knowledge| {
        assert chosen[i - |ctx.knowledge|] in chosen;
      }
    }
    if ctx.KnownAlready(text) {
      var i :| 0 <= i < |ctx.knowledge| && NearDuplicate(text, ctx.knowledge[i]);
      assert NearDuplicate(text, pairs[i]);
    }
    if c :| c in chosen && NearDuplicate(text, ctx.Text(c)) {
      var i :| 0 <= i < |chosen| && chosen[i] == c;
      assert NearDuplicate(text, pairs[|ctx.knowledge| + i]);
    }
  }

  /** What was promoted or dropped stays so when one more candidate is chosen. */
  lemma ChoiceGrows(ctx: Context, before: seq<Candidate>, chosen: seq<Candidate>)
    requires |chosen| == |before| + 1 && chosen[..|before|] == before
    requires before == [] || |before| < ctx.thresholds.maxItems
    ensures forall k :: Promoted(before, k) ==> Promoted(chosen, k)
    ensures Promoted(chosen, chosen[|before|].key)
    ensures forall k, g :: ctx.Dropped(before, k, g) ==> ctx.Dropped(chosen, k, g)
  {
    assert chosen == before + [chosen[|before|]];
    forall k | Promoted(before, k) ensures Promoted(chosen, k) {
      var c :| c in before && c.key == k;
      assert c in chosen;
    }
    assert chosen[|before|] in chosen;
    forall k, g | ctx.Dropped(before, k, g) ensures ctx.Dropped(chosen, k, g) {
      if ctx.ChosenAlready(before, k, ctx.TextOf(k, g.lesson)) {
        var c :| c in before && c.key.Before(k) && NearDuplicate(ctx.TextOf(k, g.lesson), ctx.Text(c));
        assert c in chosen;
      }
    }
  }
}
