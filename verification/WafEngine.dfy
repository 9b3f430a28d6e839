/** The engine's own code, over one scorer (serverwall-waf/src/engine.rs). */
module WafEngine {
  import opened Bags
  import opened Waf

  datatype Exit = GoOn | Stop(verdict: Verdict)

  /** Size and count limits; in blocking mode an anomalous score ends the inspection here. */
  method CheckLimits(env: Env, e: Engine, ctx: Request, w: Walk, scorer: AnomalyScorer) returns (exit: Exit)
    requires scorer.Valid() && scorer.added == [] && scorer.threshold == e.threshold && WalkOf(w, ctx)
    modifies scorer
    ensures scorer.Valid() && scorer.added == LimitMatches(env, e.limits, ctx, w)
    ensures exit == if ShortCircuit(env, e, ctx, w) then Stop(Render(e, scorer.added)) else GoOn
  {
    hide Flat, Score, Ids, CountMatches, HeaderTooLong, WalkOf;
    CheckCounts(env, e.limits, ctx, scorer);
    CheckHeaders(env, e.limits, ctx, w, scorer);
    var anomalous := scorer.IsAnomalous();
    if anomalous && e.mode == Blocking {
      return Stop(Verdict(Block, scorer.matchedRuleIds, scorer.currentScore));
    }
    exit := GoOn;
  }

  method CheckCounts(env: Env, limits: Limits, ctx: Request, scorer: AnomalyScorer)
    requires scorer.Valid() && scorer.added == []
    modifies scorer
    ensures scorer.Valid() && scorer.added == CountMatches(env, limits, ctx)
  {
    hide Score, Ids;
    if limits.maxBodySize > 0 && ctx.bodySize > limits.maxBodySize {
      scorer.AddMatch(BodySize, 5);
    }
    if |ctx.headers| > limits.maxHeaderCount {
      scorer.AddMatch(HeaderCount, 5);
    }
    if env.len(ctx.uri) > limits.maxUriLength {
      scorer.AddMatch(UriLength, 5);
    }
  }

  method CheckHeaders(env: Env, limits: Limits, ctx: Request, w: Walk, scorer: AnomalyScorer)
    requires scorer.Valid() && WalkOf(w, ctx)
    modifies scorer
    ensures scorer.Valid()
    ensures scorer.added == old(scorer.added) + Flat(HeaderTooLong(env, limits, ctx), w.headers)
  {
    hide Flat, Score, Ids, Enumerates, Once;
    ghost var f := HeaderTooLong(env, limits, ctx);
    EachOnce(w.headers, ctx.headers);
    FlatNone(f, []);
    assert w.headers[..0] == [];
    for i := 0 to |w.headers|
      invariant scorer.Valid() && scorer.added == old(scorer.added) + Flat(f, w.headers[..i])
    {
      var name := w.headers[i];
      assert name in w.headers;
      FlatSnoc(f, w.headers, i);
      if env.len(ctx.headers[name]) > limits.maxHeaderValueLen {
        scorer.AddMatch(HeaderValueLen(name), 5);
      }
    }
    assert w.headers[..|w.headers|] == w.headers;
  }

  /** Every pattern of the set that matches, in the order of the rules. */
  method TestValue(env: Env, rules: seq<Rule>, text: string, scorer: AnomalyScorer)
    requires scorer.Valid()
    modifies scorer
    ensures scorer.Valid() && scorer.added == old(scorer.added) + Flat(RuleHit(env, text), rules)
  {
    ghost var f := RuleHit(env, text);
    for i := 0 to |rules|
      invariant scorer.Valid() && scorer.added == old(scorer.added) + Flat(f, rules[..i])
    {
      FlatSnoc(f, rules, i);
      if env.hit(rules[i].pattern, text) {
        scorer.AddMatch(OfRule(rules[i].id, rules[i].description), rules[i].score);
      }
    }
    assert rules[..|rules|] == rules;
  }

  method EvaluateGroup(env: Env, g: Group, ctx: Request, w: Walk, scorer: AnomalyScorer)
    requires scorer.Valid()
    modifies scorer
    ensures scorer.Valid() && scorer.added == old(scorer.added) + GroupMatches(env, ctx, w)(g)
  {
    hide Flat, Extract, RuleHit;
    if g.rules == [] {
      return;
    }
    var values := TargetValues(env, g.targets, ctx, w);
    var ts := g.rules[0].transformations;
    ghost var f := ValueHits(env, g.rules, ts);
    FlatNone(f, []);
    assert values[..0] == [];
    for i := 0 to |values|
      invariant scorer.Valid() && scorer.added == old(scorer.added) + Flat(f, values[..i])
    {
      FlatSnoc(f, values, i);
      TestValue(env, g.rules, env.transform(values[i], ts), scorer);
    }
    assert values[..|values|] == values;
  }

  method TargetValues(env: Env, targets: seq<Target>, ctx: Request, w: Walk) returns (values: seq<string>)
    ensures values == Flat(Extract(env, ctx, w), targets)
  {
    values := [];
    for i := 0 to |targets|
      invariant values == Flat(Extract(env, ctx, w), targets[..i])
    {
      FlatSnoc(Extract(env, ctx, w), targets, i);
      values := values + Extract(env, ctx, w)(targets[i]);
    }
    assert targets[..|targets|] == targets;
  }

  method EvaluateRules(env: Env, groups: seq<Group>, ctx: Request, w: Walk, scorer: AnomalyScorer)
    requires scorer.Valid()
    modifies scorer
    ensures scorer.Valid() && scorer.added == old(scorer.added) + RuleMatches(env, groups, ctx, w)
  {
    hide Flat, GroupMatches;
    ghost var f := GroupMatches(env, ctx, w);
    FlatNone(f, []);
    assert groups[..0] == [];
    for i := 0 to |groups|
      invariant scorer.Valid() && scorer.added == old(scorer.added) + Flat(f, groups[..i])
    {
      FlatSnoc(f, groups, i);
      EvaluateGroup(env, groups[i], ctx, w, scorer);
    }
    assert groups[..|groups|] == groups;
  }

  method Inspect(env: Env, e: Engine, ctx: Request, w: Walk) returns (v: Verdict)
    requires WalkOf(w, ctx)
    ensures v == Inspection(env, e, ctx, w)
  {
    hide LimitMatches, RuleMatches, Score, Ids;
    var excluded := e.mode == Disabled || ctx.remote in e.excludedIps;
    for i := 0 to |e.excludedPaths|
      invariant excluded <==>
        (e.mode == Disabled || ctx.remote in e.excludedIps || exists k :: 0 <= k < i && e.excludedPaths[k] <= ctx.path)
    {
      excluded := excluded || e.excludedPaths[i] <= ctx.path;
    }
    if excluded {
      return Verdict(Allow, [], 0);
    }
    var scorer := new AnomalyScorer(e.threshold);
    var exit := CheckLimits(env, e, ctx, w, scorer);
    if exit.Stop? {
      return exit.verdict;
    }
    EvaluateRules(env, e.groups, ctx, w, scorer);
    var decision := Allow;
    var anomalous := scorer.IsAnomalous();
    if anomalous {
      decision := if e.mode == Blocking then Block else Log;
    }
    v := Verdict(decision, scorer.matchedRuleIds, scorer.currentScore);
  }
}

/** Custom rules are batched by target into groups that test all their patterns at once
    (serverwall-waf/src/engine.rs, serverwall-waf/src/rules/rule_set.rs). */
module WafGroups {
  import opened Bags
  import opened Waf

  function Patterns(rules: seq<Rule>): seq<string> {
    if rules == [] then [] else [rules[0].pattern] + Patterns(rules[1..])
  }

  function Sound(env: Env, rules: seq<Rule>): seq<Rule> {
    if rules == [] then []
    else (if env.valid(rules[0].pattern) then [rules[0]] else []) + Sound(env, rules[1..])
  }

  /** One group, or none if nothing is left to compile; broken rules are left out. */
  function Compile(env: Env, rules: seq<Rule>): seq<Group> {
    if rules == [] then []
    else if env.fits(Patterns(rules)) then [Group(rules, rules[0].targets)]
    else
      var good := Sound(env, rules);
      if good == [] || !env.fits(Patterns(good)) then [] else [Group(good, rules[0].targets)]
  }

  /** Rules are batched by their first target. */
  function KeyOf(r: Rule): seq<Target> { if r.targets == [] then [] else [r.targets[0]] }

  function RulesFor(rules: seq<Rule>, key: seq<Target>): seq<Rule> {
    if rules == [] then []
    else (if KeyOf(rules[0]) == key then [rules[0]] else []) + RulesFor(rules[1..], key)
  }

  lemma {:induction false} RulesForIn(rules: seq<Rule>, key: seq<Target>)
    ensures forall x :: x in RulesFor(rules, key) ==> x in rules && KeyOf(x) == key
  {
    if rules != [] {
      RulesForIn(rules[1..], key);
    }
  }

  function CustomGroup(env: Env, rules: seq<Rule>): seq<Target> -> seq<Group> {
    (key: seq<Target>) => Compile(env, RulesFor(rules, key))
  }

  /** The groups after adding custom rules, the map from keys to rules being walked in `order`. */
  function AddCustomRules(env: Env, groups: seq<Group>, rules: seq<Rule>, order: seq<seq<Target>>): seq<Group> {
    groups + Flat(CustomGroup(env, rules), order)
  }

  lemma {:induction false} RulesForAppend(a: seq<Rule>, b: seq<Rule>, key: seq<Target>)
    ensures RulesFor(a + b, key) == RulesFor(a, key) + RulesFor(b, key)
  {
    hide RulesFor, KeyOf;
    if a == [] {
      assert a + b == b;
      RulesForCons(b, key);
    } else {
      assert (a + b)[1..] == a[1..] + b;
      RulesForAppend(a[1..], b, key);
      RulesForCons(a, key);
      RulesForCons(a + b, key);
    }
  }

  lemma RulesForCons(rules: seq<Rule>, key: seq<Target>)
    ensures RulesFor([], key) == []
    ensures rules != [] ==>
      RulesFor(rules, key) == (if KeyOf(rules[0]) == key then [rules[0]] else []) + RulesFor(rules[1..], key)
  {
    hide KeyOf;
  }

  /** The rules by key: a key for each batch that is not empty. */
  ghost predicate Batched(byTarget: map<seq<Target>, seq<Rule>>, rules: seq<Rule>) {
    forall key :: RulesFor(rules, key) == if key in byTarget then byTarget[key] else []
  }

  lemma BatchStep(byTarget: map<seq<Target>, seq<Rule>>, rules: seq<Rule>, r: Rule)
    requires Batched(byTarget, rules)
    ensures Batched(byTarget[KeyOf(r) := RulesFor(rules, KeyOf(r)) + [r]], rules + [r])
  {
    hide KeyOf;
    forall key
      ensures RulesFor(rules + [r], key) == RulesFor(rules, key) + if KeyOf(r) == key then [r] else []
    {
      RulesForAppend(rules, [r], key);
    }
  }

  lemma BatchAt(byTarget: map<seq<Target>, seq<Rule>>, rules: seq<Rule>, key: seq<Target>)
    requires Batched(byTarget, rules)
    ensures RulesFor(rules, key) == if key in byTarget then byTarget[key] else []
  {
  }

  lemma NothingBatched()
    ensures Batched(map[], [])
  {
  }

  method BatchRules(rules: seq<Rule>) returns (byTarget: map<seq<Target>, seq<Rule>>)
    ensures Batched(byTarget, rules)
  {
    hide Batched, RulesFor, KeyOf;
    byTarget := map[];
    assert rules[..0] == [];
    NothingBatched();
    for i := 0 to |rules|
      invariant Batched(byTarget, rules[..i])
    {
      var r := rules[i];
      BatchStep(byTarget, rules[..i], r);
      BatchAt(byTarget, rules[..i], KeyOf(r));
      assert rules[..i + 1] == rules[..i] + [r];
      var before := if KeyOf(r) in byTarget then byTarget[KeyOf(r)] else [];
      byTarget := byTarget[KeyOf(r) := before + [r]];
    }
    assert rules[..|rules|] == rules;
  }

  method AddRules(env: Env, groups: seq<Group>, rules: seq<Rule>, order: seq<seq<Target>>) returns (r: seq<Group>)
    ensures r == AddCustomRules(env, groups, rules, order)
  {
    hide Compile, RulesFor, Flat;
    var byTarget := BatchRules(rules);
    r := groups;
    ghost var f := CustomGroup(env, rules);
    FlatNone(f, []);
    assert order[..0] == [];
    for i := 0 to |order|
      invariant r == groups + Flat(f, order[..i])
    {
      FlatSnoc(f, order, i);
      if order[i] in byTarget {
        r := r + Compile(env, byTarget[order[i]]);
      } else {
        CompileNothing(env);
      }
    }
    assert order[..|order|] == order;
  }

  lemma CompileNothing(env: Env)
    ensures Compile(env, []) == []
  {
  }

  /** What custom rules have in common: one target each and the same transformations. */
  ghost predicate Custom(rules: seq<Rule>, ts: seq<Transformation>) {
    forall r :: r in rules ==> |r.targets| == 1 && r.transformations == ts
  }

  /** Every key of the rules once. */
  ghost predicate KeyOrder(order: seq<seq<Target>>, rules: seq<Rule>) {
    && (forall r :: r in rules ==> KeyOf(r) in order)
    && (forall key :: key in order ==> multiset(order)[key] == 1)
  }

  ghost predicate AllValid(env: Env, rules: seq<Rule>) { forall r :: r in rules ==> env.valid(r.pattern) }

  /** A set of patterns compiles only if each of them does. Patterns that compile one by one may still be too large
      as a set. */
  ghost predicate SetsNeedParts(env: Env) {
    forall rules: seq<Rule> :: env.fits(Patterns(rules)) ==> AllValid(env, rules)
  }

  /** One rule on its own: its transformations, its target, its pattern. */
  function Alone(env: Env, ctx: Request, w: Walk): Rule -> seq<Match> {
    (r: Rule) =>
      if !env.valid(r.pattern) then []
      else Flat(ValueHits(env, [r], r.transformations), Flat(Extract(env, ctx, w), r.targets))
  }

  /** What a rule adds as one of `batch`: what it finds, if its pattern compiles together with the others, or is
      among the valid ones and these compile together. */
  function InBatch(env: Env, ctx: Request, w: Walk, batch: seq<Rule>): Rule -> seq<Match> {
    (r: Rule) =>
      if env.fits(Patterns(batch)) || (env.valid(r.pattern) && env.fits(Patterns(Sound(env, batch))))
      then Flat(ValueHits(env, [r], r.transformations), Flat(Extract(env, ctx, w), r.targets))
      else []
  }

  /** What a rule adds as one of all custom rules, batched with those of its key. */
  function Live(env: Env, ctx: Request, w: Walk, rules: seq<Rule>): Rule -> seq<Match> {
    (r: Rule) => InBatch(env, ctx, w, RulesFor(rules, KeyOf(r)))(r)
  }

  function OneRule(env: Env, ts: seq<Transformation>, values: seq<string>): Rule -> seq<Match> {
    (r: Rule) => Flat(ValueHits(env, [r], ts), values)
  }

  /** Value by value over all rules finds what rule by rule over all values does. */
  lemma {:induction false} Exchange(env: Env, rules: seq<Rule>, ts: seq<Transformation>, values: seq<string>)
    ensures multiset(Flat(ValueHits(env, rules, ts), values)) == multiset(Flat(OneRule(env, ts, values), rules))
    decreases |rules|
  {
    if rules == [] {
      forall v
        ensures ValueHits(env, rules, ts)(v) == []
      {
        FlatNone(RuleHit(env, env.transform(v, ts)), rules);
      }
      FlatNone(ValueHits(env, rules, ts), values);
    } else {
      var first, rest := [rules[0]], rules[1..];
      Exchange(env, rest, ts, values);
      forall v
        ensures multiset(ValueHits(env, rules, ts)(v))
             == multiset(ValueHits(env, first, ts)(v)) + multiset(ValueHits(env, rest, ts)(v))
      {
        HitsSplit(env, rules, ts, v);
      }
      FlatSum(ValueHits(env, rules, ts), ValueHits(env, first, ts), ValueHits(env, rest, ts), values);
    }
  }

  lemma HitsSplit(env: Env, rules: seq<Rule>, ts: seq<Transformation>, v: string)
    requires rules != []
    ensures ValueHits(env, rules, ts)(v) == ValueHits(env, [rules[0]], ts)(v) + ValueHits(env, rules[1..], ts)(v)
  {
    assert rules == [rules[0]] + rules[1..];
    FlatAppend(RuleHit(env, env.transform(v, ts)), [rules[0]], rules[1..]);
  }

  lemma {:induction false} SoundWhole(env: Env, rules: seq<Rule>)
    ensures AllValid(env, Sound(env, rules))
    ensures AllValid(env, rules) ==> Sound(env, rules) == rules
    ensures forall r :: r in Sound(env, rules) ==> r in rules
  {
    if rules != [] {
      SoundWhole(env, rules[1..]);
      assert rules == [rules[0]] + rules[1..];
    }
  }

  /** Compiling keeps exactly the rules whose patterns compile, if these compile together; otherwise none. */
  lemma CompileKeeps(env: Env, rules: seq<Rule>)
    requires SetsNeedParts(env)
    ensures var good := Sound(env, rules);
      Compile(env, rules)
        == if good == [] || !env.fits(Patterns(good)) then [] else [Group(good, rules[0].targets)]
  {
    SoundWhole(env, rules);
    assert env.fits(Patterns(rules)) ==> AllValid(env, rules);
  }

  /** The valid rules of a batch, if they compile together, add what they find on the values of their key. */
  lemma {:induction false} SoundInBatch(env: Env, ctx: Request, w: Walk, batch: seq<Rule>, rules: seq<Rule>,
                                        ts: seq<Transformation>, key: seq<Target>)
    requires forall r :: r in rules ==> r.targets == key && r.transformations == ts
    requires !env.fits(Patterns(batch)) && env.fits(Patterns(Sound(env, batch)))
    ensures Flat(OneRule(env, ts, Flat(Extract(env, ctx, w), key)), Sound(env, rules))
         == Flat(InBatch(env, ctx, w, batch), rules)
    decreases |rules|
  {
    hide Extract, ValueHits, Patterns;
    if rules != [] {
      SoundInBatch(env, ctx, w, batch, rules[1..], ts, key);
      var f := OneRule(env, ts, Flat(Extract(env, ctx, w), key));
      if env.valid(rules[0].pattern) {
        FlatAppend(f, [rules[0]], Sound(env, rules[1..]));
        assert Flat(f, [rules[0]]) == f(rules[0]);
      } else {
        assert Sound(env, rules) == Sound(env, rules[1..]);
      }
    }
  }

  lemma NotInBatch(env: Env, ctx: Request, w: Walk, batch: seq<Rule>, rules: seq<Rule>)
    requires !env.fits(Patterns(batch)) && !env.fits(Patterns(Sound(env, batch)))
    ensures Flat(InBatch(env, ctx, w, batch), rules) == []
  {
    hide Extract, ValueHits, Patterns, Sound;
    FlatNone(InBatch(env, ctx, w, batch), rules);
  }

  /** A group finds what its rules find one by one. */
  lemma GroupFinds(env: Env, ctx: Request, w: Walk, rules: seq<Rule>, ts: seq<Transformation>, key: seq<Target>)
    requires rules != [] && forall r :: r in rules ==> r.targets == key && r.transformations == ts
    ensures multiset(Flat(GroupMatches(env, ctx, w), [Group(rules, key)]))
         == multiset(Flat(OneRule(env, ts, Flat(Extract(env, ctx, w), key)), rules))
  {
    hide Extract, ValueHits, OneRule;
    assert rules[0] in rules;
    Exchange(env, rules, ts, Flat(Extract(env, ctx, w), key));
    assert Flat(GroupMatches(env, ctx, w), [Group(rules, key)]) == GroupMatches(env, ctx, w)(Group(rules, key));
  }

  /** The rules of one key, compiled, find what each of them adds. */
  lemma GroupLive(env: Env, ctx: Request, w: Walk, rules: seq<Rule>, ts: seq<Transformation>, key: seq<Target>)
    requires forall r :: r in rules ==> r.targets == key && r.transformations == ts
    ensures multiset(Flat(GroupMatches(env, ctx, w), Compile(env, rules)))
         == multiset(Flat(InBatch(env, ctx, w, rules), rules))
  {
    hide Extract, ValueHits, GroupMatches;
    SoundWhole(env, rules);
    var good := Sound(env, rules);
    if rules == [] {
    } else if env.fits(Patterns(rules)) {
      GroupFinds(env, ctx, w, rules, ts, key);
      FlatAlike(OneRule(env, ts, Flat(Extract(env, ctx, w), key)), InBatch(env, ctx, w, rules), rules);
      assert rules[0] in rules;
    } else if env.fits(Patterns(good)) {
      SoundInBatch(env, ctx, w, rules, rules, ts, key);
      if good != [] {
        assert rules[0] in rules;
        GroupFinds(env, ctx, w, good, ts, key);
      }
    } else {
      NotInBatch(env, ctx, w, rules, rules);
    }
  }

  /** What the rules of each key give. */
  function ByKey(f: Rule -> seq<Match>, rules: seq<Rule>): seq<Target> -> seq<Match> {
    (key: seq<Target>) => Flat(f, RulesFor(rules, key))
  }

  function AtKey(r: Rule, ms: seq<Match>): seq<Target> -> seq<Match> {
    (key: seq<Target>) => if key == KeyOf(r) then ms else []
  }

  /** Batching by key neither loses a rule nor tests one twice. */
  lemma {:induction false} KeysPartition(f: Rule -> seq<Match>, rules: seq<Rule>, order: seq<seq<Target>>)
    requires KeyOrder(order, rules)
    ensures multiset(Flat(ByKey(f, rules), order)) == multiset(Flat(f, rules))
    decreases |rules|
  {
    if rules == [] {
      FlatNone(ByKey(f, rules), order);
    } else {
      var r, rest := rules[0], rules[1..];
      KeysPartition(f, rest, order);
      forall key
        ensures multiset(ByKey(f, rules)(key)) == multiset(AtKey(r, f(r))(key)) + multiset(ByKey(f, rest)(key))
      {
        KeySplit(f, rules, key);
      }
      FlatSum(ByKey(f, rules), AtKey(r, f(r)), ByKey(f, rest), order);
      FlatOnce(AtKey(r, f(r)), order, KeyOf(r));
    }
  }

  lemma KeySplit(f: Rule -> seq<Match>, rules: seq<Rule>, key: seq<Target>)
    requires rules != []
    ensures ByKey(f, rules)(key) == AtKey(rules[0], f(rules[0]))(key) + ByKey(f, rules[1..])(key)
  {
    var rest := RulesFor(rules[1..], key);
    if KeyOf(rules[0]) == key {
      assert RulesFor(rules, key) == [rules[0]] + rest;
      FlatAppend(f, [rules[0]], rest);
      assert Flat(f, [rules[0]]) == f(rules[0]);
    } else {
      assert RulesFor(rules, key) == rest;
    }
  }

  lemma KeyLive(env: Env, ctx: Request, w: Walk, rules: seq<Rule>, ts: seq<Transformation>, key: seq<Target>)
    requires Custom(rules, ts)
    ensures multiset(Flat(GroupMatches(env, ctx, w), CustomGroup(env, rules)(key)))
         == multiset(ByKey(Live(env, ctx, w, rules), rules)(key))
  {
    hide Compile, GroupMatches, InBatch;
    var mine := RulesFor(rules, key);
    RulesForIn(rules, key);
    forall r | r in mine
      ensures r.targets == key && r.transformations == ts
    {
      assert r in rules && KeyOf(r) == key;
    }
    GroupLive(env, ctx, w, mine, ts, key);
    FlatAlike(InBatch(env, ctx, w, mine), Live(env, ctx, w, rules), mine);
  }

  /** Batching, for every environment: however the keys are walked, the engine with the custom rules added finds what
      it found before plus what each rule adds as one of its batch, each match equally often. */
  lemma BatchingFaithful(env: Env, ctx: Request, w: Walk, groups: seq<Group>, rules: seq<Rule>,
                         ts: seq<Transformation>, order: seq<seq<Target>>)
    requires Custom(rules, ts) && KeyOrder(order, rules)
    ensures multiset(RuleMatches(env, AddCustomRules(env, groups, rules, order), ctx, w))
         == multiset(RuleMatches(env, groups, ctx, w)) + multiset(Flat(Live(env, ctx, w, rules), rules))
  {
    hide Custom, KeyOrder, CustomGroup, GroupMatches, Live, ByKey, Flat;
    var f, g, h := CustomGroup(env, rules), GroupMatches(env, ctx, w), ByKey(Live(env, ctx, w, rules), rules);
    forall key | key in order
      ensures multiset(h(key)) == multiset(Flat(g, f(key)))
    {
      KeyLive(env, ctx, w, rules, ts, key);
    }
    FlatTwice(f, g, h, order);
    KeysPartition(Live(env, ctx, w, rules), rules, order);
    FlatAppend(g, groups, Flat(f, order));
  }

  // ---- When every usable rule takes effect ----

  /** The valid patterns among the custom rules of this key compile as one set. */
  predicate BatchFits(env: Env, rules: seq<Rule>, key: seq<Target>) {
    env.fits(Patterns(Sound(env, RulesFor(rules, key))))
  }

  /** A rule adds what it finds on its own or nothing, by whether its batch compiles. */
  lemma LiveIs(env: Env, ctx: Request, w: Walk, rules: seq<Rule>, r: Rule)
    requires SetsNeedParts(env) && r in rules
    ensures Live(env, ctx, w, rules)(r)
         == if BatchFits(env, rules, KeyOf(r)) then Alone(env, ctx, w)(r) else []
  {
    hide Extract, ValueHits, KeyOf;
    var batch := RulesFor(rules, KeyOf(r));
    SoundWhole(env, batch);
    RulesForAll(rules, r);
    if env.fits(Patterns(batch)) {
      assert AllValid(env, batch) && env.valid(r.pattern);
      assert Sound(env, batch) == batch;
    }
    assert Live(env, ctx, w, rules)(r) == InBatch(env, ctx, w, batch)(r);
  }

  lemma {:induction false} RulesForAll(rules: seq<Rule>, r: Rule)
    requires r in rules
    ensures r in RulesFor(rules, KeyOf(r))
  {
    if rules[0] != r {
      RulesForAll(rules[1..], r);
    }
  }

  /** A batch whose valid patterns are too large together is dropped: none of its rules finds anything. */
  lemma BatchLost(env: Env, ctx: Request, w: Walk, rules: seq<Rule>, key: seq<Target>)
    requires SetsNeedParts(env) && !BatchFits(env, rules, key)
    ensures Compile(env, RulesFor(rules, key)) == []
    ensures forall r :: r in RulesFor(rules, key) ==> Live(env, ctx, w, rules)(r) == []
  {
    hide Alone, Live, KeyOf;
    CompileKeeps(env, RulesFor(rules, key));
    RulesForIn(rules, key);
    forall r | r in RulesFor(rules, key)
      ensures Live(env, ctx, w, rules)(r) == []
    {
      LiveIs(env, ctx, w, rules, r);
    }
  }

  /** For every request: with the custom rules added the engine finds what it found before plus what each usable rule
      finds on its own, if and only if every rule that finds something is in a batch that compiles. */
  lemma BatchingExact(env: Env, ctx: Request, w: Walk, groups: seq<Group>, rules: seq<Rule>,
                      ts: seq<Transformation>, order: seq<seq<Target>>)
    requires SetsNeedParts(env) && Custom(rules, ts) && KeyOrder(order, rules)
    ensures multiset(RuleMatches(env, AddCustomRules(env, groups, rules, order), ctx, w))
         == multiset(RuleMatches(env, groups, ctx, w)) + multiset(Flat(Alone(env, ctx, w), rules))
      <==> forall r :: r in rules && Alone(env, ctx, w)(r) != [] ==> BatchFits(env, rules, KeyOf(r))
  {
    hide SetsNeedParts, Custom, KeyOrder, RuleMatches, AddCustomRules, Alone, Live, BatchFits, KeyOf, Flat;
    var f, g := Live(env, ctx, w, rules), Alone(env, ctx, w);
    BatchingFaithful(env, ctx, w, groups, rules, ts, order);
    forall r | r in rules
      ensures f(r) == if BatchFits(env, rules, KeyOf(r)) then g(r) else []
    {
      LiveIs(env, ctx, w, rules, r);
    }
    FlatSame(f, g, rules);
    SameRest(multiset(RuleMatches(env, groups, ctx, w)), multiset(Flat(f, rules)), multiset(Flat(g, rules)));
  }

  /** Two valid patterns that are too large together: neither rule finds anything, whatever the request. */
  lemma TwoTooLarge(env: Env, ctx: Request, w: Walk, a: Rule, b: Rule)
    requires SetsNeedParts(env) && KeyOf(a) == KeyOf(b)
    requires env.valid(a.pattern) && env.valid(b.pattern) && !env.fits([a.pattern, b.pattern])
    ensures Flat(Live(env, ctx, w, [a, b]), [a, b]) == []
  {
    hide Live, KeyOf;
    var none: seq<Rule> := [];
    assert [a, b][1..] == [b] && [b][1..] == none;
    assert RulesFor(none, KeyOf(a)) == none && RulesFor([b], KeyOf(a)) == [b];
    assert RulesFor([a, b], KeyOf(a)) == [a, b];
    assert Sound(env, none) == none && Sound(env, [b]) == [b] && Sound(env, [a, b]) == [a, b];
    assert Patterns(none) == [] && Patterns([b]) == [b.pattern] && Patterns([a, b]) == [a.pattern, b.pattern];
    BatchLost(env, ctx, w, [a, b], KeyOf(a));
    FlatNone(Live(env, ctx, w, [a, b]), [a, b]);
  }
}
