/** Flattening, and what does not depend on order. */
module Bags {

  function Flat<A, B>(f: A -> seq<B>, s: seq<A>): seq<B> {
    if s == [] then [] else f(s[0]) + Flat(f, s[1..])
  }

  lemma {:induction false} FlatAppend<A, B>(f: A -> seq<B>, a: seq<A>, b: seq<A>)
    ensures Flat(f, a + b) == Flat(f, a) + Flat(f, b)
  {
    if a == [] {
      assert a + b == b;
    } else {
      assert (a + b)[1..] == a[1..] + b;
      FlatAppend(f, a[1..], b);
    }
  }

  lemma FlatSnoc<A, B>(f: A -> seq<B>, s: seq<A>, i: nat)
    requires i < |s|
    ensures Flat(f, s[..i + 1]) == Flat(f, s[..i]) + f(s[i])
  {
    FlatAppend(f, s[..i], [s[i]]);
    assert s[..i + 1] == s[..i] + [s[i]];
    assert Flat(f, [s[i]]) == f(s[i]);
  }

  lemma TakeOut<A>(u: seq<A>, x: A, v: seq<A>)
    ensures multiset(u + v) == multiset(u + [x] + v) - multiset{x}
  {
    assert multiset(u + [x] + v) == multiset(u) + multiset{x} + multiset(v);
    assert multiset(u + v) == multiset(u) + multiset(v);
  }

  lemma FlatAround<A, B>(f: A -> seq<B>, u: seq<A>, x: A, v: seq<A>)
    ensures multiset(Flat(f, u + [x] + v)) == multiset(f(x)) + multiset(Flat(f, u + v))
  {
    FlatAppend(f, u, v);
    FlatAppend(f, u + [x], v);
    FlatAppend(f, u, [x]);
    assert Flat(f, [x]) == f(x);
  }

  lemma SplitAt<A>(b: seq<A>, x: A) returns (u: seq<A>, v: seq<A>)
    requires x in multiset(b)
    ensures b == u + [x] + v
  {
    var i :| 0 <= i < |b| && b[i] == x;
    u, v := b[..i], b[i + 1..];
  }

  /** A nonempty `a` and a permutation `b` of it, each split around the same element. */
  lemma SplitBoth<A>(a: seq<A>, b: seq<A>) returns (x: A, u: seq<A>, v: seq<A>)
    requires multiset(a) == multiset(b) && a != []
    ensures a == [] + [x] + a[1..] && b == u + [x] + v
    ensures multiset([] + a[1..]) == multiset(u + v)
  {
    x := a[0];
    assert x in multiset(a);
    u, v := SplitAt(b, x);
    assert a == [] + [x] + a[1..];
    TakeOut(u, x, v);
    TakeOut([], x, a[1..]);
  }

  lemma {:induction false} FlatPermutes<A, B>(f: A -> seq<B>, a: seq<A>, b: seq<A>)
    requires multiset(a) == multiset(b)
    ensures multiset(Flat(f, a)) == multiset(Flat(f, b))
    decreases |a|
  {
    hide Flat;
    if a == [] {
      assert |multiset(b)| == 0;
      assert a == b;
    } else {
      var x, u, v := SplitBoth(a, b);
      FlatPermutes(f, [] + a[1..], u + v);
      FlatAround(f, [], x, a[1..]);
      FlatAround(f, u, x, v);
    }
  }

  lemma {:induction false} FlatAlike<A, B>(f: A -> seq<B>, g: A -> seq<B>, s: seq<A>)
    requires forall x :: x in s ==> multiset(f(x)) == multiset(g(x))
    ensures multiset(Flat(f, s)) == multiset(Flat(g, s))
  {
    if s != [] {
      FlatAlike(f, g, s[1..]);
    }
  }

  /** Flattening term by term. */
  lemma {:induction false} FlatSum<A, B>(h: A -> seq<B>, f: A -> seq<B>, g: A -> seq<B>, s: seq<A>)
    requires forall x :: x in s ==> multiset(h(x)) == multiset(f(x)) + multiset(g(x))
    ensures multiset(Flat(h, s)) == multiset(Flat(f, s)) + multiset(Flat(g, s))
  {
    if s != [] {
      FlatSum(h, f, g, s[1..]);
    }
  }

  lemma {:induction false} FlatNone<A, B>(f: A -> seq<B>, s: seq<A>)
    requires forall x :: x in s ==> f(x) == []
    ensures Flat(f, s) == []
  {
    if s != [] {
      FlatNone(f, s[1..]);
    }
  }

  /** Only the one occurrence of `x` adds anything. */
  lemma FlatOnce<A, B>(f: A -> seq<B>, s: seq<A>, x: A)
    requires multiset(s)[x] == 1 && forall y :: y in s && y != x ==> f(y) == []
    ensures multiset(Flat(f, s)) == multiset(f(x))
  {
    var i :| 0 <= i < |s| && s[i] == x;
    var u, v := s[..i], s[i + 1..];
    assert s == u + [x] + v;
    TakeOut(u, x, v);
    assert x !in multiset(u + v);
    FlatAround(f, u, x, v);
    FlatNone(f, u + v);
  }

  /** Flattening twice is flattening once. */
  lemma {:induction false} FlatTwice<A, B, C>(f: A -> seq<B>, g: B -> seq<C>, h: A -> seq<C>, s: seq<A>)
    requires forall x :: x in s ==> multiset(h(x)) == multiset(Flat(g, f(x)))
    ensures multiset(Flat(g, Flat(f, s))) == multiset(Flat(h, s))
  {
    if s != [] {
      FlatTwice(f, g, h, s[1..]);
      FlatAppend(g, f(s[0]), Flat(f, s[1..]));
    }
  }

  // ---- One bag as large as another ----

  lemma SameRest<A>(a: multiset<A>, x: multiset<A>, y: multiset<A>)
    ensures a + x == a + y <==> x == y
  {
    assert a + x - a == x && a + y - a == y;
  }

  lemma {:induction false} FlatFewer<A, B>(f: A -> seq<B>, g: A -> seq<B>, s: seq<A>)
    requires forall x :: x in s ==> f(x) == g(x) || f(x) == []
    ensures |Flat(f, s)| <= |Flat(g, s)|
    ensures |Flat(f, s)| == |Flat(g, s)| ==> forall x :: x in s ==> f(x) == g(x)
  {
    if s != [] {
      FlatFewer(f, g, s[1..]);
      assert s == [s[0]] + s[1..];
    }
  }

  lemma FlatSame<A, B>(f: A -> seq<B>, g: A -> seq<B>, s: seq<A>)
    requires forall x :: x in s ==> f(x) == g(x) || f(x) == []
    ensures multiset(Flat(f, s)) == multiset(Flat(g, s)) <==> forall x :: x in s ==> f(x) == g(x)
  {
    hide Flat;
    FlatFewer(f, g, s);
    assert |multiset(Flat(f, s))| == |Flat(f, s)| && |multiset(Flat(g, s))| == |Flat(g, s)|;
    if forall x :: x in s ==> f(x) == g(x) {
      FlatAlike(f, g, s);
    }
  }
}

/** The rule engine of serverwall-waf/src/engine.rs, with the scorer of serverwall-waf/src/anomaly.rs and the
    compiled rule groups of serverwall-waf/src/rules/rule_set.rs. */
module Waf {
  import opened Bags

  datatype Mode = Blocking | DetectionOnly | Disabled

  datatype Decision = Allow | Block | Log

  datatype MatchId =
    | BodySize
    | HeaderCount
    | UriLength
    | HeaderValueLen(name: string)
    | OfRule(id: nat, description: string)

  datatype Match = Match(id: MatchId, score: nat)

  datatype Target =
    | RequestUri
    | Path
    | QueryString
    | RequestHeaders
    | HeaderValue(name: string)
    | RequestBody
    | Cookies
    | UserAgent
    | RemoteAddr

  datatype Transformation = Lowercase | UrlDecode | HtmlEntityDecode | Base64Decode | RemoveWhitespace | NormalizePath

  datatype Rule = Rule(
    id: nat,
    description: string,
    targets: seq<Target>,
    pattern: string,
    transformations: seq<Transformation>,
    score: nat)

  datatype Group = Group(rules: seq<Rule>, targets: seq<Target>)

  /** Header and cookie tables are hash maps. */
  datatype Request = Request(
    uri: string,
    path: string,
    query: string,
    headers: map<string, string>,
    cookies: map<string, string>,
    body: string,
    bodySize: nat,
    remote: string)

  datatype Limits = Limits(maxBodySize: nat, maxHeaderCount: nat, maxHeaderValueLen: nat, maxUriLength: nat)

  datatype Engine = Engine(
    mode: Mode,
    threshold: nat,
    groups: seq<Group>,
    limits: Limits,
    excludedPaths: seq<string>,
    excludedIps: seq<string>)

  datatype Verdict = Verdict(decision: Decision, matched: seq<MatchId>, score: nat)

  /** What is computed elsewhere: letter case, byte length, the transformations and the regular
      expressions. `fits` says whether a set of patterns compiles, `valid` whether one does. */
  datatype Env = Env(
    lower: string -> string,
    len: string -> nat,
    transform: (string, seq<Transformation>) -> string,
    hit: (string, string) -> bool,
    valid: string -> bool,
    fits: seq<string> -> bool)

  /** The orders in which the two hash maps of a request are walked. */
  datatype Walk = Walk(headers: seq<string>, cookies: seq<string>)

  ghost predicate Enumerates(order: seq<string>, m: map<string, string>) {
    multiset(order) == multiset(m.Keys)
  }

  ghost predicate WalkOf(w: Walk, ctx: Request) {
    Enumerates(w.headers, ctx.headers) && Enumerates(w.cookies, ctx.cookies)
  }

  // ---- Scoring ----

  const MAX_SCORE := 0xFFFF_FFFF

  function SaturatingAdd(a: nat, b: nat): nat { if a + b > MAX_SCORE then MAX_SCORE else a + b }

  /** The score after adding each match in turn. */
  function Score(ms: seq<Match>): nat {
    if ms == [] then 0 else SaturatingAdd(Score(ms[..|ms| - 1]), ms[|ms| - 1].score)
  }

  function Sum(ms: seq<Match>): nat {
    if ms == [] then 0 else Sum(ms[..|ms| - 1]) + ms[|ms| - 1].score
  }

  function Ids(ms: seq<Match>): (r: seq<MatchId>)
    ensures |r| == |ms|
  {
    if ms == [] then [] else Ids(ms[..|ms| - 1]) + [ms[|ms| - 1].id]
  }

  lemma Snoc(ms: seq<Match>, m: Match)
    ensures Score(ms + [m]) == SaturatingAdd(Score(ms), m.score)
    ensures Sum(ms + [m]) == Sum(ms) + m.score
    ensures Ids(ms + [m]) == Ids(ms) + [m.id]
  {
    assert (ms + [m])[..|ms|] == ms;
  }

  /** Saturating step by step is saturating once: the score is the sum, cut off at the largest 32-bit number. */
  lemma {:induction false} ScoreIsSum(ms: seq<Match>)
    ensures Score(ms) == if Sum(ms) > MAX_SCORE then MAX_SCORE else Sum(ms)
  {
    if ms != [] {
      ScoreIsSum(ms[..|ms| - 1]);
    }
  }

  lemma {:induction false} SumAppend(a: seq<Match>, b: seq<Match>)
    ensures Sum(a + b) == Sum(a) + Sum(b) && Ids(a + b) == Ids(a) + Ids(b)
  {
    if b == [] {
      assert a + b == a;
    } else {
      var n := |b| - 1;
      SumAppend(a, b[..n]);
      assert a + b == a + b[..n] + [b[n]];
      Snoc(a + b[..n], b[n]);
    }
  }

  lemma SumAround(u: seq<Match>, x: Match, v: seq<Match>)
    ensures Sum(u + [x] + v) == x.score + Sum(u + v)
    ensures multiset(Ids(u + [x] + v)) == multiset{x.id} + multiset(Ids(u + v))
  {
    hide Sum, Ids;
    SumAppend(u, v);
    SumAppend(u + [x], v);
    Snoc(u, x);
  }

  lemma {:induction false} SumPermutes(a: seq<Match>, b: seq<Match>)
    requires multiset(a) == multiset(b)
    ensures Sum(a) == Sum(b) && multiset(Ids(a)) == multiset(Ids(b))
    decreases |a|
  {
    hide Sum, Ids;
    if a == [] {
      assert |multiset(b)| == 0;
      assert a == b;
    } else {
      var x, u, v := SplitBoth(a, b);
      SumPermutes([] + a[1..], u + v);
      SumAround([], x, a[1..]);
      SumAround(u, x, v);
    }
  }

  lemma ScorePermutes(a: seq<Match>, b: seq<Match>)
    requires multiset(a) == multiset(b)
    ensures Score(a) == Score(b) && multiset(Ids(a)) == multiset(Ids(b))
  {
    hide Score, Sum, Ids;
    SumPermutes(a, b);
    ScoreIsSum(a);
    ScoreIsSum(b);
  }

  lemma ScoreGrows(a: seq<Match>, b: seq<Match>)
    ensures Score(a) <= Score(a + b) && Ids(a) <= Ids(a + b)
  {
    hide Score, Sum, Ids;
    SumAppend(a, b);
    ScoreIsSum(a);
    ScoreIsSum(a + b);
  }

  class AnomalyScorer {
    const threshold: nat
    var currentScore: nat
    var matchedRuleIds: seq<MatchId>
    ghost var added: seq<Match>

    ghost predicate Valid()
      reads this
    {
      currentScore == Score(added) && matchedRuleIds == Ids(added)
    }

    constructor (threshold: nat)
      ensures Valid() && added == [] && this.threshold == threshold
    {
      this.threshold, currentScore, matchedRuleIds, added := threshold, 0, [], [];
    }

    method AddMatch(id: MatchId, score: nat)
      requires Valid()
      modifies this
      ensures Valid() && added == old(added) + [Match(id, score)]
    {
      Snoc(added, Match(id, score));
      currentScore := SaturatingAdd(currentScore, score);
      matchedRuleIds := matchedRuleIds + [id];
      added := added + [Match(id, score)];
    }

    method IsAnomalous() returns (r: bool)
      requires Valid()
      ensures r <==> Score(added) >= threshold
    {
      r := currentScore >= threshold;
    }

    method Reset()
      modifies this
      ensures Valid() && added == []
    {
      currentScore, matchedRuleIds, added := 0, [], [];
    }
  }

  // ---- Limits ----

  function HeaderTooLong(env: Env, limits: Limits, ctx: Request): string -> seq<Match> {
    (name: string) =>
      if name in ctx.headers && env.len(ctx.headers[name]) > limits.maxHeaderValueLen
      then [Match(HeaderValueLen(name), 5)] else []
  }

  function CountMatches(env: Env, limits: Limits, ctx: Request): seq<Match> {
    var body := if limits.maxBodySize > 0 && ctx.bodySize > limits.maxBodySize then [Match(BodySize, 5)] else [];
    var count := if |ctx.headers| > limits.maxHeaderCount then [Match(HeaderCount, 5)] else [];
    var uri := if env.len(ctx.uri) > limits.maxUriLength then [Match(UriLength, 5)] else [];
    body + count + uri
  }

  function LimitMatches(env: Env, limits: Limits, ctx: Request, w: Walk): seq<Match> {
    CountMatches(env, limits, ctx) + Flat(HeaderTooLong(env, limits, ctx), w.headers)
  }

  // ---- Rules ----

  function ValueOf(m: map<string, string>): string -> seq<string> { (k: string) => if k in m then [m[k]] else [] }

  function ValueNamed(env: Env, m: map<string, string>, name: string): string -> seq<string> {
    (k: string) => if k in m && env.lower(k) == env.lower(name) then [m[k]] else []
  }

  function OrNone(s: string): seq<string> { if s == "" then [] else [s] }

  /** The values of a request a target stands for. */
  function Extract(env: Env, ctx: Request, w: Walk): Target -> seq<string> {
    (t: Target) =>
      match t
      case RequestUri => [ctx.uri]
      case Path => [ctx.path]
      case QueryString => OrNone(ctx.query)
      case RequestHeaders => Flat(ValueOf(ctx.headers), w.headers)
      case HeaderValue(name) => Flat(ValueNamed(env, ctx.headers, name), w.headers)
      case RequestBody => OrNone(ctx.body)
      case Cookies => Flat(ValueOf(ctx.cookies), w.cookies)
      case UserAgent =>
        if "user-agent" in ctx.headers then [ctx.headers["user-agent"]]
        else if "User-Agent" in ctx.headers then [ctx.headers["User-Agent"]]
        else []
      case RemoteAddr => [ctx.remote]
  }

  /** The match of one rule on one transformed value. */
  function RuleHit(env: Env, text: string): Rule -> seq<Match> {
    (rule: Rule) => if env.hit(rule.pattern, text) then [Match(OfRule(rule.id, rule.description), rule.score)] else []
  }

  function ValueHits(env: Env, rules: seq<Rule>, ts: seq<Transformation>): string -> seq<Match> {
    (value: string) => Flat(RuleHit(env, env.transform(value, ts)), rules)
  }

  /** A group transforms every value by its first rule's transformations and tests all its patterns at once. */
  function GroupMatches(env: Env, ctx: Request, w: Walk): Group -> seq<Match> {
    (g: Group) =>
      if g.rules == [] then []
      else Flat(ValueHits(env, g.rules, g.rules[0].transformations), Flat(Extract(env, ctx, w), g.targets))
  }

  function RuleMatches(env: Env, groups: seq<Group>, ctx: Request, w: Walk): seq<Match> {
    Flat(GroupMatches(env, ctx, w), groups)
  }

  // ---- Inspection ----

  predicate Excluded(e: Engine, ctx: Request) {
    || e.mode == Disabled
    || ctx.remote in e.excludedIps
    || exists i :: 0 <= i < |e.excludedPaths| && e.excludedPaths[i] <= ctx.path
  }

  predicate ShortCircuit(env: Env, e: Engine, ctx: Request, w: Walk) {
    e.mode == Blocking && Score(LimitMatches(env, e.limits, ctx, w)) >= e.threshold
  }

  /** Every match the engine gathers before it decides. */
  function Gathered(env: Env, e: Engine, ctx: Request, w: Walk): seq<Match> {
    var limits := LimitMatches(env, e.limits, ctx, w);
    if ShortCircuit(env, e, ctx, w) then limits else limits + RuleMatches(env, e.groups, ctx, w)
  }

  function Render(e: Engine, ms: seq<Match>): Verdict {
    var decision :=
      if Score(ms) < e.threshold then Allow
      else match e.mode case Blocking => Block case DetectionOnly => Log case Disabled => Allow;
    Verdict(decision, Ids(ms), Score(ms))
  }

  function Inspection(env: Env, e: Engine, ctx: Request, w: Walk): Verdict {
    if Excluded(e, ctx) then Verdict(Allow, [], 0) else Render(e, Gathered(env, e, ctx, w))
  }

  /** Blocking and detecting agree on every request: one blocks exactly when the other logs. The early exit
      of blocking may only leave matches out, so its list is a prefix and its score no larger. */
  lemma ModesAgree(env: Env, e: Engine, ctx: Request, w: Walk)
    ensures var blocking := Inspection(env, e.(mode := Blocking), ctx, w);
      var detecting := Inspection(env, e.(mode := DetectionOnly), ctx, w);
      && (blocking.decision == Block <==> detecting.decision == Log)
      && (blocking.decision == Allow <==> detecting.decision == Allow)
      && blocking.score <= detecting.score
      && blocking.matched <= detecting.matched
  {
    hide LimitMatches, RuleMatches, Score, Ids;
    ScoreGrows(LimitMatches(env, e.limits, ctx, w), RuleMatches(env, e.groups, ctx, w));
  }

  /** The decision without the early exit: a request that is not excluded is blocked or logged exactly when all
      its limit and rule matches together reach the threshold. */
  lemma DecisionExact(env: Env, e: Engine, ctx: Request, w: Walk)
    ensures var sum := Sum(LimitMatches(env, e.limits, ctx, w)) + Sum(RuleMatches(env, e.groups, ctx, w));
      var anomalous := !Excluded(e, ctx) && (if sum > MAX_SCORE then MAX_SCORE else sum) >= e.threshold;
      var v := Inspection(env, e, ctx, w);
      && (v.decision == Block <==> e.mode == Blocking && anomalous)
      && (v.decision == Log <==> e.mode == DetectionOnly && anomalous)
      && (e.mode == DetectionOnly && !Excluded(e, ctx) ==> v.score == if sum > MAX_SCORE then MAX_SCORE else sum)
  {
    hide LimitMatches, RuleMatches, Score, Sum, Ids, Excluded;
    var limits, rules := LimitMatches(env, e.limits, ctx, w), RuleMatches(env, e.groups, ctx, w);
    ScoreIsSum(limits);
    ScoreIsSum(limits + rules);
    SumAppend(limits, rules);
  }

  /** The headers whose values are too long. */
  function TooLong(env: Env, limits: Limits, ctx: Request): set<string> {
    set name | name in ctx.headers && env.len(ctx.headers[name]) > limits.maxHeaderValueLen
  }

  /** Five for each limit exceeded, and five for each header value that is too long. */
  lemma LimitScore(env: Env, limits: Limits, ctx: Request, w: Walk)
    requires WalkOf(w, ctx)
    ensures Sum(LimitMatches(env, limits, ctx, w)) == 5 * (
        (if limits.maxBodySize > 0 && ctx.bodySize > limits.maxBodySize then 1 else 0)
        + (if |ctx.headers| > limits.maxHeaderCount then 1 else 0)
        + (if env.len(ctx.uri) > limits.maxUriLength then 1 else 0)
        + |TooLong(env, limits, ctx)|)
  {
    hide Flat, Sum, Enumerates;
    var body := if limits.maxBodySize > 0 && ctx.bodySize > limits.maxBodySize then [Match(BodySize, 5)] else [];
    var count := if |ctx.headers| > limits.maxHeaderCount then [Match(HeaderCount, 5)] else [];
    var uri := if env.len(ctx.uri) > limits.maxUriLength then [Match(UriLength, 5)] else [];
    FourSums(body, count, uri, Flat(HeaderTooLong(env, limits, ctx), w.headers));
    EachOnce(w.headers, ctx.headers);
    HeaderScore(env, limits, ctx, w.headers);
    assert LongIn(env, limits, ctx, w.headers) == TooLong(env, limits, ctx);
  }

  lemma FourSums(a: seq<Match>, b: seq<Match>, c: seq<Match>, d: seq<Match>)
    requires Fives(a) && Fives(b) && Fives(c)
    ensures Sum(a + b + c + d) == 5 * (|a| + |b| + |c|) + Sum(d)
  {
    hide Sum, Fives;
    SumAppend(a + b + c, d);
    SumAppend(a + b, c);
    SumAppend(a, b);
    FivesSum(a);
    FivesSum(b);
    FivesSum(c);
  }

  predicate Fives(ms: seq<Match>) { ms == [] || (|ms| == 1 && ms[0].score == 5) }

  lemma FivesSum(ms: seq<Match>)
    requires Fives(ms)
    ensures Sum(ms) == 5 * |ms|
  {
    if ms != [] {
      assert ms[..0] == [];
    }
  }

  ghost predicate Once(order: seq<string>) { forall name :: name in order ==> multiset(order)[name] == 1 }

  lemma EachOnce(order: seq<string>, m: map<string, string>)
    requires Enumerates(order, m)
    ensures Once(order) && forall name :: name in order <==> name in m
  {
    assert forall name :: name in order <==> name in multiset(order);
  }

  lemma RestOnce(name: string, rest: seq<string>)
    requires Once([name] + rest)
    ensures name !in rest && Once(rest)
  {
    assert multiset([name] + rest) == multiset{name} + multiset(rest);
    assert forall x :: x in rest ==> x in [name] + rest;
  }

  function LongIn(env: Env, limits: Limits, ctx: Request, order: seq<string>): set<string> {
    set name | name in order && name in TooLong(env, limits, ctx)
  }

  lemma {:induction false} HeaderScore(env: Env, limits: Limits, ctx: Request, order: seq<string>)
    requires Once(order)
    ensures Sum(Flat(HeaderTooLong(env, limits, ctx), order)) == 5 * |LongIn(env, limits, ctx, order)|
  {
    hide Sum, Once, LongIn, TooLong;
    if order == [] {
      FivesSum([]);
      NoneLong(env, limits, ctx);
    } else {
      var f, name, rest := HeaderTooLong(env, limits, ctx), order[0], order[1..];
      assert order == [name] + rest;
      RestOnce(name, rest);
      HeaderScore(env, limits, ctx, rest);
      SumAppend(f(name), Flat(f, rest));
      FivesSum(f(name));
      OneLong(env, limits, ctx, name, rest);
    }
  }

  lemma NoneLong(env: Env, limits: Limits, ctx: Request)
    ensures LongIn(env, limits, ctx, []) == {}
  {
  }

  lemma OneLong(env: Env, limits: Limits, ctx: Request, name: string, rest: seq<string>)
    requires name !in rest
    ensures |LongIn(env, limits, ctx, [name] + rest)|
         == |LongIn(env, limits, ctx, rest)| + |HeaderTooLong(env, limits, ctx)(name)|
  {
    var all, later := LongIn(env, limits, ctx, [name] + rest), LongIn(env, limits, ctx, rest);
    assert name !in later;
    if name in TooLong(env, limits, ctx) {
      assert all == later + {name};
    } else {
      assert all == later;
    }
  }

  // ---- Order does not matter ----

  lemma ExtractPermutes(env: Env, ctx: Request, w: Walk, w': Walk, t: Target)
    requires WalkOf(w, ctx) && WalkOf(w', ctx)
    ensures multiset(Extract(env, ctx, w)(t)) == multiset(Extract(env, ctx, w')(t))
  {
    hide Flat, ValueOf, ValueNamed;
    FlatPermutes(ValueOf(ctx.headers), w.headers, w'.headers);
    FlatPermutes(ValueOf(ctx.cookies), w.cookies, w'.cookies);
    if t.HeaderValue? {
      FlatPermutes(ValueNamed(env, ctx.headers, t.name), w.headers, w'.headers);
    }
  }

  lemma GroupPermutes(env: Env, ctx: Request, w: Walk, w': Walk, g: Group)
    requires WalkOf(w, ctx) && WalkOf(w', ctx)
    ensures multiset(GroupMatches(env, ctx, w)(g)) == multiset(GroupMatches(env, ctx, w')(g))
  {
    hide Flat, Extract, ValueHits, WalkOf;
    if g.rules != [] {
      forall t | t in g.targets
        ensures multiset(Extract(env, ctx, w)(t)) == multiset(Extract(env, ctx, w')(t))
      {
        ExtractPermutes(env, ctx, w, w', t);
      }
      FlatAlike(Extract(env, ctx, w), Extract(env, ctx, w'), g.targets);
      FlatPermutes(ValueHits(env, g.rules, g.rules[0].transformations),
        Flat(Extract(env, ctx, w), g.targets), Flat(Extract(env, ctx, w'), g.targets));
    }
  }

  lemma RulesPermute(env: Env, groups: seq<Group>, groups': seq<Group>, ctx: Request, w: Walk, w': Walk)
    requires WalkOf(w, ctx) && WalkOf(w', ctx) && multiset(groups) == multiset(groups')
    ensures multiset(RuleMatches(env, groups, ctx, w)) == multiset(RuleMatches(env, groups', ctx, w'))
  {
    hide Flat, GroupMatches, WalkOf;
    forall g | g in groups
      ensures multiset(GroupMatches(env, ctx, w)(g)) == multiset(GroupMatches(env, ctx, w')(g))
    {
      GroupPermutes(env, ctx, w, w', g);
    }
    FlatAlike(GroupMatches(env, ctx, w), GroupMatches(env, ctx, w'), groups);
    FlatPermutes(GroupMatches(env, ctx, w'), groups, groups');
  }

  lemma LimitsPermute(env: Env, limits: Limits, ctx: Request, w: Walk, w': Walk)
    requires WalkOf(w, ctx) && WalkOf(w', ctx)
    ensures multiset(LimitMatches(env, limits, ctx, w)) == multiset(LimitMatches(env, limits, ctx, w'))
  {
    hide Flat;
    FlatPermutes(HeaderTooLong(env, limits, ctx), w.headers, w'.headers);
  }

  /** Neither the order of the rule groups nor that in which the header and cookie maps are walked changes the
      decision or the score, in any mode, nor which matches are reported and how often. */
  lemma OrderIndependent(env: Env, e: Engine, groups: seq<Group>, ctx: Request, w: Walk, w': Walk)
    requires WalkOf(w, ctx) && WalkOf(w', ctx) && multiset(e.groups) == multiset(groups)
    ensures var v := Inspection(env, e, ctx, w);
      var v' := Inspection(env, e.(groups := groups), ctx, w');
      v.decision == v'.decision && v.score == v'.score && multiset(v.matched) == multiset(v'.matched)
  {
    hide LimitMatches, RuleMatches, WalkOf, Score, Ids;
    var l, l' := LimitMatches(env, e.limits, ctx, w), LimitMatches(env, e.limits, ctx, w');
    var r, r' := RuleMatches(env, e.groups, ctx, w), RuleMatches(env, groups, ctx, w');
    LimitsPermute(env, e.limits, ctx, w, w');
    RulesPermute(env, e.groups, groups, ctx, w, w');
    ScorePermutes(l, l');
    ScorePermutes(l + r, l' + r');
  }
}
