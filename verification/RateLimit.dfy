/** Sliding-window rate limiting (serverwall-antispam/src/predata/rate_limit.rs and
    serverwall-antispam/src/storage/rate_db.rs). Times are ticks of a clock. A check reads the clock before it locks
    its entry, so the times of one key may be recorded out of order. */
module RateLimit {

  /** Time since `t`, zero if `t` is not in the past. */
  function Elapsed(now: int, t: int): nat { if now >= t then now - t else 0 }

  /** The times less than `window` ago, in order. */
  function Recent(ts: seq<int>, now: int, window: nat): seq<int> {
    if ts == [] then []
    else
      var before := Recent(ts[..|ts| - 1], now, window);
      if Elapsed(now, ts[|ts| - 1]) < window then before + [ts[|ts| - 1]] else before
  }

  lemma RecentSnoc(ts: seq<int>, t: int, now: int, window: nat)
    ensures Recent(ts + [t], now, window) == Recent(ts, now, window) + if Elapsed(now, t) < window then [t] else []
  {
    assert (ts + [t])[..|ts|] == ts;
  }

  /** The retain-and-push of a record, as a loop over the stored times. */
  method Retain(ts: seq<int>, now: int, window: nat) returns (r: seq<int>)
    ensures r == Recent(ts, now, window)
  {
    r := [];
    for i := 0 to |ts|
      invariant r == Recent(ts[..i], now, window)
    {
      RecentSnoc(ts[..i], ts[i], now, window);
      assert ts[..i + 1] == ts[..i] + [ts[i]];
      if Elapsed(now, ts[i]) < window {
        r := r + [ts[i]];
      }
    }
    assert ts[..|ts|] == ts;
  }

  /** What is stored after recording every time of `history` in turn. */
  function Kept(history: seq<int>, window: nat): seq<int> {
    if history == [] then []
    else
      var n := |history| - 1;
      Recent(Kept(history[..n], window), history[n], window) + [history[n]]
  }

  lemma KeptSnoc(h: seq<int>, t: int, window: nat)
    ensures Kept(h + [t], window) == Recent(Kept(h, window), t, window) + [t]
    ensures Kept([], window) == []
  {
    assert (h + [t])[..|h|] == h;
  }

  /** No time is more than `slack` before one recorded earlier. */
  predicate Slack(ts: seq<int>, slack: nat) { forall i, j :: 0 <= i <= j < |ts| ==> ts[i] <= ts[j] + slack }

  predicate Ordered(ts: seq<int>) { Slack(ts, 0) }

  /** Pruning at an earlier time does not change what is recent now. */
  lemma {:induction false} PruneEarlier(ts: seq<int>, t: int, now: int, window: nat)
    requires t <= now && forall i :: 0 <= i < |ts| ==> ts[i] <= t
    ensures Recent(Recent(ts, t, window), now, window) == Recent(ts, now, window)
  {
    if ts != [] {
      var n := |ts| - 1;
      PruneEarlier(ts[..n], t, now, window);
      RecentSnoc(Recent(ts[..n], t, window), ts[n], now, window);
    }
  }

  lemma {:induction false} RecentTwice(ts: seq<int>, now: int, window: nat)
    ensures Recent(Recent(ts, now, window), now, window) == Recent(ts, now, window)
  {
    if ts != [] {
      var n := |ts| - 1;
      RecentTwice(ts[..n], now, window);
      RecentSnoc(Recent(ts[..n], now, window), ts[n], now, window);
    }
  }

  /** The pruned store agrees with the full history: what is recent in one is recent in the other. */
  lemma {:induction false} KeptAgrees(history: seq<int>, now: int, window: nat)
    requires Ordered(history) && forall i :: 0 <= i < |history| ==> history[i] <= now
    ensures Recent(Kept(history, window), now, window) == Recent(history, now, window)
  {
    hide Recent, Kept;
    KeptSnoc(history, now, window);
    if history != [] {
      var n := |history| - 1;
      var h, t := history[..n], history[n];
      KeptAgrees(h, now, window);
      KeptAgrees(h, t, window);
      PruneEarlier(h, t, now, window);
      KeptSnoc(h, t, window);
      RecentSnoc(Recent(Kept(h, window), t, window), t, now, window);
      RecentSnoc(h, t, now, window);
      assert history == h + [t];
    }
  }

  // ---- The limiter ----

  datatype Verdict = RejectIp | HitSender | HitDomain | Pass

  function Stored(m: map<string, seq<int>>, key: string): seq<int> { if key in m then m[key] else [] }

  function Recorded(m: map<string, seq<int>>, key: string, now: int, window: nat): map<string, seq<int>> {
    m[key := Recent(Stored(m, key), now, window) + [now]]
  }

  /** The store is the pruned form of the histories it stands for. */
  ghost predicate StandsFor(m: map<string, seq<int>>, histories: map<string, seq<int>>, window: nat) {
    m.Keys == histories.Keys && forall k :: k in m ==> m[k] == Kept(histories[k], window)
  }

  /** Recording through the pruned store keeps it standing for the full histories, and if the times of this key came in
      order the count of recent ones is that of the full history. */
  lemma RecordedStandsFor(m: map<string, seq<int>>, h: map<string, seq<int>>, key: string, now: int, window: nat)
    requires StandsFor(m, h, window)
    ensures var m', after := Recorded(m, key, now, window), Stored(h, key) + [now];
      && StandsFor(m', h[key := after], window)
      && (Ordered(after) ==> Recent(m'[key], now, window) == Recent(after, now, window))
  {
    hide Recent, Kept;
    var before := Stored(h, key);
    var after := before + [now];
    KeptSnoc(before, now, window);
    if Ordered(after) {
      assert forall i :: 0 <= i < |after| ==> after[i] <= after[|before|] == now;
      KeptAgrees(after, now, window);
    }
  }

  /** Records an event under its key and counts what is then within the window. */
  method Record(m: map<string, seq<int>>, key: string, now: int, window: nat)
    returns (m': map<string, seq<int>>, count: nat)
    ensures m' == Recorded(m, key, now, window) && key in m' && count == |Recent(m'[key], now, window)|
  {
    hide Recent;
    var kept := Retain(Stored(m, key), now, window);
    m' := m[key := kept + [now]];
    var recent := Retain(m'[key], now, window);
    count := |recent|;
  }

  class Limiter {
    const window: nat
    const maxPerIp: nat
    const maxPerSender: nat
    const maxPerDomain: nat
    var ips: map<string, seq<int>>
    var senders: map<string, seq<int>>
    var domains: map<string, seq<int>>
    ghost var history: map<string, seq<int>>

    /** The per-address store stands for all checks ever made from each address. */
    ghost predicate Valid()
      reads this
    {
      StandsFor(ips, history, window)
    }

    constructor (window: nat, maxPerIp: nat, maxPerSender: nat, maxPerDomain: nat)
      ensures Valid() && history == map[]
      ensures this.window == window && this.maxPerIp == maxPerIp
    {
      this.window, this.maxPerIp, this.maxPerSender, this.maxPerDomain := window, maxPerIp, maxPerSender, maxPerDomain;
      ips, senders, domains, history := map[], map[], map[], map[];
    }

    /** The check of the address, at whatever time: passed exactly when of the kept checks from this address within the
        window, this one included, there are no more than allowed; these are all of them if the times came in order. */
    method CheckIp(ip: string, now: int) returns (passed: bool)
      requires Valid()
      modifies `ips, `history
      ensures Valid() && history == old(history)[ip := Stored(old(history), ip) + [now]]
      ensures ips == Recorded(old(ips), ip, now, window)
      ensures passed <==> Passed(history[ip], |history[ip]| - 1, window, maxPerIp)
      ensures Ordered(history[ip]) ==> (passed <==> |Recent(history[ip], now, window)| <= maxPerIp)
    {
      hide Recent, StandsFor, Recorded, Ordered, Passed;
      var count: nat;
      RecordedStandsFor(ips, history, ip, now, window);
      ips, count := Record(ips, ip, now, window);
      history := history[ip := Stored(history, ip) + [now]];
      LastPassed(ips, history, ip, window, maxPerIp);
      passed := count <= maxPerIp;
    }

    /** One check of a client: the address decides first, then the sender, then the domain. */
    method Check(ip: string, sender: string, domain: string, hasDomain: bool, now: int) returns (v: Verdict)
      requires Valid()
      modifies this
      ensures Valid() && history == old(history)[ip := Stored(old(history), ip) + [now]]
      ensures ips == Recorded(old(ips), ip, now, window)
      ensures v == RejectIp <==> !Passed(history[ip], |history[ip]| - 1, window, maxPerIp)
      ensures Ordered(history[ip]) ==> (v == RejectIp <==> |Recent(history[ip], now, window)| > maxPerIp)
      ensures v == RejectIp ==> senders == old(senders) && domains == old(domains)
      ensures v != RejectIp ==>
        senders == if sender == "" then old(senders) else Recorded(old(senders), sender, now, window)
      ensures v == HitSender ==>
        sender != "" && |Recent(senders[sender], now, window)| > maxPerSender && domains == old(domains)
      ensures v == HitDomain || v == Pass ==>
        && (sender != "" ==> |Recent(senders[sender], now, window)| <= maxPerSender)
        && domains == (if hasDomain then Recorded(old(domains), domain, now, window) else old(domains))
        && (v == HitDomain <==> hasDomain && |Recent(domains[domain], now, window)| > maxPerDomain)
    {
      hide Recent, StandsFor, Recorded, Ordered, Passed;
      var passed := CheckIp(ip, now);
      if !passed {
        return RejectIp;
      }
      var count: nat;
      if sender != "" {
        senders, count := Record(senders, sender, now, window);
        if count > maxPerSender {
          return HitSender;
        }
      }
      if hasDomain {
        domains, count := Record(domains, domain, now, window);
        if count > maxPerDomain {
          return HitDomain;
        }
      }
      v := Pass;
    }
  }

  // ---- The rate it enforces ----

  /** Check `i` of a history was not rejected: of the checks kept by then, itself included, at most `max` were
      recent. */
  predicate Passed(history: seq<int>, i: nat, window: nat, max: nat)
    requires i < |history|
  {
    |Recent(Kept(history[..i + 1], window), history[i], window)| <= max
  }

  lemma LastPassed(m: map<string, seq<int>>, h: map<string, seq<int>>, key: string, window: nat, max: nat)
    requires StandsFor(m, h, window) && key in h && h[key] != []
    ensures var n := |h[key]| - 1;
      Passed(h[key], n, window, max) <==> |Recent(m[key], h[key][n], window)| <= max
  {
    hide Recent, Kept;
    assert h[key][..|h[key]|] == h[key];
  }

  /** A check counts itself and what is left of the store. */
  lemma PassedIs(history: seq<int>, i: nat, window: nat, max: nat)
    requires i < |history| && window > 0
    ensures Passed(history, i, window, max) <==> |Recent(Kept(history[..i], window), history[i], window)| < max
  {
    hide Kept, Recent;
    var now, kept := history[i], Kept(history[..i], window);
    assert history[..i + 1] == history[..i] + [now];
    KeptSnoc(history[..i], now, window);
    RecentTwice(kept, now, window);
    RecentSnoc(Recent(kept, now, window), now, now, window);
  }

  /** Checks among the first `n` that passed and fell into the span of length `span` from `start`. */
  function PassedIn(history: seq<int>, n: nat, start: int, span: nat, window: nat, max: nat): nat
    requires n <= |history|
  {
    if n == 0 then 0
    else
      var before := PassedIn(history, n - 1, start, span, window, max);
      if start <= history[n - 1] < start + span && Passed(history, n - 1, window, max) then before + 1 else before
  }

  /** How many of the times fall into the span. */
  function Within(ts: seq<int>, start: int, span: nat): nat {
    if ts == [] then 0
    else Within(ts[..|ts| - 1], start, span) + if start <= ts[|ts| - 1] < start + span then 1 else 0
  }

  lemma WithinSnoc(ts: seq<int>, t: int, start: int, span: nat)
    ensures Within(ts + [t], start, span) == Within(ts, start, span) + if start <= t < start + span then 1 else 0
    ensures Within([], start, span) == 0
  {
    assert (ts + [t])[..|ts|] == ts;
  }

  /** Pruning loses nothing of the span before its time is a window past the start. */
  lemma {:induction false} WithinPruned(ts: seq<int>, now: int, start: int, span: nat, window: nat)
    requires now < start + window && span <= window
    ensures Within(Recent(ts, now, window), start, span) == Within(ts, start, span)
  {
    if ts != [] {
      var n := |ts| - 1;
      WithinPruned(ts[..n], now, start, span, window);
      WithinSnoc(Recent(ts[..n], now, window), ts[n], start, span);
    }
  }

  lemma {:induction false} WithinKept(history: seq<int>, start: int, span: nat, window: nat)
    requires span <= window && forall i :: 0 <= i < |history| ==> history[i] < start + window
    ensures Within(Kept(history, window), start, span) == Within(history, start, span)
  {
    if history != [] {
      var n := |history| - 1;
      var kept := Kept(history[..n], window);
      WithinKept(history[..n], start, span, window);
      WithinPruned(kept, history[n], start, span, window);
      WithinSnoc(Recent(kept, history[n], window), history[n], start, span);
    }
  }

  /** At a time in the span everything else in it is recent. */
  lemma {:induction false} WithinRecent(ts: seq<int>, now: int, start: int, span: nat, window: nat)
    requires now < start + span && span <= window
    ensures Within(ts, start, span) <= |Recent(ts, now, window)|
  {
    if ts != [] {
      WithinRecent(ts[..|ts| - 1], now, start, span, window);
    }
  }

  lemma {:induction false} PassedWithin(history: seq<int>, n: nat, start: int, span: nat, window: nat, max: nat)
    requires n <= |history|
    ensures PassedIn(history, n, start, span, window, max) <= Within(history[..n], start, span)
  {
    hide Passed, Within;
    if n > 0 {
      PassedWithin(history, n - 1, start, span, window, max);
      WithinSnoc(history[..n - 1], history[n - 1], start, span);
      assert history[..n] == history[..n - 1] + [history[n - 1]];
    }
  }

  /** If times go back by no more than `slack`, no span shorter than the window by as much holds more than `max` checks
      that passed. */
  lemma {:induction false} RateBound(history: seq<int>, n: nat, start: int, span: nat, slack: nat, window: nat,
                                     max: nat)
    requires n <= |history| && Slack(history, slack) && span + slack <= window
    ensures PassedIn(history, n, start, span, window, max) <= max
  {
    hide Recent, Kept, Within;
    if n > 0 {
      RateBound(history, n - 1, start, span, slack, window, max);
      var now := history[n - 1];
      if start <= now < start + span && Passed(history, n - 1, window, max) {
        assert forall i :: 0 <= i < n ==> history[i] <= now + slack < start + window;
        PassedWithin(history, n, start, span, window, max);
        WithinKept(history[..n], start, span, window);
        WithinRecent(Kept(history[..n], window), now, start, span, window);
      }
    }
  }

  // ---- A limit of one ----

  /** The store always holds the latest time. */
  lemma {:induction false} LatestKept(history: seq<int>, window: nat) returns (k: nat)
    requires history != [] && window > 0
    ensures k < |Kept(history, window)|
    ensures forall i :: 0 <= i < |history| ==> history[i] <= Kept(history, window)[k]
  {
    hide Recent, Kept;
    var n := |history| - 1;
    var before, now := history[..n], history[n];
    var kept := Kept(before, window);
    assert history == before + [now];
    KeptSnoc(before, now, window);
    k := |Recent(kept, now, window)|;
    if n > 0 {
      var j := LatestKept(before, window);
      if kept[j] > now {
        k := RecentAt(kept, j, now, window);
      }
    }
  }

  lemma {:induction false} RecentAt(ts: seq<int>, j: nat, now: int, window: nat) returns (k: nat)
    requires j < |ts| && Elapsed(now, ts[j]) < window
    ensures k < |Recent(ts, now, window)| && Recent(ts, now, window)[k] == ts[j]
  {
    var n := |ts| - 1;
    if j < n {
      k := RecentAt(ts[..n], j, now, window);
    } else {
      k := |Recent(ts[..n], now, window)|;
    }
  }

  /** With a limit of one a check passes only if every earlier one is a window past. */
  lemma OnlyOne(history: seq<int>, i: nat, window: nat)
    requires i < |history| && window > 0 && Passed(history, i, window, 1)
    ensures forall j :: 0 <= j < i ==> history[j] + window <= history[i]
  {
    hide Kept, Recent, Passed;
    if i > 0 {
      var now, kept := history[i], Kept(history[..i], window);
      PassedIs(history, i, window, 1);
      var k := LatestKept(history[..i], window);
      if Elapsed(now, kept[k]) < window {
        var x := RecentAt(kept, k, now, window);
      }
      assert forall j :: 0 <= j < i ==> history[j] == history[..i][j];
    }
  }

  /** With a limit of one the bound holds of all histories. */
  lemma {:induction false} OneBound(history: seq<int>, n: nat, start: int, span: nat, window: nat)
    requires n <= |history| && span <= window
    ensures PassedIn(history, n, start, span, window, 1) <= 1
  {
    hide Passed;
    if n > 0 {
      OneBound(history, n - 1, start, span, window);
      if start <= history[n - 1] < start + span && Passed(history, n - 1, window, 1) {
        OnlyOne(history, n - 1, window);
        NoneIn(history, n - 1, start, span, window, 1);
      }
    }
  }

  lemma {:induction false} NoneIn(history: seq<int>, n: nat, start: int, span: nat, window: nat, max: nat)
    requires n <= |history| && forall j :: 0 <= j < n ==> history[j] < start
    ensures PassedIn(history, n, start, span, window, max) == 0
  {
    hide Passed;
    if n > 0 {
      NoneIn(history, n - 1, start, span, window, max);
    }
  }

  // ---- Exactly when the bound holds ----

  function Zeros(n: nat): seq<int> { seq(n, _ => 0) }

  lemma {:induction false} ZerosKept(n: nat, window: nat)
    requires window > 0
    ensures Kept(Zeros(n), window) == Zeros(n) && Recent(Zeros(n), 0, window) == Zeros(n)
    ensures Recent(Zeros(n), window, window) == []
  {
    if n > 0 {
      ZerosKept(n - 1, window);
      assert Zeros(n) == Zeros(n - 1) + [0];
      KeptSnoc(Zeros(n - 1), 0, window);
      RecentSnoc(Zeros(n - 1), 0, 0, window);
      RecentSnoc(Zeros(n - 1), 0, window, window);
    }
  }

  lemma {:induction false} NothingRecent(ts: seq<int>, now: int)
    ensures Recent(ts, now, 0) == []
  {
    if ts != [] {
      NothingRecent(ts[..|ts| - 1], now);
    }
  }

  /** A burst within the limit passes, and so does any burst if the window is empty. */
  lemma {:induction false} BurstPassed(n: nat, more: seq<int>, k: nat, span: nat, window: nat, max: nat)
    requires k <= n && span > 0 && (window == 0 || n <= max)
    ensures PassedIn(Zeros(n) + more, k, 0, span, window, max) == k
  {
    hide Kept, Recent;
    if k > 0 {
      BurstPassed(n, more, k - 1, span, window, max);
      var history := Zeros(n) + more;
      assert history[..k] == Zeros(k) && history[k - 1] == 0;
      if window == 0 {
        NothingRecent(Kept(Zeros(k), window), 0);
      } else {
        ZerosKept(k, window);
      }
    }
  }

  /** A burst at time 0 and one check just when the window is over: `max + 1` in any longer span. */
  lemma LongSpan(span: nat, window: nat, max: nat)
    requires span > window > 0 && max > 0
    ensures PassedIn(Zeros(max) + [window], max + 1, 0, span, window, max) == max + 1
  {
    hide Kept, Recent;
    var history := Zeros(max) + [window];
    BurstPassed(max, [window], max, span, window, max);
    AfterBurst(max, window);
    assert history[..max + 1] == history && history[max] == window;
    assert Passed(history, max, window, max);
  }

  lemma AfterBurst(n: nat, window: nat)
    requires window > 0
    ensures Kept(Zeros(n) + [window], window) == [window] && Recent([window], window, window) == [window]
  {
    ZerosKept(n, window);
    KeptSnoc(Zeros(n), window, window);
    RecentSnoc([], window, window, window);
  }

  /** A burst at time 0, one check when the window is over, whose record clears the burst, and one with an earlier
      time: that one passes too. */
  lemma OutOfOrder(late: nat, span: nat, window: nat, max: nat)
    requires late < span <= window && max >= 2
    ensures PassedIn(Zeros(max) + [window, late], max + 2, 0, span, window, max) == max + 1
  {
    hide Kept, Recent;
    var history := Zeros(max) + [window, late];
    BurstPassed(max, [window, late], max, span, window, max);
    AfterBurst(max, window);
    assert history == Zeros(max) + [window] + [late] && history[..max + 2] == history;
    KeptSnoc(Zeros(max) + [window], late, window);
    RecentSnoc([], window, late, window);
    RecentSnoc([window], late, late, window);
    EmptyRecent(late, window);
    assert [] + [window] == [window];
    assert history[max] == window && history[max + 1] == late;
    assert Passed(history, max + 1, window, max);
  }

  lemma EmptyRecent(now: int, window: nat)
    ensures Recent([], now, window) == []
  {
  }

  /** With a limit of zero nothing passes. */
  lemma {:induction false} ZeroBound(history: seq<int>, n: nat, start: int, span: nat, window: nat)
    requires n <= |history| && window > 0
    ensures PassedIn(history, n, start, span, window, 0) == 0
  {
    hide Passed;
    if n > 0 {
      ZeroBound(history, n - 1, start, span, window);
      PassedIs(history, n - 1, window, 0);
    }
  }

  /** The bound for one history and one span. */
  predicate Bounded(history: seq<int>, start: int, span: nat, window: nat, max: nat) {
    PassedIn(history, |history|, start, span, window, max) <= max
  }

  /** What makes the bound hold: the span is empty, or the limit admits nothing, or the span is no longer than the
      window and either the limit is one or the times go back by no more than the window exceeds the span. */
  predicate Tame(span: nat, slack: nat, window: nat, max: nat) {
    || span == 0
    || (window > 0 && max == 0)
    || (span <= window && (max == 1 || span + slack <= window))
  }

  lemma {:induction false} EmptySpan(history: seq<int>, n: nat, start: int, window: nat, max: nat)
    requires n <= |history|
    ensures PassedIn(history, n, start, 0, window, max) == 0
  {
    hide Passed;
    if n > 0 {
      EmptySpan(history, n - 1, start, window, max);
    }
  }

  lemma TameBounded(history: seq<int>, start: int, span: nat, slack: nat, window: nat, max: nat)
    requires Tame(span, slack, window, max) && Slack(history, slack)
    ensures Bounded(history, start, span, window, max)
  {
    hide PassedIn, Slack;
    if span == 0 {
      EmptySpan(history, |history|, start, window, max);
    } else if max == 0 && window > 0 {
      ZeroBound(history, |history|, start, span, window);
    } else if max == 1 && span <= window {
      OneBound(history, |history|, start, span, window);
    } else {
      RateBound(history, |history|, start, span, slack, window, max);
    }
  }

  lemma WildUnbounded(span: nat, slack: nat, window: nat, max: nat) returns (history: seq<int>)
    requires !Tame(span, slack, window, max)
    ensures Slack(history, slack) && !Bounded(history, 0, span, window, max)
  {
    hide PassedIn;
    if window == 0 {
      history := Zeros(max + 1);
      BurstPassed(max + 1, [], max + 1, span, window, max);
      assert Zeros(max + 1) + [] == history;
    } else if span > window {
      history := Zeros(max) + [window];
      LongSpan(span, window, max);
    } else {
      var late := if window >= slack then window - slack else 0;
      history := Zeros(max) + [window, late];
      OutOfOrder(late, span, window, max);
    }
  }

  /** No span of a given length holds more than `max` checks that passed, in any history whose times go back by no more
      than `slack`, if and only if window, limit, span and slack are tame. For spans of window length that is:
      the times come in order, or the limit is at most one, or the window is empty. */
  lemma RateBoundExact(span: nat, slack: nat, window: nat, max: nat)
    ensures Tame(span, slack, window, max) <==>
      forall history, start | Slack(history, slack) :: Bounded(history, start, span, window, max)
  {
    hide Bounded, Slack, Tame;
    if Tame(span, slack, window, max) {
      forall history, start | Slack(history, slack)
        ensures Bounded(history, start, span, window, max)
      {
        TameBounded(history, start, span, slack, window, max);
      }
    } else {
      var history := WildUnbounded(span, slack, window, max);
      assert !Bounded(history, 0, span, window, max);
    }
  }

  // ---- The counter store ----

  class RateDb {
    const window: nat
    var counters: map<string, seq<int>>

    constructor (window: nat)
      ensures this.window == window && counters == map[]
    {
      this.window := window;
      counters := map[];
    }

    method Increment(key: string, now: int) returns (n: nat)
      modifies this
      ensures counters == Recorded(old(counters), key, now, window) && n == |counters[key]|
    {
      var kept := Retain(Stored(counters, key), now, window);
      counters := counters[key := kept + [now]];
      n := |counters[key]|;
    }

    method GetCount(key: string, now: int) returns (n: nat)
      ensures n == |Recent(Stored(counters, key), now, window)|
    {
      if key in counters {
        var recent := Retain(counters[key], now, window);
        n := |recent|;
      } else {
        n := 0;
      }
    }
  }

  /** The number `Increment` returns is the count a query at the same time gives, if and only if the
      window is not empty: an event is never within an empty window, not even its own. */
  lemma IncrementExact(m: map<string, seq<int>>, key: string, now: int, window: nat)
    ensures var m' := Recorded(m, key, now, window);
      |m'[key]| == |Recent(Stored(m', key), now, window)| <==> window > 0
  {
    var kept := Recent(Stored(m, key), now, window);
    RecentTwice(Stored(m, key), now, window);
    RecentSnoc(kept, now, now, window);
  }
}
