/** Round-robin selection (serverwall-core/src/balancer/round_robin.rs). */
module RoundRobin {

  datatype Choice = NoBackend | Chosen(index: nat)

  /** The counter is an unsigned machine word of 64 bits. */
  const WORD := 0x1_0000_0000_0000_0000

  /** Positions of the available backends, in order. */
  function Positions(available: seq<bool>): (r: seq<nat>)
    ensures forall i :: 0 <= i < |r| ==> r[i] < |available| && available[r[i]]
    ensures forall i, j :: 0 <= i < j < |r| ==> r[i] < r[j]
  {
    if available == [] then []
    else
      var n := |available| - 1;
      var before := Positions(available[..n]);
      if available[n] then before + [n] else before
  }

  /** Every available backend has a place in the list. */
  lemma {:induction false} PlaceOf(available: seq<bool>, b: nat) returns (j: nat)
    requires b < |available| && available[b]
    ensures j < |Positions(available)| && Positions(available)[j] == b
  {
    var n := |available| - 1;
    if b == n {
      j := |Positions(available)| - 1;
    } else {
      j := PlaceOf(available[..n], b);
    }
  }

  function Choose(available: seq<bool>, counter: nat): Choice {
    var at := Positions(available);
    if at == [] then NoBackend else Chosen(at[counter % |at|])
  }

  function Bump(counter: nat): nat { (counter + 1) % WORD }

  class Balancer {
    var counter: nat

    constructor ()
      ensures counter == 0
    {
      counter := 0;
    }

    /** The counter moves only when some backend is available. */
    method Select(available: seq<bool>) returns (choice: Choice)
      requires counter < WORD
      modifies this
      ensures choice == Choose(available, old(counter))
      ensures choice == NoBackend <==> true !in available
      ensures counter == (if choice == NoBackend then old(counter) else Bump(old(counter))) < WORD
    {
      var at: seq<nat> := [];
      for i := 0 to |available|
        invariant at == Positions(available[..i])
      {
        assert available[..i + 1][..i] == available[..i];
        if available[i] {
          at := at + [i];
        }
      }
      assert available[..|available|] == available;
      if |at| == 0 {
        if true in available {
          var b :| 0 <= b < |available| && available[b] == true;
          var _ := PlaceOf(available, b);
        }
        return NoBackend;
      }
      var idx := counter % |at|;
      counter := (counter + 1) % WORD;
      assert available[at[idx]];
      choice := Chosen(at[idx]);
    }
  }

  /** How often `n` consecutive selections from `counter` on, with a fixed set of available backends,
      choose backend `b`. */
  function Served(available: seq<bool>, counter: nat, n: nat, b: nat): nat
    decreases n
  {
    if n == 0 then 0
    else (if Choose(available, counter) == Chosen(b) then 1 else 0) + Served(available, Bump(counter), n - 1, b)
  }

  // ---- Remainders ----

  lemma Multiple(x: int, k: int, n: int)
    requires n > 0 && k > 0
    ensures -k < x < k || x * n >= k * n || x * n <= -(k * n)
  {
    if x >= k {
      assert x * n == k * n + (x - k) * n;
    } else if x <= -k {
      assert x * n == -(k * n) - (-k - x) * n;
    }
  }

  lemma Between(x: int, n: int)
    requires n > 0 && -n < x * n < n
    ensures x == 0
  {
    Multiple(x, 1, n);
  }

  lemma Remainder(x: int, q: int, r: int, n: int)
    requires x == q * n + r && 0 <= r < n
    ensures x % n == r
  {
    var d := x / n - q;
    assert d * n == (x / n) * n - q * n;
    Between(d, n);
  }

  /** Selections still to go before a counter at `c` reaches a multiple-of-`n` offset `j`. */
  function Wait(c: int, j: int, n: int): (d: int)
    requires n > 0
    ensures 0 <= d < n
  {
    (j - c) % n
  }

  lemma WaitZero(c: int, j: int, n: int)
    requires 0 <= j < n
    ensures c % n == j <==> Wait(c, j, n) == 0
  {
    if c % n == j {
      assert j - c == (-(c / n)) * n + 0;
      Remainder(j - c, -(c / n), 0, n);
    }
    if Wait(c, j, n) == 0 {
      var q := (j - c) / n;
      assert c == (-q) * n + j;
      Remainder(c, -q, j, n);
    }
  }

  lemma WaitNext(c: int, j: int, n: int)
    requires n > 0
    ensures Wait(c + 1, j, n) == if Wait(c, j, n) == 0 then n - 1 else Wait(c, j, n) - 1
  {
    var q, d := (j - c) / n, Wait(c, j, n);
    if d == 0 {
      assert j - (c + 1) == (q - 1) * n + (n - 1);
      Remainder(j - (c + 1), q - 1, n - 1, n);
    } else {
      Remainder(j - (c + 1), q, d - 1, n);
    }
  }

  // ---- Fairness ----

  /** How many of the `n` numbers from `c` on leave remainder `j`. */
  function Hits(c: nat, n: nat, j: nat, m: nat): nat
    requires m > 0
    decreases n
  {
    if n == 0 then 0 else (if c % m == j then 1 else 0) + Hits(c + 1, n - 1, j, m)
  }

  /** The count is the only number within these bounds. */
  lemma {:induction false} HitsBounds(c: nat, n: nat, j: nat, m: nat)
    requires j < m
    ensures n - Wait(c, j, m) <= Hits(c, n, j, m) * m < n - Wait(c, j, m) + m
    decreases n
  {
    hide Wait;
    if n > 0 {
      WaitZero(c, j, m);
      WaitNext(c, j, m);
      HitsBounds(c + 1, n - 1, j, m);
      BoundStep(Hits(c + 1, n - 1, j, m), c % m == j, n, Wait(c, j, m), Wait(c + 1, j, m), m);
    }
  }

  lemma BoundStep(rest: int, hit: bool, n: int, w: int, w': int, m: int)
    requires n - 1 - w' <= rest * m < n - 1 - w' + m
    requires hit <==> w == 0
    requires w' == if w == 0 then m - 1 else w - 1
    ensures n - w <= (rest + if hit then 1 else 0) * m < n - w + m
  {
    assert (rest + 1) * m == rest * m + m;
  }

  lemma {:induction false} HitsShift(c: nat, d: nat, n: nat, j: nat, m: nat)
    requires m > 0 && d % m == 0
    ensures Hits(c + d, n, j, m) == Hits(c, n, j, m)
    decreases n
  {
    if n > 0 {
      assert c + d == (c / m + d / m) * m + c % m;
      Remainder(c + d, c / m + d / m, c % m, m);
      HitsShift(c + 1, d, n - 1, j, m);
    }
  }

  lemma BumpIs(c: nat)
    requires c < WORD
    ensures Bump(c) == if c + 1 < WORD then c + 1 else 0
  {
  }

  lemma ChooseAt(available: seq<bool>, c: nat, j: nat)
    requires j < |Positions(available)|
    ensures Choose(available, c) == Chosen(Positions(available)[j]) <==> c % |Positions(available)| == j
  {
  }

  /** Up to the wrap the choices follow the counter, and beyond it too if the list length divides the
      word size. */
  lemma {:induction false} ServedHits(available: seq<bool>, c: nat, n: nat, j: nat)
    requires j < |Positions(available)| && c < WORD
    requires c + n <= WORD || WORD % |Positions(available)| == 0
    ensures Served(available, c, n, Positions(available)[j]) == Hits(c, n, j, |Positions(available)|)
    decreases n
  {
    hide Positions, Choose, Bump;
    if n > 0 {
      ChooseAt(available, c, j);
      BumpIs(c);
      if c + 1 < WORD {
        ServedHits(available, c + 1, n - 1, j);
      } else if n > 1 {
        ServedHits(available, 0, n - 1, j);
        HitsShift(0, WORD, n - 1, j, |Positions(available)|);
      }
    }
  }

  lemma {:induction false} ServedSplit(available: seq<bool>, c: nat, n: nat, k: nat, b: nat)
    requires c + n == WORD && n > 0
    ensures Served(available, c, n + k, b) == Served(available, c, n, b) + Served(available, 0, k, b)
    decreases n
  {
    hide Choose, Bump;
    BumpIs(c);
    if n > 1 {
      ServedSplit(available, c + 1, n - 1, k, b);
    }
  }

  lemma Near(x: int, y: int, m: int)
    requires m > 0 && -2 * m < x * m - y * m < 2 * m
    ensures -1 <= x - y <= 1
  {
    assert (x - y) * m == x * m - y * m;
    Multiple(x - y, 2, m);
  }

  lemma HitsFair(c: nat, n: nat, j: nat, j': nat, m: nat)
    requires j < m && j' < m
    ensures -1 <= Hits(c, n, j, m) - Hits(c, n, j', m) <= 1
  {
    HitsBounds(c, n, j, m);
    HitsBounds(c, n, j', m);
    Near(Hits(c, n, j, m), Hits(c, n, j', m), m);
  }

  ghost predicate Usable(available: seq<bool>, b: nat) { b < |available| && available[b] }

  ghost predicate Within(x: int, y: int, k: nat) { y - k <= x <= y + k }

  /** Between two wraps any window of selections serves any two available backends equally often, give or
      take one, and an unavailable one never. */
  lemma Fair(available: seq<bool>, c: nat, n: nat, b: nat, b': nat)
    requires c < WORD && c + n <= WORD && Usable(available, b) && Usable(available, b')
    ensures Within(Served(available, c, n, b), Served(available, c, n, b'), 1)
  {
    var j := PlaceOf(available, b);
    var j' := PlaceOf(available, b');
    ServedHits(available, c, n, j);
    ServedHits(available, c, n, j');
    HitsFair(c, n, j, j', |Positions(available)|);
  }

  lemma {:induction false} UnavailableNeverServed(available: seq<bool>, c: nat, n: nat, b: nat)
    requires !Usable(available, b)
    ensures Served(available, c, n, b) == 0
    decreases n
  {
    if n > 0 {
      UnavailableNeverServed(available, Bump(c), n - 1, b);
    }
  }

  lemma HitsRounds(c: nat, n: nat, k: nat, j: nat, m: nat)
    requires j < m && n == k * m
    ensures Hits(c, n, j, m) == k
  {
    hide Hits;
    HitsBounds(c, n, j, m);
    var h := Hits(c, n, j, m);
    assert (h - k) * m == h * m - n;
    Between(h - k, m);
  }

  /** `k` rounds serve every available backend exactly `k` times. */
  lemma FairRounds(available: seq<bool>, c: nat, k: nat, b: nat)
    requires Usable(available, b) && c < WORD && c + k * |Positions(available)| <= WORD
    ensures Served(available, c, k * |Positions(available)|, b) == k
  {
    hide Positions, Served, Hits;
    var j := PlaceOf(available, b);
    var m := |Positions(available)|;
    var n := k * m;
    ServedHits(available, c, n, j);
    HitsRounds(c, n, k, j, m);
  }

  /** A window that crosses the wrap once is within two. */
  lemma FairAcrossWrap(available: seq<bool>, c: nat, n: nat, b: nat, b': nat)
    requires c < WORD && c + n <= 2 * WORD && Usable(available, b) && Usable(available, b')
    ensures Within(Served(available, c, n, b), Served(available, c, n, b'), 2)
  {
    if c + n <= WORD {
      Fair(available, c, n, b, b');
    } else {
      var k := c + n - WORD;
      ServedSplit(available, c, n - k, k, b);
      ServedSplit(available, c, n - k, k, b');
      Fair(available, c, n - k, b, b');
      Fair(available, 0, k, b, b');
    }
  }

  ghost predicate FairAlways(available: seq<bool>) {
    forall c: nat, n: nat, b, b' :: c < WORD && Usable(available, b) && Usable(available, b') ==>
      Within(Served(available, c, n, b), Served(available, c, n, b'), 1)
  }

  lemma FairIfDivides(available: seq<bool>)
    requires |Positions(available)| > 0 && WORD % |Positions(available)| == 0
    ensures FairAlways(available)
  {
    forall c: nat, n: nat, b, b' | c < WORD && Usable(available, b) && Usable(available, b')
      ensures Within(Served(available, c, n, b), Served(available, c, n, b'), 1)
    {
      var j := PlaceOf(available, b);
      var j' := PlaceOf(available, b');
      ServedHits(available, c, n, j);
      ServedHits(available, c, n, j');
      HitsFair(c, n, j, j', |Positions(available)|);
    }
  }

  /** `r` numbers from a multiple of `m` on, `r < m`, hit 0 once and never `m - 1`. */
  lemma {:induction false} ShortWindow(q: nat, from: nat, r: nat, j: nat, m: nat)
    requires from + r < m && j < m
    ensures Hits(q * m + from, r, j, m) == if from <= j < from + r then 1 else 0
    decreases r
  {
    if r > 0 {
      Remainder(q * m + from, q, from, m);
      ShortWindow(q, from + 1, r - 1, j, m);
    }
  }

  /** If the list length does not divide the word size, the `r + 1` selections from the last full round
      before the wrap serve the first backend twice and the last one not at all. */
  lemma UnfairSeam(available: seq<bool>)
    requires var m := |Positions(available)|; m > 0 && WORD % m != 0
    ensures var at := Positions(available); var r := WORD % |at|;
      && Served(available, WORD - r, r + 1, at[0]) == 2
      && Served(available, WORD - r, r + 1, at[|at| - 1]) == 0
  {
    hide Positions, Choose, Served, Hits;
    var at := Positions(available);
    var m := |at|;
    var r, q := WORD % m, WORD / m;
    assert WORD - r == q * m;
    ServedSplit(available, WORD - r, r, 1, at[0]);
    ServedSplit(available, WORD - r, r, 1, at[m - 1]);
    ServedHits(available, WORD - r, r, 0);
    ServedHits(available, WORD - r, r, m - 1);
    ServedHits(available, 0, 1, 0);
    ServedHits(available, 0, 1, m - 1);
    ShortWindow(q, 0, r, 0, m);
    ShortWindow(q, 0, r, m - 1, m);
    ShortWindow(0, 0, 1, 0, m);
    ShortWindow(0, 0, 1, m - 1, m);
  }

  /** Selections stay within one of each other across every wrap if and only if the number of available
      backends divides the word size. */
  lemma FairAlwaysExact(available: seq<bool>)
    requires |Positions(available)| > 0
    ensures FairAlways(available) <==> WORD % |Positions(available)| == 0
  {
    hide Positions, Served;
    var at := Positions(available);
    if WORD % |at| == 0 {
      FairIfDivides(available);
    } else {
      UnfairSeam(available);
      assert Usable(available, at[0]) && Usable(available, at[|at| - 1]);
      assert !Within(Served(available, WORD - WORD % |at|, WORD % |at| + 1, at[0]),
          Served(available, WORD - WORD % |at|, WORD % |at| + 1, at[|at| - 1]), 1);
    }
  }
}
