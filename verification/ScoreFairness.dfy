/**
 * What the greedy rule "take the link with the highest throughput / (1 + active)"
 * achieves: it is the highest-averages method of apportionment, run one
 * connection at a time.
 */
module ScoreFairness {
  import opened Sums

  /** Links with a throughput each; a link that may not be picked counts with throughput zero. */
  ghost predicate Rates(t: seq<real>) {
    forall i :: 0 <= i < |t| ==> t[i] >= 0.0
  }

  /** Link i has the highest score when link k carries a[k] connections, and is worth picking. */
  ghost predicate Greedy(t: seq<real>, a: seq<nat>, i: nat)
    requires |t| == |a|
  {
    && i < |t| && t[i] > 0.0
    && forall j :: 0 <= j < |t| ==> ScoresNoMore(t, a, j, i)
  }

  ghost predicate ScoresNoMore(t: seq<real>, a: seq<nat>, j: nat, i: nat)
    requires |t| == |a| && i < |t| && j < |t|
  {
    t[j] / (1 + a[j]) as real <= t[i] / (1 + a[i]) as real
  }

  /** The picks lead from allocation a to b, each one greedy when it is made; ties may fall either way. */
  ghost predicate GreedyRun(t: seq<real>, a: seq<nat>, picks: seq<nat>, b: seq<nat>)
    requires |t| == |a|
    decreases |picks|
  {
    if picks == [] then a == b
    else Greedy(t, a, picks[0]) && GreedyRun(t, a[picks[0] := a[picks[0]] + 1], picks[1..], b)
  }

  /** No link would be better off with one of another link's connections. */
  ghost predicate Balanced(t: seq<real>, a: seq<nat>)
    requires |t| == |a|
  {
    forall i, j :: 0 <= i < |t| && 0 <= j < |t| ==> NoEnvy(t, a, i, j)
  }

  ghost predicate NoEnvy(t: seq<real>, a: seq<nat>, i: nat, j: nat)
    requires |t| == |a| && i < |t| && j < |t|
  {
    t[j] * (a[i] + 1) as real >= t[i] * a[j] as real
  }

  lemma CrossMultiply(x: real, y: real, m: nat, n: nat)
    requires m > 0 && n > 0
    ensures x / m as real <= y / n as real <==> x * n as real <= y * m as real
  {
    var (p, q) := (x / m as real, y / n as real);
    var k := m as real * n as real;
    assert p * m as real == x && q * n as real == y;
    assert p * k == x * n as real;
    assert q * k == y * m as real;
    if p <= q {
      MulKeepsOrder(p, q, k);
    } else {
      StrictMulKeepsOrder(q, p, k);
    }
  }

  lemma MulKeepsOrder(p: real, q: real, k: real)
    requires p <= q && k >= 0.0
    ensures p * k <= q * k
  {
  }

  lemma StrictMulKeepsOrder(p: real, q: real, k: real)
    requires p < q && k > 0.0
    ensures p * k < q * k
  {
  }

  lemma GreedyKeepsBalance(t: seq<real>, a: seq<nat>, p: nat)
    requires |t| == |a| && Rates(t) && Balanced(t, a) && Greedy(t, a, p)
    ensures Balanced(t, a[p := a[p] + 1])
  {
    var b := a[p := a[p] + 1];
    forall i, j | 0 <= i < |t| && 0 <= j < |t| ensures NoEnvy(t, b, i, j) {
      assert NoEnvy(t, a, i, j);
      if j == p {
        assert ScoresNoMore(t, a, i, p);
        CrossMultiply(t[i], t[p], 1 + a[i], 1 + a[p]);
        if i == p {
          MulKeepsOrder(b[p] as real, (b[p] + 1) as real, t[p]);
        }
      } else if i == p {
        MulKeepsOrder((a[p] + 1) as real, (b[p] + 1) as real, t[j]);
        assert t[j] * (b[p] + 1) as real >= t[j] * (a[p] + 1) as real;
      }
    }
  }

  lemma {:induction false} GreedyRunKeepsBalance(t: seq<real>, a: seq<nat>, picks: seq<nat>, b: seq<nat>)
    requires |t| == |a| && Rates(t) && Balanced(t, a) && GreedyRun(t, a, picks, b)
    ensures |b| == |t| && Balanced(t, b)
    ensures Sum(b) == Sum(a) + |picks|
    ensures forall j :: 0 <= j < |t| && b[j] > a[j] ==> t[j] > 0.0
    decreases |picks|
  {
    if picks != [] {
      var p := picks[0];
      GreedyKeepsBalance(t, a, p);
      SumUpdate(a, p, a[p] + 1);
      GreedyRunKeepsBalance(t, a[p := a[p] + 1], picks[1..], b);
    }
  }

  ghost predicate Idle(a: seq<nat>) {
    forall i :: 0 <= i < |a| ==> a[i] == 0
  }

  lemma IdleIsBalanced(t: seq<real>, a: seq<nat>)
    requires |t| == |a| && Rates(t) && Idle(a)
    ensures Balanced(t, a) && Sum(a) == 0
  {
    SumOfZeros(a);
    forall i, j | 0 <= i < |t| && 0 <= j < |t| ensures NoEnvy(t, a, i, j) {
    }
  }

  /** What is known of an allocation of n connections that greedy picks from idle led to. */
  ghost predicate Reached(t: seq<real>, b: seq<nat>, n: nat) {
    && |b| == |t| && Balanced(t, b) && Sum(b) == n
    && forall j :: 0 <= j < |t| && b[j] > 0 ==> t[j] > 0.0
  }

  lemma FromIdle(t: seq<real>, a: seq<nat>, picks: seq<nat>, b: seq<nat>)
    requires |t| == |a| && Rates(t) && Idle(a) && GreedyRun(t, a, picks, b)
    ensures Reached(t, b, |picks|)
  {
    IdleIsBalanced(t, a);
    GreedyRunKeepsBalance(t, a, picks, b);
  }

  lemma BalancedShares(t: seq<real>, b: seq<nat>, i: nat, j: nat)
    requires |t| == |b| && Balanced(t, b) && i < |t| && j < |t| && b[j] >= 1
    ensures t[i] / (b[i] + 1) as real <= t[j] / b[j] as real
  {
    assert NoEnvy(t, b, i, j);
    CrossMultiply(t[i], t[j], b[i] + 1, b[j]);
  }

  /** After any number of picks from idle, moving a connection from one link to another cannot raise its share. */
  lemma NoConnectionGainsByMoving(t: seq<real>, a: seq<nat>, picks: seq<nat>, b: seq<nat>, i: nat, j: nat)
    requires |t| == |a| && Rates(t) && Idle(a) && GreedyRun(t, a, picks, b)
    requires i < |t| && j < |t|
    ensures |b| == |t| && (b[j] >= 1 ==> t[i] / (b[i] + 1) as real <= t[j] / b[j] as real)
  {
    FromIdle(t, a, picks, b);
    if b[j] >= 1 {
      BalancedShares(t, b, i, j);
    }
  }

  // ----- max-min fairness -------------------------------------------------

  /** Link j's connections have the worst share of the allocation. */
  ghost predicate WorstShare(t: seq<real>, a: seq<nat>, j: nat)
    requires |t| == |a|
  {
    && j < |a| && a[j] >= 1
    && forall k :: 0 <= k < |a| && a[k] >= 1 ==> t[j] / a[j] as real <= t[k] / a[k] as real
  }

  lemma {:induction false} FindWorst(t: seq<real>, a: seq<nat>, hi: nat, some: nat) returns (j: nat)
    requires |t| == |a| && some < hi <= |a| && a[some] >= 1
    ensures j < hi && a[j] >= 1
    ensures forall k :: 0 <= k < hi && a[k] >= 1 ==> t[j] / a[j] as real <= t[k] / a[k] as real
    decreases hi
  {
    if some == hi - 1 && forall k :: 0 <= k < hi - 1 ==> a[k] == 0 {
      j := some;
    } else {
      var s := some;
      if some == hi - 1 {
        s :| 0 <= s < hi - 1 && a[s] != 0;
      }
      j := FindWorst(t, a, hi - 1, s);
      if a[hi - 1] >= 1 && t[hi - 1] / a[hi - 1] as real < t[j] / a[j] as real {
        j := hi - 1;
      }
    }
  }

  lemma {:induction false} SomeLinkGotMore(b: seq<nat>, c: seq<nat>)
    requires |b| == |c| && Sum(b) <= Sum(c) && b != c
    ensures exists i :: 0 <= i < |c| && c[i] > b[i]
  {
    var n := |b| - 1;
    if c[n] <= b[n] {
      assert b == b[..n] + [b[n]] && c == c[..n] + [c[n]];
      assert b[..n] != c[..n];
      SomeLinkGotMore(b[..n], c[..n]);
      var i :| 0 <= i < n && c[..n][i] > b[..n][i];
      assert c[i] > b[i];
    }
  }

  lemma {:induction false} SomeConnection(c: seq<nat>)
    requires Sum(c) > 0
    ensures exists i :: 0 <= i < |c| && c[i] >= 1
  {
    if c[|c| - 1] == 0 {
      SomeConnection(c[..|c| - 1]);
      var i :| 0 <= i < |c| - 1 && c[..|c| - 1][i] >= 1;
      assert c[i] >= 1;
    }
  }

  lemma BalancedIsMaxMin(t: seq<real>, b: seq<nat>, c: seq<nat>, n: nat) returns (j: nat)
    requires |t| == |c| && Rates(t) && Reached(t, b, n) && Sum(c) == n > 0
    ensures WorstShare(t, c, j)
    ensures forall k :: 0 <= k < |b| && b[k] >= 1 ==> t[j] / c[j] as real <= t[k] / b[k] as real
  {
    SomeConnection(c);
    var some :| 0 <= some < |c| && c[some] >= 1;
    j := FindWorst(t, c, |c|, some);
    if b != c {
      SomeLinkGotMore(b, c);
      var i :| 0 <= i < |c| && c[i] > b[i];
      FewerShareMore(t[i], b[i] + 1, c[i]);
      forall k | 0 <= k < |b| && b[k] >= 1 ensures t[j] / c[j] as real <= t[k] / b[k] as real {
        BalancedShares(t, b, i, k);
      }
    }
  }

  lemma FewerShareMore(x: real, m: nat, n: nat)
    requires 0 < m <= n && x >= 0.0
    ensures x / n as real <= x / m as real
  {
    CrossMultiply(x, x, n, m);
    MulKeepsOrder(m as real, n as real, x);
  }

  /**
   * Greedy picks from idle are max-min fair: of all ways to place the same number
   * of connections, none gives its worst-off connection a better share.
   */
  lemma GreedyIsMaxMin(t: seq<real>, a: seq<nat>, picks: seq<nat>, b: seq<nat>, c: seq<nat>) returns (j: nat)
    requires |t| == |a| == |c| && Rates(t) && Idle(a) && GreedyRun(t, a, picks, b)
    requires picks != [] && Sum(c) == |picks|
    ensures |b| == |t| && WorstShare(t, c, j)
    ensures forall k :: 0 <= k < |b| && b[k] >= 1 ==> t[j] / c[j] as real <= t[k] / b[k] as real
  {
    FromIdle(t, a, picks, b);
    j := BalancedIsMaxMin(t, b, c, |picks|);
  }

  // ----- the lower quota --------------------------------------------------

  /** The throughputs add up to total. */
  ghost predicate AddUpTo(t: seq<real>, total: real) {
    if t == [] then total == 0.0 else AddUpTo(t[..|t| - 1], total - t[|t| - 1])
  }

  /** Adding up "link j does not envy link i" over the first n links. */
  lemma {:induction false} QuotaSum(t: seq<real>, total: real, b: seq<nat>, i: nat, n: nat)
    requires |t| == |b| && i < |t| && n <= |t| && Balanced(t, b) && AddUpTo(t[..n], total)
    ensures total * (b[i] + 1) as real >= t[i] * Sum(b[..n]) as real + (if i < n then t[i] else 0.0)
    decreases n
  {
    if n > 0 {
      assert t[..n][..n - 1] == t[..n - 1] && b[..n][..n - 1] == b[..n - 1];
      var x := total - t[n - 1];
      QuotaSum(t, x, b, i, n - 1);
      assert NoEnvy(t, b, i, n - 1);
      var y := (b[i] + 1) as real;
      assert (x + t[n - 1]) * y == x * y + t[n - 1] * y;
      var m := Sum(b[..n - 1]);
      assert t[i] * (m + b[n - 1]) as real == t[i] * m as real + t[i] * b[n - 1] as real;
      if i == n - 1 {
        assert t[i] * (b[i] + 1) as real == t[i] * b[i] as real + t[i];
      }
    } else {
      assert t[..0] == [] && b[..0] == [];
    }
  }

  /** With one connection more, k would be above the proportional part of n by a whole connection. */
  ghost predicate OneMoreExceeds(total: real, k: nat, x: real, n: nat) {
    total * (k + 1) as real >= x * n as real + x
  }

  lemma WholeQuotaSum(t: seq<real>, total: real, b: seq<nat>, i: nat, n: nat)
    requires |t| == |b| && i < |t| && Balanced(t, b) && AddUpTo(t, total) && Sum(b) == n
    ensures OneMoreExceeds(total, b[i], t[i], n)
  {
    assert t[..|t|] == t && b[..|t|] == b;
    QuotaSum(t, total, b, i, |t|);
  }

  /** q is at most the proportional part of n connections for a link of this rate: n * rate / total. */
  ghost predicate InQuota(q: nat, n: nat, rate: real, total: real) {
    q as real * total <= n as real * rate
  }

  lemma FactorPositive(s: real, y: real)
    requires s * y > 0.0 && y > 0.0
    ensures s > 0.0
  {
  }

  lemma QuotaBound(x: real, total: real, n: nat, k: nat, q: nat)
    requires x > 0.0
    requires OneMoreExceeds(total, k, x, n)
    requires InQuota(q, n, x, total)
    ensures q <= k
  {
    assert x * n as real == n as real * x >= 0.0;
    FactorPositive(total, (k + 1) as real);
    if q > k {
      MulKeepsOrder((k + 1) as real, q as real, total);
    }
  }

  lemma BalancedMeetsLowerQuota(t: seq<real>, total: real, b: seq<nat>, i: nat, n: nat, q: nat)
    requires |t| == |b| && i < |t| && Balanced(t, b) && Sum(b) == n && t[i] > 0.0 && AddUpTo(t, total)
    requires InQuota(q, n, t[i], total)
    ensures q <= b[i]
  {
    WholeQuotaSum(t, total, b, i, n);
    QuotaBound(t[i], total, n, b[i], q);
  }

  /**
   * Every link carries at least its proportional part of the connections, rounded
   * down: a whole number that is at most that part is at most the link's load.
   */
  lemma GreedyMeetsLowerQuota(t: seq<real>, total: real, a: seq<nat>, picks: seq<nat>, b: seq<nat>, i: nat, n: nat, q: nat)
    requires |t| == |a| && Rates(t) && AddUpTo(t, total) && Idle(a) && GreedyRun(t, a, picks, b) && |picks| == n
    requires i < |t| && t[i] > 0.0
    requires InQuota(q, n, t[i], total)
    ensures |b| == |t| && q <= b[i]
  {
    FromIdle(t, a, picks, b);
    BalancedMeetsLowerQuota(t, total, b, i, n, q);
  }
}
