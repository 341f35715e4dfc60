/** The balancer's picks by score on warm links are the greedy picks whose fairness ScoreFairness shows. */
module ScorePicks {
  import opened Prelude
  import opened Sums
  import opened RoundRobin
  import Affinity
  import Balancer
  import Scorer
  import Fair = ScoreFairness

  /** Every healthy link has enough samples to be scored by its throughput. */
  ghost predicate Warm(vs: seq<LinkView>, es: seq<Option<Scorer.Ewma>>) {
    && Balancer.Scorable(vs, es)
    && forall i :: 0 <= i < |vs| && vs[i].healthy ==>
         es[i].Some? && es[i].value.samples >= Scorer.COLD_START_THRESHOLD && es[i].value.throughput > 0.0
  }

  ghost function Rate(v: LinkView, e: Option<Scorer.Ewma>): real {
    if v.healthy && e.Some? then e.value.throughput else 0.0
  }

  ghost function Rates(vs: seq<LinkView>, es: seq<Option<Scorer.Ewma>>): seq<real>
    requires |vs| == |es|
  {
    seq(|vs|, i requires 0 <= i < |vs| == |es| => Rate(vs[i], es[i]))
  }

  ghost function Loads(vs: seq<LinkView>): seq<nat> {
    seq(|vs|, i requires 0 <= i < |vs| => if vs[i].active < 0 then 0 else vs[i].active)
  }

  /** Picks by score one after another, none of them exploring, with no connection closed and no sample taken in between. */
  ghost predicate ScoreRun(vs: seq<LinkView>, es: seq<Option<Scorer.Ewma>>, picks: seq<nat>, ws: seq<LinkView>)
    decreases |picks|
  {
    if picks == [] then vs == ws
    else
      && Balancer.Scorable(vs, es)
      && Balancer.Best(vs, es, picks[0])
      && ScoreRun(Affinity.TakeAt(vs, picks[0]), es, picks[1..], ws)
  }

  lemma BestIsGreedy(vs: seq<LinkView>, es: seq<Option<Scorer.Ewma>>, i: nat)
    requires Warm(vs, es) && Balancer.Best(vs, es, i)
    ensures Fair.Greedy(Rates(vs, es), Loads(vs), i)
  {
    var (t, a) := (Rates(vs, es), Loads(vs));
    forall j | 0 <= j < |vs| ensures Fair.ScoresNoMore(t, a, j, i) {
      assert Balancer.ScoreAt(vs, es, i) == t[i] / (1 + a[i]) as real;
      if vs[j].healthy {
        assert Balancer.ScoreAt(vs, es, j) == t[j] / (1 + a[j]) as real;
      } else {
        ZeroShare(a[j]);
      }
    }
  }

  lemma ZeroShare(n: nat)
    ensures 0.0 / (1 + n) as real == 0.0
  {
  }

  lemma {:induction false} ScoreRunIsGreedyRun(vs: seq<LinkView>, es: seq<Option<Scorer.Ewma>>, picks: seq<nat>,
                                              ws: seq<LinkView>)
    requires Warm(vs, es) && ScoreRun(vs, es, picks, ws)
    ensures Fair.GreedyRun(Rates(vs, es), Loads(vs), picks, Loads(ws))
    ensures |ws| == |vs|
    decreases |picks|
  {
    if picks != [] {
      var p := picks[0];
      var us := Affinity.TakeAt(vs, p);
      BestIsGreedy(vs, es, p);
      assert Rates(us, es) == Rates(vs, es);
      assert Loads(us) == Loads(vs)[p := Loads(vs)[p] + 1];
      ScoreRunIsGreedyRun(us, es, picks[1..], ws);
    }
  }

  lemma RatesNotNegative(vs: seq<LinkView>, es: seq<Option<Scorer.Ewma>>)
    requires Warm(vs, es)
    ensures Fair.Rates(Rates(vs, es))
  {
  }

  /**
   * From idle, warm links picked by score share connections max-min fairly: however
   * else the same number of connections were placed, the connection with the worst
   * share would not have a better one than every connection has here.
   */
  lemma ScorePicksAreMaxMinFair(vs: seq<LinkView>, es: seq<Option<Scorer.Ewma>>, picks: seq<nat>, ws: seq<LinkView>, c: seq<nat>)
    returns (j: nat)
    requires Warm(vs, es) && Fair.Idle(Loads(vs)) && ScoreRun(vs, es, picks, ws)
    requires picks != [] && |c| == |vs| && Sum(c) == |picks|
    ensures Fair.WorstShare(Rates(vs, es), c, j) && |ws| == |vs|
    ensures forall k :: 0 <= k < |ws| && Loads(ws)[k] >= 1 ==>
              Rates(vs, es)[j] / c[j] as real <= Rates(vs, es)[k] / Loads(ws)[k] as real
  {
    RatesNotNegative(vs, es);
    ScoreRunIsGreedyRun(vs, es, picks, ws);
    j := Fair.GreedyIsMaxMin(Rates(vs, es), Loads(vs), picks, Loads(ws), c);
  }

  /** From idle, every link gets at least its proportional part of n connections, rounded down. */
  lemma ScorePicksMeetLowerQuota(vs: seq<LinkView>, es: seq<Option<Scorer.Ewma>>, total: real, picks: seq<nat>, ws: seq<LinkView>,
                                 i: nat, n: nat, q: nat)
    requires Warm(vs, es) && Fair.Idle(Loads(vs)) && ScoreRun(vs, es, picks, ws) && |picks| == n
    requires i < |vs| && vs[i].healthy && Fair.AddUpTo(Rates(vs, es), total)
    requires Fair.InQuota(q, n, Rates(vs, es)[i], total)
    ensures |ws| == |vs| && q <= Loads(ws)[i]
  {
    RatesNotNegative(vs, es);
    ScoreRunIsGreedyRun(vs, es, picks, ws);
    Fair.GreedyMeetsLowerQuota(Rates(vs, es), total, Loads(vs), picks, Loads(ws), i, n, q);
  }

  // ----- the second attempt of a dial -------------------------------------

  lemma BestIsUnique(vs: seq<LinkView>, es: seq<Option<Scorer.Ewma>>, i: nat, j: nat)
    requires Balancer.Scorable(vs, es) && Balancer.Best(vs, es, i) && Balancer.Best(vs, es, j)
    ensures i == j
  {
  }

  lemma ScoreFalls(e: Option<Scorer.Ewma>, latency: real, a: int, b: int)
    requires 0 <= a <= b && (e.Some? ==> e.value.throughput >= 0.0)
    ensures Scorer.ScoreOf(e, latency, b) <= Scorer.ScoreOf(e, latency, a)
  {
    if e.Some? {
      DivisionFalls(e.value.throughput, (1 + a) as real, (1 + b) as real);
    }
  }

  lemma DivisionFalls(x: real, y: real, z: real)
    requires x >= 0.0 && 0.0 < y <= z
    ensures x / z <= x / y
  {
  }

  /** Link i is as it was, and every other link is as busy as it was or busier, or is down. */
  ghost predicate NoneRelieved(vs: seq<LinkView>, ws: seq<LinkView>, i: nat) {
    && i < |ws| == |vs|
    && ws[i].healthy == vs[i].healthy && ws[i].latency == vs[i].latency && ws[i].active == vs[i].active
    && forall k :: 0 <= k < |vs| && k != i && ws[k].healthy ==>
         vs[k].healthy && ws[k].latency == vs[k].latency && ws[k].active >= vs[k].active
  }

  /**
   * The best link stays the best whatever connections the others take, by any rule,
   * and whichever of them go down.
   */
  lemma BestStays(vs: seq<LinkView>, ws: seq<LinkView>, es: seq<Option<Scorer.Ewma>>, i: nat)
    requires Balancer.Scorable(vs, es) && Balancer.Scorable(ws, es) && Balancer.Best(vs, es, i) && NoneRelieved(vs, ws, i)
    ensures Balancer.Best(ws, es, i)
  {
    forall j | 0 <= j < |ws| && ws[j].healthy
      ensures Balancer.ScoreAt(ws, es, j) <= Balancer.ScoreAt(vs, es, j)
    {
      ScoreFalls(es[j], vs[j].latency, vs[j].active, ws[j].active);
    }
    assert Balancer.ScoreAt(ws, es, i) == Balancer.ScoreAt(vs, es, i);
  }

  /** What a run that never picks i leaves. */
  lemma {:induction false} OthersPicked(vs: seq<LinkView>, es: seq<Option<Scorer.Ewma>>, picks: seq<nat>,
                                       ws: seq<LinkView>, i: nat)
    requires ScoreRun(vs, es, picks, ws) && i < |vs| && i !in picks
    ensures NoneRelieved(vs, ws, i)
    ensures Balancer.Scorable(vs, es) ==> Balancer.Scorable(ws, es)
    decreases |picks|
  {
    if picks != [] {
      assert picks[0] in picks && forall p :: p in picks[1..] ==> p in picks;
      OthersPicked(Affinity.TakeAt(vs, picks[0]), es, picks[1..], ws, i);
    }
  }

  /**
   * After any run of picks by score, with no sample and no other connection closed
   * in between, giving back a connection of a link that was picked makes that link
   * the next pick: the second attempt of a dial goes to the link that has just
   * failed, however many other connections were picked meanwhile.
   */
  lemma {:induction false} RetryGoesBack(vs: seq<LinkView>, es: seq<Option<Scorer.Ewma>>, picks: seq<nat>, ws: seq<LinkView>,
                                         i: nat, j: nat)
    requires ScoreRun(vs, es, picks, ws) && i in picks
    ensures i < |ws| && Balancer.Scorable(Affinity.Returned(ws, i), es)
    ensures Balancer.Best(Affinity.Returned(ws, i), es, j) <==> j == i
    decreases |picks|
  {
    var us := Affinity.TakeAt(vs, picks[0]);
    if i in picks[1..] {
      RetryGoesBack(us, es, picks[1..], ws, i, j);
    } else {
      assert picks[0] == i;
      OthersPicked(us, es, picks[1..], ws, i);
      var rs := Affinity.Returned(ws, i);
      BestStays(vs, rs, es, i);
      if Balancer.Best(rs, es, j) {
        BestIsUnique(rs, es, i, j);
      }
    }
  }

  // ----- links that are not warm ---------------------------------------------

  /** Among cold links the best is the one with the least latency, the first one of those, whatever their connections. */
  lemma BestOfColdLinks(vs: seq<LinkView>, es: seq<Option<Scorer.Ewma>>, i: nat)
    requires Balancer.Scorable(vs, es) && i < |vs| && vs[i].healthy
    requires forall j :: 0 <= j < |vs| && vs[j].healthy ==> Scorer.Cold(es[j], vs[j].latency)
    ensures Balancer.Best(vs, es, i) <==>
              forall j :: 0 <= j < |vs| && vs[j].healthy ==>
                vs[i].latency <= vs[j].latency && (j < i ==> vs[i].latency < vs[j].latency)
  {
    forall j: nat | j < |vs| && vs[j].healthy
      ensures Balancer.ScoreAt(vs, es, j) > Balancer.ScoreAt(vs, es, i) <==> vs[j].latency < vs[i].latency
      ensures Balancer.ScoreAt(vs, es, i) > Balancer.ScoreAt(vs, es, j) <==> vs[i].latency < vs[j].latency
    {
      Scorer.ColdBeatsCold(es[j], vs[j].latency, vs[j].active, es[i], vs[i].latency, vs[i].active);
      Scorer.ColdBeatsCold(es[i], vs[i].latency, vs[i].active, es[j], vs[j].latency, vs[j].active);
    }
  }

  /**
   * A link with neither samples nor a latency is the best only if every healthy link is
   * such a link, or measured without throughput.
   */
  lemma UnknownIsLast(vs: seq<LinkView>, es: seq<Option<Scorer.Ewma>>, i: nat, j: nat)
    requires Balancer.Scorable(vs, es) && Balancer.Best(vs, es, i) && Scorer.Unknown(es[i], vs[i].latency)
    requires j < |vs| && vs[j].healthy
    ensures Balancer.ScoreAt(vs, es, j) == 0.0
    ensures Scorer.Unknown(es[j], vs[j].latency) || (Scorer.Measured(es[j], vs[j].latency) && es[j].value.throughput == 0.0)
  {
    Scorer.WhoScores(es[i], vs[i].latency, vs[i].active);
    Scorer.WhoScores(es[j], vs[j].latency, vs[j].active);
  }

  // ----- when the score sends every pick to one link -------------------------

  /** Scored the same whatever its connections: never sampled, cold with a probe latency, or without throughput. */
  ghost predicate Fixed(v: LinkView, e: Option<Scorer.Ewma>) {
    || e.None? || e.value.samples == 0 || e.value.throughput == 0.0
    || (e.value.samples < Scorer.COLD_START_THRESHOLD && v.latency > 0.0)
  }

  /** No other healthy link has a score above zero. */
  ghost predicate Unrivalled(vs: seq<LinkView>, es: seq<Option<Scorer.Ewma>>, i: nat)
    requires Balancer.Scorable(vs, es)
  {
    forall j :: 0 <= j < |vs| && j != i && vs[j].healthy ==> Balancer.ScoreAt(vs, es, j) == 0.0
  }

  ghost predicate AllAre(picks: seq<nat>, i: nat) {
    forall k :: 0 <= k < |picks| ==> picks[k] == i
  }

  /** Every run of picks by score, however long, stays on link i. */
  ghost predicate TakesAll(vs: seq<LinkView>, es: seq<Option<Scorer.Ewma>>, i: nat) {
    forall picks, ws :: ScoreRun(vs, es, picks, ws) ==> AllAre(picks, i)
  }

  lemma PickKeepsHold(vs: seq<LinkView>, es: seq<Option<Scorer.Ewma>>, i: nat)
    requires Balancer.Scorable(vs, es) && Balancer.Best(vs, es, i) && (Fixed(vs[i], es[i]) || Unrivalled(vs, es, i))
    ensures var ws := Affinity.TakeAt(vs, i);
            Balancer.Scorable(ws, es) && Balancer.Best(ws, es, i) && (Fixed(ws[i], es[i]) || Unrivalled(ws, es, i))
  {
    var ws := Affinity.TakeAt(vs, i);
    forall j: nat | j < |vs| && j != i
      ensures Balancer.Scorable(ws, es) && Balancer.ScoreAt(ws, es, j) == Balancer.ScoreAt(vs, es, j)
    {
    }
    if !Fixed(vs[i], es[i]) {
      PositiveShare(es[i].value.throughput, vs[i].active + 1);
    }
  }

  lemma PositiveShare(x: real, n: nat)
    requires x >= 0.0
    ensures x / (1 + n) as real >= 0.0 && (x > 0.0 ==> x / (1 + n) as real > 0.0)
  {
  }

  lemma {:induction false} HoldTakesAll(vs: seq<LinkView>, es: seq<Option<Scorer.Ewma>>, picks: seq<nat>,
                                       ws: seq<LinkView>, i: nat)
    requires ScoreRun(vs, es, picks, ws)
    requires Balancer.Scorable(vs, es) && Balancer.Best(vs, es, i) && (Fixed(vs[i], es[i]) || Unrivalled(vs, es, i))
    ensures AllAre(picks, i)
    ensures |ws| == |vs| && ws[i].active == vs[i].active + |picks|
    decreases |picks|
  {
    if picks != [] {
      BestIsUnique(vs, es, i, picks[0]);
      PickKeepsHold(vs, es, i);
      HoldTakesAll(Affinity.TakeAt(vs, i), es, picks[1..], ws, i);
    }
  }

  lemma {:induction false} BestUpTo(vs: seq<LinkView>, es: seq<Option<Scorer.Ewma>>, k: nat) returns (b: nat)
    requires Balancer.Scorable(vs, es) && k <= |vs| && exists i :: 0 <= i < k && vs[i].healthy
    ensures b < k && vs[b].healthy
    ensures forall j :: 0 <= j < k && vs[j].healthy ==>
              Balancer.ScoreAt(vs, es, j) <= Balancer.ScoreAt(vs, es, b)
              && (j < b ==> Balancer.ScoreAt(vs, es, j) < Balancer.ScoreAt(vs, es, b))
    decreases k
  {
    if exists i :: 0 <= i < k - 1 && vs[i].healthy {
      b := BestUpTo(vs, es, k - 1);
      if vs[k - 1].healthy && Balancer.ScoreAt(vs, es, k - 1) > Balancer.ScoreAt(vs, es, b) {
        b := k - 1;
      }
    } else {
      b := k - 1;
    }
  }

  /** The first pick of such runs is i, and such runs are left after it. */
  lemma TakesAllStep(vs: seq<LinkView>, es: seq<Option<Scorer.Ewma>>, i: nat)
    requires Balancer.Scorable(vs, es) && Affinity.SomeHealthy(vs) && TakesAll(vs, es, i)
    ensures Balancer.Best(vs, es, i) && TakesAll(Affinity.TakeAt(vs, i), es, i)
    ensures Balancer.Scorable(Affinity.TakeAt(vs, i), es) && Affinity.SomeHealthy(Affinity.TakeAt(vs, i))
  {
    var b := BestUpTo(vs, es, |vs|);
    var us := Affinity.TakeAt(vs, b);
    assert ScoreRun(us, es, [], us);
    assert ScoreRun(vs, es, [b], us) by {
      assert [b][1..] == [];
    }
    assert AllAre([b], i) && [b][0] == i;
    forall picks, ws | ScoreRun(us, es, picks, ws) ensures AllAre(picks, i) {
      var all := [i] + picks;
      assert all[0] == i && all[1..] == picks;
      assert ScoreRun(vs, es, all, ws);
      assert forall k :: 0 <= k < |picks| ==> picks[k] == all[k + 1];
    }
    assert us[i].healthy;
  }

  /** Link i with n connections more. */
  function Piled(vs: seq<LinkView>, i: nat, n: nat): seq<LinkView>
    requires i < |vs|
    decreases n
  {
    if n == 0 then vs else Piled(Affinity.TakeAt(vs, i), i, n - 1)
  }

  lemma {:induction false} PiledUp(vs: seq<LinkView>, es: seq<Option<Scorer.Ewma>>, i: nat, n: nat, j: nat)
    requires Balancer.Scorable(vs, es) && Affinity.SomeHealthy(vs) && TakesAll(vs, es, i) && i < |vs|
    requires j < |vs| && j != i && vs[j].healthy
    ensures var ws := Piled(vs, i, n);
            && |ws| == |vs| && Balancer.Scorable(ws, es) && Balancer.Best(ws, es, i)
            && ws[i].active == vs[i].active + n && ws[i].latency == vs[i].latency
            && Balancer.ScoreAt(ws, es, j) == Balancer.ScoreAt(vs, es, j) && ws[j].healthy
    decreases n
  {
    TakesAllStep(vs, es, i);
    if n > 0 {
      PiledUp(Affinity.TakeAt(vs, i), es, i, n - 1, j);
    }
  }

  /** A positive throughput divided among enough connections falls below any positive score. */
  lemma FallsBelow(x: real, y: real, a: nat) returns (n: nat)
    requires x > 0.0 && y > 0.0
    ensures x / (1 + a + n) as real < y
  {
    n := (x / y).Floor + 1;
    QuotientBelow(x, y, n as real, (1 + a + n) as real);
  }

  lemma QuotientBelow(x: real, y: real, n: real, d: real)
    requires x > 0.0 && y > 0.0 && x / y < n < d
    ensures x / d < y
  {
    var q := x / y;
    assert q * y == x;
    LessTimes(q, d, y);
    DividedBelow(x, y, d);
  }

  lemma LessTimes(q: real, d: real, y: real)
    requires q < d && y > 0.0
    ensures q * y < d * y
  {
  }

  lemma DividedBelow(x: real, y: real, d: real)
    requires d > 0.0 && x < d * y
    ensures x / d < y
  {
    var r := x / d;
    assert r * d == x;
    if r >= y {
      assert r * d >= y * d;
    }
  }

  /** A scored link with a rival of positive score loses a pick sooner or later. */
  lemma RivalGetsPick(vs: seq<LinkView>, es: seq<Option<Scorer.Ewma>>, i: nat, j: nat)
    requires Balancer.Scorable(vs, es) && Affinity.SomeHealthy(vs) && i < |vs|
    requires !Fixed(vs[i], es[i]) && j < |vs| && j != i && vs[j].healthy && Balancer.ScoreAt(vs, es, j) > 0.0
    ensures !TakesAll(vs, es, i)
  {
    var n := FallsBelow(es[i].value.throughput, Balancer.ScoreAt(vs, es, j), vs[i].active);
    if TakesAll(vs, es, i) {
      PiledUp(vs, es, i, n, j);
    }
  }

  /**
   * Fairness needs warm links. Exactly when the best link is scored by something
   * other than its throughput per connection, or has no rival with a positive
   * score, all picks go to it, however many connections it already has.
   */
  lemma TakesAllIff(vs: seq<LinkView>, es: seq<Option<Scorer.Ewma>>, i: nat)
    requires Balancer.Scorable(vs, es) && Affinity.SomeHealthy(vs)
    ensures TakesAll(vs, es, i) <==>
              Balancer.Best(vs, es, i) && (Fixed(vs[i], es[i]) || Unrivalled(vs, es, i))
  {
    if Balancer.Best(vs, es, i) && (Fixed(vs[i], es[i]) || Unrivalled(vs, es, i)) {
      forall picks, ws | ScoreRun(vs, es, picks, ws) ensures AllAre(picks, i) {
        HoldTakesAll(vs, es, picks, ws, i);
      }
    } else if TakesAll(vs, es, i) {
      TakesAllStep(vs, es, i);
      var j :| 0 <= j < |vs| && j != i && vs[j].healthy && Balancer.ScoreAt(vs, es, j) != 0.0;
      RivalGetsPick(vs, es, i, j);
    }
  }
}
