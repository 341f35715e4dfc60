/**
 * The weighted round-robin rule of pickRoundRobin on a snapshot of the links, and
 * how fair it is. `next` is a 64-bit counter that wraps around.
 */
module RoundRobin {
  import opened Prelude

  /** A point-in-time value copy of a link. */
  datatype LinkView = LinkView(
    name: string, ip: string, weight: int, healthy: bool, latency: real,
    active: int, total: int, bytesIn: int, bytesOut: int)

  /** The weight that counts: at least one, and none for a link that is down. */
  function Share(v: LinkView): nat {
    if !v.healthy then 0 else if v.weight < 1 then 1 else v.weight
  }

  function TotalFrom(links: seq<LinkView>, k: nat): nat
    requires k <= |links|
    decreases |links| - k
  {
    if k == |links| then 0 else Share(links[k]) + TotalFrom(links, k + 1)
  }

  function Total(links: seq<LinkView>): nat {
    TotalFrom(links, 0)
  }

  /** The walk over the links from k on that uses up idx; None is the final return nil. */
  function Walk(links: seq<LinkView>, k: nat, idx: int): Option<nat>
    requires k <= |links|
    decreases |links| - k
  {
    if k == |links| then None
    else if !links[k].healthy then Walk(links, k + 1, idx)
    else if idx < Share(links[k]) then Some(k)
    else Walk(links, k + 1, idx - Share(links[k]))
  }

  /** The link a pick with this counter value takes. */
  function Choice(links: seq<LinkView>, next: int): Option<nat> {
    if Total(links) == 0 then None else Walk(links, 0, TruncRem(next, Total(links)))
  }

  function Take(v: LinkView): LinkView {
    v.(active := v.active + 1, total := v.total + 1)
  }

  /** The links after one pick. */
  function AfterPick(links: seq<LinkView>, next: int): seq<LinkView>
    requires Choice(links, next).Some? ==> Choice(links, next).value < |links|
  {
    var c := Choice(links, next);
    if c.None? then links else links[c.value := Take(links[c.value])]
  }

  /** The counter after one pick. */
  function NextAfter(links: seq<LinkView>, next: int): int {
    if Total(links) == 0 then next else Wrap64(next + 1)
  }

  // ----- where each link's turns lie --------------------------------------

  lemma {:induction false} WalkFinds(links: seq<LinkView>, k: nat, idx: int)
    requires k <= |links| && idx < TotalFrom(links, k) && TotalFrom(links, k) > 0
    ensures var r := Walk(links, k, idx);
            && r.Some? && k <= r.value < |links| && links[r.value].healthy
            && idx < TotalFrom(links, k) - TotalFrom(links, r.value) + Share(links[r.value])
            && (idx >= 0 ==> TotalFrom(links, k) - TotalFrom(links, r.value) <= idx)
            && (idx <= 0 ==> forall j :: k <= j < r.value ==> !links[j].healthy)
    decreases |links| - k
  {
    if !links[k].healthy {
      WalkFinds(links, k + 1, idx);
    } else if idx >= Share(links[k]) {
      WalkFinds(links, k + 1, idx - Share(links[k]));
    }
  }

  /** A pick finds a link exactly when some link is healthy: the final return nil is unreachable. */
  lemma ChoiceIsHealthy(links: seq<LinkView>, next: int)
    ensures var c := Choice(links, next);
            && (c.Some? <==> exists i :: 0 <= i < |links| && links[i].healthy)
            && (c.Some? ==> c.value < |links| && links[c.value].healthy)
  {
    TotalPositive(links, 0);
    if Total(links) > 0 {
      WalkFinds(links, 0, TruncRem(next, Total(links)));
    }
  }

  lemma {:induction false} TotalPositive(links: seq<LinkView>, k: nat)
    requires k <= |links|
    ensures TotalFrom(links, k) > 0 <==> exists i :: k <= i < |links| && links[i].healthy
    decreases |links| - k
  {
    if k < |links| {
      TotalPositive(links, k + 1);
    }
  }

  lemma {:induction false} TotalsFall(links: seq<LinkView>, i: nat, j: nat)
    requires i <= j <= |links|
    ensures TotalFrom(links, j) <= TotalFrom(links, i)
    ensures i < j ==> TotalFrom(links, j) + Share(links[i]) <= TotalFrom(links, i)
    decreases j - i
  {
    if i < j {
      TotalsFall(links, i + 1, j);
    }
  }

  /** Among the counter values 0..Total-1, link j's turns are one stretch as long as its share. */
  ghost predicate Turn(links: seq<LinkView>, j: nat, x: nat)
    requires j < |links| && Total(links) > 0
  {
    var first := Total(links) - TotalFrom(links, j);
    first <= x % Total(links) < first + Share(links[j])
  }

  lemma ChoiceIsTurn(links: seq<LinkView>, j: nat, next: nat)
    requires j < |links| && Total(links) > 0
    ensures Choice(links, next) == Some(j) <==> Turn(links, j, next)
  {
    var idx := next % Total(links);
    WalkFinds(links, 0, idx);
    var i := Walk(links, 0, idx).value;
    if i < j {
      TotalsFall(links, i, j);
    } else if j < i {
      TotalsFall(links, j, i);
    }
  }

  // ----- counting turns ---------------------------------------------------

  /** How many of the counter values a, a+1, ..., a+n-1 are link j's turns. */
  ghost function Turns(links: seq<LinkView>, j: nat, a: nat, n: nat): nat
    requires j < |links| && Total(links) > 0
    decreases n
  {
    if n == 0 then 0 else Turns(links, j, a, n - 1) + (if Turn(links, j, a + n - 1) then 1 else 0)
  }

  lemma {:induction false} TurnsSplit(links: seq<LinkView>, j: nat, a: nat, m: nat, n: nat)
    requires j < |links| && Total(links) > 0
    ensures Turns(links, j, a, m + n) == Turns(links, j, a, m) + Turns(links, j, a + m, n)
    decreases n
  {
    if n > 0 {
      TurnsSplit(links, j, a, m, n - 1);
    }
  }

  lemma QuotientUnique(w: nat, q: int, r: nat, p: int, s: nat)
    requires r < w && s < w && q * w + r == p * w + s
    ensures q == p && r == s
  {
    if q < p {
      MulMonotone(q + 1, p, w);
    } else if p < q {
      MulMonotone(p + 1, q, w);
    }
  }

  lemma ModPeriod(x: nat, w: nat)
    requires w > 0
    ensures (x + w) % w == x % w
    ensures x < w ==> x % w == x
  {
    assert x == x / w * w + x % w;
    assert x + w == (x + w) / w * w + (x + w) % w;
    assert (x / w + 1) * w == x / w * w + w;
    QuotientUnique(w, x / w + 1, x % w, (x + w) / w, (x + w) % w);
  }

  /** In the first round, the turns counted up to n are the overlap of link j's stretch with 0..n-1. */
  lemma {:induction false} FirstRound(links: seq<LinkView>, j: nat, n: nat)
    requires j < |links| && Total(links) > 0 && n <= Total(links)
    ensures var first := Total(links) - TotalFrom(links, j);
            Turns(links, j, 0, n) == if n <= first then 0
                                     else if n <= first + Share(links[j]) then n - first
                                     else Share(links[j])
    decreases n
  {
    TotalsFall(links, 0, j);
    if n > 0 {
      FirstRound(links, j, n - 1);
      ModPeriod(n - 1, Total(links));
    }
  }

  /** Any W consecutive counter values give link j exactly its share. */
  lemma {:induction false} AnyRound(links: seq<LinkView>, j: nat, a: nat)
    requires j < |links| && Total(links) > 0
    ensures Turns(links, j, a, Total(links)) == Share(links[j])
    decreases a
  {
    var w := Total(links);
    if a == 0 {
      TotalsFall(links, 0, j);
      TotalsFall(links, j, |links|);
      FirstRound(links, j, w);
    } else {
      AnyRound(links, j, a - 1);
      TurnsSplit(links, j, a - 1, 1, w);
      TurnsSplit(links, j, a - 1, w, 1);
      ModPeriod(a - 1, w);
      assert Turns(links, j, a - 1, 1) == Turns(links, j, a - 1 + w, 1);
    }
  }

  lemma {:induction false} TurnsAtMost(links: seq<LinkView>, j: nat, a: nat, n: nat)
    requires j < |links| && Total(links) > 0
    ensures Turns(links, j, a, n) <= n
    decreases n
  {
    if n > 0 {
      TurnsAtMost(links, j, a, n - 1);
    }
  }

  /** N = qW + r values give link j at least q times its share, and at most min(share, r) more. */
  lemma {:induction false} TurnsBounds(links: seq<LinkView>, j: nat, a: nat, q: nat, r: nat)
    requires j < |links| && Total(links) > 0 && r < Total(links)
    ensures var (n, w) := (q * Total(links) + r, Share(links[j]));
            && n >= 0
            && q * w <= Turns(links, j, a, n) <= q * w + w
            && Turns(links, j, a, n) <= q * w + r
            && (r == 0 ==> Turns(links, j, a, n) == q * w)
    decreases q
  {
    var w := Total(links);
    if q == 0 {
      TurnsAtMost(links, j, a, r);
      TurnsSplit(links, j, a, r, w - r);
      AnyRound(links, j, a);
    } else {
      assert q * w + r == w + ((q - 1) * w + r);
      assert q * Share(links[j]) == (q - 1) * Share(links[j]) + Share(links[j]);
      AnyRound(links, j, a);
      TurnsBounds(links, j, a + w, q - 1, r);
      assert (q - 1) * w + r >= 0;
      TurnsSplit(links, j, a, w, (q - 1) * w + r);
    }
  }

  // ----- runs of picks ----------------------------------------------------

  /** What n picks in a row leave, health and weights staying as they are. */
  function Picks(links: seq<LinkView>, next: int, n: nat): (r: (seq<LinkView>, int))
    ensures |r.0| == |links|
    decreases n
  {
    if n == 0 then (links, next)
    else
      var (l, x) := Picks(links, next, n - 1);
      ChoiceIsHealthy(l, x);
      (AfterPick(l, x), NextAfter(l, x))
  }

  /** Two views that the rule cannot tell apart. */
  ghost predicate Alike(a: seq<LinkView>, b: seq<LinkView>) {
    |a| == |b| && forall i :: 0 <= i < |a| ==> a[i].healthy == b[i].healthy && a[i].weight == b[i].weight
  }

  lemma {:induction false} AlikeWalks(a: seq<LinkView>, b: seq<LinkView>, k: nat, idx: int)
    requires Alike(a, b) && k <= |a|
    ensures TotalFrom(a, k) == TotalFrom(b, k) && Walk(a, k, idx) == Walk(b, k, idx)
    decreases |a| - k
  {
    if k < |a| {
      AlikeWalks(a, b, k + 1, if a[k].healthy then idx - Share(a[k]) else idx);
      AlikeWalks(a, b, k + 1, idx);
    }
  }

  lemma AlikeChoices(a: seq<LinkView>, b: seq<LinkView>, next: int)
    requires Alike(a, b)
    ensures Total(a) == Total(b) && Choice(a, next) == Choice(b, next)
  {
    AlikeWalks(a, b, 0, 0);
    if Total(a) > 0 {
      AlikeWalks(a, b, 0, TruncRem(next, Total(a)));
    }
  }

  lemma {:induction false} PicksCountTurns(links: seq<LinkView>, next: nat, n: nat, j: nat)
    requires j < |links| && Total(links) > 0 && next + n <= TWO_63
    ensures var r := Picks(links, next, n);
            && Alike(r.0, links)
            && (next + n < TWO_63 ==> r.1 == next + n)
            && r.0[j].total == links[j].total + Turns(links, j, next, n)
            && r.0[j].active == links[j].active + Turns(links, j, next, n)
    decreases n
  {
    if n > 0 {
      PicksCountTurns(links, next, n - 1, j);
      var (l, x) := Picks(links, next, n - 1);
      AlikeChoices(l, links, x);
      ChoiceIsHealthy(l, x);
      ChoiceIsTurn(links, j, x);
    }
  }

  /**
   * Weighted round-robin is exactly fair from any counter value that does not
   * wrap around during the picks: N = qW + r picks take each link between q times
   * its share and q times its share plus min(share, r), and W picks exactly its share.
   */
  lemma RoundRobinIsFair(links: seq<LinkView>, next: nat, q: nat, r: nat, j: nat)
    requires j < |links| && Total(links) > 0 && r < Total(links)
    requires 0 <= q * Total(links) + r && next + (q * Total(links) + r) <= TWO_63
    ensures var taken := Picks(links, next, q * Total(links) + r).0[j].total - links[j].total;
            var w := Share(links[j]);
            && q * w <= taken <= q * w + (if w < r then w else r)
            && (r == 0 ==> taken == q * w)
  {
    PicksCountTurns(links, next, q * Total(links) + r, j);
    TurnsBounds(links, j, next, q, r);
  }

  /** A counter that has wrapped around to a negative value sends every pick to the first healthy link. */
  lemma NegativeCounterStarves(links: seq<LinkView>, next: int, j: nat)
    requires next < 0 && j < |links| && Total(links) > 0
    ensures Choice(links, next) == Some(j) <==>
              links[j].healthy && forall i :: 0 <= i < j ==> !links[i].healthy
  {
    WalkFinds(links, 0, TruncRem(next, Total(links)));
  }

  // ----- the second attempt of a dial -------------------------------------

  /**
   * A dial picks with this counter value, m other connections are picked while it
   * fails, and its second attempt picks the link of its first again. Health and
   * weights stay as they are; giving the first lease back moves a counter that the
   * rule does not read.
   */
  ghost predicate Repeats(links: seq<LinkView>, next: int, m: nat) {
    var (l, x) := Picks(links, next, m + 1);
    Choice(links, next).Some? && Choice(l, x) == Choice(links, next)
  }

  /** The retry goes to the same link exactly when its turn is also one of that link's. */
  lemma RepeatsIffTurn(links: seq<LinkView>, next: nat, m: nat, j: nat)
    requires j < |links| && Total(links) > 0 && next + m + 1 < TWO_63 && Choice(links, next) == Some(j)
    ensures Repeats(links, next, m) <==> Turn(links, j, next + m + 1)
  {
    PicksCountTurns(links, next, m + 1, j);
    var (l, x) := Picks(links, next, m + 1);
    AlikeChoices(l, links, x);
    ChoiceIsTurn(links, j, next + m + 1);
  }

  /** From every counter value, as many other picks as make up one round bring the retry back to the link that failed. */
  lemma FullRoundRepeats(links: seq<LinkView>, next: nat)
    requires 0 < Total(links) && next + Total(links) < TWO_63
    ensures Repeats(links, next, Total(links) - 1)
  {
    TotalPositive(links, 0);
    ChoiceIsHealthy(links, next);
    var j := Choice(links, next).value;
    ChoiceIsTurn(links, j, next);
    ModPeriod(next, Total(links));
    RepeatsIffTurn(links, next, Total(links) - 1, j);
  }

  lemma AddRemainders(x: nat, d: nat, w: nat)
    requires w > 0
    ensures var s := x % w + d % w; (x + d) % w == if s < w then s else s - w
  {
    assert x == x / w * w + x % w;
    assert d == d / w * w + d % w;
    assert x + d == (x + d) / w * w + (x + d) % w;
    var s := x % w + d % w;
    assert (x / w + d / w) * w == x / w * w + d / w * w;
    if s < w {
      QuotientUnique(w, x / w + d / w, s, (x + d) / w, (x + d) % w);
    } else {
      assert (x / w + d / w + 1) * w == x / w * w + d / w * w + w;
      QuotientUnique(w, x / w + d / w + 1, s - w, (x + d) / w, (x + d) % w);
    }
  }

  /** No stretch of turns is so long that m + 1 turns later, in cyclic order, it is still or again the same link's turn. */
  ghost predicate Clears(links: seq<LinkView>, m: nat)
    requires Total(links) > 0
  {
    var gap := (m + 1) % Total(links);
    forall j :: 0 <= j < |links| ==> Share(links[j]) <= gap <= Total(links) - Share(links[j])
  }

  lemma ClearNeverRepeats(links: seq<LinkView>, next: nat, m: nat)
    requires Total(links) > 0 && next + m + 1 < TWO_63 && Clears(links, m)
    ensures !Repeats(links, next, m)
  {
    TotalPositive(links, 0);
    ChoiceIsHealthy(links, next);
    var j := Choice(links, next).value;
    ChoiceIsTurn(links, j, next);
    AddRemainders(next, m + 1, Total(links));
    RepeatsIffTurn(links, next, m, j);
  }

  lemma UnclearRepeats(links: seq<LinkView>, m: nat, j: nat) returns (next: nat)
    requires j < |links| && 0 < Total(links) && Total(links) + m < TWO_63
    requires var gap := (m + 1) % Total(links); gap < Share(links[j]) || Total(links) - Share(links[j]) < gap
    ensures next < Total(links) && Repeats(links, next, m)
  {
    var (w, gap) := (Total(links), (m + 1) % Total(links));
    TotalsFall(links, 0, j);
    TotalsFall(links, j, |links|);
    var first := w - TotalFrom(links, j);
    next := if gap < Share(links[j]) then first else first + (w - gap);
    ModPeriod(next, w);
    AddRemainders(next, m + 1, w);
    ChoiceIsTurn(links, j, next);
    RepeatsIffTurn(links, next, m, j);
  }

  /**
   * With m picks by others in between, the second attempt of a dial goes to another
   * link from every counter value exactly when (m + 1) mod W is at least every
   * healthy link's share and at most W minus it.
   */
  lemma RetryRotatesIff(links: seq<LinkView>, m: nat)
    requires 0 < Total(links) && Total(links) + m < TWO_63
    ensures (forall n: nat :: n + m + 1 < TWO_63 ==> !Repeats(links, n, m)) <==> Clears(links, m)
  {
    if Clears(links, m) {
      forall n: nat | n + m + 1 < TWO_63 ensures !Repeats(links, n, m) {
        ClearNeverRepeats(links, n, m);
      }
    } else {
      var gap := (m + 1) % Total(links);
      var j :| 0 <= j < |links| && !(Share(links[j]) <= gap <= Total(links) - Share(links[j]));
      var n := UnclearRepeats(links, m, j);
      assert Repeats(links, n, m);
    }
  }

  /** With nothing in between: no healthy link may weigh more than one, and there must be two. */
  lemma LoneRetryRotatesIff(links: seq<LinkView>)
    requires 0 < Total(links) < TWO_63
    ensures (forall n: nat :: n + 1 < TWO_63 ==> !Repeats(links, n, 0)) <==>
              Total(links) >= 2 && forall j :: 0 <= j < |links| ==> Share(links[j]) <= 1
  {
    RetryRotatesIff(links, 0);
    TotalPositive(links, 0);
    var i :| 0 <= i < |links| && links[i].healthy;
    assert Share(links[i]) >= 1;
    if Total(links) >= 2 {
      ModPeriod(1, Total(links));
    }
  }
}
