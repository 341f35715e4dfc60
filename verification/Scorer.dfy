/**
 * The throughput estimate of a link and the score made from it. Floating point
 * is modelled by real numbers, and exp(-x) by any function with its laws.
 */
module Scorer {
  import opened Prelude
  import opened Links

  const EWMA_HALF_LIFE: real := 5.0        // seconds
  const COLD_START_THRESHOLD: nat := 3
  const STALE_THRESHOLD: real := 10.0      // seconds
  const MAX_SAMPLE_DURATION: real := 60.0  // seconds

  datatype Ewma = Ewma(throughput: real, lastUpdated: real, samples: nat)

  /** Seconds in units of the constant that the source calls a half-life; in one of them the decay is to 1/e. */
  function HalfLives(dt: real): (r: real)
    ensures r * EWMA_HALF_LIFE == dt
  {
    dt / EWMA_HALF_LIFE
  }

  /** Time since the last sample in half-lives; a clock that went back counts as standing still. */
  function Gap(last: real, now: real): (g: real)
    ensures g >= 0.0
    ensures now >= last ==> g == HalfLives(now - last)
  {
    HalfLives(if now - last < 0.0 then 0.0 else now - last)
  }

  /** Multiplication under a name, which keeps products out of the solver's arithmetic until they are needed. */
  function Times(x: real, y: real): real {
    x * y
  }

  /** The estimate after one accepted sample. */
  function Absorb(e: Option<Ewma>, bps: real, now: real, decay: real -> real): Ewma {
    if e.None? || e.value.samples == 0 then Ewma(bps, now, 1)
    else
      var alpha := 1.0 - decay(Gap(e.value.lastUpdated, now));
      Ewma(Times(alpha, bps) + Times(1.0 - alpha, e.value.throughput), now, e.value.samples + 1)
  }

  predicate Accepted(bytes: int, dur: real) {
    bytes > 0 && 0.0 < dur <= MAX_SAMPLE_DURATION
  }

  /** active is the number of connections now on the link. */
  function ScoreOf(e: Option<Ewma>, latency: real, active: int): real
    requires active >= 0
  {
    var throughput := if e.Some? then e.value.throughput else 0.0;
    var samples := if e.Some? then e.value.samples else 0;
    if samples < COLD_START_THRESHOLD && latency > 0.0 then 1_000_000.0 / latency
    else if samples == 0 then 0.0
    else throughput / (1 + active) as real
  }

  predicate Stale(e: Option<Ewma>, now: real) {
    e.None? || e.value.samples == 0 || now - e.value.lastUpdated > STALE_THRESHOLD
  }

  class LinkScorer {
    var stats: map<Link, Ewma>

    constructor ()
      ensures stats == map[]
    {
      stats := map[];
    }

    function Stat(link: Link): Option<Ewma>
      reads this
    {
      if link in stats then Some(stats[link]) else None
    }

    /** Samples without bytes, without duration, or longer than a minute change nothing. */
    method RecordSample(link: Link, bytes: int, dur: real, now: real, decay: real -> real)
      modifies this
      ensures stats == if Accepted(bytes, dur)
                       then old(stats)[link := Absorb(old(Stat(link)), bytes as real / dur, now, decay)]
                       else old(stats)
    {
      if bytes <= 0 || dur <= 0.0 || dur > MAX_SAMPLE_DURATION {
        return;
      }
      var bps := bytes as real / dur;
      ghost var before := Stat(link);
      var st := if link in stats then stats[link] else Ewma(0.0, 0.0, 0);
      var throughput := bps;
      if st.samples != 0 {
        var dt := now - st.lastUpdated;
        if dt < 0.0 {
          dt := 0.0;
        }
        var alpha := 1.0 - decay(dt / EWMA_HALF_LIFE);
        throughput := alpha * bps + (1.0 - alpha) * st.throughput;
      }
      assert Ewma(throughput, now, st.samples + 1) == Absorb(before, bps, now, decay);
      stats := stats[link := Ewma(throughput, now, st.samples + 1)];
    }

    function Score(link: Link): real
      requires link.ActiveConns >= 0
      reads this, link
    {
      ScoreOf(Stat(link), link.ProbeLatency, link.ActiveConns)
    }

    predicate IsStale(link: Link, now: real)
      reads this
    {
      Stale(Stat(link), now)
    }
  }

  // ----- scores in numbers --------------------------------------------------

  /** Too few samples, but a probe latency: scored by the latency. */
  predicate Cold(e: Option<Ewma>, latency: real) {
    (e.None? || e.value.samples < COLD_START_THRESHOLD) && latency > 0.0
  }

  /** Neither samples nor a latency. */
  predicate Unknown(e: Option<Ewma>, latency: real) {
    (e.None? || e.value.samples == 0) && latency <= 0.0
  }

  /** Scored by its throughput. */
  predicate Measured(e: Option<Ewma>, latency: real) {
    e.Some? && e.value.samples > 0 && !Cold(e, latency)
  }

  lemma Fractions(x: real, y: real, z: real, w: real)
    requires y > 0.0 && w > 0.0
    ensures x / y > z / w <==> x * w > z * y
  {
    var (p, q) := (x / y, z / w);
    assert p * y == x && q * w == z;
    assert (p - q) * (y * w) == x * w - z * y;
    assert y * w > 0.0;
    SignOfProduct(p - q, y * w);
  }

  lemma SignOfProduct(d: real, s: real)
    requires s > 0.0
    ensures d * s > 0.0 <==> d > 0.0
  {
  }

  /** Of two cold links the one with the lower latency scores more, whatever their connections. */
  lemma ColdBeatsCold(e: Option<Ewma>, latency: real, active: int, f: Option<Ewma>, other: real, load: int)
    requires Cold(e, latency) && Cold(f, other) && active >= 0 && load >= 0
    ensures ScoreOf(e, latency, active) > ScoreOf(f, other, load) <==> latency < other
  {
    Fractions(1_000_000.0, latency, 1_000_000.0, other);
  }

  /**
   * A cold link counts as one that gets a million bytes per second on each connection,
   * divided by its latency in seconds.
   */
  lemma ColdBeatsMeasured(e: Option<Ewma>, latency: real, active: int, f: Option<Ewma>, other: real, load: int)
    requires Cold(e, latency) && Measured(f, other) && active >= 0 && load >= 0
    ensures ScoreOf(e, latency, active) > ScoreOf(f, other, load) <==>
              1_000_000.0 * (1 + load) as real > f.value.throughput * latency
    ensures ScoreOf(f, other, load) > ScoreOf(e, latency, active) <==>
              f.value.throughput * latency > 1_000_000.0 * (1 + load) as real
  {
    Fractions(1_000_000.0, latency, f.value.throughput, (1 + load) as real);
    Fractions(f.value.throughput, (1 + load) as real, 1_000_000.0, latency);
  }

  /** Of two measured links the one with the higher throughput per connection, counting the next one, scores more. */
  lemma MeasuredBeatsMeasured(e: Option<Ewma>, latency: real, active: int, f: Option<Ewma>, other: real, load: int)
    requires Measured(e, latency) && Measured(f, other) && active >= 0 && load >= 0
    ensures ScoreOf(e, latency, active) > ScoreOf(f, other, load) <==>
              e.value.throughput * (1 + load) as real > f.value.throughput * (1 + active) as real
  {
    Fractions(e.value.throughput, (1 + active) as real, f.value.throughput, (1 + load) as real);
  }

  /** An unknown link scores nothing, a cold one something, and a measured one something exactly if it has throughput. */
  lemma WhoScores(e: Option<Ewma>, latency: real, active: int)
    requires active >= 0 && (e.Some? ==> e.value.throughput >= 0.0)
    ensures Unknown(e, latency) ==> ScoreOf(e, latency, active) == 0.0
    ensures Cold(e, latency) ==> ScoreOf(e, latency, active) > 0.0
    ensures Measured(e, latency) ==> (ScoreOf(e, latency, active) > 0.0 <==> e.value.throughput > 0.0)
    ensures Unknown(e, latency) || Cold(e, latency) || Measured(e, latency)
  {
    if Measured(e, latency) {
      Fractions(e.value.throughput, (1 + active) as real, 0.0, 1.0);
    } else if Cold(e, latency) {
      Fractions(1_000_000.0, latency, 0.0, 1.0);
    }
  }

  // ----- closed form of the estimate --------------------------------------

  ghost predicate IsDecay(decay: real -> real) {
    && decay(0.0) == 1.0
    && (forall x: real :: x >= 0.0 ==> 0.0 < decay(x) <= 1.0)
    && (forall x: real, y: real :: x >= 0.0 && y >= 0.0 ==> Multiplies(decay, x, y))
  }

  ghost predicate Multiplies(decay: real -> real, x: real, y: real) {
    decay(x + y) == Times(decay(x), decay(y))
  }

  datatype Sample = Sample(bps: real, at: real)

  /** The estimate after these accepted samples. */
  function After(samples: seq<Sample>, decay: real -> real): (e: Ewma)
    requires samples != []
    ensures e.samples == |samples| && e.lastUpdated == samples[|samples| - 1].at
  {
    var (n, last) := (|samples| - 1, samples[|samples| - 1]);
    Absorb(if n == 0 then None else Some(After(samples[..n], decay)), last.bps, last.at, decay)
  }

  /** Half-lives of clock time between sample k and the last one. */
  function Age(samples: seq<Sample>, k: nat): (a: real)
    requires k < |samples|
    ensures a >= 0.0
    decreases |samples|
  {
    var n := |samples| - 1;
    if k == n then 0.0 else Age(samples[..n], k) + Gap(samples[n - 1].at, samples[n].at)
  }

  ghost predicate ClockForward(samples: seq<Sample>) {
    forall i, j :: 0 <= i <= j < |samples| ==> samples[i].at <= samples[j].at
  }

  /** A link is stale exactly when none of its accepted samples is at most ten seconds old. */
  lemma StaleIff(samples: seq<Sample>, decay: real -> real, now: real)
    requires ClockForward(samples)
    ensures Stale(if samples == [] then None else Some(After(samples, decay)), now) <==>
              forall k :: 0 <= k < |samples| ==> now - samples[k].at > STALE_THRESHOLD
  {
    if samples != [] {
      var n := |samples| - 1;
      assert forall k :: 0 <= k < |samples| ==> samples[k].at <= samples[n].at;
    }
  }

  lemma {:induction false} AgeIsElapsed(samples: seq<Sample>, k: nat)
    requires k < |samples| && ClockForward(samples)
    ensures Age(samples, k) == HalfLives(samples[|samples| - 1].at - samples[k].at)
    decreases |samples|
  {
    var n := |samples| - 1;
    if k < n {
      assert ClockForward(samples[..n]);
      AgeIsElapsed(samples[..n], k);
    }
  }

  /** What is left of the older samples once the last one has been taken in. */
  function Fade(samples: seq<Sample>, decay: real -> real): real
    requires |samples| >= 2
  {
    decay(Gap(samples[|samples| - 2].at, samples[|samples| - 1].at))
  }

  function Scale(ws: seq<real>, f: real): (r: seq<real>)
    ensures |r| == |ws|
  {
    seq(|ws|, i requires 0 <= i < |ws| => Times(ws[i], f))
  }

  /** How much each sample counts: every new sample fades the others and takes what they lose. */
  function Weights(samples: seq<Sample>, decay: real -> real): (ws: seq<real>)
    requires samples != []
    ensures |ws| == |samples|
  {
    var n := |samples| - 1;
    if n == 0 then [1.0]
    else Scale(Weights(samples[..n], decay), Fade(samples, decay)) + [1.0 - Fade(samples, decay)]
  }

  function Mean(ws: seq<real>, samples: seq<Sample>): real
    requires |ws| == |samples|
  {
    var n := |ws| - 1;
    if ws == [] then 0.0 else Mean(ws[..n], samples[..n]) + Times(ws[n], samples[n].bps)
  }

  function WeightSum(ws: seq<real>): real {
    if ws == [] then 0.0 else WeightSum(ws[..|ws| - 1]) + ws[|ws| - 1]
  }

  lemma TimesLaws(x: real, y: real, z: real)
    ensures Times(x, y) == Times(y, x) && Times(x, 1.0) == x && Times(x, 0.0) == 0.0
    ensures Times(x + y, z) == Times(x, z) + Times(y, z)
    ensures Times(Times(x, y), z) == Times(x, Times(y, z))
    ensures x >= 0.0 && y >= 0.0 ==> Times(x, y) >= 0.0
  {
  }

  lemma {:induction false} ScaledMean(ws: seq<real>, f: real, samples: seq<Sample>)
    requires |ws| == |samples|
    ensures Mean(Scale(ws, f), samples) == Times(Mean(ws, samples), f)
    ensures WeightSum(Scale(ws, f)) == Times(WeightSum(ws), f)
    decreases |ws|
  {
    var n := |ws| - 1;
    if ws == [] {
      TimesLaws(f, 0.0, 0.0);
      TimesLaws(0.0, f, 0.0);
    } else {
      ScaledMean(ws[..n], f, samples[..n]);
      assert Scale(ws, f)[..n] == Scale(ws[..n], f);
      var (w, b) := (ws[n], samples[n].bps);
      TimesLaws(w, f, b);
      TimesLaws(f, b, w);
      TimesLaws(w, b, f);
      TimesLaws(Mean(ws[..n], samples[..n]), Times(w, b), f);
      TimesLaws(WeightSum(ws[..n]), w, f);
    }
  }

  lemma MeanLast(ws: seq<real>, w: real, samples: seq<Sample>)
    requires |samples| == |ws| + 1
    ensures Mean(ws + [w], samples) == Mean(ws, samples[..|ws|]) + Times(w, samples[|ws|].bps)
    ensures WeightSum(ws + [w]) == WeightSum(ws) + w
  {
    assert (ws + [w])[..|ws|] == ws;
  }

  /** The estimate is the mean of all accepted samples under weights that add up to one. */
  lemma {:induction false} EstimateIsWeightedMean(samples: seq<Sample>, decay: real -> real)
    requires samples != []
    ensures After(samples, decay).throughput == Mean(Weights(samples, decay), samples)
    ensures WeightSum(Weights(samples, decay)) == 1.0
    decreases |samples|
  {
    var n := |samples| - 1;
    if n > 0 {
      var (f, ws) := (Fade(samples, decay), Weights(samples[..n], decay));
      EstimateIsWeightedMean(samples[..n], decay);
      ScaledMean(ws, f, samples[..n]);
      MeanLast(Scale(ws, f), 1.0 - f, samples);
      assert 1.0 - (1.0 - f) == f;
      TimesLaws(f, After(samples[..n], decay).throughput, 0.0);
      TimesLaws(f, 1.0, 0.0);
      TimesLaws(1.0, f, 0.0);
    } else {
      MeanLast([], 1.0, samples);
      assert [] + [1.0] == Weights(samples, decay);
      TimesLaws(1.0, samples[0].bps, 0.0);
      TimesLaws(samples[0].bps, 1.0, 0.0);
    }
  }

  /** What sample k took over when it came: everything if it was the first. */
  function TakenOver(samples: seq<Sample>, k: nat, decay: real -> real): real
    requires k < |samples|
  {
    if k == 0 then 1.0 else 1.0 - decay(Gap(samples[k - 1].at, samples[k].at))
  }

  /** Each weight is what the sample took over when it came, faded by its age since. */
  lemma {:induction false} WeightIsFadedShare(samples: seq<Sample>, decay: real -> real, k: nat)
    requires IsDecay(decay) && k < |samples|
    ensures Weights(samples, decay)[k] == Times(TakenOver(samples, k, decay), decay(Age(samples, k)))
    ensures Weights(samples, decay)[k] >= 0.0
    ensures k == 0 ==> Weights(samples, decay)[0] == decay(Age(samples, 0))
    decreases |samples|
  {
    var n := |samples| - 1;
    var share := TakenOver(samples, k, decay);
    if k < n {
      WeightIsFadedShare(samples[..n], decay, k);
      var (a, g) := (Age(samples[..n], k), Gap(samples[n - 1].at, samples[n].at));
      assert Multiplies(decay, a, g);
      TimesLaws(share, decay(a), decay(g));
    } else {
      TimesLaws(share, 0.0, 0.0);
    }
    TimesLaws(share, decay(Age(samples, k)), 0.0);
    TimesLaws(decay(Age(samples, k)), 1.0, 0.0);
  }

  /** With a clock that never goes back, the first sample's weight is its decay over the time since. */
  lemma FirstSampleWeight(samples: seq<Sample>, decay: real -> real)
    requires samples != [] && IsDecay(decay) && ClockForward(samples)
    ensures Weights(samples, decay)[0] == decay(HalfLives(samples[|samples| - 1].at - samples[0].at))
  {
    var (age, since) := (Age(samples, 0), HalfLives(samples[|samples| - 1].at - samples[0].at));
    assert age == since by {
      AgeIsElapsed(samples, 0);
    }
    assert Weights(samples, decay)[0] == decay(age) by {
      WeightIsFadedShare(samples, decay, 0);
    }
  }

  /** The estimate never leaves the span of the accepted samples. */
  lemma {:induction false} EstimateStaysInSpan(samples: seq<Sample>, decay: real -> real, lo: real, hi: real)
    requires IsDecay(decay) && samples != []
    requires forall k :: 0 <= k < |samples| ==> lo <= samples[k].bps <= hi
    ensures lo <= After(samples, decay).throughput <= hi
    decreases |samples|
  {
    var n := |samples| - 1;
    if n > 0 {
      EstimateStaysInSpan(samples[..n], decay, lo, hi);
      Between(1.0 - Fade(samples, decay), samples[n].bps, After(samples[..n], decay).throughput, lo, hi);
    }
  }

  lemma Between(alpha: real, x: real, y: real, lo: real, hi: real)
    requires 0.0 <= alpha <= 1.0 && lo <= x <= hi && lo <= y <= hi
    ensures lo <= Times(alpha, x) + Times(1.0 - alpha, y) <= hi
  {
    Squeeze(alpha, x, lo, hi);
    Squeeze(1.0 - alpha, y, lo, hi);
    TimesLaws(alpha, 1.0 - alpha, lo);
    TimesLaws(alpha, 1.0 - alpha, hi);
    TimesLaws(lo, 1.0, 0.0);
    TimesLaws(hi, 1.0, 0.0);
  }

  lemma Squeeze(g: real, x: real, lo: real, hi: real)
    requires 0.0 <= g && lo <= x <= hi
    ensures Times(g, lo) <= Times(g, x) <= Times(g, hi)
  {
  }
}
