/**
 * The balancer object: links, round-robin counter, scorer and host pins, updated
 * in place. Each method is tied to the operation on values of the same name in
 * Affinity, and each pick to the rule it follows.
 */
module Balancer {
  import opened Prelude
  import opened Links
  import opened RoundRobin
  import opened Affinity
  import Scorer

  const EXPLORE_PROB: real := 0.1

  function ViewOf(l: Link): LinkView
    reads l
  {
    LinkView(l.Name, l.LocalIP, l.Weight, l.Healthy, l.ProbeLatency, l.ActiveConns, l.TotalConns, l.BytesIn, l.BytesOut)
  }

  function ViewsOf(ls: seq<Link>): (vs: seq<LinkView>)
    reads ls
    ensures |vs| == |ls| && forall i :: 0 <= i < |ls| ==> vs[i] == ViewOf(ls[i])
  {
    if ls == [] then [] else ViewsOf(ls[..|ls| - 1]) + [ViewOf(ls[|ls| - 1])]
  }

  class Balancer {
    var links: seq<Link>
    var next: int
    var scorer: Scorer.LinkScorer?
    var hostPins: map<string, string>

    constructor ()
      ensures Valid() && View() == Affinity.View([], 0, map[]) && scorer == null
    {
      links, next, scorer, hostPins := [], 0, null, map[];
    }

    function Views(): (vs: seq<LinkView>)
      reads this`links, links
      ensures |vs| == |links|
    {
      ViewsOf(links)
    }

    function View(): View
      reads this, links
    {
      Affinity.View(Views(), next, hostPins)
    }

    /** Names are unique, hence the links are different objects. */
    ghost predicate Valid()
      reads this`links
    {
      forall i, j :: 0 <= i < j < |links| ==> links[i].Name != links[j].Name
    }

    /** Updating one link object updates one place of the view. */
    twostate lemma OneLinkChanged(i: nat)
      requires old(Valid()) && links == old(links) && i < |links|
      requires forall l :: l in links && l != links[i] ==> unchanged(l)
      ensures Valid() && Views() == old(Views())[i := ViewOf(links[i])]
    {
      var before := old(Views());
      forall j | 0 <= j < |links| && j != i ensures Views()[j] == before[j] {
        assert links[j].Name != links[i].Name;
        assert links[j] in links && unchanged(links[j]);
      }
    }

    /** Where a walk over the links finds this name. */
    lemma FoundAt(name: string, k: nat)
      requires k <= |links| && forall i :: 0 <= i < k ==> links[i].Name != name
      requires k < |links| ==> links[k].Name == name
      ensures Find(Views(), name) == if k < |links| then Some(k) else None
    {
      assert forall i :: 0 <= i < |links| ==> Views()[i].name == links[i].Name;
    }

    /** A link's name leads to its own place. */
    lemma FoundAtPlace(k: nat)
      requires Valid() && k < |links|
      ensures Find(Views(), links[k].Name) == Some(k)
    {
      assert forall i :: 0 <= i < k ==> links[i].Name != links[k].Name;
      FoundAt(links[k].Name, k);
    }

    method Append(l: Link)
      requires Valid() && Find(Views(), l.Name).None?
      modifies this`links
      ensures Valid() && links == old(links) + [l] && Views() == old(Views()) + [ViewOf(l)]
    {
      assert forall i :: 0 <= i < |links| ==> Views()[i].name == links[i].Name;
      links := links + [l];
    }

    method AddLink(l: Link)
      requires Valid()
      modifies this`links
      ensures Valid() && View() == Apply(old(View()), Op.AddLink(ViewOf(l)))
      ensures links == if old(Find(Views(), l.Name)).Some? then old(links) else old(links) + [l]
    {
      for k := 0 to |links|
        invariant forall i :: 0 <= i < k ==> links[i].Name != l.Name
      {
        if links[k].Name == l.Name {
          FoundAt(l.Name, k);
          return;
        }
      }
      FoundAt(l.Name, |links|);
      Append(l);
    }

    /** The part of Upsert for a link that exists. */
    method Refresh(ghost k: nat, l: Link, ip: string, latency: real) returns (wasHealthy: bool)
      requires Valid() && k < |links| && l == links[k]
      modifies l`Healthy, l`LocalIP, l`ProbeLatency
      ensures Valid() && wasHealthy == old(Views())[k].healthy
      ensures Views() == old(Views())[k := old(Views())[k].(healthy := true, ip := ip, latency := latency)]
    {
      wasHealthy := l.Healthy;
      l.Healthy := true;
      l.LocalIP := ip;
      l.ProbeLatency := latency;
      OneLinkChanged(k);
    }

    /** The part of Upsert for a link that does not. */
    method AppendNew(name: string, ip: string, weight: int, latency: real)
      requires Valid() && Find(Views(), name).None?
      modifies this`links
      ensures Valid() && Views() == old(Views()) + [LinkView(name, ip, weight, true, latency, 0, 0, 0, 0)]
      ensures |links| == |old(links)| + 1 && links[..|old(links)|] == old(links) && fresh(links[|old(links)|])
    {
      var l := new Link(name, ip, weight, true, latency);
      Append(l);
    }

    method Upsert(name: string, ip: string, weight: int, latency: real) returns (wasHealthy: bool, existed: bool)
      requires Valid()
      modifies this`links, links
      ensures Valid() && View() == Apply(old(View()), Op.Upsert(name, ip, weight, latency))
      ensures existed == old(Find(Views(), name)).Some?
      ensures wasHealthy == (existed && old(Views())[old(Find(Views(), name)).value].healthy)
      ensures old(links) <= links && fresh(set l | l in links && l !in old(links))
    {
      for k := 0 to |links|
        invariant forall i :: 0 <= i < k ==> links[i].Name != name
        invariant links == old(links) && forall l :: l in links ==> unchanged(l)
      {
        var l := links[k];
        if l.Name == name {
          FoundAt(name, k);
          wasHealthy := Refresh(k, l, ip, latency);
          return wasHealthy, true;
        }
      }
      FoundAt(name, |links|);
      AppendNew(name, ip, weight, latency);
      wasHealthy, existed := false, false;
    }

    method SetHealthy(name: string, healthy: bool) returns (wasHealthy: bool)
      requires Valid()
      modifies links
      ensures Valid() && View() == Apply(old(View()), Op.SetHealthy(name, healthy))
      ensures var i := old(Find(Views(), name)); wasHealthy == (i.Some? && old(Views())[i.value].healthy)
    {
      for k := 0 to |links|
        invariant forall i :: 0 <= i < k ==> links[i].Name != name
        invariant forall l :: l in links ==> unchanged(l)
      {
        var l := links[k];
        if l.Name == name {
          FoundAt(name, k);
          wasHealthy := l.Healthy;
          l.Healthy := healthy;
          OneLinkChanged(k);
          return;
        }
      }
      FoundAt(name, |links|);
      wasHealthy := false;
    }

    /** The healthy links, in order and each once, as themselves and not as copies; places says where they are. */
    method HealthyLinks() returns (out: seq<Link>, ghost places: seq<nat>)
      ensures |out| == |places| && forall h :: 0 <= h < |out| ==> places[h] < |links| && out[h] == links[places[h]]
      ensures HealthyUpTo(Views(), places, |links|)
      ensures forall l :: l in out <==> l in links && l.Healthy
    {
      out, places := [], [];
      for k := 0 to |links|
        invariant |out| == |places| && forall h :: 0 <= h < |out| ==> places[h] < k && out[h] == links[places[h]]
        invariant HealthyUpTo(Views(), places, k)
        invariant forall l :: l in out <==> l in links[..k] && l.Healthy
      {
        if links[k].Healthy {
          out, places := out + [links[k]], places + [k];
        }
      }
      assert links[..|links|] == links;
    }

    /** The pick counts the new connection on the link. */
    method Count(ghost i: nat, l: Link)
      requires Valid() && i < |links| && l == links[i]
      modifies l`ActiveConns, l`TotalConns
      ensures Valid() && Views() == TakeAt(old(Views()), i)
    {
      l.ActiveConns := l.ActiveConns + 1;
      l.TotalConns := l.TotalConns + 1;
      OneLinkChanged(i);
    }

    /** The first loop of pickRoundRobin. */
    method TotalWeight() returns (total: int)
      ensures total == Total(Views())
    {
      total := 0;
      for k := 0 to |links|
        invariant total + TotalFrom(Views(), k) == Total(Views())
      {
        if links[k].Healthy {
          total := total + (if links[k].Weight < 1 then 1 else links[k].Weight);
        }
      }
    }

    /** The second loop of pickRoundRobin; the return after it is never reached. */
    method WalkTo(start: int, ghost vs: seq<LinkView>) returns (r: Link?, ghost choice: nat)
      requires Valid() && vs == Views() && start < Total(vs) && Total(vs) > 0
      modifies links
      ensures Valid() && choice < |links| && r == links[choice]
      ensures Walk(vs, 0, start) == Some(choice)
      ensures Views() == TakeAt(vs, choice)
    {
      choice := 0;
      var idx := start;
      WalkFinds(vs, 0, start);
      for i := 0 to |links|
        invariant Walk(vs, i, idx) == Walk(vs, 0, start) && Views() == vs
      {
        var l := links[i];
        if !l.Healthy {
          continue;
        }
        var w := if l.Weight < 1 then 1 else l.Weight;
        if idx < w {
          Count(i, l);
          return l, i;
        }
        idx := idx - w;
      }
      assert false;
      r := null;
    }

    /** Reads the counter for this pick and moves it on. */
    method TakeTurn(total: int, ghost vs: seq<LinkView>) returns (idx: int)
      requires total == Total(vs) > 0
      modifies this`next
      ensures Choice(vs, old(next)) == Walk(vs, 0, idx) && idx < total
      ensures next == NextAfter(vs, old(next))
    {
      idx := TruncRem(next, total);
      next := Wrap64(next + 1);
    }

    /** Follows the round-robin rule, whose fairness RoundRobin shows. */
    method PickRoundRobin() returns (r: Link?, ghost choice: Option<nat>)
      requires Valid()
      modifies this`next, links
      ensures Valid()
      ensures choice == Choice(old(Views()), old(next)) && Policy(old(Views()), choice)
      ensures next == NextAfter(old(Views()), old(next))
      ensures if choice.None? then r == null && Views() == old(Views())
              else r == links[choice.value] && Views() == TakeAt(old(Views()), choice.value)
    {
      ghost var (vs, n) := (Views(), next);
      RoundRobinIsPolicy(vs, n);
      choice := None;
      var total := TotalWeight();
      if total == 0 {
        return null, None;
      }
      var idx := TakeTurn(total, vs);
      ghost var i;
      r, i := WalkTo(idx, vs);
      choice := Some(i);
    }

    /** What the scorer knows about each link. */
    function Stats(): (es: seq<Option<Scorer.Ewma>>)
      requires scorer != null
      reads this`links, this`scorer, scorer
      ensures |es| == |links| && forall i :: 0 <= i < |links| ==> es[i] == scorer.Stat(links[i])
    {
      StatsOf(scorer, links)
    }

    /** What is known about the links: nothing without a scorer. */
    ghost function Known(): seq<Option<Scorer.Ewma>>
      reads this`links, this`scorer, scorer
    {
      if scorer == null then [] else Stats()
    }

    /**
     * Follows the score: with two healthy links, the first stale one whose own draw
     * is below the exploration probability; else the best link, the first among
     * equals. Counters that were negative would make scores negative or undefined.
     */
    method PickByScore(now: real, draws: seq<real>) returns (r: Link?, ghost choice: Option<nat>)
      requires Valid() && scorer != null && Scorable(Views(), Stats()) && |draws| >= |links|
      modifies links
      ensures Valid() && Policy(old(Views()), choice)
      ensures if choice.None? then r == null && Views() == old(Views())
              else r == links[choice.value] && Views() == TakeAt(old(Views()), choice.value)
      ensures choice.Some? ==> ScoreRule(old(Views()), old(Stats()), now, draws, choice.value)
    {
      choice := None;
      var healthy := CollectHealthy();
      if |healthy| == 0 {
        return null, None;
      }
      var best := ExploreOrHighest(healthy, now, draws, Views(), Stats());
      r, choice := links[best], Some(best);
      Count(best, r);
    }

    /** The first loop of pickByScore. */
    method CollectHealthy() returns (healthy: seq<nat>)
      ensures HealthyUpTo(Views(), healthy, |links|)
    {
      ghost var vs := Views();
      healthy := [];
      for k := 0 to |links|
        invariant HealthyUpTo(vs, healthy, k)
      {
        if links[k].Healthy {
          healthy := healthy + [k];
        }
      }
    }

    /** The rest of pickByScore, up to counting the connection. */
    method ExploreOrHighest(healthy: seq<nat>, now: real, draws: seq<real>,
                            ghost vs: seq<LinkView>, ghost es: seq<Option<Scorer.Ewma>>)
      returns (best: nat)
      requires scorer != null && vs == Views() && es == Stats() && Scorable(vs, es) && |draws| >= |links|
      requires HealthyUpTo(vs, healthy, |links|) && healthy != []
      ensures ScoreRule(vs, es, now, draws, best)
    {
      HealthyCount(vs, healthy);
      if |healthy| > 1 {
        var found := Explore(healthy, now, draws, vs, es);
        if found.Some? {
          return found.value;
        }
      }
      best := Highest(healthy, vs, es);
    }

    /** The exploration loop of pickByScore: one draw for each stale link, in order. */
    method Explore(healthy: seq<nat>, now: real, draws: seq<real>, ghost vs: seq<LinkView>, ghost es: seq<Option<Scorer.Ewma>>)
      returns (found: Option<nat>)
      requires scorer != null && vs == Views() && es == Stats() && |draws| >= |links|
      requires HealthyUpTo(vs, healthy, |links|)
      ensures found.Some? ==> FirstExplored(vs, es, now, draws, found.value)
      ensures found.None? ==> forall j :: 0 <= j < |vs| ==> !Explores(vs, es, now, draws, j)
    {
      var drawn := 0;
      HealthyGap(vs, es, now, healthy, 0);
      for h := 0 to |healthy|
        invariant PassedOver(vs, es, now, draws, healthy, h, drawn)
      {
        var k := healthy[h];
        ScanNext(vs, es, now, draws, healthy, h, drawn);
        assert es[k] == scorer.Stat(links[k]);
        if scorer.IsStale(links[k], now) {
          if draws[drawn] < EXPLORE_PROB {
            return Some(k);
          }
          drawn := drawn + 1;
        }
      }
      found := None;
    }

    /** The last loop of pickByScore. */
    method Highest(healthy: seq<nat>, ghost vs: seq<LinkView>, ghost es: seq<Option<Scorer.Ewma>>) returns (best: nat)
      requires scorer != null && vs == Views() && es == Stats() && Scorable(vs, es)
      requires HealthyUpTo(vs, healthy, |links|) && healthy != []
      ensures Best(vs, es, best)
    {
      best := healthy[0];
      var bestScore := -1.0;
      for h := 0 to |healthy|
        invariant h == 0 ==> bestScore == -1.0
        invariant h > 0 ==> best in healthy[..h] && bestScore == ScoreAt(vs, es, best)
        invariant forall g :: 0 <= g < h ==> ScoreAt(vs, es, healthy[g]) <= bestScore
        invariant forall g :: 0 <= g < h && healthy[g] < best ==> ScoreAt(vs, es, healthy[g]) < bestScore
      {
        var l := links[healthy[h]];
        var sc := scorer.Score(l);
        assert sc == ScoreAt(vs, es, healthy[h]);
        if sc > bestScore {
          bestScore := sc;
          best := healthy[h];
        }
      }
    }

    /** Pick: by score if there is a scorer, in turn otherwise. */
    method Pick(now: real, draws: seq<real>) returns (r: Link?, ghost choice: Option<nat>)
      requires Valid() && |draws| >= |links| && (scorer != null ==> Scorable(Views(), Stats()))
      modifies this`next, links
      ensures Valid() && Policy(old(Views()), choice)
      ensures Views() == if choice.None? then old(Views()) else TakeAt(old(Views()), choice.value)
      ensures if choice.None? then r == null else r == links[choice.value]
      ensures FollowsRule(scorer != null, old(Views()), old(Known()), now, draws, old(next), choice, next)
    {
      if scorer == null {
        r, choice := PickRoundRobin();
      } else {
        r, choice := PickByScore(now, draws);
      }
    }

    /** The search of PickForHost for a pinned link that is still up. */
    method PickPinned(host: string) returns (r: Link?)
      requires Valid()
      modifies links
      ensures Valid()
      ensures var p := old(PinnedLink(View(), host));
              if p.None? then r == null && Views() == old(Views())
              else r == links[p.value] && Views() == TakeAt(old(Views()), p.value)
    {
      if host !in hostPins {
        return null;
      }
      var name := hostPins[host];
      for k := 0 to |links|
        invariant forall i :: 0 <= i < k ==> links[i].Name != name
        invariant Views() == old(Views())
      {
        if links[k].Name == name {
          FoundAt(name, k);
          if links[k].Healthy {
            Count(k, links[k]);
            return links[k];
          }
          return null;
        }
      }
      FoundAt(name, |links|);
      r := null;
    }

    /** A pick from the links vs has given out this link, and counts it. */
    ghost predicate Handed(vs: seq<LinkView>, choice: Option<nat>, r: Link?)
      reads this`links, links
    {
      if choice.None? then r == null && Views() == vs
      else && choice.value < |links| == |vs| && r == links[choice.value] && r.Name == vs[choice.value].name
           && Views() == TakeAt(vs, choice.value)
    }

    /** The pick inside PickForHost, from a state known beforehand. */
    method PickFrom(now: real, draws: seq<real>, ghost vs: seq<LinkView>, ghost es: seq<Option<Scorer.Ewma>>, ghost before: int)
      returns (r: Link?, ghost choice: Option<nat>)
      requires Valid() && |draws| >= |links| && (scorer != null ==> Scorable(vs, es))
      requires vs == Views() && es == Known() && before == next
      modifies this`next, links
      ensures Valid() && Policy(vs, choice)
      ensures Handed(vs, choice, r)
      ensures FollowsRule(scorer != null, vs, es, now, draws, before, choice, next)
    {
      r, choice := Pick(now, draws);
    }

    /** The rest of PickForHost: drops what pin there was, picks afresh and pins the result. */
    method Repin(host: string, now: real, draws: seq<real>, ghost vs: seq<LinkView>, ghost es: seq<Option<Scorer.Ewma>>)
      returns (r: Link?, ghost choice: Option<nat>)
      requires Valid() && |draws| >= |links| && (scorer != null ==> Scorable(vs, es))
      requires vs == Views() && es == Known()
      modifies this`next, this`hostPins, links
      ensures Valid() && Policy(vs, choice)
      ensures FollowsRule(scorer != null, vs, es, now, draws, old(next), choice, next)
      ensures Handed(vs, choice, r)
      ensures hostPins == if r == null then old(hostPins) - {host} else old(hostPins)[host := r.Name]
    {
      ghost var pins := hostPins;
      Unpin(host, vs, es);
      r, choice := PickFrom(now, draws, vs, es, next);
      Pin(host, r, pins, vs, choice);
    }

    method Unpin(host: string, ghost vs: seq<LinkView>, ghost es: seq<Option<Scorer.Ewma>>)
      requires Valid() && vs == Views() && es == Known()
      modifies this`hostPins
      ensures Valid() && vs == Views() && es == Known() && hostPins == old(hostPins) - {host}
    {
      hostPins := hostPins - {host};
    }

    method Pin(host: string, r: Link?, ghost pins: map<string, string>, ghost vs: seq<LinkView>, ghost choice: Option<nat>)
      requires Valid() && hostPins == pins - {host} && Handed(vs, choice, r)
      modifies this`hostPins
      ensures Valid() && Handed(vs, choice, r)
      ensures hostPins == if r == null then pins - {host} else pins[host := r.Name]
    {
      if r != null {
        PinOver(pins, host, r.Name);
        hostPins := hostPins[host := r.Name];
      }
    }

    /** PickForHost: the pinned link while it is up, else a fresh pick, which is pinned. */
    method PickForHost(host: string, now: real, draws: seq<real>) returns (r: Link?, ghost choice: Option<nat>)
      requires Valid() && |draws| >= |links| && (scorer != null ==> Scorable(Views(), Stats()))
      modifies this`next, this`hostPins, links
      ensures Valid() && Policy(old(Views()), choice)
      ensures View() == AfterPickForHost(old(View()), host, choice, next)
      ensures var p := Picked(old(View()), host, choice); if p.None? then r == null else r == links[p.value]
      ensures if old(PinnedLink(View(), host)).Some? then next == old(next)
              else FollowsRule(scorer != null, old(Views()), old(Known()), now, draws, old(next), choice, next)
    {
      ghost var v := View();
      r := PickPinned(host);
      if r != null {
        choice := PinnedLink(v, host);
        return;
      }
      r, choice := Repin(host, now, draws, Views(), Known());
    }
  }

  lemma PinOver(pins: map<string, string>, host: string, name: string)
    ensures (pins - {host})[host := name] == pins[host := name]
  {
  }

  function StatsOf(scorer: Scorer.LinkScorer, ls: seq<Link>): (es: seq<Option<Scorer.Ewma>>)
    reads scorer
    ensures |es| == |ls| && forall i :: 0 <= i < |ls| ==> es[i] == scorer.Stat(ls[i])
  {
    if ls == [] then [] else StatsOf(scorer, ls[..|ls| - 1]) + [scorer.Stat(ls[|ls| - 1])]
  }

  /** Scores are defined and not negative: no link has a negative connection count or throughput. */
  ghost predicate Scorable(vs: seq<LinkView>, es: seq<Option<Scorer.Ewma>>) {
    && |vs| == |es|
    && forall i :: 0 <= i < |vs| ==> vs[i].active >= 0 && (es[i].Some? ==> es[i].value.throughput >= 0.0)
  }

  ghost function ScoreAt(vs: seq<LinkView>, es: seq<Option<Scorer.Ewma>>, i: nat): (sc: real)
    requires Scorable(vs, es) && i < |vs|
    ensures sc >= 0.0
  {
    Scorer.ScoreOf(es[i], vs[i].latency, vs[i].active)
  }

  /** Link i has the highest score of the healthy links, and is the first to have it. */
  ghost predicate Best(vs: seq<LinkView>, es: seq<Option<Scorer.Ewma>>, i: nat)
    requires Scorable(vs, es)
  {
    && i < |vs| && vs[i].healthy
    && forall j :: 0 <= j < |vs| && vs[j].healthy ==>
         ScoreAt(vs, es, j) <= ScoreAt(vs, es, i) && (j < i ==> ScoreAt(vs, es, j) < ScoreAt(vs, es, i))
  }

  ghost predicate HealthyUpTo(vs: seq<LinkView>, healthy: seq<nat>, k: nat) {
    && |healthy| <= k <= |vs|
    && (forall h :: 0 <= h < |healthy| ==> healthy[h] < k && vs[healthy[h]].healthy)
    && (forall i :: 0 <= i < k && vs[i].healthy ==> i in healthy)
    && (forall g, h :: 0 <= g < h < |healthy| ==> healthy[g] < healthy[h])
  }

  /** How many of the first k links are healthy and stale. */
  function StaleBefore(vs: seq<LinkView>, es: seq<Option<Scorer.Ewma>>, now: real, k: nat): (n: nat)
    requires k <= |vs| == |es|
    ensures n <= k
  {
    if k == 0 then 0
    else StaleBefore(vs, es, now, k - 1) + (if vs[k - 1].healthy && Scorer.Stale(es[k - 1], now) then 1 else 0)
  }

  /** Link i is healthy and stale, and its draw, one for each such link in order, is low. */
  ghost predicate Explores(vs: seq<LinkView>, es: seq<Option<Scorer.Ewma>>, now: real, draws: seq<real>, i: nat)
    requires |es| == |vs| <= |draws|
  {
    && i < |vs| && vs[i].healthy && Scorer.Stale(es[i], now)
    && draws[StaleBefore(vs, es, now, i)] < EXPLORE_PROB
  }

  ghost predicate FirstExplored(vs: seq<LinkView>, es: seq<Option<Scorer.Ewma>>, now: real, draws: seq<real>, i: nat)
    requires |es| == |vs| <= |draws|
  {
    Explores(vs, es, now, draws, i) && forall j :: 0 <= j < i ==> !Explores(vs, es, now, draws, j)
  }

  ghost predicate TwoHealthy(vs: seq<LinkView>) {
    exists i, j :: 0 <= i < j < |vs| && vs[i].healthy && vs[j].healthy
  }

  /** What a pick by score may return, given the draws. */
  ghost predicate ScoreRule(vs: seq<LinkView>, es: seq<Option<Scorer.Ewma>>, now: real, draws: seq<real>, i: nat)
    requires Scorable(vs, es) && |vs| <= |draws|
  {
    if TwoHealthy(vs) && exists j :: 0 <= j < |vs| && Explores(vs, es, now, draws, j)
    then FirstExplored(vs, es, now, draws, i)
    else Best(vs, es, i)
  }

  /** A pick in turn without a scorer, which moves the counter on; by score with one, which leaves it. */
  ghost predicate FollowsRule(scored: bool, vs: seq<LinkView>, es: seq<Option<Scorer.Ewma>>, now: real, draws: seq<real>,
                              before: int, choice: Option<nat>, after: int)
  {
    if !scored then choice == Choice(vs, before) && after == NextAfter(vs, before)
    else && after == before && Policy(vs, choice)
         && (choice.Some? ==> Scorable(vs, es) && |vs| <= |draws| && ScoreRule(vs, es, now, draws, choice.value))
  }

  /** Where the h-th healthy link is; the end of the links for the one after the last. */
  function Place(healthy: seq<nat>, h: nat, n: nat): nat
    requires h <= |healthy|
  {
    if h < |healthy| then healthy[h] else n
  }

  lemma HealthyCount(vs: seq<LinkView>, healthy: seq<nat>)
    requires HealthyUpTo(vs, healthy, |vs|)
    ensures |healthy| > 1 <==> TwoHealthy(vs)
  {
    if |healthy| > 1 {
      assert healthy[0] < healthy[1];
    }
  }

  lemma NotListed(vs: seq<LinkView>, healthy: seq<nat>, h: nat, x: nat)
    requires HealthyUpTo(vs, healthy, |vs|) && h <= |healthy|
    requires (if h == 0 then 0 else healthy[h - 1] + 1) <= x < Place(healthy, h, |vs|)
    ensures x !in healthy
  {
    forall g | 0 <= g < |healthy| ensures healthy[g] != x {
      if g < h - 1 {
        assert healthy[g] < healthy[h - 1];
      } else if g > h {
        assert healthy[h] < healthy[g];
      }
    }
  }

  /** The draws of the stale links before the h-th healthy one have been taken, and none was low. */
  ghost predicate PassedOver(vs: seq<LinkView>, es: seq<Option<Scorer.Ewma>>, now: real, draws: seq<real>,
                             healthy: seq<nat>, h: nat, drawn: nat)
    requires |es| == |vs| <= |draws| && h <= |healthy|
  {
    var p := Place(healthy, h, |vs|);
    && p <= |vs| && drawn == StaleBefore(vs, es, now, p)
    && forall j :: 0 <= j < p ==> !Explores(vs, es, now, draws, j)
  }

  lemma ScanNext(vs: seq<LinkView>, es: seq<Option<Scorer.Ewma>>, now: real, draws: seq<real>,
                 healthy: seq<nat>, h: nat, drawn: nat)
    requires |es| == |vs| <= |draws| && HealthyUpTo(vs, healthy, |vs|) && h < |healthy|
    requires PassedOver(vs, es, now, draws, healthy, h, drawn)
    ensures drawn < |draws|
    ensures if !Scorer.Stale(es[healthy[h]], now) then PassedOver(vs, es, now, draws, healthy, h + 1, drawn)
            else if draws[drawn] < EXPLORE_PROB then FirstExplored(vs, es, now, draws, healthy[h])
            else PassedOver(vs, es, now, draws, healthy, h + 1, drawn + 1)
  {
    HealthyGap(vs, es, now, healthy, h + 1);
  }

  /** Between two healthy links that follow one another nothing is counted. */
  lemma HealthyGap(vs: seq<LinkView>, es: seq<Option<Scorer.Ewma>>, now: real, healthy: seq<nat>, h: nat)
    requires |es| == |vs| && HealthyUpTo(vs, healthy, |vs|) && h <= |healthy|
    ensures var from := if h == 0 then 0 else healthy[h - 1] + 1;
            && from <= Place(healthy, h, |vs|) <= |vs|
            && StaleBefore(vs, es, now, Place(healthy, h, |vs|)) == StaleBefore(vs, es, now, from)
            && forall x :: from <= x < Place(healthy, h, |vs|) ==> !vs[x].healthy
  {
    var from := if h == 0 then 0 else healthy[h - 1] + 1;
    forall x | from <= x < Place(healthy, h, |vs|) ensures !vs[x].healthy {
      NotListed(vs, healthy, h, x);
    }
    StaleGap(vs, es, now, from, Place(healthy, h, |vs|));
  }

  lemma {:induction false} StaleGap(vs: seq<LinkView>, es: seq<Option<Scorer.Ewma>>, now: real, a: nat, b: nat)
    requires a <= b <= |vs| == |es| && forall x :: a <= x < b ==> !vs[x].healthy
    ensures StaleBefore(vs, es, now, b) == StaleBefore(vs, es, now, a)
    decreases b
  {
    if a < b {
      StaleGap(vs, es, now, a, b - 1);
    }
  }

  lemma RoundRobinIsPolicy(vs: seq<LinkView>, next: int)
    ensures Policy(vs, Choice(vs, next))
  {
    ChoiceIsHealthy(vs, next);
  }
}
