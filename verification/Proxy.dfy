/**
 * The code that takes and gives back leases, as it runs in one goroutine: dialLink
 * with LinkConn.Close, forwardOrSplit and handleUpgrade. The network's answers come
 * in as arguments.
 */
module Proxy {
  import opened Prelude
  import opened Links
  import opened RoundRobin
  import opened Affinity
  import Balancer
  import Scorer

  function Actives(vs: seq<LinkView>): seq<int> {
    seq(|vs|, i requires 0 <= i < |vs| => vs[i].active)
  }

  /** A dialed connection that owns one lease on its link; no link for a loopback target. */
  class LinkConn {
    const link: Link?
    const scorer: Scorer.LinkScorer?
    const startTime: real
    const bytesStart: int
    var released: bool

    constructor (link: Link?, scorer: Scorer.LinkScorer?, startTime: real, bytesStart: int)
      ensures this.link == link && this.scorer == scorer && this.startTime == startTime && this.bytesStart == bytesStart
      ensures !released
    {
      this.link, this.scorer, this.startTime, this.bytesStart := link, scorer, startTime, bytesStart;
      released := false;
    }

    /** The first Close gives the lease back and records a sample; any further one changes nothing. */
    method Close(now: real, decay: real -> real)
      modifies this`released
      modifies (if link == null then {} else {link})`ActiveConns
      modifies if scorer == null then {} else {scorer}
      ensures released == (old(released) || link != null)
      ensures link != null ==> link.ActiveConns == old(link.ActiveConns) - (if old(released) then 0 else 1)
      ensures scorer != null && (link == null || old(released)) ==> scorer.stats == old(scorer.stats)
      ensures scorer != null && link != null && !old(released) ==>
                scorer.stats ==
                if Scorer.Accepted(link.BytesIn - bytesStart, now - startTime)
                then old(scorer.stats)[link := Scorer.Absorb(old(scorer.Stat(link)),
                       (link.BytesIn - bytesStart) as real / (now - startTime), now, decay)]
                else old(scorer.stats)
    {
      if link != null && !released {
        released := true;
        link.ActiveConns := link.ActiveConns - 1;
        if scorer != null {
          scorer.RecordSample(link, link.BytesIn - bytesStart, now - startTime, now, decay);
        }
      }
    }
  }

  /** The names of the links, each with its health. */
  function Ups(vs: seq<LinkView>): seq<(string, bool)> {
    seq(|vs|, i requires 0 <= i < |vs| => (vs[i].name, vs[i].healthy))
  }

  /** Some healthy link has none of these names. */
  ghost predicate StillUp(vs: seq<LinkView>, down: set<string>) {
    exists i :: 0 <= i < |vs| && vs[i].healthy && vs[i].name !in down
  }

  lemma SameUps(vs: seq<LinkView>, ws: seq<LinkView>, down: set<string>)
    requires Ups(vs) == Ups(ws)
    ensures SomeHealthy(vs) == SomeHealthy(ws) && StillUp(vs, down) == StillUp(ws, down)
  {
    assert forall i :: 0 <= i < |vs| ==> Ups(vs)[i] == (vs[i].name, vs[i].healthy);
    assert forall i :: 0 <= i < |ws| ==> Ups(ws)[i] == (ws[i].name, ws[i].healthy);
  }

  /** A pick adds one connection and touches neither health nor what scores need. */
  lemma TakeFacts(vs: seq<LinkView>, es: seq<Option<Scorer.Ewma>>, i: nat)
    requires i < |vs|
    ensures Actives(TakeAt(vs, i)) == OneMore(Actives(vs), i) && Ups(TakeAt(vs, i)) == Ups(vs)
    ensures NoneNegative(vs) ==> NoneNegative(TakeAt(vs, i)) && Actives(vs)[i] >= 0
    ensures Balancer.Scorable(vs, es) ==> Balancer.Scorable(TakeAt(vs, i), es)
  {
  }

  lemma ReturnFacts(vs: seq<LinkView>, es: seq<Option<Scorer.Ewma>>, i: nat, before: seq<int>)
    requires i < |vs| && i < |before| && Actives(vs) == OneMore(before, i) && before[i] >= 0
    ensures Actives(Returned(vs, i)) == before && Ups(Returned(vs, i)) == Ups(vs)
    ensures NoneNegative(vs) ==> NoneNegative(Returned(vs, i))
    ensures Balancer.Scorable(vs, es) ==> Balancer.Scorable(Returned(vs, i), es)
  {
    assert forall k :: 0 <= k < |vs| ==> Actives(vs)[k] == vs[k].active;
  }

  ghost predicate NoneNegative(vs: seq<LinkView>) {
    forall i :: 0 <= i < |vs| ==> vs[i].active >= 0
  }

  /** The balancer is in order, no counter is negative, and its links can be scored if there is a scorer. */
  ghost predicate Ready(b: Balancer.Balancer)
    reads b, b.links, b.scorer
  {
    && b.Valid() && NoneNegative(b.Views())
    && (b.scorer != null ==> Balancer.Scorable(b.Views(), b.Stats()))
  }

  /** The connection counts with one more at link i. */
  function OneMore(actives: seq<int>, i: nat): seq<int>
    requires i < |actives|
  {
    actives[i := actives[i] + 1]
  }

  /** One more connection than before on the link returned, or no link and no change. */
  ghost predicate Leased(b: Balancer.Balancer, link: Link?, at: nat, before: seq<int>)
    reads b, b.links
  {
    if link == null then Actives(b.Views()) == before
    else && at < |b.links| && link == b.links[at] && at < |before| && before[at] >= 0
         && Actives(b.Views()) == OneMore(before, at)
  }

  /** What a pick does to the values that matter here. */
  lemma PickFacts(vs: seq<LinkView>, ws: seq<LinkView>, es: seq<Option<Scorer.Ewma>>, scored: bool, choice: Option<nat>)
    requires NoneNegative(vs) && (scored ==> Balancer.Scorable(vs, es))
    requires if choice.None? then ws == vs else choice.value < |vs| && ws == TakeAt(vs, choice.value)
    ensures NoneNegative(ws) && (scored ==> Balancer.Scorable(ws, es)) && Ups(ws) == Ups(vs)
    ensures if choice.None? then Actives(ws) == Actives(vs)
            else Actives(vs)[choice.value] >= 0 && Actives(ws) == OneMore(Actives(vs), choice.value)
  {
    if choice.Some? {
      TakeFacts(vs, es, choice.value);
    }
  }

  function Place(choice: Option<nat>): nat {
    if choice.Some? then choice.value else 0
  }

  function Chosen(link: Link?, at: nat): Option<nat> {
    if link == null then None else Some(at)
  }

  /** The links after a pick, and after a pick whose lease was given back. */
  function WithPick(vs: seq<LinkView>, choice: Option<nat>): seq<LinkView> {
    if choice.Some? && choice.value < |vs| then TakeAt(vs, choice.value) else vs
  }

  function GivenBack(vs: seq<LinkView>, choice: Option<nat>): (r: seq<LinkView>)
    ensures |r| == |vs|
  {
    if choice.Some? && choice.value < |vs| then Returned(TakeAt(vs, choice.value), choice.value) else vs
  }

  /** A pick, seen as a lease: one more connection on the link it returns. */
  method Lease(b: Balancer.Balancer, now: real, draws: seq<real>) returns (link: Link?, ghost at: nat)
    requires Ready(b) && |draws| >= |b.links|
    modifies b`next, b.links
    ensures Ready(b) && Ups(b.Views()) == Ups(old(b.Views()))
    ensures (link != null) == SomeHealthy(old(b.Views()))
    ensures Leased(b, link, at, old(Actives(b.Views()))) && b.Views() == WithPick(old(b.Views()), Chosen(link, at))
    ensures Balancer.FollowsRule(b.scorer != null, old(b.Views()), old(b.Known()), now, draws,
                                 old(b.next), Chosen(link, at), b.next)
    ensures b.Known() == old(b.Known())
  {
    ghost var (vs, es) := (b.Views(), b.Known());
    ghost var choice;
    link, choice := b.Pick(now, draws);
    at := Place(choice);
    PickFacts(vs, b.Views(), es, b.scorer != null, choice);
    assert b.Known() == es;
  }

  /** Gives a lease back. */
  method Release(b: Balancer.Balancer, ghost i: nat, l: Link, ghost before: seq<int>)
    requires Ready(b) && Leased(b, l, i, before)
    modifies l`ActiveConns
    ensures Ready(b) && Ups(b.Views()) == Ups(old(b.Views())) && Actives(b.Views()) == before
    ensures b.Views() == Returned(old(b.Views()), i) && b.Known() == old(b.Known())
  {
    ghost var (vs, es) := (b.Views(), b.Known());
    l.ActiveConns := l.ActiveConns - 1;
    b.OneLinkChanged(i);
    ReturnFacts(vs, es, i, before);
    assert b.Known() == es;
  }

  /** Hands a lease over to a new connection. */
  method Open(b: Balancer.Balancer, link: Link, now: real, ghost at: nat, ghost before: seq<int>) returns (conn: LinkConn)
    requires Ready(b) && Leased(b, link, at, before)
    ensures Ready(b) && Leased(b, link, at, before) && b.Views() == old(b.Views())
    ensures fresh(conn) && conn.link == link && !conn.released
    ensures conn.scorer == b.scorer && conn.startTime == now && conn.bytesStart == link.BytesIn
    ensures b.Known() == old(b.Known())
  {
    conn := new LinkConn(link, b.scorer, now, link.BytesIn);
  }

  /**
   * One attempt of dialLink: pick, dial, and give the lease back if the dial fails.
   * ok says whether the dial succeeds.
   */
  method DialOnce(b: Balancer.Balancer, ok: bool, now: real, draws: seq<real>)
    returns (conn: LinkConn?, picked: bool, ghost at: nat)
    requires Ready(b) && |draws| >= |b.links|
    modifies b`next, b.links
    ensures Ready(b) && Ups(b.Views()) == Ups(old(b.Views()))
    ensures picked == SomeHealthy(old(b.Views())) && (conn != null <==> picked && ok)
    ensures Leased(b, if conn == null then null else conn.link, at, old(Actives(b.Views())))
    ensures conn != null ==> conn.link != null && !conn.released && fresh(conn)
    ensures conn != null ==> conn.scorer == b.scorer && conn.startTime == now && conn.bytesStart == conn.link.BytesIn
    ensures var choice := if picked then Some(at) else None;
            && b.Views() == (if ok then WithPick(old(b.Views()), choice) else GivenBack(old(b.Views()), choice))
            && Balancer.FollowsRule(b.scorer != null, old(b.Views()), old(b.Known()), now, draws, old(b.next), choice, b.next)
            && b.Known() == old(b.Known())
  {
    ghost var before := Actives(b.Views());
    conn := null;
    var link;
    link, at := Lease(b, now, draws);
    picked := link != null;
    if picked {
      if ok {
        conn := Open(b, link, now, at, before);
      } else {
        Release(b, at, link, before);
      }
    }
  }

  datatype DialError = NoHealthyLinks | DialFailed

  /** What one attempt picked, and the round-robin counter after it. */
  datatype Attempt = Attempt(choice: Option<nat>, next: int)

  /** The links after these attempts have all failed. */
  function AllFailed(vs: seq<LinkView>, trail: seq<Attempt>): (r: seq<LinkView>)
    ensures |r| == |vs|
  {
    if trail == [] then vs else GivenBack(AllFailed(vs, trail[..|trail| - 1]), trail[|trail| - 1].choice)
  }

  function NextIn(next: int, trail: seq<Attempt>): int {
    if trail == [] then next else trail[|trail| - 1].next
  }

  /** Each attempt picks by the rule from what the failed ones before it left. */
  ghost predicate PicksByRule(scored: bool, vs: seq<LinkView>, es: seq<Option<Scorer.Ewma>>,
                              now: seq<real>, draws: seq<seq<real>>, next: int, trail: seq<Attempt>)
    requires |trail| <= |now| == |draws|
  {
    var n := |trail| - 1;
    trail == [] ||
      (&& PicksByRule(scored, vs, es, now, draws, next, trail[..n])
       && Balancer.FollowsRule(scored, AllFailed(vs, trail[..n]), es, now[n], draws[n], NextIn(next, trail[..n]),
                               trail[n].choice, trail[n].next))
  }

  lemma {:induction false} AllFailedFacts(vs: seq<LinkView>, trail: seq<Attempt>)
    ensures Actives(AllFailed(vs, trail)) == Actives(vs) && Ups(AllFailed(vs, trail)) == Ups(vs)
    decreases |trail|
  {
    if trail != [] {
      var n := |trail| - 1;
      AllFailedFacts(vs, trail[..n]);
      GivenBackFacts(AllFailed(vs, trail[..n]), trail[n].choice);
    }
  }

  lemma GivenBackFacts(vs: seq<LinkView>, choice: Option<nat>)
    ensures Actives(GivenBack(vs, choice)) == Actives(vs) && Ups(GivenBack(vs, choice)) == Ups(vs)
  {
  }

  /** The attempts made so far have failed, and left the balancer like this. */
  ghost predicate Tried(b: Balancer.Balancer, vs: seq<LinkView>, es: seq<Option<Scorer.Ewma>>,
                        now: seq<real>, draws: seq<seq<real>>, next: int, trail: seq<Attempt>)
    requires |trail| <= |now| == |draws|
    reads b, b.links, b.scorer
  {
    && Ready(b) && b.Views() == AllFailed(vs, trail) && b.Known() == es && b.next == NextIn(next, trail)
    && PicksByRule(b.scorer != null, vs, es, now, draws, next, trail)
  }

  lemma TrailGrows(scored: bool, vs: seq<LinkView>, es: seq<Option<Scorer.Ewma>>, now: seq<real>, draws: seq<seq<real>>,
                   next: int, trail: seq<Attempt>, a: Attempt)
    requires |trail| < |now| == |draws| && PicksByRule(scored, vs, es, now, draws, next, trail)
    requires Balancer.FollowsRule(scored, AllFailed(vs, trail), es, now[|trail|], draws[|trail|],
                                  NextIn(next, trail), a.choice, a.next)
    ensures PicksByRule(scored, vs, es, now, draws, next, trail + [a])
    ensures AllFailed(vs, trail + [a]) == GivenBack(AllFailed(vs, trail), a.choice) && NextIn(next, trail + [a]) == a.next
  {
    assert (trail + [a])[..|trail|] == trail && (trail + [a])[|trail|] == a;
  }

  /** The last attempt of these has dialed: its link is leased to conn, and nothing else has changed since the one before. */
  ghost predicate Dialed(b: Balancer.Balancer, conn: LinkConn, at: nat, vs: seq<LinkView>, es: seq<Option<Scorer.Ewma>>,
                         now: seq<real>, draws: seq<seq<real>>, next: int, trail: seq<Attempt>)
    requires 0 < |trail| <= |now| == |draws|
    reads b, b.links, b.scorer, conn, conn.link
  {
    var n := |trail| - 1;
    && Ready(b) && PicksByRule(b.scorer != null, vs, es, now, draws, next, trail)
    && trail[n] == Attempt(Some(at), b.next) && b.Views() == WithPick(AllFailed(vs, trail[..n]), Some(at))
    && conn.link != null && Leased(b, conn.link, at, Actives(vs))
    && !conn.released && conn.scorer == b.scorer && conn.startTime == now[n] && conn.bytesStart == conn.link.BytesIn
  }

  /** DialOnce, after attempts that failed. */
  method DialNext(b: Balancer.Balancer, ok: bool, now: seq<real>, draws: seq<seq<real>>, k: nat,
                  ghost vs: seq<LinkView>, ghost es: seq<Option<Scorer.Ewma>>, ghost next: int, ghost trail: seq<Attempt>)
    returns (conn: LinkConn?, picked: bool, ghost at: nat, ghost longer: seq<Attempt>)
    requires k == |trail| < |now| == |draws| && Tried(b, vs, es, now, draws, next, trail) && |draws[k]| >= |b.links|
    modifies b`next, b.links
    ensures picked == SomeHealthy(vs) && (conn != null <==> picked && ok) && |longer| == k + 1
    ensures if conn == null then Tried(b, vs, es, now, draws, next, longer)
            else fresh(conn) && Dialed(b, conn, at, vs, es, now, draws, next, longer)
  {
    AllFailedFacts(vs, trail);
    SameUps(b.Views(), vs, {});
    conn, picked, at := DialOnce(b, ok, now[k], draws[k]);
    ghost var a := Attempt(if picked then Some(at) else None, b.next);
    TrailGrows(b.scorer != null, vs, es, now, draws, next, trail, a);
    longer := trail + [a];
    assert longer[..k] == trail;
  }

  /**
   * dialLink for a target that needs a link: two attempts at most, the second only after the
   * first has failed, each by the balancer's rule. A connection comes with exactly one
   * lease, on its link; without a connection every counter of open connections is back
   * where it was.
   */
  method DialRemote(b: Balancer.Balancer, dials: seq<bool>, now: seq<real>, draws: seq<seq<real>>)
    returns (conn: LinkConn?, error: DialError, ghost at: nat, ghost trail: seq<Attempt>)
    requires Ready(b) && |dials| == |now| == |draws| == 2
    requires |draws[0]| >= |b.links| && |draws[1]| >= |b.links|
    modifies b`next, b.links
    ensures conn == null ==> (error.NoHealthyLinks? <==> !SomeHealthy(old(b.Views())))
    ensures conn != null <==> SomeHealthy(old(b.Views())) && (dials[0] || dials[1])
    ensures |trail| == if SomeHealthy(old(b.Views())) && !dials[0] then 2 else 1
    ensures if conn == null then Tried(b, old(b.Views()), old(b.Known()), now, draws, old(b.next), trail)
            else fresh(conn) && Dialed(b, conn, at, old(b.Views()), old(b.Known()), now, draws, old(b.next), trail)
  {
    at, conn, error, trail := 0, null, NoHealthyLinks, [];
    ghost var (vs, es, next) := (b.Views(), b.Known(), b.next);
    for attempt := 0 to 2
      invariant conn == null && |trail| == attempt && Tried(b, vs, es, now, draws, next, trail)
      invariant error == if attempt == 0 then NoHealthyLinks else DialFailed
      invariant attempt > 0 ==> SomeHealthy(vs) && !dials[0]
      invariant attempt > 1 ==> !dials[1]
    {
      var picked;
      conn, picked, at, trail := DialNext(b, dials[attempt], now, draws, attempt, vs, es, next, trail);
      if !picked || conn != null {
        return;
      }
      error := DialFailed;
    }
  }

  /** dialLink: a loopback target is dialed once and without a link. */
  method DialLink(b: Balancer.Balancer, loopback: bool, dials: seq<bool>, now: seq<real>, draws: seq<seq<real>>)
    returns (conn: LinkConn?, error: DialError, ghost at: nat, ghost trail: seq<Attempt>)
    requires Ready(b) && |dials| == |now| == |draws| == 2
    requires |draws[0]| >= |b.links| && |draws[1]| >= |b.links|
    modifies b`next, b.links
    ensures Ready(b) && Leased(b, if conn == null then null else conn.link, at, old(Actives(b.Views())))
    ensures conn != null ==> fresh(conn) && !conn.released && (conn.link == null <==> loopback)
    ensures conn == null ==> (error.NoHealthyLinks? <==> !loopback && !SomeHealthy(old(b.Views())))
    ensures conn != null <==> if loopback then dials[0] else SomeHealthy(old(b.Views())) && (dials[0] || dials[1])
    ensures loopback ==> b.Views() == old(b.Views()) && b.next == old(b.next)
    ensures !loopback ==>
              && |trail| == (if SomeHealthy(old(b.Views())) && !dials[0] then 2 else 1)
              && if conn == null then Tried(b, old(b.Views()), old(b.Known()), now, draws, old(b.next), trail)
                 else Dialed(b, conn, at, old(b.Views()), old(b.Known()), now, draws, old(b.next), trail)
  {
    if loopback {
      at, conn, error, trail := 0, null, DialFailed, [];
      if dials[0] {
        conn := new LinkConn(null, null, now[0], 0);
      }
      return; // no other link to rotate to
    }
    ghost var vs := b.Views();
    conn, error, at, trail := DialRemote(b, dials, now, draws);
    AllFailedFacts(vs, trail);
  }

  /**
   * Without a scorer the second attempt goes to the link that has just failed exactly
   * when the counter's next turn is that link's too.
   */
  lemma SecondAttemptInTurn(vs: seq<LinkView>, es: seq<Option<Scorer.Ewma>>, now: seq<real>, draws: seq<seq<real>>,
                            next: int, trail: seq<Attempt>)
    requires |trail| == 2 <= |now| == |draws| && PicksByRule(false, vs, es, now, draws, next, trail) && trail[0].choice.Some?
    ensures trail[1].choice == trail[0].choice <==> Repeats(vs, next, 0)
  {
    var (one, none) := (trail[..1], []);
    assert one[..0] == none && PicksByRule(false, vs, es, now, draws, next, one);
    ChoiceIsHealthy(vs, next);
    assert Picks(vs, next, 0) == (vs, next) && Picks(vs, next, 1) == (AfterPick(vs, next), NextAfter(vs, next));
    AlikeChoices(GivenBack(vs, trail[0].choice), AfterPick(vs, next), NextAfter(vs, next));
  }

  /** With one, and with no healthy link stale, it always does. */
  lemma SecondAttemptByScore(vs: seq<LinkView>, es: seq<Option<Scorer.Ewma>>, now: seq<real>, draws: seq<seq<real>>,
                             next: int, trail: seq<Attempt>)
    requires |trail| == 2 <= |now| == |draws| && PicksByRule(true, vs, es, now, draws, next, trail) && trail[0].choice.Some?
    requires Balancer.Scorable(vs, es) && |vs| <= |draws[0]| && |vs| <= |draws[1]|
    requires forall i :: 0 <= i < |vs| && vs[i].healthy ==> !Scorer.Stale(es[i], now[0]) && !Scorer.Stale(es[i], now[1])
    ensures trail[1].choice == trail[0].choice
  {
    var (one, none) := (trail[..1], []);
    assert one[..0] == none && PicksByRule(true, vs, es, now, draws, next, one);
    GoesBack(vs, es, now[0], draws[0], now[1], draws[1], trail[0].choice, trail[1].choice);
  }

  lemma GoesBack(vs: seq<LinkView>, es: seq<Option<Scorer.Ewma>>, now: real, draws: seq<real>, later: real, more: seq<real>,
                 first: Option<nat>, second: Option<nat>)
    requires Balancer.Scorable(vs, es) && |vs| <= |draws| && |vs| <= |more| && first.Some?
    requires Policy(vs, first) && Balancer.ScoreRule(vs, es, now, draws, first.value)
    requires var ws := GivenBack(vs, first);
             && Policy(ws, second) && Balancer.Scorable(ws, es)
             && (second.Some? ==> Balancer.ScoreRule(ws, es, later, more, second.value))
    requires forall i :: 0 <= i < |vs| && vs[i].healthy ==> !Scorer.Stale(es[i], now) && !Scorer.Stale(es[i], later)
    ensures second == first
  {
    var ws := GivenBack(vs, first);
    assert forall i :: 0 <= i < |vs| ==> Balancer.ScoreAt(ws, es, i) == Balancer.ScoreAt(vs, es, i);
  }

  lemma PickedLinks(v: View, host: string, choice: Option<nat>, next: int)
    requires Policy(v.links, choice)
    ensures var p := Picked(v, host, choice);
            && AfterPickForHost(v, host, choice, next).links == (if p.None? then v.links else TakeAt(v.links, p.value))
            && p.Some? == SomeHealthy(v.links)
  {
  }

  /**
   * From v, a pick for this host leaves w: the pinned link while it is up, and else one by
   * the rule, which is pinned.
   */
  ghost predicate ForHost(scored: bool, v: View, es: seq<Option<Scorer.Ewma>>, now: real, draws: seq<real>, host: string,
                          picked: Option<nat>, w: View)
  {
    var p := PinnedLink(v, host);
    if p.Some? then picked == p && w == v.(links := TakeAt(v.links, p.value))
    else && Balancer.FollowsRule(scored, v.links, es, now, draws, v.next, picked, w.next)
         && Policy(v.links, picked) && w == AfterPickForHost(v, host, picked, w.next)
  }

  lemma PickIsForHost(scored: bool, v: View, es: seq<Option<Scorer.Ewma>>, now: real, draws: seq<real>, host: string,
                      choice: Option<nat>, w: View)
    requires Policy(v.links, choice) && w == AfterPickForHost(v, host, choice, w.next)
    requires if PinnedLink(v, host).Some? then w.next == v.next
             else Balancer.FollowsRule(scored, v.links, es, now, draws, v.next, choice, w.next)
    ensures ForHost(scored, v, es, now, draws, host, Picked(v, host, choice), w)
    ensures w.links == WithPick(v.links, Picked(v, host, choice))
    ensures Picked(v, host, choice).Some? == SomeHealthy(v.links) && Policy(v.links, Picked(v, host, choice))
  {
    PickedLinks(v, host, choice, w.next);
  }

  /** A pick for a host, seen as a lease. */
  method LeaseForHost(b: Balancer.Balancer, host: string, now: real, draws: seq<real>) returns (link: Link?, ghost at: nat)
    requires Ready(b) && |draws| >= |b.links|
    modifies b`next, b`hostPins, b.links
    ensures Ready(b) && (link != null) == SomeHealthy(old(b.Views())) && Ups(b.Views()) == Ups(old(b.Views()))
    ensures Leased(b, link, at, old(Actives(b.Views()))) && b.Known() == old(b.Known())
    ensures ForHost(b.scorer != null, old(b.View()), old(b.Known()), now, draws, host, Chosen(link, at), b.View())
  {
    ghost var (v, es) := (b.View(), b.Known());
    ghost var choice;
    link, choice := b.PickForHost(host, now, draws);
    ghost var picked := Picked(v, host, choice);
    PickIsForHost(b.scorer != null, v, es, now, draws, host, choice, b.View());
    at := Place(picked);
    PickFacts(v.links, b.Views(), es, b.scorer != null, picked);
    assert b.Known() == es;
  }

  /** The outcome of one round trip. */
  datatype Trip = Answered | BindFailed | CertificateFailed | OtherFailure

  /** The variables link and linkReleased agree with the counters. */
  ghost predicate Settled(b: Balancer.Balancer, link: Link, released: bool, at: nat, before: seq<int>)
    reads b, b.links, b.scorer
  {
    Ready(b) && if released then Actives(b.Views()) == before else Leased(b, link, at, before)
  }

  /** The closure releaseLink. */
  method ReleaseLink(b: Balancer.Balancer, link: Link, released: bool, ghost at: nat, ghost before: seq<int>)
    requires Settled(b, link, released, at, before)
    modifies link`ActiveConns
    ensures Settled(b, link, true, at, before) && Ups(b.Views()) == Ups(old(b.Views())) && b.Known() == old(b.Known())
    ensures b.Views() == if released then old(b.Views()) else Returned(old(b.Views()), at)
  {
    if !released {
      Release(b, at, link, before);
    }
  }

  lemma DownFacts(vs: seq<LinkView>, ws: seq<LinkView>, es: seq<Option<Scorer.Ewma>>, scored: bool)
    requires |ws| == |vs| && NoneNegative(vs) && (scored ==> Balancer.Scorable(vs, es))
    requires forall i :: 0 <= i < |vs| ==> ws[i] == vs[i].(healthy := ws[i].healthy)
    ensures NoneNegative(ws) && (scored ==> Balancer.Scorable(ws, es)) && Actives(ws) == Actives(vs)
  {
  }

  function Downed(vs: seq<LinkView>, down: set<string>): (r: seq<LinkView>)
    ensures |r| == |vs|
  {
    seq(|vs|, i requires 0 <= i < |vs| => vs[i].(healthy := vs[i].healthy && vs[i].name !in down))
  }

  /** What a scan does in the meantime: the links of these names go down. */
  method TakeDown(b: Balancer.Balancer, down: set<string>)
    requires Ready(b)
    modifies b.links
    ensures Ready(b) && Actives(b.Views()) == Actives(old(b.Views())) && b.Known() == old(b.Known())
    ensures b.Views() == Downed(old(b.Views()), down) && SomeHealthy(b.Views()) == StillUp(old(b.Views()), down)
  {
    ghost var (vs, es) := (b.Views(), b.Known());
    for k := 0 to |b.links|
      invariant b.Valid() && |b.Views()| == |vs|
      invariant forall i :: 0 <= i < |vs| ==>
                  b.Views()[i] == vs[i].(healthy := vs[i].healthy && !(i < k && vs[i].name in down))
    {
      if b.links[k].Name in down {
        b.FoundAtPlace(k);
        var _ := b.SetHealthy(b.links[k].Name, false);
      }
    }
    DownFacts(vs, b.Views(), es, b.scorer != null);
    assert b.Known() == es && b.Views() == Downed(vs, down);
    assert forall i :: 0 <= i < |vs| ==> (b.Views()[i].healthy <==> vs[i].healthy && vs[i].name !in down);
  }

  /** The first link is given back, and the links of these names go down. */
  method Vacate(b: Balancer.Balancer, link: Link, ghost at: nat, ghost before: seq<int>, down: set<string>)
    requires Settled(b, link, false, at, before)
    modifies b.links
    ensures Ready(b) && Actives(b.Views()) == before && b.Known() == old(b.Known())
    ensures b.Views() == Downed(Returned(old(b.Views()), at), down)
    ensures SomeHealthy(b.Views()) == StillUp(old(b.Views()), down)
  {
    ghost var vs := b.Views();
    ReleaseLink(b, link, false, at, before);
    SameUps(b.Views(), vs, down);
    TakeDown(b, down);
  }

  /**
   * After a bind error: another link takes the place of the first, if there is one
   * that did not go down in the meantime.
   */
  method Rebind(b: Balancer.Balancer, link: Link, ghost at: nat, ghost before: seq<int>,
                down: set<string>, now: real, draws: seq<real>)
    returns (other: Link, released: bool, ghost otherAt: nat)
    requires Settled(b, link, false, at, before) && |draws| >= |b.links|
    modifies b`next, b.links
    ensures Settled(b, other, released, otherAt, before)
    ensures released == !StillUp(old(b.Views()), down) && other in b.links && (released ==> other == link)
    ensures Balancer.FollowsRule(b.scorer != null, Downed(Returned(old(b.Views()), at), down), old(b.Known()), now, draws,
                                 old(b.next), if released then None else Some(otherAt), b.next)
  {
    other, otherAt := link, at;
    Vacate(b, link, at, before, down);
    released := true;
    var next;
    ghost var place;
    next, place := Lease(b, now, draws);
    if next != null {
      other, otherAt, released := next, place, false;
    }
  }

  /** The outcomes of up to three round trips, and what kind of request and proxy they are for. */
  datatype Request = Request(first: Trip, second: Trip, third: Trip, bodyless: bool, insecure: bool)

  /** The outcome that decides; both retries are for requests without a body, and the first needs another link. */
  function LastTrip(r: Request, linkLeft: bool): Trip {
    var trip := if r.first.BindFailed? && r.bodyless && linkLeft then r.second else r.first;
    if trip.CertificateFailed? && r.bodyless && !r.insecure then r.third else trip
  }

  /**
   * The pick between the first two round trips, if there is one: by the rule, once the
   * first link is given back and the links of these names are down.
   */
  ghost predicate SecondPick(scored: bool, r: Request, vs: seq<LinkView>, at: nat, down: set<string>,
                             es: seq<Option<Scorer.Ewma>>, now: real, draws: seq<real>,
                             next: int, other: Option<nat>, after: int)
  {
    if r.first.BindFailed? && r.bodyless
    then at < |vs| && Balancer.FollowsRule(scored, Downed(Returned(vs, at), down), es, now, draws, next, other, after)
    else other.None? && after == next
  }

  /** The round trips of forwardOrSplit; the last one may have used another link. */
  method RoundTrips(b: Balancer.Balancer, link: Link, ghost at: nat, ghost before: seq<int>,
                    r: Request, down: set<string>, now: real, draws: seq<real>)
    returns (last: Link, released: bool, ghost lastAt: nat, trip: Trip, ghost other: Option<nat>)
    requires Settled(b, link, false, at, before) && |draws| >= |b.links|
    modifies b`next, b.links
    ensures SecondPick(b.scorer != null, r, old(b.Views()), at, down, old(b.Known()), now, draws, old(b.next), other, b.next)
    ensures Settled(b, last, released, lastAt, before) && last in b.links
    ensures trip == LastTrip(r, StillUp(old(b.Views()), down))
  {
    last, released, lastAt, trip, other := link, false, at, r.first, None;
    if trip.BindFailed? && r.bodyless {
      last, released, lastAt := Rebind(b, link, at, before, down, now, draws);
      other := if released then None else Some(lastAt);
      if !released {
        trip := r.second;
      }
    }
    if trip.CertificateFailed? && r.bodyless && !r.insecure {
      trip := r.third;
    }
  }

  /** The rest of forwardOrSplit, with the release that is deferred. */
  method Conclude(b: Balancer.Balancer, link: Link, linkReleased: bool, ghost at: nat, ghost before: seq<int>, split: bool)
    requires Settled(b, link, linkReleased, at, before)
    modifies link`ActiveConns
    ensures Ready(b) && Actives(b.Views()) == before
  {
    var released := linkReleased;
    if split {
      ReleaseLink(b, link, released, at, before);
      released := true;
      // splitAcrossLinks runs here; its attempts give back what they take
    }
    ReleaseLink(b, link, released, at, before);
  }

  /** forwardOrSplit once it has a link. */
  method Serve(b: Balancer.Balancer, link: Link, ghost at: nat, ghost before: seq<int>,
               r: Request, down: set<string>, split: bool, now: real, draws: seq<real>,
               ghost vs: seq<LinkView>, ghost es: seq<Option<Scorer.Ewma>>, ghost next: int)
    returns (served: bool, ghost other: Option<nat>)
    requires Settled(b, link, false, at, before) && |draws| >= |b.links|
    requires vs == b.Views() && es == b.Known() && next == b.next
    modifies b`next, b.links
    ensures SecondPick(b.scorer != null, r, vs, at, down, es, now, draws, next, other, b.next)
    ensures Ready(b) && Actives(b.Views()) == before
    ensures served == LastTrip(r, StillUp(vs, down)).Answered?
  {
    var last, linkReleased, trip;
    ghost var lastAt;
    last, linkReleased, lastAt, trip, other := RoundTrips(b, link, at, before, r, down, now, draws);
    served := trip.Answered?;
    Conclude(b, last, linkReleased, lastAt, before, served && split);
  }

  /** forwardOrSplit once it has picked, if it has found a link. */
  method ServePicked(b: Balancer.Balancer, link: Link?, ghost at: nat, ghost before: seq<int>,
                     r: Request, down: set<string>, split: bool, now: real, draws: seq<real>,
                     ghost vs: seq<LinkView>, ghost es: seq<Option<Scorer.Ewma>>, ghost next: int)
    returns (served: bool, ghost other: Option<nat>)
    requires Ready(b) && Leased(b, link, at, before) && |draws| >= |b.links|
    requires vs == b.Views() && es == b.Known() && next == b.next
    modifies b`next, b.links
    ensures Ready(b) && Actives(b.Views()) == before
    ensures served <==> link != null && LastTrip(r, StillUp(vs, down)).Answered?
    ensures if link == null then b.next == next
            else SecondPick(b.scorer != null, r, vs, at, down, es, now, draws, next, other, b.next)
  {
    if link == null {
      return false, None;
    }
    served, other := Serve(b, link, at, before, r, down, split, now, draws, vs, es, next);
  }

  /**
   * forwardOrSplit up to the answer to its client: a first round trip, one on
   * another link after a bind error, one without certificate checks after a
   * certificate error. Whatever they say, whichever links go down before the second
   * pick, and whichever way it returns, every counter ends where it began. The first
   * pick is the one for the host, which it pins; the second is by the rule and pins nothing.
   */
  method ForwardOrSplit(b: Balancer.Balancer, host: string, r: Request, down: set<string>, split: bool,
                        now: seq<real>, draws: seq<seq<real>>)
    returns (served: bool, ghost picked: Option<nat>, ghost mid: View, ghost other: Option<nat>)
    requires Ready(b) && |now| == |draws| == 2 && |draws[0]| >= |b.links| && |draws[1]| >= |b.links|
    modifies b`next, b`hostPins, b.links
    ensures Ready(b) && Actives(b.Views()) == old(Actives(b.Views()))
    ensures ForHost(b.scorer != null, old(b.View()), old(b.Known()), now[0], draws[0], host, picked, mid)
    ensures b.hostPins == mid.pins && (picked.None? ==> b.next == mid.next)
    ensures picked.Some? ==>
              SecondPick(b.scorer != null, r, mid.links, picked.value, down, old(b.Known()), now[1], draws[1],
                         mid.next, other, b.next)
    ensures served <==> SomeHealthy(old(b.Views())) && LastTrip(r, StillUp(old(b.Views()), down)).Answered?
  {
    ghost var (vs, es) := (b.Views(), b.Known());
    var link;
    ghost var at;
    link, at := LeaseForHost(b, host, now[0], draws[0]);
    picked, mid := Chosen(link, at), b.View();
    SameUps(mid.links, vs, down);
    served, other := ServePicked(b, link, at, Actives(vs), r, down, split, now[1], draws[1], mid.links, es, mid.next);
  }

  /** How far an upgrade gets once it has a link. */
  datatype Upgrade = NotReached | HandshakeFailed | HijackFailed | RequestFailed | BufferedFailed | Spliced

  /** handleUpgrade: one lease, given back on every way out. */
  method HandleUpgrade(b: Balancer.Balancer, host: string, hijackable: bool, upgrade: Upgrade, now: real, draws: seq<real>)
    returns (served: bool, ghost picked: Option<nat>, ghost mid: View)
    requires Ready(b) && |draws| >= |b.links|
    modifies b`next, b`hostPins, b.links
    ensures Ready(b) && Actives(b.Views()) == old(Actives(b.Views()))
    ensures if !hijackable then b.View() == old(b.View())
            else && ForHost(b.scorer != null, old(b.View()), old(b.Known()), now, draws, host, picked, mid)
                 && b.hostPins == mid.pins && b.next == mid.next
    ensures served <==> hijackable && SomeHealthy(old(b.Views())) && upgrade.Spliced?
  {
    picked, mid := None, b.View();
    if !hijackable {
      return false, picked, mid;
    }
    ghost var before := Actives(b.Views());
    var link;
    ghost var at;
    link, at := LeaseForHost(b, host, now, draws);
    picked, mid := Chosen(link, at), b.View();
    if link == null {
      return false, picked, mid;
    }
    served := upgrade.Spliced?; // the five failures return early
    Release(b, at, link, before); // deferred, so it runs on each of them
  }
}
