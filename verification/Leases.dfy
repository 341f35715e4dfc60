/**
 * Who counts on a link's ActiveConns: tunnels, forwarded requests, upgraded
 * connections and chunk fetches, each as the steps its code takes, interleaved in
 * any way. The counter of a link is always the number of those that hold it.
 */
module Leases {
  import opened Prelude

  const MAX_DIAL_ATTEMPTS: nat := 2

  datatype Stage = FirstTrip | Repicking | Deciding | Leaving

  datatype Thread =
    // dialLink and the LinkConn it returns; no link means a loopback target
    | DialStart(attempt: nat)
    | Dialing(attempt: nat, link: Option<nat>)
    | Open(link: Option<nat>, released: bool, owing: bool)   // owing: the swap is won, the decrement not yet made
    // forwardOrSplit, with its variables link and linkReleased
    | ForwardStart
    | Forwarding(at: nat, released: bool, stage: Stage)
    // handleUpgrade
    | UpgradeStart
    | Upgrading(at: nat)
    // a worker of splitAcrossLinks, between and during attempts
    | FetchIdle(at: nat)
    | Fetching(at: nat)
    | Finished

  datatype State = State(active: seq<int>, threads: seq<Thread>)

  datatype Event =
    | Spawn(thread: Thread)
    | ChooseLoopback(t: nat)
    | Choose(t: nat, pick: Option<nat>)       // b.Pick() in chooseDialer
    | DialResult(t: nat, ok: bool)
    | CloseSwap(t: nat)                       // the compare-and-swap of LinkConn.Close, by any caller
    | CloseRelease(t: nat)                    // the decrement of the caller that won it
    | PickForHost(t: nat, pick: Option<nat>)
    | RoundTrip(t: nat, bindFailed: bool)
    | Repick(t: nat, pick: Option<nat>)
    | Decide(t: nat, split: bool)
    | Return(t: nat)                          // the deferred release
    | AttemptBegin(t: nat)
    | AttemptEnd(t: nat)
    | WorkerExit(t: nat)

  predicate Starts(t: Thread, links: nat) {
    t == DialStart(0) || t.ForwardStart? || t.UpgradeStart? || (t.FetchIdle? && t.at < links)
  }

  predicate LinkOk(pick: Option<nat>, links: nat) {
    pick.Some? ==> pick.value < links
  }

  predicate Enabled(s: State, e: Event) {
    if e.Spawn? then Starts(e.thread, |s.active|)
    else e.t < |s.threads| && EnabledFor(s.threads[e.t], e, |s.active|)
  }

  predicate EnabledFor(th: Thread, e: Event, links: nat)
    requires !e.Spawn?
  {
    match e
    case ChooseLoopback(_) => th.DialStart?
    case Choose(_, pick) => th.DialStart? && LinkOk(pick, links)
    case DialResult(_, _) => th.Dialing?
    case CloseSwap(_) => th.Open?
    case CloseRelease(_) => th.Open? && th.owing
    case PickForHost(_, pick) => (th.ForwardStart? || th.UpgradeStart?) && LinkOk(pick, links)
    case RoundTrip(_, _) => th.Forwarding? && th.stage.FirstTrip?
    case Repick(_, pick) => th.Forwarding? && th.stage.Repicking? && LinkOk(pick, links)
    case Decide(_, _) => th.Forwarding? && th.stage.Deciding?
    case Return(_) => (th.Forwarding? && th.stage.Leaving?) || th.Upgrading?
    case AttemptBegin(_) => th.FetchIdle?
    case AttemptEnd(_) => th.Fetching?
    case WorkerExit(_) => th.FetchIdle?
  }

  /** What an event does to its thread, and to which counters: the picked link up, the released link down. */
  function Act(th: Thread, e: Event): (r: (Thread, Option<nat>, Option<nat>))
    requires !e.Spawn?
  {
    match (e, th)
    case (ChooseLoopback(_), DialStart(a)) => (Dialing(a, None), None, None)
    case (Choose(_, pick), DialStart(a)) => if pick.None? then (Finished, None, None) else (Dialing(a, pick), pick, None)
    case (DialResult(_, ok), Dialing(a, link)) =>
      if ok then (Open(link, false, false), None, None)
      else if link.None? || a + 1 >= MAX_DIAL_ATTEMPTS then (Finished, None, link)
      else (DialStart(a + 1), None, link)
    case (CloseSwap(_), Open(link, released, owing)) =>
      if link.None? || released then (th, None, None) else (Open(link, true, true), None, None)
    case (CloseRelease(_), Open(link, released, owing)) => (Open(link, released, false), None, link)
    case (PickForHost(_, pick), ForwardStart) =>
      if pick.None? then (Finished, None, None) else (Forwarding(pick.value, false, FirstTrip), pick, None)
    case (PickForHost(_, pick), UpgradeStart) =>
      if pick.None? then (Finished, None, None) else (Upgrading(pick.value), pick, None)
    case (RoundTrip(_, bindFailed), Forwarding(l, released, _)) =>
      if bindFailed then (Forwarding(l, true, Repicking), None, ReleaseOnce(l, released))
      else (Forwarding(l, released, Deciding), None, None)
    case (Repick(_, pick), Forwarding(l, released, _)) =>
      if pick.None? then (Forwarding(l, released, Deciding), None, None)
      else (Forwarding(pick.value, false, Deciding), pick, None)
    case (Decide(_, split), Forwarding(l, released, _)) =>
      if split then (Forwarding(l, true, Leaving), None, ReleaseOnce(l, released))
      else (Forwarding(l, released, Leaving), None, None)
    case (Return(_), Forwarding(l, released, _)) => (Finished, None, ReleaseOnce(l, released))
    case (Return(_), Upgrading(l)) => (Finished, None, Some(l))
    case (AttemptBegin(_), FetchIdle(l)) => (Fetching(l), Some(l), None)
    case (AttemptEnd(_), Fetching(l)) => (FetchIdle(l), None, Some(l))
    case (WorkerExit(_), _) => (Finished, None, None)
    case _ => (th, None, None)
  }

  /** The closure releaseLink: the first call releases, later ones do nothing. */
  function ReleaseOnce(l: nat, released: bool): Option<nat> {
    if released then None else Some(l)
  }

  function Bump(active: seq<int>, l: Option<nat>, delta: int): seq<int> {
    if l.Some? && l.value < |active| then active[l.value := active[l.value] + delta] else active
  }

  function Next(s: State, e: Event): State
    requires Enabled(s, e)
  {
    if e.Spawn? then s.(threads := s.threads + [e.thread])
    else
      var (th, up, down) := Act(s.threads[e.t], e);
      Moved(s, e.t, th, up, down)
  }

  function Moved(s: State, t: nat, th: Thread, up: Option<nat>, down: Option<nat>): State
    requires t < |s.threads|
  {
    State(Bump(Bump(s.active, up, 1), down, -1), s.threads[t := th])
  }

  // ----- conservation -----------------------------------------------------

  /** The link a thread still has to release, if any. */
  function Holds(th: Thread): Option<nat> {
    match th
    case Dialing(_, link) => link
    case Open(link, released, owing) => if !released || owing then link else None
    case Forwarding(l, released, _) => ReleaseOnce(l, released)
    case Upgrading(l) => Some(l)
    case Fetching(l) => Some(l)
    case _ => None
  }

  /** How many threads hold link l. */
  function Holders(threads: seq<Thread>, l: nat): (n: int)
    ensures n >= 0
  {
    if threads == [] then 0
    else Holders(threads[..|threads| - 1], l) + Share(Holds(threads[|threads| - 1]), l)
  }

  ghost predicate WellFormed(th: Thread, links: nat) {
    && LinkOk(Holds(th), links)
    && (th.FetchIdle? ==> th.at < links)
    && (th.Open? && th.owing ==> th.released && th.link.Some?)
    && (th.Open? ==> LinkOk(th.link, links))
    && (th.Forwarding? ==> th.at < links && (th.stage.FirstTrip? ==> !th.released) && (th.stage.Repicking? ==> th.released))
  }

  ghost predicate Inv(s: State) {
    && (forall t :: 0 <= t < |s.threads| ==> WellFormed(s.threads[t], |s.active|))
    && (forall l :: 0 <= l < |s.active| ==> s.active[l] == Holders(s.threads, l))
  }

  lemma {:induction false} HoldersUpdate(threads: seq<Thread>, t: nat, th: Thread, l: nat)
    requires t < |threads|
    ensures Holders(threads[t := th], l) ==
            Holders(threads, l) - Share(Holds(threads[t]), l) + Share(Holds(th), l)
  {
    var (n, us) := (|threads| - 1, threads[t := th]);
    if t == n {
      assert us[..n] == threads[..n];
    } else {
      assert us[..n] == threads[..n][t := th];
      HoldersUpdate(threads[..n], t, th, l);
    }
  }

  /** One for link l, zero for any other. */
  function Share(link: Option<nat>, l: nat): int {
    if link == Some(l) then 1 else 0
  }

  /** One action moves the counters exactly as it moves what the thread holds. */
  lemma ActBalances(th: Thread, e: Event, links: nat)
    requires !e.Spawn? && EnabledFor(th, e, links) && WellFormed(th, links)
    ensures var (u, up, down) := Act(th, e);
            && WellFormed(u, links) && LinkOk(up, links) && LinkOk(down, links)
            && forall l: nat :: Share(Holds(u), l) - Share(Holds(th), l) == Share(up, l) - Share(down, l)
  {
  }

  lemma MoveKeepsInv(s: State, t: nat, th: Thread, up: Option<nat>, down: Option<nat>)
    requires Inv(s) && t < |s.threads| && WellFormed(th, |s.active|)
    requires LinkOk(up, |s.active|) && LinkOk(down, |s.active|)
    requires forall l: nat :: Share(Holds(th), l) - Share(Holds(s.threads[t]), l) == Share(up, l) - Share(down, l)
    ensures Inv(Moved(s, t, th, up, down))
  {
    var u := Moved(s, t, th, up, down);
    forall l | 0 <= l < |s.active| ensures u.active[l] == Holders(u.threads, l) {
      HoldersUpdate(s.threads, t, th, l);
      assert Share(Holds(th), l) - Share(Holds(s.threads[t]), l) == Share(up, l) - Share(down, l);
    }
  }

  lemma StepKeepsInv(s: State, e: Event)
    requires Inv(s) && Enabled(s, e)
    ensures Inv(Next(s, e)) && |Next(s, e).active| == |s.active|
  {
    var t := Next(s, e);
    if e.Spawn? {
      assert t.threads[..|s.threads|] == s.threads;
    } else {
      var (th, up, down) := Act(s.threads[e.t], e);
      ActBalances(s.threads[e.t], e, |s.active|);
      MoveKeepsInv(s, e.t, th, up, down);
    }
  }

  ghost predicate Run(s: State, events: seq<Event>, t: State)
    decreases |events|
  {
    if events == [] then s == t else Enabled(s, events[0]) && Run(Next(s, events[0]), events[1..], t)
  }

  lemma {:induction false} RunKeepsInv(s: State, events: seq<Event>, t: State)
    requires Inv(s) && Run(s, events, t)
    ensures Inv(t) && |t.active| == |s.active|
    decreases |events|
  {
    if events != [] {
      StepKeepsInv(s, events[0]);
      RunKeepsInv(Next(s, events[0]), events[1..], t);
    }
  }

  /**
   * A dial that fails on its first link gives it back and tries a second one, and only
   * one; where each pick and each release goes is what Act says of the four steps.
   */
  lemma DialTriesTwice(i: nat, j: nat, ok: bool, t: nat)
    ensures var (a, up, _) := Act(DialStart(0), Choose(t, Some(i)));
            var (b, _, down) := Act(a, DialResult(t, false));
            var (c, again, _) := Act(b, Choose(t, Some(j)));
            var (d, _, last) := Act(c, DialResult(t, ok));
            && up == down == Some(i) && again == Some(j)
            && d == (if ok then Open(Some(j), false, false) else Finished) && last == (if ok then None else Some(j))
  {
  }

  /**
   * A request whose first link cannot be bound gives it back once and holds the second
   * one, if it gets one, until it is split or returns.
   */
  lemma ForwardSwapsLinks(i: nat, pick: Option<nat>, split: bool, t: nat)
    ensures var (a, up, _) := Act(ForwardStart, PickForHost(t, Some(i)));
            var (b, _, down) := Act(a, RoundTrip(t, true));
            var (c, again, _) := Act(b, Repick(t, pick));
            var (d, _, early) := Act(c, Decide(t, split));
            var (e, _, last) := Act(d, Return(t));
            && up == down == Some(i) && again == pick && e == Finished
            && early == (if split then pick else None) && last == (if split then None else pick)
  {
  }

  /** A thread that owes no release: it returned, its connection is closed, or it is between attempts. */
  predicate AtRest(th: Thread) {
    th.Finished? || th.FetchIdle? || (th.Open? && (th.link.None? || (th.released && !th.owing)))
  }

  lemma {:induction false} NobodyHolds(threads: seq<Thread>, l: nat)
    requires forall t :: 0 <= t < |threads| ==> Holds(threads[t]) != Some(l)
    ensures Holders(threads, l) == 0
  {
    if threads != [] {
      NobodyHolds(threads[..|threads| - 1], l);
    }
  }

  /**
   * Over any run, across failed dials, second attempts, repeated and concurrent
   * Close, the link swap after a bind error and every return path, a link's
   * counter is the number of threads holding it, never negative; when everybody
   * has come to rest it is zero.
   */
  lemma ActiveConnsIsConserved(links: nat, events: seq<Event>, t: State, l: nat)
    requires Run(State(seq(links, i => 0), []), events, t) && l < links
    ensures |t.active| == links && t.active[l] == Holders(t.threads, l) >= 0
    ensures (forall th :: th in t.threads ==> AtRest(th)) ==> t.active[l] == 0
  {
    var s := State(seq(links, i => 0), []);
    assert Inv(s);
    RunKeepsInv(s, events, t);
    if forall th :: th in t.threads ==> AtRest(th) {
      forall i | 0 <= i < |t.threads| ensures Holds(t.threads[i]) != Some(l) {
        assert t.threads[i] in t.threads;
      }
      NobodyHolds(t.threads, l);
    }
  }
}
