/**
 * The balancer's operations on its state as a value, and what holds over any
 * sequence of them: names stay unique, links keep their places, and a host stays
 * on its link until that link is found down.
 */
module Affinity {
  import opened Prelude
  import opened RoundRobin

  /** Everything a Balancer holds except the scorer. */
  datatype View = View(links: seq<LinkView>, next: int, pins: map<string, string>)

  /** Position of the link with this name. */
  function Find(links: seq<LinkView>, name: string): (r: Option<nat>)
    ensures r.Some? ==> r.value < |links| && links[r.value].name == name
    ensures r.Some? ==> forall i :: 0 <= i < r.value ==> links[i].name != name
    ensures r.None? ==> forall i :: 0 <= i < |links| ==> links[i].name != name
  {
    FindFrom(links, name, 0)
  }

  function FindFrom(links: seq<LinkView>, name: string, k: nat): (r: Option<nat>)
    requires k <= |links|
    ensures r.Some? ==> k <= r.value < |links| && links[r.value].name == name
    ensures r.Some? ==> forall i :: k <= i < r.value ==> links[i].name != name
    ensures r.None? ==> forall i :: k <= i < |links| ==> links[i].name != name
    decreases |links| - k
  {
    if k == |links| then None
    else if links[k].name == name then Some(k)
    else FindFrom(links, name, k + 1)
  }

  predicate SomeHealthy(links: seq<LinkView>) {
    exists i :: 0 <= i < |links| && links[i].healthy
  }

  /** The link the pinned name still leads to. */
  function PinnedLink(v: View, host: string): Option<nat> {
    if host !in v.pins then None
    else
      var i := Find(v.links, v.pins[host]);
      if i.Some? && v.links[i.value].healthy then i else None
  }

  datatype Op =
    | AddLink(link: LinkView)
    | Upsert(name: string, ip: string, weight: int, latency: real)
    | SetHealthy(name: string, healthy: bool)
    | Pick(choice: Option<nat>, next: int)                       // choice and next as the policy decides
    | PickForHost(host: string, choice: Option<nat>, next: int)  // used when the host has no usable pin
    | Counters(i: nat, link: LinkView)                           // other code moves link i's counters

  /** A policy picks a healthy link, or none when there is none. */
  predicate Policy(links: seq<LinkView>, choice: Option<nat>) {
    match choice
    case None => !SomeHealthy(links)
    case Some(i) => i < |links| && links[i].healthy
  }

  predicate Enabled(v: View, op: Op) {
    match op
    case Pick(choice, _) => Policy(v.links, choice)
    case PickForHost(host, choice, _) => Policy(v.links, choice)
    case Counters(i, l) =>
      i < |v.links| && l == v.links[i].(active := l.active, total := l.total, bytesIn := l.bytesIn, bytesOut := l.bytesOut)
    case _ => true
  }

  function TakeAt(links: seq<LinkView>, i: nat): seq<LinkView>
    requires i < |links|
  {
    links[i := Take(links[i])]
  }

  /** The links after one connection of link i is given back. */
  function Returned(links: seq<LinkView>, i: nat): seq<LinkView>
    requires i < |links|
  {
    links[i := links[i].(active := links[i].active - 1)]
  }

  function Added(links: seq<LinkView>, l: LinkView): seq<LinkView> {
    if Find(links, l.name).Some? then links else links + [l]
  }

  function Upserted(links: seq<LinkView>, name: string, ip: string, weight: int, latency: real): seq<LinkView> {
    var i := Find(links, name);
    if i.Some? then links[i.value := links[i.value].(healthy := true, ip := ip, latency := latency)]
    else links + [LinkView(name, ip, weight, true, latency, 0, 0, 0, 0)]
  }

  function Flipped(links: seq<LinkView>, name: string, healthy: bool): seq<LinkView> {
    var i := Find(links, name);
    if i.Some? then links[i.value := links[i.value].(healthy := healthy)] else links
  }

  /** The link a pick for this host returns. */
  function Picked(v: View, host: string, choice: Option<nat>): Option<nat> {
    var p := PinnedLink(v, host);
    if p.Some? then p else choice
  }

  function AfterPickForHost(v: View, host: string, choice: Option<nat>, next: int): View
    requires Policy(v.links, choice)
  {
    var p := PinnedLink(v, host);
    if p.Some? then v.(links := TakeAt(v.links, p.value))
    else if choice.Some? then
      View(TakeAt(v.links, choice.value), next, v.pins[host := v.links[choice.value].name])
    else View(v.links, next, v.pins - {host})
  }

  function Apply(v: View, op: Op): View
    requires Enabled(v, op)
  {
    match op
    case AddLink(l) => v.(links := Added(v.links, l))
    case Upsert(name, ip, weight, latency) => v.(links := Upserted(v.links, name, ip, weight, latency))
    case SetHealthy(name, healthy) => v.(links := Flipped(v.links, name, healthy))
    case Pick(choice, next) => if choice.None? then v.(next := next) else v.(links := TakeAt(v.links, choice.value), next := next)
    case PickForHost(host, choice, next) => AfterPickForHost(v, host, choice, next)
    case Counters(i, l) => v.(links := v.links[i := l])
  }

  // ----- what every operation keeps ---------------------------------------

  ghost predicate UniqueNames(links: seq<LinkView>) {
    forall i, j :: 0 <= i < j < |links| ==> links[i].name != links[j].name
  }

  /** Names are unique and every pin names a link there is. */
  ghost predicate Inv(v: View) {
    && UniqueNames(v.links)
    && forall h :: h in v.pins ==> Find(v.links, v.pins[h]).Some?
  }

  /** No link is removed, renamed or moved; new ones come last. */
  ghost predicate KeepsLinks(a: seq<LinkView>, b: seq<LinkView>) {
    |a| <= |b| && forall i :: 0 <= i < |a| ==> b[i].name == a[i].name
  }

  lemma KeepsFind(a: seq<LinkView>, b: seq<LinkView>, name: string)
    requires KeepsLinks(a, b) && Find(a, name).Some?
    ensures Find(b, name) == Find(a, name)
  {
  }

  lemma UpdateKeepsLinks(links: seq<LinkView>, i: nat, l: LinkView)
    requires UniqueNames(links) && i < |links| && l.name == links[i].name
    ensures KeepsLinks(links, links[i := l]) && UniqueNames(links[i := l])
  {
  }

  lemma AppendKeepsLinks(links: seq<LinkView>, l: LinkView)
    requires UniqueNames(links) && Find(links, l.name).None?
    ensures KeepsLinks(links, links + [l]) && UniqueNames(links + [l])
  {
  }

  lemma StepKeepsLinks(v: View, op: Op)
    requires Inv(v) && Enabled(v, op)
    ensures KeepsLinks(v.links, Apply(v, op).links) && UniqueNames(Apply(v, op).links)
  {
    match op
    case AddLink(l) =>
      if Find(v.links, l.name).None? {
        AppendKeepsLinks(v.links, l);
      }
    case Upsert(name, ip, weight, latency) =>
      var i := Find(v.links, name);
      if i.Some? {
        UpdateKeepsLinks(v.links, i.value, v.links[i.value].(healthy := true, ip := ip, latency := latency));
      } else {
        AppendKeepsLinks(v.links, LinkView(name, ip, weight, true, latency, 0, 0, 0, 0));
      }
    case SetHealthy(name, healthy) =>
      var i := Find(v.links, name);
      if i.Some? {
        UpdateKeepsLinks(v.links, i.value, v.links[i.value].(healthy := healthy));
      }
    case Pick(choice, _) => TakeKeepsLinks(v.links, choice);
    case PickForHost(host, choice, _) => TakeKeepsLinks(v.links, Picked(v, host, choice));
    case Counters(i, l) => UpdateKeepsLinks(v.links, i, l);
  }

  lemma TakeKeepsLinks(links: seq<LinkView>, choice: Option<nat>)
    requires UniqueNames(links) && (choice.Some? ==> choice.value < |links|)
    ensures choice.Some? ==> KeepsLinks(links, TakeAt(links, choice.value)) && UniqueNames(TakeAt(links, choice.value))
  {
    if choice.Some? {
      UpdateKeepsLinks(links, choice.value, Take(links[choice.value]));
    }
  }

  lemma StepKeepsInv(v: View, op: Op)
    requires Inv(v) && Enabled(v, op)
    ensures Inv(Apply(v, op)) && KeepsLinks(v.links, Apply(v, op).links)
  {
    StepKeepsLinks(v, op);
    var w := Apply(v, op);
    forall h | h in w.pins ensures Find(w.links, w.pins[h]).Some? {
      if h in v.pins && w.pins[h] == v.pins[h] {
        KeepsFind(v.links, w.links, v.pins[h]);
      }
    }
  }

  /** A pin changes or goes only in a pick for its host that finds the pinned link down. */
  lemma PinsChangeOnlyWhenDown(v: View, op: Op, host: string)
    requires Inv(v) && Enabled(v, op) && host in v.pins
    requires host !in Apply(v, op).pins || Apply(v, op).pins[host] != v.pins[host]
    ensures op.PickForHost? && op.host == host
    ensures !v.links[Find(v.links, v.pins[host]).value].healthy
  {
  }

  /** A pick for a host comes up empty exactly when no link is healthy, and a successful one pins its result. */
  lemma PickForHostFinds(v: View, host: string, choice: Option<nat>, next: int)
    requires Inv(v) && Enabled(v, PickForHost(host, choice, next))
    ensures Picked(v, host, choice).None? <==> !SomeHealthy(v.links)
    ensures var r := Picked(v, host, choice);
            r.Some? ==>
              && r.value < |v.links| && v.links[r.value].healthy
              && var w := Apply(v, PickForHost(host, choice, next));
                 host in w.pins && w.pins[host] == v.links[r.value].name
  {
  }

  // ----- whole runs -------------------------------------------------------

  ghost predicate Run(v: View, ops: seq<Op>, w: View)
    decreases |ops|
  {
    if ops == [] then v == w else Enabled(v, ops[0]) && Run(Apply(v, ops[0]), ops[1..], w)
  }

  lemma {:induction false} RunKeepsInv(v: View, ops: seq<Op>, w: View)
    requires Inv(v) && Run(v, ops, w)
    ensures Inv(w) && KeepsLinks(v.links, w.links)
    decreases |ops|
  {
    if ops != [] {
      StepKeepsInv(v, ops[0]);
      RunKeepsInv(Apply(v, ops[0]), ops[1..], w);
    }
  }

  /** Link i is up whenever a pick for this host is made. */
  ghost predicate UpAtPicks(v: View, ops: seq<Op>, host: string, i: nat)
    decreases |ops|
  {
    ops != [] && Enabled(v, ops[0]) ==>
      && (ops[0].PickForHost? && ops[0].host == host ==> i < |v.links| && v.links[i].healthy)
      && UpAtPicks(Apply(v, ops[0]), ops[1..], host, i)
  }

  /** The links that the picks for this host return, in order. */
  ghost function PicksFor(v: View, ops: seq<Op>, host: string): seq<Option<nat>>
    decreases |ops|
  {
    if ops == [] || !Enabled(v, ops[0]) then []
    else
      (if ops[0].PickForHost? && ops[0].host == host then [Picked(v, host, ops[0].choice)] else [])
      + PicksFor(Apply(v, ops[0]), ops[1..], host)
  }

  /**
   * Whatever else happens in between, a pinned host gets the same link from every
   * pick as long as that link is up when the picks are made; what it does between
   * the picks does not matter.
   */
  lemma {:induction false} HostStaysOnItsLink(v: View, ops: seq<Op>, w: View, host: string, i: nat)
    requires Inv(v) && Run(v, ops, w) && host in v.pins && Find(v.links, v.pins[host]) == Some(i)
    requires UpAtPicks(v, ops, host, i)
    ensures Inv(w) && host in w.pins && w.pins[host] == v.pins[host]
    ensures forall r :: r in PicksFor(v, ops, host) ==> r == Some(i)
    decreases |ops|
  {
    if ops != [] {
      var u := Apply(v, ops[0]);
      StepKeepsInv(v, ops[0]);
      KeepsFind(v.links, u.links, v.pins[host]);
      assert host in u.pins && u.pins[host] == v.pins[host];
      HostStaysOnItsLink(u, ops[1..], w, host, i);
    }
  }
}
