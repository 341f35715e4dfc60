/** scanOnce: after every scan the balancer's healthy links are what the adapters showed. */
module Scan {
  import opened Prelude
  import opened RoundRobin
  import opened Affinity
  import Balancer

  /** What one scan sees of an adapter; probe is the measured latency, or None if the probe failed. */
  datatype Adapter = Adapter(name: string, skipped: bool, ip: Option<string>, probe: Option<real>) {
    predicate Usable() {
      !skipped && ip.Some?
    }
  }

  function ScanStep(vs: seq<LinkView>, a: Adapter): seq<LinkView> {
    if !a.Usable() then vs
    else if a.probe.None? then Flipped(vs, a.name, false)
    else Upserted(vs, a.name, a.ip.value, 1, a.probe.value)
  }

  /** The links after the first k adapters. */
  function ScanTo(vs: seq<LinkView>, adapters: seq<Adapter>, k: nat): seq<LinkView>
    requires k <= |adapters|
  {
    if k == 0 then vs else ScanStep(ScanTo(vs, adapters, k - 1), adapters[k - 1])
  }

  /** The names whose probe succeeded among the first k adapters. */
  function Seen(adapters: seq<Adapter>, k: nat): set<string>
    requires k <= |adapters|
  {
    if k == 0 then {} else Noted(Seen(adapters, k - 1), adapters[k - 1])
  }

  function Noted(seen: set<string>, a: Adapter): set<string> {
    if a.Usable() && a.probe.Some? then seen + {a.name} else seen
  }

  /** Links that were not seen go down. */
  function Sweep(vs: seq<LinkView>, seen: set<string>, k: nat): (r: seq<LinkView>)
    requires k <= |vs|
    ensures |r| == |vs|
  {
    seq(|vs|, i requires 0 <= i < |vs| => if i < k && vs[i].name !in seen then vs[i].(healthy := false) else vs[i])
  }

  function Scanned(vs: seq<LinkView>, adapters: seq<Adapter>): seq<LinkView> {
    var us := ScanTo(vs, adapters, |adapters|);
    Sweep(us, Seen(adapters, |adapters|), |us|)
  }

  // ----- what a scan shows ------------------------------------------------

  /** The last usable adapter of this name among the first k. */
  function Latest(adapters: seq<Adapter>, name: string, k: nat): Option<Adapter>
    requires k <= |adapters|
  {
    if k == 0 then None
    else if adapters[k - 1].Usable() && adapters[k - 1].name == name then Some(adapters[k - 1])
    else Latest(adapters, name, k - 1)
  }

  /** The last one of this name whose probe succeeded. */
  function LatestUp(adapters: seq<Adapter>, name: string, k: nat): Option<Adapter>
    requires k <= |adapters|
  {
    if k == 0 then None
    else if adapters[k - 1].Usable() && adapters[k - 1].name == name && adapters[k - 1].probe.Some? then Some(adapters[k - 1])
    else LatestUp(adapters, name, k - 1)
  }

  /** A link as it was, or as Upsert creates it. */
  function Before(vs: seq<LinkView>, name: string): LinkView {
    var i := Find(vs, name);
    if i.Some? then vs[i.value] else LinkView(name, "", 1, false, 0.0, 0, 0, 0, 0)
  }

  /** What the first k adapters make of a link. */
  function Expected(vs: seq<LinkView>, adapters: seq<Adapter>, name: string, k: nat): LinkView
    requires k <= |adapters|
  {
    var (b, last, up) := (Before(vs, name), Latest(adapters, name, k), LatestUp(adapters, name, k));
    b.(healthy := if last.Some? then last.value.probe.Some? else b.healthy,
       ip := if up.Some? && up.value.ip.Some? then up.value.ip.value else b.ip,
       latency := if up.Some? && up.value.probe.Some? then up.value.probe.value else b.latency)
  }

  lemma {:induction false} LatestUpIsUp(adapters: seq<Adapter>, name: string, k: nat)
    requires k <= |adapters|
    ensures var up := LatestUp(adapters, name, k);
            up.Some? ==> up.value.Usable() && up.value.probe.Some? && up.value.name == name
    ensures LatestUp(adapters, name, k).Some? <==> name in Seen(adapters, k)
    ensures name in Seen(adapters, k) ==> Latest(adapters, name, k).Some?
    ensures var last := Latest(adapters, name, k); last.Some? && last.value.probe.Some? ==> name in Seen(adapters, k)
    decreases k
  {
    if k > 0 {
      LatestUpIsUp(adapters, name, k - 1);
    }
  }

  lemma StepAdds(vs: seq<LinkView>, a: Adapter)
    requires UniqueNames(vs)
    ensures var r := ScanStep(vs, a);
            && UniqueNames(r) && KeepsLinks(vs, r)
            && forall i :: 0 <= i < |r| && r[i].name != a.name ==> i < |vs| && r[i] == vs[i]
  {
  }

  /** Names and places after k adapters: the old links, then those of new names that were seen. */
  lemma {:induction false} ScanToKeeps(vs: seq<LinkView>, adapters: seq<Adapter>, k: nat)
    requires UniqueNames(vs) && k <= |adapters|
    ensures var r := ScanTo(vs, adapters, k);
            && UniqueNames(r) && KeepsLinks(vs, r)
            && forall name :: Find(r, name).Some? <==> Find(vs, name).Some? || name in Seen(adapters, k)
    decreases k
  {
    if k > 0 {
      ScanToKeeps(vs, adapters, k - 1);
      var (m, a) := (ScanTo(vs, adapters, k - 1), adapters[k - 1]);
      StepAdds(m, a);
      forall name
        ensures Find(ScanStep(m, a), name).Some? <==>
                  Find(m, name).Some? || (a.Usable() && a.probe.Some? && name == a.name)
      {
        StepNames(m, a, name);
      }
    }
  }

  lemma StepNames(vs: seq<LinkView>, a: Adapter, name: string)
    requires UniqueNames(vs)
    ensures Find(ScanStep(vs, a), name).Some? <==>
              Find(vs, name).Some? || (a.Usable() && a.probe.Some? && name == a.name)
  {
    var r := ScanStep(vs, a);
    if Find(vs, name).Some? {
      assert r[Find(vs, name).value].name == name;
    } else if a.Usable() && a.probe.Some? && name == a.name {
      assert r[|vs|].name == name;
    }
  }

  lemma {:induction false} ScanToExpected(vs: seq<LinkView>, adapters: seq<Adapter>, k: nat, name: string)
    requires UniqueNames(vs) && k <= |adapters| && Find(ScanTo(vs, adapters, k), name).Some?
    ensures var r := ScanTo(vs, adapters, k);
            r[Find(r, name).value] == Expected(vs, adapters, name, k)
    decreases k
  {
    if k > 0 {
      var (m, a) := (ScanTo(vs, adapters, k - 1), adapters[k - 1]);
      ScanToKeeps(vs, adapters, k - 1);
      StepNames(m, a, name);
      StepAdds(m, a);
      LatestUpIsUp(adapters, name, k - 1);
      if Find(m, name).Some? {
        ScanToExpected(vs, adapters, k - 1, name);
        StepAt(m, a, name);
      } else {
        NotMentioned(vs, adapters, name, k - 1);
      }
    }
  }

  lemma StepAt(vs: seq<LinkView>, a: Adapter, name: string)
    requires UniqueNames(vs) && Find(vs, name).Some?
    ensures var r := ScanStep(vs, a);
            var was := vs[Find(vs, name).value];
            && Find(r, name) == Find(vs, name)
            && r[Find(r, name).value] ==
                 if !a.Usable() || a.name != name then was
                 else if a.probe.None? then was.(healthy := false)
                 else was.(healthy := true, ip := a.ip.value, latency := a.probe.value)
  {
    StepAdds(vs, a);
    KeepsFind(vs, ScanStep(vs, a), name);
  }

  /** A name that neither was there nor was seen still looks as if newly created. */
  lemma NotMentioned(vs: seq<LinkView>, adapters: seq<Adapter>, name: string, k: nat)
    requires UniqueNames(vs) && k <= |adapters| && Find(ScanTo(vs, adapters, k), name).None?
    ensures Find(vs, name).None? && LatestUp(adapters, name, k).None?
  {
    ScanToKeeps(vs, adapters, k);
    LatestUpIsUp(adapters, name, k);
  }

  lemma SweepKeeps(us: seq<LinkView>, seen: set<string>)
    requires UniqueNames(us)
    ensures var r := Sweep(us, seen, |us|); UniqueNames(r) && KeepsLinks(us, r)
  {
  }

  /**
   * After a scan a link is healthy exactly when the last usable adapter of its name
   * answered its probe; it has the address and the latency of the last one that
   * did; its weight, counters and place are what they were; and a link is new only
   * if an adapter of its name answered.
   */
  lemma ScanShowsAdapters(vs: seq<LinkView>, adapters: seq<Adapter>, i: nat)
    requires UniqueNames(vs) && i < |Scanned(vs, adapters)|
    ensures var r := Scanned(vs, adapters);
            var last := Latest(adapters, r[i].name, |adapters|);
            var up := LatestUp(adapters, r[i].name, |adapters|);
            && UniqueNames(r) && KeepsLinks(vs, r)
            && (r[i].healthy <==> last.Some? && last.value.probe.Some?)
            && (up.Some? ==> Some(r[i].ip) == up.value.ip && Some(r[i].latency) == up.value.probe)
            && (i < |vs| ==>
                  r[i] == vs[i].(healthy := r[i].healthy, ip := r[i].ip, latency := r[i].latency)
                  && (up.None? ==> r[i].ip == vs[i].ip && r[i].latency == vs[i].latency))
            && (i >= |vs| ==> up.Some? && r[i] == LinkView(r[i].name, r[i].ip, 1, r[i].healthy, r[i].latency, 0, 0, 0, 0))
  {
    var n := |adapters|;
    var us := ScanTo(vs, adapters, n);
    ScanToKeeps(vs, adapters, n);
    var name := us[i].name;
    assert Find(us, name) == Some(i);
    ScanToExpected(vs, adapters, n, name);
    LatestUpIsUp(adapters, name, n);
    SweepKeeps(us, Seen(adapters, n));
    assert us[i] == Expected(vs, adapters, name, n);
    if i < |vs| {
      assert Find(vs, name) == Some(i);
    } else {
      assert Find(vs, name).None? by {
        assert forall j :: 0 <= j < |vs| ==> us[j].name == vs[j].name;
      }
    }
  }

  lemma {:induction false} OnlyEntry(adapters: seq<Adapter>, a: nat, k: nat)
    requires a < k <= |adapters| && adapters[a].Usable()
    requires forall j :: 0 <= j < |adapters| && j != a ==> adapters[j].name != adapters[a].name
    ensures Latest(adapters, adapters[a].name, k) == Some(adapters[a])
    decreases k
  {
    if a < k - 1 {
      OnlyEntry(adapters, a, k - 1);
    }
  }

  /** With distinct names, the adapters that answered are exactly the healthy links. */
  lemma DistinctAdaptersAreTheHealthyLinks(vs: seq<LinkView>, adapters: seq<Adapter>, a: nat)
    requires UniqueNames(vs) && a < |adapters| && adapters[a].Usable()
    requires forall j :: 0 <= j < |adapters| && j != a ==> adapters[j].name != adapters[a].name
    ensures adapters[a].probe.Some? <==>
              exists i :: 0 <= i < |Scanned(vs, adapters)| && Scanned(vs, adapters)[i].name == adapters[a].name
                          && Scanned(vs, adapters)[i].healthy
  {
    var (name, r) := (adapters[a].name, Scanned(vs, adapters));
    OnlyEntry(adapters, a, |adapters|);
    ScanToKeeps(vs, adapters, |adapters|);
    forall i: nat | i < |r| && r[i].name == name ensures r[i].healthy <==> adapters[a].probe.Some? {
      ScanShowsAdapters(vs, adapters, i);
    }
    if adapters[a].probe.Some? {
      SeenEntry(adapters, a, |adapters|);
      var i := Find(ScanTo(vs, adapters, |adapters|), name).value;
      assert r[i].name == name;
    }
  }

  lemma {:induction false} SeenEntry(adapters: seq<Adapter>, a: nat, k: nat)
    requires a < k <= |adapters| && adapters[a].Usable() && adapters[a].probe.Some?
    ensures adapters[a].name in Seen(adapters, k)
    decreases k
  {
    if a < k - 1 {
      SeenEntry(adapters, a, k - 1);
    }
  }

  // ----- the method -------------------------------------------------------

  /** One turn of the first loop. */
  method ProbeOne(b: Balancer.Balancer, a: Adapter, seen: set<string>) returns (seenUsable: set<string>)
    requires b.Valid()
    modifies b`links, b.links
    ensures b.Valid() && b.Views() == ScanStep(old(b.Views()), a) && old(b.links) <= b.links
    ensures seenUsable == Noted(seen, a)
    ensures forall i :: |old(b.links)| <= i < |b.links| ==> fresh(b.links[i])
  {
    seenUsable := seen;
    if a.skipped || a.ip.None? {
      return;
    }
    if a.probe.None? {
      var _ := b.SetHealthy(a.name, false);
      return;
    }
    seenUsable := seenUsable + {a.name};
    var _, _ := b.Upsert(a.name, a.ip.value, 1, a.probe.value);
  }

  /** The first loop: probe the adapters. */
  method ProbeAll(b: Balancer.Balancer, adapters: seq<Adapter>) returns (seenUsable: set<string>)
    requires b.Valid()
    modifies b`links, b.links
    ensures b.Valid() && b.Views() == ScanTo(old(b.Views()), adapters, |adapters|) && old(b.links) <= b.links
    ensures seenUsable == Seen(adapters, |adapters|)
    ensures forall i :: |old(b.links)| <= i < |b.links| ==> fresh(b.links[i])
  {
    seenUsable := {};
    ghost var (links, vs) := (b.links, b.Views());
    for k := 0 to |adapters|
      invariant b.Valid() && b.Views() == ScanTo(vs, adapters, k) && seenUsable == Seen(adapters, k)
      invariant links <= b.links
      invariant forall i :: |links| <= i < |b.links| ==> fresh(b.links[i])
    {
      seenUsable := ProbeOne(b, adapters[k], seenUsable);
    }
  }

  /** The second loop: links whose adapter was not seen go down. */
  method SweepUnseen(b: Balancer.Balancer, seenUsable: set<string>)
    requires b.Valid()
    modifies b.links
    ensures b.Valid() && b.Views() == Sweep(old(b.Views()), seenUsable, |b.links|)
  {
    ghost var us := b.Views();
    for k := 0 to |b.links|
      invariant b.Valid() && b.Views() == Sweep(us, seenUsable, k)
    {
      var v := b.links[k];
      if v.Name !in seenUsable && v.Healthy {
        b.FoundAtPlace(k);
        var _ := b.SetHealthy(v.Name, false);
      }
    }
  }

  /**
   * Links are added, never removed, moved or exchanged for others; the balancer's
   * counter, pins and scorer are outside what a scan may change.
   */
  method ScanOnce(b: Balancer.Balancer, enumerated: Option<seq<Adapter>>)
    requires b.Valid()
    modifies b`links, b.links
    ensures b.Valid() && old(b.links) <= b.links
    ensures b.Views() == if enumerated.None? then old(b.Views()) else Scanned(old(b.Views()), enumerated.value)
  {
    if enumerated.None? {
      return; // the adapters could not be listed
    }
    var adapters := enumerated.value;
    var seenUsable := ProbeAll(b, adapters);
    SweepUnseen(b, seenUsable);
  }
}
