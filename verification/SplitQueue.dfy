/** How chunks are shared out among workers and links, over every run of the step machine. */
module SplitQueue {
  import opened Prelude
  import opened Sums
  import opened SplitMachine
  import opened SplitSafety
  import F = Fetcher

  /** The indices received from the queue during a run, in the order they were received. */
  ghost function Received(c: Cfg, s: State, events: seq<Event>): seq<nat>
    requires c.Valid()
    decreases |events|
  {
    if events == [] || !Shape(c, s) || !Enabled(c, s, events[0]) then []
    else (if events[0].Claim? then [s.queue[0]] else []) + Received(c, Next(c, s, events[0]), events[1..])
  }

  lemma {:induction false} ReceivedFrom(c: Cfg, s: State, events: seq<Event>, t: State)
    requires c.Valid() && Inv(c, s) && Run(c, s, events, t)
    ensures |Received(c, s, events)| == Taken(t) - Taken(s)
    ensures forall j :: 0 <= j < |Received(c, s, events)| ==> Received(c, s, events)[j] == Taken(s) + j
    decreases |events|
  {
    if events != [] {
      var u := Next(c, s, events[0]);
      StepKeepsInv(c, s, events[0]);
      StepReceives(c, s, events[0]);
      ReceivedFrom(c, u, events[1..], t);
    }
  }

  /** A receive takes the next index in order. */
  lemma StepReceives(c: Cfg, s: State, e: Event)
    requires c.Valid() && Inv(c, s) && Enabled(c, s, e)
    ensures Taken(Next(c, s, e)) == Taken(s) + (if e.Claim? then 1 else 0)
    ensures e.Claim? ==> s.queue[0] == Taken(s)
  {
  }

  /** Workers receive 0, 1, 2, ... in order and each index once, however they interleave. */
  lemma IndicesReceivedOnceInOrder(c: Cfg, events: seq<Event>, t: State)
    requires c.Valid() && Run(c, Init(c), events, t)
    ensures 0 <= Taken(t) <= |c.starts|
    ensures Received(c, Init(c), events) == seq(Taken(t), i => i)
  {
    InitInv(c);
    RunKeepsInv(c, Init(c), events, t);
    ReceivedFrom(c, Init(c), events, t);
    CountUp(Received(c, Init(c), events), Taken(t));
  }

  lemma CountUp(xs: seq<nat>, n: nat)
    requires |xs| == n && forall j :: 0 <= j < |xs| ==> xs[j] == j
    ensures xs == seq(n, i => i)
  {
  }

  /** A spool is written only by the worker that received its index; ownership, once taken, never moves. */
  lemma OnlyOwnerFetches(c: Cfg, s: State, e: Event, i: nat)
    requires c.Valid() && Inv(c, s) && Enabled(c, s, e) && i < |s.chunks|
    ensures var t := Next(c, s, e);
            && (t.chunks[i].fetch != s.chunks[i].fetch ==> e.Work? && s.chunks[i].owner == Some(e.w))
            && (s.chunks[i].owner.Some? ==> t.chunks[i].owner == s.chunks[i].owner)
  {
    if e.Work? {
      assert HeldWell(s, e.w);
    }
  }

  /** All of a chunk's bytes come over the one link its worker is bound to. */
  lemma {:induction false} ChunkStaysOnOneLink(c: Cfg, s: State, events: seq<Event>, t: State, i: nat)
    requires c.Valid() && Inv(c, s) && Run(c, s, events, t) && i < |s.chunks|
    requires s.chunks[i].owner.Some?
    ensures Inv(c, t) && t.chunks[i].owner == s.chunks[i].owner
    ensures LinkOf(s.chunks[i].owner.value) < c.links
    ensures (forall k :: 0 <= k < |events| && events[k].Work? ==> LinkOf(events[k].w) != LinkOf(s.chunks[i].owner.value)) ==>
              t.chunks[i].fetch == s.chunks[i].fetch
    decreases |events|
  {
    LinkInRange(c, s.chunks[i].owner.value);
    if events != [] {
      var u := Next(c, s, events[0]);
      StepKeepsInv(c, s, events[0]);
      OnlyOwnerFetches(c, s, events[0], i);
      ChunkStaysOnOneLink(c, u, events[1..], t, i);
    }
  }

  ghost function Unfinished(s: State): set<nat> {
    set i: nat | i < |s.chunks| && s.chunks[i].owner.Some? && !Done(s.chunks[i])
  }

  lemma {:induction false} CardinalityOfInjection(xs: set<nat>, f: map<nat, nat>, bound: nat)
    requires forall x :: x in xs ==> x in f && f[x] < bound
    requires forall x, y :: x in xs && y in xs && x != y ==> f[x] != f[y]
    ensures |xs| <= bound
    decreases bound
  {
    if bound == 0 {
      assert xs == {};
    } else if y :| y in xs && f[y] == bound - 1 {
      CardinalityOfInjection(xs - {y}, f, bound - 1);
      assert |xs| == |xs - {y}| + 1;
    } else {
      CardinalityOfInjection(xs, f, bound - 1);
    }
  }

  /** Never more than four chunks per link are in flight. */
  lemma InFlightBound(c: Cfg, events: seq<Event>, t: State)
    requires c.Valid() && Run(c, Init(c), events, t)
    ensures |Unfinished(t)| <= WORKERS_PER_LINK * c.links
  {
    InitInv(c);
    RunKeepsInv(c, Init(c), events, t);
    var f := map i: nat | i in Unfinished(t) :: t.chunks[i].owner.value;
    CardinalityOfInjection(Unfinished(t), f, c.Workers());
  }

  /** The chunks in flight over link l. */
  ghost function InFlightOver(t: State, l: nat): set<nat> {
    set i | i in Unfinished(t) && LinkOf(t.chunks[i].owner.value) == l
  }

  /** Each link has four workers of its own, so never more than four of them are in flight over one link. */
  lemma InFlightPerLink(c: Cfg, events: seq<Event>, t: State, l: nat)
    requires c.Valid() && Run(c, Init(c), events, t) && l < c.links
    ensures |InFlightOver(t, l)| <= WORKERS_PER_LINK
  {
    InitInv(c);
    RunKeepsInv(c, Init(c), events, t);
    forall i, j | i in InFlightOver(t, l) && j in InFlightOver(t, l) && i != j
      ensures t.chunks[i].owner != t.chunks[j].owner
    {
      OwnersDiffer(c, t, i, j);
    }
    AtMostItsWorkers(t, l);
  }

  lemma OwnersDiffer(c: Cfg, s: State, i: nat, j: nat)
    requires c.Valid() && Inv(c, s) && i in Unfinished(s) && j in Unfinished(s) && i != j
    ensures s.chunks[i].owner != s.chunks[j].owner
  {
  }

  /** Link l's workers are those from 4 l up to 4 l + 3. */
  lemma WorkersOf(w: nat, l: nat)
    ensures LinkOf(w) == l <==> WORKERS_PER_LINK * l <= w < WORKERS_PER_LINK * (l + 1)
  {
  }

  lemma AtMostItsWorkers(s: State, l: nat)
    requires forall i, j :: i in InFlightOver(s, l) && j in InFlightOver(s, l) && i != j ==>
               s.chunks[i].owner != s.chunks[j].owner
    ensures |InFlightOver(s, l)| <= WORKERS_PER_LINK
  {
    var xs := InFlightOver(s, l);
    forall i | i in xs ensures 0 <= s.chunks[i].owner.value - WORKERS_PER_LINK * l < WORKERS_PER_LINK {
      WorkersOf(s.chunks[i].owner.value, l);
    }
    var f: map<nat, nat> := map i: nat | i in xs :: s.chunks[i].owner.value - WORKERS_PER_LINK * l;
    CardinalityOfInjection(xs, f, WORKERS_PER_LINK);
  }

  // ----- bytes credited to the links --------------------------------------

  /** What the first k chunks read over link l. */
  function ReadOver(chunks: seq<Chunk>, l: nat, k: nat): nat
    requires k <= |chunks|
  {
    if k == 0 then 0
    else ReadOver(chunks, l, k - 1) + OverLink(chunks[k - 1], l)
  }

  function OverLink(chunk: Chunk, l: nat): nat {
    if chunk.owner.Some? && LinkOf(chunk.owner.value) == l then chunk.fetch.credited else 0
  }

  ghost predicate CreditInv(s: State) {
    forall l :: 0 <= l < |s.bytesIn| ==> s.bytesIn[l] == ReadOver(s.chunks, l, |s.chunks|)
  }

  lemma {:induction false} ReadOverAfter(a: seq<Chunk>, b: seq<Chunk>, l: nat, i: nat, k: nat)
    requires k <= |a| == |b| && i < |a|
    requires forall j :: 0 <= j < |a| && j != i ==> a[j] == b[j]
    ensures ReadOver(b, l, k) - ReadOver(a, l, k) == if i < k then OverLink(b[i], l) - OverLink(a[i], l) else 0
  {
    if k > 0 {
      ReadOverAfter(a, b, l, i, k - 1);
    }
  }

  lemma ClaimKeepsCredit(c: Cfg, s: State, w: nat)
    requires c.Valid() && Inv(c, s) && CreditInv(s) && Enabled(c, s, Claim(w))
    ensures CreditInv(Next(c, s, Claim(w)))
  {
    var (i, t) := (s.queue[0], Next(c, s, Claim(w)));
    assert i == Taken(s);
    forall l | 0 <= l < |s.bytesIn| ensures t.bytesIn[l] == ReadOver(t.chunks, l, |t.chunks|) {
      ReadOverAfter(s.chunks, t.chunks, l, i, |s.chunks|);
    }
  }

  lemma WorkKeepsCredit(s: State, w: nat, i: nat, f: F.Fetch)
    requires CreditInv(s) && OwnerInv(s)
    requires w < |s.workers| && s.workers[w] == Fetching(i) && i < |s.chunks| && LinkOf(w) < |s.bytesIn|
    requires s.chunks[i].fetch.credited <= f.credited
    ensures CreditInv(WorkAt(s, w, i, f))
  {
    var t := WorkAt(s, w, i, f);
    assert HeldWell(s, w);
    forall l | 0 <= l < |s.bytesIn| ensures t.bytesIn[l] == ReadOver(t.chunks, l, |t.chunks|) {
      ReadOverAfter(s.chunks, t.chunks, l, i, |s.chunks|);
    }
  }

  lemma StepKeepsCredit(c: Cfg, s: State, e: Event)
    requires c.Valid() && Inv(c, s) && CreditInv(s) && Enabled(c, s, e)
    ensures CreditInv(Next(c, s, e))
  {
    match e
    case Claim(w) => ClaimKeepsCredit(c, s, w);
    case Work(w, fe) => FetchKeepsCredit(c, s, w, fe);
    case _ => OthersKeepCredit(c, s, e);
  }

  lemma FetchKeepsCredit(c: Cfg, s: State, w: nat, fe: F.Event)
    requires c.Valid() && Inv(c, s) && CreditInv(s) && Enabled(c, s, Work(w, fe))
    ensures CreditInv(Next(c, s, Work(w, fe)))
  {
    var i := s.workers[w].idx;
    LinkInRange(c, w);
    F.StepGrows(c.starts[i], c.ends[i], s.chunks[i].fetch, fe, s.cancelled);
    WorkKeepsCredit(s, w, i, F.Step(c.starts[i], c.ends[i], s.chunks[i].fetch, fe));
  }

  lemma OthersKeepCredit(c: Cfg, s: State, e: Event)
    requires c.Valid() && Shape(c, s) && CreditInv(s) && Enabled(c, s, e) && !e.Claim? && !e.Work?
    ensures CreditInv(Next(c, s, e))
  {
    assert Next(c, s, e).chunks == s.chunks && Next(c, s, e).bytesIn == s.bytesIn;
  }

  lemma {:induction false} RunKeepsCredit(c: Cfg, s: State, events: seq<Event>, t: State)
    requires c.Valid() && Inv(c, s) && CreditInv(s) && Run(c, s, events, t)
    ensures CreditInv(t)
    decreases |events|
  {
    if events != [] {
      StepKeepsInv(c, s, events[0]);
      StepKeepsCredit(c, s, events[0]);
      RunKeepsCredit(c, Next(c, s, events[0]), events[1..], t);
    }
  }

  lemma {:induction false} NothingReadInitially(chunks: seq<Chunk>, l: nat, k: nat)
    requires k <= |chunks| && forall j :: 0 <= j < k ==> chunks[j].owner.None?
    ensures ReadOver(chunks, l, k) == 0
  {
    if k > 0 {
      NothingReadInitially(chunks, l, k - 1);
    }
  }

  function Spooled(chunks: seq<Chunk>, k: nat): nat
    requires k <= |chunks|
  {
    if k == 0 then 0 else Spooled(chunks, k - 1) + |chunks[k - 1].fetch.data|
  }

  function Lost(chunks: seq<Chunk>, k: nat): nat
    requires k <= |chunks|
  {
    if k == 0 then 0 else Lost(chunks, k - 1) + chunks[k - 1].fetch.lost
  }

  /** One chunk's contribution to a sum over all links. */
  lemma {:induction false} SumOfReads(chunks: seq<Chunk>, k: nat, links: nat)
    requires k <= |chunks|
    requires forall j :: 0 <= j < k && chunks[j].owner.Some? ==> LinkOf(chunks[j].owner.value) < links
    requires forall j :: 0 <= j < k && chunks[j].owner.None? ==> chunks[j].fetch.credited == 0
    ensures Sum(seq(links, l requires 0 <= l => ReadOver(chunks, l, k))) == Credited(chunks, k)
  {
    if k == 0 {
      SumOfZeros(seq(links, l requires 0 <= l => ReadOver(chunks, l, k)));
    } else {
      SumOfReads(chunks, k - 1, links);
      var before := seq(links, l requires 0 <= l => ReadOver(chunks, l, k - 1));
      var after := seq(links, l requires 0 <= l => ReadOver(chunks, l, k));
      var chunk := chunks[k - 1];
      if chunk.owner.Some? {
        var l := LinkOf(chunk.owner.value);
        assert after == before[l := before[l] + chunk.fetch.credited];
        SumUpdate(before, l, before[l] + chunk.fetch.credited);
      } else {
        assert after == before;
      }
    }
  }

  function Credited(chunks: seq<Chunk>, k: nat): nat
    requires k <= |chunks|
  {
    if k == 0 then 0 else Credited(chunks, k - 1) + chunks[k - 1].fetch.credited
  }

  lemma {:induction false} CreditedSplits(c: Cfg, s: State, k: nat)
    requires c.Valid() && Shape(c, s) && FetchInv(c, s) && k <= |s.chunks|
    ensures Credited(s.chunks, k) == Spooled(s.chunks, k) + Lost(s.chunks, k)
  {
    if k > 0 {
      CreditedSplits(c, s, k - 1);
      assert F.Inv(c.Len(k - 1), s.chunks[k - 1].fetch);
    }
  }

  /**
   * The bytes a split credits to all its links are the bytes in all spools plus
   * those read but refused by the spool: retries count no byte twice.
   */
  lemma CreditsAreAccountedFor(c: Cfg, events: seq<Event>, t: State)
    requires c.Valid() && Run(c, Init(c), events, t)
    ensures Sum(t.bytesIn) == Spooled(t.chunks, |t.chunks|) + Lost(t.chunks, |t.chunks|)
  {
    InitInv(c);
    forall l: nat | l < c.links ensures ReadOver(Init(c).chunks, l, |c.starts|) == 0 {
      NothingReadInitially(Init(c).chunks, l, |c.starts|);
    }
    RunKeepsInv(c, Init(c), events, t);
    RunKeepsCredit(c, Init(c), events, t);
    CreditedSplits(c, t, |t.chunks|);
    forall j | 0 <= j < |t.chunks| && t.chunks[j].owner.Some? ensures LinkOf(t.chunks[j].owner.value) < c.links {
      LinkInRange(c, t.chunks[j].owner.value);
    }
    SumOfReads(t.chunks, |t.chunks|, c.links);
    assert t.bytesIn == seq(c.links, l requires 0 <= l => ReadOver(t.chunks, l, |t.chunks|));
  }
}
