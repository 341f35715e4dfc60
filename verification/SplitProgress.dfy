/** When a split comes to an end, over every run of the step machine. */
module SplitProgress {
  import opened Prelude
  import opened Sums
  import opened SplitMachine
  import opened SplitSafety
  import F = Fetcher

  // ----- every run is finite if every body is -----------------------------

  function FetchCost(f: F.Fetch): int
  {
    match f.phase
    case Head(a) => 3 * (F.MAX_CHUNK_ATTEMPTS - a) + 1
    case Reading(a, _) => 3 * (F.MAX_CHUNK_ATTEMPTS - a)
    case Failed(a) => 3 * (F.MAX_CHUNK_ATTEMPTS - a) - 1
    case Finished(_) => 0
  }

  function Nat(x: int): nat {
    if x < 0 then 0 else x
  }

  function WorkerCost(w: Worker): nat {
    match w
    case Idle => 1
    case Claimed(_) => 2
    case Fetching(_) => 1
    case Exited(_) => 0
  }

  function WorkerCosts(s: State): seq<nat> {
    seq(|s.workers|, i requires 0 <= i < |s.workers| => WorkerCost(s.workers[i]))
  }

  function FetchCosts(s: State): seq<nat> {
    seq(|s.chunks|, i requires 0 <= i < |s.chunks| => Nat(FetchCost(s.chunks[i].fetch)))
  }

  /** Bytes in the spools from chunk i on. */
  function SpoolTail(chunks: seq<Chunk>, i: nat): nat
    requires i <= |chunks|
    decreases |chunks| - i
  {
    if i == |chunks| then 0 else |chunks[i].fetch.data| + SpoolTail(chunks, i + 1)
  }

  function DrainCost(s: State): int
    requires s.drain.Draining? ==> s.drain.idx < |s.chunks|
  {
    if s.drain.Draining?
    then |s.chunks| - s.drain.idx + SpoolTail(s.chunks, s.drain.idx) - s.drain.off
    else 0
  }

  /** How much is left to do when no more body bytes arrive. */
  function Cost(s: State): int
    requires s.drain.Draining? ==> s.drain.idx < |s.chunks|
  {
    2 * |s.queue| + Sum(WorkerCosts(s)) + Sum(FetchCosts(s)) + DrainCost(s) + (if s.cancelled then 0 else 1)
  }

  /** What one body read can add to the work: handling it, and draining its bytes. */
  function ReadWork(e: Event): nat {
    if e.Work? && e.e.Read? then 1 + |e.e.slice| else 0
  }

  lemma WorkerCostsUpdate(s: State, t: State, w: nat, v: Worker)
    requires w < |s.workers| && t.workers == s.workers[w := v]
    ensures Sum(WorkerCosts(t)) == Sum(WorkerCosts(s)) - WorkerCost(s.workers[w]) + WorkerCost(v)
  {
    assert WorkerCosts(t) == WorkerCosts(s)[w := WorkerCost(v)];
    SumUpdate(WorkerCosts(s), w, WorkerCost(v));
  }

  lemma FetchCostsUpdate(s: State, t: State, i: nat, k: Chunk)
    requires i < |s.chunks| && t.chunks == s.chunks[i := k]
    ensures Sum(FetchCosts(t)) == Sum(FetchCosts(s)) - Nat(FetchCost(s.chunks[i].fetch)) + Nat(FetchCost(k.fetch))
  {
    assert FetchCosts(t) == FetchCosts(s)[i := Nat(FetchCost(k.fetch))];
    SumUpdate(FetchCosts(s), i, Nat(FetchCost(k.fetch)));
  }

  lemma {:induction false} SpoolTailUpdate(a: seq<Chunk>, b: seq<Chunk>, i: nat, from: nat, grown: nat)
    requires i < |a| == |b| && from <= |a|
    requires forall j :: 0 <= j < |a| && j != i ==> a[j].fetch.data == b[j].fetch.data
    requires |b[i].fetch.data| == |a[i].fetch.data| + grown
    ensures SpoolTail(a, from) <= SpoolTail(b, from) <= SpoolTail(a, from) + grown
    decreases |a| - from
  {
    if from < |a| {
      SpoolTailUpdate(a, b, i, from + 1, grown);
      if i <= from {
        SpoolTailSame(a, b, i, from + 1);
      }
    }
  }

  lemma {:induction false} SpoolTailSame(a: seq<Chunk>, b: seq<Chunk>, i: nat, from: nat)
    requires i < from <= |a| == |b|
    requires forall j :: 0 <= j < |a| && j != i ==> a[j].fetch.data == b[j].fetch.data
    ensures SpoolTail(a, from) == SpoolTail(b, from)
    decreases |a| - from
  {
    if from < |a| {
      SpoolTailSame(a, b, i, from + 1);
    }
  }

  lemma FetchStepCost(start: int, end: int, f: F.Fetch, fe: F.Event, cancelled: bool)
    requires F.Inv(end - start + 1, f) && F.Enabled(f, fe, cancelled)
    ensures var g := F.Step(start, end, f, fe);
            && Nat(FetchCost(g)) <= Nat(FetchCost(f)) - (if fe.Read? then 0 else 1)
            && |f.data| <= |g.data| <= |f.data| + (if fe.Read? then |fe.slice| else 0)
  {
  }

  lemma WorkAtCost(s: State, w: nat, i: nat, f: F.Fetch, read: nat)
    requires w < |s.workers| && s.workers[w] == Fetching(i) && i < |s.chunks| && LinkOf(w) < |s.bytesIn|
    requires s.drain.Draining? ==> s.drain.idx < |s.chunks|
    requires s.chunks[i].fetch.credited <= f.credited
    requires |s.chunks[i].fetch.data| <= |f.data| <= |s.chunks[i].fetch.data| + read
    ensures Cost(WorkAt(s, w, i, f)) <= Cost(s) + Nat(FetchCost(f)) - Nat(FetchCost(s.chunks[i].fetch)) + read
  {
    var t := WorkAt(s, w, i, f);
    WorkerCostsUpdate(s, t, w, t.workers[w]);
    FetchCostsUpdate(s, t, i, t.chunks[i]);
    if s.drain.Draining? {
      SpoolTailUpdate(s.chunks, t.chunks, i, s.drain.idx, |f.data| - |s.chunks[i].fetch.data|);
    }
  }

  lemma WorkCost(c: Cfg, s: State, w: nat, fe: F.Event)
    requires c.Valid() && Inv(c, s) && Enabled(c, s, Work(w, fe))
    ensures var t := Next(c, s, Work(w, fe));
            Shape(c, t) && Cost(t) <= Cost(s) - 1 + ReadWork(Work(w, fe))
  {
    var i := s.workers[w].idx;
    var f := s.chunks[i].fetch;
    WorkKeepsInv(c, s, w, fe);
    LinkInRange(c, w);
    F.StepGrows(c.starts[i], c.ends[i], f, fe, s.cancelled);
    FetchStepCost(c.starts[i], c.ends[i], f, fe, s.cancelled);
    WorkAtCost(s, w, i, F.Step(c.starts[i], c.ends[i], f, fe), if fe.Read? then |fe.slice| else 0);
  }

  lemma ClaimCost(c: Cfg, s: State, w: nat)
    requires c.Valid() && Shape(c, s) && Enabled(c, s, Claim(w))
    ensures var t := Next(c, s, Claim(w)); Shape(c, t) && Cost(t) == Cost(s) - 1
  {
    var (i, t) := (s.queue[0], Next(c, s, Claim(w)));
    WorkerCostsUpdate(s, t, w, t.workers[w]);
    FetchCostsUpdate(s, t, i, t.chunks[i]);
    if s.drain.Draining? {
      SpoolTailUpdate(s.chunks, t.chunks, i, s.drain.idx, 0);
    }
  }

  lemma LeaveCheckCost(c: Cfg, s: State, e: Event)
    requires c.Valid() && Shape(c, s) && Enabled(c, s, e) && (e.Leave? || e.Check?)
    ensures var t := Next(c, s, e); Shape(c, t) && Cost(t) <= Cost(s) - 1
  {
    var t := Next(c, s, e);
    WorkerCostsUpdate(s, t, e.w, t.workers[e.w]);
    assert FetchCosts(t) == FetchCosts(s);
  }

  lemma ConsumerCost(c: Cfg, s: State, e: Event)
    requires c.Valid() && Shape(c, s) && Enabled(c, s, e) && (e.Write? || e.Advance? || e.Disconnect? || e.Cancel?)
    requires s.drain.Draining? ==> s.drain.off <= |s.chunks[s.drain.idx].fetch.data|
    ensures var t := Next(c, s, e); Shape(c, t) && Cost(t) <= Cost(s) - 1
  {
    var t := Next(c, s, e);
    assert WorkerCosts(t) == WorkerCosts(s) && FetchCosts(t) == FetchCosts(s);
  }

  lemma StepCost(c: Cfg, s: State, e: Event)
    requires c.Valid() && Inv(c, s) && Enabled(c, s, e)
    ensures Shape(c, Next(c, s, e)) && Cost(Next(c, s, e)) <= Cost(s) - 1 + ReadWork(e)
  {
    match e
    case Claim(w) => ClaimCost(c, s, w);
    case Work(w, fe) => WorkCost(c, s, w, fe);
    case Leave(w) => LeaveCheckCost(c, s, e);
    case Check(w) => LeaveCheckCost(c, s, e);
    case _ => ConsumerCost(c, s, e);
  }

  lemma CostNonNegative(c: Cfg, s: State)
    requires c.Valid() && Inv(c, s)
    ensures Cost(s) >= 0
  {
  }

  function TotalReadWork(events: seq<Event>): nat {
    if events == [] then 0 else ReadWork(events[0]) + TotalReadWork(events[1..])
  }

  lemma {:induction false} RunCost(c: Cfg, s: State, events: seq<Event>, t: State)
    requires c.Valid() && Inv(c, s) && Run(c, s, events, t)
    ensures Inv(c, t) && |events| + Cost(t) <= Cost(s) + TotalReadWork(events)
    decreases |events|
  {
    if events != [] {
      StepKeepsInv(c, s, events[0]);
      StepCost(c, s, events[0]);
      RunCost(c, Next(c, s, events[0]), events[1..], t);
    }
  }

  lemma {:induction false} EmptyTail(chunks: seq<Chunk>, i: nat)
    requires i <= |chunks| && forall j :: 0 <= j < |chunks| ==> chunks[j].fetch.data == []
    ensures SpoolTail(chunks, i) == 0
    decreases |chunks| - i
  {
    if i < |chunks| {
      EmptyTail(chunks, i + 1);
    }
  }

  lemma InitCost(c: Cfg)
    requires c.Valid()
    ensures Shape(c, Init(c)) && Cost(Init(c)) <= 19 * |c.starts| + c.Workers() + 1
  {
    var s := Init(c);
    SumOfEqual(WorkerCosts(s), 1);
    SumOfEqual(FetchCosts(s), 16);
    EmptyTail(s.chunks, 0);
  }

  /**
   * No run is longer than 19 steps per chunk plus one per worker plus one, beyond
   * its body reads and the bytes they carried: finite bodies make finite runs,
   * retries included.
   */
  lemma RunsAreBounded(c: Cfg, events: seq<Event>, t: State)
    requires c.Valid() && Run(c, Init(c), events, t)
    ensures |events| <= 19 * |c.starts| + c.Workers() + 1 + TotalReadWork(events)
  {
    InitInv(c);
    InitCost(c);
    RunCost(c, Init(c), events, t);
    CostNonNegative(c, t);
  }

  // ----- where a run can stop ---------------------------------------------

  ghost predicate Quiescent(s: State) {
    forall w :: 0 <= w < |s.workers| ==> s.workers[w].Exited?
  }

  /** Every worker that has not exited has a step to take, whatever the state of the context. */
  lemma WorkersAreNeverStuck(c: Cfg, s: State, w: nat) returns (e: Event)
    requires c.Valid() && Inv(c, s) && w < |s.workers| && !s.workers[w].Exited?
    ensures Enabled(c, s, e) && (e.Claim? || e.Leave? || e.Check? || e.Work?) && e.w == w
  {
    match s.workers[w]
    case Idle => e := if s.queue == [] then Leave(w) else Claim(w);
    case Claimed(_) => e := Check(w);
    case Fetching(i) =>
      assert HeldWell(s, w);
      e := Work(w, FetchEvent(s.chunks[i].fetch, s.cancelled));
  }

  /** A step an unfinished fetch can take. */
  function FetchEvent(f: F.Fetch, cancelled: bool): (e: F.Event)
    requires !f.phase.Finished?
    ensures F.Enabled(f, e, cancelled)
  {
    match f.phase
    case Head(a) => if a >= F.MAX_CHUNK_ATTEMPTS then F.GiveUp else if cancelled then F.Abort else F.Ask(F.NoReply)
    case Reading(_, _) => F.Read([], F.Stored, F.Eof)
    case Failed(_) => if cancelled then F.Abort else F.Retry
  }

  /** Nobody will ever finish chunk f: no worker that is still running has it or can get it. */
  ghost predicate Orphan(s: State, f: nat) {
    && f < |s.chunks|
    && !Done(s.chunks[f])
    && (forall w :: 0 <= w < |s.workers| && !s.workers[w].Exited? ==> Holds(s.workers[w]) != Some(f))
    && (s.chunks[f].owner.None? ==> Quiescent(s))
  }

  /** Only cancellation orphans a chunk, through the worker that returns without finishing it. */
  lemma OrphansNeedCancellation(c: Cfg, s: State, f: nat)
    requires c.Valid() && Inv(c, s) && Orphan(s, f)
    ensures s.cancelled
  {
    if s.chunks[f].owner.Some? {
      assert HeldWell(s, s.chunks[f].owner.value);
    } else {
      assert s.workers[0].Exited? && s.queue != [];
      assert HeldWell(s, 0);
    }
  }

  lemma OrphanUnclaimed(c: Cfg, s: State, w: nat, f: nat)
    requires c.Valid() && Inv(c, s) && Enabled(c, s, Claim(w)) && Orphan(s, f)
    ensures Orphan(Next(c, s, Claim(w)), f) && Next(c, s, Claim(w)).chunks[f] == s.chunks[f]
  {
    assert s.queue[0] == Taken(s);
  }

  lemma OrphanUnfetched(c: Cfg, s: State, w: nat, e: F.Event, f: nat)
    requires c.Valid() && Inv(c, s) && Enabled(c, s, Work(w, e)) && Orphan(s, f)
    ensures Orphan(Next(c, s, Work(w, e)), f) && Next(c, s, Work(w, e)).chunks[f] == s.chunks[f]
  {
  }

  lemma OrphansStay(c: Cfg, s: State, e: Event, f: nat)
    requires c.Valid() && Inv(c, s) && Enabled(c, s, e) && Orphan(s, f)
    ensures Orphan(Next(c, s, e), f) && Next(c, s, e).chunks[f] == s.chunks[f]
  {
    match e
    case Claim(w) => OrphanUnclaimed(c, s, w, f);
    case Work(w, fe) => OrphanUnfetched(c, s, w, fe, f);
    case _ =>
  }

  /** A drainer that has given out all of an orphan's bytes waits forever, in every continuation. */
  lemma {:induction false} DrainHangsOnOrphan(c: Cfg, s: State, events: seq<Event>, t: State, f: nat)
    requires c.Valid() && Inv(c, s) && Run(c, s, events, t) && Orphan(s, f)
    requires s.drain == Draining(f, |s.chunks[f].fetch.data|)
    ensures t.drain == s.drain && t.client == s.client
    decreases |events|
  {
    if events != [] {
      StepKeepsInv(c, s, events[0]);
      OrphansStay(c, s, events[0], f);
      DrainHangsOnOrphan(c, Next(c, s, events[0]), events[1..], t, f);
    }
  }

  lemma RunTail(c: Cfg, s: State, e: Event, rest: seq<Event>, t: State)
    requires c.Valid() && Run(c, s, [e] + rest, t)
    ensures Shape(c, s) && Enabled(c, s, e) && Run(c, Next(c, s, e), rest, t)
  {
    assert ([e] + rest)[1..] == rest;
  }

  /** The state after the client went away and worker 0 took index 0 and looked at the context. */
  function EarlyState(c: Cfg): State
    requires c.Valid()
  {
    var s := Init(c);
    s.(queue := s.queue[1..], workers := s.workers[0 := Exited(Some(0))],
       chunks := s.chunks[0 := Chunk(F.INIT, Some(0))], cancelled := true)
  }

  lemma EarlySteps(c: Cfg)
    requires c.Valid()
    ensures var s0 := Init(c);
            && Shape(c, s0) && Enabled(c, s0, Disconnect)
            && var s1 := Next(c, s0, Disconnect);
               && Shape(c, s1) && Enabled(c, s1, Claim(0))
               && var s2 := Next(c, s1, Claim(0));
                  Shape(c, s2) && Enabled(c, s2, Check(0)) && Next(c, s2, Check(0)) == EarlyState(c)
  {
  }

  lemma EarlyStateIsOrphaned(c: Cfg)
    requires c.Valid()
    ensures var s := EarlyState(c);
            Inv(c, s) && Orphan(s, 0) && s.drain == Draining(0, |s.chunks[0].fetch.data|) && s.client == []
  {
    InitInv(c);
    EarlySteps(c);
    var s0 := Init(c);
    var s1 := Next(c, s0, Disconnect);
    StepKeepsInv(c, s0, Disconnect);
    StepKeepsInv(c, s1, Claim(0));
    StepKeepsInv(c, Next(c, s1, Claim(0)), Check(0));
  }

  /**
   * It can happen in every split: when the client goes away before the first
   * worker looks at the context, the drainer waits in every continuation.
   */
  lemma EarlyDisconnectHangs(c: Cfg, events: seq<Event>, t: State)
    requires c.Valid() && Run(c, Init(c), [Disconnect] + ([Claim(0)] + ([Check(0)] + events)), t)
    ensures t.drain == Draining(0, 0) && t.client == []
  {
    EarlySteps(c);
    RunTail(c, Init(c), Disconnect, [Claim(0)] + ([Check(0)] + events), t);
    var s1 := Next(c, Init(c), Disconnect);
    RunTail(c, s1, Claim(0), [Check(0)] + events, t);
    RunTail(c, Next(c, s1, Claim(0)), Check(0), events, t);
    EarlyStateIsOrphaned(c);
    DrainHangsOnOrphan(c, EarlyState(c), events, t, 0);
  }

  /** Those three events are indeed possible. */
  lemma EarlyDisconnectIsPossible(c: Cfg) returns (t: State)
    requires c.Valid()
    ensures Run(c, Init(c), [Disconnect] + ([Claim(0)] + ([Check(0)] + [])), t)
  {
    EarlySteps(c);
    t := EarlyState(c);
    var s1 := Next(c, Init(c), Disconnect);
    assert Run(c, t, [], t);
    RunCons(c, Next(c, s1, Claim(0)), Check(0), [], t);
    RunCons(c, s1, Claim(0), [Check(0)] + [], t);
    RunCons(c, Init(c), Disconnect, [Claim(0)] + ([Check(0)] + []), t);
  }

  lemma RunCons(c: Cfg, s: State, e: Event, rest: seq<Event>, t: State)
    requires c.Valid() && Shape(c, s) && Enabled(c, s, e) && Run(c, Next(c, s, e), rest, t)
    ensures Run(c, s, [e] + rest, t)
  {
    assert ([e] + rest)[1..] == rest;
  }

  /** Every chunk is finished, or an earlier one not yet drained ended with an error. */
  ghost predicate DrainCanEnd(s: State)
    requires s.drain.Draining?
  {
    forall f :: s.drain.idx <= f < |s.chunks| && !Done(s.chunks[f]) ==>
      exists g :: s.drain.idx <= g < f && Done(s.chunks[g]) && !Clean(s.chunks[g])
  }

  /** The client takes every write. */
  ghost predicate Accepting(events: seq<Event>) {
    forall k :: 0 <= k < |events| && events[k].Write? ==> !events[k].failed && events[k].accepted == events[k].n
  }

  /** The drainer's next step: all that is left of the spool, or on to the next chunk. */
  lemma DrainStep(c: Cfg, s: State) returns (e: Event)
    requires c.Valid() && Inv(c, s) && s.drain.Draining? && DrainCanEnd(s)
    ensures (e.Write? && !e.failed && e.accepted == e.n) || e.Advance?
    ensures Enabled(c, s, e) && Inv(c, Next(c, s, e))
    ensures var (u, d) := (Next(c, s, e), s.drain);
            u.chunks == s.chunks
            && (u.drain.Draining? ==>
                  DrainCanEnd(u) && (u.drain.idx > d.idx || (u.drain.idx == d.idx && u.drain.off > d.off)))
  {
    var (i, off) := (s.drain.idx, s.drain.off);
    var data := s.chunks[i].fetch.data;
    assert Done(s.chunks[i]);
    e := if off < |data| then Write(|data| - off, |data| - off, false) else Advance;
    StepKeepsInv(c, s, e);
  }

  lemma {:induction false} DrainToEnd(c: Cfg, s: State) returns (events: seq<Event>, t: State)
    requires c.Valid() && Inv(c, s) && s.drain.Draining? && DrainCanEnd(s)
    ensures Run(c, s, events, t) && Accepting(events) && !t.drain.Draining?
    decreases |s.chunks| - s.drain.idx, |s.chunks[s.drain.idx].fetch.data| - s.drain.off
  {
    var e := DrainStep(c, s);
    var u := Next(c, s, e);
    var rest;
    if u.drain.Draining? {
      rest, t := DrainToEnd(c, u);
    } else {
      rest, t := [], u;
      assert Run(c, u, [], u);
    }
    events := [e] + rest;
    RunCons(c, s, e, rest, t);
  }

  /** The drainer has only clean chunks before it on the way to orphan f. */
  ghost predicate BoundFor(s: State, f: nat) {
    && Orphan(s, f)
    && Quiescent(s)
    && s.drain.Draining? && s.drain.idx <= f
    && forall g :: s.drain.idx <= g < f ==> Clean(s.chunks[g])
  }

  lemma QuiescentStep(c: Cfg, s: State, e: Event)
    requires c.Valid() && Shape(c, s) && Enabled(c, s, e) && Quiescent(s)
    ensures e.Write? || e.Advance? || e.Disconnect? || e.Cancel?
    ensures Next(c, s, e).chunks == s.chunks && Next(c, s, e).workers == s.workers
  {
  }

  lemma StaysBound(c: Cfg, s: State, e: Event, f: nat)
    requires c.Valid() && Shape(c, s) && Enabled(c, s, e) && BoundFor(s, f)
    requires e.Write? ==> !e.failed && e.accepted == e.n
    ensures BoundFor(Next(c, s, e), f)
  {
    QuiescentStep(c, s, e);
  }

  /** While the client takes every write, the drainer is still at work at or before the orphan. */
  lemma {:induction false} OrphanKeepsDraining(c: Cfg, s: State, events: seq<Event>, t: State, f: nat)
    requires c.Valid() && Inv(c, s) && Run(c, s, events, t) && Accepting(events) && BoundFor(s, f)
    ensures BoundFor(t, f)
    decreases |events|
  {
    if events != [] {
      StepKeepsInv(c, s, events[0]);
      StaysBound(c, s, events[0], f);
      OrphanKeepsDraining(c, Next(c, s, events[0]), events[1..], t, f);
    }
  }

  lemma {:induction false} FirstUnfinished(s: State, f: nat, from: nat) returns (h: nat)
    requires from <= f < |s.chunks| && !Done(s.chunks[f])
    ensures from <= h <= f && !Done(s.chunks[h])
    ensures forall g :: from <= g < h ==> Done(s.chunks[g])
    decreases f - from
  {
    if Done(s.chunks[from]) {
      h := FirstUnfinished(s, f, from + 1);
    } else {
      h := from;
    }
  }

  lemma BoundUnlessCanEnd(c: Cfg, s: State) returns (f: nat)
    requires c.Valid() && Inv(c, s) && Quiescent(s) && s.drain.Draining? && !DrainCanEnd(s)
    ensures BoundFor(s, f)
  {
    var h :| s.drain.idx <= h < |s.chunks| && !Done(s.chunks[h])
             && forall g :: s.drain.idx <= g < h && Done(s.chunks[g]) ==> Clean(s.chunks[g]);
    f := FirstUnfinished(s, h, s.drain.idx);
  }

  ghost predicate EndsBy(c: Cfg, s: State, events: seq<Event>, t: State)
    requires c.Valid()
  {
    Run(c, s, events, t) && Accepting(events) && !t.drain.Draining?
  }

  /**
   * Once all workers have returned, a client that takes every write sees the drain
   * end exactly when each unfinished chunk lies behind one that ended with an error.
   */
  lemma DrainEndsIff(c: Cfg, s: State)
    requires c.Valid() && Inv(c, s) && Quiescent(s) && s.drain.Draining?
    ensures DrainCanEnd(s) <==> exists events, t :: EndsBy(c, s, events, t)
  {
    if DrainCanEnd(s) {
      var events, t := DrainToEnd(c, s);
      assert EndsBy(c, s, events, t);
    } else {
      var f := BoundUnlessCanEnd(c, s);
      forall events, t | EndsBy(c, s, events, t) ensures false {
        OrphanKeepsDraining(c, s, events, t, f);
      }
    }
  }

  lemma UncancelledHasNoOrphan(c: Cfg, s: State, f: nat)
    requires c.Valid() && Inv(c, s) && !s.cancelled && Quiescent(s) && f < |s.chunks|
    ensures Done(s.chunks[f])
  {
    if !Done(s.chunks[f]) {
      assert Orphan(s, f);
      OrphansNeedCancellation(c, s, f);
    }
  }

  /** Without cancellation the workers return only when every chunk is finished, and then the drain can end. */
  lemma UncancelledNeverStuck(c: Cfg, events: seq<Event>, s: State)
    requires c.Valid() && Run(c, Init(c), events, s) && !s.cancelled && Quiescent(s)
    ensures forall f :: 0 <= f < |s.chunks| ==> Done(s.chunks[f])
    ensures s.drain.Draining? ==> DrainCanEnd(s)
  {
    InitInv(c);
    RunKeepsInv(c, Init(c), events, s);
    forall f | 0 <= f < |s.chunks| ensures Done(s.chunks[f]) {
      UncancelledHasNoOrphan(c, s, f);
    }
  }

  // ----- runs in which the client stays ------------------------------------

  ghost predicate Undisturbed(events: seq<Event>) {
    forall k :: 0 <= k < |events| ==> !events[k].Disconnect?
  }

  ghost predicate Moves(c: Cfg, s: State, e: Event)
    requires c.Valid() && Shape(c, s)
  {
    Enabled(c, s, e) && !e.Disconnect?
  }

  /** Nothing can happen any more, unless the client goes away. */
  ghost predicate AtEnd(c: Cfg, s: State)
    requires c.Valid() && Shape(c, s)
  {
    !exists e :: Moves(c, s, e)
  }

  /** Only the end of the drain cancels a split whose client stays. */
  lemma {:induction false} ContextOutlivesDrain(c: Cfg, s: State, events: seq<Event>, t: State)
    requires c.Valid() && Inv(c, s) && Run(c, s, events, t) && Undisturbed(events)
    requires s.drain.Draining? ==> !s.cancelled
    ensures t.drain.Draining? ==> !t.cancelled
    decreases |events|
  {
    if events != [] {
      assert !events[0].Disconnect?;
      StepKeepsInv(c, s, events[0]);
      ContextOutlivesDrain(c, Next(c, s, events[0]), events[1..], t);
    }
  }

  lemma WorkerMoves(c: Cfg, s: State, w: nat)
    requires c.Valid() && Inv(c, s) && w < |s.workers| && !s.workers[w].Exited?
    ensures exists e :: Moves(c, s, e)
  {
    var e := WorkersAreNeverStuck(c, s, w);
    assert Moves(c, s, e);
  }

  lemma DrainMoves(c: Cfg, s: State)
    requires c.Valid() && Inv(c, s) && s.drain.Draining? && DrainCanEnd(s)
    ensures exists e :: Moves(c, s, e)
  {
    var e := DrainStep(c, s);
    assert Moves(c, s, e);
  }

  lemma ContextMoves(c: Cfg, s: State)
    requires c.Valid() && Shape(c, s) && !s.drain.Draining? && !s.cancelled
    ensures exists e :: Moves(c, s, e)
  {
    assert Moves(c, s, Cancel);
  }

  /** A split in which nothing can happen any more is over, if its client stayed. */
  lemma EndOfUndisturbedRun(c: Cfg, events: seq<Event>, t: State)
    requires c.Valid() && Run(c, Init(c), events, t) && Undisturbed(events)
    requires Inv(c, t) && AtEnd(c, t) && (t.drain.Draining? ==> !t.cancelled)
    ensures !t.drain.Draining? && Quiescent(t) && t.cancelled
  {
    forall w | 0 <= w < |t.workers| ensures t.workers[w].Exited? {
      if !t.workers[w].Exited? {
        WorkerMoves(c, t, w);
      }
    }
    if t.drain.Draining? {
      UncancelledNeverStuck(c, events, t);
      DrainMoves(c, t);
    } else if !t.cancelled {
      ContextMoves(c, t);
    }
  }

  /**
   * A split whose client stays and whose bodies are finite always ends: its runs
   * have no more than the stated number of steps, and one that cannot be continued
   * has ended its drain, with every worker returned and the context cancelled.
   */
  lemma UndisturbedRunsEnd(c: Cfg, events: seq<Event>, t: State)
    requires c.Valid() && Run(c, Init(c), events, t) && Undisturbed(events)
    ensures Shape(c, t) && |events| <= 19 * |c.starts| + c.Workers() + 1 + TotalReadWork(events)
    ensures AtEnd(c, t) ==> !t.drain.Draining? && Quiescent(t) && t.cancelled
  {
    RunsAreBounded(c, events, t);
    UndisturbedState(c, events, t);
    if AtEnd(c, t) {
      EndOfUndisturbedRun(c, events, t);
    }
  }

  lemma UndisturbedState(c: Cfg, events: seq<Event>, t: State)
    requires c.Valid() && Run(c, Init(c), events, t) && Undisturbed(events)
    ensures Inv(c, t) && (t.drain.Draining? ==> !t.cancelled)
  {
    InitInv(c);
    RunKeepsInv(c, Init(c), events, t);
    ContextOutlivesDrain(c, Init(c), events, t);
  }
}
