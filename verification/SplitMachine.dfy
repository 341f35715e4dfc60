/**
 * splitAcrossLinks as a step machine. Four workers per link take chunk indices
 * from one queue and fetch them; one drainer streams the spools to the client in
 * index order; the client may go away at any moment. Each event is one atomic
 * action of one goroutine; a run is any interleaving.
 */
module SplitMachine {
  import opened Prelude
  import F = Fetcher

  const WORKERS_PER_LINK: nat := 4

  /** The file at the server, the chunks' byte ranges, and the number of links that were healthy at the start. */
  datatype Cfg = Cfg(file: seq<byte>, starts: seq<int>, ends: seq<int>, links: nat) {
    ghost predicate Valid() {
      |starts| == |ends| >= 1 && links >= 1
    }

    function Len(i: nat): int
      requires i < |starts| == |ends|
    {
      ends[i] - starts[i] + 1
    }

    function Workers(): nat {
      WORKERS_PER_LINK * links
    }
  }

  /** Exited(Some(i)): took index i from the queue, saw the context cancelled, and returned. */
  datatype Worker = Idle | Claimed(idx: nat) | Fetching(idx: nat) | Exited(dropped: Option<nat>)

  datatype Chunk = Chunk(fetch: F.Fetch, owner: Option<nat>)

  /** Draining(i, n): n bytes of chunk i have been given to the client. Broken: some drainTo returned an error. */
  datatype Drain = Draining(idx: nat, off: nat) | Completed | Broken(idx: nat, off: nat)

  datatype State = State(
    queue: seq<nat>,
    workers: seq<Worker>,
    chunks: seq<Chunk>,
    drain: Drain,
    client: seq<byte>,
    cancelled: bool,
    bytesIn: seq<nat>)                              // per link, counted from the start of the split

  datatype Event =
    | Claim(w: nat)                                 // receive an index from the queue
    | Leave(w: nat)                                 // queue closed and empty
    | Check(w: nat)                                 // ctx.Err() after the receive
    | Work(w: nat, e: F.Event)                      // a step of fetchChunk
    | Write(n: nat, accepted: nat, failed: bool)    // drainer reads n spool bytes and writes them
    | Advance                                       // drainTo returns
    | Disconnect                                    // the client's request context ends
    | Cancel                                        // splitAcrossLinks cancels the context when it returns

  function Init(c: Cfg): State
    requires c.Valid()
  {
    State(
      seq(|c.starts|, i => i),
      seq(c.Workers(), i => Idle),
      seq(|c.starts|, i => Chunk(F.INIT, None)),
      Draining(0, 0),
      [],
      false,
      seq(c.links, i => 0))
  }

  predicate Shape(c: Cfg, s: State)
    requires c.Valid()
  {
    && |s.workers| == c.Workers()
    && |s.chunks| == |c.starts|
    && |s.bytesIn| == c.links
    && (s.drain.Draining? ==> s.drain.idx < |s.chunks|)
    && (forall k :: 0 <= k < |s.queue| ==> s.queue[k] < |s.chunks|)
    && (forall w :: 0 <= w < |s.workers| ==>
          (s.workers[w].Claimed? || s.workers[w].Fetching?) ==> s.workers[w].idx < |s.chunks|)
  }

  /** The link worker w is bound to for its whole life. */
  function LinkOf(w: nat): nat {
    w / WORKERS_PER_LINK
  }

  predicate Enabled(c: Cfg, s: State, e: Event)
    requires c.Valid() && Shape(c, s)
  {
    match e
    case Claim(w) => w < |s.workers| && s.workers[w].Idle? && s.queue != []
    case Leave(w) => w < |s.workers| && s.workers[w].Idle? && s.queue == []
    case Check(w) => w < |s.workers| && s.workers[w].Claimed?
    case Work(w, fe) =>
      && w < |s.workers|
      && s.workers[w].Fetching?
      && F.Enabled(s.chunks[s.workers[w].idx].fetch, fe, s.cancelled)
    case Write(n, accepted, _) =>
      && s.drain.Draining?
      && accepted <= n
      && 1 <= n
      && s.drain.off + n <= |s.chunks[s.drain.idx].fetch.data|
    case Advance =>
      && s.drain.Draining?
      && s.chunks[s.drain.idx].fetch.phase.Finished?
      && s.drain.off == |s.chunks[s.drain.idx].fetch.data|
    case Disconnect => !s.cancelled
    case Cancel => !s.cancelled && !s.drain.Draining?
  }

  function Next(c: Cfg, s: State, e: Event): State
    requires c.Valid() && Shape(c, s) && Enabled(c, s, e)
  {
    match e
    case Claim(w) =>
      var i := s.queue[0];
      s.(queue := s.queue[1..],
         workers := s.workers[w := Claimed(i)],
         chunks := s.chunks[i := s.chunks[i].(owner := Some(w))])
    case Leave(w) =>
      s.(workers := s.workers[w := Exited(None)])
    case Check(w) =>
      var i := s.workers[w].idx;
      s.(workers := s.workers[w := if s.cancelled then Exited(Some(i)) else Fetching(i)])
    case Work(w, fe) =>
      var i := s.workers[w].idx;
      var was := s.chunks[i].fetch;
      var f := F.Step(c.starts[i], c.ends[i], was, fe);
      WorkAt(s, w, i, f)
    case Write(n, accepted, failed) =>
      var (i, off) := (s.drain.idx, s.drain.off);
      var t := s.(client := s.client + s.chunks[i].fetch.data[off..off + accepted]);
      if failed || accepted != n then t.(drain := Broken(i, off + accepted))
      else t.(drain := Draining(i, off + n))
    case Advance =>
      var (i, off) := (s.drain.idx, s.drain.off);
      if s.chunks[i].fetch.phase.err.Some? then s.(drain := Broken(i, off))
      else if i + 1 < |s.chunks| then s.(drain := Draining(i + 1, 0))
      else s.(drain := Completed)
    case Disconnect => s.(cancelled := true)
    case Cancel => s.(cancelled := true)
  }

  /** Worker w moves chunk i's fetch to f; a finished fetch sends the worker back to the queue. */
  function WorkAt(s: State, w: nat, i: nat, f: F.Fetch): State
    requires w < |s.workers| && i < |s.chunks| && LinkOf(w) < |s.bytesIn|
    requires s.chunks[i].fetch.credited <= f.credited
  {
    s.(workers := s.workers[w := if f.phase.Finished? then Idle else Fetching(i)],
       chunks := s.chunks[i := s.chunks[i].(fetch := f)],
       bytesIn := s.bytesIn[LinkOf(w) := s.bytesIn[LinkOf(w)] + (f.credited - s.chunks[i].fetch.credited)])
  }

  // ----- the invariant ----------------------------------------------------

  function Taken(s: State): int {
    |s.chunks| - |s.queue|
  }

  function Holds(w: Worker): Option<nat> {
    match w
    case Idle => None
    case Claimed(i) => Some(i)
    case Fetching(i) => Some(i)
    case Exited(d) => d
  }

  predicate Done(k: Chunk) {
    k.fetch.phase.Finished?
  }

  predicate Clean(k: Chunk) {
    k.fetch.phase == F.Finished(None)
  }

  /** The queue holds exactly the indices not yet taken, in order; indices are taken once each. */
  ghost predicate QueueInv(s: State) {
    && |s.queue| <= |s.chunks|
    && (forall k :: 0 <= k < |s.queue| ==> s.queue[k] == Taken(s) + k)
    && (forall i :: 0 <= i < |s.chunks| ==> (s.chunks[i].owner.Some? <==> i < Taken(s)))
    && (forall i :: Taken(s) <= i < |s.chunks| ==> s.chunks[i].fetch == F.INIT)
  }

  /** A taken, unfinished chunk is in the hands of exactly its owner. */
  ghost predicate OwnerInv(s: State) {
    && (forall i :: 0 <= i < |s.chunks| && s.chunks[i].owner.Some? ==> s.chunks[i].owner.value < |s.workers|)
    && (forall i :: 0 <= i < |s.chunks| && s.chunks[i].owner.Some? && !Done(s.chunks[i]) ==>
          Holds(s.workers[s.chunks[i].owner.value]) == Some(i))
    && (forall w :: 0 <= w < |s.workers| && Holds(s.workers[w]).Some? ==> HeldWell(s, w))
    && (forall w :: 0 <= w < |s.workers| && s.workers[w] == Exited(None) ==> s.queue == [])
  }

  ghost predicate HeldWell(s: State, w: nat)
    requires w < |s.workers| && Holds(s.workers[w]).Some?
  {
    var i := Holds(s.workers[w]).value;
    && i < |s.chunks|
    && s.chunks[i].owner == Some(w)
    && !Done(s.chunks[i])
    && (!s.workers[w].Fetching? ==> s.chunks[i].fetch == F.INIT)
    && (s.workers[w].Exited? ==> s.cancelled)
  }

  ghost predicate FetchInv(c: Cfg, s: State)
    requires c.Valid() && Shape(c, s)
  {
    forall i :: 0 <= i < |s.chunks| ==> F.Inv(c.Len(i), s.chunks[i].fetch)
  }

  /** The spools of chunks 0..k-1, one after another. */
  function Joined(chunks: seq<Chunk>, k: nat): seq<byte>
    requires k <= |chunks|
  {
    if k == 0 then [] else Joined(chunks, k - 1) + chunks[k - 1].fetch.data
  }

  ghost predicate DrainedTo(s: State, i: nat, off: nat) {
    && i < |s.chunks|
    && off <= |s.chunks[i].fetch.data|
    && s.client == Joined(s.chunks, i) + s.chunks[i].fetch.data[..off]
    && forall j :: 0 <= j < i ==> Clean(s.chunks[j])
  }

  ghost predicate DrainInv(s: State) {
    match s.drain
    case Draining(i, off) => DrainedTo(s, i, off)
    case Broken(i, off) => DrainedTo(s, i, off)
    case Completed =>
      && s.client == Joined(s.chunks, |s.chunks|)
      && forall j :: 0 <= j < |s.chunks| ==> Clean(s.chunks[j])
  }

  ghost predicate Inv(c: Cfg, s: State)
    requires c.Valid()
  {
    Shape(c, s) && QueueInv(s) && OwnerInv(s) && FetchInv(c, s) && DrainInv(s)
  }

  lemma InitInv(c: Cfg)
    requires c.Valid()
    ensures Inv(c, Init(c))
  {
  }

  lemma {:induction false} JoinedSame(a: seq<Chunk>, b: seq<Chunk>, k: nat)
    requires k <= |a| && k <= |b|
    requires forall j :: 0 <= j < k ==> a[j].fetch.data == b[j].fetch.data
    ensures Joined(a, k) == Joined(b, k)
  {
    if k > 0 {
      JoinedSame(a, b, k - 1);
    }
  }

  /** What a step can do to the chunks: nothing to finished ones, and their spools only grow. */
  ghost predicate Grows(s: State, t: State) {
    && |t.chunks| == |s.chunks|
    && (s.cancelled ==> t.cancelled)
    && forall i :: 0 <= i < |s.chunks| ==>
         && (Done(s.chunks[i]) ==> t.chunks[i] == s.chunks[i])
         && s.chunks[i].fetch.data <= t.chunks[i].fetch.data
         && (s.chunks[i].owner.Some? ==> t.chunks[i].owner == s.chunks[i].owner)
  }

  lemma GrowthKeepsDrained(s: State, t: State, i: nat, off: nat)
    requires DrainedTo(s, i, off) && Grows(s, t) && t.client == s.client
    ensures DrainedTo(t, i, off)
  {
    JoinedSame(s.chunks, t.chunks, i);
    assert t.chunks[i].fetch.data[..off] == s.chunks[i].fetch.data[..off];
  }

  lemma ProducerKeepsDrain(c: Cfg, s: State, t: State)
    requires c.Valid() && Inv(c, s) && Grows(s, t) && t.client == s.client && t.drain == s.drain
    ensures DrainInv(t)
  {
    match s.drain
    case Draining(i, off) => GrowthKeepsDrained(s, t, i, off);
    case Broken(i, off) => GrowthKeepsDrained(s, t, i, off);
    case Completed => assert t.chunks == s.chunks;
  }

  lemma SameFetchesKeepInv(c: Cfg, s: State, t: State)
    requires c.Valid() && Shape(c, s) && FetchInv(c, s) && Shape(c, t)
    requires forall i :: 0 <= i < |s.chunks| ==> t.chunks[i].fetch == s.chunks[i].fetch
    ensures FetchInv(c, t)
  {
  }

  lemma ClaimKeepsOwners(c: Cfg, s: State, w: nat)
    requires c.Valid() && Shape(c, s) && Enabled(c, s, Claim(w)) && QueueInv(s) && OwnerInv(s)
    ensures QueueInv(Next(c, s, Claim(w))) && OwnerInv(Next(c, s, Claim(w)))
  {
    var t := Next(c, s, Claim(w));
    assert s.queue[0] == Taken(s) && Taken(t) == Taken(s) + 1;
    forall v | 0 <= v < |t.workers| && Holds(t.workers[v]).Some? ensures HeldWell(t, v) {
      assert v != w ==> HeldWell(s, v);
    }
  }

  lemma ClaimKeepsInv(c: Cfg, s: State, w: nat)
    requires c.Valid() && Inv(c, s) && Enabled(c, s, Claim(w))
    ensures Inv(c, Next(c, s, Claim(w))) && Grows(s, Next(c, s, Claim(w)))
  {
    var t := Next(c, s, Claim(w));
    ClaimKeepsOwners(c, s, w);
    SameFetchesKeepInv(c, s, t);
    assert !Done(s.chunks[s.queue[0]]) && s.chunks[s.queue[0]].owner.None?;
    ProducerKeepsDrain(c, s, t);
  }

  lemma CheckKeepsOwners(c: Cfg, s: State, w: nat)
    requires c.Valid() && Shape(c, s) && Enabled(c, s, Check(w)) && QueueInv(s) && OwnerInv(s)
    ensures QueueInv(Next(c, s, Check(w))) && OwnerInv(Next(c, s, Check(w)))
  {
    var t := Next(c, s, Check(w));
    assert HeldWell(s, w);
    forall v | 0 <= v < |t.workers| && Holds(t.workers[v]).Some? ensures HeldWell(t, v) {
      assert HeldWell(s, v);
    }
  }

  lemma CheckKeepsInv(c: Cfg, s: State, w: nat)
    requires c.Valid() && Inv(c, s) && Enabled(c, s, Check(w))
    ensures Inv(c, Next(c, s, Check(w))) && Grows(s, Next(c, s, Check(w)))
  {
    var t := Next(c, s, Check(w));
    CheckKeepsOwners(c, s, w);
    SameFetchesKeepInv(c, s, t);
    ProducerKeepsDrain(c, s, t);
  }

  lemma LinkInRange(c: Cfg, w: nat)
    requires w < c.Workers()
    ensures LinkOf(w) < c.links
  {
  }

  lemma WorkAtKeepsQueue(s: State, w: nat, i: nat, f: F.Fetch)
    requires QueueInv(s) && OwnerInv(s)
    requires w < |s.workers| && s.workers[w] == Fetching(i) && i < |s.chunks| && LinkOf(w) < |s.bytesIn|
    requires s.chunks[i].fetch.credited <= f.credited
    ensures QueueInv(WorkAt(s, w, i, f))
  {
    assert HeldWell(s, w);
  }

  lemma WorkAtKeepsOwners(s: State, w: nat, i: nat, f: F.Fetch)
    requires QueueInv(s) && OwnerInv(s)
    requires w < |s.workers| && s.workers[w] == Fetching(i) && i < |s.chunks| && LinkOf(w) < |s.bytesIn|
    requires s.chunks[i].fetch.credited <= f.credited
    ensures OwnerInv(WorkAt(s, w, i, f))
  {
    var t := WorkAt(s, w, i, f);
    assert HeldWell(s, w);
    forall v | 0 <= v < |t.workers| && Holds(t.workers[v]).Some? ensures HeldWell(t, v) {
      assert v != w ==> HeldWell(s, v);
    }
  }

  lemma WorkAtGrows(s: State, w: nat, i: nat, f: F.Fetch)
    requires OwnerInv(s)
    requires w < |s.workers| && s.workers[w] == Fetching(i) && i < |s.chunks| && LinkOf(w) < |s.bytesIn|
    requires s.chunks[i].fetch.credited <= f.credited && s.chunks[i].fetch.data <= f.data
    ensures Grows(s, WorkAt(s, w, i, f))
  {
    assert HeldWell(s, w);
  }

  lemma WorkAtKeepsFetches(c: Cfg, s: State, w: nat, i: nat, f: F.Fetch)
    requires c.Valid() && Shape(c, s) && FetchInv(c, s)
    requires w < |s.workers| && s.workers[w] == Fetching(i) && LinkOf(w) < |s.bytesIn|
    requires s.chunks[i].fetch.credited <= f.credited && F.Inv(c.Len(i), f)
    ensures Shape(c, WorkAt(s, w, i, f)) && FetchInv(c, WorkAt(s, w, i, f))
  {
  }

  /** Any growth of a worker's chunk that keeps the fetch's own invariant keeps the machine's. */
  lemma WorkAtKeepsInv(c: Cfg, s: State, w: nat, i: nat, f: F.Fetch)
    requires c.Valid() && Inv(c, s)
    requires w < |s.workers| && s.workers[w] == Fetching(i) && LinkOf(w) < |s.bytesIn|
    requires F.Inv(c.Len(i), f) && s.chunks[i].fetch.data <= f.data && s.chunks[i].fetch.credited <= f.credited
    ensures Inv(c, WorkAt(s, w, i, f)) && Grows(s, WorkAt(s, w, i, f))
  {
    WorkAtKeepsQueue(s, w, i, f);
    WorkAtKeepsOwners(s, w, i, f);
    WorkAtGrows(s, w, i, f);
    WorkAtKeepsFetches(c, s, w, i, f);
    ProducerKeepsDrain(c, s, WorkAt(s, w, i, f));
  }

  lemma WorkKeepsInv(c: Cfg, s: State, w: nat, fe: F.Event)
    requires c.Valid() && Inv(c, s) && Enabled(c, s, Work(w, fe))
    ensures Inv(c, Next(c, s, Work(w, fe))) && Grows(s, Next(c, s, Work(w, fe)))
  {
    var i := s.workers[w].idx;
    var f := s.chunks[i].fetch;
    F.StepKeepsInv(c.starts[i], c.ends[i], f, fe, s.cancelled);
    F.StepGrows(c.starts[i], c.ends[i], f, fe, s.cancelled);
    LinkInRange(c, w);
    WorkAtKeepsInv(c, s, w, i, F.Step(c.starts[i], c.ends[i], f, fe));
  }

  /** Steps that touch neither queue, workers nor chunks keep what is known about them. */
  lemma ConsumerKeepsProducers(c: Cfg, s: State, t: State)
    requires c.Valid() && Shape(c, s) && QueueInv(s) && OwnerInv(s) && FetchInv(c, s)
    requires t.queue == s.queue && t.workers == s.workers && t.chunks == s.chunks && t.bytesIn == s.bytesIn
    requires s.cancelled ==> t.cancelled
    requires t.drain.Draining? ==> t.drain.idx < |t.chunks|
    ensures Shape(c, t) && QueueInv(t) && OwnerInv(t) && FetchInv(c, t) && Grows(s, t)
  {
    forall w | 0 <= w < |t.workers| && Holds(t.workers[w]).Some? ensures HeldWell(t, w) {
      assert HeldWell(s, w);
    }
  }

  lemma WriteDrains(s: State, accepted: nat)
    requires DrainInv(s) && s.drain.Draining? && s.drain.off + accepted <= |s.chunks[s.drain.idx].fetch.data|
    ensures var (i, off) := (s.drain.idx, s.drain.off);
            var t := s.(client := s.client + s.chunks[i].fetch.data[off..off + accepted]);
            DrainedTo(t, i, off + accepted)
  {
    var (i, off) := (s.drain.idx, s.drain.off);
    var data := s.chunks[i].fetch.data;
    assert data[..off] + data[off..off + accepted] == data[..off + accepted];
  }

  lemma WriteKeepsDrain(c: Cfg, s: State, n: nat, accepted: nat, failed: bool)
    requires c.Valid() && Shape(c, s) && DrainInv(s) && Enabled(c, s, Write(n, accepted, failed))
    ensures DrainInv(Next(c, s, Write(n, accepted, failed)))
  {
    WriteDrains(s, accepted);
  }

  lemma WriteKeepsInv(c: Cfg, s: State, n: nat, accepted: nat, failed: bool)
    requires c.Valid() && Inv(c, s) && Enabled(c, s, Write(n, accepted, failed))
    ensures Inv(c, Next(c, s, Write(n, accepted, failed))) && Grows(s, Next(c, s, Write(n, accepted, failed)))
  {
    WriteKeepsDrain(c, s, n, accepted, failed);
    ConsumerKeepsProducers(c, s, Next(c, s, Write(n, accepted, failed)));
  }

  lemma AdvanceDrains(s: State)
    requires DrainInv(s) && s.drain.Draining? && s.drain.off == |s.chunks[s.drain.idx].fetch.data|
    requires Clean(s.chunks[s.drain.idx])
    ensures var i := s.drain.idx;
            if i + 1 < |s.chunks| then DrainedTo(s, i + 1, 0) else s.client == Joined(s.chunks, |s.chunks|)
  {
    var i := s.drain.idx;
    assert s.chunks[i].fetch.data[..s.drain.off] == s.chunks[i].fetch.data;
    if i + 1 < |s.chunks| {
      assert s.chunks[i + 1].fetch.data[..0] == [];
    }
  }

  lemma AdvanceKeepsDrain(c: Cfg, s: State)
    requires c.Valid() && Shape(c, s) && DrainInv(s) && Enabled(c, s, Advance)
    ensures DrainInv(Next(c, s, Advance))
  {
    var (i, t) := (s.drain.idx, Next(c, s, Advance));
    if Clean(s.chunks[i]) {
      AdvanceDrains(s);
      assert forall j :: 0 <= j < i + 1 ==> Clean(s.chunks[j]);
    } else {
      assert DrainedTo(t, i, s.drain.off);
    }
  }

  lemma AdvanceKeepsInv(c: Cfg, s: State)
    requires c.Valid() && Inv(c, s) && Enabled(c, s, Advance)
    ensures Inv(c, Next(c, s, Advance)) && Grows(s, Next(c, s, Advance))
  {
    var t := Next(c, s, Advance);
    ConsumerKeepsProducers(c, s, t);
    AdvanceKeepsDrain(c, s);
  }

  lemma LeaveKeepsInv(c: Cfg, s: State, w: nat)
    requires c.Valid() && Inv(c, s) && Enabled(c, s, Leave(w))
    ensures Inv(c, Next(c, s, Leave(w))) && Grows(s, Next(c, s, Leave(w)))
  {
    var t := Next(c, s, Leave(w));
    SameFetchesKeepInv(c, s, t);
    forall v | 0 <= v < |t.workers| && Holds(t.workers[v]).Some? ensures HeldWell(t, v) {
      assert HeldWell(s, v);
    }
    ProducerKeepsDrain(c, s, t);
  }

  lemma ContextKeepsInv(c: Cfg, s: State, e: Event)
    requires c.Valid() && Inv(c, s) && Enabled(c, s, e) && (e.Disconnect? || e.Cancel?)
    ensures Inv(c, Next(c, s, e)) && Grows(s, Next(c, s, e))
  {
    ConsumerKeepsProducers(c, s, Next(c, s, e));
    ProducerKeepsDrain(c, s, Next(c, s, e));
  }

  lemma StepKeepsInv(c: Cfg, s: State, e: Event)
    requires c.Valid() && Inv(c, s) && Enabled(c, s, e)
    ensures Inv(c, Next(c, s, e)) && Grows(s, Next(c, s, e))
  {
    match e
    case Claim(w) => ClaimKeepsInv(c, s, w);
    case Leave(w) => LeaveKeepsInv(c, s, w);
    case Check(w) => CheckKeepsInv(c, s, w);
    case Work(w, fe) => WorkKeepsInv(c, s, w, fe);
    case Write(n, accepted, failed) => WriteKeepsInv(c, s, n, accepted, failed);
    case Advance => AdvanceKeepsInv(c, s);
    case Disconnect => ContextKeepsInv(c, s, e);
    case Cancel => ContextKeepsInv(c, s, e);
  }
}
