/** Every step of the split at the granularity of its locks is a step of SplitMachine, or none. */
module LockedSimulation {
  import opened Prelude
  import opened LockedSplit
  import F = Fetcher
  import M = SplitMachine
  import P = SpoolProtocol

  /** The machine's step for a step of the locked split. */
  function Image(c: M.Cfg, l: State, e: Event): Option<M.Event>
    requires c.Valid() && Shape(c, l) && Enabled(c, l, e) && Sane(l)
  {
    match e
    case Claim(w) => Some(M.Claim(w))
    case Leave(w) => Some(M.Leave(w))
    case Check(w) => Some(M.Check(w))
    case Ask(w, reply) => Some(M.Work(w, F.Ask(reply)))
    case Read(w, r) =>
      var i := l.workers[w].idx;
      var fe := BodyEvent(c.starts[i], c.ends[i], l.chunks[i], r);
      if fe.None? then None else Some(M.Work(w, fe.value))
    case Publish(w) =>
      var i := l.workers[w].idx;
      Some(M.Work(w, PublishEvent(c.starts[i], c.ends[i], l.chunks[i])))
    case Retry(w) => Some(M.Work(w, F.Retry))
    case Stop(_) => None
    case Finish(w) => Some(M.Work(w, FinishEvent(l.chunks[l.workers[w].idx])))
    case Wake(_) => None
    case Drain(d) => DrainImage(l.chunks[l.turn.i].spool, d)
    case Close(_) => None
    case CloseWake(_) => None
    case Disconnect => Some(M.Disconnect)
    case Cancel => Some(M.Cancel)
  }

  function DrainImage(s: P.Spool, d: P.Event): Option<M.Event>
    requires P.Enabled(s, d)
  {
    match d
    case Copy(n, accepted, failed) => Some(M.Write(n, accepted, failed))
    case ReadFails => Some(M.Write(1, 0, true))
    case Tail => if P.Next(s, d).consumer.Returned? then Some(M.Advance) else None
    case _ => None
  }

  /** Steps of a fetcher, or broadcasts, leave what drainTo did. */
  ghost predicate KeepsDrain(s: P.Spool, t: P.Spool) {
    && t.delivered == s.delivered && t.closer == s.closer
    && (t.consumer == s.consumer || (s.consumer.Asleep? && t.consumer.Checking?))
  }

  lemma ChunksMove(c: M.Cfg, ks: seq<Chunk>, ms: seq<M.Chunk>, i: nat, k: Chunk, m: M.Chunk, cancelled: bool)
    requires c.Valid() && ChunksRel(c, ks, ms, cancelled) && i < |ks|
    requires ChunkRel(c.starts[i], c.ends[i], k, m, cancelled)
    ensures ChunksRel(c, ks[i := k], ms[i := m], cancelled)
  {
  }

  lemma TurnStays(l: State, s: M.State, l': State, s': M.State, i: nat)
    requires TurnRel(l, s) && i < |l.chunks| == |l'.chunks| && l'.turn == l.turn && s'.drain == s.drain
    requires l'.chunks == l.chunks[i := l'.chunks[i]] && KeepsDrain(l.chunks[i].spool, l'.chunks[i].spool)
    ensures TurnRel(l', s')
  {
  }

  /** One chunk moves on in both, and the drain in neither. */
  lemma ChunkMoves(c: M.Cfg, l: State, s: M.State, l': State, s': M.State, i: nat)
    requires c.Valid() && Rel(c, l, s) && i < |l.chunks| == |l'.chunks| == |s'.chunks|
    requires Shape(c, l') && M.Shape(c, s')
    requires l'.queue == s'.queue && l'.workers == s'.workers && l'.client == s'.client
    requires l'.cancelled == s'.cancelled == l.cancelled && l'.turn == l.turn && s'.drain == s.drain
    requires l'.chunks == l.chunks[i := l'.chunks[i]] && s'.chunks == s.chunks[i := s'.chunks[i]]
    requires ChunkRel(c.starts[i], c.ends[i], l'.chunks[i], s'.chunks[i], l.cancelled)
    requires KeepsDrain(l.chunks[i].spool, l'.chunks[i].spool)
    ensures Rel(c, l', s')
  {
    ChunksMove(c, l.chunks, s.chunks, i, l'.chunks[i], s'.chunks[i], l.cancelled);
    TurnStays(l, s, l', s', i);
  }

  /** A step of worker w's fetch, done on both sides. */
  lemma WorkMoves(c: M.Cfg, l: State, s: M.State, w: nat, k: Chunk, fe: F.Event)
    requires c.Valid() && Rel(c, l, s) && w < |l.workers| && l.workers[w].Fetching? && l.workers[w].idx < |l.chunks|
    requires var i := l.workers[w].idx;
             && F.Enabled(s.chunks[i].fetch, fe, s.cancelled)
             && ChunkRel(c.starts[i], c.ends[i], k, Stepped(c.starts[i], c.ends[i], s.chunks[i], fe), l.cancelled)
             && KeepsDrain(l.chunks[i].spool, k.spool)
    ensures M.Enabled(c, s, M.Work(w, fe))
    ensures var i := l.workers[w].idx;
            var done := k.phase.Finished?;
            var workers := l.workers[w := if done then M.Idle else M.Fetching(i)];
            Rel(c, SetChunk(l.(workers := workers), i, k), M.Next(c, s, M.Work(w, fe)))
  {
    var i := l.workers[w].idx;
    var l' := SetChunk(l.(workers := l.workers[w := if k.phase.Finished? then M.Idle else M.Fetching(i)]), i, k);
    ChunkMoves(c, l, s, l', M.Next(c, s, M.Work(w, fe)), i);
  }

  /** A step of one spool that the machine does not see. */
  lemma ChunkStutters(c: M.Cfg, l: State, s: M.State, i: nat, k: Chunk)
    requires c.Valid() && Rel(c, l, s) && i < |l.chunks|
    requires ChunkRel(c.starts[i], c.ends[i], k, s.chunks[i], l.cancelled) && KeepsDrain(l.chunks[i].spool, k.spool)
    ensures Rel(c, SetChunk(l, i, k), s)
  {
    ChunkMoves(c, l, s, SetChunk(l, i, k), s, i);
  }

  /** What both sides know about the chunk worker w fetches. */
  lemma FetchedRel(c: M.Cfg, l: State, s: M.State, w: nat)
    requires c.Valid() && Rel(c, l, s) && w < |l.workers| && l.workers[w].Fetching?
    ensures var i := l.workers[w].idx;
            i < |l.chunks| && ChunkRel(c.starts[i], c.ends[i], l.chunks[i], s.chunks[i], l.cancelled)
    ensures l.workers[w := M.Fetching(l.workers[w].idx)] == l.workers
  {
  }

  ghost predicate Simulated(c: M.Cfg, l: State, s: M.State, e: Event)
    requires c.Valid() && Rel(c, l, s) && Enabled(c, l, e) && Sane(l)
  {
    var image := Image(c, l, e);
    if image.None? then Rel(c, Next(c, l, e), s)
    else M.Enabled(c, s, image.value) && Rel(c, Next(c, l, e), M.Next(c, s, image.value))
  }

  lemma AskSimulated(c: M.Cfg, l: State, s: M.State, w: nat, reply: F.Reply)
    requires c.Valid() && Rel(c, l, s) && Enabled(c, l, Ask(w, reply)) && Sane(l)
    ensures Simulated(c, l, s, Ask(w, reply))
  {
    FetchedRel(c, l, s, w);
    var i := l.workers[w].idx;
    assert F.Enabled(s.chunks[i].fetch, F.Ask(reply), s.cancelled);
    WorkMoves(c, l, s, w, Next(c, l, Ask(w, reply)).chunks[i], F.Ask(reply));
  }

  lemma ReadSimulated(c: M.Cfg, l: State, s: M.State, w: nat, r: F.Event)
    requires c.Valid() && Rel(c, l, s) && Enabled(c, l, Read(w, r)) && Sane(l)
    ensures Simulated(c, l, s, Read(w, r))
  {
    FetchedRel(c, l, s, w);
    var i := l.workers[w].idx;
    var (k, fe) := (l.chunks[i], BodyEvent(c.starts[i], c.ends[i], l.chunks[i], r));
    BodyRel(c.starts[i], c.ends[i], k, s.chunks[i], l.cancelled, r);
    if fe.None? {
      ChunkStutters(c, l, s, i, AfterBody(c.starts[i], c.ends[i], k, r));
    } else {
      WorkMoves(c, l, s, w, AfterBody(c.starts[i], c.ends[i], k, r), fe.value);
    }
  }

  lemma PublishLocal(start: int, end: int, k: Chunk)
    requires k.task.Pushing? && k.task.e.Read? && k.phase.Reading? && P.Enabled(k.spool, P.Publish)
    ensures var j := AfterPublish(start, end, k); KeepsDrain(k.spool, j.spool) && !j.phase.Finished?
  {
  }

  lemma PublishSimulated(c: M.Cfg, l: State, s: M.State, w: nat)
    requires c.Valid() && Rel(c, l, s) && Enabled(c, l, Publish(w)) && Sane(l)
    ensures Simulated(c, l, s, Publish(w))
  {
    FetchedRel(c, l, s, w);
    var i := l.workers[w].idx;
    var k := l.chunks[i];
    var (j, fe) := (AfterPublish(c.starts[i], c.ends[i], k), PublishEvent(c.starts[i], c.ends[i], k));
    PublishRel(c.starts[i], c.ends[i], k, s.chunks[i], l.cancelled);
    PublishLocal(c.starts[i], c.ends[i], k);
    WorkMoves(c, l, s, w, j, fe);
    assert Next(c, l, Publish(w)) == SetChunk(l, i, j);
  }

  lemma RetrySimulated(c: M.Cfg, l: State, s: M.State, w: nat)
    requires c.Valid() && Rel(c, l, s) && Enabled(c, l, Retry(w)) && Sane(l)
    ensures Simulated(c, l, s, Retry(w))
  {
    FetchedRel(c, l, s, w);
    var i := l.workers[w].idx;
    assert F.Enabled(s.chunks[i].fetch, F.Retry, s.cancelled);
    WorkMoves(c, l, s, w, Next(c, l, Retry(w)).chunks[i], F.Retry);
  }

  lemma StopSimulated(c: M.Cfg, l: State, s: M.State, w: nat)
    requires c.Valid() && Rel(c, l, s) && Enabled(c, l, Stop(w)) && Sane(l)
    ensures Simulated(c, l, s, Stop(w))
  {
    FetchedRel(c, l, s, w);
    var i := l.workers[w].idx;
    ChunkStutters(c, l, s, i, AfterStop(l.chunks[i]));
  }

  lemma FinishSimulated(c: M.Cfg, l: State, s: M.State, w: nat)
    requires c.Valid() && Rel(c, l, s) && Enabled(c, l, Finish(w)) && Sane(l)
    ensures Simulated(c, l, s, Finish(w))
  {
    FetchedRel(c, l, s, w);
    var i := l.workers[w].idx;
    FinishRel(c.starts[i], c.ends[i], l.chunks[i], s.chunks[i], l.cancelled);
    WorkMoves(c, l, s, w, AfterFinish(l.chunks[i]), FinishEvent(l.chunks[i]));
  }

  lemma WakeSimulated(c: M.Cfg, l: State, s: M.State, i: nat)
    requires c.Valid() && Rel(c, l, s) && Enabled(c, l, Wake(i)) && Sane(l)
    ensures Simulated(c, l, s, Wake(i))
  {
    var k := l.chunks[i];
    assert ChunkRel(c.starts[i], c.ends[i], k, s.chunks[i], l.cancelled);
    SpoolStepRel(c.starts[i], c.ends[i], k, s.chunks[i], l.cancelled, P.Broadcast);
    ChunkStutters(c, l, s, i, k.(spool := P.Next(k.spool, P.Broadcast)));
  }

  /** Closing, after the drain loop. */
  lemma CloseSimulated(c: M.Cfg, l: State, s: M.State, e: Event)
    requires c.Valid() && Rel(c, l, s) && Enabled(c, l, e) && Sane(l) && (e.Close? || e.CloseWake?)
    ensures Simulated(c, l, s, e)
  {
    var (i, pe) := (e.i, if e.Close? then P.Close else P.CloseBroadcast);
    var k := l.chunks[i];
    assert ChunkRel(c.starts[i], c.ends[i], k, s.chunks[i], l.cancelled);
    SpoolStepRel(c.starts[i], c.ends[i], k, s.chunks[i], l.cancelled, pe);
    ChunksMove(c, l.chunks, s.chunks, i, k.(spool := P.Next(k.spool, pe)), s.chunks[i], l.cancelled);
    assert s.chunks[i := s.chunks[i]] == s.chunks;
    assert Next(c, l, e) == SetSpool(l, i, P.Next(k.spool, pe)) && !l.turn.At?;
  }

  lemma AllCancelled(c: M.Cfg, ks: seq<Chunk>, ms: seq<M.Chunk>, cancelled: bool)
    requires c.Valid() && ChunksRel(c, ks, ms, cancelled)
    ensures ChunksRel(c, ks, ms, true)
  {
    forall j | 0 <= j < |ks| ensures ChunkRel(c.starts[j], c.ends[j], ks[j], ms[j], true) {
      CancelRel(c.starts[j], c.ends[j], ks[j], ms[j], cancelled);
    }
  }

  lemma ContextSimulated(c: M.Cfg, l: State, s: M.State, e: Event)
    requires c.Valid() && Rel(c, l, s) && Enabled(c, l, e) && Sane(l) && (e.Disconnect? || e.Cancel?)
    ensures Simulated(c, l, s, e)
  {
    AllCancelled(c, l.chunks, s.chunks, l.cancelled);
    assert Next(c, l, e) == l.(cancelled := true);
  }

  lemma ClaimSimulated(c: M.Cfg, l: State, s: M.State, w: nat)
    requires c.Valid() && Rel(c, l, s) && Enabled(c, l, Claim(w)) && Sane(l)
    ensures Simulated(c, l, s, Claim(w))
  {
    var i := l.queue[0];
    assert ChunkRel(c.starts[i], c.ends[i], l.chunks[i], s.chunks[i], l.cancelled);
    ChunkMoves(c, l, s, Next(c, l, Claim(w)), M.Next(c, s, M.Claim(w)), i);
  }

  lemma WorkerSimulated(c: M.Cfg, l: State, s: M.State, e: Event)
    requires c.Valid() && Rel(c, l, s) && Enabled(c, l, e) && Sane(l) && (e.Leave? || e.Check?)
    ensures Simulated(c, l, s, e)
  {
    var l' := Next(c, l, e);
    assert l' == l.(workers := l'.workers);
  }

  // ----- the drainer ---------------------------------------------------------

  /** The machine's drain after a step of drainTo for chunk i. */
  ghost predicate DrainRel(i: nat, n: nat, t: P.Spool, drain: M.Drain) {
    if !t.consumer.Returned? then drain == M.Draining(i, t.delivered)
    else if t.consumer.result.Error? then drain.Broken?
    else if i + 1 < n then drain == M.Draining(i + 1, 0)
    else drain.Completed?
  }

  /** What the machine does about a step of drainTo. */
  ghost predicate DrainFollowed(c: M.Cfg, l: State, s: M.State, d: P.Event)
    requires c.Valid() && Rel(c, l, s) && Enabled(c, l, Drain(d))
  {
    var (i, k) := (l.turn.i, l.chunks[l.turn.i].spool);
    var (t, image) := (P.Next(k, d), DrainImage(k, d));
    && (image.Some? ==> M.Enabled(c, s, image.value))
    && var s' := if image.None? then s else M.Next(c, s, image.value);
       && s' == s.(client := l.client + Given(k, d), drain := s'.drain)
       && DrainRel(i, |l.chunks|, t, s'.drain)
  }

  lemma CopyFollowed(c: M.Cfg, l: State, s: M.State, d: P.Event)
    requires c.Valid() && Rel(c, l, s) && Enabled(c, l, Drain(d)) && (d.Copy? || d.ReadFails?)
    ensures DrainFollowed(c, l, s, d)
  {
    var i := l.turn.i;
    var (k, data) := (l.chunks[i].spool, s.chunks[i].fetch.data);
    assert ChunkRel(c.starts[i], c.ends[i], l.chunks[i], s.chunks[i], l.cancelled);
    if d.Copy? {
      assert data[k.delivered..k.delivered + d.accepted] == Given(k, d);
    } else {
      assert data[k.delivered..k.delivered] == [];
    }
  }

  lemma TailFollowed(c: M.Cfg, l: State, s: M.State, d: P.Event)
    requires c.Valid() && Rel(c, l, s) && Enabled(c, l, Drain(d)) && (d.Check? || d.Tail?)
    ensures DrainFollowed(c, l, s, d)
  {
    var i := l.turn.i;
    assert ChunkRel(c.starts[i], c.ends[i], l.chunks[i], s.chunks[i], l.cancelled);
    assert l.client + [] == l.client;
  }

  lemma DrainTurns(l: State, s: M.State, l': State, s': M.State, i: nat)
    requires TurnRel(l, s) && l.turn == At(i) && i < |l.chunks| == |l'.chunks|
    requires l'.chunks == l.chunks[i := l'.chunks[i]] && l'.chunks[i].spool.closer == l.chunks[i].spool.closer
    requires DrainRel(i, |l.chunks|, l'.chunks[i].spool, s'.drain)
    requires l'.turn == AfterDrain(i, |l.chunks|, l'.chunks[i].spool)
    ensures TurnRel(l', s')
  {
  }

  lemma DrainSimulated(c: M.Cfg, l: State, s: M.State, d: P.Event)
    requires c.Valid() && Rel(c, l, s) && Enabled(c, l, Drain(d)) && Sane(l)
    ensures Simulated(c, l, s, Drain(d))
  {
    var i := l.turn.i;
    var k := l.chunks[i];
    if d.Copy? || d.ReadFails? {
      CopyFollowed(c, l, s, d);
    } else {
      TailFollowed(c, l, s, d);
    }
    assert ChunkRel(c.starts[i], c.ends[i], k, s.chunks[i], l.cancelled);
    SpoolStepRel(c.starts[i], c.ends[i], k, s.chunks[i], l.cancelled, d);
    DrainMoves(c, l, s, d);
  }

  lemma DrainMoves(c: M.Cfg, l: State, s: M.State, d: P.Event)
    requires c.Valid() && Rel(c, l, s) && Enabled(c, l, Drain(d)) && Sane(l) && DrainFollowed(c, l, s, d)
    requires var (i, k) := (l.turn.i, l.chunks[l.turn.i]);
             ChunkRel(c.starts[i], c.ends[i], k.(spool := P.Next(k.spool, d)), s.chunks[i], l.cancelled)
    ensures Simulated(c, l, s, Drain(d))
  {
    var i := l.turn.i;
    var (k, l') := (l.chunks[i], Next(c, l, Drain(d)));
    var image := DrainImage(k.spool, d);
    var s' := if image.None? then s else M.Next(c, s, image.value);
    ChunksMove(c, l.chunks, s.chunks, i, k.(spool := P.Next(k.spool, d)), s.chunks[i], l.cancelled);
    assert s.chunks[i := s.chunks[i]] == s.chunks;
    DrainTurns(l, s, l', s', i);
  }

  lemma FetchSimulated(c: M.Cfg, l: State, s: M.State, e: Event)
    requires c.Valid() && Rel(c, l, s) && Enabled(c, l, e) && Sane(l)
    requires e.Ask? || e.Read? || e.Publish? || e.Retry? || e.Stop? || e.Finish?
    ensures Simulated(c, l, s, e)
  {
    match e
    case Ask(w, reply) => AskSimulated(c, l, s, w, reply);
    case Read(w, r) => ReadSimulated(c, l, s, w, r);
    case Publish(w) => PublishSimulated(c, l, s, w);
    case Retry(w) => RetrySimulated(c, l, s, w);
    case Stop(w) => StopSimulated(c, l, s, w);
    case Finish(w) => FinishSimulated(c, l, s, w);
  }

  /** Every step of the locked split is a step of the machine, or none. */
  lemma StepSimulated(c: M.Cfg, l: State, s: M.State, e: Event)
    requires c.Valid() && Rel(c, l, s) && Enabled(c, l, e) && Sane(l)
    ensures Simulated(c, l, s, e)
  {
    match e
    case Claim(w) => ClaimSimulated(c, l, s, w);
    case Leave(_) => WorkerSimulated(c, l, s, e);
    case Check(_) => WorkerSimulated(c, l, s, e);
    case Wake(i) => WakeSimulated(c, l, s, i);
    case Drain(d) => DrainSimulated(c, l, s, d);
    case Close(_) => CloseSimulated(c, l, s, e);
    case CloseWake(_) => CloseSimulated(c, l, s, e);
    case Disconnect => ContextSimulated(c, l, s, e);
    case Cancel => ContextSimulated(c, l, s, e);
    case _ => FetchSimulated(c, l, s, e);
  }
}
