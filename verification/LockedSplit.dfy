/**
 * splitAcrossLinks with its spools down to the lock: every critical section, file
 * operation and broadcast of SpoolProtocol, for every chunk, driven by the workers
 * and the drain loop. Every run of it is a run of SplitMachine with the same client.
 */
module LockedSplit {
  import opened Prelude
  import F = Fetcher
  import M = SplitMachine
  import P = SpoolProtocol

  /**
   * Where a fetcher is inside its attempt. Pushing(e): the read e is being pushed,
   * part of it is in the file. Ending(err): the fetch is decided, finish comes next.
   */
  datatype Task = Free | Pushing(e: F.Event) | Ending(err: Option<F.Failure>)

  /** The fetcher's local variables, and the spool it shares with the drainer. */
  datatype Chunk = Chunk(owner: Option<nat>, phase: F.Phase, pushed: nat, task: Task, spool: P.Spool)

  /** The drain loop: in drainTo of chunk i, through all chunks, or left after an error of chunk i. */
  datatype Turn = At(i: nat) | Through | Left(i: nat)

  datatype State = State(
    queue: seq<nat>,
    workers: seq<M.Worker>,
    chunks: seq<Chunk>,
    turn: Turn,
    client: seq<byte>,
    cancelled: bool)

  datatype Event =
    | Claim(w: nat)
    | Leave(w: nat)
    | Check(w: nat)
    | Ask(w: nat, reply: F.Reply)
    | Read(w: nat, e: F.Event)        // a body read, and the file write of its push if there is one
    | Publish(w: nat)                 // written += n under the lock; local variables follow
    | Retry(w: nat)
    | Stop(w: nat)                    // the context seen cancelled, or the attempts used up
    | Finish(w: nat)
    | Wake(i: nat)                    // the broadcast of a push or of finish
    | Drain(d: P.Event)               // a step of drainTo
    | Close(i: nat)                   // deferred: after the drain loop
    | CloseWake(i: nat)
    | Disconnect
    | Cancel

  function Init(c: M.Cfg): State
    requires c.Valid()
  {
    State(
      seq(|c.starts|, i => i),
      seq(c.Workers(), i => M.Idle),
      seq(|c.starts|, i => Chunk(None, F.Head(0), 0, Free, P.INIT)),
      At(0), [], false)
  }

  predicate Shape(c: M.Cfg, l: State)
    requires c.Valid()
  {
    && |l.workers| == c.Workers()
    && |l.chunks| == |c.starts|
    && (l.turn.At? ==> l.turn.i < |l.chunks|)
    && (forall k :: 0 <= k < |l.queue| ==> l.queue[k] < |l.chunks|)
    && (forall w :: 0 <= w < |l.workers| ==>
          (l.workers[w].Claimed? || l.workers[w].Fetching?) ==> l.workers[w].idx < |l.chunks|)
  }

  /** Worker w is in fetchChunk and not in the middle of a push or a broadcast. */
  predicate Fetches(l: State, w: nat) {
    && w < |l.workers| && l.workers[w].Fetching? && l.workers[w].idx < |l.chunks|
    && l.chunks[l.workers[w].idx].spool.producer.Ready?
  }

  function Kept(e: F.Event): seq<byte>
    requires e.Read? && (e.push.Refused? ==> e.push.kept <= |e.slice|)
  {
    if e.push.Stored? then e.slice else e.slice[..e.push.kept]
  }

  /** A read that the body, the disk and the context can produce. */
  predicate Possible(e: F.Event) {
    && e.Read? && |e.slice| <= F.READ_SLICE_SIZE
    && (if e.slice == [] then e.push.Stored? else e.push.Stored? || e.push.kept < |e.slice|)
  }

  predicate Enabled(c: M.Cfg, l: State, e: Event)
    requires c.Valid() && Shape(c, l)
  {
    match e
    case Claim(w) => w < |l.workers| && l.workers[w].Idle? && l.queue != []
    case Leave(w) => w < |l.workers| && l.workers[w].Idle? && l.queue == []
    case Check(w) => w < |l.workers| && l.workers[w].Claimed?
    case Ask(w, _) =>
      Fetches(l, w) && var k := l.chunks[l.workers[w].idx];
      k.task.Free? && k.phase.Head? && k.phase.attempt < F.MAX_CHUNK_ATTEMPTS
    case Read(w, r) =>
      Fetches(l, w) && var k := l.chunks[l.workers[w].idx];
      k.task.Free? && k.phase.Reading? && Possible(r)
    case Publish(w) =>
      && w < |l.workers| && l.workers[w].Fetching?
      && var k := l.chunks[l.workers[w].idx];
         k.task.Pushing? && P.Enabled(k.spool, P.Publish)
    case Retry(w) =>
      Fetches(l, w) && var k := l.chunks[l.workers[w].idx];
      k.task.Free? && k.phase.Failed? && !l.cancelled
    case Stop(w) =>
      Fetches(l, w) && var k := l.chunks[l.workers[w].idx];
      && k.task.Free?
      && (if k.phase.Head? then k.phase.attempt >= F.MAX_CHUNK_ATTEMPTS || l.cancelled else k.phase.Failed? && l.cancelled)
    case Finish(w) => Fetches(l, w) && l.chunks[l.workers[w].idx].task.Ending?
    case Wake(i) => i < |l.chunks| && P.Enabled(l.chunks[i].spool, P.Broadcast)
    case Drain(d) =>
      && l.turn.At?
      && (d.Check? || d.Copy? || d.ReadFails? || d.Tail?)
      && P.Enabled(l.chunks[l.turn.i].spool, d)
    case Close(i) => i < |l.chunks| && !l.turn.At? && P.Enabled(l.chunks[i].spool, P.Close)
    case CloseWake(i) => i < |l.chunks| && P.Enabled(l.chunks[i].spool, P.CloseBroadcast)
    case Disconnect => !l.cancelled
    case Cancel => !l.cancelled && !l.turn.At?
  }

  /** What fetchChunkOnce does about the end of a read whose bytes are all stored. */
  function AfterRead(start: int, end: int, k: Chunk, ending: F.Ending): Chunk
    requires k.phase.Reading?
  {
    var curStart := start + k.phase.base;
    var expected := end - curStart + 1;
    var fetched := k.pushed - k.phase.base;
    if ending.More? then k.(task := Free)
    else if ending.ReadError? || fetched != expected then k.(task := Free, phase := F.Failed(k.phase.attempt))
    else k.(task := Ending(None))
  }

  function AfterPublish(start: int, end: int, k: Chunk): Chunk
    requires k.task.Pushing? && k.task.e.Read? && k.phase.Reading? && P.Enabled(k.spool, P.Publish)
  {
    var published := k.(spool := P.Next(k.spool, P.Publish));
    if k.task.e.push.Refused? then published.(task := Free, phase := F.Failed(k.phase.attempt))
    else AfterRead(start, end, published.(pushed := k.pushed + |k.task.e.slice|), k.task.e.ending)
  }

  function AfterBody(start: int, end: int, k: Chunk, r: F.Event): Chunk
    requires k.phase.Reading? && k.spool.producer.Ready? && Possible(r)
  {
    if Kept(r) != [] then k.(task := Pushing(r), spool := P.Next(k.spool, P.FileWrite(Kept(r))))
    else if r.slice == [] then AfterRead(start, end, k, r.ending)
    else k.(phase := F.Failed(k.phase.attempt))
  }

  function AfterStop(k: Chunk): Chunk
    requires k.phase.Head? || k.phase.Failed?
  {
    k.(task := Ending(Some(if k.phase.Head? && k.phase.attempt >= F.MAX_CHUNK_ATTEMPTS then F.Exhausted else F.ContextDone)))
  }

  function AfterFinish(k: Chunk): Chunk
    requires k.task.Ending? && k.spool.producer.Ready?
  {
    k.(task := Free, phase := F.Finished(k.task.err), spool := P.Next(k.spool, P.Finish(k.task.err.Some?)))
  }

  function SetChunk(l: State, i: nat, k: Chunk): State
    requires i < |l.chunks|
  {
    l.(chunks := l.chunks[i := k])
  }

  /** Where the drain loop goes when drainTo of chunk i is in state s. */
  function AfterDrain(i: nat, n: nat, s: P.Spool): Turn {
    if !s.consumer.Returned? then At(i)
    else if s.consumer.result.Error? then Left(i)
    else if i + 1 < n then At(i + 1)
    else Through
  }

  /** Pushing tasks hold reads, and are met in a body. */
  predicate Sane(l: State) {
    forall i :: 0 <= i < |l.chunks| && l.chunks[i].task.Pushing? ==>
      Possible(l.chunks[i].task.e) && l.chunks[i].phase.Reading?
  }

  function Next(c: M.Cfg, l: State, e: Event): State
    requires c.Valid() && Shape(c, l) && Enabled(c, l, e) && Sane(l)
  {
    match e
    case Claim(w) =>
      var i := l.queue[0];
      l.(queue := l.queue[1..], workers := l.workers[w := M.Claimed(i)],
         chunks := l.chunks[i := l.chunks[i].(owner := Some(w))])
    case Leave(w) => l.(workers := l.workers[w := M.Exited(None)])
    case Check(w) =>
      var i := l.workers[w].idx;
      l.(workers := l.workers[w := if l.cancelled then M.Exited(Some(i)) else M.Fetching(i)])
    case Ask(w, reply) =>
      var i := l.workers[w].idx;
      var (k, a) := (l.chunks[i], l.chunks[i].phase.attempt);
      SetChunk(l, i, k.(phase := if F.Accepted(reply, c.ends[i]) then F.Reading(a, k.pushed) else F.Failed(a)))
    case Read(w, r) =>
      var i := l.workers[w].idx;
      SetChunk(l, i, AfterBody(c.starts[i], c.ends[i], l.chunks[i], r))
    case Publish(w) =>
      var i := l.workers[w].idx;
      SetChunk(l, i, AfterPublish(c.starts[i], c.ends[i], l.chunks[i]))
    case Retry(w) =>
      var i := l.workers[w].idx;
      SetChunk(l, i, l.chunks[i].(phase := F.Head(l.chunks[i].phase.attempt + 1)))
    case Stop(w) =>
      var i := l.workers[w].idx;
      SetChunk(l, i, AfterStop(l.chunks[i]))
    case Finish(w) =>
      var i := l.workers[w].idx;
      SetChunk(l.(workers := l.workers[w := M.Idle]), i, AfterFinish(l.chunks[i]))
    case Wake(i) => SetSpool(l, i, P.Next(l.chunks[i].spool, P.Broadcast))
    case Drain(d) =>
      var (i, s) := (l.turn.i, l.chunks[l.turn.i].spool);
      var t := P.Next(s, d);
      SetSpool(l, i, t).(client := l.client + Given(s, d), turn := AfterDrain(i, |l.chunks|, t))
    case Close(i) => SetSpool(l, i, P.Next(l.chunks[i].spool, P.Close))
    case CloseWake(i) => SetSpool(l, i, P.Next(l.chunks[i].spool, P.CloseBroadcast))
    case Disconnect => l.(cancelled := true)
    case Cancel => l.(cancelled := true)
  }

  function SetSpool(l: State, i: nat, s: P.Spool): State
    requires i < |l.chunks|
  {
    SetChunk(l, i, l.chunks[i].(spool := s))
  }

  /** What a step of drainTo gives the client. */
  function Given(s: P.Spool, d: P.Event): seq<byte>
    requires P.Enabled(s, d)
  {
    if d.Copy? then s.file[s.delivered..s.delivered + d.accepted] else []
  }

  // ----- the relation to the machine ----------------------------------------

  ghost predicate TaskRel(start: int, end: int, k: Chunk, cancelled: bool) {
    match k.task
    case Free => !k.spool.producer.Wrote?
    case Pushing(e) =>
      && Possible(e) && k.phase.Reading? && Kept(e) != []
      && k.spool.producer == P.Wrote(|Kept(e)|)
      && k.spool.written <= |k.spool.file| && k.spool.file[k.spool.written..] == Kept(e)
    case Ending(err) =>
      && !k.spool.producer.Wrote?
      && match err
         case None => k.phase.Reading? && k.pushed - k.phase.base == end - (start + k.phase.base) + 1
         case Some(Exhausted) => k.phase.Head? && k.phase.attempt >= F.MAX_CHUNK_ATTEMPTS
         case Some(ContextDone) => cancelled && (k.phase.Failed? || (k.phase.Head? && k.phase.attempt < F.MAX_CHUNK_ATTEMPTS))
  }

  ghost predicate ChunkRel(start: int, end: int, k: Chunk, m: M.Chunk, cancelled: bool) {
    && k.owner == m.owner && k.phase == m.fetch.phase && k.pushed == m.fetch.pushed
    && P.Inv(k.spool)
    && k.spool.written <= |k.spool.file| && k.spool.file[..k.spool.written] == m.fetch.data
    && (k.spool.done <==> k.phase.Finished?)
    && (k.spool.done ==> k.task.Free? && (k.spool.err <==> k.phase.err.Some?))
    && TaskRel(start, end, k, cancelled)
  }

  /** drainTo has not been called on this spool. */
  predicate Fresh(s: P.Spool) {
    s.consumer.Checking? && s.delivered == 0
  }

  ghost predicate TurnRel(l: State, s: M.State) {
    match l.turn
    case At(i) =>
      && i < |l.chunks|
      && s.drain == M.Draining(i, l.chunks[i].spool.delivered)
      && !l.chunks[i].spool.consumer.Returned?
      && (forall j :: i < j < |l.chunks| ==> Fresh(l.chunks[j].spool))
      && (forall j :: 0 <= j < |l.chunks| ==> l.chunks[j].spool.closer.Open?)
    case Through => s.drain.Completed?
    case Left(_) => s.drain.Broken?
  }

  ghost predicate Rel(c: M.Cfg, l: State, s: M.State)
    requires c.Valid()
  {
    && Shape(c, l) && M.Shape(c, s)
    && l.queue == s.queue && l.workers == s.workers && l.client == s.client && l.cancelled == s.cancelled
    && ChunksRel(c, l.chunks, s.chunks, l.cancelled)
    && TurnRel(l, s)
  }

  ghost predicate ChunksRel(c: M.Cfg, ks: seq<Chunk>, ms: seq<M.Chunk>, cancelled: bool)
    requires c.Valid()
  {
    && |ks| == |ms| == |c.starts|
    && forall i :: 0 <= i < |ks| ==> ChunkRel(c.starts[i], c.ends[i], ks[i], ms[i], cancelled)
  }

  lemma RelIsSane(c: M.Cfg, l: State, s: M.State)
    requires c.Valid() && Rel(c, l, s)
    ensures Sane(l)
  {
    forall i | 0 <= i < |l.chunks| && l.chunks[i].task.Pushing?
      ensures Possible(l.chunks[i].task.e) && l.chunks[i].phase.Reading?
    {
      assert ChunkRel(c.starts[i], c.ends[i], l.chunks[i], s.chunks[i], l.cancelled);
    }
  }

  // ----- one chunk ------------------------------------------------------------

  /** The machine's chunk after a step of its fetch. */
  function Stepped(start: int, end: int, m: M.Chunk, fe: F.Event): M.Chunk
    requires exists cancelled :: F.Enabled(m.fetch, fe, cancelled)
  {
    m.(fetch := F.Step(start, end, m.fetch, fe))
  }

  /** The chunk waits for bytes that are not needed: the end of this body completes it. */
  predicate Completes(start: int, end: int, k: Chunk, ending: F.Ending)
    requires k.phase.Reading?
  {
    ending.Eof? && k.pushed - k.phase.base == end - (start + k.phase.base) + 1
  }

  /** The fetch event a body read amounts to at once, if any. */
  function BodyEvent(start: int, end: int, k: Chunk, r: F.Event): Option<F.Event>
    requires k.phase.Reading? && Possible(r)
  {
    if Kept(r) != [] then None
    else if r.slice == [] && (r.ending.More? || Completes(start, end, k, r.ending)) then None
    else Some(r)
  }

  lemma BodyRel(start: int, end: int, k: Chunk, m: M.Chunk, cancelled: bool, r: F.Event)
    requires ChunkRel(start, end, k, m, cancelled) && k.task.Free? && k.phase.Reading? && k.spool.producer.Ready? && Possible(r)
    ensures var (j, fe) := (AfterBody(start, end, k, r), BodyEvent(start, end, k, r));
            if fe.None? then ChunkRel(start, end, j, m, cancelled)
            else F.Enabled(m.fetch, fe.value, cancelled) && ChunkRel(start, end, j, Stepped(start, end, m, fe.value), cancelled)
  {
    if Kept(r) != [] {
      P.StepKeepsInv(k.spool, P.FileWrite(Kept(r)));
      var t := P.Next(k.spool, P.FileWrite(Kept(r)));
      assert t.file[..t.written] == k.spool.file[..k.spool.written];
      assert t.file[t.written..] == Kept(r);
    } else if BodyEvent(start, end, k, r).Some? {
      assert F.Enabled(m.fetch, r, cancelled);
      assert m.fetch.data + Kept(r) == m.fetch.data;
    }
  }

  /** The fetch event that publishing a push amounts to; the finish of a completed body comes later. */
  function PublishEvent(start: int, end: int, k: Chunk): F.Event
    requires k.task.Pushing? && Possible(k.task.e) && k.phase.Reading?
  {
    var r := k.task.e;
    if r.push.Stored? && Completes(start, end, k.(pushed := k.pushed + |r.slice|), r.ending)
    then F.Read(r.slice, F.Stored, F.More) else r
  }

  lemma PublishRel(start: int, end: int, k: Chunk, m: M.Chunk, cancelled: bool)
    requires ChunkRel(start, end, k, m, cancelled) && k.task.Pushing? && P.Enabled(k.spool, P.Publish)
    ensures var fe := PublishEvent(start, end, k);
            F.Enabled(m.fetch, fe, cancelled)
            && ChunkRel(start, end, AfterPublish(start, end, k), Stepped(start, end, m, fe), cancelled)
  {
    var fe := PublishEvent(start, end, k);
    assert F.Enabled(m.fetch, fe, cancelled);
    P.StepKeepsInv(k.spool, P.Publish);
    var t := P.Next(k.spool, P.Publish);
    assert t.file[..t.written] == k.spool.file[..k.spool.written] + Kept(k.task.e) by {
      assert k.spool.file == k.spool.file[..k.spool.written] + k.spool.file[k.spool.written..];
    }
  }

  function FinishEvent(k: Chunk): F.Event
    requires k.task.Ending?
  {
    match k.task.err
    case None => F.Read([], F.Stored, F.Eof)
    case Some(Exhausted) => F.GiveUp
    case Some(ContextDone) => F.Abort
  }

  lemma FinishRel(start: int, end: int, k: Chunk, m: M.Chunk, cancelled: bool)
    requires ChunkRel(start, end, k, m, cancelled) && k.task.Ending? && k.spool.producer.Ready?
    ensures var fe := FinishEvent(k);
            F.Enabled(m.fetch, fe, cancelled)
            && ChunkRel(start, end, AfterFinish(k), Stepped(start, end, m, fe), cancelled)
            && F.Step(start, end, m.fetch, fe).phase.Finished?
  {
    var fe := FinishEvent(k);
    assert F.Enabled(m.fetch, fe, cancelled);
    P.StepKeepsInv(k.spool, P.Finish(k.task.err.Some?));
    assert m.fetch.data + [] == m.fetch.data;
  }

  /** Steps that leave the file, its published part and the fetch's result as they are. */
  ghost predicate SameStream(s: P.Spool, t: P.Spool) {
    && t.file == s.file && t.written == s.written && t.done == s.done && t.err == s.err
    && (t.producer.Wrote? <==> s.producer.Wrote?) && (s.producer.Wrote? ==> t.producer == s.producer)
  }

  lemma SpoolStepRel(start: int, end: int, k: Chunk, m: M.Chunk, cancelled: bool, e: P.Event)
    requires ChunkRel(start, end, k, m, cancelled) && P.Enabled(k.spool, e)
    requires !e.FileWrite? && !e.Publish? && !e.Finish?
    ensures ChunkRel(start, end, k.(spool := P.Next(k.spool, e)), m, cancelled)
  {
    P.StepKeepsInv(k.spool, e);
    assert SameStream(k.spool, P.Next(k.spool, e));
  }

  lemma CancelRel(start: int, end: int, k: Chunk, m: M.Chunk, cancelled: bool)
    requires ChunkRel(start, end, k, m, cancelled)
    ensures ChunkRel(start, end, k, m, true)
  {
  }
}
