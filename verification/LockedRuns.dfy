/** What the machine's theorems say about every run of the split at the granularity of its locks. */
module LockedRuns {
  import opened Prelude
  import opened ChunkPlan
  import opened LockedSplit
  import opened LockedSimulation
  import F = Fetcher
  import M = SplitMachine
  import S = SplitSafety
  import P = SpoolProtocol

  /** A pushed read is always one that can happen, so Sane restricts nothing: FromInit shows it of every state reached. */
  ghost predicate Run(c: M.Cfg, l: State, events: seq<Event>, l': State)
    requires c.Valid()
    decreases |events|
  {
    if events == [] then l == l'
    else Shape(c, l) && Enabled(c, l, events[0]) && Sane(l) && Run(c, Next(c, l, events[0]), events[1..], l')
  }

  /**
   * Conditions a run may meet: bodies carry the file's bytes from the offset asked
   * for; pushes store all or nothing; the client takes no more than a limit.
   */
  datatype Terms = Terms(honest: bool, whole: bool, limit: Option<nat>)

  predicate BytesAt(file: seq<byte>, at: int, slice: seq<byte>) {
    0 <= at && at + |slice| <= |file| && slice == file[at..at + |slice|]
  }

  predicate WholeRead(r: F.Event) {
    r.Read? && r.push.Refused? ==> r.push.kept == 0
  }

  ghost predicate Meets(c: M.Cfg, l: State, e: Event, terms: Terms)
    requires c.Valid() && Shape(c, l) && Enabled(c, l, e)
  {
    && (terms.honest && e.Read? ==>
          var i := l.workers[e.w].idx;
          BytesAt(c.file, c.starts[i] + l.chunks[i].pushed, e.e.slice))
    && (terms.whole && e.Read? ==> WholeRead(e.e))
    && (terms.limit.Some? && e.Drain? && e.d.Copy? && |l.client| + e.d.n > terms.limit.value ==>
          e.d.failed && e.d.accepted == 0)
  }

  ghost predicate RunMeets(c: M.Cfg, l: State, events: seq<Event>, terms: Terms)
    requires c.Valid()
    decreases |events|
  {
    events != [] && Shape(c, l) && Enabled(c, l, events[0]) && Sane(l) ==>
      Meets(c, l, events[0], terms) && RunMeets(c, Next(c, l, events[0]), events[1..], terms)
  }

  /** The same conditions on the machine's side. */
  ghost predicate MachineMeets(c: M.Cfg, s: M.State, e: M.Event, terms: Terms)
    requires c.Valid() && M.Shape(c, s) && M.Enabled(c, s, e)
  {
    && (terms.honest ==> S.HonestStep(c, s, e))
    && (terms.whole ==> S.WholePush(e))
    && (terms.limit.Some? ==> S.WithinLimit(s, e, terms.limit.value))
  }

  /** What a fetcher holds between its read and its push or finish meets the conditions too. */
  ghost predicate TaskMeets(c: M.Cfg, start: int, k: Chunk, terms: Terms) {
    match k.task
    case Free => true
    case Pushing(r) => (terms.honest && r.Read? ==> BytesAt(c.file, start + k.pushed, r.slice)) && (terms.whole ==> WholeRead(r))
    case Ending(err) => terms.honest && err.None? ==> 0 <= start + k.pushed <= |c.file|
  }

  ghost predicate TasksMeet(c: M.Cfg, l: State, terms: Terms)
    requires c.Valid() && Shape(c, l)
  {
    forall i :: 0 <= i < |l.chunks| ==> TaskMeets(c, c.starts[i], l.chunks[i], terms)
  }

  ghost predicate FetchEventMeets(c: M.Cfg, start: int, f: F.Fetch, fe: F.Event, terms: Terms) {
    (terms.honest ==> F.Honest(c.file, start, f, fe)) && (terms.whole ==> WholeRead(fe))
  }

  lemma BodyMeets(c: M.Cfg, start: int, end: int, k: Chunk, f: F.Fetch, r: F.Event, terms: Terms)
    requires k.phase.Reading? && k.spool.producer.Ready? && Possible(r) && k.task.Free? && f.pushed == k.pushed
    requires terms.honest ==> BytesAt(c.file, start + k.pushed, r.slice)
    requires terms.whole ==> WholeRead(r)
    ensures TaskMeets(c, start, AfterBody(start, end, k, r), terms)
    ensures var fe := BodyEvent(start, end, k, r); fe.Some? ==> FetchEventMeets(c, start, f, fe.value, terms)
  {
  }

  lemma PublishMeets(c: M.Cfg, start: int, end: int, k: Chunk, f: F.Fetch, terms: Terms)
    requires k.task.Pushing? && Possible(k.task.e) && k.phase.Reading? && P.Enabled(k.spool, P.Publish)
    requires f.pushed == k.pushed && TaskMeets(c, start, k, terms)
    ensures TaskMeets(c, start, AfterPublish(start, end, k), terms)
    ensures FetchEventMeets(c, start, f, PublishEvent(start, end, k), terms)
  {
  }

  lemma FinishMeets(c: M.Cfg, start: int, k: Chunk, f: F.Fetch, terms: Terms)
    requires k.task.Ending? && k.spool.producer.Ready? && f.pushed == k.pushed && TaskMeets(c, start, k, terms)
    ensures TaskMeets(c, start, AfterFinish(k), terms) && FetchEventMeets(c, start, f, FinishEvent(k), terms)
  {
  }

  lemma WorkMeets(c: M.Cfg, s: M.State, w: nat, fe: F.Event, terms: Terms)
    requires c.Valid() && M.Shape(c, s) && M.Enabled(c, s, M.Work(w, fe))
    requires var i := s.workers[w].idx; FetchEventMeets(c, c.starts[i], s.chunks[i].fetch, fe, terms)
    ensures MachineMeets(c, s, M.Work(w, fe), terms)
  {
  }

  lemma OneTaskMoves(c: M.Cfg, l: State, l': State, i: nat, terms: Terms)
    requires c.Valid() && Shape(c, l) && Shape(c, l') && TasksMeet(c, l, terms) && i < |l.chunks|
    requires l'.chunks == l.chunks[i := l'.chunks[i]] && TaskMeets(c, c.starts[i], l'.chunks[i], terms)
    ensures TasksMeet(c, l', terms)
  {
  }

  /** The image is a step of the machine, and the state after is well formed. */
  ghost predicate Matched(c: M.Cfg, l: State, s: M.State, e: Event)
    requires c.Valid() && Shape(c, l) && M.Shape(c, s) && Enabled(c, l, e) && Sane(l)
  {
    (var image := Image(c, l, e); image.Some? ==> M.Enabled(c, s, image.value)) && Shape(c, Next(c, l, e))
  }

  lemma FetchMeets(c: M.Cfg, l: State, s: M.State, e: Event, terms: Terms)
    requires c.Valid() && Rel(c, l, s) && Enabled(c, l, e) && Sane(l) && Matched(c, l, s, e)
    requires e.Read? || e.Publish? || e.Finish?
    requires Meets(c, l, e, terms) && TasksMeet(c, l, terms)
    ensures TasksMeet(c, Next(c, l, e), terms)
    ensures var image := Image(c, l, e); image.Some? ==> MachineMeets(c, s, image.value, terms)
  {
    var w := e.w;
    var i := l.workers[w].idx;
    var (start, end, k, f) := (c.starts[i], c.ends[i], l.chunks[i], s.chunks[i].fetch);
    assert ChunkRel(start, end, k, s.chunks[i], l.cancelled);
    assert TaskMeets(c, start, k, terms);
    match e {
      case Read(_, r) =>
        BodyMeets(c, start, end, k, f, r, terms);
      case Publish(_) =>
        PublishMeets(c, start, end, k, f, terms);
      case Finish(_) =>
        FinishMeets(c, start, k, f, terms);
    }
    var image := Image(c, l, e);
    if image.Some? {
      WorkMeets(c, s, w, image.value.e, terms);
    }
    OneTaskMoves(c, l, Next(c, l, e), i, terms);
  }

  lemma OtherMeets(c: M.Cfg, l: State, s: M.State, e: Event, terms: Terms)
    requires c.Valid() && Rel(c, l, s) && Enabled(c, l, e) && Sane(l) && Matched(c, l, s, e)
    requires !e.Read? && !e.Publish? && !e.Finish?
    requires Meets(c, l, e, terms)
    ensures var image := Image(c, l, e); image.Some? ==> MachineMeets(c, s, image.value, terms)
  {
  }

  /** Steps other than reads, pushes and finishes leave tasks alone, or stop a fetch. */
  lemma OtherTasks(c: M.Cfg, l: State, e: Event, terms: Terms)
    requires c.Valid() && Shape(c, l) && Enabled(c, l, e) && Sane(l) && Shape(c, Next(c, l, e))
    requires !e.Read? && !e.Publish? && !e.Finish? && TasksMeet(c, l, terms)
    ensures TasksMeet(c, Next(c, l, e), terms)
  {
    var l' := Next(c, l, e);
    forall i | 0 <= i < |l'.chunks| ensures TaskMeets(c, c.starts[i], l'.chunks[i], terms) {
      assert TaskMeets(c, c.starts[i], l.chunks[i], terms);
    }
  }

  lemma StepMeets(c: M.Cfg, l: State, s: M.State, e: Event, terms: Terms)
    requires c.Valid() && Rel(c, l, s) && Enabled(c, l, e) && Sane(l) && Matched(c, l, s, e)
    requires Meets(c, l, e, terms) && TasksMeet(c, l, terms)
    ensures TasksMeet(c, Next(c, l, e), terms)
    ensures var image := Image(c, l, e); image.Some? ==> MachineMeets(c, s, image.value, terms)
  {
    if e.Read? || e.Publish? || e.Finish? {
      FetchMeets(c, l, s, e, terms);
    } else {
      OtherMeets(c, l, s, e, terms);
      OtherTasks(c, l, e, terms);
    }
  }

  lemma InitRel(c: M.Cfg)
    requires c.Valid()
    ensures Rel(c, Init(c), M.Init(c)) && M.Inv(c, M.Init(c))
  {
    M.InitInv(c);
  }

  ghost predicate MachineRunMeets(c: M.Cfg, s: M.State, events: seq<M.Event>, terms: Terms)
    requires c.Valid()
  {
    && (terms.honest ==> S.HonestRun(c, s, events))
    && (terms.whole ==> S.WholePushes(events))
    && (terms.limit.Some? ==> S.LimitedRun(c, s, events, terms.limit.value))
  }

  lemma MeetsCons(c: M.Cfg, s: M.State, e: M.Event, rest: seq<M.Event>, t: M.State, terms: Terms)
    requires c.Valid() && M.Shape(c, s) && M.Enabled(c, s, e) && MachineMeets(c, s, e, terms)
    requires S.Run(c, M.Next(c, s, e), rest, t) && MachineRunMeets(c, M.Next(c, s, e), rest, terms)
    ensures S.Run(c, s, [e] + rest, t) && MachineRunMeets(c, s, [e] + rest, terms)
  {
    var all := [e] + rest;
    assert all[0] == e && all[1..] == rest;
  }

  /** Every run of the locked split is a run of the machine that meets the same conditions and has the same client. */
  lemma {:induction false} RunFollows(c: M.Cfg, l: State, s: M.State, events: seq<Event>, l': State, terms: Terms)
    returns (image: seq<M.Event>, t: M.State)
    requires c.Valid() && Rel(c, l, s) && M.Inv(c, s) && Run(c, l, events, l')
    requires TasksMeet(c, l, terms) && RunMeets(c, l, events, terms)
    ensures S.Run(c, s, image, t) && MachineRunMeets(c, s, image, terms)
    ensures Rel(c, l', t) && M.Inv(c, t)
    decreases |events|
  {
    if events == [] {
      image, t := [], s;
    } else {
      image, t := StepThenRun(c, l, s, events, l', terms);
    }
  }

  lemma {:induction false} StepThenRun(c: M.Cfg, l: State, s: M.State, events: seq<Event>, l': State, terms: Terms)
    returns (image: seq<M.Event>, t: M.State)
    requires c.Valid() && Rel(c, l, s) && M.Inv(c, s) && Run(c, l, events, l') && events != []
    requires TasksMeet(c, l, terms) && RunMeets(c, l, events, terms)
    ensures S.Run(c, s, image, t) && MachineRunMeets(c, s, image, terms)
    ensures Rel(c, l', t) && M.Inv(c, t)
    decreases |events|, 0
  {
    var e := events[0];
    StepSimulated(c, l, s, e);
    StepMeets(c, l, s, e, terms);
    var first := Image(c, l, e);
    if first.None? {
      image, t := RunFollows(c, Next(c, l, e), s, events[1..], l', terms);
    } else {
      var u := M.Next(c, s, first.value);
      M.StepKeepsInv(c, s, first.value);
      image, t := RunFollows(c, Next(c, l, e), u, events[1..], l', terms);
      MeetsCons(c, s, first.value, image, t, terms);
      image := [first.value] + image;
    }
  }

  lemma FromInit(c: M.Cfg, events: seq<Event>, l: State, terms: Terms) returns (image: seq<M.Event>, t: M.State)
    requires c.Valid() && Run(c, Init(c), events, l) && RunMeets(c, Init(c), events, terms)
    ensures S.Run(c, M.Init(c), image, t) && MachineRunMeets(c, M.Init(c), image, terms)
    ensures Rel(c, l, t) && M.Inv(c, t) && Sane(l)
  {
    InitRel(c);
    image, t := RunFollows(c, Init(c), M.Init(c), events, l, terms);
    RelIsSane(c, l, t);
  }

  /** A run need not meet anything. */
  lemma {:induction false} AnyRunMeets(c: M.Cfg, l: State, events: seq<Event>)
    requires c.Valid()
    ensures RunMeets(c, l, events, Terms(false, false, None))
    decreases |events|
  {
    if events != [] && Shape(c, l) && Enabled(c, l, events[0]) && Sane(l) {
      AnyRunMeets(c, Next(c, l, events[0]), events[1..]);
    }
  }

  lemma SleepingChunk(start: int, end: int, k: Chunk, m: M.Chunk, cancelled: bool)
    requires ChunkRel(start, end, k, m, cancelled) && k.spool.consumer.Asleep? && k.spool.closer.Open?
    requires k.spool.producer.Ready? || k.spool.producer.Over?
    ensures k.spool.out == k.spool.file && !k.phase.Finished?
  {
    assert P.NoLostWakeup(k.spool) && k.spool.file[..|k.spool.file|] == k.spool.file;
  }

  /**
   * A drainer asleep with no broadcast on its way has given the client all that is
   * published of its chunk, and that chunk's fetch is not finished.
   */
  lemma SleepIsJustified(c: M.Cfg, events: seq<Event>, l: State)
    requires c.Valid() && Run(c, Init(c), events, l) && l.turn.At? && Shape(c, l)
    requires var k := l.chunks[l.turn.i]; k.spool.consumer.Asleep? && (k.spool.producer.Ready? || k.spool.producer.Over?)
    ensures var k := l.chunks[l.turn.i]; k.spool.out == k.spool.file && !k.phase.Finished?
  {
    AnyRunMeets(c, Init(c), events);
    var image, t := FromInit(c, events, l, Terms(false, false, None));
    var i := l.turn.i;
    assert l.chunks[i].spool.closer.Open?;
    SleepingChunk(c.starts[i], c.ends[i], l.chunks[i], t.chunks[i], l.cancelled);
  }

  // ----- the download ----------------------------------------------------------

  /**
   * When the drain loop of a split with honest bodies has gone through all chunks,
   * the range lay inside the file, the client has at least as many bytes as were
   * announced, and exactly the range if and only if it has no more.
   */
  lemma ThroughIsExact(c: M.Cfg, p: Plan, events: seq<Event>, l: State)
    requires S.CutBy(c, p) && Run(c, Init(c), events, l) && l.turn.Through?
    requires RunMeets(c, Init(c), events, Terms(true, false, None))
    ensures p.effEnd < |c.file| && |l.client| >= p.Size()
    ensures l.client == c.file[p.effStart..p.effEnd + 1] <==> |l.client| == p.Size()
  {
    var image, t := FromInit(c, events, l, Terms(true, false, None));
    S.CompletedIsInFile(c, p, image, t);
    S.CompletedIsExact(c, p, image, t);
    S.MismatchIffStrayBytes(c, p, image, t);
  }

  /** With a client that takes no more than was announced, such a split has delivered the range. */
  lemma LimitedThroughIsExact(c: M.Cfg, p: Plan, events: seq<Event>, l: State)
    requires S.CutBy(c, p) && Run(c, Init(c), events, l)
    requires p.Size() >= 0 && RunMeets(c, Init(c), events, Terms(true, false, Some(p.Size())))
    ensures |l.client| <= p.Size()
    ensures l.turn.Through? ==> p.effEnd < |c.file| && l.client == c.file[p.effStart..p.effEnd + 1]
  {
    var image, t := FromInit(c, events, l, Terms(true, false, Some(p.Size())));
    S.LimitedClientNeverMismatches(c, p, image, t);
  }

  /**
   * With pushes that store all or nothing the client has, in every interleaving of
   * critical sections, file operations and broadcasts and at every moment, a prefix
   * of the file from effStart on, and the whole range at the end.
   */
  lemma WholePushesGiveTheFile(c: M.Cfg, p: Plan, events: seq<Event>, l: State)
    requires S.CutFrom(c, p) && Run(c, Init(c), events, l)
    requires RunMeets(c, Init(c), events, Terms(true, true, None))
    ensures l.client <= c.file[p.effStart..]
    ensures l.turn.Through? ==> l.client == c.file[p.effStart..p.effEnd + 1]
  {
    var image, t := FromInit(c, events, l, Terms(true, true, None));
    S.WholePushesGiveTheFile(c, p, image, t);
  }
}
