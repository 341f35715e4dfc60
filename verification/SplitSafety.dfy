/** What the client of a split receives, over every run of the step machine. */
module SplitSafety {
  import opened Prelude
  import opened ChunkPlan
  import opened SplitMachine
  import F = Fetcher

  /** The events lead from s to t, each one possible when it happens. */
  ghost predicate Run(c: Cfg, s: State, events: seq<Event>, t: State)
    requires c.Valid()
    decreases |events|
  {
    if events == [] then s == t
    else Shape(c, s) && Enabled(c, s, events[0]) && Run(c, Next(c, s, events[0]), events[1..], t)
  }

  /** Every body byte read is the file's byte at the offset the request asked from. */
  ghost predicate HonestStep(c: Cfg, s: State, e: Event)
    requires c.Valid() && Shape(c, s) && Enabled(c, s, e)
  {
    e.Work? ==>
      var i := s.workers[e.w].idx;
      F.Honest(c.file, c.starts[i], s.chunks[i].fetch, e.e)
  }

  ghost predicate HonestRun(c: Cfg, s: State, events: seq<Event>)
    requires c.Valid()
    decreases |events|
  {
    events != [] && Shape(c, s) && Enabled(c, s, events[0]) ==>
      HonestStep(c, s, events[0]) && HonestRun(c, Next(c, s, events[0]), events[1..])
  }

  lemma {:induction false} RunKeepsInv(c: Cfg, s: State, events: seq<Event>, t: State)
    requires c.Valid() && Inv(c, s) && Run(c, s, events, t)
    ensures Inv(c, t)
    decreases |events|
  {
    if events != [] {
      StepKeepsInv(c, s, events[0]);
      RunKeepsInv(c, Next(c, s, events[0]), events[1..], t);
    }
  }

  // ----- contents of the spools -------------------------------------------

  /** The chunks of a plan over a file that has all the bytes asked for. */
  ghost predicate CutFrom(c: Cfg, p: Plan) {
    CutBy(c, p) && p.effEnd < |c.file|
  }

  /** The chunks of a plan, whatever the file. */
  ghost predicate CutBy(c: Cfg, p: Plan) {
    && c.Valid() && p.Valid()
    && |c.starts| == p.Count()
    && forall i: nat :: i < p.Count() ==> c.starts[i] == p.Start(i) && c.ends[i] == p.End(i)
  }

  /** Neighbouring chunks touch, and none has a negative length. */
  ghost predicate Tiled(c: Cfg) {
    c.Valid() && 0 <= c.starts[0] && forall k :: 0 <= k < |c.starts| ==> Adjacent(c, k)
  }

  /** The file has all the bytes besides. */
  ghost predicate Contiguous(c: Cfg) {
    Tiled(c) && c.ends[|c.ends| - 1] < |c.file|
  }

  ghost predicate Adjacent(c: Cfg, k: nat)
    requires k < |c.starts| == |c.ends|
  {
    c.Len(k) >= 0 && Offset(c, k + 1) == c.starts[k] + c.Len(k)
  }

  lemma PlanIsContiguous(c: Cfg, p: Plan)
    requires CutBy(c, p)
    ensures Tiled(c) && (CutFrom(c, p) ==> Contiguous(c))
    ensures c.starts[0] == p.effStart && c.ends[|c.ends| - 1] == p.effEnd
  {
    ChunksTile(p, 0);
    forall k: nat | k < p.Count() ensures Adjacent(c, k) {
      ChunksTile(p, k);
    }
  }

  /** The file offset at which chunk k begins; the end of the range for the chunk after the last. */
  function Offset(c: Cfg, k: nat): int
    requires |c.starts| == |c.ends| >= 1 && k <= |c.starts|
  {
    if k == |c.starts| then c.ends[k - 1] + 1 else c.starts[k]
  }

  lemma {:induction false} OffsetInFile(c: Cfg, k: nat)
    requires Contiguous(c) && k <= |c.starts|
    ensures c.starts[0] <= Offset(c, k) <= |c.file|
    ensures k < |c.starts| ==> Offset(c, k + 1) == c.starts[k] + c.Len(k)
    decreases |c.starts| - k
  {
    OffsetAbove(c, k);
    if k < |c.starts| {
      assert Adjacent(c, k);
      OffsetInFile(c, k + 1);
    }
  }

  lemma {:induction false} OffsetAbove(c: Cfg, k: nat)
    requires Contiguous(c) && k <= |c.starts|
    ensures c.starts[0] <= Offset(c, k)
  {
    if k > 0 {
      assert Adjacent(c, k - 1);
      OffsetAbove(c, k - 1);
    }
  }

  ghost predicate Faithful(c: Cfg, s: State)
    requires c.Valid() && Shape(c, s)
  {
    forall i :: 0 <= i < |s.chunks| ==> F.Faithful(c.file, c.starts[i], s.chunks[i].fetch)
  }

  lemma StepKeepsFaithful(c: Cfg, s: State, e: Event)
    requires c.Valid() && Shape(c, s) && FetchInv(c, s) && Faithful(c, s)
    requires Enabled(c, s, e) && HonestStep(c, s, e) && Shape(c, Next(c, s, e))
    ensures Faithful(c, Next(c, s, e))
  {
    if e.Work? {
      var i := s.workers[e.w].idx;
      F.StepKeepsFaithful(c.file, c.starts[i], c.ends[i], s.chunks[i].fetch, e.e, s.cancelled);
    }
  }

  lemma {:induction false} RunKeepsFaithful(c: Cfg, s: State, events: seq<Event>, t: State)
    requires c.Valid() && Inv(c, s) && Run(c, s, events, t)
    requires Faithful(c, s) && HonestRun(c, s, events)
    ensures Inv(c, t) && Faithful(c, t)
    decreases |events|
  {
    if events != [] {
      StepKeepsInv(c, s, events[0]);
      StepKeepsFaithful(c, s, events[0]);
      RunKeepsFaithful(c, Next(c, s, events[0]), events[1..], t);
    }
  }

  /** Bytes that refused pushes left in the first k spools. */
  function Stray(chunks: seq<Chunk>, k: nat): nat
    requires k <= |chunks|
  {
    if k == 0 then 0 else Stray(chunks, k - 1) + chunks[k - 1].fetch.stray
  }

  lemma {:induction false} JoinedLength(c: Cfg, s: State, k: nat)
    requires Tiled(c) && Shape(c, s) && FetchInv(c, s) && k <= |s.chunks|
    requires forall j :: 0 <= j < k ==> Clean(s.chunks[j])
    ensures |Joined(s.chunks, k)| == Offset(c, k) - c.starts[0] + Stray(s.chunks, k)
  {
    if k > 0 {
      assert Adjacent(c, k - 1);
      JoinedLength(c, s, k - 1);
      assert F.Inv(c.Len(k - 1), s.chunks[k - 1].fetch);
    }
  }

  lemma SlicesJoin(file: seq<byte>, a: int, b: int, d: int)
    requires 0 <= a <= b <= d <= |file|
    ensures file[a..b] + file[b..d] == file[a..d]
    ensures file[a..d] <= file[a..]
  {
  }

  /** Spool j holds its chunk's part of the file. */
  ghost predicate HasSlice(c: Cfg, chunks: seq<Chunk>, j: nat)
    requires j < |chunks| == |c.starts| == |c.ends|
  {
    && 0 <= Offset(c, j) <= Offset(c, j + 1) <= |c.file|
    && chunks[j].fetch.data == c.file[Offset(c, j)..Offset(c, j + 1)]
  }

  lemma CleanHasSlice(c: Cfg, s: State, j: nat)
    requires Contiguous(c) && Shape(c, s) && j < |s.chunks|
    requires F.Inv(c.Len(j), s.chunks[j].fetch) && F.Faithful(c.file, c.starts[j], s.chunks[j].fetch)
    requires Clean(s.chunks[j]) && s.chunks[j].fetch.stray == 0
    ensures HasSlice(c, s.chunks, j)
  {
    OffsetInFile(c, j);
    OffsetInFile(c, j + 1);
  }

  lemma {:induction false} StrayNone(chunks: seq<Chunk>, k: nat, j: nat)
    requires j < k <= |chunks| && Stray(chunks, k) == 0
    ensures chunks[j].fetch.stray == 0
  {
    if j < k - 1 {
      StrayNone(chunks, k - 1, j);
    }
  }

  lemma {:induction false} SlicesMakeRange(c: Cfg, chunks: seq<Chunk>, k: nat)
    requires Contiguous(c) && k <= |chunks| == |c.starts|
    requires forall j :: 0 <= j < k ==> HasSlice(c, chunks, j)
    ensures c.starts[0] <= Offset(c, k) <= |c.file|
    ensures Joined(chunks, k) == c.file[c.starts[0]..Offset(c, k)]
  {
    OffsetInFile(c, k);
    if k > 0 {
      SlicesMakeRange(c, chunks, k - 1);
      assert HasSlice(c, chunks, k - 1);
      SlicesJoin(c.file, c.starts[0], Offset(c, k - 1), Offset(c, k));
    }
  }

  lemma JoinedBytes(c: Cfg, s: State, k: nat)
    requires Contiguous(c) && Shape(c, s) && FetchInv(c, s) && Faithful(c, s) && k <= |s.chunks|
    requires forall j :: 0 <= j < k ==> Clean(s.chunks[j])
    requires Stray(s.chunks, k) == 0
    ensures 0 <= c.starts[0] <= Offset(c, k) <= |c.file|
    ensures Joined(s.chunks, k) == c.file[c.starts[0]..Offset(c, k)]
  {
    forall j | 0 <= j < k ensures HasSlice(c, s.chunks, j) {
      StrayNone(s.chunks, k, j);
      CleanHasSlice(c, s, j);
    }
    SlicesMakeRange(c, s.chunks, k);
  }

  /** The drainer has not yet reached a spool with stray bytes. */
  ghost predicate NoStrayDrained(s: State)
    requires s.drain.Completed? || s.drain.idx < |s.chunks|
  {
    if s.drain.Completed? then Stray(s.chunks, |s.chunks|) == 0
    else Stray(s.chunks, s.drain.idx) == 0 && s.chunks[s.drain.idx].fetch.stray == 0
  }

  /**
   * In every interleaving of workers, retries, short, failing and over-long bodies,
   * drain reads and cancellations, the client has been given a prefix of the file
   * from effStart on, as long as no refused push left bytes in a spool drained so far.
   */
  lemma ClientSeesPrefix(c: Cfg, p: Plan, events: seq<Event>, t: State)
    requires CutFrom(c, p) && Run(c, Init(c), events, t) && HonestRun(c, Init(c), events)
    ensures Inv(c, t)
    ensures NoStrayDrained(t) ==> t.client <= c.file[p.effStart..]
  {
    PlanIsContiguous(c, p);
    HonestRunState(c, events, t);
    if NoStrayDrained(t) {
      StatePrefix(c, t);
    }
  }

  lemma HonestRunState(c: Cfg, events: seq<Event>, t: State)
    requires Contiguous(c) && Run(c, Init(c), events, t) && HonestRun(c, Init(c), events)
    ensures Inv(c, t) && Faithful(c, t)
  {
    InitInv(c);
    InitFaithful(c);
    RunKeepsFaithful(c, Init(c), events, t);
  }

  lemma StatePrefix(c: Cfg, t: State)
    requires Contiguous(c) && Inv(c, t) && Faithful(c, t) && NoStrayDrained(t)
    ensures 0 <= c.starts[0] <= |c.file| && t.client <= c.file[c.starts[0]..]
  {
    match t.drain
    case Completed =>
      JoinedBytes(c, t, |t.chunks|);
      SlicesJoin(c.file, c.starts[0], c.starts[0], Offset(c, |t.chunks|));
    case Draining(i, off) => DrainedPrefix(c, t, i, off);
    case Broken(i, off) => DrainedPrefix(c, t, i, off);
  }

  lemma InitFaithful(c: Cfg)
    requires Contiguous(c)
    ensures Faithful(c, Init(c))
  {
    forall i: nat | i < |c.starts| ensures F.Faithful(c.file, c.starts[i], F.INIT) {
      OffsetInFile(c, i);
    }
  }

  lemma DrainedPrefix(c: Cfg, t: State, i: nat, off: nat)
    requires Contiguous(c) && Shape(c, t) && FetchInv(c, t) && Faithful(c, t) && DrainedTo(t, i, off)
    requires Stray(t.chunks, i) == 0 && t.chunks[i].fetch.stray == 0
    ensures 0 <= c.starts[0] <= |c.file| && t.client <= c.file[c.starts[0]..]
  {
    JoinedBytes(c, t, i);
    var (start, from) := (c.starts[0], Offset(c, i));
    assert F.Faithful(c.file, c.starts[i], t.chunks[i].fetch);
    SliceHead(c.file, from, t.chunks[i].fetch.data, off);
    SlicesJoin(c.file, start, from, from + off);
  }

  lemma SliceHead(file: seq<byte>, from: int, data: seq<byte>, off: nat)
    requires 0 <= from && from + |data| <= |file| && data == file[from..from + |data|] && off <= |data|
    ensures data[..off] == file[from..from + off]
  {
  }

  /**
   * A drain that ended without an error delivered the size of the range plus the
   * stray bytes, whatever the server sent: the byte counts disagree (the MISMATCH
   * branch) exactly when some refused push left bytes in a spool.
   */
  lemma MismatchIffStrayBytes(c: Cfg, p: Plan, events: seq<Event>, t: State)
    requires CutBy(c, p) && Run(c, Init(c), events, t) && t.drain.Completed?
    ensures |t.client| == p.Size() + Stray(t.chunks, |t.chunks|)
    ensures |t.client| != p.Size() <==> exists i :: 0 <= i < |t.chunks| && t.chunks[i].fetch.stray > 0
  {
    PlanIsContiguous(c, p);
    InitInv(c);
    RunKeepsInv(c, Init(c), events, t);
    JoinedLength(c, t, |t.chunks|);
    StrayZero(t.chunks, |t.chunks|);
  }

  lemma {:induction false} StrayZero(chunks: seq<Chunk>, k: nat)
    requires k <= |chunks|
    ensures Stray(chunks, k) > 0 <==> exists i :: 0 <= i < k && chunks[i].fetch.stray > 0
  {
    if k > 0 {
      StrayZero(chunks, k - 1);
    }
  }

  lemma CompletedState(c: Cfg, t: State)
    requires Contiguous(c) && Inv(c, t) && Faithful(c, t) && t.drain.Completed?
    ensures |t.client| == Offset(c, |t.chunks|) - c.starts[0] + Stray(t.chunks, |t.chunks|)
    ensures 0 <= c.starts[0] <= Offset(c, |t.chunks|) <= |c.file|
    ensures t.client == c.file[c.starts[0]..Offset(c, |t.chunks|)] <==> Stray(t.chunks, |t.chunks|) == 0
  {
    JoinedLength(c, t, |t.chunks|);
    OffsetInFile(c, |t.chunks|);
    if Stray(t.chunks, |t.chunks|) == 0 {
      JoinedBytes(c, t, |t.chunks|);
    }
  }

  /** With honest bodies the completed download is the range asked for, byte for byte, exactly when there are no stray bytes. */
  lemma CompletedIsExact(c: Cfg, p: Plan, events: seq<Event>, t: State)
    requires CutFrom(c, p) && Run(c, Init(c), events, t) && t.drain.Completed?
    requires HonestRun(c, Init(c), events)
    ensures t.client == c.file[p.effStart..p.effEnd + 1] <==> Stray(t.chunks, |t.chunks|) == 0
  {
    PlanIsContiguous(c, p);
    HonestRunState(c, events, t);
    CompletedState(c, t);
  }

  // ----- pushes that store all of a slice or nothing --------------------------

  ghost predicate WholePush(e: Event) {
    e.Work? && e.e.Read? && e.e.push.Refused? ==> e.e.push.kept == 0
  }

  ghost predicate WholePushes(events: seq<Event>) {
    forall k :: 0 <= k < |events| ==> WholePush(events[k])
  }

  ghost predicate NoStray(s: State) {
    forall i :: 0 <= i < |s.chunks| ==> s.chunks[i].fetch.stray == 0
  }

  lemma {:induction false} WholePushesLeaveNoStray(c: Cfg, s: State, events: seq<Event>, t: State)
    requires c.Valid() && Run(c, s, events, t) && WholePushes(events) && NoStray(s)
    ensures NoStray(t)
    decreases |events|
  {
    if events != [] {
      assert WholePush(events[0]);
      WholePushesLeaveNoStray(c, Next(c, s, events[0]), events[1..], t);
    }
  }

  /**
   * If every push stores all of its slice or nothing, the client of an honest run has
   * a prefix of the file from effStart on at every moment, and a completed download
   * is the range byte for byte.
   */
  lemma WholePushesGiveTheFile(c: Cfg, p: Plan, events: seq<Event>, t: State)
    requires CutFrom(c, p) && Run(c, Init(c), events, t) && HonestRun(c, Init(c), events) && WholePushes(events)
    ensures t.client <= c.file[p.effStart..]
    ensures t.drain.Completed? ==> t.client == c.file[p.effStart..p.effEnd + 1]
  {
    WholePushesLeaveNoStray(c, Init(c), events, t);
    StrayZero(t.chunks, |t.chunks|);
    ClientSeesPrefix(c, p, events, t);
    if t.drain.Completed? {
      CompletedIsExact(c, p, events, t);
    } else {
      StrayZero(t.chunks, t.drain.idx);
    }
  }

  // ----- a range that runs past the file ------------------------------------

  ghost predicate AllInFile(c: Cfg, s: State)
    requires c.Valid() && Shape(c, s)
  {
    forall i :: 0 <= i < |s.chunks| ==> F.InFile(c.file, c.starts[i], s.chunks[i].fetch)
  }

  lemma StepKeepsInFile(c: Cfg, s: State, e: Event)
    requires c.Valid() && Shape(c, s) && AllInFile(c, s)
    requires Enabled(c, s, e) && HonestStep(c, s, e) && Shape(c, Next(c, s, e))
    ensures AllInFile(c, Next(c, s, e))
  {
    if e.Work? {
      var i := s.workers[e.w].idx;
      F.StepKeepsInFile(c.file, c.starts[i], c.ends[i], s.chunks[i].fetch, e.e, s.cancelled);
    }
  }

  lemma {:induction false} RunKeepsInFile(c: Cfg, s: State, events: seq<Event>, t: State)
    requires c.Valid() && Inv(c, s) && Run(c, s, events, t) && AllInFile(c, s) && HonestRun(c, s, events)
    ensures Inv(c, t) && AllInFile(c, t)
    decreases |events|
  {
    if events != [] {
      StepKeepsInv(c, s, events[0]);
      StepKeepsInFile(c, s, events[0]);
      RunKeepsInFile(c, Next(c, s, events[0]), events[1..], t);
    }
  }

  /** With honest bodies no split of a range that runs past the file completes, stray bytes or not. */
  lemma CompletedIsInFile(c: Cfg, p: Plan, events: seq<Event>, t: State)
    requires CutBy(c, p) && Run(c, Init(c), events, t) && HonestRun(c, Init(c), events) && t.drain.Completed?
    ensures p.effEnd < |c.file|
  {
    InitInv(c);
    RunKeepsInFile(c, Init(c), events, t);
    var k: nat := p.Count() - 1;
    assert c.starts[k] == p.Start(k) && c.ends[k] == p.End(k);
    LastChunkInFile(c, t, k);
  }

  lemma LastChunkInFile(c: Cfg, t: State, k: nat)
    requires c.Valid() && Inv(c, t) && AllInFile(c, t) && t.drain.Completed? && k < |t.chunks|
    ensures c.ends[k] < |c.file|
  {
    assert Clean(t.chunks[k]) && F.Inv(c.Len(k), t.chunks[k].fetch);
    assert F.InFile(c.file, c.starts[k], t.chunks[k].fetch);
  }

  // ----- a client that refuses more than was announced -----------------------

  /** A write that would take the client beyond the limit is refused as a whole. */
  ghost predicate WithinLimit(s: State, e: Event, limit: nat) {
    e.Write? && |s.client| + e.n > limit ==> e.failed && e.accepted == 0
  }

  ghost predicate LimitedRun(c: Cfg, s: State, events: seq<Event>, limit: nat)
    requires c.Valid()
    decreases |events|
  {
    events != [] && Shape(c, s) && Enabled(c, s, events[0]) ==>
      WithinLimit(s, events[0], limit) && LimitedRun(c, Next(c, s, events[0]), events[1..], limit)
  }

  lemma {:induction false} LimitHolds(c: Cfg, s: State, events: seq<Event>, t: State, limit: nat)
    requires c.Valid() && Run(c, s, events, t) && LimitedRun(c, s, events, limit) && |s.client| <= limit
    ensures |t.client| <= limit
    decreases |events|
  {
    if events != [] {
      LimitHolds(c, Next(c, s, events[0]), events[1..], t, limit);
    }
  }

  /**
   * A client that takes no more than Content-Length announced never sees a split
   * complete with stray bytes: whatever the server sends, the MISMATCH branch is
   * dead, and a completed download with honest bodies is the range byte for byte.
   */
  lemma LimitedClientNeverMismatches(c: Cfg, p: Plan, events: seq<Event>, t: State)
    requires CutBy(c, p) && Run(c, Init(c), events, t) && LimitedRun(c, Init(c), events, p.Size())
    ensures |t.client| <= p.Size()
    ensures t.drain.Completed? ==> |t.client| == p.Size() && Stray(t.chunks, |t.chunks|) == 0
    ensures t.drain.Completed? && HonestRun(c, Init(c), events) ==>
              p.effEnd < |c.file| && t.client == c.file[p.effStart..p.effEnd + 1]
  {
    LimitHolds(c, Init(c), events, t, p.Size());
    if t.drain.Completed? {
      MismatchIffStrayBytes(c, p, events, t);
      if HonestRun(c, Init(c), events) {
        CompletedIsInFile(c, p, events, t);
        CompletedIsExact(c, p, events, t);
      }
    }
  }
}
