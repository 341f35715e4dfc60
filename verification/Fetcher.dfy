/**
 * The fetch of one chunk, as atomic steps: fetchChunk with its retries around
 * fetchChunkOnce. The server, the network and the spool's disk choose the events.
 */
module Fetcher {
  import opened Prelude
  import ContentRange

  const MAX_CHUNK_ATTEMPTS: nat := 5
  const READ_SLICE_SIZE: nat := 64 * 1024

  /** The terminal errors a chunk can end with. */
  datatype Failure = ContextDone | Exhausted

  /** The outcome of one push: the whole slice reached the spool, or only its first `kept` bytes did and push failed. */
  datatype Push = Stored | Refused(kept: nat)

  /** What a body read reports besides its bytes. */
  datatype Ending = More | Eof | ReadError

  datatype Reply = NoReply | Reply(status: int, contentRange: string)

  datatype Event =
    | Ask(reply: Reply)                                        // issue the range request
    | Read(slice: seq<byte>, push: Push, ending: Ending)       // one body read and its push
    | Retry                                                    // failed attempt, context alive
    | GiveUp                                                   // the attempts are used up
    | Abort                                                    // context seen cancelled

  datatype Phase =
    | Head(attempt: nat)
    | Reading(attempt: nat, base: nat)                         // base: value of pushed when the attempt began
    | Failed(attempt: nat)
    | Finished(err: Option<Failure>)

  /** Chunk offsets one attempt asked from (lo) and stored up to (hi). */
  datatype Span = Span(lo: nat, hi: nat)

  /**
   * data is what the spool holds, pushed is the source's counter of the same name,
   * stray counts spool bytes that pushed does not, lost counts bytes read but
   * not spooled, credited is what was added to the link's BytesIn.
   */
  datatype Fetch = Fetch(
    phase: Phase,
    data: seq<byte>,
    pushed: nat,
    stray: nat,
    lost: nat,
    credited: nat,
    spans: seq<Span>)

  const INIT: Fetch := Fetch(Head(0), [], 0, 0, 0, 0, [])

  /** fetchChunkOnce goes on to read the body of this reply to a request ending at byte `end`. */
  predicate Accepted(reply: Reply, end: int) {
    && reply.Reply?
    && reply.status == 206
    && (reply.contentRange != "" ==>
          var cr := ContentRange.Parse(reply.contentRange);
          cr.Some? && cr.value.total > 0 ==> end < cr.value.total)
  }

  /**
   * Of the replies with a printed Content-Range, exactly the 206s are read whose range is
   * malformed, whose total is not positive, or whose total lies beyond the bytes asked for.
   */
  lemma ReplyReadIff(status: int, start: int, end: int, total: int, asked: int)
    requires IsInt64(start) && IsInt64(end) && IsInt64(total)
    ensures Accepted(Reply(status, ContentRange.Print(start, end, total)), asked) <==>
              status == 206 && (!(0 <= start <= end) || total <= 0 || asked < total)
  {
    ContentRange.RoundTrip(start, end, total);
    assert |ContentRange.Print(start, end, total)| >= 6;
  }

  /** Without a Content-Range, and with an unknown total, the status alone decides. */
  lemma BareReplyReadIff(status: int, start: int, end: int, asked: int)
    requires IsInt64(start) && IsInt64(end)
    ensures Accepted(Reply(status, ""), asked) <==> status == 206
    ensures Accepted(Reply(status, ContentRange.PrintUnknown(start, end)), asked) <==> status == 206
    ensures !Accepted(NoReply, asked)
  {
    ContentRange.UnknownTotalReads(start, end);
  }

  /**
   * The context is looked at before a request and before a push, not during them:
   * both may still go through when it has ended in between.
   */
  predicate Enabled(f: Fetch, e: Event, cancelled: bool) {
    match e
    case Ask(_) => f.phase.Head? && f.phase.attempt < MAX_CHUNK_ATTEMPTS
    case Read(slice, push, _) =>
      && f.phase.Reading?
      && |slice| <= READ_SLICE_SIZE
      && (if slice == [] then push.Stored? else push.Stored? || push.kept < |slice|)
    case Retry => f.phase.Failed? && !cancelled
    case GiveUp => f.phase.Head? && f.phase.attempt >= MAX_CHUNK_ATTEMPTS
    case Abort => cancelled && (f.phase.Failed? || (f.phase.Head? && f.phase.attempt < MAX_CHUNK_ATTEMPTS))
  }

  function Extend(spans: seq<Span>, hi: nat): seq<Span> {
    if spans == [] then [] else spans[|spans| - 1 := spans[|spans| - 1].(hi := hi)]
  }

  /** The push of one slice: *pushed moves only when the whole slice was stored. */
  function Store(f: Fetch, slice: seq<byte>, push: Push): Fetch
    requires push.Refused? ==> push.kept <= |slice|
  {
    match push
    case Stored =>
      f.(data := f.data + slice,
         pushed := f.pushed + |slice|,
         credited := f.credited + |slice|,
         spans := Extend(f.spans, f.pushed + |slice|))
    case Refused(kept) =>
      f.(data := f.data + slice[..kept],
         stray := f.stray + kept,
         lost := f.lost + |slice| - kept,
         credited := f.credited + |slice|)
  }

  /** One step of the fetch of bytes start..end. */
  function Step(start: int, end: int, f: Fetch, e: Event): Fetch
    requires exists cancelled :: Enabled(f, e, cancelled)
  {
    match e
    case Ask(reply) =>
      var g := f.(spans := f.spans + [Span(f.pushed, f.pushed)]);
      if Accepted(reply, end) then g.(phase := Reading(f.phase.attempt, f.pushed))
      else g.(phase := Failed(f.phase.attempt))
    case Read(slice, push, ending) =>
      var g := Store(f, slice, push);
      var curStart := start + f.phase.base;
      var expected := end - curStart + 1;
      var fetched := g.pushed - f.phase.base;
      if push.Refused? then g.(phase := Failed(f.phase.attempt))
      else if ending.More? then g
      else if ending.ReadError? || fetched != expected then g.(phase := Failed(f.phase.attempt))
      else g.(phase := Finished(None))
    case Retry => f.(phase := Head(f.phase.attempt + 1))
    case GiveUp => f.(phase := Finished(Some(Exhausted)))
    case Abort => f.(phase := Finished(Some(ContextDone)))
  }

  // ----- what every step keeps -------------------------------------------

  /** Successive attempts ask from where the one before stored to, beginning at 0. */
  ghost predicate SpansTile(spans: seq<Span>, pushed: nat) {
    && (spans == [] ==> pushed == 0)
    && (spans != [] ==> spans[0].lo == 0 && spans[|spans| - 1].hi == pushed)
    && (forall k :: 0 <= k < |spans| ==> spans[k].lo <= spans[k].hi)
    && (forall k :: 0 < k < |spans| ==> Follows(spans, k))
  }

  ghost predicate Follows(spans: seq<Span>, k: nat)
    requires 0 < k < |spans|
  {
    spans[k - 1].hi == spans[k].lo
  }

  ghost predicate AttemptsCounted(f: Fetch) {
    match f.phase
    case Head(a) => |f.spans| == a <= MAX_CHUNK_ATTEMPTS
    case Reading(a, base) => |f.spans| == a + 1 <= MAX_CHUNK_ATTEMPTS && f.spans[a].lo == base <= f.pushed
    case Failed(a) => |f.spans| == a + 1 <= MAX_CHUNK_ATTEMPTS
    case Finished(_) => |f.spans| <= MAX_CHUNK_ATTEMPTS
  }

  /** len is the number of bytes asked for, end - start + 1. */
  ghost predicate Inv(len: int, f: Fetch) {
    && |f.data| == f.pushed + f.stray
    && f.credited == |f.data| + f.lost
    && (f.phase == Finished(None) ==> f.pushed == len)
    && SpansTile(f.spans, f.pushed)
    && AttemptsCounted(f)
  }

  /** The server sends the file's bytes, beginning at the offset it was asked for. */
  ghost predicate Honest(file: seq<byte>, start: int, f: Fetch, e: Event) {
    e.Read? ==>
      var at := start + f.pushed;
      0 <= at && at + |e.slice| <= |file| && e.slice == file[at..at + |e.slice|]
  }

  /** Unless a refused push left bytes behind, the spool holds the file from start on. */
  ghost predicate Faithful(file: seq<byte>, start: int, f: Fetch) {
    f.stray == 0 ==> 0 <= start && start + |f.data| <= |file| && f.data == file[start..start + |f.data|]
  }

  /** Whatever was stored or completed lies inside the file. */
  ghost predicate InFile(file: seq<byte>, start: int, f: Fetch) {
    f.pushed > 0 || f.phase == Finished(None) ==> start + f.pushed <= |file|
  }

  lemma StepKeepsInFile(file: seq<byte>, start: int, end: int, f: Fetch, e: Event, cancelled: bool)
    requires Enabled(f, e, cancelled) && InFile(file, start, f) && Honest(file, start, f, e)
    ensures InFile(file, start, Step(start, end, f, e))
  {
  }

  lemma StepKeepsInv(start: int, end: int, f: Fetch, e: Event, cancelled: bool)
    requires Inv(end - start + 1, f) && Enabled(f, e, cancelled)
    ensures Inv(end - start + 1, Step(start, end, f, e))
  {
    var g := Step(start, end, f, e);
    forall k | 0 < k < |g.spans| ensures Follows(g.spans, k) {
      assert k < |f.spans| ==> Follows(f.spans, k);
    }
  }

  lemma StepKeepsFaithful(file: seq<byte>, start: int, end: int, f: Fetch, e: Event, cancelled: bool)
    requires Inv(end - start + 1, f) && Enabled(f, e, cancelled)
    requires Faithful(file, start, f) && Honest(file, start, f, e)
    ensures Faithful(file, start, Step(start, end, f, e))
  {
    if e.Read? && e.push.Stored? && f.stray == 0 {
      var at := start + |f.data|;
      assert file[start..at] + file[at..at + |e.slice|] == file[start..at + |e.slice|];
    }
  }

  /** The spool only grows, and so do the counters. */
  lemma StepGrows(start: int, end: int, f: Fetch, e: Event, cancelled: bool)
    requires Enabled(f, e, cancelled)
    ensures var g := Step(start, end, f, e);
            && f.data <= g.data && f.pushed <= g.pushed && f.stray <= g.stray && f.lost <= g.lost
            && !f.phase.Finished?
            && (e.Abort? ==> g.phase == Finished(Some(ContextDone)))
  {
  }

  // ----- whole fetches ----------------------------------------------------

  /** A fetch of bytes start..end from f by these events, each with the state of the context when it happens. */
  ghost predicate Run(start: int, end: int, f: Fetch, events: seq<(Event, bool)>, g: Fetch)
    decreases |events|
  {
    if events == [] then f == g
    else
      && Enabled(f, events[0].0, events[0].1)
      && Run(start, end, Step(start, end, f, events[0].0), events[1..], g)
  }

  lemma {:induction false} RunExtends(start: int, end: int, f: Fetch, events: seq<(Event, bool)>, g: Fetch,
                                      e: Event, cancelled: bool)
    requires Run(start, end, f, events, g) && Enabled(g, e, cancelled)
    ensures Run(start, end, f, events + [(e, cancelled)], Step(start, end, g, e))
    decreases |events|
  {
    var all := events + [(e, cancelled)];
    if events == [] {
      assert all[1..] == [];
    } else {
      assert all[0] == events[0] && all[1..] == events[1..] + [(e, cancelled)];
      RunExtends(start, end, Step(start, end, f, events[0].0), events[1..], g, e, cancelled);
    }
  }

  ghost predicate AllHonest(file: seq<byte>, start: int, end: int, f: Fetch, events: seq<(Event, bool)>)
    decreases |events|
  {
    events != [] && Enabled(f, events[0].0, events[0].1) ==>
      && Honest(file, start, f, events[0].0)
      && AllHonest(file, start, end, Step(start, end, f, events[0].0), events[1..])
  }

  lemma {:induction false} RunKeepsInv(start: int, end: int, f: Fetch, events: seq<(Event, bool)>, g: Fetch)
    requires Run(start, end, f, events, g) && Inv(end - start + 1, f)
    ensures Inv(end - start + 1, g)
    decreases |events|
  {
    if events != [] {
      StepKeepsInv(start, end, f, events[0].0, events[0].1);
      RunKeepsInv(start, end, Step(start, end, f, events[0].0), events[1..], g);
    }
  }

  lemma {:induction false} RunKeepsFaithful(file: seq<byte>, start: int, end: int, f: Fetch, events: seq<(Event, bool)>, g: Fetch)
    requires Run(start, end, f, events, g) && Inv(end - start + 1, f)
    requires Faithful(file, start, f) && AllHonest(file, start, end, f, events)
    ensures Faithful(file, start, g)
    decreases |events|
  {
    if events != [] {
      StepKeepsInv(start, end, f, events[0].0, events[0].1);
      StepKeepsFaithful(file, start, end, f, events[0].0, events[0].1);
      RunKeepsFaithful(file, start, end, Step(start, end, f, events[0].0), events[1..], g);
    }
  }

  /**
   * Whatever the server does, a chunk reported complete has stored exactly the
   * bytes asked for, in at most five requests that continue one another; its
   * spool has that length exactly when no refused push left bytes behind.
   */
  lemma CompleteMeansExactLength(start: int, end: int, events: seq<(Event, bool)>, g: Fetch)
    requires Run(start, end, INIT, events, g) && g.phase == Finished(None)
    ensures g.pushed == end - start + 1
    ensures |g.data| == end - start + 1 <==> g.stray == 0
    ensures SpansTile(g.spans, g.pushed) && |g.spans| <= MAX_CHUNK_ATTEMPTS
    ensures g.credited == |g.data| + g.lost
  {
    RunKeepsInv(start, end, INIT, events, g);
  }

  /** With honest bodies the spool of a complete chunk is the file's slice exactly when no refused push left bytes behind. */
  lemma CompleteMeansExactBytes(file: seq<byte>, start: int, end: int, events: seq<(Event, bool)>, g: Fetch)
    requires 0 <= start <= end + 1 <= |file|
    requires Run(start, end, INIT, events, g) && g.phase == Finished(None)
    requires AllHonest(file, start, end, INIT, events)
    ensures g.data == file[start..end + 1] <==> g.stray == 0
  {
    RunKeepsInv(start, end, INIT, events, g);
    RunKeepsFaithful(file, start, end, INIT, events, g);
  }

  ghost predicate NeverCancelled(events: seq<(Event, bool)>) {
    forall k :: 0 <= k < |events| ==> !events[k].1
  }

  /** Without a cancellation a fetch does not end for one; and it gives up only after all its requests. */
  lemma FailsForAReason(start: int, end: int, events: seq<(Event, bool)>, g: Fetch)
    requires Run(start, end, INIT, events, g)
    ensures g.phase == Finished(Some(Exhausted)) ==> |g.spans| == MAX_CHUNK_ATTEMPTS
    ensures g.phase == Finished(Some(ContextDone)) ==> !NeverCancelled(events)
  {
    RunFailsForAReason(start, end, INIT, events, g);
  }

  lemma {:induction false} RunFailsForAReason(start: int, end: int, f: Fetch, events: seq<(Event, bool)>, g: Fetch)
    requires Run(start, end, f, events, g) && AttemptsCounted(f) && !f.phase.Finished?
    ensures g.phase == Finished(Some(Exhausted)) ==> |g.spans| == MAX_CHUNK_ATTEMPTS
    ensures g.phase == Finished(Some(ContextDone)) ==> !NeverCancelled(events)
    decreases |events|
  {
    if events != [] {
      var h := Step(start, end, f, events[0].0);
      if h.phase.Finished? {
        FinishedStays(start, end, h, events[1..], g);
      } else {
        StepCounts(start, end, f, events[0].0, events[0].1);
        RunFailsForAReason(start, end, h, events[1..], g);
        if !NeverCancelled(events[1..]) {
          var k :| 0 <= k < |events[1..]| && events[1..][k].1;
          assert events[k + 1].1;
        }
      }
    }
  }

  lemma StepCounts(start: int, end: int, f: Fetch, e: Event, cancelled: bool)
    requires Enabled(f, e, cancelled) && AttemptsCounted(f)
    ensures AttemptsCounted(Step(start, end, f, e))
  {
  }

  /** The number of requests in a run. */
  function Requests(events: seq<(Event, bool)>): nat {
    if events == [] then 0 else (if events[0].0.Ask? then 1 else 0) + Requests(events[1..])
  }

  /** Once it is cancelled a fetch makes at most one more request, and none if it has failed or is reading. */
  lemma {:induction false} CancelledFetchStops(start: int, end: int, f: Fetch, events: seq<(Event, bool)>, g: Fetch)
    requires Run(start, end, f, events, g) && forall k :: 0 <= k < |events| ==> events[k].1
    ensures Requests(events) <= if f.phase.Head? then 1 else 0
    decreases |events|
  {
    if events != [] {
      CancelledFetchStops(start, end, Step(start, end, f, events[0].0), events[1..], g);
    }
  }

  /** Once more bytes arrived than were asked for, no later attempt can complete the chunk. */
  lemma {:induction false} OverlongNeverCompletes(start: int, end: int, f: Fetch, events: seq<(Event, bool)>, g: Fetch)
    requires Run(start, end, f, events, g) && Inv(end - start + 1, f)
    requires f.pushed > end - start + 1
    ensures g.phase != Finished(None) && g.pushed > end - start + 1
    decreases |events|
  {
    if events != [] {
      StepKeepsInv(start, end, f, events[0].0, events[0].1);
      StepGrows(start, end, f, events[0].0, events[0].1);
      OverlongNeverCompletes(start, end, Step(start, end, f, events[0].0), events[1..], g);
    }
  }

  // ----- a chunk that has all its bytes but is not finished ------------------

  /** All len bytes are stored, and the fetch is between attempts, in one that has read nothing, or given up. */
  ghost predicate Full(len: int, f: Fetch) {
    && f.pushed == len
    && match f.phase
       case Head(_) => true
       case Reading(_, base) => base == f.pushed
       case Failed(_) => true
       case Finished(err) => err.Some?
  }

  /** Event k ends a body, and no body up to then had a byte that was stored. */
  ghost predicate EmptyBodyEnds(events: seq<(Event, bool)>, k: nat) {
    && k < |events|
    && events[k].0.Read? && events[k].0.push.Stored? && events[k].0.ending.Eof?
    && forall j :: 0 <= j <= k ==> StoresNothing(events[j].0)
  }

  ghost predicate StoresNothing(e: Event) {
    e.Read? && e.push.Stored? ==> e.slice == []
  }

  lemma EmptyBodyLater(events: seq<(Event, bool)>)
    requires events != [] && StoresNothing(events[0].0) && !EmptyBodyEnds(events, 0)
    ensures (exists k: nat :: EmptyBodyEnds(events, k)) <==> exists k: nat :: EmptyBodyEnds(events[1..], k)
  {
    if k: nat :| EmptyBodyEnds(events, k) {
      assert forall j :: 0 <= j <= k - 1 ==> events[1..][j] == events[j + 1];
      assert EmptyBodyEnds(events[1..], k - 1);
    }
    if k: nat :| EmptyBodyEnds(events[1..], k) {
      assert forall j :: 1 <= j <= k + 1 ==> events[j] == events[1..][j - 1];
      assert EmptyBodyEnds(events, k + 1);
    }
  }

  lemma FullStep(start: int, end: int, f: Fetch, e: Event, cancelled: bool)
    requires Enabled(f, e, cancelled) && Full(end - start + 1, f)
    ensures var g := Step(start, end, f, e);
            if !StoresNothing(e) then g.pushed > end - start + 1
            else if e.Read? && e.push.Stored? && e.ending.Eof? then g.phase == Finished(None)
            else Full(end - start + 1, g)
  {
  }

  /**
   * When every byte has arrived in attempts that then failed, the requests that
   * follow ask for an empty range, and the chunk is completed exactly by a 206
   * reply whose body ends before any byte of it, or of such a body before it, was stored.
   */
  lemma {:induction false} FullCompletesIff(start: int, end: int, f: Fetch, events: seq<(Event, bool)>, g: Fetch)
    requires Run(start, end, f, events, g) && Inv(end - start + 1, f) && Full(end - start + 1, f)
    ensures g.phase == Finished(None) <==> exists k: nat :: EmptyBodyEnds(events, k)
    decreases |events|
  {
    if events != [] {
      var (e, c) := events[0];
      var h := Step(start, end, f, e);
      StepKeepsInv(start, end, f, e, c);
      FullStep(start, end, f, e, c);
      if !StoresNothing(e) {
        OverlongNeverCompletes(start, end, h, events[1..], g);
      } else if e.Read? && e.push.Stored? && e.ending.Eof? {
        assert EmptyBodyEnds(events, 0);
        FinishedStays(start, end, h, events[1..], g);
      } else {
        EmptyBodyLater(events);
        FullCompletesIff(start, end, h, events[1..], g);
      }
    }
  }

  lemma FinishedStays(start: int, end: int, f: Fetch, events: seq<(Event, bool)>, g: Fetch)
    requires Run(start, end, f, events, g) && f.phase.Finished?
    ensures g == f
  {
  }

  /**
   * The empty chunk of a one-byte range is such a chunk from the start: it is
   * completed exactly by a 206 reply with an empty body to the request
   * "bytes=s-(s-1)", which is not a range.
   */
  lemma EmptyChunkCompletesIff(start: int, events: seq<(Event, bool)>, g: Fetch)
    requires Run(start, start - 1, INIT, events, g)
    ensures g.phase == Finished(None) <==> exists k: nat :: EmptyBodyEnds(events, k)
  {
    EmptyFetchCompletesIff(start, start - 1, INIT, events, g);
  }

  lemma EmptyFetchCompletesIff(start: int, end: int, f: Fetch, events: seq<(Event, bool)>, g: Fetch)
    requires end - start + 1 == 0 && f.phase == Head(0) && f.data == [] && f.spans == []
    requires f.pushed == f.stray == f.lost == f.credited == 0 && Run(start, end, f, events, g)
    ensures g.phase == Finished(None) <==> exists k: nat :: EmptyBodyEnds(events, k)
  {
    NothingToFetch(end - start + 1, f);
    FullCompletesIff(start, end, f, events, g);
  }

  lemma NothingToFetch(len: int, f: Fetch)
    requires len == 0 && f.phase == Head(0) && f.data == [] && f.spans == []
    requires f.pushed == f.stray == f.lost == f.credited == 0
    ensures Inv(len, f)
    ensures Full(len, f)
  {
  }

  lemma RunCons(start: int, end: int, f: Fetch, e: Event, cancelled: bool, rest: seq<(Event, bool)>, g: Fetch)
    requires Enabled(f, e, cancelled) && Run(start, end, Step(start, end, f, e), rest, g)
    ensures Run(start, end, f, [(e, cancelled)] + rest, g)
  {
    var all := [(e, cancelled)] + rest;
    assert all[0] == (e, cancelled) && all[1..] == rest;
  }

  /** When no further request gets a reply, a failed attempt leads to giving up with the spool as it is. */
  lemma {:induction false} NoReplyExhausts(start: int, end: int, f: Fetch) returns (events: seq<(Event, bool)>, g: Fetch)
    requires f.phase.Failed? && f.phase.attempt < MAX_CHUNK_ATTEMPTS
    ensures Run(start, end, f, events, g) && g.phase == Finished(Some(Exhausted)) && g.data == f.data && g.pushed == f.pushed
    decreases MAX_CHUNK_ATTEMPTS - f.phase.attempt
  {
    assert Enabled(f, Retry, false);
    var h := Step(start, end, f, Retry);
    var rest;
    if h.phase.attempt == MAX_CHUNK_ATTEMPTS {
      assert Enabled(h, GiveUp, false);
      g := Step(start, end, h, GiveUp);
      assert Run(start, end, g, [], g);
      RunCons(start, end, h, GiveUp, false, [], g);
      rest := [(GiveUp, false)] + [];
    } else {
      assert Enabled(h, Ask(NoReply), false);
      rest, g := NoReplyExhausts(start, end, Step(start, end, h, Ask(NoReply)));
      RunCons(start, end, h, Ask(NoReply), false, rest, g);
      rest := [(Ask(NoReply), false)] + rest;
    }
    RunCons(start, end, f, Retry, false, rest, g);
    events := [(Retry, false)] + rest;
  }

  /**
   * Any chunk of up to one slice can fail with all its bytes in the spool: they
   * come in one body, whose last read reports an error with them, and the four
   * retries get no reply.
   */
  lemma WholeChunkCanFail(start: int, slice: seq<byte>) returns (events: seq<(Event, bool)>, g: Fetch)
    requires 0 < |slice| <= READ_SLICE_SIZE
    ensures var end := start + |slice| - 1;
            && Run(start, end, INIT, events, g)
            && g.data == slice && g.pushed == end - start + 1 && g.phase == Finished(Some(Exhausted))
  {
    var end := start + |slice| - 1;
    var (ask, read) := (Ask(Reply(206, "")), Read(slice, Stored, ReadError));
    assert Enabled(INIT, ask, false);
    var f := Step(start, end, INIT, ask);
    assert f.phase == Reading(0, 0);
    assert Enabled(f, read, false) && [] + slice == slice;
    var h := Step(start, end, f, read);
    events, g := NoReplyExhausts(start, end, h);
    RunCons(start, end, f, read, false, events, g);
    events := [(read, false)] + events;
    RunCons(start, end, INIT, ask, false, events, g);
    events := [(ask, false)] + events;
  }
}
