/**
 * The spool object of one chunk, and the loops that fill and drain it. What the
 * source leaves to the network, the disk, the client and the scheduler comes in
 * as a script.
 */
module ChunkBuf {
  import opened Prelude
  import opened Links
  import F = Fetcher
  import P = SpoolProtocol
  import opened DrainScript
  import opened FetchScript

  class ChunkBuf {
    var file: seq<byte>
    var readAt: nat
    var written: nat
    var done: bool
    var err: Option<F.Failure>
    var closed: bool

    /** Between operations `written` counts the whole file and the reader is inside it. */
    ghost predicate Valid()
      reads this
    {
      readAt <= written == |file|
    }

    constructor ()
      ensures Valid() && file == [] && readAt == 0 && !done && err.None? && !closed
    {
      file, readAt, written, done, err, closed := [], 0, 0, false, None, false;
    }

    /** disk says how much of the slice the file takes; a closed file takes nothing. */
    method Push(ctxDone: bool, p: seq<byte>, disk: F.Push) returns (ok: bool)
      requires Valid() && (disk.Refused? ==> disk.kept < |p|)
      modifies this`file, this`written
      ensures Valid()
      ensures ok == (!ctxDone && !closed && disk.Stored?)
      ensures file == old(file) + if ctxDone || closed then [] else if disk.Stored? then p else p[..disk.kept]
    {
      if ctxDone {
        return false;
      }
      var n := if closed then 0 else if disk.Stored? then |p| else disk.kept;
      file := file + p[..n];
      if n > 0 {
        written := written + n;
      }
      ok := !closed && disk.Stored?;
    }

    /** The first error stays. */
    method Finish(e: Option<F.Failure>)
      modifies this`done, this`err
      ensures done && err == if old(err).Some? then old(err) else e
    {
      done := true;
      if e.Some? && err.None? {
        err := e;
      }
    }

    method Close()
      modifies this`closed
      ensures closed
    {
      closed := true;
    }

    // ----- draining ---------------------------------------------------------

    /** The object, between operations, and its client are in this state of the locking protocol. */
    ghost predicate Shown(client: Sink, base: seq<byte>, p: P.Spool)
      reads this, client
    {
      && Valid() && P.Inv(p)
      && p.file == file && p.written == written && p.done == done && p.closed == closed
      && (p.err <==> err.Some?)
      && p.producer == (if done then P.Over else P.Ready)
      && p.closer == (if closed then P.Closed else P.Open)
      && client.out == base + p.out
    }

    /** One operation of the fetcher or of close(), from its lock to its broadcast. */
    method Perform(op: Op, ghost client: Sink, ghost base: seq<byte>, ghost p: P.Spool)
      returns (ghost events: seq<P.Event>, ghost q: P.Spool)
      requires Shown(client, base, p)
      modifies this`file, this`written, this`done, this`err, this`closed
      ensures P.Run(p, events, q) && Shown(client, base, q) && Interfered(p, q) && events == OpEvents(p, op)
      ensures old(file) <= file && (old(closed) ==> closed) && (old(done) ==> done && err == old(err) && file == old(file))
      ensures !old(done) && old(err).None? && !done ==> err.None?
    {
      events, q := [], p;
      match op
      case Append(bytes, disk) =>
        if !done && (disk.Refused? ==> disk.kept < |bytes|) {
          ghost var kept := if closed then [] else if disk.Stored? then bytes else bytes[..disk.kept];
          var _ := Push(false, bytes, disk);
          if kept != [] {
            events, q := PushSteps(p, kept);
          } else {
            assert file == old(file) + [];
          }
        }
      case End(e) =>
        if !done {
          events, q := FinishSteps(p, e.Some?);
          Finish(e);
        }
      case Shut =>
        if !closed {
          events, q := CloseSteps(p);
        }
        Close();
    }

    /** What the fetcher and close() do while the drainer does not hold the lock. */
    method Interfere(ops: seq<Op>, ghost client: Sink, ghost base: seq<byte>, ghost p: P.Spool)
      returns (ghost events: seq<P.Event>, ghost q: P.Spool)
      requires Shown(client, base, p)
      modifies this`file, this`written, this`done, this`err, this`closed
      ensures P.Run(p, events, q) && Shown(client, base, q) && Interfered(p, q) && events == OpsEvents(p, ops)
      ensures old(file) <= file && (old(closed) ==> closed) && (old(done) ==> done && err == old(err) && file == old(file))
      ensures !old(done) && old(err).None? && !done ==> err.None?
    {
      events, q := [], p;
      for i := 0 to |ops|
        invariant P.Run(p, events, q) && Shown(client, base, q) && Interfered(p, q)
        invariant OpsEvents(p, ops) == events + OpsEvents(q, ops[i..])
        invariant old(file) <= file && (old(closed) ==> closed) && (old(done) ==> done && err == old(err) && file == old(file))
        invariant !old(done) && old(err).None? && !done ==> err.None?
      {
        ghost var more, r := Perform(ops[i], client, base, q);
        P.RunJoins(p, events, q, more, r);
        RunIsAfter(q, more, r);
        AssocEvents(events, more, OpsEvents(r, ops[i + 1..]));
        events, q := events + more, r;
      }
    }

    /** Reads n bytes of the file and writes them to the client, which takes nw of them. */
    method Transfer(client: Sink, n: nat, nw: nat, failed: bool, ghost base: seq<byte>, ghost p: P.Spool)
      returns (ghost q: P.Spool)
      requires Shown(client, base, p) && readAt == p.delivered
      requires p.consumer.Copying? && nw <= n <= p.consumer.avail && 1 <= n <= READ_BUFFER
      modifies this`readAt, client
      ensures P.Enabled(p, P.Copy(n, nw, failed)) && q == P.Next(p, P.Copy(n, nw, failed)) && Shown(client, base, q)
      ensures q.delivered == p.delivered + nw && readAt == old(readAt) + n
      ensures q.consumer == if failed || nw != n then P.Returned(P.Error) else P.Copying(p.consumer.avail - n, p.consumer.view)
    {
      q := CopyStep(p, n, nw, failed, base);
      var rbuf := file[readAt..readAt + n];
      readAt := readAt + n;
      client.out := client.out + rbuf[..nw];
    }

    /** One turn of the copy loop: read some of the file, write it to the client. */
    method CopyOnce(client: Sink, avail: nat, copy: Copy, ghost base: seq<byte>, ghost p: P.Spool)
      returns (n: nat, nw: nat, failure: Option<DrainResult>, ghost e: P.Event, ghost q: P.Spool)
      requires Shown(client, base, p) && readAt == p.delivered
      requires p.consumer.Copying? && 0 < avail == p.consumer.avail && readAt + avail == written
      modifies this`readAt, client
      ensures e == CopyEvent(copy, avail) && P.Enabled(p, e) && q == P.Next(p, e) && Shown(client, base, q)
      ensures failure == CopyEnds(copy, avail)
      ensures n <= avail && q.delivered == p.delivered + nw
      ensures failure.None? ==> q.consumer == P.Copying(avail - n, p.consumer.view) && 0 < n == nw && readAt == q.delivered
      ensures failure.Some? ==> q.consumer == P.Returned(P.Error)
                                && (failure.value.WriteFailed? || failure.value.ShortWrite? || failure.value.ReadFailed?)
    {
      n, nw := Moved(copy, avail).0, Moved(copy, avail).1;
      if n == 0 {
        e := P.ReadFails;
        q := FailedRead(p);
        return n, nw, Some(ReadFailed), e, q;
      }
      e := P.Copy(n, nw, copy.fails || copy.readFails);
      q := Transfer(client, n, nw, copy.fails || copy.readFails, base, p);
      if copy.fails {
        return n, nw, Some(WriteFailed), e, q;
      }
      if n != nw {
        return n, nw, Some(ShortWrite), e, q;
      }
      failure := if copy.readFails then Some(ReadFailed) else None;
    }

    /** The copy loop for the bytes seen under the lock: out of the file, into the client. */
    method CopyOut(client: Sink, avail0: nat, delivered0: nat, copies: seq<Copy>, ghost base: seq<byte>, ghost p: P.Spool)
      returns (delivered: nat, failure: Option<DrainResult>, ghost events: seq<P.Event>, ghost q: P.Spool)
      requires Shown(client, base, p) && readAt == delivered0 == p.delivered
      requires p.consumer.Copying? && p.consumer.avail == avail0 && delivered0 + avail0 == written
      modifies this`readAt, client
      ensures P.Run(p, events, q) && Shown(client, base, q) && delivered == q.delivered && events == CopyEvents(p, copies)
      ensures failure == CopiesEnd(p, copies)
      ensures failure.None? ==> q.consumer == P.Copying(0, p.consumer.view) && delivered == written == readAt
      ensures failure.Some? ==> q.consumer == P.Returned(P.Error)
                                && (failure.value.WriteFailed? || failure.value.ShortWrite? || failure.value.ReadFailed?)
    {
      delivered := delivered0;
      events, q := [], p;
      var avail: nat := avail0;
      var left := copies;
      while avail > 0
        invariant MadeSoFar(p, copies, events, q, left) && Shown(client, base, q)
        invariant q.consumer == P.Copying(avail, p.consumer.view)
        invariant q.delivered == delivered == readAt && delivered + avail == written
      {
        var n, nw;
        ghost var e, r;
        n, nw, failure, e, r := CopyOnce(client, avail, First(left), base, q);
        NextCopy(p, copies, events, q, left, e, r);
        left := Rest(left);
        events, q := events + [e], r;
        delivered := delivered + nw;
        avail := avail - n;
        if failure.Some? {
          return;
        }
      }
      failure := None;
    }

    /** The critical section at the head of drainTo's loop: whether it waits, and else what it sees. */
    method Look(delivered: nat, ops: seq<Op>, ghost client: Sink, ghost base: seq<byte>, ghost p: P.Spool)
      returns (asleep: bool, ghost events: seq<P.Event>, ghost q: P.Spool)
      requires Shown(client, base, p) && (!done ==> err.None?) && (p.consumer.Checking? || p.consumer.Asleep?)
      requires delivered == p.delivered
      modifies this`file, this`written, this`done, this`err, this`closed
      ensures P.Run(p, events, q) && Shown(client, base, q) && (!done ==> err.None?) && q.delivered == p.delivered
      ensures var before := OpsEvents(p, ops); events == before + LookEvents(After(p, before))
      ensures q.consumer == if asleep then P.Asleep
                            else if closed then P.Returned(P.Error)
                            else P.Copying(written - q.delivered, P.View(done, err.Some?))
    {
      events, q := Interfere(ops, client, base, p);
      RunIsAfter(p, events, q);
      asleep := written == delivered && !done && !closed;
      if q.consumer.Checking? {
        events, q := Extend1(p, events, q, P.Check);
      }
    }

    /** One turn of drainTo: look, copy what is there, and look whether it is over. */
    method DrainOnce(client: Sink, delivered0: nat, round: Round, ghost base: seq<byte>, ghost p: P.Spool)
      returns (delivered: nat, result: Option<DrainResult>, ghost events: seq<P.Event>, ghost q: P.Spool)
      requires Shown(client, base, p) && (!done ==> err.None?)
      requires p.delivered == delivered0 == readAt && (p.consumer.Checking? || p.consumer.Asleep?)
      modifies this, client
      ensures P.Run(p, events, q) && Shown(client, base, q) && (!done ==> err.None?) && delivered == q.delivered
      ensures result.None? ==> delivered == readAt && (q.consumer.Checking? || q.consumer.Asleep?)
      ensures result.Some? ==> Reports(result.value, q)
      ensures (result.Some? <==> q.consumer.Returned?)
      ensures events == TurnEvents(p, round) && result == TurnEnds(p, round, Failure())
    {
      delivered := delivered0;
      var asleep;
      asleep, events, q := Look(delivered, round.before, client, base, p);
      RunIsAfter(p, events, q);
      if asleep {
        return delivered, None, events, q; // until the next turn
      }
      if closed {
        return delivered, Some(SpoolClosed), events, q;
      }
      ghost var more, r;
      delivered, result, more, r := CopyAndRecheck(client, delivered, round, base, q);
      P.RunJoins(p, events, q, more, r);
      events, q := events + more, r;
    }

    method CopyAndRecheck(client: Sink, delivered0: nat, round: Round, ghost base: seq<byte>, ghost p: P.Spool)
      returns (delivered: nat, result: Option<DrainResult>, ghost events: seq<P.Event>, ghost q: P.Spool)
      requires Shown(client, base, p) && (!done ==> err.None?) && p.delivered == delivered0 == readAt
      requires p.consumer == P.Copying(written - delivered0, P.View(done, err.Some?))
      modifies this, client
      ensures P.Run(p, events, q) && Shown(client, base, q) && (!done ==> err.None?) && delivered == q.delivered
      ensures result.None? ==> delivered == readAt && q.consumer.Checking?
      ensures result.Some? ==> Reports(result.value, q)
      ensures (result.Some? <==> q.consumer.Returned?)
      ensures events == CopyingEvents(p, round) && result == CopyingEnds(p, round, Failure())
    {
      var (wasDone, terr) := (done, err);
      delivered, result, events, q := CopyOut(client, written - delivered0, delivered0, round.copies, base, p);
      RunIsAfter(p, events, q);
      if result.Some? {
        return;
      }
      ghost var more, r := Recheck(wasDone, round.recheck, client, base, q);
      P.RunJoins(p, events, q, more, r);
      AssocEvents(events, more, [P.Tail]);
      events, q := Extend1(p, events + more, r, P.Tail);
      result := if !wasDone || delivered < written then None else if terr.Some? then Some(FetchFailed(terr.value)) else Some(Ok);
    }

    /** Between a view that said done and the last look at written. */
    method Recheck(wasDone: bool, ops: seq<Op>, ghost client: Sink, ghost base: seq<byte>, ghost p: P.Spool)
      returns (ghost events: seq<P.Event>, ghost q: P.Spool)
      requires Shown(client, base, p)
      modifies this`file, this`written, this`done, this`err, this`closed
      ensures P.Run(p, events, q) && Shown(client, base, q) && Interfered(p, q)
      ensures !wasDone ==> q == p
      ensures events == if wasDone then OpsEvents(p, ops) else []
      ensures old(done) ==> done && err == old(err) && file == old(file)
      ensures !wasDone ==> done == old(done) && err == old(err)
    {
      events, q := [], p;
      if wasDone {
        events, q := Interfere(ops, client, base, p);
      }
    }

    /** The error the fetch ended with; of no account where there is none. */
    ghost function Failure(): F.Failure
      reads this
    {
      if err.Some? then err.value else F.Exhausted
    }

    /** A result of drainTo, on the object and on the drainer of the protocol. */
    ghost predicate Reports(result: DrainResult, q: P.Spool)
      reads this
    {
      match result
      case Ok => q.consumer == P.Returned(P.Nil) && done && err.None? && q.delivered == |file|
      case FetchFailed(e) => q.consumer == P.Returned(P.Error) && done && err == Some(e) && q.delivered == |file|
      case SpoolClosed => q.consumer == P.Returned(P.Error) && closed
      case StillRunning => !q.consumer.Returned?
      case _ => q.consumer == P.Returned(P.Error)
    }

    /**
     * Streams the spool to the client. However the fetcher and close() come in
     * between, the whole is a run of the locking protocol; the client has been given
     * exactly the first `delivered` bytes of the spool; and the result is the one
     * with which that run's drainer returned, Ok only for a finished, error-free and
     * wholly delivered spool.
     */
    method DrainTo(client: Sink, rounds: seq<Round>, ghost p: P.Spool)
      returns (delivered: nat, result: DrainResult, ghost events: seq<P.Event>, ghost q: P.Spool)
      requires Shown(client, client.out, p) && (!done ==> err.None?)
      requires readAt == 0 == p.delivered && p.consumer.Checking?
      modifies this, client
      ensures P.Run(p, events, q) && Shown(client, old(client.out), q) && delivered == q.delivered
      ensures Reports(result, q) && events == DrainEvents(p, rounds) && result == DrainEnds(p, rounds, Failure())
      ensures old(file) <= file && client.out == old(client.out) + file[..delivered]
    {
      delivered := 0;
      events, q := [], p;
      ghost var base := client.out;
      for k := 0 to |rounds|
        invariant Shown(client, base, q) && (!done ==> err.None?)
        invariant q.delivered == delivered == readAt && (q.consumer.Checking? || q.consumer.Asleep?)
        invariant forall e :: DrainedSoFar(p, rounds, events, q, rounds[k..], e)
      {
        var ended;
        ghost var more, r;
        delivered, ended, more, r := DrainOnce(client, delivered, rounds[k], base, q);
        forall e {
          NextTurn(p, rounds, events, q, rounds[k..], more, r, e);
        }
        events, q := events + more, r;
        if ended.Some? {
          P.FileIsPushes(p, events, q);
          return delivered, ended.value, events, q;
        }
      }
      assert rounds[|rounds|..] == [] && DrainedSoFar(p, rounds, events, q, rounds[|rounds|..], Failure());
      P.FileIsPushes(p, events, q);
      result := StillRunning;
    }
  }

  /** What operations of others can do to a drainer: wake it. */
  ghost predicate Interfered(p: P.Spool, q: P.Spool) {
    q.delivered == p.delivered && q.out == p.out && (q.consumer == p.consumer || (p.consumer.Asleep? && q.consumer.Checking?))
  }

  lemma Extend1(p: P.Spool, events: seq<P.Event>, q: P.Spool, e: P.Event) returns (all: seq<P.Event>, r: P.Spool)
    requires P.Run(p, events, q) && P.Inv(q) && P.Enabled(q, e)
    ensures all == events + [e] && r == P.Next(q, e) && P.Run(p, all, r) && P.Inv(r)
  {
    P.RunExtends(p, events, q, e);
    P.StepKeepsInv(q, e);
    all, r := events + [e], P.Next(q, e);
  }

  lemma HeadOfSlice(file: seq<byte>, from: nat, n: nat, nw: nat)
    requires nw <= n && from + n <= |file|
    ensures file[from..from + n][..nw] == file[from..from + nw]
  {
  }

  /** Reading n bytes and writing nw of them, on the side of the protocol. */
  lemma CopyStep(p: P.Spool, n: nat, nw: nat, failed: bool, base: seq<byte>) returns (q: P.Spool)
    requires P.Inv(p) && p.consumer.Copying? && nw <= n <= p.consumer.avail && 1 <= n <= READ_BUFFER
    ensures P.Enabled(p, P.Copy(n, nw, failed)) && q == P.Next(p, P.Copy(n, nw, failed)) && P.Inv(q)
    ensures q == p.(out := q.out, delivered := p.delivered + nw, consumer := q.consumer)
    ensures q.consumer == if failed || nw != n then P.Returned(P.Error) else P.Copying(p.consumer.avail - n, p.consumer.view)
    ensures p.delivered + n <= |p.file| && base + q.out == (base + p.out) + p.file[p.delivered..p.delivered + n][..nw]
  {
    q := P.Next(p, P.Copy(n, nw, failed));
    P.StepKeepsInv(p, P.Copy(n, nw, failed));
    HeadOfSlice(p.file, p.delivered, n, nw);
    Assoc(base, p.out, p.file[p.delivered..p.delivered + nw]);
  }

  lemma FailedRead(p: P.Spool) returns (q: P.Spool)
    requires P.Inv(p) && p.consumer.Copying? && p.consumer.avail > 0
    ensures P.Enabled(p, P.ReadFails) && q == P.Next(p, P.ReadFails) && P.Inv(q)
    ensures q == p.(consumer := P.Returned(P.Error))
  {
    q := P.Next(p, P.ReadFails);
    P.StepKeepsInv(p, P.ReadFails);
  }

  lemma PushSteps(p: P.Spool, bytes: seq<byte>) returns (events: seq<P.Event>, q: P.Spool)
    requires P.Inv(p) && p.producer.Ready? && bytes != []
    ensures P.Run(p, events, q) && P.Inv(q) && events == [P.FileWrite(bytes), P.Publish, P.Broadcast]
    ensures q == p.(file := p.file + bytes, written := p.written + |bytes|, consumer := P.Wake(p.consumer))
  {
    assert P.Run(p, [], p);
    events, q := Extend1(p, [], p, P.FileWrite(bytes));
    events, q := Extend1(p, events, q, P.Publish);
    events, q := Extend1(p, events, q, P.Broadcast);
  }

  lemma FinishSteps(p: P.Spool, failed: bool) returns (events: seq<P.Event>, q: P.Spool)
    requires P.Inv(p) && p.producer.Ready?
    ensures P.Run(p, events, q) && P.Inv(q) && events == [P.Finish(failed), P.Broadcast]
    ensures q == p.(done := true, err := p.err || failed, producer := P.Over, consumer := P.Wake(p.consumer))
  {
    assert P.Run(p, [], p);
    events, q := Extend1(p, [], p, P.Finish(failed));
    events, q := Extend1(p, events, q, P.Broadcast);
  }

  lemma CloseSteps(p: P.Spool) returns (events: seq<P.Event>, q: P.Spool)
    requires P.Inv(p) && p.closer.Open?
    ensures P.Run(p, events, q) && P.Inv(q) && events == [P.Close, P.CloseBroadcast]
    ensures q == p.(closed := true, closer := P.Closed, consumer := P.Wake(p.consumer))
  {
    assert P.Run(p, [], p);
    events, q := Extend1(p, [], p, P.Close);
    events, q := Extend1(p, events, q, P.CloseBroadcast);
  }

  class Sink {
    var out: seq<byte>

    constructor ()
      ensures out == []
    {
      out := [];
    }
  }

  // ----- fetching -----------------------------------------------------------

  /** One body read: counted on the link, and pushed if there is something to push. */
  method PushRead(link: Link, buf: ChunkBuf, r: BodyRead) returns (stored: bool)
    requires r.Valid() && buf.Valid() && !buf.closed
    modifies link`BytesIn, buf`file, buf`written
    ensures buf.Valid() && buf.file == old(buf.file) + Kept(r)
    ensures link.BytesIn == old(link.BytesIn) + |r.slice| && stored == Whole(r)
  {
    stored := true;
    if |r.slice| > 0 {
      link.BytesIn := link.BytesIn + |r.slice|;
      stored := buf.Push(r.ctxDone, r.slice, r.disk);
    }
  }

  /** The reads that FetchChunkOnce takes from a body: all up to the last one of them, each once and in order. */
  method ReadBody(link: Link, buf: ChunkBuf, a: Attempt, end: int, expected: int)
    returns (ok: bool, pushed: nat)
    requires ValidReads(a) && F.Accepted(a.reply, end) && buf.Valid() && !buf.closed
    modifies link`BytesIn, buf`file, buf`written
    ensures buf.Valid() && buf.file == old(buf.file) + Spooled(a, end)
    ensures link.BytesIn == old(link.BytesIn) + Credited(a, end)
    ensures pushed == Advance(a, end) && (ok <==> Succeeds(a, end, expected))
  {
    ghost var rs := Body(a);
    pushed := 0;
    var fetched := 0;
    var k := 0;
    while true
      invariant 0 <= k <= |a.body| && forall j :: 0 <= j < k ==> !Last(rs[j])
      invariant buf.Valid() && buf.file == old(buf.file) + Bytes(rs, k)
      invariant link.BytesIn == old(link.BytesIn) + Length(rs, k)
      invariant pushed == fetched == Length(rs, k)
      decreases |a.body| - k
    {
      var r := if k < |a.body| then a.body[k] else BODY_END;
      assert r == rs[k] && r.Valid();
      Assoc(old(buf.file), Bytes(rs, k), Kept(r));
      if Last(r) {
        LastDecides(a, end, expected, k);
      }
      var stored := PushRead(link, buf, r);
      if !stored {
        return false, pushed;
      }
      fetched := fetched + |r.slice|;
      pushed := pushed + |r.slice|;
      if r.ending.Eof? {
        break;
      }
      if r.ending.ReadError? {
        return false, pushed;
      }
      k := k + 1;
    }
    ok := fetched == expected;
  }

  /** One request and its body: what reaches the spool, and whether it completes the chunk, are as the script says. */
  method FetchChunkOnce(link: Link, curStart: int, end: int, buf: ChunkBuf, a: Attempt, pushed0: nat)
    returns (ok: bool, pushed: nat)
    requires ValidReads(a) && buf.Valid() && !buf.closed
    modifies link`ActiveConns, link`TotalConns, link`BytesIn, buf`file, buf`written
    ensures buf.Valid() && buf.file == old(buf.file) + Spooled(a, end)
    ensures pushed == pushed0 + Advance(a, end) && (ok <==> Succeeds(a, end, end - curStart + 1))
    ensures link.BytesIn == old(link.BytesIn) + Credited(a, end)
    ensures link.ActiveConns == old(link.ActiveConns) && link.TotalConns == old(link.TotalConns) + 1
  {
    link.ActiveConns := link.ActiveConns + 1;
    link.TotalConns := link.TotalConns + 1;
    ok, pushed := false, pushed0;
    if F.Accepted(a.reply, end) {
      var moved;
      ok, moved := ReadBody(link, buf, a, end, end - curStart + 1);
      pushed := pushed0 + moved;
    }
    link.ActiveConns := link.ActiveConns - 1;
  }

  /**
   * The whole fetch of bytes start..end over one link: as many requests as the
   * script calls for, the bytes they leave in the spool, and how it ends; as
   * events, it is a complete run of the fetch machine.
   */
  method FetchChunk(link: Link, start: int, end: int, buf: ChunkBuf, script: seq<Attempt>)
    returns (ghost events: seq<(F.Event, bool)>, ghost f: F.Fetch)
    requires ValidScript(script)
    requires buf.Valid() && buf.file == [] && !buf.closed && !buf.done && buf.err.None?
    modifies link`ActiveConns, link`TotalConns, link`BytesIn, buf`file, buf`written, buf`done, buf`err
    ensures var m := Made(script, start, end);
            && buf.Valid() && buf.done && buf.file == Stored(script, end, m) && buf.err == Verdict(script, start, end, m)
            && link.BytesIn == old(link.BytesIn) + Credits(script, end, m)
            && link.TotalConns == old(link.TotalConns) + m
    ensures link.ActiveConns == old(link.ActiveConns)
    ensures events == ScriptEvents(script, start, end) && F.Run(start, end, F.INIT, events, f)
    ensures f.phase == F.Finished(buf.err) && f.data == buf.file && |f.spans| == link.TotalConns - old(link.TotalConns)
  {
    events := ScriptEvents(script, start, end);
    f := ScriptRun(start, end, script);
    ghost var m := RunAttempts(link, start, end, buf, script);
    OneIsMade(script, start, end, m, Made(script, start, end));
  }

  /** The body of the retry loop of fetchChunk: whether it was the last time round. */
  method TryOnce(link: Link, start: int, end: int, buf: ChunkBuf, script: seq<Attempt>, attempt: nat, pushed0: nat)
    returns (over: bool, pushed: nat)
    requires ValidScript(script) && attempt < |script|
    requires buf.Valid() && !buf.closed && !buf.done && buf.err.None?
    requires pushed0 == Pushed(script, end, attempt)
    modifies link`ActiveConns, link`TotalConns, link`BytesIn, buf`file, buf`written, buf`done, buf`err
    ensures buf.Valid() && link.ActiveConns == old(link.ActiveConns) && buf.done == over
    ensures if StoppedAt(script, attempt)
            then && over && buf.err == Some(F.ContextDone)
                 && buf.file == old(buf.file) && link.BytesIn == old(link.BytesIn) && link.TotalConns == old(link.TotalConns)
            else && buf.file == old(buf.file) + Spooled(script[attempt], end)
                 && link.BytesIn == old(link.BytesIn) + Credited(script[attempt], end)
                 && link.TotalConns == old(link.TotalConns) + 1
                 && (over <==> EndsAt(script, start, end, attempt))
                 && buf.err == (if over && !SucceedsAt(script, start, end, attempt) then Some(F.ContextDone) else None)
    ensures !over ==> pushed == Pushed(script, end, attempt + 1)
  {
    var a := script[attempt];
    if a.ctxAtHead || (attempt > 0 && a.ctxInBackoff) {
      buf.Finish(Some(F.ContextDone));
      return true, pushed0;
    }
    var ok;
    ok, pushed := FetchChunkOnce(link, start + pushed0, end, buf, a, pushed0);
    if ok {
      buf.Finish(None);
      return true, pushed;
    }
    if a.ctxAfter {
      buf.Finish(Some(F.ContextDone));
      return true, pushed;
    }
    over := false;
  }

  /** The retry loop of fetchChunk, which makes m attempts. */
  method RunAttempts(link: Link, start: int, end: int, buf: ChunkBuf, script: seq<Attempt>) returns (ghost m: nat)
    requires ValidScript(script)
    requires buf.Valid() && buf.file == [] && !buf.closed && !buf.done && buf.err.None?
    modifies link`ActiveConns, link`TotalConns, link`BytesIn, buf`file, buf`written, buf`done, buf`err
    ensures IsMade(script, start, end, m)
    ensures buf.Valid() && buf.done && buf.file == Stored(script, end, m) && buf.err == Verdict(script, start, end, m)
    ensures link.BytesIn == old(link.BytesIn) + Credits(script, end, m)
    ensures link.TotalConns == old(link.TotalConns) + m && link.ActiveConns == old(link.ActiveConns)
  {
    var pushed := 0;
    m := 0;
    for attempt := 0 to F.MAX_CHUNK_ATTEMPTS
      invariant m == attempt && GoesOn(script, start, end, m)
      invariant buf.Valid() && !buf.closed && !buf.done && buf.err.None?
      invariant buf.file == Stored(script, end, m) && pushed == Pushed(script, end, m)
      invariant link.BytesIn == old(link.BytesIn) + Credits(script, end, m)
      invariant link.ActiveConns == old(link.ActiveConns) && link.TotalConns == old(link.TotalConns) + m
    {
      var over;
      over, pushed := TryOnce(link, start, end, buf, script, attempt, pushed);
      if !StoppedAt(script, attempt) {
        m := m + 1;
      } else {
        StopVerdict(script, start, end, m);
      }
      if over {
        return;
      }
    }
    StopVerdict(script, start, end, m);
    buf.Finish(Some(F.Exhausted));
  }
}
