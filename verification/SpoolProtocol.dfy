/**
 * One chunkBuf between its fetcher and the drainer, at the granularity of its lock:
 * every critical section, file operation and broadcast is a step of its own. The
 * machine is shown to implement the atomic appends and drains that SplitMachine uses.
 */
module SpoolProtocol {
  import opened Prelude

  const READ_BUFFER: nat := 128 * 1024

  /** Where the fetcher is. Wrote(n): n bytes are in the file, `written` does not count them yet. */
  datatype Producer = Ready | Wrote(n: nat) | MustWake | MustWakeLast | Over

  datatype Result = Nil | Error

  /** What drainTo read under the lock. */
  datatype View = View(done: bool, err: bool)

  /** Where the drainer is. Copying(avail, v): avail bytes of the last view are still to be given out. */
  datatype Consumer =
    | Checking
    | Asleep
    | Copying(avail: nat, view: View)
    | Returned(result: Result)

  datatype Closer = Open | ClosedUnsignalled | Closed

  datatype Spool = Spool(
    file: seq<byte>,
    written: nat,
    done: bool,
    err: bool,
    closed: bool,
    producer: Producer,
    consumer: Consumer,
    closer: Closer,
    delivered: nat,
    out: seq<byte>)

  const INIT: Spool := Spool([], 0, false, false, false, Ready, Checking, Open, 0, [])

  datatype Event =
    | FileWrite(bytes: seq<byte>)       // push: the part of the slice the file took
    | Publish                           // push: written += n under the lock
    | Broadcast                         // push or finish, after unlocking
    | Finish(failed: bool)              // finish, under the lock
    | Close                             // close, under the lock
    | CloseBroadcast
    | Check                             // drainTo: lock, test, and sleep or take a view
    | Copy(n: nat, accepted: nat, failed: bool)   // read n file bytes, write them to the client
    | ReadFails                         // the file cannot be read
    | Tail                              // all of the view given out

  /** The condition under which drainTo waits is `written == delivered && !done && !closed`; this is its negation. */
  predicate MayProceed(s: Spool) {
    s.written != s.delivered || s.done || s.closed
  }

  predicate Enabled(s: Spool, e: Event) {
    match e
    case FileWrite(bytes) => s.producer.Ready? && bytes != []
    case Publish => s.producer.Wrote?
    case Broadcast => s.producer.MustWake? || s.producer.MustWakeLast?
    case Finish(_) => s.producer.Ready?
    case Close => s.closer.Open?
    case CloseBroadcast => s.closer.ClosedUnsignalled?
    case Check => s.consumer.Checking?
    case Copy(n, accepted, _) =>
      && s.consumer.Copying?
      && 1 <= n <= s.consumer.avail && n <= READ_BUFFER && accepted <= n
      && s.delivered + n <= |s.file|
    case ReadFails => s.consumer.Copying? && s.consumer.avail > 0
    case Tail => s.consumer.Copying? && s.consumer.avail == 0
  }

  function Wake(c: Consumer): Consumer {
    if c.Asleep? then Checking else c
  }

  function Next(s: Spool, e: Event): Spool
    requires Enabled(s, e)
  {
    match e
    case FileWrite(bytes) => s.(file := s.file + bytes, producer := Wrote(|bytes|))
    case Publish => s.(written := s.written + s.producer.n, producer := MustWake)
    case Broadcast => s.(producer := if s.producer.MustWake? then Ready else Over, consumer := Wake(s.consumer))
    case Finish(failed) => s.(done := true, err := s.err || failed, producer := MustWakeLast)
    case Close => s.(closed := true, closer := ClosedUnsignalled)
    case CloseBroadcast => s.(closer := Closed, consumer := Wake(s.consumer))
    case Check =>
      if !MayProceed(s) then s.(consumer := Asleep)
      else if s.closed then s.(consumer := Returned(Error))
      else s.(consumer := Copying(if s.written > s.delivered then s.written - s.delivered else 0, View(s.done, s.err)))
    case Copy(n, accepted, failed) =>
      var t := s.(out := s.out + s.file[s.delivered..s.delivered + accepted], delivered := s.delivered + accepted);
      if failed || accepted != n then t.(consumer := Returned(Error))
      else t.(consumer := Copying(s.consumer.avail - n, s.consumer.view))
    case ReadFails => s.(consumer := Returned(Error))
    case Tail =>
      if s.consumer.view.done && s.delivered >= s.written
      then s.(consumer := Returned(if s.consumer.view.err then Error else Nil))
      else s.(consumer := Checking)
  }

  // ----- the invariant ----------------------------------------------------

  predicate Finishing(p: Producer) {
    p.MustWakeLast? || p.Over?
  }

  ghost predicate Inv(s: Spool) {
    // the file is ahead of written, which is ahead of delivered
    && s.delivered <= s.written
    && s.written + (if s.producer.Wrote? then s.producer.n else 0) == |s.file|
    && s.out == s.file[..s.delivered]
    && (s.done <==> Finishing(s.producer))
    && (s.err ==> s.done)
    && (s.closed <==> !s.closer.Open?)
    // a view is never ahead of the spool, and a view that says done is final
    && (s.consumer.Copying? ==>
          && s.delivered + s.consumer.avail <= s.written
          && (s.consumer.view.done ==>
                s.done && s.consumer.view.err == s.err && s.delivered + s.consumer.avail == s.written))
    && (s.consumer == Returned(Nil) ==> s.done && !s.err && s.delivered == s.written)
    && NoLostWakeup(s)
  }

  /** A sleeping drainer that could proceed has a broadcast on its way. */
  ghost predicate NoLostWakeup(s: Spool) {
    s.consumer.Asleep? && MayProceed(s) ==>
      s.producer.MustWake? || s.producer.MustWakeLast? || s.closer.ClosedUnsignalled?
  }

  lemma StepKeepsInv(s: Spool, e: Event)
    requires Inv(s) && Enabled(s, e)
    ensures Inv(Next(s, e))
  {
    if e.Copy? {
      var (from, to) := (s.delivered, s.delivered + e.accepted);
      assert s.file[..from] + s.file[from..to] == s.file[..to];
    }
  }

  ghost predicate Run(s: Spool, events: seq<Event>, t: Spool)
    decreases |events|
  {
    if events == [] then s == t else Enabled(s, events[0]) && Run(Next(s, events[0]), events[1..], t)
  }

  lemma {:induction false} RunKeepsInv(s: Spool, events: seq<Event>, t: Spool)
    requires Inv(s) && Run(s, events, t)
    ensures Inv(t)
    decreases |events|
  {
    if events != [] {
      StepKeepsInv(s, events[0]);
      RunKeepsInv(Next(s, events[0]), events[1..], t);
    }
  }

  lemma {:induction false} RunJoins(s: Spool, first: seq<Event>, t: Spool, second: seq<Event>, u: Spool)
    requires Run(s, first, t) && Run(t, second, u)
    ensures Run(s, first + second, u)
    decreases |first|
  {
    if first == [] {
      assert first + second == second;
    } else {
      assert (first + second)[0] == first[0] && (first + second)[1..] == first[1..] + second;
      RunJoins(Next(s, first[0]), first[1..], t, second, u);
    }
  }

  /** Appends one step to a run. */
  lemma RunExtends(s: Spool, events: seq<Event>, t: Spool, e: Event)
    requires Run(s, events, t) && Enabled(t, e)
    ensures Run(s, events + [e], Next(t, e))
  {
    assert [e][1..] == [];
    assert Run(t, [e], Next(t, e));
    RunJoins(s, events, t, [e], Next(t, e));
  }

  /** What the fetcher put into the file, in order. */
  function Pushed(events: seq<Event>): seq<byte> {
    if events == [] then []
    else (if events[0].FileWrite? then events[0].bytes else []) + Pushed(events[1..])
  }

  lemma {:induction false} FileIsPushes(s: Spool, events: seq<Event>, t: Spool)
    requires Run(s, events, t)
    ensures t.file == s.file + Pushed(events)
    decreases |events|
  {
    if events != [] {
      FileIsPushes(Next(s, events[0]), events[1..], t);
    }
  }

  /**
   * In every interleaving the drainer has given out a prefix of what was pushed,
   * in order; it returns without an error only after finish(nil), with everything
   * given out; and it never sleeps through a change it is waiting for.
   */
  lemma StreamIsCorrect(events: seq<Event>, t: Spool)
    requires Run(INIT, events, t)
    ensures t.out <= Pushed(events) && t.delivered == |t.out| <= t.written <= |t.file|
    ensures t.consumer == Returned(Nil) ==> t.done && !t.err && t.out == Pushed(events)
    ensures NoLostWakeup(t)
    ensures t.consumer.Asleep? && (t.producer.Ready? || t.producer.Over?) && !t.closer.ClosedUnsignalled? ==>
              !t.done && !t.closed && t.out == Pushed(events)
  {
    RunKeepsInv(INIT, events, t);
    FileIsPushes(INIT, events, t);
    assert t.file == Pushed(events);
  }

  // ----- refinement of the atomic stream ----------------------------------

  /** The stream SplitMachine works with: whole appends, one finish, drains, one return. */
  datatype Stream = Stream(data: seq<byte>, finished: Option<bool>, drained: nat, ended: Option<Result>)

  function Abstract(s: Spool): Stream
    requires s.written <= |s.file|
  {
    Stream(
      s.file[..s.written],
      if s.done then Some(s.err) else None,
      s.delivered,
      if s.consumer.Returned? then Some(s.consumer.result) else None)
  }

  /** What SplitMachine allows on one chunk: a push, a finish, a write, an advance. */
  ghost predicate AtomicStep(a: Stream, b: Stream) {
    || (a.finished.None? && a.data <= b.data && b == a.(data := b.data))
    || (a.finished.None? && b.finished.Some? && b == a.(finished := b.finished))
    || (&& a.ended.None? && a.drained < b.drained <= |a.data|
        && b == a.(drained := b.drained))
    || (&& a.ended.None? && a.drained <= b.drained <= |a.data|
        && b == a.(drained := b.drained, ended := Some(Error)))
    || (&& a.ended.None? && a.finished.Some? && a.drained == |a.data|
        && b == a.(ended := Some(if a.finished.value then Error else Nil)))
  }

  /** Every step of the locking protocol is one atomic step of the stream, or none. */
  lemma Refines(s: Spool, e: Event)
    requires Inv(s) && Enabled(s, e)
    ensures Inv(Next(s, e))
    ensures Abstract(Next(s, e)) == Abstract(s) || AtomicStep(Abstract(s), Abstract(Next(s, e)))
  {
    StepKeepsInv(s, e);
    var t := Next(s, e);
    match e
    case FileWrite(bytes) => assert t.file[..t.written] == s.file[..s.written];
    case Publish => assert s.file[..s.written] <= s.file[..t.written];
    case _ =>
  }
}
