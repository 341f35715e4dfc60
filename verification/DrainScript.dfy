/**
 * What the fetcher, close() and the client do around one drainTo, as a script, and
 * the events of the locking protocol that the drain then is.
 */
module DrainScript {
  import opened Prelude
  import F = Fetcher
  import P = SpoolProtocol

  const READ_BUFFER: nat := P.READ_BUFFER

  /** An operation on the spool by someone else than the drainer; one that cannot happen any more does nothing. */
  datatype Op = Append(bytes: seq<byte>, disk: F.Push) | End(e: Option<F.Failure>) | Shut

  /** One file read and client write: how many bytes the read yields at most, what the client takes, and which of them fails. */
  datatype Copy = Copy(read: nat, accept: nat, fails: bool, readFails: bool)

  datatype DrainResult =
    | Ok | FetchFailed(failure: F.Failure) | WriteFailed | ShortWrite | ReadFailed | SpoolClosed | StillRunning

  datatype Round = Round(before: seq<Op>, copies: seq<Copy>, recheck: seq<Op>)

  const WHOLE: Copy := Copy(READ_BUFFER, READ_BUFFER, false, false)

  /** How much a read of at most avail bytes yields, and how much of that the client takes. */
  function Moved(copy: Copy, avail: nat): (r: (nat, nat))
    requires avail > 0
    ensures r.1 <= r.0 <= avail && r.0 <= READ_BUFFER && (r.0 == 0 ==> copy.readFails)
    ensures 0 < copy.read <= avail && copy.read <= READ_BUFFER ==> r.0 == copy.read
    ensures copy.accept <= r.0 ==> r.1 == copy.accept
    ensures copy.accept >= r.0 ==> r.1 == r.0
  {
    var toRead := if READ_BUFFER > avail then avail else READ_BUFFER;
    var n := if copy.read == 0 && !copy.readFails then 1 else if copy.read > toRead then toRead else copy.read;
    (n, if copy.accept > n then n else copy.accept)
  }

  function Step(s: P.Spool, e: P.Event): P.Spool {
    if P.Enabled(s, e) then P.Next(s, e) else s
  }

  function After(s: P.Spool, events: seq<P.Event>): P.Spool
    decreases |events|
  {
    if events == [] then s else After(Step(s, events[0]), events[1..])
  }

  lemma {:induction false} RunIsAfter(s: P.Spool, events: seq<P.Event>, t: P.Spool)
    requires P.Run(s, events, t)
    ensures After(s, events) == t
    decreases |events|
  {
    if events != [] {
      RunIsAfter(P.Next(s, events[0]), events[1..], t);
    }
  }

  /** What of an append reaches the file. */
  function KeptOf(bytes: seq<byte>, disk: F.Push): seq<byte>
    requires disk.Refused? ==> disk.kept < |bytes|
  {
    if disk.Stored? then bytes else bytes[..disk.kept]
  }

  function OpEvents(s: P.Spool, op: Op): seq<P.Event> {
    match op
    case Append(bytes, disk) =>
      if s.done || s.closed || (disk.Refused? && disk.kept >= |bytes|) || KeptOf(bytes, disk) == [] then []
      else [P.FileWrite(KeptOf(bytes, disk)), P.Publish, P.Broadcast]
    case End(e) => if s.done then [] else [P.Finish(e.Some?), P.Broadcast]
    case Shut => if s.closed then [] else [P.Close, P.CloseBroadcast]
  }

  function OpsEvents(s: P.Spool, ops: seq<Op>): seq<P.Event>
    decreases |ops|
  {
    if ops == [] then []
    else OpEvents(s, ops[0]) + OpsEvents(After(s, OpEvents(s, ops[0])), ops[1..])
  }

  function CopyEvent(copy: Copy, avail: nat): P.Event
    requires avail > 0
  {
    var (n, nw) := Moved(copy, avail);
    if n == 0 then P.ReadFails else P.Copy(n, nw, copy.fails || copy.readFails)
  }

  /** A client that the script says no more of takes everything. */
  function First(copies: seq<Copy>): Copy {
    if copies == [] then WHOLE else copies[0]
  }

  function Rest(copies: seq<Copy>): seq<Copy> {
    if copies == [] then [] else copies[1..]
  }

  /** Copies until everything seen is given out or something fails. */
  function CopyEvents(s: P.Spool, copies: seq<Copy>): seq<P.Event>
    decreases if s.consumer.Copying? then s.consumer.avail else 0
  {
    if !s.consumer.Copying? || s.consumer.avail == 0 then []
    else
      var e := CopyEvent(First(copies), s.consumer.avail);
      var t := Step(s, e);
      [e] + if t.consumer.Copying? && t.consumer.avail < s.consumer.avail
            then CopyEvents(t, Rest(copies)) else []
  }

  lemma CopyUnfolds(s: P.Spool, copies: seq<Copy>, e: P.Event, t: P.Spool)
    requires s.consumer.Copying? && s.consumer.avail > 0
    requires e == CopyEvent(First(copies), s.consumer.avail) && P.Enabled(s, e) && t == P.Next(s, e)
    requires t.consumer.Copying? ==> t.consumer.avail < s.consumer.avail
    ensures CopyEvents(s, copies) == [e] + CopyEvents(t, Rest(copies))
    ensures var end := CopyEnds(First(copies), s.consumer.avail);
            CopiesEnd(s, copies) == if end.Some? then end else CopiesEnd(t, Rest(copies))
  {
  }

  lemma AssocEvents(a: seq<P.Event>, b: seq<P.Event>, c: seq<P.Event>)
    ensures a + (b + c) == (a + b) + c
  {
  }

  /** A copy loop that began in p has come to s, with `left` to come. */
  ghost predicate MadeSoFar(p: P.Spool, copies: seq<Copy>, made: seq<P.Event>, s: P.Spool, left: seq<Copy>) {
    && P.Run(p, made, s) && CopyEvents(p, copies) == made + CopyEvents(s, left)
    && CopiesEnd(p, copies) == CopiesEnd(s, left)
  }

  /** s has made the events `made` of a copy loop that began in p; one more copy. */
  lemma NextCopy(p: P.Spool, copies: seq<Copy>, made: seq<P.Event>, s: P.Spool, left: seq<Copy>, e: P.Event, t: P.Spool)
    requires MadeSoFar(p, copies, made, s, left)
    requires s.consumer.Copying? && s.consumer.avail > 0
    requires e == CopyEvent(First(left), s.consumer.avail) && P.Enabled(s, e) && t == P.Next(s, e)
    requires t.consumer.Copying? ==> t.consumer.avail < s.consumer.avail
    ensures var end := CopyEnds(First(left), s.consumer.avail);
            if end.None? then MadeSoFar(p, copies, made + [e], t, Rest(left))
            else && P.Run(p, made + [e], t) && CopyEvents(p, copies) == (made + [e]) + CopyEvents(t, Rest(left))
                 && CopiesEnd(p, copies) == end
  {
    P.RunExtends(p, made, s, e);
    CopyUnfolds(s, left, e, t);
    AssocEvents(made, [e], CopyEvents(t, Rest(left)));
  }

  /**
   * How one copy ends the drain, if it does: a client that fails comes before a short
   * write, and that before a file that cannot be read.
   */
  function CopyEnds(copy: Copy, avail: nat): Option<DrainResult>
    requires avail > 0
  {
    var (n, nw) := Moved(copy, avail);
    if n > 0 && copy.fails then Some(WriteFailed)
    else if n != nw then Some(ShortWrite)
    else if copy.readFails then Some(ReadFailed)
    else None
  }

  /** How a copy loop ends the drain, if it does. */
  function CopiesEnd(s: P.Spool, copies: seq<Copy>): Option<DrainResult>
    decreases if s.consumer.Copying? then s.consumer.avail else 0
  {
    if !s.consumer.Copying? || s.consumer.avail == 0 then None
    else
      var end := CopyEnds(First(copies), s.consumer.avail);
      var t := Step(s, CopyEvent(First(copies), s.consumer.avail));
      if end.Some? then end
      else if t.consumer.Copying? && t.consumer.avail < s.consumer.avail then CopiesEnd(t, Rest(copies)) else None
  }

  /** From the view to the end of a turn of drainTo's loop. */
  function CopyingEvents(s: P.Spool, round: Round): seq<P.Event>
    requires s.consumer.Copying?
  {
    var copies := CopyEvents(s, round.copies);
    var t := After(s, copies);
    if t.consumer.Returned? then copies
    else copies + ((if s.consumer.view.done then OpsEvents(t, round.recheck) else []) + [P.Tail])
  }

  function LookEvents(s: P.Spool): seq<P.Event> {
    if s.consumer.Checking? then [P.Check] else []
  }

  /** One turn of drainTo's loop. */
  function TurnEvents(s: P.Spool, round: Round): seq<P.Event> {
    var ops := OpsEvents(s, round.before);
    var look := LookEvents(After(s, ops));
    var t := After(s, ops + look);
    (ops + look) + if t.consumer.Copying? then CopyingEvents(t, round) else []
  }

  /** The whole of drainTo: turns until it returns or the script says no more. */
  function DrainEvents(s: P.Spool, rounds: seq<Round>): seq<P.Event>
    decreases |rounds|
  {
    if rounds == [] || s.consumer.Returned? then []
    else TurnEvents(s, rounds[0]) + DrainEvents(After(s, TurnEvents(s, rounds[0])), rounds[1..])
  }

  /** How a turn ends the drain, if it does; e is the error the fetch ended with, if it had one. */
  function CopyingEnds(s: P.Spool, round: Round, e: F.Failure): Option<DrainResult>
    requires s.consumer.Copying?
  {
    var end := CopiesEnd(s, round.copies);
    if end.Some? || !s.consumer.view.done then end
    else Some(if s.consumer.view.err then FetchFailed(e) else Ok)
  }

  function TurnEnds(s: P.Spool, round: Round, e: F.Failure): Option<DrainResult> {
    var ops := OpsEvents(s, round.before);
    var t := After(s, ops + LookEvents(After(s, ops)));
    if t.consumer.Returned? then Some(SpoolClosed)
    else if t.consumer.Copying? then CopyingEnds(t, round, e)
    else None
  }

  function DrainEnds(s: P.Spool, rounds: seq<Round>, e: F.Failure): DrainResult
    decreases |rounds|
  {
    if rounds == [] || s.consumer.Returned? then StillRunning
    else
      var end := TurnEnds(s, rounds[0], e);
      if end.Some? then end.value else DrainEnds(After(s, TurnEvents(s, rounds[0])), rounds[1..], e)
  }

  /** A drain that began in p has come to s, with the rounds `left` to come. */
  ghost predicate DrainedSoFar(p: P.Spool, rounds: seq<Round>, made: seq<P.Event>, s: P.Spool, left: seq<Round>, e: F.Failure) {
    && P.Run(p, made, s) && DrainEvents(p, rounds) == made + DrainEvents(s, left)
    && DrainEnds(p, rounds, e) == DrainEnds(s, left, e)
  }

  /** One more turn. */
  lemma NextTurn(p: P.Spool, rounds: seq<Round>, made: seq<P.Event>, s: P.Spool, left: seq<Round>, more: seq<P.Event>, t: P.Spool,
                 e: F.Failure)
    requires DrainedSoFar(p, rounds, made, s, left, e) && left != [] && !s.consumer.Returned?
    requires P.Run(s, more, t) && more == TurnEvents(s, left[0])
    ensures var end := TurnEnds(s, left[0], e);
            if end.None? then DrainedSoFar(p, rounds, made + more, t, left[1..], e)
            else && P.Run(p, made + more, t) && DrainEvents(p, rounds) == (made + more) + DrainEvents(t, left[1..])
                 && DrainEnds(p, rounds, e) == end.value
  {
    P.RunJoins(p, made, s, more, t);
    RunIsAfter(s, more, t);
    AssocEvents(made, more, DrainEvents(t, left[1..]));
  }

  // ----- what a script comes to -------------------------------------------

  /** A client that takes what it is given, from a file that can be read. */
  predicate Willing(copies: seq<Copy>) {
    forall i :: 0 <= i < |copies| ==> copies[i].accept >= READ_BUFFER && !copies[i].fails && !copies[i].readFails
  }

  lemma {:induction false} AfterJoins(s: P.Spool, a: seq<P.Event>, b: seq<P.Event>)
    ensures After(s, a + b) == After(After(s, a), b)
    decreases |a|
  {
    if a == [] {
      assert a + b == b;
    } else {
      assert (a + b)[0] == a[0] && (a + b)[1..] == a[1..] + b;
      AfterJoins(Step(s, a[0]), a[1..], b);
    }
  }

  lemma {:induction false} AfterKeepsInv(s: P.Spool, events: seq<P.Event>)
    requires P.Inv(s)
    ensures P.Inv(After(s, events))
    decreases |events|
  {
    if events != [] {
      if P.Enabled(s, events[0]) {
        P.StepKeepsInv(s, events[0]);
      }
      AfterKeepsInv(Step(s, events[0]), events[1..]);
    }
  }

  /** Nothing but closing can still happen to a finished spool, and a drainer that is copying does not notice. */
  lemma {:induction false} OpsOnFinished(s: P.Spool, ops: seq<Op>)
    requires s.done && s.consumer.Copying? && !s.closer.ClosedUnsignalled? && (s.closed <==> s.closer.Closed?)
    ensures var t := After(s, OpsEvents(s, ops)); t == s.(closed := t.closed, closer := t.closer)
    decreases |ops|
  {
    if ops != [] {
      var events := OpEvents(s, ops[0]);
      if events != [] {
        assert events == [P.Close] + [P.CloseBroadcast];
        AfterJoins(s, [P.Close], [P.CloseBroadcast]);
      }
      AfterJoins(s, events, OpsEvents(After(s, events), ops[1..]));
      OpsOnFinished(After(s, events), ops[1..]);
    }
  }

  lemma {:induction false} WillingCopies(s: P.Spool, copies: seq<Copy>)
    requires P.Inv(s) && s.consumer.Copying? && Willing(copies)
    ensures var t := After(s, CopyEvents(s, copies));
            && P.Inv(t) && t.consumer == P.Copying(0, s.consumer.view) && t.delivered == s.delivered + s.consumer.avail
            && t == s.(consumer := t.consumer, delivered := t.delivered, out := t.out)
    decreases s.consumer.avail
  {
    if s.consumer.avail > 0 {
      var e := CopyEvent(First(copies), s.consumer.avail);
      assert P.Enabled(s, e);
      var t := P.Next(s, e);
      P.StepKeepsInv(s, e);
      CopyUnfolds(s, copies, e, t);
      AfterJoins(s, [e], CopyEvents(t, Rest(copies)));
      WillingCopies(t, Rest(copies));
    }
  }

  /**
   * A turn that finds something to do gives a willing client all that the spool
   * holds, and ends the drain if and only if the spool was finished: without an
   * error just when the fetch had none.
   */
  lemma WillingTurn(s: P.Spool, round: Round)
    requires P.Inv(s) && Willing(round.copies)
    requires var t := After(s, OpsEvents(s, round.before));
             t.consumer.Checking? && !t.closed && (t.done || t.written != t.delivered)
    ensures var t, u := After(s, OpsEvents(s, round.before)), After(s, TurnEvents(s, round));
            && u.delivered == t.written <= |t.file| && u.out == t.file[..t.written]
            && u.consumer == if t.done then P.Returned(if t.err then P.Error else P.Nil) else P.Checking
  {
    var ops := OpsEvents(s, round.before);
    var t := After(s, ops);
    AfterKeepsInv(s, ops);
    AfterJoins(s, ops, [P.Check]);
    var v := P.Next(t, P.Check);
    P.StepKeepsInv(t, P.Check);
    AfterJoins(s, ops + [P.Check], CopyingEvents(v, round));
    WillingEnd(v, round);
  }

  lemma WillingEnd(s: P.Spool, round: Round)
    requires P.Inv(s) && s.consumer.Copying? && !s.closed && s.closer.Open? && Willing(round.copies)
    requires s.consumer == P.Copying(s.written - s.delivered, P.View(s.done, s.err))
    ensures var u := After(s, CopyingEvents(s, round));
            && u.delivered == s.written <= |s.file| && u.out == s.file[..s.written]
            && u.consumer == if s.done then P.Returned(if s.err then P.Error else P.Nil) else P.Checking
  {
    var copies := CopyEvents(s, round.copies);
    var v := After(s, copies);
    WillingCopies(s, round.copies);
    var recheck := if s.done then OpsEvents(v, round.recheck) else [];
    AfterJoins(s, copies, recheck + [P.Tail]);
    TailAfter(v, recheck, round);
  }

  lemma TailAfter(s: P.Spool, recheck: seq<P.Event>, round: Round)
    requires P.Inv(s) && s.consumer == P.Copying(0, P.View(s.done, s.err)) && s.closer.Open? && s.delivered == s.written
    requires recheck == if s.done then OpsEvents(s, round.recheck) else []
    ensures var u := After(s, recheck + [P.Tail]);
            && u.delivered == s.delivered && u.out == s.out
            && u.consumer == if s.done then P.Returned(if s.err then P.Error else P.Nil) else P.Checking
  {
    AfterJoins(s, recheck, [P.Tail]);
    if s.done {
      OpsOnFinished(s, round.recheck);
    }
    var t := After(s, recheck);
    assert t == s.(closed := t.closed, closer := t.closer);
    OneEvent(t, P.Tail);
  }

  lemma OneEvent(s: P.Spool, e: P.Event)
    ensures After(s, [e]) == Step(s, e)
  {
    assert [e][1..] == [];
  }
}
