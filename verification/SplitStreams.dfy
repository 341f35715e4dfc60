/** The spools of a split, seen as the atomic streams that SpoolProtocol's locking implements. */
module SplitStreams {
  import opened Prelude
  import opened SplitMachine
  import P = SpoolProtocol
  import F = Fetcher

  /** How many bytes of chunk i the drainer has given out. */
  function Drained(s: State, i: nat): nat
    requires i < |s.chunks|
  {
    match s.drain
    case Completed => |s.chunks[i].fetch.data|
    case Draining(j, off) => if i < j then |s.chunks[i].fetch.data| else if i == j then off else 0
    case Broken(j, off) => if i < j then |s.chunks[i].fetch.data| else if i == j then off else 0
  }

  /** How drainTo returned for chunk i, if it did. */
  function Ended(s: State, i: nat): Option<P.Result> {
    match s.drain
    case Completed => Some(P.Nil)
    case Draining(j, _) => if i < j then Some(P.Nil) else None
    case Broken(j, _) => if i < j then Some(P.Nil) else if i == j then Some(P.Error) else None
  }

  function StreamOf(s: State, i: nat): P.Stream
    requires i < |s.chunks|
  {
    var f := s.chunks[i].fetch;
    P.Stream(f.data, if f.phase.Finished? then Some(f.phase.err.Some?) else None, Drained(s, i), Ended(s, i))
  }

  /** Nothing, one atomic step, or an append followed by another. */
  ghost predicate AtMostTwo(a: P.Stream, b: P.Stream) {
    var m := a.(data := b.data);
    b == a || P.AtomicStep(a, b) || (P.AtomicStep(a, m) && P.AtomicStep(m, b))
  }

  lemma WorkOnStream(c: Cfg, s: State, w: nat, e: F.Event, i: nat)
    requires c.Valid() && Inv(c, s) && Enabled(c, s, Work(w, e)) && i == s.workers[w].idx
    ensures AtMostTwo(StreamOf(s, i), StreamOf(Next(c, s, Work(w, e)), i))
  {
    assert HeldWell(s, w);
    var (a, b) := (StreamOf(s, i), StreamOf(Next(c, s, Work(w, e)), i));
    F.StepGrows(c.starts[i], c.ends[i], s.chunks[i].fetch, e, s.cancelled);
    assert a.finished.None? && a.data <= b.data;
  }

  lemma DrainOfStream(c: Cfg, s: State, e: Event, i: nat)
    requires c.Valid() && Inv(c, s) && Enabled(c, s, e) && (e.Write? || e.Advance?) && i < |s.chunks|
    ensures AtMostTwo(StreamOf(s, i), StreamOf(Next(c, s, e), i))
  {
  }

  lemma StreamUntouched(c: Cfg, s: State, e: Event, i: nat)
    requires c.Valid() && Inv(c, s) && Enabled(c, s, e) && !e.Write? && !e.Advance? && i < |s.chunks|
    requires e.Work? ==> i != s.workers[e.w].idx
    ensures StreamOf(s, i) == StreamOf(Next(c, s, e), i)
  {
  }

  /**
   * Every step of the split acts on every spool as at most two of the atomic steps
   * that the locking protocol of a spool provides.
   */
  lemma StepsAreAtomic(c: Cfg, s: State, e: Event, i: nat)
    requires c.Valid() && Inv(c, s) && Enabled(c, s, e) && i < |s.chunks|
    ensures AtMostTwo(StreamOf(s, i), StreamOf(Next(c, s, e), i))
  {
    if e.Write? || e.Advance? {
      DrainOfStream(c, s, e, i);
    } else if e.Work? && i == s.workers[e.w].idx {
      WorkOnStream(c, s, e.w, e.e, i);
    } else {
      StreamUntouched(c, s, e, i);
    }
  }
}
