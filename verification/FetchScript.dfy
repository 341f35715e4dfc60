/**
 * What the network, the disk and the context do to one fetch of a chunk, as a
 * script, and what the fetch has to make of it: which reads are taken, which bytes
 * reach the spool, how many requests there are and how it ends. Every script is a
 * run of the fetch machine.
 */
module FetchScript {
  import opened Prelude
  import F = Fetcher

  /** One body read: its bytes, the context and the disk at the push, and what the read reports. */
  datatype BodyRead = BodyRead(slice: seq<byte>, ctxDone: bool, disk: F.Push, ending: F.Ending) {
    predicate Valid() {
      |slice| <= F.READ_SLICE_SIZE && (disk.Refused? ==> disk.kept < |slice|)
    }
  }

  /** One attempt: the three context checks of fetchChunk, the reply, and the body. A body that says no more ends with EOF. */
  datatype Attempt = Attempt(ctxAtHead: bool, ctxInBackoff: bool, reply: F.Reply, body: seq<BodyRead>, ctxAfter: bool)

  const BODY_END: BodyRead := BodyRead([], false, F.Stored, F.Eof)

  function Body(a: Attempt): (rs: seq<BodyRead>)
    ensures |rs| == |a.body| + 1 && rs[|a.body|] == BODY_END
    ensures forall k :: 0 <= k < |a.body| ==> rs[k] == a.body[k]
  {
    a.body + [BODY_END]
  }

  // ----- one body -------------------------------------------------------------

  /** The whole slice reaches the spool. */
  predicate Whole(r: BodyRead) {
    r.slice == [] || (!r.ctxDone && r.disk.Stored?)
  }

  /** No further read follows this one. */
  predicate Last(r: BodyRead) {
    !Whole(r) || !r.ending.More?
  }

  /** What of the slice reaches the spool. */
  function Kept(r: BodyRead): (s: seq<byte>)
    ensures s <= r.slice
  {
    if Whole(r) then r.slice else if r.ctxDone || r.disk.kept > |r.slice| then [] else r.slice[..r.disk.kept]
  }

  ghost predicate AllValid(rs: seq<BodyRead>) {
    forall k :: 0 <= k < |rs| ==> rs[k].Valid()
  }

  /** The number of reads taken: up to the first last one. */
  function UpToLast(rs: seq<BodyRead>, k: nat): (n: nat)
    requires k < |rs| && Last(rs[|rs| - 1])
    ensures k < n <= |rs| && Last(rs[n - 1]) && forall j :: k <= j < n - 1 ==> !Last(rs[j])
    decreases |rs| - k
  {
    if Last(rs[k]) then k + 1 else UpToLast(rs, k + 1)
  }

  function Taken(a: Attempt): (n: nat)
    ensures 0 < n <= |Body(a)| && Last(Body(a)[n - 1]) && forall j :: 0 <= j < n - 1 ==> !Last(Body(a)[j])
  {
    UpToLast(Body(a), 0)
  }

  /** What the first n reads leave in the spool. */
  function Bytes(rs: seq<BodyRead>, n: nat): seq<byte>
    requires n <= |rs|
  {
    if n == 0 then [] else Bytes(rs, n - 1) + Kept(rs[n - 1])
  }

  /** How many bytes the first n reads carried. */
  function Length(rs: seq<BodyRead>, n: nat): nat
    requires n <= |rs|
  {
    if n == 0 then 0 else Length(rs, n - 1) + |rs[n - 1].slice|
  }

  // ----- one attempt ----------------------------------------------------------

  ghost predicate ValidReads(a: Attempt) {
    AllValid(Body(a))
  }

  /** What an attempt leaves in the spool. */
  function Spooled(a: Attempt, end: int): seq<byte> {
    if F.Accepted(a.reply, end) then Bytes(Body(a), Taken(a)) else []
  }

  /** What an attempt credits to the link. */
  function Credited(a: Attempt, end: int): nat {
    if F.Accepted(a.reply, end) then Length(Body(a), Taken(a)) else 0
  }

  /** By how much an attempt moves the source's counter pushed: a slice that is not stored whole does not count. */
  function Advance(a: Attempt, end: int): nat {
    if !F.Accepted(a.reply, end) then 0
    else if Whole(Body(a)[Taken(a) - 1]) then Length(Body(a), Taken(a))
    else Length(Body(a), Taken(a) - 1)
  }

  /** The reply is a body, all of it was stored, it ended, and it had as many bytes as were missing. */
  predicate Succeeds(a: Attempt, end: int, missing: int) {
    && F.Accepted(a.reply, end)
    && var r := Body(a)[Taken(a) - 1];
       Whole(r) && r.ending.Eof? && Length(Body(a), Taken(a)) == missing
  }

  /** What is decided by the first read that is a last one. */
  lemma LastDecides(a: Attempt, end: int, missing: int, k: nat)
    requires F.Accepted(a.reply, end)
    requires k < |Body(a)| && Last(Body(a)[k]) && forall j :: 0 <= j < k ==> !Last(Body(a)[j])
    ensures var (rs, r) := (Body(a), Body(a)[k]);
            && Spooled(a, end) == Bytes(rs, k) + Kept(r) && Credited(a, end) == Length(rs, k) + |r.slice|
            && Advance(a, end) == Length(rs, k) + (if Whole(r) then |r.slice| else 0)
            && (Succeeds(a, end, missing) <==> Whole(r) && r.ending.Eof? && Length(rs, k) + |r.slice| == missing)
  {
    assert Taken(a) == k + 1;
  }

  /** The event of the step machine that a body read amounts to. */
  function ReadEvent(r: BodyRead): F.Event {
    F.Read(
      r.slice,
      if r.slice == [] then F.Stored else if r.ctxDone then F.Refused(0) else r.disk,
      r.ending)
  }

  function ReadEvents(rs: seq<BodyRead>, n: nat): seq<(F.Event, bool)>
    requires n <= |rs|
  {
    if n == 0 then [] else ReadEvents(rs, n - 1) + [(ReadEvent(rs[n - 1]), rs[n - 1].ctxDone)]
  }

  /** What an attempt is to the step machine. */
  function AttemptEvents(a: Attempt, end: int): seq<(F.Event, bool)> {
    [(F.Ask(a.reply), false)] + (if F.Accepted(a.reply, end) then ReadEvents(Body(a), Taken(a)) else [])
  }

  // ----- a whole fetch --------------------------------------------------------

  ghost predicate ValidScript(script: seq<Attempt>) {
    |script| == F.MAX_CHUNK_ATTEMPTS && forall k :: 0 <= k < |script| ==> ValidReads(script[k])
  }

  /** The context is seen cancelled before attempt k. */
  predicate StoppedAt(script: seq<Attempt>, k: nat)
    requires k < |script|
  {
    script[k].ctxAtHead || (k > 0 && script[k].ctxInBackoff)
  }

  /** Where the first k attempts bring the counter pushed. */
  function Pushed(script: seq<Attempt>, end: int, k: nat): nat
    requires k <= |script|
  {
    if k == 0 then 0 else Pushed(script, end, k - 1) + Advance(script[k - 1], end)
  }

  /** What the first k attempts leave in the spool. */
  function Stored(script: seq<Attempt>, end: int, k: nat): seq<byte>
    requires k <= |script|
  {
    if k == 0 then [] else Stored(script, end, k - 1) + Spooled(script[k - 1], end)
  }

  function Credits(script: seq<Attempt>, end: int, k: nat): nat
    requires k <= |script|
  {
    if k == 0 then 0 else Credits(script, end, k - 1) + Credited(script[k - 1], end)
  }

  predicate SucceedsAt(script: seq<Attempt>, start: int, end: int, k: nat)
    requires k < |script|
  {
    Succeeds(script[k], end, end - start + 1 - Pushed(script, end, k))
  }

  /** Attempt k is the last one: it completes the chunk, or the context is seen cancelled after it. */
  predicate EndsAt(script: seq<Attempt>, start: int, end: int, k: nat)
    requires k < |script|
  {
    SucceedsAt(script, start, end, k) || script[k].ctxAfter
  }

  /** All of the first k attempts are made and lead to another one. */
  predicate GoesOn(script: seq<Attempt>, start: int, end: int, k: nat)
    requires k <= |script|
  {
    k == 0 || (GoesOn(script, start, end, k - 1) && !StoppedAt(script, k - 1) && !EndsAt(script, start, end, k - 1))
  }

  lemma {:induction false} GoesOnPast(script: seq<Attempt>, start: int, end: int, k: nat, j: nat)
    requires k <= |script| && GoesOn(script, start, end, k) && j < k
    ensures !StoppedAt(script, j) && !EndsAt(script, start, end, j)
    decreases k
  {
    if j < k - 1 {
      GoesOnPast(script, start, end, k - 1, j);
    }
  }

  /** m attempts are made, all in all: the script stops the fetch there, has no more, or ends it in the last of them. */
  predicate IsMade(script: seq<Attempt>, start: int, end: int, m: nat) {
    && m <= |script|
    && ((GoesOn(script, start, end, m) && (m < |script| ==> StoppedAt(script, m)))
        || (m > 0 && GoesOn(script, start, end, m - 1) && !StoppedAt(script, m - 1) && EndsAt(script, start, end, m - 1)))
  }

  function Made(script: seq<Attempt>, start: int, end: int): (m: nat)
    ensures IsMade(script, start, end, m)
  {
    MadeFrom(script, start, end, 0)
  }

  function MadeFrom(script: seq<Attempt>, start: int, end: int, k: nat): (m: nat)
    requires k <= |script| && GoesOn(script, start, end, k)
    ensures IsMade(script, start, end, m)
    decreases |script| - k
  {
    if k == |script| || StoppedAt(script, k) then k
    else if EndsAt(script, start, end, k) then k + 1
    else MadeFrom(script, start, end, k + 1)
  }

  /** There is only one such number. */
  lemma OneIsMade(script: seq<Attempt>, start: int, end: int, m: nat, n: nat)
    requires IsMade(script, start, end, m) && IsMade(script, start, end, n)
    ensures m == n
  {
    if m < n {
      NoneAfter(script, start, end, m, n);
    } else if n < m {
      NoneAfter(script, start, end, n, m);
    }
  }

  lemma NoneAfter(script: seq<Attempt>, start: int, end: int, m: nat, n: nat)
    requires IsMade(script, start, end, m) && m < n
    ensures !IsMade(script, start, end, n)
  {
    if IsMade(script, start, end, n) {
      if m < n - 1 {
        GoesOnPast(script, start, end, n - 1, m);
      }
      if 0 < m {
        GoesOnPast(script, start, end, n - 1, m - 1);
      }
    }
  }

  /** How the fetch ends after its m attempts. */
  function Verdict(script: seq<Attempt>, start: int, end: int, m: nat): Option<F.Failure>
    requires m <= |script|
  {
    if m > 0 && SucceedsAt(script, start, end, m - 1) then None
    else if 0 < m == |script| && !script[m - 1].ctxAfter then Some(F.Exhausted)
    else Some(F.ContextDone)
  }

  lemma StopVerdict(script: seq<Attempt>, start: int, end: int, m: nat)
    requires ValidScript(script)
    requires m <= |script| && GoesOn(script, start, end, m) && (m < |script| ==> StoppedAt(script, m))
    ensures Verdict(script, start, end, m) == Some(if m == |script| then F.Exhausted else F.ContextDone)
  {
    if m > 0 {
      assert !EndsAt(script, start, end, m - 1);
    }
  }

  // ----- scripts are runs of the fetch machine ----------------------------------

  lemma {:induction false} RunJoins(start: int, end: int, f: F.Fetch, first: seq<(F.Event, bool)>, g: F.Fetch,
                                    second: seq<(F.Event, bool)>, h: F.Fetch)
    requires F.Run(start, end, f, first, g) && F.Run(start, end, g, second, h)
    ensures F.Run(start, end, f, first + second, h)
    decreases |first|
  {
    var all := first + second;
    if first == [] {
      assert all == second;
    } else {
      assert all[0] == first[0] && all[1..] == first[1..] + second;
      RunJoins(start, end, F.Step(start, end, f, first[0].0), first[1..], g, second, h);
    }
  }

  /** The reads before the last one only add to the spool. */
  lemma {:induction false} ReadsRun(start: int, end: int, f: F.Fetch, rs: seq<BodyRead>, k: nat) returns (g: F.Fetch)
    requires f.phase.Reading? && AllValid(rs) && k <= |rs| && forall j :: 0 <= j < k ==> !Last(rs[j])
    ensures F.Run(start, end, f, ReadEvents(rs, k), g)
    ensures g == f.(data := f.data + Bytes(rs, k), pushed := f.pushed + Length(rs, k),
                    credited := f.credited + Length(rs, k), spans := g.spans)
    ensures |g.spans| == |f.spans|
    decreases k
  {
    if k == 0 {
      g := f;
      assert f.data + [] == f.data;
    } else {
      var h := ReadsRun(start, end, f, rs, k - 1);
      var r := rs[k - 1];
      g := GoingRead(start, end, h, r);
      F.RunExtends(start, end, f, ReadEvents(rs, k - 1), h, ReadEvent(r), r.ctxDone);
      Assoc(f.data, Bytes(rs, k - 1), Kept(r));
    }
  }

  lemma Assoc(a: seq<byte>, b: seq<byte>, c: seq<byte>)
    ensures (a + b) + c == a + (b + c)
  {
  }

  lemma GoingRead(start: int, end: int, f: F.Fetch, r: BodyRead) returns (g: F.Fetch)
    requires f.phase.Reading? && r.Valid() && !Last(r)
    ensures F.Enabled(f, ReadEvent(r), r.ctxDone) && g == F.Step(start, end, f, ReadEvent(r))
    ensures g == f.(data := f.data + Kept(r), pushed := f.pushed + |r.slice|,
                    credited := f.credited + |r.slice|, spans := g.spans)
    ensures |g.spans| == |f.spans|
  {
    assert F.Enabled(f, ReadEvent(r), r.ctxDone);
    g := F.Step(start, end, f, ReadEvent(r));
  }

  lemma LastRead(start: int, end: int, f: F.Fetch, r: BodyRead) returns (g: F.Fetch)
    requires f.phase.Reading? && r.Valid() && Last(r)
    ensures F.Enabled(f, ReadEvent(r), r.ctxDone) && g == F.Step(start, end, f, ReadEvent(r))
    ensures g.data == f.data + Kept(r) && g.pushed == f.pushed + (if Whole(r) then |r.slice| else 0)
    ensures g.credited == f.credited + |r.slice| && |g.spans| == |f.spans|
    ensures var missing := end - (start + f.phase.base) + 1;
            g.phase == if Whole(r) && r.ending.Eof? && g.pushed - f.phase.base == missing then F.Finished(None)
                       else F.Failed(f.phase.attempt)
  {
    assert F.Enabled(f, ReadEvent(r), r.ctxDone);
    g := F.Step(start, end, f, ReadEvent(r));
    assert f.data + [] == f.data;
  }

  lemma BodyRun(start: int, end: int, f: F.Fetch, a: Attempt) returns (g: F.Fetch)
    requires f.phase.Reading? && f.phase.base == f.pushed && ValidReads(a) && F.Accepted(a.reply, end)
    ensures F.Run(start, end, f, ReadEvents(Body(a), Taken(a)), g)
    ensures g.data == f.data + Spooled(a, end) && g.pushed == f.pushed + Advance(a, end)
    ensures g.credited == f.credited + Credited(a, end) && |g.spans| == |f.spans|
    ensures g.phase == if Succeeds(a, end, end - start + 1 - f.pushed) then F.Finished(None) else F.Failed(f.phase.attempt)
  {
    var (rs, n) := (Body(a), Taken(a));
    var h := ReadsRun(start, end, f, rs, n - 1);
    var r := rs[n - 1];
    g := LastRead(start, end, h, r);
    F.RunExtends(start, end, f, ReadEvents(rs, n - 1), h, ReadEvent(r), r.ctxDone);
    Assoc(f.data, Bytes(rs, n - 1), Kept(r));
  }

  /** One attempt of a fetch that has no byte too many yet. */
  lemma AttemptRun(start: int, end: int, f: F.Fetch, a: Attempt) returns (g: F.Fetch)
    requires f.phase.Head? && f.phase.attempt < F.MAX_CHUNK_ATTEMPTS && ValidReads(a)
    ensures F.Run(start, end, f, AttemptEvents(a, end), g)
    ensures g.data == f.data + Spooled(a, end) && g.pushed == f.pushed + Advance(a, end)
    ensures g.credited == f.credited + Credited(a, end) && |g.spans| == |f.spans| + 1
    ensures g.phase == if Succeeds(a, end, end - start + 1 - f.pushed) then F.Finished(None) else F.Failed(f.phase.attempt)
  {
    var ask := F.Ask(a.reply);
    assert F.Enabled(f, ask, false);
    var h := F.Step(start, end, f, ask);
    if F.Accepted(a.reply, end) {
      g := BodyRun(start, end, h, a);
      F.RunCons(start, end, f, ask, false, ReadEvents(Body(a), Taken(a)), g);
    } else {
      g := h;
      assert F.Run(start, end, g, [], g) && f.data + [] == f.data;
      F.RunCons(start, end, f, ask, false, [], g);
    }
  }

  /** The events of the first k attempts, each followed by a retry. */
  function EventsBefore(script: seq<Attempt>, end: int, k: nat): seq<(F.Event, bool)>
    requires k <= |script|
  {
    if k == 0 then [] else EventsBefore(script, end, k - 1) + (AttemptEvents(script[k - 1], end) + [(F.Retry, false)])
  }

  /** What a script is to the step machine. */
  function ScriptEvents(script: seq<Attempt>, start: int, end: int): seq<(F.Event, bool)> {
    var m := Made(script, start, end);
    if m > 0 && EndsAt(script, start, end, m - 1) then
      EventsBefore(script, end, m - 1)
      + (AttemptEvents(script[m - 1], end) + (if SucceedsAt(script, start, end, m - 1) then [] else [(F.Abort, true)]))
    else
      EventsBefore(script, end, m) + [(if m == |script| then F.GiveUp else F.Abort, m < |script|)]
  }

  lemma BeforeRun(start: int, end: int, script: seq<Attempt>, k: nat) returns (g: F.Fetch)
    requires ValidScript(script) && k <= |script| && GoesOn(script, start, end, k)
    ensures F.Run(start, end, F.INIT, EventsBefore(script, end, k), g)
    ensures g.phase == F.Head(k) && g.data == Stored(script, end, k) && g.pushed == Pushed(script, end, k)
    ensures g.credited == Credits(script, end, k) && |g.spans| == k
  {
    forall j | 0 <= j < k ensures !SucceedsAt(script, start, end, j) {
      GoesOnPast(script, start, end, k, j);
    }
    g := BeforeRunFrom(start, end, F.INIT, script, k);
  }

  /** What the machine's fetch looks like before attempt k. */
  ghost predicate At(f: F.Fetch, script: seq<Attempt>, end: int, k: nat)
    requires ValidScript(script) && k <= |script|
  {
    && f.phase == F.Head(k) && f.data == Stored(script, end, k) && f.pushed == Pushed(script, end, k)
    && f.credited == Credits(script, end, k) && |f.spans| == k
  }

  lemma {:induction false} BeforeRunFrom(start: int, end: int, f0: F.Fetch, script: seq<Attempt>, k: nat) returns (g: F.Fetch)
    requires ValidScript(script) && k <= |script| && At(f0, script, end, 0)
    requires forall j :: 0 <= j < k ==> !SucceedsAt(script, start, end, j)
    ensures F.Run(start, end, f0, EventsBefore(script, end, k), g) && At(g, script, end, k)
    decreases k
  {
    if k == 0 {
      g := f0;
    } else {
      var f := BeforeRunFrom(start, end, f0, script, k - 1);
      g := AttemptFromAt(start, end, f, script, k - 1);
      RunJoins(start, end, f0, EventsBefore(script, end, k - 1), f, AttemptEvents(script[k - 1], end) + [(F.Retry, false)], g);
    }
  }

  lemma AttemptFromAt(start: int, end: int, f: F.Fetch, script: seq<Attempt>, k: nat) returns (g: F.Fetch)
    requires ValidScript(script) && k < |script| && At(f, script, end, k) && !SucceedsAt(script, start, end, k)
    ensures F.Run(start, end, f, AttemptEvents(script[k], end) + [(F.Retry, false)], g) && At(g, script, end, k + 1)
  {
    g := AttemptThenRetry(start, end, f, script[k]);
  }

  lemma AttemptThenRetry(start: int, end: int, f: F.Fetch, a: Attempt) returns (g: F.Fetch)
    requires f.phase.Head? && f.phase.attempt < F.MAX_CHUNK_ATTEMPTS && ValidReads(a)
    requires !Succeeds(a, end, end - start + 1 - f.pushed)
    ensures F.Run(start, end, f, AttemptEvents(a, end) + [(F.Retry, false)], g)
    ensures g.phase == F.Head(f.phase.attempt + 1)
    ensures g.data == f.data + Spooled(a, end) && g.pushed == f.pushed + Advance(a, end)
    ensures g.credited == f.credited + Credited(a, end) && |g.spans| == |f.spans| + 1
  {
    var h := AttemptRun(start, end, f, a);
    assert F.Enabled(h, F.Retry, false);
    g := F.Step(start, end, h, F.Retry);
    F.RunExtends(start, end, f, AttemptEvents(a, end), h, F.Retry, false);
  }

  /** The end of a fetch that is seen cancelled between attempts, or has used them up. */
  lemma StopRun(start: int, end: int, script: seq<Attempt>, m: nat) returns (g: F.Fetch)
    requires ValidScript(script) && m <= |script| && GoesOn(script, start, end, m)
    ensures F.Run(start, end, F.INIT,
                  EventsBefore(script, end, m) + [(if m == |script| then F.GiveUp else F.Abort, m < |script|)], g)
    ensures g.phase == F.Finished(Some(if m == |script| then F.Exhausted else F.ContextDone))
    ensures g.data == Stored(script, end, m) && g.pushed == Pushed(script, end, m)
    ensures g.credited == Credits(script, end, m) && |g.spans| == m
  {
    var f := BeforeRun(start, end, script, m);
    var (e, c) := (if m == |script| then F.GiveUp else F.Abort, m < |script|);
    assert F.Enabled(f, e, c);
    g := F.Step(start, end, f, e);
    F.RunExtends(start, end, F.INIT, EventsBefore(script, end, m), f, e, c);
  }

  /** The end of a fetch in or right after its k-th attempt, counted from 0. */
  lemma EndRun(start: int, end: int, script: seq<Attempt>, k: nat) returns (g: F.Fetch)
    requires ValidScript(script) && k < |script| && GoesOn(script, start, end, k) && EndsAt(script, start, end, k)
    ensures F.Run(start, end, F.INIT,
                  EventsBefore(script, end, k)
                  + (AttemptEvents(script[k], end) + (if SucceedsAt(script, start, end, k) then [] else [(F.Abort, true)])), g)
    ensures g.phase == F.Finished(if SucceedsAt(script, start, end, k) then None else Some(F.ContextDone))
    ensures g.data == Stored(script, end, k + 1) && g.pushed == Pushed(script, end, k + 1)
    ensures g.credited == Credits(script, end, k + 1) && |g.spans| == k + 1
  {
    var f := BeforeRun(start, end, script, k);
    g := AttemptThenEnd(start, end, f, script[k]);
    RunJoins(start, end, F.INIT, EventsBefore(script, end, k), f,
             AttemptEvents(script[k], end) + (if SucceedsAt(script, start, end, k) then [] else [(F.Abort, true)]), g);
  }

  lemma AttemptThenEnd(start: int, end: int, f: F.Fetch, a: Attempt) returns (g: F.Fetch)
    requires f.phase.Head? && f.phase.attempt < F.MAX_CHUNK_ATTEMPTS && ValidReads(a)
    ensures var ok := Succeeds(a, end, end - start + 1 - f.pushed);
            && F.Run(start, end, f, AttemptEvents(a, end) + (if ok then [] else [(F.Abort, true)]), g)
            && g.phase == F.Finished(if ok then None else Some(F.ContextDone))
    ensures g.data == f.data + Spooled(a, end) && g.pushed == f.pushed + Advance(a, end)
    ensures g.credited == f.credited + Credited(a, end) && |g.spans| == |f.spans| + 1
  {
    var h := AttemptRun(start, end, f, a);
    if Succeeds(a, end, end - start + 1 - f.pushed) {
      g := h;
      assert AttemptEvents(a, end) + [] == AttemptEvents(a, end);
    } else {
      assert F.Enabled(h, F.Abort, true);
      g := F.Step(start, end, h, F.Abort);
      F.RunExtends(start, end, f, AttemptEvents(a, end), h, F.Abort, true);
    }
  }

  /** The fetch that a script describes is a complete run of the machine, and this is what it ends with. */
  lemma ScriptRun(start: int, end: int, script: seq<Attempt>) returns (g: F.Fetch)
    requires ValidScript(script)
    ensures F.Run(start, end, F.INIT, ScriptEvents(script, start, end), g)
    ensures var m := Made(script, start, end);
            && g.phase == F.Finished(Verdict(script, start, end, m))
            && g.data == Stored(script, end, m) && g.pushed == Pushed(script, end, m)
            && g.credited == Credits(script, end, m) && |g.spans| == m
  {
    var m := Made(script, start, end);
    if m > 0 && EndsAt(script, start, end, m - 1) {
      g := EndRun(start, end, script, m - 1);
    } else {
      assert GoesOn(script, start, end, m);
      g := StopRun(start, end, script, m);
    }
  }

  /**
   * What the source promises of a fetch, over every script: without an error the
   * chunk's length was pushed, and the spool has that length exactly when no refused
   * push left bytes; if the bodies carry the file's bytes from the offsets asked
   * for, the spool then is the file's slice exactly under the same condition.
   */
  lemma ScriptGivesTheChunk(file: seq<byte>, start: int, end: int, script: seq<Attempt>)
    requires ValidScript(script) && Verdict(script, start, end, Made(script, start, end)).None?
    ensures var m := Made(script, start, end);
            && Pushed(script, end, m) == end - start + 1
            && (0 <= start <= end + 1 <= |file| && F.AllHonest(file, start, end, F.INIT, ScriptEvents(script, start, end)) ==>
                  (Stored(script, end, m) == file[start..end + 1] <==> |Stored(script, end, m)| == end - start + 1))
  {
    var events := ScriptEvents(script, start, end);
    var g := ScriptRun(start, end, script);
    F.CompleteMeansExactLength(start, end, events, g);
    if 0 <= start <= end + 1 <= |file| && F.AllHonest(file, start, end, F.INIT, events) {
      F.CompleteMeansExactBytes(file, start, end, events, g);
    }
  }
}
