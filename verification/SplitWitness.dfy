/**
 * Runs in which a push that stored one byte of two and failed is repeated as a
 * whole: the client is given the first byte twice. One client takes everything and
 * gets a byte too many; the other refuses more than was announced and gets a
 * truncated file that is no prefix of the real one.
 */
module SplitWitness {
  import opened Prelude
  import opened ChunkPlan
  import opened SplitMachine
  import opened SplitSafety
  import F = Fetcher

  const FILE: seq<byte> := [7, 8, 9, 10]
  const CFG: Cfg := Cfg(FILE, [0, 2], [1, 3], 1)
  const PLAN: Plan := Plan(0, 3)
  const ASK: F.Event := F.Ask(F.Reply(206, ""))
  const TEAR: F.Event := F.Read([7, 8], F.Refused(1), F.More)
  const FILL: F.Event := F.Read([7, 8], F.Stored, F.Eof)
  const LAST: F.Event := F.Read([9, 10], F.Stored, F.Eof)

  /** Worker 0 does all the work; the other three stay idle. */
  function At(queue: seq<nat>, w: Worker, a: Chunk, b: Chunk, drain: Drain, client: seq<byte>, bytes: nat): State {
    State(queue, [w, Idle, Idle, Idle], [a, b], drain, client, false, [bytes])
  }

  ghost predicate Takes(s: State, e: Event, t: State) {
    CFG.Valid() && Shape(CFG, s) && Enabled(CFG, s, e) && HonestStep(CFG, s, e) && t == Next(CFG, s, e)
  }

  ghost predicate Reaches(s: State, events: seq<Event>, t: State, limit: nat) {
    CFG.Valid() && Run(CFG, s, events, t) && HonestRun(CFG, s, events) && LimitedRun(CFG, s, events, limit)
  }

  ghost predicate Doubled(t: State) {
    t.drain.Completed? && t.client == [7, 7, 8, 9, 10] && t.client != FILE[PLAN.effStart..PLAN.effEnd + 1]
  }

  ghost predicate Corrupted(t: State) {
    t.drain.Broken? && t.client == [7, 7, 8] && !(t.client <= FILE)
  }

  lemma Then(s: State, e: Event, t: State, rest: seq<Event>, u: State, limit: nat)
    requires Takes(s, e, t) && WithinLimit(s, e, limit) && Reaches(t, rest, u, limit)
    ensures Reaches(s, [e] + rest, u, limit)
  {
    assert ([e] + rest)[1..] == rest;
  }

  // ----- the states, one after the other ----------------------------------

  const START := Draining(0, 0)
  const NEW := Chunk(F.INIT, None)
  const TAKEN := Chunk(F.INIT, Some(0))
  const ASKED := Chunk(F.Fetch(F.Reading(0, 0), [], 0, 0, 0, 0, [F.Span(0, 0)]), Some(0))
  const TORN := Chunk(F.Fetch(F.Failed(0), [7], 0, 1, 1, 2, [F.Span(0, 0)]), Some(0))
  const AGAIN := Chunk(F.Fetch(F.Head(1), [7], 0, 1, 1, 2, [F.Span(0, 0)]), Some(0))
  const REASKED := Chunk(F.Fetch(F.Reading(1, 0), [7], 0, 1, 1, 2, [F.Span(0, 0), F.Span(0, 0)]), Some(0))
  const DOUBLED := Chunk(F.Fetch(F.Finished(None), [7, 7, 8], 2, 1, 1, 4, [F.Span(0, 0), F.Span(0, 2)]), Some(0))
  const WHOLE := Chunk(F.Fetch(F.Finished(None), [9, 10], 2, 0, 0, 2, [F.Span(0, 2)]), Some(0))

  // ----- what the four steps of a fetch that move bytes compute ---------------

  ghost predicate Fetches(start: int, end: int, f: F.Fetch, e: F.Event, g: F.Fetch) {
    F.Enabled(f, e, false) && F.Honest(FILE, start, f, e) && g == F.Step(start, end, f, e)
  }

  lemma FetchAsks(start: int, end: int)
    ensures Fetches(start, end, F.INIT, ASK, ASKED.fetch)
  {
    assert [] + [F.Span(0, 0)] == [F.Span(0, 0)];
  }

  lemma FetchTears()
    ensures Fetches(0, 1, ASKED.fetch, TEAR, TORN.fetch)
  {
    assert FILE[0..2] == [7, 8] && [] + [7, 8][..1] == [7];
  }

  lemma FetchReasks()
    ensures Fetches(0, 1, AGAIN.fetch, ASK, REASKED.fetch)
  {
    assert [F.Span(0, 0)] + [F.Span(0, 0)] == [F.Span(0, 0), F.Span(0, 0)];
  }

  lemma FetchDoubles()
    ensures Fetches(0, 1, REASKED.fetch, FILL, DOUBLED.fetch)
  {
    assert FILE[0..2] == [7, 8] && [7] + [7, 8] == [7, 7, 8];
    assert [F.Span(0, 0), F.Span(0, 0)][1 := F.Span(0, 2)] == [F.Span(0, 0), F.Span(0, 2)];
  }

  lemma FetchFills()
    ensures Fetches(2, 3, ASKED.fetch, LAST, WHOLE.fetch)
  {
    assert FILE[2..4] == [9, 10] && [] + [9, 10] == [9, 10];
    assert [F.Span(0, 0)][0 := F.Span(0, 2)] == [F.Span(0, 2)];
  }

  // ----- the run ----------------------------------------------------------

  const S0 := At([0, 1], Idle, NEW, NEW, START, [], 0)
  const S1 := At([1], Claimed(0), TAKEN, NEW, START, [], 0)
  const S2 := At([1], Fetching(0), TAKEN, NEW, START, [], 0)
  const S3 := At([1], Fetching(0), ASKED, NEW, START, [], 0)
  const S4 := At([1], Fetching(0), TORN, NEW, START, [], 2)
  const S5 := At([1], Fetching(0), AGAIN, NEW, START, [], 2)
  const S6 := At([1], Fetching(0), REASKED, NEW, START, [], 2)
  const S7 := At([1], Idle, DOUBLED, NEW, START, [], 4)
  const S8 := At([], Claimed(1), DOUBLED, TAKEN, START, [], 4)
  const S9 := At([], Fetching(1), DOUBLED, TAKEN, START, [], 4)
  const S10 := At([], Fetching(1), DOUBLED, ASKED, START, [], 4)
  const S11 := At([], Idle, DOUBLED, WHOLE, START, [], 6)
  const S12 := At([], Idle, DOUBLED, WHOLE, Draining(0, 3), [7, 7, 8], 6)
  const S13 := At([], Idle, DOUBLED, WHOLE, Draining(1, 0), [7, 7, 8], 6)
  const S14 := At([], Idle, DOUBLED, WHOLE, Draining(1, 2), [7, 7, 8, 9, 10], 6)
  const S15 := At([], Idle, DOUBLED, WHOLE, Completed, [7, 7, 8, 9, 10], 6)
  const REFUSED := At([], Idle, DOUBLED, WHOLE, Broken(1, 0), [7, 7, 8], 6)

  lemma Step0() ensures Takes(S0, Claim(0), S1) {}
  lemma Step1() ensures Takes(S1, Check(0), S2) {}
  lemma Step2() ensures Takes(S2, Work(0, ASK), S3) { FetchAsks(0, 1); }
  lemma Step3() ensures Takes(S3, Work(0, TEAR), S4) { FetchTears(); }
  lemma Step4() ensures Takes(S4, Work(0, F.Retry), S5) {}
  lemma Step5() ensures Takes(S5, Work(0, ASK), S6) { FetchReasks(); }
  lemma Step6() ensures Takes(S6, Work(0, FILL), S7) { FetchDoubles(); }
  lemma Step7() ensures Takes(S7, Claim(0), S8) {}
  lemma Step8() ensures Takes(S8, Check(0), S9) {}
  lemma Step9() ensures Takes(S9, Work(0, ASK), S10) { FetchAsks(2, 3); }
  lemma Step10() ensures Takes(S10, Work(0, LAST), S11) { FetchFills(); }
  lemma Step11() ensures Takes(S11, Write(3, 3, false), S12) {}
  lemma Step12() ensures Takes(S12, Advance, S13) {}
  lemma Step13() ensures Takes(S13, Write(2, 2, false), S14) {}
  lemma Step14() ensures Takes(S14, Advance, S15) {}
  lemma Refusal() ensures Takes(S13, Write(2, 0, true), REFUSED) {}

  lemma FetchSecond(rest: seq<Event>, u: State, limit: nat) returns (events: seq<Event>)
    requires limit >= 3 && Reaches(S13, rest, u, limit)
    ensures Reaches(S7, events, u, limit)
  {
    events := rest;
    Step12(); Then(S12, Advance, S13, events, u, limit); events := [Advance] + events;
    Step11(); Then(S11, Write(3, 3, false), S12, events, u, limit); events := [Write(3, 3, false)] + events;
    Step10(); Then(S10, Work(0, LAST), S11, events, u, limit); events := [Work(0, LAST)] + events;
    Step9(); Then(S9, Work(0, ASK), S10, events, u, limit); events := [Work(0, ASK)] + events;
    Step8(); Then(S8, Check(0), S9, events, u, limit); events := [Check(0)] + events;
    Step7(); Then(S7, Claim(0), S8, events, u, limit); events := [Claim(0)] + events;
  }

  lemma FetchFirstTwice(rest: seq<Event>, u: State, limit: nat) returns (events: seq<Event>)
    requires Reaches(S7, rest, u, limit)
    ensures Reaches(S0, events, u, limit)
  {
    events := rest;
    Step6(); Then(S6, Work(0, FILL), S7, events, u, limit); events := [Work(0, FILL)] + events;
    Step5(); Then(S5, Work(0, ASK), S6, events, u, limit); events := [Work(0, ASK)] + events;
    Step4(); Then(S4, Work(0, F.Retry), S5, events, u, limit); events := [Work(0, F.Retry)] + events;
    Step3(); Then(S3, Work(0, TEAR), S4, events, u, limit); events := [Work(0, TEAR)] + events;
    Step2(); Then(S2, Work(0, ASK), S3, events, u, limit); events := [Work(0, ASK)] + events;
    Step1(); Then(S1, Check(0), S2, events, u, limit); events := [Check(0)] + events;
    Step0(); Then(S0, Claim(0), S1, events, u, limit); events := [Claim(0)] + events;
  }

  lemma DrainAll(limit: nat) returns (events: seq<Event>)
    requires limit >= 5
    ensures Reaches(S13, events, S15, limit)
  {
    events := [];
    assert Reaches(S15, events, S15, limit);
    Step14(); Then(S14, Advance, S15, events, S15, limit); events := [Advance] + events;
    Step13(); Then(S13, Write(2, 2, false), S14, events, S15, limit); events := [Write(2, 2, false)] + events;
  }

  lemma DrainRefused(limit: nat) returns (events: seq<Event>)
    requires limit == 4
    ensures Reaches(S13, events, REFUSED, limit)
  {
    events := [];
    assert Reaches(REFUSED, events, REFUSED, limit);
    Refusal(); Then(S13, Write(2, 0, true), REFUSED, events, REFUSED, limit); events := [Write(2, 0, true)] + events;
  }

  lemma SmallPlan(p: Plan, i: nat)
    requires p.Valid() && p.effStart == 0 && p.effEnd == 3
    ensures p.Count() == 2
    ensures i < 2 ==> p.Start(i) == 2 * i && p.End(i) == 2 * i + 1
  {
    assert p.Size() == 4 && p.ChunkSize() == 2;
    if i == 0 {
    } else if i == 1 {
    }
  }

  lemma Fits(c: Cfg, p: Plan)
    requires c.Valid() && c.starts == [0, 2] && c.ends == [1, 3] && |c.file| == 4
    requires p.Valid() && p.effStart == 0 && p.effEnd == 3
    ensures CutFrom(c, p)
  {
    SmallPlan(p, 0);
    forall i: nat | i < p.Count() ensures c.starts[i] == p.Start(i) && c.ends[i] == p.End(i) {
      SmallPlan(p, i);
    }
  }

  lemma BeginsAtS0()
    ensures CFG.Valid() && Init(CFG) == S0
  {
    assert seq(2, i => i) == [0, 1];
    assert seq(4, i => Idle) == [Idle, Idle, Idle, Idle];
    assert seq(2, i => NEW) == [NEW, NEW];
    assert seq(1, i => 0) == [0];
  }

  /**
   * With a client that takes everything, the MISMATCH branch is reachable, and with
   * it a corrupted file: every body byte is the file's own, no drain fails, and the
   * client is given byte 0 twice.
   */
  lemma TornWriteDuplicatesBytes()
    ensures CutFrom(CFG, PLAN)
    ensures exists events, t :: Reaches(Init(CFG), events, t, 5) && Doubled(t)
  {
    Fits(CFG, PLAN);
    BeginsAtS0();
    var last := DrainAll(5);
    var rest := FetchSecond(last, S15, 5);
    var events := FetchFirstTwice(rest, S15, 5);
    assert Doubled(S15);
  }

  /**
   * With a client that refuses more than Content-Length announced, the same torn
   * write gives it byte 0 twice and then breaks the drain at the write that would
   * have taken it beyond.
   */
  lemma TornWriteBreaksLimitedDrain()
    ensures CutFrom(CFG, PLAN)
    ensures exists events, t :: Reaches(Init(CFG), events, t, PLAN.Size()) && Corrupted(t)
  {
    Fits(CFG, PLAN);
    BeginsAtS0();
    var limit: nat := PLAN.Size();
    var last := DrainRefused(limit);
    var rest := FetchSecond(last, REFUSED, limit);
    var events := FetchFirstTwice(rest, REFUSED, limit);
    assert REFUSED.client[1] != FILE[1];
    assert Corrupted(REFUSED);
  }
}
