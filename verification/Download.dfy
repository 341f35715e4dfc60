/**
 * From the first response to the last byte: the decision to split, the probe, the
 * partition, the concurrent fetch and the reply's headers, taken together.
 */
module Download {
  import opened Prelude
  import opened ChunkPlan
  import opened SplitDecision
  import ContentRange
  import F = Fetcher
  import M = SplitMachine
  import S = SplitSafety

  /** The machine that splitAcrossLinks starts for a plan. */
  function MachineFor(file: seq<byte>, p: Plan, links: nat): M.Cfg
    requires p.Valid()
  {
    M.Cfg(file,
          seq(p.Count(), i requires 0 <= i < p.Count() => p.Start(i)),
          seq(p.Count(), i requires 0 <= i < p.Count() => p.End(i)),
          links)
  }

  lemma MachineIsCut(file: seq<byte>, p: Plan, links: nat)
    requires p.Valid() && links >= 1
    ensures S.CutBy(MachineFor(file, p, links), p)
  {
  }

  /**
   * The response is accepted for splitting, and a is what the reply to the probe
   * makes of its range; the reply may have told nothing.
   */
  ghost predicate Announced(req: Request, resp: Response, healthy: nat, probe: F.Reply, a: Decision)
    requires IsInt64(resp.contentLength)
  {
    var d := ShouldSplit(req, resp, healthy);
    d.Some? && Adjust(d.value, ProbedTotal(probe)) == Fetch(a)
  }

  /** What is announced is a range that can be cut up, and its size is the announced length. */
  lemma AnnouncedIsSound(req: Request, resp: Response, healthy: nat, probe: F.Reply, a: Decision)
    requires IsInt64(resp.contentLength) && Announced(req, resp, healthy, probe, a)
    ensures 0 <= a.effStart <= a.effEnd < TWO_63 && 0 < a.total < TWO_63 && PlanOf(a).Valid()
    ensures (ProbedTotal(probe).Some? ==> a.total == ProbedTotal(probe).value) && ReplyHeader(a).0 == PlanOf(a).Size()
  {
    AcceptedRangesAreSound(req, resp, healthy);
    AdjustedIsSound(ShouldSplit(req, resp, healthy).value, ProbedTotal(probe), a);
  }

  lemma AdjustedIsSound(d: Decision, probe: Option<int>, a: Decision)
    requires Sound(d) && d.effEnd - d.effStart + 1 < TWO_63 && Adjust(d, probe) == Fetch(a)
    requires probe.Some? ==> 0 < probe.value < TWO_63
    ensures Sound(a) && PlanOf(a).Valid() && (probe.Some? ==> a.total == probe.value) && ReplyHeader(a).0 == PlanOf(a).Size()
  {
    assert a.effEnd <= d.effEnd && a.effStart == d.effStart;
    SizeFits(a);
  }

  /**
   * With a probe that reports the file's size the range lies inside the file exactly
   * when the probe contradicted the response or the response's range was consistent
   * with its own total; without one, exactly when the response's range did.
   */
  lemma AnnouncedIsInFileIff(req: Request, resp: Response, healthy: nat, probe: F.Reply, size: nat, a: Decision)
    requires IsInt64(resp.contentLength) && Announced(req, resp, healthy, probe, a)
    requires ProbedTotal(probe).Some? ==> ProbedTotal(probe).value == size
    ensures var d := ShouldSplit(req, resp, healthy).value;
            a.effEnd < size <==> if ProbedTotal(probe).Some? then d.total != size || d.effEnd < d.total else d.effEnd < size
  {
    AcceptedRangesAreSound(req, resp, healthy);
    if ProbedTotal(probe).Some? {
      AgreeingProbeDoesNotClamp(ShouldSplit(req, resp, healthy).value, size);
    }
  }

  /**
   * From the response to the last byte. When the drain of an accepted response ends
   * without an error, the announced range lay inside the file; the client has
   * received exactly the file's bytes in it exactly when no refused push left bytes
   * behind, and as many bytes as Content-Length says under the same condition; the
   * Content-Range, if sent, names that range. The links are those healthy when the
   * split begins, not those seen by the decision.
   */
  lemma ClientGetsWhatIsAnnounced(req: Request, resp: Response, healthy: nat, probe: F.Reply, a: Decision,
                                  file: seq<byte>, links: nat, events: seq<M.Event>, t: M.State)
    requires IsInt64(resp.contentLength) && Announced(req, resp, healthy, probe, a)
    requires PlanOf(a).Valid() && links >= 1 && Downloads(MachineFor(file, PlanOf(a), links), events, t)
    ensures 0 <= a.effStart <= a.effEnd < |file|
    ensures t.client == file[a.effStart..a.effEnd + 1] <==> S.Stray(t.chunks, |t.chunks|) == 0
    ensures |t.client| == ReplyHeader(a).0 <==> S.Stray(t.chunks, |t.chunks|) == 0
    ensures a.clientSentRange ==>
              ContentRange.Parse(ReplyHeader(a).1) == Some(ContentRange.Parsed(a.effStart, a.effEnd, a.total))
  {
    AnnouncedIsSound(req, resp, healthy, probe, a);
    HeaderReadsBack(a);
    MachineIsCut(file, PlanOf(a), links);
    DownloadIsExact(MachineFor(file, PlanOf(a), links), PlanOf(a), events, t);
  }

  /** A run with honest bodies whose drain ended without an error. */
  ghost predicate Downloads(c: M.Cfg, events: seq<M.Event>, t: M.State) {
    c.Valid() && S.Run(c, M.Init(c), events, t) && S.HonestRun(c, M.Init(c), events) && t.drain.Completed?
  }

  lemma HeaderReadsBack(a: Decision)
    requires 0 <= a.effStart <= a.effEnd < TWO_63 && 0 < a.total < TWO_63
    ensures a.clientSentRange ==>
              ContentRange.Parse(ReplyHeader(a).1) == Some(ContentRange.Parsed(a.effStart, a.effEnd, a.total))
  {
    ContentRange.RoundTrip(a.effStart, a.effEnd, a.total);
  }

  lemma DownloadIsExact(c: M.Cfg, p: Plan, events: seq<M.Event>, t: M.State)
    requires S.CutBy(c, p) && Downloads(c, events, t)
    ensures p.effEnd < |c.file|
    ensures t.client == c.file[p.effStart..p.effEnd + 1] <==> S.Stray(t.chunks, |t.chunks|) == 0
    ensures |t.client| == p.Size() <==> S.Stray(t.chunks, |t.chunks|) == 0
  {
    S.CompletedIsInFile(c, p, events, t);
    S.CompletedIsExact(c, p, events, t);
    S.MismatchIffStrayBytes(c, p, events, t);
  }
}
