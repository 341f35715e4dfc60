/**
 * Whether a response is re-fetched in parallel, and which byte range: shouldSplit,
 * and the adjustment splitAcrossLinks makes after its probe request.
 */
module SplitDecision {
  import opened Prelude
  import ContentRange
  import ChunkPlan
  import F = Fetcher

  const RANGE_SPLIT_THRESHOLD: int := 10 * 1024 * 1024

  datatype Decision = Decision(effStart: int, effEnd: int, total: int, clientSentRange: bool)

  datatype Request = Request(isGet: bool, hasRange: bool)

  /** The header tests of the HTTP library appear as their outcomes. */
  datatype Response = Response(
    status: int,
    contentLength: int,
    contentRange: string,
    acceptsByteRanges: bool,
    identityEncoded: bool,
    streamingType: bool)

  /** The range a response describes; arithmetic is on 64-bit integers. */
  function DescribedRange(req: Request, resp: Response): Option<Decision>
    requires IsInt64(resp.contentLength)
  {
    if resp.status == 200 then
      if resp.contentLength <= 0 then None
      else Some(Decision(0, resp.contentLength - 1, resp.contentLength, false))
    else if resp.status == 206 then
      var cr := ContentRange.Parse(resp.contentRange);
      if cr.None? || cr.value.total <= 0 then None
      else Some(Decision(cr.value.start, cr.value.end, cr.value.total, req.hasRange))
    else None
  }

  /** effEnd - effStart + 1 as the 64-bit register holds it. */
  function RangeSize(d: Decision): int {
    Wrap64(Wrap64(d.effEnd - d.effStart) + 1)
  }

  function ShouldSplit(req: Request, resp: Response, healthyLinks: nat): Option<Decision>
    requires IsInt64(resp.contentLength)
  {
    if !req.isGet then None
    else
      var d := DescribedRange(req, resp);
      if d.None? || RangeSize(d.value) < RANGE_SPLIT_THRESHOLD then None
      else if healthyLinks < 2 then None
      else if resp.status == 200 && !resp.acceptsByteRanges then None
      else if !resp.identityEncoded || resp.streamingType then None
      else d
  }

  ghost predicate Sound(d: Decision) {
    0 <= d.effStart <= d.effEnd < TWO_63 && 0 < d.total < TWO_63
  }

  /** The one range whose size does not fit is 0 to 2^63-1, and its size wraps to a negative number. */
  lemma RangeSizeIs(d: Decision)
    requires 0 <= d.effStart <= d.effEnd < TWO_63
    ensures RangeSize(d) == if d.effStart == 0 && d.effEnd == TWO_63 - 1 then -TWO_63 else d.effEnd - d.effStart + 1
  {
  }

  /**
   * Everything accepted is a real range whose size did not wrap around; the one
   * range whose size wraps, 0 to 2^63-1, is refused.
   */
  lemma AcceptedRangesAreSound(req: Request, resp: Response, healthyLinks: nat)
    requires IsInt64(resp.contentLength)
    ensures var r := ShouldSplit(req, resp, healthyLinks);
            r.Some? ==>
              && Sound(r.value)
              && RangeSize(r.value) == r.value.effEnd - r.value.effStart + 1 >= RANGE_SPLIT_THRESHOLD
              && healthyLinks >= 2
              && (resp.status == 200 ==> r.value.effStart == 0 && r.value.effEnd == r.value.total - 1)
    ensures var d := DescribedRange(req, resp);
            d.Some? ==> (RangeSize(d.value) != d.value.effEnd - d.value.effStart + 1
                         <==> d.value.effStart == 0 && d.value.effEnd == TWO_63 - 1)
  {
    var d := DescribedRange(req, resp);
    if d.Some? {
      RangeSizeIs(d.value);
    }
  }

  /** The part of the decision that does not depend on the status. */
  predicate Splittable(req: Request, resp: Response, healthyLinks: nat) {
    req.isGet && healthyLinks >= 2 && resp.identityEncoded && !resp.streamingType
  }

  /**
   * A 200 is split exactly when it is a splittable answer of at least 10 MB from a
   * server that takes byte ranges; what is fetched is then its body, byte for byte, with
   * its length as the total.
   */
  lemma WholeBodyAcceptedIff(req: Request, resp: Response, healthyLinks: nat)
    requires IsInt64(resp.contentLength) && resp.status == 200
    ensures var r := ShouldSplit(req, resp, healthyLinks);
            && (r.Some? <==> Splittable(req, resp, healthyLinks) && resp.acceptsByteRanges
                             && resp.contentLength >= RANGE_SPLIT_THRESHOLD)
            && (r.Some? ==> r.value.total == resp.contentLength && !r.value.clientSentRange
                            && forall x :: InRange(x, r.value) <==> 0 <= x < resp.contentLength)
  {
    var d := DescribedRange(req, resp);
    if d.Some? {
      RangeSizeIs(d.value);
    }
  }

  /**
   * A 206 is split exactly when it is splittable and its Content-Range is one that can
   * be read, with a known total and at least 10 MB, other than the one range whose size wraps.
   */
  lemma PartAcceptedIff(req: Request, resp: Response, healthyLinks: nat)
    requires IsInt64(resp.contentLength) && resp.status == 206
    ensures var (r, cr) := (ShouldSplit(req, resp, healthyLinks), ContentRange.Parse(resp.contentRange));
            && (r.Some? <==> Splittable(req, resp, healthyLinks) && cr.Some? && cr.value.total > 0
                             && cr.value.end - cr.value.start + 1 >= RANGE_SPLIT_THRESHOLD
                             && cr.value.end - cr.value.start + 1 < TWO_63)
            && (r.Some? ==> r.value == Decision(cr.value.start, cr.value.end, cr.value.total, req.hasRange))
  {
    var d := DescribedRange(req, resp);
    if d.Some? {
      RangeSizeIs(d.value);
    }
  }

  lemma OtherStatusRefused(req: Request, resp: Response, healthyLinks: nat)
    requires IsInt64(resp.contentLength) && resp.status != 200 && resp.status != 206
    ensures ShouldSplit(req, resp, healthyLinks).None?
  {
  }

  /** A range of a file of unknown size, as a server may send it, is not split. */
  lemma UnknownTotalRefused(req: Request, resp: Response, healthyLinks: nat, start: int, end: int)
    requires IsInt64(resp.contentLength) && resp.status == 206 && IsInt64(start) && IsInt64(end)
    requires resp.contentRange == ContentRange.PrintUnknown(start, end)
    ensures ShouldSplit(req, resp, healthyLinks).None?
  {
    ContentRange.UnknownTotalReads(start, end);
    PartAcceptedIff(req, resp, healthyLinks);
  }

  ghost predicate InRange(x: int, d: Decision) {
    d.effStart <= x <= d.effEnd
  }

  /** The total that the reply to the probe for bytes 0-0 tells, if it tells one. */
  function ProbedTotal(reply: F.Reply): (t: Option<int>)
    ensures t.Some? ==> 0 < t.value < TWO_63
  {
    if reply.NoReply? || reply.status != 206 then None
    else
      var cr := ContentRange.Parse(reply.contentRange);
      if cr.None? || cr.value.total <= 0 then None else Some(cr.value.total)
  }

  /** A probe tells the total exactly if it is answered by a 206 with a well-formed range of a known, positive total. */
  lemma ProbeTellsIff(status: int, start: int, end: int, total: int)
    requires IsInt64(start) && IsInt64(end) && IsInt64(total)
    ensures ProbedTotal(F.Reply(status, ContentRange.Print(start, end, total))) ==
              if status == 206 && 0 <= start <= end && total > 0 then Some(total) else None
    ensures ProbedTotal(F.Reply(status, ContentRange.PrintUnknown(start, end))).None? && ProbedTotal(F.NoReply).None?
  {
    ContentRange.RoundTrip(start, end, total);
    ContentRange.UnknownTotalReads(start, end);
  }

  datatype Adjusted = Fetch(d: Decision) | NotSatisfiable

  /** The clamp after the probe; probe is None when the probe told nothing. */
  function Adjust(d: Decision, probe: Option<int>): Adjusted {
    if probe.Some? && probe.value != d.total then
      var effEnd := if d.effEnd >= probe.value then probe.value - 1 else d.effEnd;
      if d.effStart >= probe.value then NotSatisfiable
      else Fetch(d.(effEnd := effEnd, total := probe.value))
    else Fetch(d)
  }

  /** A probe that contradicts the advertised total leaves the part of the range the file really has. */
  lemma AdjustIntersects(d: Decision, actual: int)
    requires Sound(d) && 0 < actual < TWO_63 && actual != d.total
    ensures var a := Adjust(d, Some(actual));
            && (a.NotSatisfiable? <==> !exists x :: InRange(x, d) && x < actual)
            && (a.Fetch? ==> Sound(a.d) && a.d.total == actual && a.d.effEnd < actual
                             && forall x :: InRange(x, a.d) <==> InRange(x, d) && x < actual)
  {
    if d.effStart < actual {
      assert InRange(d.effStart, d);
    }
  }

  /**
   * Whatever the probe says: the request is refused exactly when the probe
   * contradicts the total and no byte asked for lies below it; a probe that does not
   * contradict changes nothing; one that does leaves its own total and the bytes
   * below it; and where the range begins, and whether the client asked for one, never changes.
   */
  lemma AdjustIsExact(d: Decision, probe: Option<int>)
    requires Sound(d)
    ensures var (a, contradicts) := (Adjust(d, probe), probe.Some? && probe.value != d.total);
            && (a.NotSatisfiable? <==> contradicts && !exists x :: InRange(x, d) && x < probe.value)
            && (!contradicts ==> a == Fetch(d))
            && (a.Fetch? ==> a.d.effStart == d.effStart && a.d.clientSentRange == d.clientSentRange)
            && (a.Fetch? && contradicts ==>
                  a.d.total == probe.value && forall x :: InRange(x, a.d) <==> InRange(x, d) && x < probe.value)
  {
    if probe.Some? && probe.value != d.total {
      ContradictionLeaves(d, probe.value);
    }
  }

  lemma ContradictionLeaves(d: Decision, actual: int)
    requires Sound(d) && actual != d.total
    ensures var a := Adjust(d, Some(actual));
            && (a.NotSatisfiable? <==> !exists x :: InRange(x, d) && x < actual)
            && (a.Fetch? ==> forall x :: InRange(x, a.d) <==> InRange(x, d) && x < actual)
  {
    if d.effStart < actual {
      assert InRange(d.effStart, d);
    }
  }

  /**
   * A probe that agrees changes nothing, so the range then stays inside the file
   * exactly when the response's own Content-Range did.
   */
  lemma AgreeingProbeDoesNotClamp(d: Decision, actual: int)
    requires Sound(d) && 0 < actual < TWO_63
    ensures var a := Adjust(d, Some(actual));
            (a.Fetch? ==> a.d.effEnd < actual) <==> (actual != d.total || d.effEnd < d.total)
  {
  }

  lemma ReadRangeDecides(req: Request, resp: Response, cr: ContentRange.Parsed, healthyLinks: nat)
    requires healthyLinks >= 2
    requires req.isGet && resp.status == 206 && resp.identityEncoded && !resp.streamingType
    requires IsInt64(resp.contentLength)
    requires ContentRange.Parse(resp.contentRange) == Some(cr)
    requires cr.total > 0 && RANGE_SPLIT_THRESHOLD <= cr.end - cr.start + 1 < TWO_63
    ensures ShouldSplit(req, resp, healthyLinks) == Some(Decision(cr.start, cr.end, cr.total, req.hasRange))
  {
    var d := Decision(cr.start, cr.end, cr.total, req.hasRange);
    assert DescribedRange(req, resp) == Some(d);
    LargeRangeIsLarge(d);
  }

  lemma LargeRangeIsLarge(d: Decision)
    requires 0 <= d.effStart <= d.effEnd && RANGE_SPLIT_THRESHOLD <= d.effEnd - d.effStart + 1 < TWO_63 && d.effEnd < TWO_63
    ensures RangeSize(d) >= RANGE_SPLIT_THRESHOLD
  {
    RangeSizeIs(d);
  }

  /** Every large range that ends beyond its own total is such a case: accepted, and then not clamped. */
  lemma InconsistentRangeIsFetched(req: Request, resp: Response, start: int, end: int, total: int, healthyLinks: nat)
    requires healthyLinks >= 2
    requires req.isGet && resp.status == 206 && resp.identityEncoded && !resp.streamingType
    requires IsInt64(resp.contentLength)
    requires 0 <= start <= end < TWO_63 - 1 && end - start + 1 >= RANGE_SPLIT_THRESHOLD && 0 < total <= end
    requires resp.contentRange == ContentRange.Print(start, end, total)
    ensures ShouldSplit(req, resp, healthyLinks) == Some(Decision(start, end, total, req.hasRange))
    ensures Adjust(Decision(start, end, total, req.hasRange), Some(total)) == Fetch(Decision(start, end, total, req.hasRange))
  {
    ContentRange.RoundTrip(start, end, total);
    ReadRangeDecides(req, resp, ContentRange.Parsed(start, end, total), healthyLinks);
  }

  function PlanOf(d: Decision): ChunkPlan.Plan {
    ChunkPlan.Plan(d.effStart, d.effEnd)
  }

  /** A client that did not ask for a range gets no Content-Range, and one that did does. */
  lemma RangeHeaderIffAsked(d: Decision)
    ensures ReplyHeader(d).1 != "" <==> d.clientSentRange
  {
    assert |ContentRange.Print(d.effStart, d.effEnd, d.total)| >= 6;
  }

  /** Content-Length and, when the client asked for a range, Content-Range. */
  function ReplyHeader(d: Decision): (int, string) {
    (RangeSize(d), if d.clientSentRange then ContentRange.Print(d.effStart, d.effEnd, d.total) else "")
  }

  lemma SizeFits(d: Decision)
    requires Sound(d) && d.effEnd - d.effStart + 1 < TWO_63
    ensures RangeSize(d) == d.effEnd - d.effStart + 1
  {
    RangeSizeIs(d);
  }

  /**
   * The reply's headers describe exactly the bytes the chunks ask for: the length
   * is the number of those bytes, and a reader of the Content-Range gets an
   * interval holding exactly them.
   */
  lemma HeadersDescribeChunks(d: Decision, x: int)
    requires Sound(d) && d.effEnd - d.effStart + 1 < TWO_63
    ensures ReplyHeader(d).0 == PlanOf(d).Size()
    ensures d.clientSentRange ==>
              var cr := ContentRange.Parse(ReplyHeader(d).1);
              && cr.Some? && cr.value.total == d.total
              && (cr.value.start <= x <= cr.value.end <==>
                  exists i: nat :: i < PlanOf(d).Count() && PlanOf(d).Start(i) <= x <= PlanOf(d).End(i))
  {
    SizeFits(d);
    ContentRange.RoundTrip(d.effStart, d.effEnd, d.total);
    ChunkPlan.ChunksCover(PlanOf(d), x);
  }
}
