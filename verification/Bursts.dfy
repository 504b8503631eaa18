/**
 * Assembling runs into bursts: `BurstAccumulator` and `split_bursts`.
 *
 * The accumulator's meaning is given twice: as a step function on its fields
 * (`AccPush`, `AccFinish`), and declaratively, by cutting the run list at long spaces
 * (`Segments`), trimming the outer spaces and dropping short pieces (`Kept`).
 */
module Bursts {
  import opened Wrappers
  import opened Runs
  import opened Sequences

  const MAX_BURST_EDGES: nat := 4096

  datatype Limits = Limits(gapUs: int, minEdges: nat)

  /** The accumulator's fields. */
  datatype Acc = Acc(current: seq<int>, overflows: nat)

  const EMPTY: Acc := Acc([], 0)

  predicate IsGap(limits: Limits, run: Run) {
    !run.on && run.us >= limits.gapUs
  }

  function Signed(run: Run): int {
    if run.on then run.us as int else -(run.us as int)
  }

  /** Without the trailing spaces. */
  function Stripped(timings: seq<int>): seq<int> {
    if timings != [] && Last(timings) < 0 then Stripped(Front(timings)) else timings
  }

  function AccFinish(limits: Limits, acc: Acc): (Acc, Option<seq<int>>) {
    var burst := Stripped(acc.current);
    (acc.(current := []), if |burst| >= limits.minEdges then Some(burst) else None)
  }

  function AccPush(limits: Limits, acc: Acc, run: Run): (Acc, Option<seq<int>>) {
    if IsGap(limits, run) then AccFinish(limits, acc)
    else if acc.current == [] && !run.on then (acc, None)
    else
      var longer := acc.current + [Signed(run)];
      if |longer| > MAX_BURST_EDGES then (Acc([], acc.overflows + 1), None)
      else (acc.(current := longer), None)
  }

  /** An accumulator together with the bursts it has handed out so far. */
  datatype Fed = Fed(acc: Acc, bursts: seq<seq<int>>) {
    function Took(step: (Acc, Option<seq<int>>)): Fed {
      Fed(step.0, bursts + ToSeq(step.1))
    }

    function Pushed(limits: Limits, run: Run): Fed {
      Took(AccPush(limits, acc, run))
    }

    function Closed(limits: Limits): Fed {
      Took(AccFinish(limits, acc))
    }
  }

  function ToSeq<T>(o: Option<T>): seq<T> {
    match o
    case None => []
    case Some(x) => [x]
  }

  function Feed(limits: Limits, runs: seq<Run>): Fed {
    if runs == [] then Fed(EMPTY, []) else Feed(limits, Front(runs)).Pushed(limits, Last(runs))
  }

  /** Everything the offline splitter produces: the bursts and the overflow count. */
  function Split(limits: Limits, runs: seq<Run>): Fed {
    Feed(limits, runs).Closed(limits)
  }

  class BurstAccumulator {
    const limits: Limits
    var current: seq<int>
    var overflows: nat

    function View(): Acc
      reads this
    {
      Acc(current, overflows)
    }

    constructor (limits: Limits)
      ensures this.limits == limits && View() == EMPTY
    {
      this.limits := limits;
      current, overflows := [], 0;
    }

    /** Does to the fields what `AccPush` does to their values. */
    method Push(run: Run) returns (burst: Option<seq<int>>)
      modifies this
      ensures (View(), burst) == AccPush(limits, old(View()), run)
    {
      if !run.on && run.us >= limits.gapUs {
        burst := Finish();
        return;
      }
      if current == [] && !run.on {
        return None;
      }
      current := current + [Signed(run)];
      if |current| > MAX_BURST_EDGES {
        current := [];
        overflows := overflows + 1;
      }
      burst := None;
    }

    /** Empties the buffer, and gives what `AccFinish` makes of it. */
    method Finish() returns (burst: Option<seq<int>>)
      modifies this
      ensures (View(), burst) == AccFinish(limits, old(View()))
    {
      while current != [] && Last(current) < 0
        invariant Stripped(current) == Stripped(old(current))
        invariant overflows == old(overflows)
        decreases |current|
      {
        current := Front(current);
      }
      if |current| >= limits.minEdges {
        burst := Some(current);
        current := [];
      } else {
        current := [];
        burst := None;
      }
    }
  }

  /** The offline splitter: every burst of a finished recording, and how many were given up on. */
  method SplitBursts(limits: Limits, runs: seq<Run>) returns (bursts: seq<seq<int>>, overflows: nat)
    ensures bursts == Split(limits, runs).bursts
    ensures overflows == Split(limits, runs).acc.overflows
  {
    var accumulator := new BurstAccumulator(limits);
    bursts := [];
    for i := 0 to |runs|
      invariant accumulator.limits == limits
      invariant Fed(accumulator.View(), bursts) == Feed(limits, runs[..i])
    {
      assert Front(runs[..i + 1]) == runs[..i] && Last(runs[..i + 1]) == runs[i];
      var burst := accumulator.Push(runs[i]);
      bursts := bursts + ToSeq(burst);
    }
    assert runs[..|runs|] == runs;
    var burst := accumulator.Finish();
    bursts := bursts + ToSeq(burst);
    overflows := accumulator.overflows;
  }

  // ----- the declarative split -----

  /** The pieces of a run list between its gaps, in order; one more piece than there are gaps. */
  function Segments(limits: Limits, runs: seq<Run>): (r: seq<seq<Run>>)
    ensures r != []
  {
    if runs == [] then [[]] else ExtendSegments(limits, Segments(limits, Front(runs)), Last(runs))
  }

  function ExtendSegments(limits: Limits, segments: seq<seq<Run>>, run: Run): (r: seq<seq<Run>>)
    requires segments != []
    ensures r != []
  {
    if IsGap(limits, run) then segments + [[]]
    else Front(segments) + [Last(segments) + [run]]
  }

  /** From the first mark on. */
  function FromFirstMark(segment: seq<Run>): seq<Run> {
    if segment == [] || segment[0].on then segment else FromFirstMark(segment[1..])
  }

  /** Up to and including the last mark. */
  function ToLastMark(segment: seq<Run>): seq<Run> {
    if segment == [] || Last(segment).on then segment else ToLastMark(Front(segment))
  }

  function Timings(runs: seq<Run>): (r: seq<int>)
    ensures |r| == |runs|
  {
    seq(|runs|, i requires 0 <= i < |runs| => Signed(runs[i]))
  }

  /** The signed timings of a segment with its outer spaces removed. */
  function BurstOf(segment: seq<Run>): seq<int> {
    Timings(ToLastMark(FromFirstMark(segment)))
  }

  /** The bursts of a list of segments that are long enough to be frames. */
  function Kept(limits: Limits, segments: seq<seq<Run>>): seq<seq<int>> {
    if segments == [] then []
    else
      var burst := BurstOf(Last(segments));
      Kept(limits, Front(segments)) + (if |burst| >= limits.minEdges then [burst] else [])
  }

  ghost predicate PositiveSpaces(runs: seq<Run>) {
    forall i :: 0 <= i < |runs| && !runs[i].on ==> runs[i].us >= 1
  }

  /** No segment is longer than the buffer. */
  ghost predicate FitsBuffer(limits: Limits, runs: seq<Run>) {
    forall k :: 0 <= k < |Segments(limits, runs)| ==> |FromFirstMark(Segments(limits, runs)[k])| <= MAX_BURST_EDGES
  }

  lemma {:induction false} StrippedTimings(segment: seq<Run>)
    requires PositiveSpaces(segment)
    ensures Stripped(Timings(segment)) == Timings(ToLastMark(segment))
  {
    if segment != [] && !Last(segment).on {
      assert Front(Timings(segment)) == Timings(Front(segment));
      StrippedTimings(Front(segment));
    }
  }

  lemma {:induction false} FromFirstMarkSnoc(segment: seq<Run>, run: Run)
    ensures FromFirstMark(segment + [run]) ==
            if FromFirstMark(segment) == [] && !run.on then [] else FromFirstMark(segment) + [run]
    ensures PositiveSpaces(segment) ==> PositiveSpaces(FromFirstMark(segment))
  {
    if segment == [] {
      assert segment + [run] == [run];
      assert [run][1..] == [];
    } else if !segment[0].on {
      assert (segment + [run])[1..] == segment[1..] + [run];
      FromFirstMarkSnoc(segment[1..], run);
    }
  }

  lemma {:induction false} PrefixFits(limits: Limits, runs: seq<Run>)
    requires runs != [] && FitsBuffer(limits, runs)
    ensures FitsBuffer(limits, Front(runs))
  {
    var before, after := Segments(limits, Front(runs)), Segments(limits, runs);
    FromFirstMarkSnoc(Last(before), Last(runs));
    forall k | 0 <= k < |before| ensures |FromFirstMark(before[k])| <= MAX_BURST_EDGES {
      assert |FromFirstMark(after[k])| <= MAX_BURST_EDGES;
      if k < |before| - 1 {
        assert before[k] == after[k];
      }
    }
  }

  ghost predicate AllPositiveSpaces(segments: seq<seq<Run>>) {
    forall k :: 0 <= k < |segments| ==> PositiveSpaces(segments[k])
  }

  lemma {:induction false} SegmentsPositive(limits: Limits, runs: seq<Run>)
    requires PositiveSpaces(runs)
    ensures AllPositiveSpaces(Segments(limits, runs))
  {
    if runs != [] {
      SegmentsPositive(limits, Front(runs));
    }
  }

  /** Where the accumulator stands after any prefix: closed segments are bursts, the open one is the buffer. */
  lemma {:induction false} FeedIsSegments(limits: Limits, runs: seq<Run>)
    requires PositiveSpaces(runs) && FitsBuffer(limits, runs)
    ensures Feed(limits, runs) == Reached(limits, Segments(limits, runs))
  {
    if runs == [] {
      var whole: seq<seq<Run>> := [[]];
      assert Front(whole) == [];
    } else {
      PrefixFits(limits, runs);
      FeedIsSegments(limits, Front(runs));
      var before, after := Segments(limits, Front(runs)), Segments(limits, runs);
      SegmentsPositive(limits, Front(runs));
      assert |FromFirstMark(after[|after| - 1])| <= MAX_BURST_EDGES;
      PushExtends(limits, before, Last(runs));
    }
  }

  /** The accumulator state a list of segments stands for. */
  function Reached(limits: Limits, segments: seq<seq<Run>>): Fed
    requires segments != []
  {
    Fed(Acc(Timings(FromFirstMark(Last(segments))), 0), Kept(limits, Front(segments)))
  }

  lemma {:induction false} PushExtends(limits: Limits, segments: seq<seq<Run>>, run: Run)
    requires segments != [] && PositiveSpaces(Last(segments))
    requires |FromFirstMark(Last(ExtendSegments(limits, segments, run)))| <= MAX_BURST_EDGES
    ensures Reached(limits, segments).Pushed(limits, run) == Reached(limits, ExtendSegments(limits, segments, run))
  {
    var after := ExtendSegments(limits, segments, run);
    if IsGap(limits, run) {
      CloseSegment(limits, Last(segments));
      assert Front(after) == segments;
    } else {
      assert Front(after) == Front(segments);
      GrowSegment(limits, Last(segments), run);
    }
  }

  lemma {:induction false} CloseSegment(limits: Limits, segment: seq<Run>)
    requires PositiveSpaces(segment)
    ensures Stripped(Timings(FromFirstMark(segment))) == BurstOf(segment)
  {
    FromFirstMarkSnoc(segment, Run(true, 0));
    StrippedTimings(FromFirstMark(segment));
  }

  lemma {:induction false} GrowSegment(limits: Limits, segment: seq<Run>, run: Run)
    requires !IsGap(limits, run)
    requires |FromFirstMark(segment + [run])| <= MAX_BURST_EDGES
    ensures AccPush(limits, Acc(Timings(FromFirstMark(segment)), 0), run)
            == (Acc(Timings(FromFirstMark(segment + [run])), 0), None)
  {
    FromFirstMarkSnoc(segment, run);
    assert Timings(FromFirstMark(segment) + [run]) == Timings(FromFirstMark(segment)) + [Signed(run)];
  }

  /**
   * The accumulator refines the declarative split: cut at the gaps, trim outer spaces, drop what is
   * too short; and nothing overflows.
   */
  lemma {:induction false} SplitIsDeclarative(limits: Limits, runs: seq<Run>)
    requires PositiveSpaces(runs) && FitsBuffer(limits, runs)
    ensures Split(limits, runs) == Fed(EMPTY, Kept(limits, Segments(limits, runs)))
  {
    FeedIsSegments(limits, runs);
    SegmentsPositive(limits, runs);
    CloseSegment(limits, Last(Segments(limits, runs)));
  }

  ghost predicate GapFree(limits: Limits, runs: seq<Run>) {
    forall i :: 0 <= i < |runs| ==> !IsGap(limits, runs[i])
  }

  /** Cutting is determined by its gaps: a gap-free list is one piece, and a gap separates what is on its two sides. */
  lemma {:induction false} SegmentsCut(limits: Limits, a: seq<Run>, gap: Run, b: seq<Run>)
    requires IsGap(limits, gap)
    ensures Segments(limits, a + [gap] + b) == Segments(limits, a) + Segments(limits, b)
  {
    if b == [] {
      assert a + [gap] + b == a + [gap];
      assert Front(a + [gap]) == a;
    } else {
      SegmentsCut(limits, a, gap, Front(b));
      assert Front(a + [gap] + b) == a + [gap] + Front(b) && Last(a + [gap] + b) == Last(b);
      ExtendRight(limits, Segments(limits, a), Segments(limits, Front(b)), Last(b));
    }
  }

  lemma {:induction false} ExtendRight(limits: Limits, left: seq<seq<Run>>, right: seq<seq<Run>>, run: Run)
    requires right != []
    ensures ExtendSegments(limits, left + right, run) == left + ExtendSegments(limits, right, run)
  {
    if IsGap(limits, run) {
      ConcatAssociates(left, right, [[]]);
    } else {
      assert Front(left + right) == left + Front(right) && Last(left + right) == Last(right);
      ConcatAssociates(left, Front(right), [Last(right) + [run]]);
    }
  }

  lemma {:induction false} SegmentsWhole(limits: Limits, runs: seq<Run>)
    requires GapFree(limits, runs)
    ensures Segments(limits, runs) == [runs]
  {
    if runs != [] {
      SegmentsWhole(limits, Front(runs));
      assert runs == Front(runs) + [Last(runs)];
    }
  }

  // ----- what comes before a gap and what comes after it -----

  /** What is fed later, added to what came of everything earlier. */
  function Shifted(earlier: Fed, fed: Fed): Fed {
    Fed(Acc(fed.acc.current, earlier.acc.overflows + fed.acc.overflows), earlier.bursts + fed.bursts)
  }

  lemma {:induction false} ShiftedTakes(limits: Limits, earlier: Fed, fed: Fed, run: Run)
    ensures Shifted(earlier, fed).Pushed(limits, run) == Shifted(earlier, fed.Pushed(limits, run))
    ensures Shifted(earlier, fed).Closed(limits) == Shifted(earlier, fed.Closed(limits))
  {
    ConcatAssociates(earlier.bursts, fed.bursts, ToSeq(AccPush(limits, fed.acc, run).1));
    ConcatAssociates(earlier.bursts, fed.bursts, ToSeq(AccFinish(limits, fed.acc).1));
  }

  lemma {:induction false} FedAfterGap(limits: Limits, p: seq<Run>, gap: Run, rest: seq<Run>)
    requires IsGap(limits, gap)
    ensures Feed(limits, p + [gap] + rest) == Shifted(Split(limits, p), Feed(limits, rest))
  {
    var whole := p + [gap] + rest;
    if rest == [] {
      assert Front(whole) == p && Last(whole) == gap;
    } else {
      assert Front(whole) == p + [gap] + Front(rest) && Last(whole) == Last(rest);
      FedAfterGap(limits, p, gap, Front(rest));
      ShiftedTakes(limits, Split(limits, p), Feed(limits, Front(rest)), Last(rest));
    }
  }

  /** Everything up to a gap, and everything after it, contribute separately. */
  lemma {:induction false} SplitAtGap(limits: Limits, p: seq<Run>, gap: Run, rest: seq<Run>)
    requires IsGap(limits, gap)
    ensures Split(limits, p + [gap] + rest) == Shifted(Split(limits, p), Split(limits, rest))
  {
    FedAfterGap(limits, p, gap, rest);
    ShiftedTakes(limits, Split(limits, p), Feed(limits, rest), gap);
  }

  // ----- the shape of every burst, overflows included -----

  /** The edge at position i: marks at even positions, spaces under the gap at odd ones. */
  ghost predicate IsEdge(limits: Limits, i: nat, t: int) {
    if i % 2 == 0 then t > 0 else -limits.gapUs < t < 0
  }

  ghost predicate Edges(limits: Limits, t: seq<int>) {
    forall i :: 0 <= i < |t| ==> IsEdge(limits, i, t[i])
  }

  /** A frame as it reaches a client: alternates, starts and ends on a mark, holds no gap. */
  ghost predicate IsBurst(limits: Limits, t: seq<int>) {
    |t| % 2 == 1 && limits.minEdges <= |t| <= MAX_BURST_EDGES && Edges(limits, t)
  }

  ghost predicate AllBursts(limits: Limits, bursts: seq<seq<int>>) {
    forall k :: 0 <= k < |bursts| ==> IsBurst(limits, bursts[k])
  }

  ghost predicate PositiveRuns(runs: seq<Run>) {
    forall i :: 0 <= i < |runs| ==> runs[i].us >= 1
  }

  lemma {:induction false} StripsToOdd(limits: Limits, t: seq<int>)
    requires Edges(limits, t) && t != []
    ensures Stripped(t) == if |t| % 2 == 1 then t else Front(t)
  {
    var n := |t|;
    assert IsEdge(limits, n - 1, t[n - 1]);
    if n % 2 == 0 {
      assert IsEdge(limits, n - 2, t[n - 2]);
      assert Last(Front(t)) == t[n - 2];
    }
  }

  lemma {:induction false} FinishedBurst(limits: Limits, acc: Acc)
    requires limits.minEdges >= 1
    requires Edges(limits, acc.current) && |acc.current| <= MAX_BURST_EDGES
    ensures var burst := AccFinish(limits, acc).1; burst.Some? ==> IsBurst(limits, burst.value)
  {
    if acc.current != [] {
      StripsToOdd(limits, acc.current);
    }
  }

  /** The buffer between calls, given the polarity of the last run: a partial burst. */
  ghost predicate Partial(limits: Limits, acc: Acc, lastOn: bool) {
    && |acc.current| <= MAX_BURST_EDGES
    && Edges(limits, acc.current)
    && (acc.current != [] ==> (lastOn <==> |acc.current| % 2 == 1))
  }

  lemma {:induction false} PushKeepsPartial(limits: Limits, acc: Acc, run: Run)
    requires limits.minEdges >= 1 && run.us >= 1
    requires Partial(limits, acc, !run.on) || acc.current == []
    ensures var (after, burst) := AccPush(limits, acc, run);
      && Partial(limits, after, run.on)
      && (burst.Some? ==> IsBurst(limits, burst.value))
  {
    FinishedBurst(limits, acc);
  }

  /**
   * On any alternating runs, jammed or not, the buffer never holds more than the limit between calls
   * and every burst handed out alternates, has an odd number of edges, starts and ends on a mark and
   * contains no space as long as the gap.
   */
  lemma {:induction false} FeedShape(limits: Limits, runs: seq<Run>)
    requires limits.minEdges >= 1 && Alternating(runs) && PositiveRuns(runs)
    ensures Partial(limits, Feed(limits, runs).acc, runs != [] && Last(runs).on)
    ensures AllBursts(limits, Feed(limits, runs).bursts)
    ensures AllBursts(limits, Split(limits, runs).bursts)
  {
    if runs != [] {
      AlternatingFront(runs);
      FeedShape(limits, Front(runs));
      PushKeepsPartial(limits, Feed(limits, Front(runs)).acc, Last(runs));
    }
    FinishedBurst(limits, Feed(limits, runs).acc);
  }

  lemma {:induction false} AlternatingFront(runs: seq<Run>)
    requires runs != [] && Alternating(runs)
    ensures Alternating(Front(runs))
    ensures |runs| > 1 ==> Last(Front(runs)).on != Last(runs).on
  {
    forall i, j | 0 <= i < j < |Front(runs)| && j == i + 1 ensures Front(runs)[i].on != Front(runs)[j].on {
      assert runs[i].on != runs[i + 1].on;
    }
    if |runs| > 1 {
      assert runs[|runs| - 2].on != runs[|runs| - 1].on;
    }
  }

  /** The buffer bound needs nothing of the input. */
  lemma {:induction false} BufferBounded(limits: Limits, runs: seq<Run>)
    ensures |Feed(limits, runs).acc.current| <= 4096
  {
    if runs != [] {
      BufferBounded(limits, Front(runs));
    }
  }
}
