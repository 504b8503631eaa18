/**
 * Exactly when the streaming detector and the offline path agree: the one thing
 * they treat differently is a recording that opens with a mark below the glitch
 * floor.
 *
 * Up to the first maximal run that reaches the floor, everything folds into the
 * run it started with: a mark offline, a space in the stream. After it the two
 * lists are the same, so they differ in their first piece only, either by two
 * edges or by the length of the first mark.
 */
module LeadingGlitch {
  import opened SampleClock
  import opened Sequences
  import opened Runs
  import opened Bursts
  import opened Pieces
  import opened Detector
  import opened Refinement

  // ----- up to the first proper run -----

  /** How many maximal runs come before the first that reaches the floor. */
  function Lead(clock: Clock, raws: seq<Raw>): (k: nat)
    ensures k <= |raws|
    ensures k < |raws| ==> raws[k].len >= clock.minSamples
    ensures forall i :: 0 <= i < k ==> raws[i].len < clock.minSamples
  {
    if raws == [] || raws[0].len >= clock.minSamples then 0 else 1 + Lead(clock, raws[1..])
  }

  predicate Glitches(clock: Clock, raws: seq<Raw>) {
    forall i :: 0 <= i < |raws| ==> raws[i].len < clock.minSamples
  }

  lemma {:induction false} GlitchJoins(clock: Clock, run: Run, raw: Raw)
    requires raw.len < clock.minSamples
    ensures PushRun(clock, [run], raw) == [Run(run.on, run.us + clock.us(raw.len))]
  {
    assert Front([run]) == [];
  }

  lemma {:induction false} GlitchesFold(clock: Clock, first: Run, raws: seq<Raw>)
    requires Glitches(clock, raws)
    ensures FoldedFrom(clock, [first], raws) == [Run(first.on, first.us + RawUs(clock, raws))]
  {
    if raws != [] {
      GlitchesFold(clock, first, Front(raws));
      assert raws[|raws| - 1].len < clock.minSamples;
      GlitchJoins(clock, Run(first.on, first.us + RawUs(clock, Front(raws))), Last(raws));
    }
  }

  lemma {:induction false} GlitchesFoldAlone(clock: Clock, raws: seq<Raw>)
    requires raws != [] && Glitches(clock, raws)
    ensures Folded(clock, raws) == [Run(raws[0].on, RawUs(clock, raws))]
  {
    var rest := raws[1..];
    assert raws == [raws[0]] + rest;
    assert Glitches(clock, rest);
    FoldedStart(clock, raws[0], rest);
    GlitchesFold(clock, Run(raws[0].on, clock.us(raws[0].len)), rest);
    RawUsConcat(clock, raws[0], rest);
  }

  lemma {:induction false} FoldedStart(clock: Clock, raw: Raw, rest: seq<Raw>)
    ensures Folded(clock, [raw] + rest) == FoldedFrom(clock, [Run(raw.on, clock.us(raw.len))], rest)
  {
    FoldedFromConcat(clock, [], [raw], rest);
    FoldedOne(clock, [], raw);
  }

  lemma {:induction false} RawUsConcat(clock: Clock, raw: Raw, raws: seq<Raw>)
    ensures RawUs(clock, [raw] + raws) == clock.us(raw.len) + RawUs(clock, raws)
  {
    if raws == [] {
      assert [raw] + raws == [raw] && Front([raw]) == [];
    } else {
      assert Front([raw] + raws) == [raw] + Front(raws) && Last([raw] + raws) == Last(raws);
      RawUsConcat(clock, raw, Front(raws));
    }
  }

  /** The same runs with the first one longer. */
  function Raised(runs: seq<Run>, us: nat): seq<Run>
    requires runs != []
  {
    [Run(runs[0].on, runs[0].us + us)] + runs[1..]
  }

  /** A list led by a run: longer by that run's time if it begins alike, and by the run itself if not. */
  predicate LedBy(first: Run, common: seq<Run>, runs: seq<Run>) {
    common != [] && runs == if first.on == common[0].on then Raised(common, first.us) else [first] + common
  }

  lemma {:induction false} PushRaised(clock: Clock, out: seq<Run>, raw: Raw, us: nat)
    requires out != []
    ensures PushRun(clock, Raised(out, us), raw) == Raised(PushRun(clock, out, raw), us)
  {
    var raised, after := Raised(out, us), PushRun(clock, out, raw);
    if |out| == 1 {
      assert out == [out[0]];
    } else {
      assert Last(raised) == Last(out) && Front(raised) == Raised(Front(out), us);
    }
    assert PushRun(clock, raised, raw)[1..] == after[1..];
    assert PushRun(clock, raised, raw)[0] == Raised(after, us)[0];
  }

  lemma {:induction false} FoldedRaised(clock: Clock, out: seq<Run>, raws: seq<Raw>, us: nat)
    requires out != []
    ensures FoldedFrom(clock, out, raws) != []
    ensures FoldedFrom(clock, Raised(out, us), raws) == Raised(FoldedFrom(clock, out, raws), us)
  {
    if raws != [] {
      FoldedRaised(clock, out, Front(raws), us);
      PushRaised(clock, FoldedFrom(clock, out, Front(raws)), Last(raws), us);
    }
  }

  /** What stands before a proper run joins it, or stands before it as one run. */
  lemma {:induction false} LeadThenProper(clock: Clock, first: Run, raws: seq<Raw>)
    requires raws != [] && raws[0].len >= clock.minSamples
    ensures LedBy(first, Folded(clock, raws), FoldedFrom(clock, [first], raws))
    ensures Folded(clock, raws)[0].on == raws[0].on
  {
    var proper, rest := Run(raws[0].on, clock.us(raws[0].len)), raws[1..];
    assert raws == [raws[0]] + rest;
    FoldedStart(clock, raws[0], rest);
    FoldedKeepsFirst(clock, [proper], rest);
    FoldedFromConcat(clock, [first], [raws[0]], rest);
    FoldedOne(clock, [first], raws[0]);
    ProperPushed(clock, first, raws[0]);
    if first.on == raws[0].on {
      FoldedRaised(clock, [proper], rest, first.us);
    } else {
      FoldedBehind(clock, [first], [proper], rest);
    }
  }

  lemma {:induction false} ProperPushed(clock: Clock, first: Run, raw: Raw)
    requires raw.len >= clock.minSamples
    ensures var proper := Run(raw.on, clock.us(raw.len));
      PushRun(clock, [first], raw) == if first.on == raw.on then Raised([proper], first.us) else [first] + [proper]
  {
    assert Front([first]) == [];
  }

  lemma {:induction false} FoldedKeepsFirst(clock: Clock, out: seq<Run>, raws: seq<Raw>)
    requires out != []
    ensures FoldedFrom(clock, out, raws) != [] && FoldedFrom(clock, out, raws)[0].on == out[0].on
  {
    if raws != [] {
      FoldedKeepsFirst(clock, out, Front(raws));
    }
  }

  // ----- the two lists -----

  /** What both paths have in common: the runs from the first proper one on. */
  function Common(clock: Clock, raws: seq<Raw>): seq<Run> {
    Folded(clock, raws[Lead(clock, raws)..])
  }

  /** The microseconds before it. */
  function LeadUs(clock: Clock, raws: seq<Raw>): nat {
    RawUs(clock, raws[..Lead(clock, raws)])
  }

  lemma {:induction false} FoldedThrough(clock: Clock, out: seq<Run>, head: seq<Raw>, first: Run, tail: seq<Raw>)
    requires FoldedFrom(clock, out, head) == [first] && tail != [] && tail[0].len >= clock.minSamples
    ensures LedBy(first, Folded(clock, tail), FoldedFrom(clock, out, head + tail))
    ensures Folded(clock, tail)[0].on == tail[0].on
  {
    FoldedFromConcat(clock, out, head, tail);
    LeadThenProper(clock, first, tail);
  }

  /** Glitches in front of a proper run fold into the run before them. */
  lemma {:induction false} LeadFolds(clock: Clock, space: Run, head: seq<Raw>, tail: seq<Raw>)
    requires Glitches(clock, head) && tail != [] && tail[0].len >= clock.minSamples
    ensures LedBy(Run(space.on, space.us + RawUs(clock, head)), Folded(clock, tail),
                  FoldedFrom(clock, [space], head + tail))
  {
    GlitchesFold(clock, space, head);
    FoldedThrough(clock, [space], head, Run(space.on, space.us + RawUs(clock, head)), tail);
  }

  lemma {:induction false} LeadFoldsAlone(clock: Clock, head: seq<Raw>, tail: seq<Raw>)
    requires head != [] && Glitches(clock, head) && tail != [] && tail[0].len >= clock.minSamples
    ensures LedBy(Run(head[0].on, RawUs(clock, head)), Folded(clock, tail), Folded(clock, head + tail))
    ensures Folded(clock, tail)[0].on == tail[0].on
  {
    GlitchesFoldAlone(clock, head);
    FoldedThrough(clock, [], head, Run(head[0].on, RawUs(clock, head)), tail);
  }

  lemma {:induction false} CutAtLead(clock: Clock, raws: seq<Raw>)
    requires Lead(clock, raws) < |raws|
    ensures var head, tail := raws[..Lead(clock, raws)], raws[Lead(clock, raws)..];
      && raws == head + tail && Glitches(clock, head)
      && tail != [] && tail[0] == raws[Lead(clock, raws)] && tail[0].len >= clock.minSamples
  {
  }

  lemma {:induction false} OfflineList(clock: Clock, raws: seq<Raw>)
    requires raws != [] && raws[0].on && 1 <= Lead(clock, raws) < |raws|
    ensures LedBy(Run(true, LeadUs(clock, raws)), Common(clock, raws), Folded(clock, raws))
    ensures Common(clock, raws)[0].on == raws[Lead(clock, raws)].on
  {
    CutAtLead(clock, raws);
    LeadFoldsAlone(clock, raws[..Lead(clock, raws)], raws[Lead(clock, raws)..]);
  }

  lemma {:induction false} LeadingSpaceVanishes(limits: Limits, first: Run, common: seq<Run>, runs: seq<Run>)
    requires limits.minEdges >= 1 && !first.on && LedBy(first, common, runs)
    ensures Split(limits, runs) == Split(limits, common)
  {
    if common[0].on {
      LeadingSpaceIgnored(limits, first, common);
    } else {
      assert Raised(common, first.us)[1..] == common[1..];
      SameTailSplits(limits, Raised(common, first.us), common);
    }
  }

  lemma {:induction false} GlitchesVanish(
    limits: Limits, clock: Clock, space: Run, raws: seq<Raw>, head: seq<Raw>, tail: seq<Raw>)
    requires limits.minEdges >= 1 && !space.on && raws == head + tail && Glitches(clock, head)
    requires tail != [] && tail[0].len >= clock.minSamples
    ensures Split(limits, FoldedFrom(clock, [space], raws)) == Split(limits, Folded(clock, tail))
  {
    LeadFolds(clock, space, head, tail);
    LeadingSpaceVanishes(limits, Run(space.on, space.us + RawUs(clock, head)), Folded(clock, tail),
                         FoldedFrom(clock, [space], raws));
  }

  /** The stream finds what the offline path finds from the first proper run on. */
  lemma {:induction false} StreamSplits(limits: Limits, clock: Clock, space: Run, raws: seq<Raw>)
    requires limits.minEdges >= 1 && !space.on && Lead(clock, raws) < |raws|
    ensures Split(limits, FoldedFrom(clock, [space], raws)) == Split(limits, Common(clock, raws))
  {
    CutAtLead(clock, raws);
    GlitchesVanish(limits, clock, space, raws, raws[..Lead(clock, raws)], raws[Lead(clock, raws)..]);
  }

  // ----- what a piece does to the whole -----

  lemma {:induction false} ShiftedCancels(a: Fed, b: Fed, fed: Fed)
    requires a.acc.current == b.acc.current
    ensures Shifted(a, fed) == Shifted(b, fed) <==> a == b
  {
    if Shifted(a, fed) == Shifted(b, fed) {
      var whole := a.bursts + fed.bursts;
      assert |a.bursts| == |b.bursts|;
      assert a.bursts == whole[..|a.bursts|] && b.bursts == (b.bursts + fed.bursts)[..|b.bursts|];
    }
  }

  /** Two lists that differ before their first gap only are split alike exactly when those parts are. */
  lemma {:induction false} FirstPieceDecides(limits: Limits, a: seq<Run>, b: seq<Run>, gap: Run, rest: seq<Run>)
    requires IsGap(limits, gap)
    ensures Split(limits, a + [gap] + rest) == Split(limits, b + [gap] + rest) <==> Split(limits, a) == Split(limits, b)
  {
    SplitAtGap(limits, a, gap, rest);
    SplitAtGap(limits, b, gap, rest);
    ShiftedCancels(Split(limits, a), Split(limits, b), Split(limits, rest));
  }

  lemma {:induction false} OutcomesDiffer(limits: Limits, p: seq<Run>, h: nat, o: nat, p': seq<Run>, h': nat, o': nat)
    requires limits.minEdges >= 1 && h <= |p| && h' <= |p'|
    ensures o != o' ==> Outcome(limits, p, h, o) != Outcome(limits, p', h', o')
    ensures o == o' && h' < h ==>
              (Outcome(limits, p, h, o) == Outcome(limits, p', h', o') <==> h < limits.minEdges)
  {
    assert h > 0 && h >= limits.minEdges ==> |Timings(p[|p| - h..])| == h;
    assert h' >= limits.minEdges ==> |Timings(p'[|p'| - h'..])| == h';
  }

  lemma {:induction false} CycleOfTwoLess(n: nat)
    requires n >= 2 && n % 2 == 1
    ensures PhaseOf(n) == MAX_BURST_EDGES + 1 ==> SpilledOf(n) != SpilledOf(n - 2)
    ensures PhaseOf(n) != MAX_BURST_EDGES + 1 ==>
              HeldOf(n - 2) < HeldOf(n) == PhaseOf(n) && SpilledOf(n) == SpilledOf(n - 2)
  {
    PhaseParity(n);
    PhaseParity(n - 2);
    assert PhaseOf(n - 1) == if PhaseOf(n - 2) == MAX_BURST_EDGES + 1 then 0 else PhaseOf(n - 2) + 1;
    assert SpilledOf(n) == SpilledOf(n - 1) + if PhaseOf(n) == MAX_BURST_EDGES + 1 then 1 else 0;
    assert SpilledOf(n - 1) == SpilledOf(n - 2) + if PhaseOf(n - 1) == MAX_BURST_EDGES + 1 then 1 else 0;
  }

  lemma {:induction false} OneEdge()
    ensures PhaseOf(0) == 0 && PhaseOf(1) == 1 && SpilledOf(0) == 0 && SpilledOf(1) == 0
  {
  }

  lemma {:induction false} ShorterPiece(limits: Limits, p: seq<Run>)
    requires Piece(limits, p) && |p| >= 2
    ensures Piece(limits, p[2..])
  {
    if |p| > 2 {
      ShorterPiece(limits, Front(p));
      assert Front(p[2..]) == Front(p)[2..] && Last(p[2..]) == Last(p);
    }
  }

  /** A piece and the same piece without its first two edges. */
  lemma {:induction false} TwoEdgesLess(limits: Limits, p: seq<Run>)
    requires limits.minEdges >= 1 && Piece(limits, p) && |p| % 2 == 1 && |p| > 1
    ensures Split(limits, p) == Split(limits, p[2..]) <==>
            PhaseOf(|p|) != MAX_BURST_EDGES + 1 && PhaseOf(|p|) < limits.minEdges
  {
    var n, shorter := |p|, p[2..];
    ShorterPiece(limits, p);
    PieceSplit(limits, p);
    PieceSplit(limits, shorter);
    CycleOfTwoLess(n);
    OutcomesDiffer(limits, p, HeldOf(n), SpilledOf(n), shorter, HeldOf(n - 2), SpilledOf(n - 2));
  }

  /** A piece of a single mark and none. */
  lemma {:induction false} OneEdgeLess(limits: Limits, p: seq<Run>)
    requires limits.minEdges >= 1 && Piece(limits, p) && |p| == 1
    ensures PhaseOf(1) == 1
    ensures Split(limits, p) == Split(limits, []) <==> 1 < limits.minEdges
  {
    OneEdge();
    PieceSplit(limits, p);
    PieceSplit(limits, []);
    OutcomesDiffer(limits, p, 1, 0, [], 0, 0);
  }

  lemma {:induction false} FirstTimingDiffers(p: seq<Run>, us: nat, h: nat)
    requires p != [] && p[0].on && h <= |p|
    ensures h < |p| ==> Raised(p, us)[|p| - h..] == p[|p| - h..]
    ensures h == |p| ==> (Timings(Raised(p, us)[|p| - h..]) == Timings(p[|p| - h..]) <==> us == 0)
  {
    var raised := Raised(p, us);
    if h == |p| {
      assert raised[0..] == raised && p[0..] == p;
      assert Timings(raised)[0] == Timings(p)[0] + us;
      assert us == 0 ==> raised == p;
    }
  }

  /** Any mark will do for the first run of a piece. */
  lemma {:induction false} FirstMarkReplaced(limits: Limits, p: seq<Run>, first: Run)
    requires p != [] && Piece(limits, p) && first.on
    ensures p[0].on && Piece(limits, [first] + p[1..])
  {
    var replaced := [first] + p[1..];
    if |p| == 1 {
      assert Front(replaced) == [] && Last(replaced) == first && Last(p) == p[0];
    } else {
      FirstMarkReplaced(limits, Front(p), first);
      assert Front(replaced) == [first] + Front(p)[1..] && Last(replaced) == Last(p);
    }
  }

  lemma {:induction false} RaisedOutcome(limits: Limits, p: seq<Run>, us: nat, h: nat, o: nat)
    requires p != [] && p[0].on && h <= |p|
    ensures Outcome(limits, Raised(p, us), h, o) == Outcome(limits, p, h, o) <==>
            h < limits.minEdges || h < |p| || us == 0
  {
    FirstTimingDiffers(p, us, h);
  }

  /** A piece and the same piece with a longer first mark. */
  lemma {:induction false} FirstMarkLonger(limits: Limits, p: seq<Run>, us: nat)
    requires limits.minEdges >= 1 && p != [] && Piece(limits, p) && |p| % 2 == 1
    ensures Split(limits, Raised(p, us)) == Split(limits, p) <==>
            |p| > MAX_BURST_EDGES || |p| < limits.minEdges || us == 0
  {
    FirstMarkReplaced(limits, p, Run(true, p[0].us + us));
    PieceSplit(limits, p);
    PieceSplit(limits, Raised(p, us));
    HeldAll(|p|);
    RaisedOutcome(limits, p, us, HeldOf(|p|), SpilledOf(|p|));
  }

  // ----- the exact condition -----

  /**
   * Of a recording that opens with a glitch: the first piece of the offline list comes to nothing
   * on both sides. With n edges before its first gap, that is so if they are too few for a frame,
   * counting from the last overflow. When the first proper run is a mark, the stream loses no edge,
   * only the time before it, which an overflow swallows and which may round to nothing.
   */
  predicate Harmless(sl: Slicing, bits: seq<bool>) {
    var raws, n := RawRuns(bits), |Segments(sl.limits, RunsOf(sl.clock, bits))[0]|;
    if Lead(sl.clock, raws) % 2 == 0 then
      n > MAX_BURST_EDGES || n < sl.limits.minEdges || LeadUs(sl.clock, raws) == 0
    else
      n % CYCLE != MAX_BURST_EDGES + 1 && n % CYCLE < sl.limits.minEdges
  }

  lemma {:induction false} CutAtFirstGap(limits: Limits, runs: seq<Run>) returns (p: seq<Run>, gap: Run, rest: seq<Run>)
    requires runs != [] && IsGap(limits, Last(runs))
    ensures runs == p + [gap] + rest && GapFree(limits, p) && IsGap(limits, gap)
  {
    if IsGap(limits, runs[0]) {
      p, gap, rest := [], runs[0], runs[1..];
    } else {
      var tail;
      assert Last(runs[1..]) == Last(runs);
      tail, gap, rest := CutAtFirstGap(limits, runs[1..]);
      p := [runs[0]] + tail;
      assert runs == [runs[0]] + runs[1..];
      assert p + [gap] + rest == [runs[0]] + (tail + [gap] + rest);
    }
  }

  lemma {:induction false} FirstSegment(limits: Limits, p: seq<Run>, gap: Run, rest: seq<Run>)
    requires GapFree(limits, p) && IsGap(limits, gap)
    ensures Segments(limits, p + [gap] + rest)[0] == p
  {
    SegmentsCut(limits, p, gap, rest);
    SegmentsWhole(limits, p);
  }

  /** The runs before the first gap alternate from a mark to a mark. */
  lemma {:induction false} FirstPiece(limits: Limits, runs: seq<Run>, p: seq<Run>, gap: Run, rest: seq<Run>)
    requires runs == p + [gap] + rest && GapFree(limits, p) && IsGap(limits, gap)
    requires Alternating(runs) && runs[0].on
    ensures Piece(limits, p) && |p| % 2 == 1
  {
    assert runs[..|p|] == p && runs[|p|] == gap;
    PrefixIsPiece(limits, runs, |p|);
    Parity(runs, |p|);
  }

  /** A first space offline: the stream has the piece without its first two edges. */
  lemma {:induction false} SpaceFollows(limits: Limits, common: seq<Run>, p: seq<Run>, gap: Run, rest: seq<Run>)
    requires limits.minEdges >= 1 && Piece(limits, p) && |p| % 2 == 1 && IsGap(limits, gap)
    requires [p[0]] + common == p + [gap] + rest && common != [] && !common[0].on
    ensures Split(limits, p + [gap] + rest) == Split(limits, common) <==>
            PhaseOf(|p|) != MAX_BURST_EDGES + 1 && PhaseOf(|p|) < limits.minEdges
  {
    assert common == (p + [gap] + rest)[1..];
    if |p| == 1 {
      assert common == [] + [gap] + rest;
      FirstPieceDecides(limits, p, [], gap, rest);
      OneEdgeLess(limits, p);
    } else {
      var shorter := p[2..];
      assert common == [p[1]] + (shorter + [gap] + rest);
      LeadingSpaceIgnored(limits, p[1], shorter + [gap] + rest);
      FirstPieceDecides(limits, p, shorter, gap, rest);
      TwoEdgesLess(limits, p);
    }
  }

  /** A first mark offline: the stream has the piece with a shorter one. */
  lemma {:induction false} MarkFollows(limits: Limits, common: seq<Run>, us: nat, p: seq<Run>, gap: Run, rest: seq<Run>)
    requires limits.minEdges >= 1 && Piece(limits, p) && |p| % 2 == 1 && IsGap(limits, gap)
    requires common != [] && common[0].on && Raised(common, us) == p + [gap] + rest
    ensures Split(limits, p + [gap] + rest) == Split(limits, common) <==>
            |p| > MAX_BURST_EDGES || |p| < limits.minEdges || us == 0
  {
    var shorter, whole := [common[0]] + p[1..], p + [gap] + rest;
    Shortened(common, us, p, [gap] + rest);
    assert whole == p + ([gap] + rest);
    assert common == shorter + [gap] + rest;
    FirstMarkReplaced(limits, p, common[0]);
    FirstPieceDecides(limits, p, shorter, gap, rest);
    FirstMarkLonger(limits, shorter, us);
  }

  lemma {:induction false} Shortened(common: seq<Run>, us: nat, p: seq<Run>, rest: seq<Run>)
    requires common != [] && p != [] && Raised(common, us) == p + rest
    ensures common == [common[0]] + p[1..] + rest && Raised([common[0]] + p[1..], us) == p
  {
    assert common[1..] == Raised(common, us)[1..] == p[1..] + rest;
    assert p[0] == Raised(common, us)[0];
  }

  /** What is known of a recording that opens with a glitch and ends with a gap. */
  lemma {:induction false} GlitchRecording(sl: Slicing, bits: seq<bool>)
    requires Sound(sl) && !BeginsCleanly(sl.clock, bits) && EndsSilent(bits, sl.gapSamples)
    ensures var raws, runs := RawRuns(bits), RunsOf(sl.clock, bits);
      var k := Lead(sl.clock, raws);
      && raws != [] && raws[0].on && 1 <= k < |raws| && raws[k].on == (k % 2 == 0)
      && runs != [] && runs[0].on && Alternating(runs) && IsGap(sl.limits, Last(runs))
  {
    var raws := RawRuns(bits);
    RawRunsEncode(bits);
    EndsSilentRun([], bits, sl.gapSamples);
    assert raws[|raws| - 1].len >= sl.clock.minSamples;
    Parity(InMicros(sl.clock, raws), Lead(sl.clock, raws));
    FoldedShape(sl.clock, raws);
    EndsWithGap(sl, raws);
  }

  /** The offline list against what both have in common, given where its first gap is. */
  lemma {:induction false} ListAgainstCommon(
    limits: Limits, common: seq<Run>, us: nat, runs: seq<Run>, p: seq<Run>, gap: Run, rest: seq<Run>)
    requires limits.minEdges >= 1 && runs == p + [gap] + rest && Piece(limits, p) && |p| % 2 == 1
    requires IsGap(limits, gap) && LedBy(Run(true, us), common, runs)
    ensures Split(limits, runs) == Split(limits, common) <==>
            if common[0].on then |p| > MAX_BURST_EDGES || |p| < limits.minEdges || us == 0
            else |p| % CYCLE != MAX_BURST_EDGES + 1 && |p| % CYCLE < limits.minEdges
  {
    if common[0].on {
      MarkFollows(limits, common, us, p, gap, rest);
    } else {
      assert p[0] == runs[0];
      SpaceFollows(limits, common, p, gap, rest);
      PhaseIsRemainder(|p|);
    }
  }

  lemma {:induction false} OfflineAgainstCommon(sl: Slicing, bits: seq<bool>)
    requires Sound(sl) && !BeginsCleanly(sl.clock, bits) && EndsSilent(bits, sl.gapSamples)
    ensures Lead(sl.clock, RawRuns(bits)) < |RawRuns(bits)|
    ensures Split(sl.limits, RunsOf(sl.clock, bits)) == Split(sl.limits, Common(sl.clock, RawRuns(bits))) <==>
            Harmless(sl, bits)
  {
    var raws, runs := RawRuns(bits), RunsOf(sl.clock, bits);
    GlitchRecording(sl, bits);
    OfflineList(sl.clock, raws);
    var p, gap, rest := CutAtFirstGap(sl.limits, runs);
    FirstSegment(sl.limits, p, gap, rest);
    FirstPiece(sl.limits, runs, p, gap, rest);
    ListAgainstCommon(sl.limits, Common(sl.clock, raws), LeadUs(sl.clock, raws), runs, p, gap, rest);
  }

  /** Both paths find the same frames and give up on as many bursts. */
  ghost predicate Agree(sl: Slicing, samples: seq<Sample>) {
    var offline, streamed := Split(sl.limits, RunsOf(sl.clock, OnBits(samples))), StreamAll(sl, samples);
    FramesOf(streamed.bursts) == offline.bursts && streamed.acc.overflows == offline.acc.overflows
  }

  lemma {:induction false} StreamAgainstCommon(cfg: Config, samples: seq<Sample>)
    requires Usable(cfg)
    requires var sl, bits := SlicingOf(cfg), OnBits(samples);
      !BeginsCleanly(sl.clock, bits) && EndsSilent(bits, sl.gapSamples)
      && Lead(sl.clock, RawRuns(bits)) < |RawRuns(bits)|
    ensures var sl := SlicingOf(cfg);
      Agree(sl, samples) <==>
      Split(sl.limits, RunsOf(sl.clock, OnBits(samples))) ==
      Split(sl.limits, Common(sl.clock, RawRuns(OnBits(samples))))
  {
    var sl, bits := SlicingOf(cfg), OnBits(samples);
    var space := Run(false, sl.clock.us(0));
    StreamingRefinesOffline(cfg, samples);
    MarkStart(sl, bits);
    StreamSplits(sl.limits, sl.clock, space, RawRuns(bits));
  }

  /**
   * When the comment in the program is right. On every recording that ends with a gap of silence,
   * the streaming detector and the offline path agree, in frames and in overflows, if and only if
   * it begins cleanly or its leading glitch is harmless.
   */
  lemma {:induction false} StreamingIsOfflineExactly(cfg: Config, samples: seq<Sample>)
    requires Usable(cfg) && EndsSilent(OnBits(samples), SlicingOf(cfg).gapSamples)
    ensures var sl, bits := SlicingOf(cfg), OnBits(samples);
      Agree(sl, samples) <==> BeginsCleanly(sl.clock, bits) || Harmless(sl, bits)
  {
    var sl, bits := SlicingOf(cfg), OnBits(samples);
    UsableIsSound(cfg);
    if BeginsCleanly(sl.clock, bits) {
      StreamingIsOffline(cfg, samples);
    } else {
      OfflineAgainstCommon(sl, bits);
      StreamAgainstCommon(cfg, samples);
    }
  }

  lemma {:induction false} LeadLasts(clock: Clock, raws: seq<Raw>)
    requires raws != [] && raws[0].len < clock.minSamples && clock.us(raws[0].len) >= 1
    ensures LeadUs(clock, raws) >= 1
  {
    var head := raws[..Lead(clock, raws)];
    assert head == [raws[0]] + head[1..];
    RawUsConcat(clock, raws[0], head[1..]);
  }

  lemma {:induction false} HarmlessPlainly(sl: Slicing, bits: seq<bool>)
    requires !BeginsCleanly(sl.clock, bits) && RawRuns(bits) != [] && sl.clock.us(RawRuns(bits)[0].len) >= 1
    requires |Segments(sl.limits, RunsOf(sl.clock, bits))[0]| <= MAX_BURST_EDGES
    ensures Harmless(sl, bits) <==> |Segments(sl.limits, RunsOf(sl.clock, bits))[0]| < sl.limits.minEdges
  {
    LeadLasts(sl.clock, RawRuns(bits));
    SmallRemainder(|Segments(sl.limits, RunsOf(sl.clock, bits))[0]|);
  }

  /**
   * In plain terms: a leading glitch that lasts a microsecond, before a piece that fits the buffer,
   * makes a difference if and only if the offline path keeps that piece as a frame.
   */
  lemma {:induction false} KeptGlitchParts(cfg: Config, samples: seq<Sample>)
    requires Usable(cfg) && EndsSilent(OnBits(samples), SlicingOf(cfg).gapSamples)
    requires !BeginsCleanly(SlicingOf(cfg).clock, OnBits(samples)) && RawRuns(OnBits(samples)) != []
    requires SlicingOf(cfg).clock.us(RawRuns(OnBits(samples))[0].len) >= 1
    requires |Segments(SlicingOf(cfg).limits, RunsOf(SlicingOf(cfg).clock, OnBits(samples)))[0]| <= MAX_BURST_EDGES
    ensures var sl := SlicingOf(cfg);
      Agree(sl, samples) <==> |Segments(sl.limits, RunsOf(sl.clock, OnBits(samples)))[0]| < cfg.minEdges
  {
    HarmlessPlainly(SlicingOf(cfg), OnBits(samples));
    StreamingIsOfflineExactly(cfg, samples);
  }

  // ----- at the daemon's own settings -----

  /** One sample of carrier, then frames' worth of edges 100 microseconds apart, then the gap. */
  function Telltale(rate: nat): (raws: seq<Raw>)
    requires rate > 0
    ensures |raws| == 10
  {
    var edge := Samples(100, rate);
    [Raw(true, 1), Raw(false, edge), Raw(true, edge), Raw(false, edge), Raw(true, edge), Raw(false, edge),
     Raw(true, edge), Raw(false, edge), Raw(true, edge), Raw(false, SlicingOf(Defaults(rate)).gapSamples)]
  }

  lemma {:induction false} TelltaleTimes(rate: nat)
    requires rate >= 2 * MICROS_PER_SECOND
    ensures var sl, edge := SlicingOf(Defaults(rate)), Samples(100, rate);
      && 2 <= sl.clock.minSamples <= edge && sl.clock.minSamples <= sl.gapSamples
      && sl.clock.us(edge) == 100
      && Usable(Defaults(rate))
  {
    SamplesMonotone(40, 100, rate);
    SamplesMonotone(40, 3_000, rate);
    MicrosOfSamples(100, rate);
    RoundDivBounds(40 * rate, MICROS_PER_SECOND);
  }

  lemma {:induction false} TelltalePiece(rate: nat)
    requires rate >= 2 * MICROS_PER_SECOND
    ensures var sl := SlicingOf(Defaults(rate));
      && Lead(sl.clock, Telltale(rate)) == 1
      && |Segments(sl.limits, Folded(sl.clock, Telltale(rate)))[0]| == 9
  {
    var sl, raws := SlicingOf(Defaults(rate)), Telltale(rate);
    TelltaleTimes(rate);
    UsableIsSound(Defaults(rate));
    assert raws[1..][0] == raws[1];
    assert Lead(sl.clock, raws[1..]) == 0;
    FoldedClean(sl.clock, raws);
    var runs := InMicros(sl.clock, raws);
    assert runs == runs[..9] + [runs[9]] + [];
    FirstSegment(sl.limits, runs[..9], runs[9], []);
  }

  lemma {:induction false} TelltaleRuns(rate: nat)
    requires rate >= 2 * MICROS_PER_SECOND
    ensures RawRuns(Expand(Telltale(rate))) == Telltale(rate)
    ensures EndsSilent(Expand(Telltale(rate)), SlicingOf(Defaults(rate)).gapSamples)
  {
    TelltaleTimes(rate);
    RawRunsOfExpand(Telltale(rate));
    SilentEnd(Telltale(rate), SlicingOf(Defaults(rate)).gapSamples);
  }

  lemma {:induction false} TelltaleHarms(rate: nat)
    requires rate >= 2 * MICROS_PER_SECOND
    ensures var sl, bits := SlicingOf(Defaults(rate)), Expand(Telltale(rate));
      !BeginsCleanly(sl.clock, bits) && !Harmless(sl, bits)
  {
    TelltaleTimes(rate);
    TelltalePiece(rate);
    TelltaleRuns(rate);
    RawRunsEncode(Expand(Telltale(rate)));
    SmallRemainder(9);
  }

  /**
   * At the settings the daemon listens with, at every rate the radio supports, there is a recording
   * on which the two paths part: a single sample of carrier is enough to add two edges to a frame.
   */
  lemma {:induction false} DefaultsPart(rate: nat, samples: seq<Sample>)
    requires rate >= 2 * MICROS_PER_SECOND && OnBits(samples) == Expand(Telltale(rate))
    ensures EndsSilent(OnBits(samples), SlicingOf(Defaults(rate)).gapSamples)
    ensures !Agree(SlicingOf(Defaults(rate)), samples)
  {
    TelltaleTimes(rate);
    TelltaleRuns(rate);
    TelltaleHarms(rate);
    StreamingIsOfflineExactly(Defaults(rate), samples);
  }
}
