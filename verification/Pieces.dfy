/**
 * One piece of a run list, from one gap to the next, through the accumulator:
 * every so many edges overflow, and what is left at the end is the burst.
 */
module Pieces {
  import opened Sequences
  import opened Runs
  import opened Bursts

  /** An overflow takes one edge too many, and the space after it. */
  const CYCLE: nat := MAX_BURST_EDGES + 2

  /** Where the m-th edge of a piece stands in that cycle. */
  function PhaseOf(m: nat): (phase: nat)
    ensures phase < CYCLE && phase <= m
  {
    if m == 0 || PhaseOf(m - 1) == MAX_BURST_EDGES + 1 then 0 else PhaseOf(m - 1) + 1
  }

  /** How many of m edges in a row are still held, and how often there were too many. */
  function HeldOf(m: nat): (held: nat)
    ensures held <= MAX_BURST_EDGES && held <= m
  {
    if PhaseOf(m) == MAX_BURST_EDGES + 1 then 0 else PhaseOf(m)
  }

  function SpilledOf(m: nat): nat {
    if m == 0 then 0 else SpilledOf(m - 1) + if PhaseOf(m) == MAX_BURST_EDGES + 1 then 1 else 0
  }

  lemma {:induction false} NextInCycle(m: nat)
    ensures (m + 1) % CYCLE == if m % CYCLE == CYCLE - 1 then 0 else m % CYCLE + 1
  {
  }

  lemma {:induction false} PhaseIsRemainder(m: nat)
    ensures PhaseOf(m) == m % CYCLE
  {
    if m > 0 {
      PhaseIsRemainder(m - 1);
      NextInCycle(m - 1);
    }
  }

  lemma {:induction false} PhaseParity(m: nat)
    ensures PhaseOf(m) % 2 == m % 2 && PhaseOf(m) <= m
  {
    if m > 0 {
      PhaseParity(m - 1);
    }
  }

  /** Alternating from a mark, with no gap in it. */
  ghost predicate Piece(limits: Limits, p: seq<Run>) {
    p == [] || (Piece(limits, Front(p)) && !IsGap(limits, Last(p)) && Last(p).on == (|p| % 2 == 1))
  }

  /** What is held and spilled after one more edge. */
  lemma {:induction false} NextHeld(m: nat)
    ensures
      if PhaseOf(m) == MAX_BURST_EDGES + 1 then HeldOf(m) == HeldOf(m + 1) == 0 && SpilledOf(m + 1) == SpilledOf(m)
      else if PhaseOf(m) == MAX_BURST_EDGES then
        HeldOf(m) == MAX_BURST_EDGES && HeldOf(m + 1) == 0 && SpilledOf(m + 1) == SpilledOf(m) + 1
      else HeldOf(m) == PhaseOf(m) && HeldOf(m + 1) == HeldOf(m) + 1 && SpilledOf(m + 1) == SpilledOf(m)
  {
    assert PhaseOf(m + 1) == if PhaseOf(m) == MAX_BURST_EDGES + 1 then 0 else PhaseOf(m) + 1;
  }

  /** The last h edges are held, after o overflows. */
  function Holding(p: seq<Run>, h: nat, o: nat): Fed
    requires h <= |p|
  {
    Fed(Acc(Timings(p[|p| - h..]), o), [])
  }

  lemma {:induction false} EdgeKept(limits: Limits, p: seq<Run>, edge: Run, h: nat, o: nat)
    requires h <= |p| && h < MAX_BURST_EDGES && !IsGap(limits, edge) && (h == 0 ==> edge.on)
    ensures Holding(p, h, o).Pushed(limits, edge) == Holding(p + [edge], h + 1, o)
  {
    var held := p[|p| - h..];
    assert (p + [edge])[|p| - h..] == held + [edge];
    assert Timings(held + [edge]) == Timings(held) + [Signed(edge)];
  }

  lemma {:induction false} EdgeSpills(limits: Limits, p: seq<Run>, edge: Run, o: nat)
    requires MAX_BURST_EDGES <= |p| && !IsGap(limits, edge)
    ensures Holding(p, MAX_BURST_EDGES, o).Pushed(limits, edge) == Holding(p + [edge], 0, o + 1)
  {
    assert Timings((p + [edge])[|p| + 1..]) == [];
  }

  lemma {:induction false} SpaceSkipped(limits: Limits, p: seq<Run>, edge: Run, o: nat)
    requires !IsGap(limits, edge) && !edge.on
    ensures Holding(p, 0, o).Pushed(limits, edge) == Holding(p + [edge], 0, o)
  {
    assert Timings(p[|p|..]) == [] == Timings((p + [edge])[|p| + 1..]);
  }

  /** One edge of a piece, in whichever phase it comes. */
  lemma {:induction false} EdgeFed(limits: Limits, front: seq<Run>, edge: Run)
    requires !IsGap(limits, edge) && edge.on == (|front| % 2 == 0) && HeldOf(|front|) <= |front|
    ensures HeldOf(|front| + 1) <= |front| + 1
    ensures Holding(front, HeldOf(|front|), SpilledOf(|front|)).Pushed(limits, edge) ==
            Holding(front + [edge], HeldOf(|front| + 1), SpilledOf(|front| + 1))
  {
    var m := |front|;
    PhaseParity(m);
    NextHeld(m);
    if PhaseOf(m) == MAX_BURST_EDGES + 1 {
      SpaceSkipped(limits, front, edge, SpilledOf(m));
    } else if PhaseOf(m) == MAX_BURST_EDGES {
      EdgeSpills(limits, front, edge, SpilledOf(m));
    } else {
      EdgeKept(limits, front, edge, HeldOf(m), SpilledOf(m));
    }
  }

  /** A piece of any length leaves the buffer where its length stands in the cycle. */
  lemma {:induction false} PieceFed(limits: Limits, p: seq<Run>)
    requires Piece(limits, p)
    ensures HeldOf(|p|) <= |p|
    ensures Feed(limits, p) == Holding(p, HeldOf(|p|), SpilledOf(|p|))
  {
    if p == [] {
      assert Timings(p[0..]) == [];
    } else {
      var front, edge := Front(p), Last(p);
      assert p == front + [edge] && |p| == |front| + 1;
      PieceFed(limits, front);
      EdgeFed(limits, front, edge);
      assert Feed(limits, p) == Feed(limits, front).Pushed(limits, edge);
    }
  }

  /** The last h edges of a piece come out of it, if they are enough, after o overflows. */
  function Outcome(limits: Limits, p: seq<Run>, h: nat, o: nat): Fed
    requires h <= |p|
  {
    Fed(Acc([], o), if h >= limits.minEdges then [Timings(p[|p| - h..])] else [])
  }

  lemma {:induction false} EndsOnMark(limits: Limits, p: seq<Run>, h: nat, o: nat)
    requires limits.minEdges >= 1 && h <= |p| && (h > 0 ==> Last(p).on)
    ensures Holding(p, h, o).Closed(limits) == Outcome(limits, p, h, o)
  {
    var current := Timings(p[|p| - h..]);
    if h > 0 {
      assert Last(current) == Signed(Last(p));
    }
    assert Stripped(current) == current;
  }

  lemma {:induction false} PieceSplit(limits: Limits, p: seq<Run>)
    requires limits.minEdges >= 1 && Piece(limits, p) && (p == [] || |p| % 2 == 1)
    ensures HeldOf(|p|) <= |p| && Split(limits, p) == Outcome(limits, p, HeldOf(|p|), SpilledOf(|p|))
  {
    PieceFed(limits, p);
    assert p != [] ==> Last(p).on;
    EndsOnMark(limits, p, HeldOf(|p|), SpilledOf(|p|));
  }

  lemma {:induction false} HeldAll(n: nat)
    ensures n <= MAX_BURST_EDGES ==> HeldOf(n) == n && SpilledOf(n) == 0
  {
    PhaseParity(n);
    if 0 < n <= MAX_BURST_EDGES {
      HeldAll(n - 1);
    }
  }

  lemma {:induction false} NextQuotientOfCycle(m: nat)
    ensures (m + 1) / CYCLE == m / CYCLE + if m % CYCLE == CYCLE - 1 then 1 else 0
  {
  }

  /** In closed form: an overflow for every 4098 edges begun but one, and the remainder held. */
  lemma {:induction false} CycleInClosedForm(n: nat)
    ensures HeldOf(n) == if n % CYCLE == MAX_BURST_EDGES + 1 then 0 else n % CYCLE
    ensures SpilledOf(n) == (n + 1) / CYCLE
  {
    PhaseIsRemainder(n);
    if n > 0 {
      CycleInClosedForm(n - 1);
      NextQuotientOfCycle(n);
      SmallRemainder(n % CYCLE);
    }
  }

  lemma {:induction false} SmallRemainder(n: nat)
    requires n < CYCLE
    ensures n % CYCLE == n
  {
  }

  lemma {:induction false} Parity(runs: seq<Run>, i: nat)
    requires Alternating(runs) && i < |runs| && runs[0].on
    ensures runs[i].on == (i % 2 == 0)
  {
    if i > 0 {
      Parity(runs, i - 1);
      assert runs[i - 1].on != runs[i].on;
    }
  }

  lemma {:induction false} PrefixIsPiece(limits: Limits, runs: seq<Run>, n: nat)
    requires n <= |runs| && GapFree(limits, runs[..n]) && Alternating(runs) && runs != [] && runs[0].on
    ensures Piece(limits, runs[..n])
  {
    if n > 0 {
      var p := runs[..n];
      assert Front(p) == runs[..n - 1];
      assert !IsGap(limits, p[n - 1]);
      forall i | 0 <= i < n - 1 ensures !IsGap(limits, Front(p)[i]) {
        assert !IsGap(limits, p[i]);
      }
      PrefixIsPiece(limits, runs, n - 1);
      Parity(runs, n - 1);
    }
  }

  lemma {:induction false} HeldIsOdd(n: nat)
    requires n % 2 == 1
    ensures HeldOf(n) == 0 || HeldOf(n) % 2 == 1
    ensures HeldOf(n) < MAX_BURST_EDGES
  {
    PhaseParity(n);
  }
}
