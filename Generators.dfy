/** The functional generators of Notebooks/uitls/time_series_generators.py:
    the three pattern shapes, the pattern composer that splices them into a
    noise series, the pointwise anomaly series and the labelled data set.
    Every random draw (Gaussian noise, offsets, lengths, shape choice,
    amplitudes, sign draws, index choices, uniform samples) is an argument. */
module Generators {
  import opened Outcomes
  import opened Stats
  import opened Sampling
  import opened Injection

  // ---------------------------------------------------------------------------
  // Pattern shapes (generate_bell, generate_funnel, generate_cylinder)
  // ---------------------------------------------------------------------------

  /** The ramp value at step i of a pattern of the given length:
      amplitude * i / length, as numpy evaluates amplitude * np.arange(length) / length. */
  function Ramp(amplitude: real, i: int, length: nat): real
    requires length > 0
  {
    amplitude * (i as real) / (length as real)
  }

  /** Consecutive ramp values differ by amplitude / length. */
  lemma RampStep(amplitude: real, i: int, length: nat)
    requires length > 0
    ensures Ramp(amplitude, i + 1, length) - Ramp(amplitude, i, length) == amplitude / (length as real)
  {
    var n := length as real;
    var x, y := amplitude * ((i + 1) as real), amplitude * (i as real);
    assert x - y == amplitude;
    assert x / n - y / n == (x - y) / n;
  }

  /** generate_bell: noise plus amplitude * i / length. */
  function GenerateBell(length: nat, amplitude: real, noise: seq<real>): (bell: seq<real>)
    requires |noise| == length
    ensures |bell| == length
  {
    seq(length, i requires 0 <= i < length => noise[i] + Ramp(amplitude, i, length))
  }

  /** generate_funnel: noise plus amplitude * (length - 1 - i) / length, the
      reversed arange. */
  function GenerateFunnel(length: nat, amplitude: real, noise: seq<real>): (funnel: seq<real>)
    requires |noise| == length
    ensures |funnel| == length
  {
    seq(length, i requires 0 <= i < length => noise[i] + Ramp(amplitude, length - 1 - i, length))
  }

  /** generate_cylinder: noise lifted by the amplitude everywhere. */
  function GenerateCylinder(length: nat, amplitude: real, noise: seq<real>): (cylinder: seq<real>)
    requires |noise| == length
    ensures |cylinder| == length
    ensures forall i :: 0 <= i < length ==> cylinder[i] - noise[i] == amplitude
  {
    seq(length, i requires 0 <= i < length => noise[i] + amplitude)
  }

  /** The bell's ramp starts at 0 on top of the noise and rises by
      amplitude / length at every step, ending below amplitude. */
  lemma BellRises(length: nat, amplitude: real, noise: seq<real>)
    requires |noise| == length && length > 0
    ensures GenerateBell(length, amplitude, noise)[0] == noise[0]
    ensures forall i :: 0 <= i < length - 1 ==>
      (GenerateBell(length, amplitude, noise)[i + 1] - noise[i + 1])
        - (GenerateBell(length, amplitude, noise)[i] - noise[i]) == amplitude / (length as real)
  {
    var bell := GenerateBell(length, amplitude, noise);
    forall i | 0 <= i < length - 1
      ensures (bell[i + 1] - noise[i + 1]) - (bell[i] - noise[i]) == amplitude / (length as real)
    {
      RampStep(amplitude, i, length);
    }
  }

  /** The funnel's ramp falls by amplitude / length at every step and is 0 on
      top of the noise at the last position. */
  lemma FunnelFalls(length: nat, amplitude: real, noise: seq<real>)
    requires |noise| == length && length > 0
    ensures GenerateFunnel(length, amplitude, noise)[length - 1] == noise[length - 1]
    ensures forall i :: 0 <= i < length - 1 ==>
      (GenerateFunnel(length, amplitude, noise)[i] - noise[i])
        - (GenerateFunnel(length, amplitude, noise)[i + 1] - noise[i + 1]) == amplitude / (length as real)
  {
    var funnel := GenerateFunnel(length, amplitude, noise);
    assert Ramp(amplitude, 0, length) == 0.0;
    assert funnel[length - 1] == noise[length - 1] + Ramp(amplitude, 0, length);
    forall i | 0 <= i < length - 1
      ensures (funnel[i] - noise[i]) - (funnel[i + 1] - noise[i + 1]) == amplitude / (length as real)
    {
      RampStep(amplitude, length - 2 - i, length);
    }
  }

  /** The funnel's ramp is the bell's ramp read backwards. */
  lemma FunnelMirrorsBell(length: nat, amplitude: real, bellNoise: seq<real>, funnelNoise: seq<real>)
    requires |bellNoise| == length && |funnelNoise| == length
    ensures forall i :: 0 <= i < length ==>
      GenerateFunnel(length, amplitude, funnelNoise)[i] - funnelNoise[i]
        == GenerateBell(length, amplitude, bellNoise)[length - 1 - i] - bellNoise[length - 1 - i]
  {
  }

  /** The three entries of std_generators. */
  datatype Shape = Bell | Funnel | Cylinder

  function ShapePattern(shape: Shape, length: nat, amplitude: real, noise: seq<real>): (p: seq<real>)
    requires |noise| == length
    ensures |p| == length
  {
    match shape
    case Bell => GenerateBell(length, amplitude, noise)
    case Funnel => GenerateFunnel(length, amplitude, noise)
    case Cylinder => GenerateCylinder(length, amplitude, noise)
  }

  /** -1 * pattern. */
  function Negated(p: seq<real>): (r: seq<real>)
    ensures |r| == |p|
  {
    seq(|p|, i requires 0 <= i < |p| => -1.0 * p[i])
  }

  // ---------------------------------------------------------------------------
  // Pattern composer (generate_pattern_data)
  // ---------------------------------------------------------------------------

  /** The draws of one iteration of the splicing loop, in the order the source
      makes them: the generator, its amplitude, the generator's own Gaussian
      noise (sample i of the segment is noise(i)), the sign draw, the gap
      before the next segment and the Gaussian behind the next length. */
  datatype SegmentDraw = SegmentDraw(shape: Shape, amplitude: real, noise: nat -> real,
                                     flip: real, gap: nat, gauss: real)

  /** A spliced segment: its offset and the values written from there on. */
  datatype Segment = Segment(start: nat, values: seq<real>) {
    function End(): nat { start + |values| }
  }

  /** max(1, math.ceil(gauss)): the least positive integer not below gauss. */
  function SegmentLength(gauss: real): (n: nat)
    ensures n >= 1 && gauss <= n as real
    ensures gauss > 0.0 ==> (n as real) < gauss + 1.0
  {
    var c := Ceil(gauss);
    if c < 1 then 1 else c
  }

  function SegmentNoise(d: SegmentDraw, length: nat): (noise: seq<real>)
    ensures |noise| == length
  {
    seq(length, i requires 0 <= i < length => d.noise(i))
  }

  /** The pattern one iteration writes: the drawn generator's output, negated
      exactly when negatives are enabled and the sign draw exceeds 0.5. */
  function Drawn(d: SegmentDraw, length: nat, includeNegatives: bool): (p: seq<real>)
    ensures |p| == length
  {
    var g := ShapePattern(d.shape, length, d.amplitude, SegmentNoise(d, length));
    if includeNegatives && d.flip > 0.5 then Negated(g) else g
  }

  /** Where one segment goes: its offset and its length. */
  datatype Slot = Slot(start: nat, len: nat) {
    function End(): nat { start + len }
  }

  /** The slots the loop fills when its candidate is at `start` with length
      `len` and the next draws are draws(k), draws(k + 1), ...: none once the
      candidate reaches the end of the series, otherwise the candidate
      followed by the slots from the next candidate (previous end plus the
      gap, with the length drawn in this iteration). */
  ghost function Slots(length: nat, draws: nat -> SegmentDraw, start: nat, len: nat, k: nat): seq<Slot>
    requires len >= 1
    decreases length - start
  {
    if start + len >= length then []
    else [Slot(start, len)] + Slots(length, draws, start + len + draws(k).gap, SegmentLength(draws(k).gauss), k + 1)
  }

  /** The segments for a list of slots: slot i holds the pattern drawn in
      iteration i. */
  function Layout(slots: seq<Slot>, draws: nat -> SegmentDraw, includeNegatives: bool): (segs: seq<Segment>)
    ensures |segs| == |slots|
    ensures forall i :: 0 <= i < |slots| ==> segs[i].start == slots[i].start && |segs[i].values| == slots[i].len
  {
    var segs := seq(|slots|, i requires 0 <= i < |slots| => Filled(slots[i], draws(i), includeNegatives));
    assert forall i :: 0 <= i < |slots| ==> segs[i] == Filled(slots[i], draws(i), includeNegatives);
    segs
  }

  /** The segment for one slot, holding the given iteration's pattern. */
  function Filled(slot: Slot, d: SegmentDraw, includeNegatives: bool): (seg: Segment)
    ensures seg.start == slot.start && |seg.values| == slot.len
  {
    Segment(slot.start, Drawn(d, slot.len, includeNegatives))
  }

  /** The segments generate_pattern_data writes, from its first candidate on. */
  ghost function Composed(length: nat, includeNegatives: bool, firstStart: nat, firstGauss: real,
                          draws: nat -> SegmentDraw): seq<Segment>
  {
    Layout(Slots(length, draws, firstStart, SegmentLength(firstGauss), 0), draws, includeNegatives)
  }

  /** Offsets and lengths follow the source's recurrence: the first segment at
      firstStart with length SegmentLength(firstGauss); each later one after the
      previous end plus the previous iteration's gap, with the length drawn in
      that iteration. */
  ghost predicate Chained(segs: seq<Segment>, firstStart: nat, firstGauss: real, draws: nat -> SegmentDraw)
  {
    && (segs != [] ==> segs[0].start == firstStart && |segs[0].values| == SegmentLength(firstGauss))
    && (forall i, j :: 0 <= i && j == i + 1 && j < |segs| ==>
          segs[j].start == segs[i].End() + draws(i).gap
          && |segs[j].values| == SegmentLength(draws(i).gauss))
  }

  /** Every segment is non-empty and ends strictly before the series does. */
  ghost predicate InBounds(segs: seq<Segment>, length: nat)
  {
    forall k :: 0 <= k < |segs| ==> |segs[k].values| >= 1 && segs[k].End() < length
  }

  /** No segment starts before an earlier one has ended. */
  ghost predicate Ordered(segs: seq<Segment>)
  {
    forall i, j :: 0 <= i < j < |segs| ==> segs[i].End() <= segs[j].start
  }

  predicate Covers(seg: Segment, p: int)
  {
    seg.start <= p < seg.End()
  }

  ghost predicate Uncovered(segs: seq<Segment>, p: int)
  {
    forall k :: 0 <= k < |segs| ==> !Covers(segs[k], p)
  }

  /** Slot i + 1 starts the gap draws(k + i).gap after slot i ends and has
      the length drawn in iteration k + i. */
  ghost predicate Follows(slots: seq<Slot>, draws: nat -> SegmentDraw, k: nat)
  {
    forall i, j :: 0 <= i && j == i + 1 && j < |slots| ==>
      slots[j].start == slots[i].End() + draws(k + i).gap
      && slots[j].len == SegmentLength(draws(k + i).gauss)
  }

  /** Every slot lies between `start` and the end of the series and is
      non-empty. */
  ghost predicate Within(slots: seq<Slot>, start: nat, length: nat)
  {
    forall i :: 0 <= i < |slots| ==> start <= slots[i].start && slots[i].len >= 1 && slots[i].End() < length
  }

  /** No slot starts before an earlier one has ended. */
  ghost predicate SlotsOrdered(slots: seq<Slot>)
  {
    forall i, j :: 0 <= i < j < |slots| ==> slots[i].End() <= slots[j].start
  }

  /** Slots from a candidate: the first one is that candidate and each later
      one follows its predecessor as the draws say. */
  lemma {:induction false} SlotsChained(length: nat, draws: nat -> SegmentDraw, start: nat, len: nat, k: nat)
    requires len >= 1
    ensures Follows(Slots(length, draws, start, len, k), draws, k)
    decreases length - start
  {
    var r := Slots(length, draws, start, len, k);
    if start + len < length {
      var next, nextLen := start + len + draws(k).gap, SegmentLength(draws(k).gauss);
      var rest := Slots(length, draws, next, nextLen, k + 1);
      assert r == [Slot(start, len)] + rest;
      SlotsChained(length, draws, next, nextLen, k + 1);
      forall i, j | 0 <= i && j == i + 1 && j < |r|
        ensures r[j].start == r[i].End() + draws(k + i).gap
        ensures r[j].len == SegmentLength(draws(k + i).gauss)
      {
        assert r[j] == rest[i];
        if i > 0 {
          assert r[i] == rest[i - 1];
          assert k + 1 + (i - 1) == k + i;
        }
      }
    }
  }

  /** Slots from a candidate lie between the candidate's offset and the end
      of the series, are non-empty, and number at most the positions they
      span. */
  lemma {:induction false} SlotsWithin(length: nat, draws: nat -> SegmentDraw, start: nat, len: nat, k: nat)
    requires len >= 1
    ensures Within(Slots(length, draws, start, len, k), start, length)
    ensures var r := Slots(length, draws, start, len, k);
      r != [] ==> start + |r| <= length
    decreases length - start
  {
    var r := Slots(length, draws, start, len, k);
    if start + len < length {
      var next, nextLen := start + len + draws(k).gap, SegmentLength(draws(k).gauss);
      var rest := Slots(length, draws, next, nextLen, k + 1);
      assert r == [Slot(start, len)] + rest;
      SlotsWithin(length, draws, next, nextLen, k + 1);
      forall i | 0 < i < |r|
        ensures start <= r[i].start && r[i].len >= 1 && r[i].End() < length
      {
        assert r[i] == rest[i - 1];
      }
    }
  }

  /** No slot starts before an earlier one has ended. */
  lemma {:induction false} SlotsInOrder(length: nat, draws: nat -> SegmentDraw, start: nat, len: nat, k: nat)
    requires len >= 1
    ensures SlotsOrdered(Slots(length, draws, start, len, k))
    decreases length - start
  {
    var r := Slots(length, draws, start, len, k);
    if start + len < length {
      var next, nextLen := start + len + draws(k).gap, SegmentLength(draws(k).gauss);
      var rest := Slots(length, draws, next, nextLen, k + 1);
      assert r == [Slot(start, len)] + rest;
      SlotsInOrder(length, draws, next, nextLen, k + 1);
      SlotsWithin(length, draws, next, nextLen, k + 1);
      forall i, j | 0 <= i < j < |r|
        ensures r[i].End() <= r[j].start
      {
        assert r[j] == rest[j - 1];
        if i > 0 {
          assert r[i] == rest[i - 1];
        }
      }
    }
  }

  /** The loop stops at the first candidate that does not fit before the end
      of the series. */
  lemma {:induction false} SlotsStop(length: nat, draws: nat -> SegmentDraw, start: nat, len: nat, k: nat)
    requires len >= 1
    ensures var r := Slots(length, draws, start, len, k);
      && (r == [] <==> start + len >= length)
      && (r != [] ==> r[0] == Slot(start, len))
      && (r != [] ==>
            r[|r| - 1].End() + draws(k + |r| - 1).gap + SegmentLength(draws(k + |r| - 1).gauss) >= length)
    decreases length - start
  {
    var r := Slots(length, draws, start, len, k);
    if start + len < length {
      var next, nextLen := start + len + draws(k).gap, SegmentLength(draws(k).gauss);
      var rest := Slots(length, draws, next, nextLen, k + 1);
      assert r == [Slot(start, len)] + rest;
      SlotsStop(length, draws, next, nextLen, k + 1);
      if rest != [] {
        assert r[|r| - 1] == rest[|rest| - 1];
        assert k + |r| - 1 == k + 1 + |rest| - 1;
      }
    }
  }

  /** Offsets and lengths follow the draws. */
  lemma ComposedChained(length: nat, includeNegatives: bool, firstStart: nat, firstGauss: real,
                        draws: nat -> SegmentDraw)
    ensures Chained(Composed(length, includeNegatives, firstStart, firstGauss, draws), firstStart, firstGauss, draws)
  {
    var len := SegmentLength(firstGauss);
    var slots := Slots(length, draws, firstStart, len, 0);
    var segs := Composed(length, includeNegatives, firstStart, firstGauss, draws);
    SlotsChained(length, draws, firstStart, len, 0);
    SlotsStop(length, draws, firstStart, len, 0);
    forall i, j | 0 <= i && j == i + 1 && j < |segs|
      ensures segs[j].start == segs[i].End() + draws(i).gap
      ensures |segs[j].values| == SegmentLength(draws(i).gauss)
    {
      assert segs[i].End() == slots[i].End();
      assert 0 + i == i;
    }
  }

  /** Every segment fits strictly inside the series, none overlaps an
      earlier one, and there are at most as many segments as positions. */
  lemma ComposedInBounds(length: nat, includeNegatives: bool, firstStart: nat, firstGauss: real,
                         draws: nat -> SegmentDraw)
    ensures var segs := Composed(length, includeNegatives, firstStart, firstGauss, draws);
      InBounds(segs, length) && Ordered(segs) && |segs| <= length
  {
    var len := SegmentLength(firstGauss);
    var slots := Slots(length, draws, firstStart, len, 0);
    var segs := Composed(length, includeNegatives, firstStart, firstGauss, draws);
    SlotsWithin(length, draws, firstStart, len, 0);
    SlotsInOrder(length, draws, firstStart, len, 0);
    assert forall i :: 0 <= i < |segs| ==> segs[i].End() == slots[i].End();
  }

  /** Segment j holds the pattern drawn in iteration j. */
  lemma ComposedDrawn(length: nat, includeNegatives: bool, firstStart: nat, firstGauss: real,
                      draws: nat -> SegmentDraw, j: nat)
    requires j < |Composed(length, includeNegatives, firstStart, firstGauss, draws)|
    ensures var seg := Composed(length, includeNegatives, firstStart, firstGauss, draws)[j];
      seg.values == Drawn(draws(j), |seg.values|, includeNegatives)
  {
  }

  /** With offsets and gaps drawn from randint(0, avg_pattern_length), the
      first segment starts and every gap between segments is at most
      avg_pattern_length. */
  lemma ComposedGaps(length: nat, avgPatternLength: nat, includeNegatives: bool, firstStart: nat,
                     firstGauss: real, draws: nat -> SegmentDraw)
    requires firstStart <= avgPatternLength
    requires forall k: nat :: draws(k).gap <= avgPatternLength
    ensures var segs := Composed(length, includeNegatives, firstStart, firstGauss, draws);
      && (segs != [] ==> segs[0].start <= avgPatternLength)
      && (forall i, j :: 0 <= i && j == i + 1 && j < |segs| ==> segs[j].start - segs[i].End() <= avgPatternLength)
  {
    ComposedChained(length, includeNegatives, firstStart, firstGauss, draws);
  }

  /** The loop ended at the first candidate that did not fit, and placed no
      segment at all exactly when the first candidate does not fit. */
  lemma ComposedStop(length: nat, includeNegatives: bool, firstStart: nat, firstGauss: real,
                     draws: nat -> SegmentDraw)
    ensures var segs := Composed(length, includeNegatives, firstStart, firstGauss, draws);
      && (segs == [] <==> firstStart + SegmentLength(firstGauss) >= length)
      && (segs != [] ==>
            segs[|segs| - 1].End() + draws(|segs| - 1).gap + SegmentLength(draws(|segs| - 1).gauss) >= length)
  {
    var slots := Slots(length, draws, firstStart, SegmentLength(firstGauss), 0);
    SlotsStop(length, draws, firstStart, SegmentLength(firstGauss), 0);
    if slots != [] {
      assert 0 + |slots| - 1 == |slots| - 1;
    }
  }

  /** Filling one more slot appends its segment to the layout. */
  lemma LayoutAppend(slots: seq<Slot>, slot: Slot, draws: nat -> SegmentDraw, includeNegatives: bool)
    ensures Layout(slots + [slot], draws, includeNegatives)
      == Layout(slots, draws, includeNegatives) + [Filled(slot, draws(|slots|), includeNegatives)]
  {
  }

  /** One iteration moves a slot that fits from the pending slots to the
      filled ones. */
  lemma SlotsStep(filled: seq<Slot>, length: nat, draws: nat -> SegmentDraw, start: nat, len: nat, k: nat)
    requires len >= 1 && start + len < length
    ensures filled + Slots(length, draws, start, len, k)
      == (filled + [Slot(start, len)])
         + Slots(length, draws, start + len + draws(k).gap, SegmentLength(draws(k).gauss), k + 1)
  {
    var rest := Slots(length, draws, start + len + draws(k).gap, SegmentLength(draws(k).gauss), k + 1);
    assert Slots(length, draws, start, len, k) == [Slot(start, len)] + rest;
    assert filled + ([Slot(start, len)] + rest) == (filled + [Slot(start, len)]) + rest;
  }

  /** Writing the segment of one more filled slot extends the splice by that
      write. */
  lemma SpliceStep(noise: seq<real>, filled: seq<Slot>, slot: Slot, draws: nat -> SegmentDraw,
                   includeNegatives: bool, pattern: seq<real>)
    requires pattern == Drawn(draws(|filled|), slot.len, includeNegatives)
    ensures Splice(noise, Layout(filled + [slot], draws, includeNegatives))
      == Written(Splice(noise, Layout(filled, draws, includeNegatives)), Segment(slot.start, pattern))
  {
    var segs := Layout(filled, draws, includeNegatives);
    LayoutAppend(filled, slot, draws, includeNegatives);
    assert (segs + [Segment(slot.start, pattern)])[..|segs|] == segs;
  }

  /** The series with one segment's values written over the positions it
      covers (data[start : start + len] = pattern; numpy clips the slice at
      the end of the array). */
  function Written(data: seq<real>, seg: Segment): (r: seq<real>)
    ensures |r| == |data|
  {
    seq(|data|, p requires 0 <= p < |data| => if Covers(seg, p) then seg.values[p - seg.start] else data[p])
  }

  /** The noise with every segment of segs written over it, in order. */
  function Splice(noise: seq<real>, segs: seq<Segment>): (r: seq<real>)
    ensures |r| == |noise|
    decreases |segs|
  {
    if segs == [] then noise
    else Written(Splice(noise, segs[..|segs| - 1]), segs[|segs| - 1])
  }

  /** When the segments are ordered and inside the series, the splice holds
      each segment's values over its range and the noise everywhere no
      segment covers. */
  lemma {:induction false} SpliceAt(noise: seq<real>, segs: seq<Segment>)
    requires forall k :: 0 <= k < |segs| ==> segs[k].End() <= |noise|
    requires Ordered(segs)
    ensures forall k, p :: 0 <= k < |segs| && Covers(segs[k], p) ==>
      p < |noise| && Splice(noise, segs)[p] == segs[k].values[p - segs[k].start]
    ensures forall p :: 0 <= p < |noise| && Uncovered(segs, p) ==> Splice(noise, segs)[p] == noise[p]
    decreases |segs|
  {
    if segs != [] {
      var n := |segs|;
      var prev, last := segs[..n - 1], segs[n - 1];
      assert forall j :: 0 <= j < n - 1 ==> prev[j] == segs[j];
      SpliceAt(noise, prev);
      var before, r := Splice(noise, prev), Splice(noise, segs);
      assert r == Written(before, last);
      forall k, p | 0 <= k < n && Covers(segs[k], p)
        ensures p < |noise| && r[p] == segs[k].values[p - segs[k].start]
      {
        if k < n - 1 {
          assert segs[k].End() <= last.start;
          assert Covers(prev[k], p) && !Covers(last, p);
          assert before[p] == prev[k].values[p - prev[k].start];
        }
      }
      assert forall k, p :: 0 <= k < n && Covers(segs[k], p) ==> p < |noise|;
      assert forall k, p :: 0 <= k < n && Covers(segs[k], p) ==> r[p] == segs[k].values[p - segs[k].start];
      forall p | 0 <= p < |noise| && Uncovered(segs, p)
        ensures r[p] == noise[p]
      {
        assert !Covers(segs[n - 1], p);
        assert Uncovered(prev, p);
      }
    }
  }

  /** What generate_pattern_data leaves in the series: each placed segment
      holds the pattern drawn in its iteration, every position no segment
      covers keeps its noise, and when the first candidate does not fit the
      series is the noise itself. */
  lemma PatternDataSpec(length: nat, includeNegatives: bool, noise: seq<real>, firstStart: nat,
                        firstGauss: real, draws: nat -> SegmentDraw)
    requires |noise| == length
    ensures var segs := Composed(length, includeNegatives, firstStart, firstGauss, draws);
      var data := Splice(noise, segs);
      && (forall k :: 0 <= k < |segs| ==> segs[k].values == Drawn(draws(k), |segs[k].values|, includeNegatives))
      && (forall k, p :: 0 <= k < |segs| && Covers(segs[k], p) ==>
            p < length && data[p] == segs[k].values[p - segs[k].start])
      && (forall p :: 0 <= p < length && Uncovered(segs, p) ==> data[p] == noise[p])
      && (firstStart + SegmentLength(firstGauss) >= length ==> data == noise)
  {
    var segs := Composed(length, includeNegatives, firstStart, firstGauss, draws);
    ComposedInBounds(length, includeNegatives, firstStart, firstGauss, draws);
    ComposedStop(length, includeNegatives, firstStart, firstGauss, draws);
    SpliceAt(noise, segs);
    var data := Splice(noise, segs);
    forall k | 0 <= k < |segs|
      ensures segs[k].values == Drawn(draws(k), |segs[k].values|, includeNegatives)
    {
      ComposedDrawn(length, includeNegatives, firstStart, firstGauss, draws, k);
    }
    assert forall k, p :: 0 <= k < |segs| && Covers(segs[k], p) ==> p < length;
    assert forall k, p :: 0 <= k < |segs| && Covers(segs[k], p) ==> data[p] == segs[k].values[p - segs[k].start];
    assert firstStart + SegmentLength(firstGauss) >= length ==> data == noise;
  }

  /** One iteration's write: data[start : start + len] = pattern, where the
      pattern is drawn with the iteration's draws. */
  method WriteSegment(noise: seq<real>, data: seq<real>, ghost filled: seq<Slot>, slot: Slot, d: SegmentDraw,
                      ghost draws: nat -> SegmentDraw, includeNegatives: bool)
    returns (written: seq<real>)
    requires d == draws(|filled|)
    requires data == Splice(noise, Layout(filled, draws, includeNegatives))
    ensures written == Splice(noise, Layout(filled + [slot], draws, includeNegatives))
  {
    // The reflection loop `while current_length <= 0` never runs: every
    // length comes from SegmentLength and is at least 1.
    var pattern := Drawn(d, slot.len, includeNegatives);
    SpliceStep(noise, filled, slot, draws, includeNegatives, pattern);
    written := Written(data, Segment(slot.start, pattern));
  }

  /** generate_pattern_data: the noise with the composed segments written
      over it, in order. */
  method GeneratePatternData(length: nat, avgPatternLength: nat, includeNegatives: bool,
                             noise: seq<real>, firstStart: nat, firstGauss: real,
                             draws: nat -> SegmentDraw)
    returns (data: seq<real>, ghost segments: seq<Segment>)
    requires |noise| == length
    requires firstStart <= avgPatternLength
    requires forall k: nat :: draws(k).gap <= avgPatternLength
    ensures |data| == length
    ensures segments == Composed(length, includeNegatives, firstStart, firstGauss, draws)
    ensures data == Splice(noise, segments)
  {
    data := noise;
    var currentStart := firstStart;
    var currentLength := SegmentLength(firstGauss);
    ghost var filled: seq<Slot> := [];
    ghost var all := Slots(length, draws, firstStart, currentLength, 0);
    var k := 0;
    while currentStart + currentLength < length
      invariant currentLength >= 1 && k == |filled|
      invariant filled + Slots(length, draws, currentStart, currentLength, k) == all
      invariant data == Splice(noise, Layout(filled, draws, includeNegatives))
      decreases length - currentStart
    {
      var d := draws(k);
      SlotsStep(filled, length, draws, currentStart, currentLength, k);
      data := WriteSegment(noise, data, filled, Slot(currentStart, currentLength), d, draws, includeNegatives);
      filled := filled + [Slot(currentStart, currentLength)];
      currentStart := currentStart + currentLength + d.gap;
      currentLength := SegmentLength(d.gauss);
      k := k + 1;
    }
    assert Slots(length, draws, currentStart, currentLength, k) == [];
    assert filled == all;
    segments := Layout(filled, draws, includeNegatives);
  }

  // ---------------------------------------------------------------------------
  // Pointwise anomaly series (gen_series_anomaly)
  // ---------------------------------------------------------------------------

  /** The draws behind one gen_series_anomaly call: a noise series of the
      requested size, the permutation behind np.random.choice without
      replacement and the unit samples behind np.random.uniform. */
  ghost predicate SeriesDraws(size: nat, noise: seq<real>, perm: seq<nat>, w: nat -> real)
  {
    && |noise| == size
    && IsPermutation(perm, size)
    && UnitSamples(w)
  }

  /** The arguments numpy accepts: min/max of an empty array raise, and
      np.random.choice without replacement needs a sample size between 0 and
      size. */
  predicate SeriesAccepted(size: nat, anomalyFrac: real)
  {
    size >= 1 && 0 <= Count(size, anomalyFrac) <= size
  }

  /** The interval gen_series_anomaly draws from: the noise range widened by
      anomaly_scale times its width on each side. */
  function WidenedLow(noise: seq<real>, anomalyScale: real): real
    requires |noise| > 0
  {
    Min(noise) - anomalyScale * (Max(noise) - Min(noise))
  }

  function WidenedHigh(noise: seq<real>, anomalyScale: real): real
    requires |noise| > 0
  {
    Max(noise) + anomalyScale * (Max(noise) - Min(noise))
  }

  /** The series gen_series_anomaly returns: the noise with the first
      int(size * anomaly_frac) entries of the permutation overwritten, the k-th
      by loc plus a uniform sample of the widened interval. */
  ghost function AnomalySeries(loc: real, anomalyFrac: real, anomalyScale: real,
                               noise: seq<real>, perm: seq<nat>, w: nat -> real): seq<real>
    requires SeriesDraws(|noise|, noise, perm, w) && SeriesAccepted(|noise|, anomalyFrac)
  {
    var n := Count(|noise|, anomalyFrac);
    PermutationPrefix(perm, |noise|, n);
    Injected(noise, perm[..n], Draws(n, loc, WidenedLow(noise, anomalyScale), WidenedHigh(noise, anomalyScale), w))
  }

  /** gen_series_anomaly overwrites exactly int(size * anomaly_frac) distinct
      positions, each with loc plus a value between the widened bounds, and
      leaves every other position as the noise had it. */
  lemma AnomalySeriesSpec(loc: real, anomalyFrac: real, anomalyScale: real,
                          noise: seq<real>, perm: seq<nat>, w: nat -> real)
    requires SeriesDraws(|noise|, noise, perm, w) && SeriesAccepted(|noise|, anomalyFrac)
    ensures var n := Count(|noise|, anomalyFrac);
      && 0 <= n <= |noise|
      && Overwrites(noise, AnomalySeries(loc, anomalyFrac, anomalyScale, noise, perm, w), Touched(perm[..n]), n,
                    loc, WidenedLow(noise, anomalyScale), WidenedHigh(noise, anomalyScale))
  {
    var n := Count(|noise|, anomalyFrac);
    PermutationPrefix(perm, |noise|, n);
    DrawsInjected(noise, perm[..n], loc, WidenedLow(noise, anomalyScale), WidenedHigh(noise, anomalyScale), w);
  }

  /** With anomaly_frac = 0 no position is chosen and the noise comes back as it was. */
  lemma AnomalySeriesZeroFrac(loc: real, anomalyScale: real, noise: seq<real>, perm: seq<nat>, w: nat -> real)
    requires SeriesDraws(|noise|, noise, perm, w) && |noise| >= 1
    ensures AnomalySeries(loc, 0.0, anomalyScale, noise, perm, w) == noise
  {
    assert Count(|noise|, 0.0) == 0;
  }

  /** gen_series_anomaly: fails on an empty series or a sample size numpy
      refuses; otherwise the loop writes arr[idx] for each chosen index. */
  method GenSeriesAnomaly(size: nat, anomalyFrac: real, anomalyScale: real, loc: real,
                          noise: seq<real>, perm: seq<nat>, w: nat -> real)
    returns (r: Result<seq<real>>)
    requires SeriesDraws(size, noise, perm, w)
    ensures r.Ok? <==> SeriesAccepted(size, anomalyFrac)
    ensures size == 0 ==> r == Err(EmptySeries)
    ensures size >= 1 && !SeriesAccepted(size, anomalyFrac) ==> r == Err(BadSampleSize)
    ensures r.Ok? ==> r.value == AnomalySeries(loc, anomalyFrac, anomalyScale, noise, perm, w)
  {
    var a := new real[size](i requires 0 <= i < size => noise[i]);
    assert a[..] == noise;
    if size == 0 {
      // arr.min() of an empty array
      return Err(EmptySeries);
    }
    var noAnomalies := Count(size, anomalyFrac);
    if noAnomalies < 0 || noAnomalies > size {
      // numpy refuses a sample size outside [0, size] without replacement
      return Err(BadSampleSize);
    }
    PermutationPrefix(perm, size, noAnomalies);
    var idxList := perm[..noAnomalies];
    // the series' range widened by anomaly_scale times its width on either side
    var low, high := WidenedLow(a[..], anomalyScale), WidenedHigh(a[..], anomalyScale);
    InjectInPlace(a, idxList, loc, low, high, w);
    r := Ok(a[..]);
  }

  // ---------------------------------------------------------------------------
  // Labelled data set (gen_ts_dataframe)
  // ---------------------------------------------------------------------------

  /** One row of the data frame: a series and its label (1 = anomalous). */
  datatype Row = Row(ts: seq<real>, anomalous: nat)

  /** The draws behind one row: the unit sample that decides the label and the
      draws of the gen_series_anomaly call it makes. */
  datatype RowDraw = RowDraw(u: real, noise: seq<real>, perm: seq<nat>, w: nat -> real)

  /** The anomaly fraction a row's series is generated with. */
  function RowFrac(u: real, probAnomalous: real, anomalyFrac: real): real
  {
    if u < probAnomalous then anomalyFrac else 0.0
  }

  ghost predicate RowDrawsOk(draws: seq<RowDraw>, n: nat, size: nat)
  {
    && |draws| == n
    && forall i :: 0 <= i < n ==>
         && 0.0 <= draws[i].u < 1.0
         && SeriesDraws(size, draws[i].noise, draws[i].perm, draws[i].w)
  }

  /** Whether every row's gen_series_anomaly call is accepted. */
  predicate RowsAccepted(draws: seq<RowDraw>, probAnomalous: real, size: nat, anomalyFrac: real)
  {
    forall i :: 0 <= i < |draws| ==> SeriesAccepted(size, RowFrac(draws[i].u, probAnomalous, anomalyFrac))
  }

  /** What row i of the frame holds for its draws: its series is one numpy
      accepts, its label is 1 exactly when the label draw falls below
      prob_anomolous, the series generated with that
      row's anomaly fraction, and the plain noise on a normal row. */
  ghost predicate RowFor(row: Row, d: RowDraw, probAnomalous: real, size: nat, anomalyFrac: real,
                         anomalyScale: real, loc: real)
  {
    && SeriesDraws(size, d.noise, d.perm, d.w)
    && SeriesAccepted(size, RowFrac(d.u, probAnomalous, anomalyFrac))
    && row.anomalous in {0, 1}
    && (row.anomalous == 1 <==> d.u < probAnomalous)
    && row.ts == AnomalySeries(loc, RowFrac(d.u, probAnomalous, anomalyFrac), anomalyScale, d.noise, d.perm, d.w)
    && (row.anomalous == 0 ==> row.ts == d.noise)
  }

  /** Row i of the frame is the row for draw i, for every i. */
  ghost predicate RowsFor(rows: seq<Row>, draws: seq<RowDraw>, probAnomalous: real, size: nat,
                          anomalyFrac: real, anomalyScale: real, loc: real)
  {
    && |rows| == |draws|
    && forall i :: 0 <= i < |draws| ==>
         RowFor(rows[i], draws[i], probAnomalous, size, anomalyFrac, anomalyScale, loc)
  }

  /** One pass of the loop of gen_ts_dataframe: draw the label, then the
      series with the row's anomaly fraction. */
  method GenRow(d: RowDraw, probAnomalous: real, size: nat, anomalyFrac: real, anomalyScale: real, loc: real)
    returns (r: Result<Row>)
    requires SeriesDraws(size, d.noise, d.perm, d.w)
    ensures r.Ok? <==> SeriesAccepted(size, RowFrac(d.u, probAnomalous, anomalyFrac))
    ensures size == 0 ==> r == Err(EmptySeries)
    ensures size >= 1 && r.Err? ==> r == Err(BadSampleSize)
    ensures r.Ok? ==> RowFor(r.value, d, probAnomalous, size, anomalyFrac, anomalyScale, loc)
  {
    var anomolous := d.u;
    if anomolous < probAnomalous {
      var ts := GenSeriesAnomaly(size, anomalyFrac, anomalyScale, loc, d.noise, d.perm, d.w);
      if ts.Err? {
        return Err(ts.error);
      }
      r := Ok(Row(ts.value, 1));
    } else {
      var ts := GenSeriesAnomaly(size, 0.0, anomalyScale, loc, d.noise, d.perm, d.w);
      if ts.Err? {
        return Err(ts.error);
      }
      AnomalySeriesZeroFrac(loc, anomalyScale, d.noise, d.perm, d.w);
      r := Ok(Row(ts.value, 0));
    }
  }

  /** The loop of gen_ts_dataframe: one row per draw, keyed by its position,
      ending at the first row whose series numpy refuses. */
  method GenRows(draws: seq<RowDraw>, probAnomalous: real, size: nat, anomalyFrac: real,
                 anomalyScale: real, loc: real)
    returns (r: Result<seq<Row>>)
    requires RowDrawsOk(draws, |draws|, size)
    ensures r.Ok? <==> RowsAccepted(draws, probAnomalous, size, anomalyFrac)
    ensures |draws| >= 1 && size == 0 ==> r == Err(EmptySeries)
    ensures r.Err? ==> r.error == EmptySeries || r.error == BadSampleSize
    ensures size >= 1 && r.Err? ==> r == Err(BadSampleSize)
    ensures r.Ok? ==> RowsFor(r.value, draws, probAnomalous, size, anomalyFrac, anomalyScale, loc)
  {
    var dt: map<nat, Row> := map[];
    for i := 0 to |draws|
      invariant forall j: nat :: j in dt <==> j < i
      invariant RowsFor(seq(i, j requires 0 <= j < i => dt[j]), draws[..i],
                        probAnomalous, size, anomalyFrac, anomalyScale, loc)
    {
      var row := GenRow(draws[i], probAnomalous, size, anomalyFrac, anomalyScale, loc);
      if row.Err? {
        assert !SeriesAccepted(size, RowFrac(draws[i].u, probAnomalous, anomalyFrac));
        return Err(row.error);
      }
      dt := dt[i := row.value];
    }
    assert |draws| >= 1 ==> SeriesAccepted(size, RowFrac(draws[0].u, probAnomalous, anomalyFrac));
    r := Ok(seq(|draws|, i requires 0 <= i < |draws| => dt[i]));
  }

  /** gen_ts_dataframe. It rejects prob_anomolous >= 1, passes on the first
      failing gen_series_anomaly call and fails when n = 0 (pandas refuses to
      name the columns of an empty frame); otherwise row i is labelled 1
      exactly when its draw falls below prob_anomolous, anomalous rows carry
      the configured anomaly fraction and the others are the plain noise. */
  method GenTsDataframe(n: nat, probAnomalous: real, size: nat, anomalyFrac: real,
                        anomalyScale: real, loc: real, draws: seq<RowDraw>)
    returns (r: Result<seq<Row>>)
    requires RowDrawsOk(draws, n, size)
    ensures probAnomalous >= 1.0 <==> r == Err(InvalidParameter)
    ensures probAnomalous < 1.0 && n == 0 ==> r == Err(EmptyFrame)
    ensures probAnomalous < 1.0 && n >= 1 && size == 0 ==> r == Err(EmptySeries)
    ensures probAnomalous < 1.0 && n >= 1 && size >= 1 && r.Err? ==> r == Err(BadSampleSize)
    ensures r.Ok? <==> probAnomalous < 1.0 && n >= 1 && RowsAccepted(draws, probAnomalous, size, anomalyFrac)
    ensures r.Ok? ==> RowsFor(r.value, draws, probAnomalous, size, anomalyFrac, anomalyScale, loc)
  {
    if probAnomalous >= 1.0 {
      return Err(InvalidParameter);
    }
    var rows := GenRows(draws, probAnomalous, size, anomalyFrac, anomalyScale, loc);
    if rows.Err? {
      return Err(rows.error);
    }
    if n == 0 {
      // df.columns = [...] on a frame with no columns
      return Err(EmptyFrame);
    }
    r := rows;
  }
}
