/** The SyntheticTS generator of utils/timeseries.py: a normal process over a
    fixed time axis, pointwise and chunked anomaly injection into copies of
    it, and a drift applied to the anomalized series, with three stage flags
    that record which stages have run. Times are whole minutes since a common
    epoch; every random draw is an argument. */
module TimeSeries {
  import opened Outcomes
  import opened Stats
  import opened Sampling
  import opened Injection

  // ---------------------------------------------------------------------------
  // Time-axis arithmetic
  // ---------------------------------------------------------------------------

  /** _size_ = int(minutes(end - start) / process_time). */
  function SizeOf(startTime: int, endTime: int, processTime: nat): int
    requires processTime > 0
  {
    Trunc((endTime - startTime) as real / processTime as real)
  }

  /** Over a forward time span the size is the number of whole process steps
      that fit in it, and the span is never shorter than that many steps. */
  lemma SizeOfSpan(startTime: int, endTime: int, processTime: nat)
    requires processTime > 0 && startTime <= endTime
    ensures SizeOf(startTime, endTime, processTime) == (endTime - startTime) / processTime
    ensures SizeOf(startTime, endTime, processTime) * processTime <= endTime - startTime
  {
    TruncQuotient(endTime - startTime, processTime);
  }

  /** The time at which drift starts: the given time, or by default
      end - duration / 2 (the middle of the span, possibly half a minute). */
  function DriftTime(startTime: int, endTime: int, timeDrift: Option<int>): real
  {
    match timeDrift
    case Some(t) => t as real
    case None => endTime as real - ((endTime - startTime) as real) / 2.0
  }

  /** _drift_idx_ = int(minutes(drift_time - start) / process_time). */
  function DriftIndex(startTime: int, endTime: int, processTime: nat, timeDrift: Option<int>): int
    requires processTime > 0
  {
    Trunc((DriftTime(startTime, endTime, timeDrift) - startTime as real) / processTime as real)
  }

  /** With the default drift time the split index is the number of whole
      steps in half the span; it lies inside a non-empty series, so the
      drifted tail is never empty. */
  lemma DefaultDriftIndex(startTime: int, endTime: int, processTime: nat)
    requires processTime > 0 && startTime <= endTime
    ensures DriftIndex(startTime, endTime, processTime, None) == (endTime - startTime) / (2 * processTime)
    ensures SizeOf(startTime, endTime, processTime) >= 1 ==>
      0 <= DriftIndex(startTime, endTime, processTime, None) < SizeOf(startTime, endTime, processTime)
  {
    var span := endTime - startTime;
    var p := processTime as real;
    var half := DriftTime(startTime, endTime, None) - startTime as real;
    assert half == (span as real) / 2.0;
    assert half / p == (span as real) / (2.0 * p);
    TruncQuotient(span, 2 * processTime);
    SizeOfSpan(startTime, endTime, processTime);
    HalfSteps(span, processTime);
  }

  /** Half a span holds fewer whole steps than the span, once it holds one. */
  lemma HalfSteps(span: nat, p: nat)
    requires p > 0
    ensures span / p >= 1 ==> span / (2 * p) < span / p
  {
    var idx, size := span / (2 * p), span / p;
    if size >= 1 && idx >= size {
      assert idx * (2 * p) <= span;
      assert span < size * p + p;
      MulMonotone(size, idx, 2 * p);
      assert size * (2 * p) == size * p + size * p;
      MulMonotone(1, size, p);
    }
  }

  // ---------------------------------------------------------------------------
  // Pointwise injection (anomalize)
  // ---------------------------------------------------------------------------

  /** The lower bound of np.random.uniform in anomalize and _chunk: the
      series minimum when one-sided, otherwise minus the scaled range. */
  function AnomalyLow(s: seq<real>, anomalyScale: real, oneSided: bool): real
    requires |s| > 0
  {
    if oneSided then Min(s) else -anomalyScale * (Max(s) - Min(s))
  }

  /** The upper bound: the scaled range of the series. */
  function AnomalyHigh(s: seq<real>, anomalyScale: real): real
    requires |s| > 0
  {
    anomalyScale * (Max(s) - Min(s))
  }

  /** Both anomaly parameters are in the range anomalize accepts. */
  predicate ValidAnomaly(anomalyFrac: real, anomalyScale: real)
  {
    0.0 < anomalyFrac < 1.0 && anomalyScale > 0.0
  }

  /** The anomalized copy: the first int(size * anomaly_frac) entries of the
      permutation behind np.random.choice are overwritten, the k-th with loc
      plus the k-th uniform sample between the bounds of the series. */
  function Anomalized(s: seq<real>, loc: real, anomalyFrac: real, anomalyScale: real, oneSided: bool,
                      perm: seq<nat>, w: nat -> real): (r: seq<real>)
    requires |s| > 0 && 0.0 < anomalyFrac < 1.0 && IsPermutation(perm, |s|)
    ensures |r| == |s|
  {
    var n := Count(|s|, anomalyFrac);
    CountBounds(|s|, anomalyFrac);
    PermutationPrefix(perm, |s|, n);
    Injected(s, perm[..n], Draws(n, loc, AnomalyLow(s, anomalyScale, oneSided), AnomalyHigh(s, anomalyScale), w))
  }

  /** anomalize changes exactly int(size * anomaly_frac) distinct positions
      of the copy, fewer than the size, and keeps every other one; an
      injected value minus loc lies between the one-sided bounds
      [min, scale * range], or within [-scale * range, scale * range], an
      interval around 0, when two-sided. */
  lemma AnomalizedSpec(s: seq<real>, loc: real, anomalyFrac: real, anomalyScale: real, oneSided: bool,
                       perm: seq<nat>, w: nat -> real)
    requires |s| > 0 && ValidAnomaly(anomalyFrac, anomalyScale) && IsPermutation(perm, |s|) && UnitSamples(w)
    ensures var n := Count(|s|, anomalyFrac);
            && 0 <= n < |s|
            && Overwrites(s, Anomalized(s, loc, anomalyFrac, anomalyScale, oneSided, perm, w), Touched(perm[..n]), n,
                          loc, AnomalyLow(s, anomalyScale, oneSided), AnomalyHigh(s, anomalyScale))
            && (!oneSided ==> AnomalyLow(s, anomalyScale, oneSided) <= 0.0 <= AnomalyHigh(s, anomalyScale))
  {
    var n := Count(|s|, anomalyFrac);
    CountBounds(|s|, anomalyFrac);
    PermutationPrefix(perm, |s|, n);
    var low, high := AnomalyLow(s, anomalyScale, oneSided), AnomalyHigh(s, anomalyScale);
    DrawsInjected(s, perm[..n], loc, low, high, w);
    if !oneSided {
      TwoSidedOrdered(s, anomalyScale);
    }
  }

  /** The two-sided interval is symmetric around 0, so it is never empty. */
  lemma TwoSidedOrdered(s: seq<real>, anomalyScale: real)
    requires |s| > 0 && anomalyScale > 0.0
    ensures AnomalyLow(s, anomalyScale, false) <= 0.0 <= AnomalyHigh(s, anomalyScale)
  {
    var range := Max(s) - Min(s);
    assert range >= 0.0 by { assert Min(s) <= s[0] <= Max(s); }
    NonNegProduct(anomalyScale, range);
    assert -anomalyScale * range == -(anomalyScale * range);
  }

  /** What anomalize returns: None (reported as NotInitialized) before the
      normal process exists, an assertion failure for out-of-range
      parameters, numpy's error for min/max of an empty series, and the
      anomalized copy otherwise. */
  function AnomalizeOutcome(normal: Option<seq<real>>, loc: real, anomalyFrac: real, anomalyScale: real,
                            oneSided: bool, perm: seq<nat>, w: nat -> real): Result<seq<real>>
    requires normal.Some? ==> IsPermutation(perm, |normal.value|)
  {
    match normal
    case None => Err(NotInitialized)
    case Some(s) =>
      if !ValidAnomaly(anomalyFrac, anomalyScale) then Err(InvalidParameter)
      else if |s| == 0 then Err(EmptySeries)
      else Ok(Anomalized(s, loc, anomalyFrac, anomalyScale, oneSided, perm, w))
  }

  /** The outcome is an error exactly in the cases the source rejects, with
      the flag check first and the parameter assertions second. */
  lemma AnomalizeOutcomeCases(normal: Option<seq<real>>, loc: real, anomalyFrac: real, anomalyScale: real,
                              oneSided: bool, perm: seq<nat>, w: nat -> real)
    requires normal.Some? ==> IsPermutation(perm, |normal.value|)
    ensures var r := AnomalizeOutcome(normal, loc, anomalyFrac, anomalyScale, oneSided, perm, w);
      && (normal.None? <==> r == Err(NotInitialized))
      && (normal.Some? && !ValidAnomaly(anomalyFrac, anomalyScale) <==> r == Err(InvalidParameter))
      && (r.Ok? <==> normal.Some? && ValidAnomaly(anomalyFrac, anomalyScale) && |normal.value| > 0)
      && (r.Ok? ==> |r.value| == |normal.value|)
  {
  }

  // ---------------------------------------------------------------------------
  // Chunked injection (_chunk, chunk_anomalize)
  // ---------------------------------------------------------------------------

  /** div = int(len(arr) / num_chunk): the width of every block but the last. */
  function BlockWidth(n: nat, numChunk: nat): nat
    requires numChunk >= 1
  {
    n / numChunk
  }

  /** The number of blocks range(0, n, div) starts, the ceiling of n / div. */
  function NumBlocks(n: nat, div: nat): nat
    requires div >= 1
  {
    (n + div - 1) / div
  }

  /** Offset o of a block of width div lies in the centred run
      mid - h .. mid + h (inclusive), mid = int(div / 2). */
  predicate InRun(o: int, div: nat, h: nat)
  {
    div / 2 - h <= o <= div / 2 + h
  }

  /** The position of offset o of block b in a series cut into blocks of
      width div. */
  function BlockPos(b: int, o: int, div: nat): int
  {
    b * div + o
  }

  /** Block b + 1 starts div positions after block b, and offset o of block
      b is o positions after its start. */
  lemma NextBlock(b: int, div: nat)
    ensures BlockPos(b + 1, 0, div) == BlockPos(b, 0, div) + div
    ensures forall o :: BlockPos(b, o, div) == BlockPos(b, 0, div) + o
  {
    assert (b + 1) * div == b * div + div;
  }

  /** Every block that is kept lies wholly inside the series. */
  lemma KeptBlockFits(n: nat, div: nat, b: nat)
    requires div >= 1 && b + 1 < NumBlocks(n, div)
    ensures BlockPos(b + 1, 0, div) < n
  {
    var q := NumBlocks(n, div);
    assert q * div <= n + div - 1;
    MulMonotone(b + 2, q, div);
    assert (b + 2) * div == (b + 1) * div + div;
  }

  /** Offsets inside a block that ends by position limit stay below limit. */
  lemma BlockPosBelow(b: nat, o: nat, div: nat, limit: int)
    requires o < div && BlockPos(b + 1, 0, div) <= limit
    ensures 0 <= BlockPos(b, o, div) < limit
  {
    assert (b + 1) * div == b * div + div;
  }

  /** Kept block b as _chunk emits it: the centred run holds the sample mean m
      plus uniform draws (the draw counter runs on from block to block), every
      other offset holds the series value at that position. */
  function Block(arr: seq<real>, b: nat, div: nat, h: nat, m: real, low: real, high: real,
                 w: nat -> real): (blk: seq<real>)
    requires div >= 1 && b + 1 < NumBlocks(|arr|, div)
    ensures |blk| == div
  {
    KeptBlockFits(|arr|, div, b);
    seq(div, o requires 0 <= o < div =>
      if InRun(o, div, h) then m + Uniform(low, high, w(b * (2 * h + 1) + (o - (div / 2 - h))))
      else (BlockPosBelow(b, o, div, |arr|); arr[BlockPos(b, o, div)]))
  }

  /** np.append of the chunks, in order. */
  function Concat(chunks: seq<seq<real>>): seq<real>
    decreases |chunks|
  {
    if chunks == [] then [] else Concat(chunks[..|chunks| - 1]) + chunks[|chunks| - 1]
  }

  /** The kept blocks of _chunk, all but the last block of the range. */
  function KeptBlocks(arr: seq<real>, div: nat, h: nat, m: real, low: real, high: real,
                      w: nat -> real): (blocks: seq<seq<real>>)
    requires div >= 1 && |arr| >= 1
    ensures |blocks| == NumBlocks(|arr|, div) - 1
    ensures forall b :: 0 <= b < |blocks| ==> |blocks[b]| == div
  {
    var kept := NumBlocks(|arr|, div) - 1;
    seq(kept, b requires 0 <= b < kept => Block(arr, b, div, h, m, low, high, w))
  }

  /** What _chunk returns: numpy's error for max/min of an empty series, the
      error range() raises for a zero step, the IndexError of a run that
      reaches past its block (only possible when some block is kept), and
      otherwise the kept blocks concatenated. */
  function ChunkOutcome(arr: seq<real>, numChunk: nat, chunkSize: nat, anoScale: real, oneSided: bool,
                        w: nat -> real): Result<seq<real>>
    requires numChunk >= 1
  {
    if |arr| == 0 then Err(EmptySeries)
    else
      var div := BlockWidth(|arr|, numChunk);
      if div == 0 then Err(ZeroBlockWidth)
      else
        var h := chunkSize / 2;
        if NumBlocks(|arr|, div) >= 2 && div / 2 + h >= div then Err(IndexOutOfRange)
        else
          Ok(Concat(KeptBlocks(arr, div, h, Mean(arr), AnomalyLow(arr, anoScale, oneSided),
                               AnomalyHigh(arr, anoScale), w)))
  }

  /** Blocks of equal width concatenate to |chunks| * div values. */
  lemma {:induction false} ConcatLength(chunks: seq<seq<real>>, div: nat)
    requires forall b :: 0 <= b < |chunks| ==> |chunks[b]| == div
    ensures |Concat(chunks)| == BlockPos(|chunks|, 0, div)
    decreases |chunks|
  {
    if chunks != [] {
      var k := |chunks| - 1;
      ConcatLength(chunks[..k], div);
      assert (k + 1) * div == k * div + div;
    }
  }

  /** Offset o of block b of the concatenation is offset o of chunk b. */
  lemma {:induction false} ConcatAt(chunks: seq<seq<real>>, div: nat, b: nat, o: nat)
    requires forall c :: 0 <= c < |chunks| ==> |chunks[c]| == div
    requires b < |chunks| && o < div
    ensures BlockPos(b, o, div) < |Concat(chunks)|
    ensures Concat(chunks)[BlockPos(b, o, div)] == chunks[b][o]
    decreases |chunks|
  {
    var k := |chunks| - 1;
    var prev := chunks[..k];
    ConcatLength(prev, div);
    ConcatLength(chunks, div);
    if b < k {
      ConcatAt(prev, div, b, o);
      assert prev[b] == chunks[b];
    } else {
      assert BlockPos(b, o, div) == BlockPos(k, 0, div) + o;
    }
  }

  /** The number of values a run writes: mid - h .. mid + h is 2h + 1
      offsets, all inside a block the run fits in. */
  lemma {:induction false} RunSize(div: nat, h: nat)
    requires div / 2 + h < div
    ensures |set o | 0 <= o < div && InRun(o, div, h)| == 2 * h + 1
    decreases h
  {
    var mid := div / 2;
    if h == 0 {
      assert (set o | 0 <= o < div && InRun(o, div, h)) == {mid};
    } else {
      var h' := h - 1;
      RunSize(div, h');
      var inner := set o | 0 <= o < div && InRun(o, div, h');
      assert (set o | 0 <= o < div && InRun(o, div, h)) == inner + {mid - h, mid + h};
      assert mid - h !in inner && mid + h !in inner;
    }
  }

  /** _chunk keeps every block but the last, so its output has
      (ceil(len / div) - 1) * div values, which is len - div when num_chunk
      divides len; every kept block has a run of 2h + 1 offsets,
      h = int(chunk_size / 2). */
  lemma ChunkLength(arr: seq<real>, numChunk: nat, chunkSize: nat, anoScale: real, oneSided: bool,
                    w: nat -> real)
    requires numChunk >= 1
    requires ChunkOutcome(arr, numChunk, chunkSize, anoScale, oneSided, w).Ok?
    ensures var r := ChunkOutcome(arr, numChunk, chunkSize, anoScale, oneSided, w).value;
            var div := |arr| / numChunk;
            var kept := NumBlocks(|arr|, div) - 1;
            && div >= 1
            && |r| == BlockPos(kept, 0, div)
            && (|arr| % numChunk == 0 ==> |r| == |arr| - div)
            && (kept >= 1 ==> |set o | 0 <= o < div && InRun(o, div, chunkSize / 2)| == 2 * (chunkSize / 2) + 1)
  {
    var n := |arr|;
    var div := n / numChunk;
    var h := chunkSize / 2;
    var blocks := KeptBlocks(arr, div, h, Mean(arr), AnomalyLow(arr, anoScale, oneSided),
                             AnomalyHigh(arr, anoScale), w);
    ConcatLength(blocks, div);
    if n % numChunk == 0 {
      EvenBlocks(n, numChunk);
    }
    if |blocks| >= 1 {
      RunSize(div, h);
    }
  }

  /** When num_chunk divides len there are exactly num_chunk blocks, and
      dropping the last one loses div values. */
  lemma EvenBlocks(n: nat, numChunk: nat)
    requires numChunk >= 1 && n / numChunk >= 1 && n % numChunk == 0
    ensures NumBlocks(n, n / numChunk) == numChunk
    ensures BlockPos(numChunk - 1, 0, n / numChunk) == n - n / numChunk
  {
    var div := n / numChunk;
    assert n == numChunk * div;
    CeilQuotient(n, div, numChunk);
    assert (numChunk - 1) * div == numChunk * div - div;
  }

  /** In the first `kept` blocks of width div, every offset outside the run
      holds the value the input has at the same position. */
  ghost predicate KeepsOutsideRuns(r: seq<real>, arr: seq<real>, div: nat, h: nat, kept: nat)
  {
    forall b, o :: 0 <= b < kept && 0 <= o < div && !InRun(o, div, h) ==>
      BlockPos(b, o, div) < |r| && BlockPos(b, o, div) < |arr|
      && r[BlockPos(b, o, div)] == arr[BlockPos(b, o, div)]
  }

  /** In the first `kept` blocks of width div, every run offset holds m plus a
      value between low and high. */
  ghost predicate RunsBetween(r: seq<real>, div: nat, h: nat, kept: nat, m: real, low: real, high: real)
  {
    forall b, o :: 0 <= b < kept && 0 <= o < div && InRun(o, div, h) ==>
      BlockPos(b, o, div) < |r| && Between(r[BlockPos(b, o, div)] - m, low, high)
  }

  /** Within every kept block of the _chunk output, exactly the offsets of the
      centred run are overwritten, each with the whole-series mean plus a
      value between the whole-series bounds; every other position holds the
      value at the same position of the input. */
  lemma ChunkValues(arr: seq<real>, numChunk: nat, chunkSize: nat, anoScale: real, oneSided: bool,
                    w: nat -> real)
    requires numChunk >= 1 && UnitSamples(w)
    requires ChunkOutcome(arr, numChunk, chunkSize, anoScale, oneSided, w).Ok?
    ensures var r := ChunkOutcome(arr, numChunk, chunkSize, anoScale, oneSided, w).value;
            var div := |arr| / numChunk;
            && |arr| >= 1 && div >= 1
            && KeepsOutsideRuns(r, arr, div, chunkSize / 2, NumBlocks(|arr|, div) - 1)
            && RunsBetween(r, div, chunkSize / 2, NumBlocks(|arr|, div) - 1, Mean(arr),
                           AnomalyLow(arr, anoScale, oneSided), AnomalyHigh(arr, anoScale))
  {
    var n := |arr|;
    var div := n / numChunk;
    var h := chunkSize / 2;
    var m := Mean(arr);
    var low, high := AnomalyLow(arr, anoScale, oneSided), AnomalyHigh(arr, anoScale);
    var blocks := KeptBlocks(arr, div, h, m, low, high, w);
    var r := Concat(blocks);
    assert ChunkOutcome(arr, numChunk, chunkSize, anoScale, oneSided, w).value == r;
    var kept := |blocks|;
    forall b, o | 0 <= b < kept && 0 <= o < div
      ensures BlockPos(b, o, div) < |r| && BlockPos(b, o, div) < |arr|
      ensures !InRun(o, div, h) ==> r[BlockPos(b, o, div)] == arr[BlockPos(b, o, div)]
      ensures InRun(o, div, h) ==> Between(r[BlockPos(b, o, div)] - m, low, high)
    {
      ConcatAt(blocks, div, b, o);
      BlockAt(arr, b, div, h, m, low, high, w, o);
    }
    assert KeepsOutsideRuns(r, arr, div, h, kept);
    assert RunsBetween(r, div, h, kept, m, low, high);
  }

  /** One offset of a kept block: a run offset holds m plus a value between
      the bounds, any other offset the input value at its position. */
  lemma BlockAt(arr: seq<real>, b: nat, div: nat, h: nat, m: real, low: real, high: real,
                w: nat -> real, o: nat)
    requires div >= 1 && b + 1 < NumBlocks(|arr|, div) && o < div && UnitSamples(w)
    ensures BlockPos(b, o, div) < |arr|
    ensures !InRun(o, div, h) ==> Block(arr, b, div, h, m, low, high, w)[o] == arr[BlockPos(b, o, div)]
    ensures InRun(o, div, h) ==> Between(Block(arr, b, div, h, m, low, high, w)[o] - m, low, high)
  {
    KeptBlockFits(|arr|, div, b);
    BlockPosBelow(b, o, div, |arr|);
    if InRun(o, div, h) {
      UniformBetween(low, high, w(b * (2 * h + 1) + (o - (div / 2 - h))));
    }
  }

  /** The chunk width int(no_anomalies / num_chunks), with no_anomalies =
      int(size * anomaly_frac); the remainder is discarded. */
  function ChunkSize(size: nat, numChunks: nat, anomalyFrac: real): (cs: nat)
    requires numChunks >= 1 && 0.0 < anomalyFrac < 1.0
    ensures cs * numChunks <= Count(size, anomalyFrac) < (cs + 1) * numChunks
  {
    CountBounds(size, anomalyFrac);
    Count(size, anomalyFrac) / numChunks
  }

  /** What chunk_anomalize returns: None (NotInitialized) before the normal
      process exists, an assertion failure for a non-positive chunk count or
      out-of-range anomaly parameters, and otherwise what _chunk makes of the
      normal series. */
  function ChunkAnomalizeOutcome(normal: Option<seq<real>>, numChunks: int, anomalyFrac: real,
                                 anomalyScale: real, oneSided: bool, w: nat -> real): Result<seq<real>>
  {
    match normal
    case None => Err(NotInitialized)
    case Some(s) =>
      if numChunks <= 0 || !ValidAnomaly(anomalyFrac, anomalyScale) then Err(InvalidParameter)
      else ChunkOutcome(s, numChunks, ChunkSize(|s|, numChunks, anomalyFrac), anomalyScale, oneSided, w)
  }

  // ---------------------------------------------------------------------------
  // Drift
  // ---------------------------------------------------------------------------

  /** The constant added to the drifted tail:
      mean(after) * pct_drift_mean / 100 * (1 + pct_drift_spread / 100). */
  function DriftOffset(after: seq<real>, pctDriftMean: real, pctDriftSpread: real): real
    requires |after| > 0
  {
    Mean(after) * (pctDriftMean / 100.0) * (1.0 + pctDriftSpread / 100.0)
  }

  /** The drifted series: the part before the split index as it was, the part
      from it on shifted by the offset. A split at or past the end leaves
      nothing to shift. */
  function Drifted(a: seq<real>, driftIdx: nat, pctDriftMean: real, pctDriftSpread: real): (r: seq<real>)
    ensures |r| == |a|
  {
    if driftIdx >= |a| then a
    else a[..driftIdx] + Shifted(a[driftIdx..], DriftOffset(a[driftIdx..], pctDriftMean, pctDriftSpread))
  }

  /** drift keeps every position before the split index, adds one and the
      same constant, computed from the tail, to every position from it on,
      and so multiplies the tail's mean by 1 + pct_mean/100 * (1 + pct_spread/100). */
  lemma DriftedSpec(a: seq<real>, driftIdx: nat, pctDriftMean: real, pctDriftSpread: real)
    ensures var r := Drifted(a, driftIdx, pctDriftMean, pctDriftSpread);
      && |r| == |a|
      && (forall i :: 0 <= i < driftIdx && i < |a| ==> r[i] == a[i])
      && (driftIdx < |a| ==>
            var c := DriftOffset(a[driftIdx..], pctDriftMean, pctDriftSpread);
            && (forall i :: driftIdx <= i < |a| ==> r[i] == a[i] + c)
            && Mean(r[driftIdx..]) == Mean(a[driftIdx..]) * (1.0 + (pctDriftMean / 100.0) * (1.0 + pctDriftSpread / 100.0)))
  {
    if driftIdx < |a| {
      var after := a[driftIdx..];
      var c := DriftOffset(after, pctDriftMean, pctDriftSpread);
      var r := Drifted(a, driftIdx, pctDriftMean, pctDriftSpread);
      assert r[driftIdx..] == Shifted(after, c);
      MeanShifted(after, c);
    }
  }

  /** The index list of _chunk: [idx_a[i:i + div] for i in range(0, n, div)],
      NumBlocks(n, div) slices of which all but the last hold div positions. */
  method IndexBlocks(n: nat, div: nat) returns (idxChunks: seq<seq<nat>>)
    requires div >= 1
    ensures |idxChunks| == NumBlocks(n, div)
    ensures forall c :: 0 <= c < |idxChunks| - 1 ==>
      |idxChunks[c]| == div && forall t :: 0 <= t < div ==> idxChunks[c][t] == BlockPos(c, t, div)
  {
    var idxA: seq<nat> := seq(n, t => t);
    idxChunks := [];
    var i := 0;
    while i < n
      invariant i == BlockPos(|idxChunks|, 0, div) && i < n + div
      invariant forall c :: 0 <= c < |idxChunks| && BlockPos(c + 1, 0, div) <= n ==>
        idxChunks[c] == idxA[BlockPos(c, 0, div)..BlockPos(c + 1, 0, div)]
      decreases n - i
    {
      NextBlock(|idxChunks|, div);
      idxChunks := idxChunks + [idxA[i..if i + div <= n then i + div else n]];
      i := i + div;
    }
    CeilQuotient(n, div, |idxChunks|);
    forall c | 0 <= c < |idxChunks| - 1
      ensures |idxChunks[c]| == div && forall t :: 0 <= t < div ==> idxChunks[c][t] == BlockPos(c, t, div)
    {
      KeptBlockFits(n, div, c);
      NextBlock(c, div);
    }
  }

  /** np.append over the kept blocks, one block at a time. */
  method Join(chunks: seq<seq<real>>) returns (a1: seq<real>)
    ensures a1 == Concat(chunks)
  {
    a1 := [];
    for c := 0 to |chunks|
      invariant a1 == Concat(chunks[..c])
    {
      assert chunks[..c + 1][..c] == chunks[..c];
      a1 := a1 + chunks[c];
    }
    assert chunks[..|chunks|] == chunks;
  }

  /** One pass of the block loop of _chunk: copy block b out of the series,
      overwrite its middle run with draws w(k0), w(k0 + 1), ..., and fail
      with None when the run would pass the end of the block. */
  method FillBlock(arr: seq<real>, idx: seq<nat>, b: nat, div: nat, h: nat, m: real, low: real, high: real,
                   w: nat -> real, k0: nat)
    returns (blk: Option<seq<real>>, k: nat)
    requires div >= 1 && b + 1 < NumBlocks(|arr|, div)
    requires k0 == b * (2 * h + 1)
    requires |idx| == div && forall t :: 0 <= t < div ==> idx[t] == BlockPos(b, t, div)
    ensures blk.Some? <==> div / 2 + h < div
    ensures blk.Some? ==> blk.value == Block(arr, b, div, h, m, low, high, w) && k == (b + 1) * (2 * h + 1)
  {
    KeptBlockFits(|arr|, div, b);
    forall t | 0 <= t < div
      ensures idx[t] < |arr|
    {
      BlockPosBelow(b, t, div, |arr|);
    }
    var tmpa := new real[|idx|](t requires 0 <= t < |idx| => arr[idx[t]]);
    var mid := tmpa.Length / 2;
    k := k0;
    if mid + h >= tmpa.Length {
      // the run reaches past the block's last position: IndexError
      return None, k;
    }
    for j := mid - h to mid + h + 1
      invariant k == k0 + (j - (mid - h))
      invariant forall t :: 0 <= t < div ==>
        tmpa[t] == if InRun(t, div, h) && t < j then m + Uniform(low, high, w(b * (2 * h + 1) + (t - (mid - h))))
                   else arr[BlockPos(b, t, div)]
    {
      tmpa[j] := m + Uniform(low, high, w(k));
      k := k + 1;
    }
    ghost var expected := Block(arr, b, div, h, m, low, high, w);
    forall t | 0 <= t < div
      ensures tmpa[t] == expected[t]
    {
    }
    NextBlock(b, 2 * h + 1);
    blk := Some(tmpa[..]);
  }

  // ---------------------------------------------------------------------------
  // The generator object
  // ---------------------------------------------------------------------------

  class SyntheticTS {
    const startTime: int
    const endTime: int
    const processTime: nat
    /** _duration_ in minutes. */
    const duration: int
    /** _size_: the number of samples of every stage's series. */
    const size: int

    var normalFlag: bool
    var anomalyFlag: bool
    var driftedFlag: bool

    /** The Gaussian parameters of the last normal_process call; meaningful
        once the normal flag is set. */
    var loc: real
    var scale: real

    /** Attributes that exist only after the stage that sets them has run. */
    var normalData: Option<seq<real>>
    var anomalizedData: Option<seq<real>>
    var chunkAnomalyData: Option<seq<real>>
    var driftIdx: Option<int>
    var driftedData: Option<seq<real>>

    /** The stage invariant: a flag is set exactly when its stage has stored
        its series, every stage needs the normal process, and the pointwise
        and drift stages keep the series length. */
    ghost predicate Valid()
      reads this
    {
      && processTime > 0
      && duration == endTime - startTime
      && (normalFlag <==> normalData.Some?)
      && (normalData.Some? ==> |normalData.value| == size)
      && (anomalizedData.Some? ==> normalFlag && |anomalizedData.value| == size)
      && (chunkAnomalyData.Some? ==> normalFlag)
      && (anomalyFlag <==> anomalizedData.Some? || chunkAnomalyData.Some?)
      && (driftedFlag <==> driftedData.Some?)
      && (driftedFlag ==> driftIdx.Some? && |driftedData.value| == size)
    }

    /** __init__: the size is int(minutes / process_time) and no stage has run. */
    constructor (startTime: int, endTime: int, processTime: nat)
      requires processTime > 0
      ensures Valid()
      ensures this.startTime == startTime && this.endTime == endTime && this.processTime == processTime
      ensures duration == endTime - startTime && size == SizeOf(startTime, endTime, processTime)
      ensures !normalFlag && !anomalyFlag && !driftedFlag
      ensures normalData.None? && anomalizedData.None? && chunkAnomalyData.None? && driftedData.None?
    {
      this.startTime := startTime;
      this.endTime := endTime;
      this.processTime := processTime;
      duration := endTime - startTime;
      size := Trunc(((endTime - startTime) as real) / (processTime as real));
      normalFlag, anomalyFlag, driftedFlag := false, false, false;
      loc, scale := 0.0, 1.0;
      normalData, anomalizedData, chunkAnomalyData := None, None, None;
      driftIdx, driftedData := None, None;
    }

    /** normal_process: records loc and scale, then stores the drawn Gaussian
        series (size samples of N(loc, scale)) as the normal data and sets the
        normal flag; nothing else changes. A negative scale, and then a
        negative size (an end time before the start time), make numpy refuse
        the draw after loc and scale have been recorded; the normal data and
        its flag then stay as they were. */
    method NormalProcess(loc: real, scale: real, samples: seq<real>) returns (r: Result<seq<real>>)
      requires Valid() && (size >= 0 ==> |samples| == size)
      modifies this
      ensures Valid()
      ensures this.loc == loc && this.scale == scale
      ensures r.Ok? <==> scale >= 0.0 && size >= 0
      ensures scale < 0.0 ==> r == Err(NegativeScale)
      ensures scale >= 0.0 && size < 0 ==> r == Err(NegativeDimension)
      ensures r.Err? ==> normalData == old(normalData) && normalFlag == old(normalFlag)
      ensures r.Ok? ==> r.value == samples && normalData == Some(samples) && normalFlag
      ensures anomalyFlag == old(anomalyFlag) && driftedFlag == old(driftedFlag)
      ensures anomalizedData == old(anomalizedData) && chunkAnomalyData == old(chunkAnomalyData)
      ensures driftIdx == old(driftIdx) && driftedData == old(driftedData)
    {
      this.loc := loc;
      this.scale := scale;
      if scale < 0.0 {
        return Err(NegativeScale);
      }
      if size < 0 {
        return Err(NegativeDimension);
      }
      var arr := samples;
      normalData := Some(arr);
      normalFlag := true;
      r := Ok(arr);
    }

    /** anomalize: on success stores the anomalized copy and sets the anomaly
        flag; on any error nothing changes. The normal data is never
        modified. */
    method Anomalize(anomalyFrac: real, anomalyScale: real, oneSided: bool, perm: seq<nat>, w: nat -> real)
      returns (r: Result<seq<real>>)
      requires Valid()
      requires normalFlag ==> IsPermutation(perm, size)
      modifies this
      ensures Valid()
      ensures r == AnomalizeOutcome(old(normalData), old(loc), anomalyFrac, anomalyScale, oneSided, perm, w)
      ensures r.Ok? ==> anomalizedData == Some(r.value) && anomalyFlag
      ensures r.Err? ==> anomalizedData == old(anomalizedData) && anomalyFlag == old(anomalyFlag)
      ensures normalData == old(normalData) && normalFlag == old(normalFlag) && driftedFlag == old(driftedFlag)
      ensures loc == old(loc) && scale == old(scale)
      ensures chunkAnomalyData == old(chunkAnomalyData) && driftIdx == old(driftIdx)
      ensures driftedData == old(driftedData)
    {
      if !normalFlag {
        // prints "Normal process is not initialized" and returns None
        return Err(NotInitialized);
      }
      if !(anomalyFrac > 0.0 && anomalyFrac < 1.0) || !(anomalyScale > 0.0) {
        return Err(InvalidParameter);
      }
      var normal := normalData.value;
      if size == 0 {
        return Err(EmptySeries);
      }
      var newArr := new real[size](i requires 0 <= i < size => normal[i]);
      assert newArr[..] == normal;
      // the bounds from new_arr.min() and new_arr.max() of the fresh copy
      var low, high := AnomalyLow(newArr[..], anomalyScale, oneSided), AnomalyHigh(newArr[..], anomalyScale);
      var noAnomalies := Count(size, anomalyFrac);
      CountBounds(size, anomalyFrac);
      PermutationPrefix(perm, size, noAnomalies);
      var idxList := perm[..noAnomalies];
      InjectInPlace(newArr, idxList, loc, low, high, w);
      assert newArr[..] == Anomalized(normal, loc, anomalyFrac, anomalyScale, oneSided, perm, w);
      anomalizedData := Some(newArr[..]);
      anomalyFlag := true;
      r := Ok(newArr[..]);
    }

    /** _chunk: splits the series into blocks of width
        int(len / num_chunk), drops the last block, overwrites the centred
        run of chunk_size // 2 * 2 + 1 values in each kept block and joins
        the kept blocks. The series itself is read, never written. */
    method Chunk(arr: seq<real>, numChunk: nat, chunkSize: nat, anoScale: real, oneSided: bool, w: nat -> real)
      returns (r: Result<seq<real>>)
      requires numChunk >= 1
      ensures r == ChunkOutcome(arr, numChunk, chunkSize, anoScale, oneSided, w)
    {
      var n := |arr|;
      if n == 0 {
        // arr.max() of an empty array
        return Err(EmptySeries);
      }
      var m := Mean(arr);
      // the bounds from a_max and a_min
      var low, high := AnomalyLow(arr, anoScale, oneSided), AnomalyHigh(arr, anoScale);
      var dataChunks: seq<seq<real>> := [];
      var div := n / numChunk;
      if div == 0 {
        // a block width of 0 is a zero range step: ValueError
        return Err(ZeroBlockWidth);
      }
      var idxChunks := IndexBlocks(n, div);
      var kept := |idxChunks| - 1;
      var h := chunkSize / 2;
      var k: nat := 0;
      for b := 0 to kept
        invariant |dataChunks| == b && k == b * (2 * h + 1)
        invariant forall c :: 0 <= c < b ==> dataChunks[c] == Block(arr, c, div, h, m, low, high, w)
        invariant b >= 1 ==> div / 2 + h < div
      {
        var blk;
        blk, k := FillBlock(arr, idxChunks[b], b, div, h, m, low, high, w, k);
        if blk.None? {
          return Err(IndexOutOfRange);
        }
        dataChunks := dataChunks + [blk.value];
      }
      assert dataChunks == KeptBlocks(arr, div, h, m, low, high, w);
      var a1 := Join(dataChunks);
      r := Ok(a1);
    }

    /** chunk_anomalize: on success stores the chunked series (it does not
        touch anomalized_data) and sets the anomaly flag; on any error nothing
        changes. */
    method ChunkAnomalize(numChunks: int, anomalyFrac: real, anomalyScale: real, oneSided: bool, w: nat -> real)
      returns (r: Result<seq<real>>)
      requires Valid()
      modifies this
      ensures Valid()
      ensures r == ChunkAnomalizeOutcome(old(normalData), numChunks, anomalyFrac, anomalyScale, oneSided, w)
      ensures r.Ok? ==> chunkAnomalyData == Some(r.value) && anomalyFlag
      ensures r.Err? ==> chunkAnomalyData == old(chunkAnomalyData) && anomalyFlag == old(anomalyFlag)
      ensures normalData == old(normalData) && normalFlag == old(normalFlag) && driftedFlag == old(driftedFlag)
      ensures loc == old(loc) && scale == old(scale)
      ensures anomalizedData == old(anomalizedData) && driftIdx == old(driftIdx)
      ensures driftedData == old(driftedData)
    {
      if !normalFlag {
        return Err(NotInitialized);
      }
      if numChunks <= 0 {
        return Err(InvalidParameter);
      }
      if !(anomalyFrac > 0.0 && anomalyFrac < 1.0) || !(anomalyScale > 0.0) {
        return Err(InvalidParameter);
      }
      var noAnomalies := Count(size, anomalyFrac);
      CountBounds(size, anomalyFrac);
      var noAnomaliesChunk := noAnomalies / numChunks;
      var newArr := normalData.value;
      r := Chunk(newArr, numChunks, noAnomaliesChunk, anomalyScale, oneSided, w);
      if r.Ok? {
        chunkAnomalyData := Some(r.value);
        anomalyFlag := true;
      }
    }

    /** drift: splits the anomalized series at the drift index and shifts the
        tail by the drift offset; stores the index and the drifted series and
        sets the drifted flag. No flag is checked: reading anomalized_data
        before anomalize has stored it fails. The anomalized series is not
        modified. */
    method Drift(pctDriftMean: real, pctDriftSpread: real, timeDrift: Option<int>)
      returns (r: Result<seq<real>>)
      requires Valid()
      requires DriftIndex(startTime, endTime, processTime, timeDrift) >= 0
      modifies this
      ensures Valid()
      ensures old(anomalizedData).None? ==> r == Err(MissingAttribute)
      ensures old(anomalizedData).Some? ==>
        r == Ok(Drifted(old(anomalizedData).value, DriftIndex(startTime, endTime, processTime, timeDrift),
                        pctDriftMean, pctDriftSpread))
      ensures driftIdx == Some(DriftIndex(startTime, endTime, processTime, timeDrift))
      ensures r.Ok? ==> driftedData == Some(r.value) && driftedFlag
      ensures r.Err? ==> driftedData == old(driftedData) && driftedFlag == old(driftedFlag)
      ensures normalData == old(normalData) && anomalizedData == old(anomalizedData)
      ensures chunkAnomalyData == old(chunkAnomalyData)
      ensures normalFlag == old(normalFlag) && anomalyFlag == old(anomalyFlag)
      ensures loc == old(loc) && scale == old(scale)
    {
      var driftTime := if timeDrift.None? then endTime as real - (duration as real) / 2.0 else timeDrift.value as real;
      assert driftTime == DriftTime(startTime, endTime, timeDrift);
      var durationBeforeDrift := driftTime - startTime as real;
      var idx := Trunc(durationBeforeDrift / (processTime as real));
      assert idx == DriftIndex(startTime, endTime, processTime, timeDrift);
      driftIdx := Some(idx);
      if anomalizedData.None? {
        return Err(MissingAttribute);
      }
      var a := anomalizedData.value;
      // slicing at an index past the end clips to the whole series and an empty tail
      var beforeDrift := if idx <= |a| then a[..idx] else a;
      var afterDrift := if idx <= |a| then a[idx..] else [];
      if afterDrift != [] {
        afterDrift := Shifted(afterDrift, DriftOffset(afterDrift, pctDriftMean, pctDriftSpread));
      } else {
        assert beforeDrift == a;
      }
      var drifted := beforeDrift + afterDrift;
      assert drifted == Drifted(a, idx, pctDriftMean, pctDriftSpread);
      driftedData := Some(drifted);
      driftedFlag := true;
      r := Ok(drifted);
    }

    /** plot_normal, as a guard: nothing to show before normal_process,
        otherwise the normal series. */
    method PlotNormal() returns (shown: Option<seq<real>>)
      requires Valid()
      ensures shown.None? <==> !normalFlag
      ensures shown.Some? ==> shown == normalData
    {
      if !normalFlag {
        return None;
      }
      return Some(normalData.value);
    }

    /** plot_anomaly, as a guard: nothing to show before any anomaly stage;
        once one has run it plots anomalized_data, which only anomalize sets,
        so after chunk_anomalize alone the attribute is missing. */
    method PlotAnomaly() returns (shown: Result<Option<seq<real>>>)
      requires Valid()
      ensures shown == Ok(None) <==> !anomalyFlag
      ensures shown == Err(MissingAttribute) <==> anomalyFlag && anomalizedData.None?
      ensures shown.Ok? && shown.value.Some? ==> anomalyFlag && shown.value == anomalizedData
    {
      if !anomalyFlag {
        return Ok(None);
      }
      if anomalizedData.None? {
        return Err(MissingAttribute);
      }
      return Ok(Some(anomalizedData.value));
    }

    /** plot_drifted, as a guard: nothing to show before drift, otherwise the
        drifted series. */
    method PlotDrifted() returns (shown: Option<seq<real>>)
      requires Valid()
      ensures shown.None? <==> !driftedFlag
      ensures shown.Some? ==> shown == driftedData
    {
      if !driftedFlag {
        return None;
      }
      return Some(driftedData.value);
    }
  }
}
