/** Chunking a time range for batch fetching. Times are whole microseconds, the resolution of datetimes. */
module TimeRange {
  import opened Sums

  datatype KlineInterval =
    MINUTE_1 | MINUTE_5 | MINUTE_15 | MINUTE_30 | HOUR_1 | HOUR_4 | HOUR_12 | DAY_1 | WEEK_1 | MONTH_1

  const MICROSECONDS := 1_000_000

  /** Anything that is not an interval lasts 0 seconds. */
  function IntervalSeconds(interval: Option<KlineInterval>): (seconds: nat)
    ensures seconds == 0 <==> interval.None?
  {
    match interval
    case None => 0
    case Some(MINUTE_1) => 60
    case Some(MINUTE_5) => 300
    case Some(MINUTE_15) => 900
    case Some(MINUTE_30) => 1800
    case Some(HOUR_1) => 3600
    case Some(HOUR_4) => 14400
    case Some(HOUR_12) => 43200
    case Some(DAY_1) => 86400
    case Some(WEEK_1) => 604800
    case Some(MONTH_1) => 2592000
  }

  /** The intervals last what their names say; a month has thirty days. */
  lemma IntervalsLast()
    ensures IntervalSeconds(Some(MINUTE_1)) == 60
    ensures IntervalSeconds(Some(MINUTE_5)) == 5 * IntervalSeconds(Some(MINUTE_1))
    ensures IntervalSeconds(Some(MINUTE_15)) == 15 * IntervalSeconds(Some(MINUTE_1))
    ensures IntervalSeconds(Some(MINUTE_30)) == 30 * IntervalSeconds(Some(MINUTE_1))
    ensures IntervalSeconds(Some(HOUR_1)) == 60 * IntervalSeconds(Some(MINUTE_1))
    ensures IntervalSeconds(Some(HOUR_4)) == 4 * IntervalSeconds(Some(HOUR_1))
    ensures IntervalSeconds(Some(HOUR_12)) == 12 * IntervalSeconds(Some(HOUR_1))
    ensures IntervalSeconds(Some(DAY_1)) == 24 * IntervalSeconds(Some(HOUR_1))
    ensures IntervalSeconds(Some(WEEK_1)) == 7 * IntervalSeconds(Some(DAY_1))
    ensures IntervalSeconds(Some(MONTH_1)) == 30 * IntervalSeconds(Some(DAY_1))
  {
  }

  datatype Chunk = Chunk(start: int, end: int)

  datatype RangeError = ValueError

  function MinInt(a: int, b: int): int { if a <= b then a else b }

  /** The chunks from `start` on: length limit * step, cut off at `upTo`; the next begins one step after the end. */
  function Chunks(start: int, upTo: int, limit: int, step: int): seq<Chunk>
    requires limit > 0 && step > 0
    decreases upTo - start
  {
    if start >= upTo then []
    else
      var end := NextEnd(start, upTo, limit, step);
      [Chunk(start, end)] + Chunks(end + step, upTo, limit, step)
  }

  function NextEnd(start: int, upTo: int, limit: int, step: int): (end: int)
    requires limit > 0 && step > 0 && start < upTo
    ensures start < end <= upTo
  {
    Positive(limit, step);
    MinInt(start + limit * step, upTo)
  }

  lemma Positive(a: int, b: int)
    requires a > 0 && b > 0
    ensures a * b > 0
  {
  }

  /** All chunks of the range. An empty range yields nothing, even with a bad limit or interval. */
  method TimeRangeIterator(dateFrom: int, dateTo: int, limit: int, interval: Option<KlineInterval>)
    returns (r: Result<seq<Chunk>, RangeError>)
    ensures r.Failure? <==> dateFrom < dateTo && (limit <= 0 || interval.None?)
    ensures r.Success? && dateFrom >= dateTo ==> r.value == []
    ensures r.Success? && dateFrom < dateTo ==>
      r.value == Chunks(dateFrom, dateTo, limit, IntervalSeconds(interval) * MICROSECONDS)
  {
    var step := IntervalSeconds(interval) * MICROSECONDS;
    if dateFrom >= dateTo {
      return Success([]);
    }
    if limit <= 0 || step <= 0 {
      return Failure(ValueError);
    }
    var chunks := CollectChunks(dateFrom, dateTo, limit, step);
    return Success(chunks);
  }

  /** The loop of the iterator. */
  method CollectChunks(dateFrom: int, dateTo: int, limit: int, step: int) returns (chunks: seq<Chunk>)
    requires limit > 0 && step > 0 && dateFrom < dateTo
    ensures chunks == Chunks(dateFrom, dateTo, limit, step)
  {
    chunks := [];
    var current := dateFrom;
    while current < dateTo
      invariant chunks + Chunks(current, dateTo, limit, step) == Chunks(dateFrom, dateTo, limit, step)
      decreases dateTo - current
    {
      var end := NextEnd(current, dateTo, limit, step);
      ghost var rest := Chunks(end + step, dateTo, limit, step);
      assert chunks + ([Chunk(current, end)] + rest) == (chunks + [Chunk(current, end)]) + rest;
      chunks := chunks + [Chunk(current, end)];
      current := end + step;
      if current >= dateTo {
        break;
      }
    }
    assert chunks + [] == chunks;
  }

  // Closed form: chunk c starts at from + c * (limit + 1) * step.

  /** Distance between the starts of two chunks. */
  function Stride(limit: int, step: int): int
  {
    (limit + 1) * step
  }

  /** Number of strides begun before `upTo`. */
  function Strides(span: int, stride: int): int
    requires stride > 0
  {
    (span + stride - 1) / stride
  }

  lemma StrideIsLonger(limit: int, step: int)
    requires limit > 0 && step > 0
    ensures Stride(limit, step) == limit * step + step && Stride(limit, step) > step
  {
    Positive(limit, step);
  }

  /** Taking one stride off the span takes one off the count. */
  lemma OneStrideLess(span: int, stride: int)
    requires stride > 0 && span > 0
    ensures Strides(span, stride) >= 1
    ensures span <= stride ==> Strides(span, stride) == 1
    ensures span > stride ==> Strides(span - stride, stride) == Strides(span, stride) - 1
  {
    var n := Strides(span, stride);
    Quotient(span + stride - 1, stride, n);
    if span <= stride {
      QuotientIs(span + stride - 1, stride, 1);
    } else {
      QuotientIs(span - 1, stride, n - 1);
    }
  }

  lemma Quotient(a: int, b: int, q: int)
    requires b > 0 && q == a / b
    ensures q * b <= a < q * b + b
  {
  }

  lemma QuotientIs(a: int, b: int, q: int)
    requires b > 0 && q * b <= a < q * b + b
    ensures a / b == q
  {
    var p := a / b;
    Quotient(a, b, p);
    if p < q {
      Scale(p + 1, q, b);
    } else if p > q {
      Scale(q + 1, p, b);
    }
  }

  lemma Scale(p: int, q: int, b: int)
    requires p <= q && b > 0
    ensures p * b <= q * b
  {
  }

  /** The number of chunks is the span divided by the stride, rounded up. */
  lemma {:induction false} ChunkCount(start: int, upTo: int, limit: int, step: int)
    requires limit > 0 && step > 0 && start < upTo
    ensures Stride(limit, step) > 0
    ensures |Chunks(start, upTo, limit, step)| == Strides(upTo - start, Stride(limit, step))
    decreases upTo - start
  {
    StrideIsLonger(limit, step);
    var stride := Stride(limit, step);
    var end := NextEnd(start, upTo, limit, step);
    OneStrideLess(upTo - start, stride);
    if end + step < upTo {
      ChunkCount(end + step, upTo, limit, step);
    }
  }

  /** Where chunk c begins and ends. */
  lemma {:induction false} ChunkAt(start: int, upTo: int, limit: int, step: int, c: nat)
    requires limit > 0 && step > 0 && c < |Chunks(start, upTo, limit, step)|
    ensures var begin := start + c * Stride(limit, step);
            && Chunks(start, upTo, limit, step)[c] == Chunk(begin, MinInt(begin + limit * step, upTo))
            && begin < upTo
    decreases upTo - start
  {
    StrideIsLonger(limit, step);
    if c > 0 {
      var end := NextEnd(start, upTo, limit, step);
      ChunkAt(end + step, upTo, limit, step, c - 1);
      Shift(c, Stride(limit, step));
    }
  }

  lemma Shift(c: int, stride: int)
    ensures stride + (c - 1) * stride == c * stride
  {
  }

  /** Every chunk runs forward and stays within the range; consecutive chunks are exactly one step apart. */
  lemma ChunksAreOrdered(start: int, upTo: int, limit: int, step: int, c: nat)
    requires limit > 0 && step > 0 && c < |Chunks(start, upTo, limit, step)|
    ensures var chunks := Chunks(start, upTo, limit, step);
            && start <= chunks[c].start < chunks[c].end <= upTo
            && (c + 1 < |chunks| ==> chunks[c + 1].start == chunks[c].end + step)
  {
    ChunkAt(start, upTo, limit, step, c);
    StrideIsLonger(limit, step);
    Positive(limit, step);
    Scale(0, c, Stride(limit, step));
    if c + 1 < |Chunks(start, upTo, limit, step)| {
      ChunkAt(start, upTo, limit, step, c + 1);
      Shift(c + 1, Stride(limit, step));
    }
  }

  ghost predicate Within(t: int, chunk: Chunk)
  {
    chunk.start <= t <= chunk.end
  }

  /** Each grid point before the end lies in the chunk numbered k / (limit + 1), and in no other. */
  lemma GridPointInOneChunk(start: int, upTo: int, limit: int, step: int, k: nat, c: nat)
    requires limit > 0 && step > 0 && start + k * step < upTo
    ensures k / (limit + 1) < |Chunks(start, upTo, limit, step)|
    ensures c < |Chunks(start, upTo, limit, step)| ==>
      (Within(start + k * step, Chunks(start, upTo, limit, step)[c]) <==> c == k / (limit + 1))
  {
    var q, m := k / (limit + 1), k % (limit + 1);
    var stride := Stride(limit, step);
    StrideIsLonger(limit, step);
    Decompose(k, limit, step);
    Scale(0, m, step);
    Scale(m, limit, step);
    Scale(0, k, step);
    ChunkCount(start, upTo, limit, step);
    BelowStrides(q, upTo - start, stride);
    if c < |Chunks(start, upTo, limit, step)| {
      ChunkAt(start, upTo, limit, step, c);
      if c < q {
        Scale(c + 1, q, stride);
        Shift(c + 1, stride);
      } else if c > q {
        Scale(q + 1, c, stride);
        Shift(q + 1, stride);
      }
    }
  }

  lemma Decompose(k: nat, limit: int, step: int)
    requires limit > 0 && step > 0
    ensures k * step == (k / (limit + 1)) * Stride(limit, step) + (k % (limit + 1)) * step
  {
    var q, m := k / (limit + 1), k % (limit + 1);
    assert k == q * (limit + 1) + m;
    Distribute(q, limit + 1, m, step);
  }

  lemma Distribute(q: int, n: int, m: int, step: int)
    ensures (q * n + m) * step == q * (n * step) + m * step
  {
  }

  /** A stride begun before the end is counted. */
  lemma BelowStrides(q: nat, span: int, stride: int)
    requires stride > 0 && q * stride < span
    ensures q < Strides(span, stride)
  {
    var n := Strides(span, stride);
    Quotient(span + stride - 1, stride, n);
    if n <= q {
      Scale(n, q, stride);
    }
  }

  /** The last chunk reaches the end of the range exactly when the end is not in the last step of a stride. */
  lemma LastChunkReachesEnd(start: int, upTo: int, limit: int, step: int)
    requires limit > 0 && step > 0 && start < upTo
    ensures |Chunks(start, upTo, limit, step)| > 0 && Stride(limit, step) > 0
    ensures var chunks := Chunks(start, upTo, limit, step);
            chunks[|chunks| - 1].end == upTo <==> (upTo - start - 1) % Stride(limit, step) < limit * step
  {
    StrideIsLonger(limit, step);
    ChunkCount(start, upTo, limit, step);
    var stride := Stride(limit, step);
    OneStrideLess(upTo - start, stride);
    var n := Strides(upTo - start, stride);
    ChunkAt(start, upTo, limit, step, n - 1);
    Quotient(upTo - start + stride - 1, stride, n);
    Shift(n, stride);
    RemainderIs(upTo - start - 1, stride, n - 1);
  }

  lemma RemainderIs(a: int, b: int, q: int)
    requires b > 0 && q * b <= a < q * b + b
    ensures a % b == a - q * b
  {
    QuotientIs(a, b, q);
  }

  /** One-minute candles, two a chunk, over three minutes: the only chunk stops at minute two. */
  lemma EndCanBeMissed()
    ensures Chunks(0, 180_000_000, 2, 60_000_000) == [Chunk(0, 120_000_000)]
  {
    assert Chunks(180_000_000, 180_000_000, 2, 60_000_000) == [];
  }
}
