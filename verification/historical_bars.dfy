/** Historical bars over a range, requested backward one chunk at a time. */
module HistoricalBars {
  import opened Wrappers

  const ONE_DAY := 86400.0

  const MAX_LOOPS := 2000

  datatype BarSetting = Day | Hour | FiveMins | OneMin

  /** A year, a week, or a day, in seconds. */
  function ChunkSeconds(setting: BarSetting): (seconds: real)
    ensures setting.Day? ==> seconds == 31536000.0
    ensures setting.Hour? || setting.FiveMins? ==> seconds == 604800.0
    ensures setting.OneMin? ==> seconds == 86400.0
  {
    match setting
    case Day => 365.0 * ONE_DAY
    case Hour => 7.0 * ONE_DAY
    case FiveMins => 7.0 * ONE_DAY
    case OneMin => ONE_DAY
  }

  datatype Bar = Bar(ts: real, close: real)

  datatype Answer = Bars(bars: seq<Bar>) | RequestFails | ConnectionDrops {
    predicate Good() { Bars? && bars != [] }
  }

  /** The answer to the `k`-th request, for the chunk that ends at the given time. */
  type Source = (nat, real) -> Answer

  datatype Segment = Segment(start: real, end: real)

  /** Why the requests stopped; a dropped connection is raised to the caller instead of returning bars. */
  datatype Stop = ReachedStart | OneChunk | EmptyAnswer | RequestFailed | Dropped | TooManyLoops

  function SegmentStart(start: Option<real>, end: real, chunk: real): real {
    if start.Some? && start.value > end - chunk then start.value else end - chunk
  }

  /** `n` chunks before `end`. */
  function Back(end: real, chunk: real, n: nat): real {
    if n == 0 then end else Back(end, chunk, n - 1) - chunk
  }

  lemma {:induction false} BackIsLinear(end: real, chunk: real, n: nat)
    ensures Back(end, chunk, n) == end - n as real * chunk
  {
    if n > 0 {
      BackIsLinear(end, chunk, n - 1);
      assert n as real * chunk == (n - 1) as real * chunk + chunk;
    }
  }

  lemma {:induction false} BackDecreases(end: real, chunk: real, m: nat, n: nat)
    requires chunk > 0.0 && m <= n
    ensures Back(end, chunk, n) <= Back(end, chunk, m) <= end
    decreases n
  {
    if m < n {
      BackDecreases(end, chunk, m, n - 1);
    } else if n > 0 {
      BackDecreases(end, chunk, n - 1, n - 1);
    }
  }

  function NextEnd(end: real, segments: seq<Segment>): real {
    if segments == [] then end else segments[|segments| - 1].start
  }

  function Collected(source: Source, segments: seq<Segment>): seq<Bar> {
    if segments == [] then []
    else
      var n := |segments| - 1;
      var answer := source(n, segments[n].end);
      Collected(source, segments[..n]) + if answer.Bars? then answer.bars else []
  }

  /** The answers stand one after the other in the order of the requests. */
  lemma {:induction false} CollectedInOrder(source: Source, segments: seq<Segment>, k: nat)
    requires k < |segments|
    ensures var answer := source(k, segments[k].end);
      Collected(source, segments[..k]) + (if answer.Bars? then answer.bars else []) <= Collected(source, segments)
    decreases |segments|
  {
    var n := |segments| - 1;
    if k < n {
      CollectedInOrder(source, segments[..n], k);
      assert segments[..n][..k] == segments[..k];
    }
  }

  /** Segment `k` begins where the one before it ended, and is one chunk long or cut off at the start. */
  ghost predicate Tile(start: Option<real>, end: real, chunk: real, segments: seq<Segment>, k: nat)
    requires k < |segments|
  {
    && segments[k].end == (if k == 0 then end else segments[k - 1].start)
    && segments[k].start == SegmentStart(start, segments[k].end, chunk)
    && (start.Some? ==> start.value < segments[k].end)
  }

  /** The segments run back from `end` without gap or overlap. */
  ghost predicate Tiles(start: Option<real>, end: real, chunk: real, segments: seq<Segment>) {
    forall k :: 0 <= k < |segments| ==> Tile(start, end, chunk, segments, k)
  }

  ghost predicate AllGood(source: Source, segments: seq<Segment>, n: nat)
    requires n <= |segments|
  {
    forall k :: 0 <= k < n ==> source(k, segments[k].end).Good()
  }

  /** Everything a call does, in terms of the answers it got. */
  ghost predicate Fetched(
      start: Option<real>, end: real, chunk: real, source: Source, bars: seq<Bar>, segments: seq<Segment>, stop: Stop)
  {
    var n := |segments|;
    var reached := NextEnd(end, segments);
    && n <= MAX_LOOPS && Tiles(start, end, chunk, segments)
    && (n > 0 ==> AllGood(source, segments, n - 1))
    && bars == (if stop.Dropped? then [] else Collected(source, segments))
    && match stop
       case ReachedStart => start.Some? && reached <= start.value && AllGood(source, segments, n)
       case OneChunk => start.None? && n == 1 && AllGood(source, segments, n)
       case EmptyAnswer => n > 0 && source(n - 1, segments[n - 1].end) == Bars([])
       case RequestFailed => n > 0 && source(n - 1, segments[n - 1].end).RequestFails?
       case Dropped => n > 0 && source(n - 1, segments[n - 1].end).ConnectionDrops?
       case TooManyLoops =>
         start.Some? && start.value < reached && n == MAX_LOOPS && AllGood(source, segments, n)
  }

  lemma {:induction false} OneMoreSegment(
      start: Option<real>, end: real, chunk: real, source: Source, segments: seq<Segment>, last: Segment)
    requires Tiles(start, end, chunk, segments) && AllGood(source, segments, |segments|)
    requires last.end == NextEnd(end, segments) && last.start == SegmentStart(start, last.end, chunk)
    requires start.Some? ==> start.value < last.end
    ensures var more, answer := segments + [last], source(|segments|, last.end);
      && Tiles(start, end, chunk, more) && AllGood(source, more, |segments|)
      && (answer.Good() ==> AllGood(source, more, |more|))
      && Collected(source, more) == Collected(source, segments) + if answer.Bars? then answer.bars else []
  {
    var more := segments + [last];
    assert more[..|segments|] == segments;
    forall k | 0 <= k < |more|
      ensures Tile(start, end, chunk, more, k)
    {
      assert k < |segments| ==> Tile(start, end, chunk, segments, k);
    }
  }

  method GetHistoricalBarsRange(start: Option<real>, end: real, setting: BarSetting, source: Source)
    returns (bars: seq<Bar>, segments: seq<Segment>, stop: Stop)
    ensures Fetched(start, end, ChunkSeconds(setting), source, bars, segments, stop) && |segments| <= 2000
  {
    var chunk := ChunkSeconds(setting);
    bars, segments := [], [];
    var curEnd, loops := end, 0;
    while true
      invariant 0 <= loops == |segments| <= MAX_LOOPS && curEnd == NextEnd(end, segments)
      invariant start.None? ==> loops == 0
      invariant Tiles(start, end, chunk, segments) && AllGood(source, segments, loops)
      invariant bars == Collected(source, segments)
      decreases MAX_LOOPS - loops
    {
      loops := loops + 1;
      if loops > MAX_LOOPS {
        // the same bars either way: this exit only names what the count and the start say
        return bars, segments, if start.Some? && curEnd <= start.value then ReachedStart else TooManyLoops;
      }
      if start.Some? && curEnd <= start.value {
        return bars, segments, ReachedStart;
      }
      var segStart := if start.Some? && start.value > curEnd - chunk then start.value else curEnd - chunk;
      var answer := source(|segments|, curEnd);
      ghost var before := segments;
      segments := segments + [Segment(segStart, curEnd)];
      OneMoreSegment(start, end, chunk, source, before, Segment(segStart, curEnd));
      match answer {
        case ConnectionDrops => return [], segments, Dropped;
        case RequestFails => return bars, segments, RequestFailed;
        case Bars(chunkOut) =>
          if chunkOut == [] {
            return bars, segments, EmptyAnswer;
          }
          bars := bars + chunkOut;
      }
      curEnd := segStart;
      if start.None? {
        return bars, segments, OneChunk;
      }
    }
  }

  /** Segment `k` ends `k` chunks before the range does, and only the last can be cut off at the start. */
  lemma {:induction false} SegmentEnds(start: Option<real>, end: real, chunk: real, segments: seq<Segment>, k: nat)
    requires Tiles(start, end, chunk, segments) && k < |segments|
    ensures segments[k].end == Back(end, chunk, k)
    decreases k
  {
    assert Tile(start, end, chunk, segments, k);
    if k > 0 {
      SegmentEnds(start, end, chunk, segments, k - 1);
      assert Tile(start, end, chunk, segments, k - 1);
    }
  }

  /** Where the requests stand after `n` of them. */
  lemma {:induction false} ReachedEnd(start: Option<real>, end: real, chunk: real, segments: seq<Segment>)
    requires Tiles(start, end, chunk, segments)
    ensures var n := |segments|;
      && NextEnd(end, segments) == (if n == 0 then end else SegmentStart(start, Back(end, chunk, n - 1), chunk))
      && (n > 0 && start.Some? ==> start.value < Back(end, chunk, n - 1))
  {
    if segments != [] {
      SegmentEnds(start, end, chunk, segments, |segments| - 1);
      assert Tile(start, end, chunk, segments, |segments| - 1);
    }
  }

  /** A call that reaches the start has made as many requests as chunks fit into the range, rounded up, and its
      segments cover exactly that range. */
  lemma {:induction false} ReachedStartTiles(
      start: real, end: real, chunk: real, source: Source, bars: seq<Bar>, segments: seq<Segment>)
    requires chunk > 0.0 && Fetched(Some(start), end, chunk, source, bars, segments, ReachedStart)
    ensures var n := |segments|;
      if end <= start then n == 0
      else
        && n > 0 && segments[0].end == end && segments[n - 1].start == start
        && (n - 1) as real * chunk < end - start <= n as real * chunk
  {
    var n := |segments|;
    ReachedEnd(Some(start), end, chunk, segments);
    if n > 0 {
      BackDecreases(end, chunk, 0, n - 1);
      BackIsLinear(end, chunk, n - 1);
      BackIsLinear(end, chunk, n);
      assert Tile(Some(start), end, chunk, segments, 0);
    }
  }

  /** With nothing but good answers, the start is reached if and only if 2000 chunks are enough for the range. */
  lemma {:induction false} ReachesStartIff(
      start: real, end: real, chunk: real, source: Source, bars: seq<Bar>, segments: seq<Segment>, stop: Stop)
    requires chunk > 0.0 && Fetched(Some(start), end, chunk, source, bars, segments, stop)
    requires AllGood(source, segments, |segments|)
    ensures stop.ReachedStart? <==> end - start <= MAX_LOOPS as real * chunk
  {
    var n := |segments|;
    ReachedEnd(Some(start), end, chunk, segments);
    BackDecreases(end, chunk, n, MAX_LOOPS);
    BackIsLinear(end, chunk, MAX_LOOPS);
  }

  /** The source answers a request with exactly the bars of `all` in the chunk that ends at `end`. */
  ghost predicate Window(all: multiset<Bar>, chunk: real, end: real, answer: Answer) {
    answer.Good() && forall b: Bar :: multiset(answer.bars)[b] == if end - chunk <= b.ts < end then all[b] else 0
  }

  ghost predicate AllWindows(all: multiset<Bar>, chunk: real, source: Source, segments: seq<Segment>) {
    forall k :: 0 <= k < |segments| ==> Window(all, chunk, segments[k].end, source(k, segments[k].end))
  }

  lemma {:induction false} CollectedWindows(
      all: multiset<Bar>, start: Option<real>, end: real, chunk: real, source: Source, segments: seq<Segment>, b: Bar)
    requires chunk > 0.0 && Tiles(start, end, chunk, segments) && AllWindows(all, chunk, source, segments)
    ensures multiset(Collected(source, segments))[b]
         == if Back(end, chunk, |segments|) <= b.ts < end then all[b] else 0
    decreases |segments|
  {
    var n := |segments|;
    if n > 0 {
      var earlier := segments[..n - 1];
      forall k | 0 <= k < n - 1
        ensures Tile(start, end, chunk, earlier, k)
      {
        assert Tile(start, end, chunk, segments, k);
      }
      CollectedWindows(all, start, end, chunk, source, earlier, b);
      SegmentEnds(start, end, chunk, segments, n - 1);
      BackDecreases(end, chunk, 0, n - 1);
      assert Window(all, chunk, segments[n - 1].end, source(n - 1, segments[n - 1].end));
    }
  }

  /** When every window is answered exactly and none is empty, each bar of the range comes back exactly as often as
      it exists, and any other bar lies less than one chunk before the start. */
  lemma {:induction false} EveryBarExactlyOnce(
      all: multiset<Bar>, start: real, end: real, chunk: real, source: Source, bars: seq<Bar>, segments: seq<Segment>,
      b: Bar)
    requires chunk > 0.0 && Fetched(Some(start), end, chunk, source, bars, segments, ReachedStart)
    requires AllWindows(all, chunk, source, segments)
    ensures start <= b.ts < end ==> multiset(bars)[b] == all[b]
    ensures b in bars ==> start - chunk < b.ts < end && multiset(bars)[b] == all[b]
  {
    ReachedEnd(Some(start), end, chunk, segments);
    CollectedWindows(all, Some(start), end, chunk, source, segments, b);
    assert b in bars ==> multiset(bars)[b] > 0;
  }
}
