/** Byte counters and their sampler (`src/metrics.rs`), with rates as reals. */
module Metrics {
  const U64_MAX: nat := 0xFFFF_FFFF_FFFF_FFFF

  type u64 = n: int | 0 <= n <= U64_MAX

  function SaturatingAdd(a: u64, b: u64): u64 { if a + b > U64_MAX then U64_MAX else a + b }

  function SaturatingSub(a: u64, b: u64): u64 { if a < b then 0 else a - b }

  // ---------------------------------------------------------------------------------------------
  // One counter and any number of threads adding to it
  // ---------------------------------------------------------------------------------------------

  type ThreadId = nat

  /** `fetch_update` loads the counter, then compares and exchanges until nobody came between; a
      weak exchange may also fail for no reason. */
  datatype Step =
    | Begin(thread: ThreadId, bytes: u64)
    | Exchange(thread: ThreadId, spurious: bool)

  datatype Adding = Adding(seen: u64, bytes: u64)

  /** The counter, the additions under way, and (recorded only) the finished ones. */
  datatype Counter = Counter(value: u64, adding: map<ThreadId, Adding>, finished: seq<u64>)

  predicate Enabled(c: Counter, step: Step) {
    match step
    case Begin(thread, _) => thread !in c.adding
    case Exchange(thread, _) => thread in c.adding
  }

  function Take(c: Counter, step: Step): Counter
    requires Enabled(c, step)
  {
    match step
    case Begin(thread, bytes) => c.(adding := c.adding[thread := Adding(c.value, bytes)])
    case Exchange(thread, spurious) =>
      var a := c.adding[thread];
      if a.seen == c.value && !spurious then
        Counter(SaturatingAdd(a.seen, a.bytes), c.adding - {thread}, c.finished + [a.bytes])
      else c.(adding := c.adding[thread := a.(seen := c.value)])
  }

  ghost predicate IsRun(c: Counter, steps: seq<Step>)
    decreases |steps|
  {
    steps == [] || (Enabled(c, steps[0]) && IsRun(Take(c, steps[0]), steps[1..]))
  }

  ghost function After(c: Counter, steps: seq<Step>): Counter
    requires IsRun(c, steps)
    decreases |steps|
  {
    if steps == [] then c else After(Take(c, steps[0]), steps[1..])
  }

  function Sum(bytes: seq<u64>): nat {
    if bytes == [] then 0 else Sum(bytes[..|bytes| - 1]) + bytes[|bytes| - 1]
  }

  function Capped(n: nat): u64 { if n > U64_MAX then U64_MAX else n }

  /** The cap is the largest unsigned 64-bit number. */
  lemma CappedSpelled(n: nat)
    ensures Capped(n) == if n <= 18446744073709551615 then n else 18446744073709551615
  {
  }

  /** The bytes of the additions begun in a run. */
  function Begun(steps: seq<Step>): nat {
    if steps == [] then 0
    else (if steps[0].Begin? then steps[0].bytes else 0) + Begun(steps[1..])
  }

  /** The bytes of the additions under way. */
  ghost function UnderWay(adding: map<ThreadId, Adding>): nat {
    if adding == map[] then 0
    else
      var t :| t in adding;
      adding[t].bytes + UnderWay(adding - {t})
  }

  /** Which addition is counted first does not matter. */
  lemma {:induction false} UnderWayWithout(adding: map<ThreadId, Adding>, thread: ThreadId)
    requires thread in adding
    ensures UnderWay(adding) == adding[thread].bytes + UnderWay(adding - {thread})
    decreases |adding|
  {
    var t :| t in adding && UnderWay(adding) == adding[t].bytes + UnderWay(adding - {t});
    if t != thread {
      UnderWayWithout(adding - {t}, thread);
      UnderWayWithout(adding - {thread}, t);
      assert adding - {t} - {thread} == adding - {thread} - {t};
    }
  }

  lemma UnderWayWith(adding: map<ThreadId, Adding>, thread: ThreadId, a: Adding)
    requires thread in adding ==> adding[thread].bytes == a.bytes
    ensures UnderWay(adding[thread := a]) == UnderWay(adding) + if thread in adding then 0 else a.bytes
  {
    UnderWayWithout(adding[thread := a], thread);
    assert adding[thread := a] - {thread} == adding - {thread};
    if thread in adding {
      UnderWayWithout(adding, thread);
    } else {
      assert adding - {thread} == adding;
    }
  }

  /** What is finished and what is under way. */
  ghost function Accounted(c: Counter): nat { Sum(c.finished) + UnderWay(c.adding) }

  lemma TakeAccounts(c: Counter, step: Step)
    requires Enabled(c, step)
    ensures Accounted(Take(c, step)) == Accounted(c) + if step.Begin? then step.bytes else 0
  {
    match step
    case Begin(thread, bytes) => UnderWayWith(c.adding, thread, Adding(c.value, bytes));
    case Exchange(thread, spurious) =>
      var a := c.adding[thread];
      if a.seen == c.value && !spurious {
        UnderWayWithout(c.adding, thread);
        assert (c.finished + [a.bytes])[..|c.finished|] == c.finished;
      } else {
        UnderWayWith(c.adding, thread, a.(seen := c.value));
      }
  }

  /** Every addition begun is finished or under way. */
  lemma {:induction false} EveryAdditionAccounted(c: Counter, steps: seq<Step>)
    requires IsRun(c, steps)
    ensures Accounted(After(c, steps)) == Accounted(c) + Begun(steps)
    decreases |steps|
  {
    if steps != [] {
      TakeAccounts(c, steps[0]);
      EveryAdditionAccounted(Take(c, steps[0]), steps[1..]);
    }
  }

  /** The counter is the start value and the finished additions, capped once, and never goes down. */
  lemma {:induction false} FinishedIsCounted(start: u64, c: Counter, steps: seq<Step>)
    requires c.value == Capped(start + Sum(c.finished)) && IsRun(c, steps)
    ensures After(c, steps).value == Capped(start + Sum(After(c, steps).finished))
    ensures c.value <= After(c, steps).value
    decreases |steps|
  {
    if steps != [] {
      var next := Take(c, steps[0]);
      match steps[0] {
        case Begin(_, _) =>
        case Exchange(thread, spurious) =>
          var bytes := c.adding[thread].bytes;
          assert (c.finished + [bytes])[..|c.finished|] == c.finished;
      }
      FinishedIsCounted(start, next, steps[1..]);
    }
  }

  /** However loads and exchanges of any threads interleave, no addition is lost or counted twice:
      the counter is the start value and all bytes begun but those under way, capped once; with none
      under way, all bytes begun. */
  lemma NoLostUpdate(start: u64, steps: seq<Step>)
    requires IsRun(Counter(start, map[], []), steps)
    ensures var c := After(Counter(start, map[], []), steps);
            && UnderWay(c.adding) <= Begun(steps)
            && c.value == Capped(start + Begun(steps) - UnderWay(c.adding))
            && (c.adding == map[] ==> c.value == Capped(start + Begun(steps)))
            && start <= c.value
  {
    FinishedIsCounted(start, Counter(start, map[], []), steps);
    EveryAdditionAccounted(Counter(start, map[], []), steps);
  }

  // ---------------------------------------------------------------------------------------------
  // A route's two counters
  // ---------------------------------------------------------------------------------------------

  datatype ByteTotals = ByteTotals(uploaded: u64, downloaded: u64)

  class RouteMetrics {
    var uploaded: u64
    var downloaded: u64
    /** Every addition so far. */
    ghost var uploads: seq<u64>
    ghost var downloads: seq<u64>

    ghost predicate Valid()
      reads this
    {
      uploaded == Capped(Sum(uploads)) && downloaded == Capped(Sum(downloads))
    }

    constructor ()
      ensures Valid() && uploads == [] && downloads == []
    {
      uploaded, downloaded, uploads, downloads := 0, 0, [], [];
    }

    method RecordUpload(bytes: u64)
      requires Valid()
      modifies this`uploaded, this`uploads
      ensures Valid() && uploads == old(uploads) + [bytes]
      ensures old(uploaded) <= uploaded
    {
      uploaded := SaturatingAdd(uploaded, bytes);
      assert (uploads + [bytes])[..|uploads|] == uploads;
      uploads := uploads + [bytes];
    }

    method RecordDownload(bytes: u64)
      requires Valid()
      modifies this`downloaded, this`downloads
      ensures Valid() && downloads == old(downloads) + [bytes]
      ensures old(downloaded) <= downloaded
    {
      downloaded := SaturatingAdd(downloaded, bytes);
      assert (downloads + [bytes])[..|downloads|] == downloads;
      downloads := downloads + [bytes];
    }

    function Totals(): ByteTotals
      reads this
    {
      ByteTotals(uploaded, downloaded)
    }
  }

  // ---------------------------------------------------------------------------------------------
  // Sampling
  // ---------------------------------------------------------------------------------------------

  /** Nanoseconds. */
  type Instant = nat

  datatype Sample = Sample(at: Instant, totals: ByteTotals)

  datatype Direction = Up | Down

  function Bytes(totals: ByteTotals, d: Direction): u64 {
    match d case Up => totals.uploaded case Down => totals.downloaded
  }

  /** `saturating_duration_since`, in seconds. */
  function Elapsed(from: Instant, to: Instant): (r: real)
    ensures r >= 0.0
    ensures r > 0.0 <==> from < to
  {
    if to <= from then 0.0 else (to - from) as real / 1000000000.0
  }

  function Rate(delta: u64, elapsedSeconds: real): real {
    if elapsedSeconds > 0.0 then delta as real / elapsedSeconds else 0.0
  }

  datatype MetricsSnapshot = MetricsSnapshot(uploaded: u64, downloaded: u64, uploadRate: real, downloadRate: real)

  /** What sampling `now` shows after the sample `last`. */
  function Shown(last: Sample, now: Sample): MetricsSnapshot {
    var elapsed := Elapsed(last.at, now.at);
    MetricsSnapshot(
      now.totals.uploaded, now.totals.downloaded,
      Rate(SaturatingSub(now.totals.uploaded, last.totals.uploaded), elapsed),
      Rate(SaturatingSub(now.totals.downloaded, last.totals.downloaded), elapsed))
  }

  /** `rate` is the bytes from `before` to `after` per second of the nanoseconds from `from` to `to`;
      zero if no time has passed, and if the bytes went down. */
  predicate IsRate(rate: real, before: u64, after: u64, from: Instant, to: Instant) {
    if to <= from then rate == 0.0
    else rate * (to - from) as real == (if after < before then 0 else after - before) as real * 1000000000.0
  }

  lemma RateIsRate(before: u64, after: u64, from: Instant, to: Instant)
    ensures IsRate(Rate(SaturatingSub(after, before), Elapsed(from, to)), before, after, from, to)
  {
    if from < to {
      var delta, nanos := SaturatingSub(after, before) as real, (to - from) as real;
      var seconds := Elapsed(from, to);
      assert seconds * 1000000000.0 == nanos;
      assert delta / seconds * seconds == delta;
      RateTimesNanos(delta / seconds, seconds, delta, nanos);
    }
  }

  lemma RateTimesNanos(rate: real, seconds: real, delta: real, nanos: real)
    requires rate * seconds == delta && nanos == seconds * 1000000000.0
    ensures rate * nanos == delta * 1000000000.0
  {
    assert rate * (seconds * 1000000000.0) == (rate * seconds) * 1000000000.0;
  }

  /** What a sample shows: the totals themselves, and bytes per second since the last sample. */
  lemma ShownMeaning(last: Sample, now: Sample)
    ensures var r := Shown(last, now);
            && r.uploaded == now.totals.uploaded && r.downloaded == now.totals.downloaded
            && IsRate(r.uploadRate, last.totals.uploaded, now.totals.uploaded, last.at, now.at)
            && IsRate(r.downloadRate, last.totals.downloaded, now.totals.downloaded, last.at, now.at)
  {
    RateIsRate(last.totals.uploaded, now.totals.uploaded, last.at, now.at);
    RateIsRate(last.totals.downloaded, now.totals.downloaded, last.at, now.at);
  }

  function RateOf(snapshot: MetricsSnapshot, d: Direction): real {
    match d case Up => snapshot.uploadRate case Down => snapshot.downloadRate
  }

  class MetricsSampler {
    var sampledAt: Instant
    var totals: ByteTotals
    /** The baseline and every sample since. */
    ghost var samples: seq<Sample>
    /** What the samples showed. */
    ghost var shown: seq<MetricsSnapshot>

    ghost predicate Valid()
      reads this
    {
      && samples != [] && samples[|samples| - 1] == Sample(sampledAt, totals)
      && |shown| + 1 == |samples|
      && forall i :: 0 <= i < |shown| ==> shown[i] == Shown(samples[i], samples[i + 1])
    }

    constructor At(metrics: RouteMetrics, now: Instant)
      ensures Valid() && samples == [Sample(now, metrics.Totals())]
    {
      sampledAt, totals := now, metrics.Totals();
      samples, shown := [Sample(now, metrics.Totals())], [];
    }

    method SampleAt(metrics: RouteMetrics, now: Instant) returns (r: MetricsSnapshot)
      requires Valid()
      modifies this
      ensures Valid()
      ensures samples == old(samples) + [Sample(now, metrics.Totals())] && shown == old(shown) + [r]
      ensures sampledAt == now && totals == ByteTotals(metrics.uploaded, metrics.downloaded)
      ensures r.uploaded == metrics.uploaded && r.downloaded == metrics.downloaded
      ensures IsRate(r.uploadRate, old(totals.uploaded), metrics.uploaded, old(sampledAt), now)
      ensures IsRate(r.downloadRate, old(totals.downloaded), metrics.downloaded, old(sampledAt), now)
    {
      ShownMeaning(Sample(sampledAt, totals), Sample(now, metrics.Totals()));
      hide IsRate, Rate;
      var current := metrics.Totals();
      var elapsedSeconds := Elapsed(sampledAt, now);
      var uploadedDelta := SaturatingSub(current.uploaded, totals.uploaded);
      var downloadedDelta := SaturatingSub(current.downloaded, totals.downloaded);
      sampledAt := now;
      totals := current;
      r := MetricsSnapshot(
        current.uploaded, current.downloaded,
        Rate(uploadedDelta, elapsedSeconds), Rate(downloadedDelta, elapsedSeconds));
      samples := samples + [Sample(now, current)];
      shown := shown + [r];
    }
  }

  // ---------------------------------------------------------------------------------------------
  // Conservation
  // ---------------------------------------------------------------------------------------------

  function Delta(samples: seq<Sample>, i: nat, d: Direction): int
    requires 0 < i < |samples|
  {
    Bytes(samples[i].totals, d) - Bytes(samples[i - 1].totals, d)
  }

  /** Totals never go down between samples. */
  predicate Growing(samples: seq<Sample>, d: Direction) {
    forall i :: 0 < i < |samples| ==> Delta(samples, i, d) >= 0
  }

  /** Rate times elapsed time of one sample. */
  function Contribution(last: Sample, now: Sample, d: Direction): real {
    RateOf(Shown(last, now), d) * Elapsed(last.at, now.at)
  }

  /** Rate times elapsed time, summed over the samples after the first. */
  function Estimated(samples: seq<Sample>, d: Direction): real
    requires samples != []
  {
    var n := |samples| - 1;
    if n == 0 then 0.0 else Estimated(samples[..n], d) + Contribution(samples[n - 1], samples[n], d)
  }

  /** Bytes recorded up to a sample at which no time had passed. */
  function Missed(samples: seq<Sample>, d: Direction): int
    requires samples != []
  {
    var n := |samples| - 1;
    if n == 0 then 0
    else Missed(samples[..n], d) + if samples[n - 1].at < samples[n].at then 0 else Delta(samples, n, d)
  }

  function Recorded(samples: seq<Sample>, d: Direction): int
    requires samples != []
  {
    Bytes(samples[|samples| - 1].totals, d) - Bytes(samples[0].totals, d)
  }

  lemma RateTimesElapsed(delta: u64, elapsed: real)
    requires elapsed > 0.0
    ensures Rate(delta, elapsed) * elapsed == delta as real
  {}

  lemma OneContribution(last: Sample, now: Sample, d: Direction)
    requires Bytes(last.totals, d) <= Bytes(now.totals, d)
    ensures Contribution(last, now, d) ==
            (if last.at < now.at then Bytes(now.totals, d) - Bytes(last.totals, d) else 0) as real
  {
    var delta := SaturatingSub(Bytes(now.totals, d), Bytes(last.totals, d));
    var rate := RateOf(Shown(last, now), d);
    assert rate == Rate(delta, Elapsed(last.at, now.at)) by {
      match d
      case Up =>
      case Down =>
    }
    if last.at < now.at {
      RateTimesElapsed(delta, Elapsed(last.at, now.at));
    } else {
      assert Elapsed(last.at, now.at) == 0.0;
      assert rate * 0.0 == 0.0;
    }
  }

  lemma GrowingBefore(samples: seq<Sample>, n: nat, d: Direction)
    requires Growing(samples, d) && n <= |samples|
    ensures Growing(samples[..n], d)
  {
    assert forall i :: 0 < i < n ==> Delta(samples[..n], i, d) == Delta(samples, i, d);
  }

  /** The rates account for every byte but the missed ones. */
  lemma {:induction false} Conservation(samples: seq<Sample>, d: Direction)
    requires samples != [] && Growing(samples, d)
    ensures Estimated(samples, d) == (Recorded(samples, d) - Missed(samples, d)) as real
    decreases |samples|
  {
    var n := |samples| - 1;
    if n > 0 {
      GrowingBefore(samples, n, d);
      Conservation(samples[..n], d);
      assert Delta(samples, n, d) >= 0;
      OneContribution(samples[n - 1], samples[n], d);
    }
  }

  /** Bytes went unseen at sample `i`. */
  predicate Misses(samples: seq<Sample>, i: nat, d: Direction)
    requires 0 < i < |samples|
  {
    samples[i - 1].at >= samples[i].at && Delta(samples, i, d) != 0
  }

  lemma {:induction false} NothingMissed(samples: seq<Sample>, d: Direction)
    requires samples != [] && Growing(samples, d)
    ensures Missed(samples, d) >= 0
    ensures Missed(samples, d) == 0 <==> forall i :: 0 < i < |samples| ==> !Misses(samples, i, d)
    decreases |samples|
  {
    var n := |samples| - 1;
    if n > 0 {
      var before := samples[..n];
      GrowingBefore(samples, n, d);
      NothingMissed(before, d);
      assert Delta(samples, n, d) >= 0;
      forall i | 0 < i < n ensures Misses(before, i, d) == Misses(samples, i, d) {}
      if Missed(samples, d) == 0 {
        forall i | 0 < i < |samples| ensures !Misses(samples, i, d) {
          assert i < n ==> !Misses(before, i, d);
        }
      } else if Missed(before, d) == 0 {
        assert Misses(samples, n, d);
      } else {
        var i :| 0 < i < n && Misses(before, i, d);
        assert Misses(samples, i, d);
      }
    }
  }

  /** The sum of rate times elapsed time is the final total less the baseline if and only if no
      bytes were recorded up to a sample at which no time had passed. */
  lemma ConservedExactly(samples: seq<Sample>, d: Direction)
    requires samples != [] && Growing(samples, d)
    ensures Estimated(samples, d) == Recorded(samples, d) as real
            <==> forall i :: 0 < i < |samples| ==> !Misses(samples, i, d)
  {
    Conservation(samples, d);
    NothingMissed(samples, d);
    var recorded, missed := Recorded(samples, d), Missed(samples, d);
    assert (recorded - missed) as real == recorded as real <==> missed == 0;
  }

  // ---------------------------------------------------------------------------------------------
  // The samples of one route
  // ---------------------------------------------------------------------------------------------

  datatype Event = Upload(bytes: u64) | Download(bytes: u64) | Tick(at: Instant)

  /** The sampler has seen no more than the counters hold, of samples that never fall. */
  ghost predicate Follows(samples: seq<Sample>, totals: ByteTotals, d: Direction) {
    && samples != [] && Growing(samples, d)
    && Bytes(samples[|samples| - 1].totals, d) <= Bytes(totals, d)
  }

  lemma OneMoreSample(samples: seq<Sample>, at: Instant, totals: ByteTotals, d: Direction)
    requires Follows(samples, totals, d)
    ensures Follows(samples + [Sample(at, totals)], totals, d)
  {
    var more := samples + [Sample(at, totals)];
    assert forall i :: 0 < i < |samples| ==> Delta(more, i, d) == Delta(samples, i, d);
  }

  /** Whatever is recorded between its samples, and whenever they are taken, the samples a sampler
      takes of one route never fall, so the rates it shows account for the bytes as stated above. */
  method Observe(metrics: RouteMetrics, sampler: MetricsSampler, events: seq<Event>)
    requires metrics.Valid() && sampler.Valid()
    requires Follows(sampler.samples, metrics.Totals(), Up) && Follows(sampler.samples, metrics.Totals(), Down)
    modifies metrics, sampler
    ensures metrics.Valid() && sampler.Valid()
    ensures forall d :: Follows(sampler.samples, metrics.Totals(), d)
    ensures forall d :: Estimated(sampler.samples, d) == (Recorded(sampler.samples, d) - Missed(sampler.samples, d)) as real
  {
    for i := 0 to |events|
      invariant metrics.Valid() && sampler.Valid()
      invariant Follows(sampler.samples, metrics.Totals(), Up) && Follows(sampler.samples, metrics.Totals(), Down)
    {
      match events[i]
      case Upload(bytes) => metrics.RecordUpload(bytes);
      case Download(bytes) => metrics.RecordDownload(bytes);
      case Tick(at) =>
        OneMoreSample(sampler.samples, at, metrics.Totals(), Up);
        OneMoreSample(sampler.samples, at, metrics.Totals(), Down);
        var _ := sampler.SampleAt(metrics, at);
    }
    forall d ensures Follows(sampler.samples, metrics.Totals(), d) {
      match d case Up => case Down =>
    }
    forall d
      ensures Estimated(sampler.samples, d) == (Recorded(sampler.samples, d) - Missed(sampler.samples, d)) as real
    {
      Conservation(sampler.samples, d);
    }
  }

  // ---------------------------------------------------------------------------------------------
  // Samples loaded while additions are under way
  // ---------------------------------------------------------------------------------------------

  lemma {:induction false} RunSplits(c: Counter, steps: seq<Step>, k: nat)
    requires IsRun(c, steps) && k <= |steps|
    ensures IsRun(c, steps[..k]) && IsRun(After(c, steps[..k]), steps[k..])
    ensures After(After(c, steps[..k]), steps[k..]) == After(c, steps)
    decreases k
  {
    if k == 0 {
      assert steps[..0] == [] && steps[0..] == steps;
    } else {
      RunSplits(Take(c, steps[0]), steps[1..], k - 1);
      assert steps[..k][1..] == steps[1..][..k - 1] && steps[1..][k - 1..] == steps[k..];
    }
  }

  /** What a load after the first `k` steps of a run sees. */
  ghost function Loaded(start: u64, steps: seq<Step>, k: nat): u64
    requires IsRun(Counter(start, map[], []), steps) && k <= |steps|
  {
    RunSplits(Counter(start, map[], []), steps, k);
    After(Counter(start, map[], []), steps[..k]).value
  }

  lemma LoadsGrow(start: u64, steps: seq<Step>, i: nat, j: nat)
    requires IsRun(Counter(start, map[], []), steps) && i <= j <= |steps|
    ensures Loaded(start, steps, i) <= Loaded(start, steps, j)
  {
    var c := Counter(start, map[], []);
    RunSplits(c, steps, j);
    RunSplits(c, steps[..j], i);
    assert steps[..j][..i] == steps[..i];
    FinishedIsCounted(start, c, steps[..i]);
    FinishedIsCounted(start, After(c, steps[..i]), steps[..j][i..]);
  }

  /** One counter of the samples was loaded at these points of a run. */
  ghost predicate LoadedAt(samples: seq<Sample>, d: Direction, start: u64, steps: seq<Step>, points: seq<nat>)
    requires IsRun(Counter(start, map[], []), steps)
  {
    && |points| == |samples|
    && (forall n :: 0 <= n < |points| ==>
          points[n] <= |steps| && Bytes(samples[n].totals, d) == Loaded(start, steps, points[n]))
    && (forall n :: 0 < n < |points| ==> points[n - 1] <= points[n])
  }

  /** Samples whose counter is loaded at any points of any run of loads and exchanges, each no earlier
      than the one before, never fall, and account for its bytes as stated above. */
  lemma SamplesOfRun(samples: seq<Sample>, d: Direction, start: u64, steps: seq<Step>, points: seq<nat>)
    requires IsRun(Counter(start, map[], []), steps) && LoadedAt(samples, d, start, steps, points)
    ensures Growing(samples, d)
    ensures samples != [] ==>
              && Estimated(samples, d) == (Recorded(samples, d) - Missed(samples, d)) as real
              && (Estimated(samples, d) == Recorded(samples, d) as real
                  <==> forall i :: 0 < i < |samples| ==> !Misses(samples, i, d))
  {
    forall i | 0 < i < |samples| ensures Delta(samples, i, d) >= 0 {
      LoadsGrow(start, steps, points[i - 1], points[i]);
    }
    if samples != [] {
      Conservation(samples, d);
      ConservedExactly(samples, d);
    }
  }
}
