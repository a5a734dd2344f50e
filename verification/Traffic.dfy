/**
 The inbound traffic summary: the window, its buckets, the grouped query and the
 totals. Times are 64-bit and wrap around.
 */
module Traffic {
  import opened Basics

  const MAX_INT64 := 0x7FFF_FFFF_FFFF_FFFF
  const DEFAULT_HOURS := 24
  const MAX_HOURS := 24 * 366
  const DEFAULT_BUCKETS := 48
  const MAX_BUCKETS := 720

  /** 64-bit wrap-around of a result that is out of range by less than a turn. */
  function Wrap(x: int): int {
    if x > MAX_INT64 then x - 0x1_0000_0000_0000_0000
    else if x < -MAX_INT64 - 1 then x + 0x1_0000_0000_0000_0000
    else x
  }

  lemma Quotient(d: int, span: int, q: int)
    requires span > 0 && q == d / span
    ensures q * span <= d < q * span + span
    ensures d >= 0 ==> q >= 0
  {
  }

  lemma Cancel(n: int, a: int, b: int)
    requires n > 0 && a * n < b * n
    ensures a < b
  {
  }

  lemma RoundUpBelow(length: int, n: int)
    requires 0 < length && 0 < n
    ensures length + n - 1 < (length + 1) * n && 0 * n == 0
  {
    assert length * (n - 1) >= 0;
    assert (length + 1) * n == length + n + length * (n - 1);
  }

  lemma CeilingCovers(length: int, n: int)
    requires 0 < length && 0 < n
    ensures 0 < (length + n - 1) / n <= length && length <= n * ((length + n - 1) / n)
  {
    var q := (length + n - 1) / n;
    Quotient(length + n - 1, n, q);
    RoundUpBelow(length, n);
    Cancel(n, q, length + 1);
    Cancel(n, 0, q);
  }

  datatype Window = Window(hours: int, count: nat, start: int, end: int, span: int)

  /** What the caller asked for, with `now` for a missing end time. */
  function NewWindow(hours: int, count: int, endTime: int, now: int): (w: Window)
    ensures 0 < w.count && 0 < w.span
  {
    var h := Min(if hours <= 0 then DEFAULT_HOURS else hours, MAX_HOURS);
    var n := Min(if count <= 0 then DEFAULT_BUCKETS else count, MAX_BUCKETS);
    var end := if endTime <= 0 then now else endTime;
    var start := Max(end - h * 3600, 0);
    var length := Max(end - start, 1);
    CeilingCovers(length, n);
    Window(h, n, start, end, (length + n - 1) / n)
  }

  datatype Bucket = Bucket(start: int, end: int, download: int, upload: int)

  function BucketFrom(w: Window, offset: int): Bucket {
    var start := Min(Wrap(w.start + Wrap(offset)), w.end);
    Bucket(start, Min(Wrap(start + w.span), w.end), 0, 0)
  }

  function BucketAt(w: Window, i: nat): Bucket { BucketFrom(w, i * w.span) }

  method NewBuckets(w: Window) returns (buckets: array<Bucket>)
    ensures fresh(buckets) && buckets.Length == w.count
    ensures forall i :: 0 <= i < w.count ==> buckets[i] == BucketAt(w, i)
  {
    buckets := new Bucket[w.count](_ => Bucket(0, 0, 0, 0));
    for i := 0 to w.count
      invariant forall j :: 0 <= j < i ==> buckets[j] == BucketAt(w, j)
    {
      var bucketStart := Wrap(w.start + Wrap(i * w.span));
      if bucketStart > w.end {
        bucketStart := w.end;
      }
      var bucketEnd := Wrap(bucketStart + w.span);
      if bucketEnd > w.end {
        bucketEnd := w.end;
      }
      buckets[i] := Bucket(bucketStart, bucketEnd, 0, 0);
    }
  }

  // ---- tiling ----

  /** The buckets cover the window from its start to its end without gap or
      overlap. */
  ghost predicate Tiles(w: Window) {
    && w.count > 0
    && BucketAt(w, 0).start == w.start
    && BucketAt(w, w.count - 1).end == w.end
    && (forall i :: 0 <= i < w.count - 1 ==> BucketAt(w, i).end == BucketAt(w, i + 1).start)
    && (forall i :: 0 <= i < w.count ==> w.start <= BucketAt(w, i).start <= BucketAt(w, i).end <= w.end)
  }

  /** The computation of the last bucket stays within 64 bits. */
  predicate InRange(w: Window) {
    var last := w.start + (w.count - 1) * w.span;
    last <= MAX_INT64 && Min(last, w.end) + w.span <= MAX_INT64
  }

  /** The shape every window has. */
  predicate Shaped(w: Window) {
    && 0 < w.count <= MAX_BUCKETS && 0 < w.span <= MAX_HOURS * 3600 && 0 <= w.start <= MAX_INT64 && w.end <= MAX_INT64
    && (w.end >= 0 ==> w.start <= w.end <= w.start + w.count * w.span)
    && (w.end < 0 ==> w.start == 0)
  }

  lemma WindowShaped(hours: int, count: int, endTime: int, now: int)
    requires endTime <= MAX_INT64 && now <= MAX_INT64
    ensures Shaped(NewWindow(hours, count, endTime, now))
  {
    var w := NewWindow(hours, count, endTime, now);
    var length := Max(w.end - w.start, 1);
    CeilingCovers(length, w.count);
  }

  lemma LaterStart(w: Window, i: nat, j: nat)
    requires Shaped(w) && i <= j
    ensures 0 <= i * w.span <= j * w.span
  {
    assert (j - i) * w.span >= 0;
  }

  lemma LastOffset(w: Window)
    requires Shaped(w)
    ensures 0 <= (w.count - 1) * w.span <= MAX_BUCKETS * w.span
  {
    LaterStart(w, 0, w.count - 1);
    LaterStart(w, w.count - 1, MAX_BUCKETS);
  }

  lemma OffsetInRange(w: Window, offset: int, last: int)
    requires Shaped(w) && w.end >= 0 && 0 <= offset <= last
    requires w.start + last <= MAX_INT64 && Min(w.start + last, w.end) + w.span <= MAX_INT64
    ensures BucketFrom(w, offset).start == Min(w.start + offset, w.end)
    ensures BucketFrom(w, offset).end == Min(w.start + offset + w.span, w.end)
  {
  }

  lemma OffsetOutOfRange(w: Window, last: int)
    requires Shaped(w) && w.end >= 0 && 0 <= last <= MAX_BUCKETS * w.span
    requires !(w.start + last <= MAX_INT64 && Min(w.start + last, w.end) + w.span <= MAX_INT64)
    ensures BucketFrom(w, last).start < 0 || BucketFrom(w, last).end < 0
  {
  }

  lemma BucketInRange(w: Window, i: nat)
    requires Shaped(w) && InRange(w) && w.end >= 0 && i < w.count
    ensures BucketAt(w, i).start == Min(w.start + i * w.span, w.end)
    ensures BucketAt(w, i).end == Min(w.start + (i + 1) * w.span, w.end)
    ensures 0 <= i * w.span && (i + 1) * w.span == i * w.span + w.span
  {
    LaterStart(w, i, w.count - 1);
    OffsetInRange(w, i * w.span, (w.count - 1) * w.span);
  }

  lemma TilesInRange(w: Window)
    requires Shaped(w) && InRange(w) && w.end >= 0
    ensures Tiles(w)
  {
    BucketInRange(w, 0);
    BucketInRange(w, w.count - 1);
    forall i | 0 <= i < w.count - 1 ensures BucketAt(w, i).end == BucketAt(w, i + 1).start {
      BucketInRange(w, i);
      BucketInRange(w, i + 1);
    }
    forall i | 0 <= i < w.count ensures w.start <= BucketAt(w, i).start <= BucketAt(w, i).end <= w.end {
      BucketInRange(w, i);
    }
  }

  lemma NoTilesOutOfRange(w: Window)
    requires Shaped(w) && !(InRange(w) && w.end >= 0)
    ensures !Tiles(w)
  {
    LastOffset(w);
    if w.end >= 0 {
      OffsetOutOfRange(w, (w.count - 1) * w.span);
      assert BucketAt(w, w.count - 1).start < 0 || BucketAt(w, w.count - 1).end < 0;
    }
  }

  /** For every request the buckets tile the window exactly when the end of it
      is not before 1970 and the last bucket is computed within 64 bits. */
  lemma TilesIff(hours: int, count: int, endTime: int, now: int)
    requires endTime <= MAX_INT64 && now <= MAX_INT64
    ensures var w := NewWindow(hours, count, endTime, now);
      Tiles(w) <==> w.end >= 0 && InRange(w)
  {
    var w := NewWindow(hours, count, endTime, now);
    WindowShaped(hours, count, endTime, now);
    if w.end >= 0 && InRange(w) {
      TilesInRange(w);
    } else {
      NoTilesOutOfRange(w);
    }
  }

  /** A window that ends at the last second of the range does not tile. */
  lemma LastSecondDoesNotTile()
    ensures !Tiles(NewWindow(1, 7, MAX_INT64, 0))
  {
    TilesIff(1, 7, MAX_INT64, 0);
  }

  /** The bucket the query puts a sample in. */
  function BucketOf(w: Window, time: int): int
    requires w.span > 0
  {
    var i := (time - w.start) / w.span;
    if i >= w.count then w.count - 1 else i
  }

  lemma IndexBounds(w: Window, time: int, q: int, i: int)
    requires Shaped(w) && w.start <= time <= w.end && 0 <= q && q * w.span <= time - w.start < q * w.span + w.span
    requires i == if q >= w.count then w.count - 1 else q
    ensures 0 <= i < w.count && w.start + i * w.span <= time && (i < w.count - 1 ==> time < w.start + i * w.span + w.span)
  {
    LaterStart(w, i, q);
  }

  lemma BucketOfBounds(w: Window, time: int)
    requires Shaped(w) && w.start <= time <= w.end
    ensures var i := BucketOf(w, time);
      0 <= i < w.count && w.start + i * w.span <= time && (i < w.count - 1 ==> time < w.start + i * w.span + w.span)
  {
    var q := (time - w.start) / w.span;
    Quotient(time - w.start, w.span, q);
    IndexBounds(w, time, q, BucketOf(w, time));
  }

  /** Every sample in the window falls into a bucket whose bounds contain it;
      only a sample at the very end of the window may sit on an end bound. */
  lemma SampleInItsBucket(w: Window, time: int)
    requires Shaped(w) && InRange(w) && w.start <= time <= w.end
    ensures var i := BucketOf(w, time);
      0 <= i < w.count && BucketAt(w, i).start <= time <= BucketAt(w, i).end &&
      (time < w.end ==> time < BucketAt(w, i).end)
  {
    var i := BucketOf(w, time);
    BucketOfBounds(w, time);
    BucketInRange(w, i);
    assert i == w.count - 1 ==> (i + 1) * w.span == w.count * w.span;
  }

  // ---- the grouped query ----

  datatype Sample = Sample(time: int, upload: bool, traffic: int, inbound: bool)

  predicate Counts(w: Window, s: Sample) { s.inbound && w.start <= s.time <= w.end }

  datatype Key = Key(bucket: int, upload: bool)

  function KeyOf(w: Window, s: Sample): Key
    requires w.span > 0
  {
    Key(BucketOf(w, s.time), s.upload)
  }

  /** Traffic of the samples in one direction, and of those in one group. */
  function Direction(w: Window, samples: seq<Sample>, upload: bool): int {
    if samples == [] then 0
    else
      var s := samples[|samples| - 1];
      Direction(w, samples[..|samples| - 1], upload) + if Counts(w, s) && s.upload == upload then s.traffic else 0
  }

  function Group(w: Window, samples: seq<Sample>, k: Key): int
    requires w.span > 0
  {
    if samples == [] then 0
    else
      var s := samples[|samples| - 1];
      Group(w, samples[..|samples| - 1], k) + if Counts(w, s) && KeyOf(w, s) == k then s.traffic else 0
  }

  datatype AggregateRow = AggregateRow(key: Key, traffic: int)

  /** The rows are, in any order, one per group that has samples. */
  ghost predicate Grouped(w: Window, samples: seq<Sample>, rows: seq<AggregateRow>)
    requires w.span > 0
  {
    && (forall i, j :: 0 <= i < j < |rows| ==> rows[i].key != rows[j].key)
    && (forall i :: 0 <= i < |rows| ==> rows[i].traffic == Group(w, samples, rows[i].key))
    && (forall i :: 0 <= i < |rows| ==> HasSample(w, samples, rows[i].key))
    && (forall k :: 0 <= k < |samples| && Counts(w, samples[k]) ==> HasRow(rows, KeyOf(w, samples[k])))
  }

  ghost predicate HasSample(w: Window, samples: seq<Sample>, k: Key)
    requires w.span > 0
  {
    exists n :: 0 <= n < |samples| && Counts(w, samples[n]) && KeyOf(w, samples[n]) == k
  }

  ghost predicate HasRow(rows: seq<AggregateRow>, k: Key) {
    exists i :: 0 <= i < |rows| && rows[i].key == k
  }

  /** Sum over the rows of one direction of their groups. */
  function Groups(w: Window, samples: seq<Sample>, rows: seq<AggregateRow>, upload: bool): int
    requires w.span > 0
  {
    if rows == [] then 0
    else
      var k := rows[|rows| - 1].key;
      Groups(w, samples, rows[..|rows| - 1], upload) + if k.upload == upload then Group(w, samples, k) else 0
  }

  /** One more sample adds its traffic once if its group has a row, else not. */
  lemma {:induction false} GroupsAddSample(w: Window, samples: seq<Sample>, s: Sample, rows: seq<AggregateRow>, upload: bool)
    requires w.span > 0 && forall i, j :: 0 <= i < j < |rows| ==> rows[i].key != rows[j].key
    ensures Groups(w, samples + [s], rows, upload) == Groups(w, samples, rows, upload) +
      if Counts(w, s) && s.upload == upload && HasRow(rows, KeyOf(w, s)) then s.traffic else 0
    decreases |rows|
  {
    if rows != [] {
      var shorter, last := rows[..|rows| - 1], rows[|rows| - 1];
      GroupsAddSample(w, samples, s, shorter, upload);
      assert (samples + [s])[..|samples|] == samples;
      if last.key == KeyOf(w, s) {
        assert !HasRow(shorter, last.key);
        assert rows[|rows| - 1].key == KeyOf(w, s);
      } else if HasRow(rows, KeyOf(w, s)) {
        var i :| 0 <= i < |rows| && rows[i].key == KeyOf(w, s);
        assert shorter[i].key == KeyOf(w, s);
      } else {
        assert forall i :: 0 <= i < |shorter| ==> shorter[i].key == rows[i].key;
      }
    }
  }

  /** If every counted sample has a row, the rows of a direction add up to the
      traffic in that direction. */
  lemma {:induction false} GroupsAddUp(w: Window, samples: seq<Sample>, rows: seq<AggregateRow>, upload: bool)
    requires w.span > 0 && forall i, j :: 0 <= i < j < |rows| ==> rows[i].key != rows[j].key
    requires forall k :: 0 <= k < |samples| && Counts(w, samples[k]) ==> HasRow(rows, KeyOf(w, samples[k]))
    ensures Groups(w, samples, rows, upload) == Direction(w, samples, upload)
    decreases |samples|
  {
    if samples == [] {
      NoSamples(w, rows, upload);
    } else {
      var shorter, s := samples[..|samples| - 1], samples[|samples| - 1];
      GroupsAddUp(w, shorter, rows, upload);
      GroupsAddSample(w, shorter, s, rows, upload);
      assert shorter + [s] == samples;
    }
  }

  lemma {:induction false} NoSamples(w: Window, rows: seq<AggregateRow>, upload: bool)
    requires w.span > 0
    ensures Groups(w, [], rows, upload) == 0
    decreases |rows|
  {
    if rows != [] {
      NoSamples(w, rows[..|rows| - 1], upload);
    }
  }

  // ---- filling the buckets ----

  function Filled(b: Bucket, row: AggregateRow): Bucket {
    if row.key.upload then b.(upload := b.upload + row.traffic) else b.(download := b.download + row.traffic)
  }

  function Fill(buckets: seq<Bucket>, rows: seq<AggregateRow>): (r: seq<Bucket>)
    ensures |r| == |buckets|
    decreases |rows|
  {
    if rows == [] then buckets
    else
      var before, row := Fill(buckets, rows[..|rows| - 1]), rows[|rows| - 1];
      if 0 <= row.key.bucket < |buckets| then before[row.key.bucket := Filled(before[row.key.bucket], row)] else before
  }

  /** What the rows that fall into the buckets carry in one direction. */
  function Carried(count: nat, rows: seq<AggregateRow>, upload: bool): int
    decreases |rows|
  {
    if rows == [] then 0
    else
      var row := rows[|rows| - 1];
      Carried(count, rows[..|rows| - 1], upload) +
      if 0 <= row.key.bucket < count && row.key.upload == upload then row.traffic else 0
  }

  /** Adds the grouped rows to the buckets and to the two totals. */
  method ApplyRows(buckets: array<Bucket>, rows: seq<AggregateRow>) returns (download: int, upload: int)
    modifies buckets
    ensures buckets[..] == Fill(old(buckets[..]), rows)
    ensures download == Carried(buckets.Length, rows, false) && upload == Carried(buckets.Length, rows, true)
  {
    download, upload := 0, 0;
    for n := 0 to |rows|
      invariant buckets[..] == Fill(old(buckets[..]), rows[..n])
      invariant download == Carried(buckets.Length, rows[..n], false) && upload == Carried(buckets.Length, rows[..n], true)
    {
      var row := rows[n];
      assert rows[..n + 1][..n] == rows[..n];
      if 0 <= row.key.bucket < buckets.Length {
        var i := row.key.bucket;
        if row.key.upload {
          buckets[i] := buckets[i].(upload := buckets[i].upload + row.traffic);
          upload := upload + row.traffic;
        } else {
          buckets[i] := buckets[i].(download := buckets[i].download + row.traffic);
          download := download + row.traffic;
        }
      }
    }
    assert rows[..|rows|] == rows;
  }

  function Total(buckets: seq<Bucket>, upload: bool): int {
    if buckets == [] then 0
    else
      Total(buckets[..|buckets| - 1], upload) +
      if upload then buckets[|buckets| - 1].upload else buckets[|buckets| - 1].download
  }

  function In(b: Bucket, upload: bool): int { if upload then b.upload else b.download }

  lemma {:induction false} TotalUpdate(buckets: seq<Bucket>, i: nat, b: Bucket, upload: bool)
    requires i < |buckets|
    ensures Total(buckets[i := b], upload) == Total(buckets, upload) - In(buckets[i], upload) + In(b, upload)
    decreases |buckets|
  {
    var after := buckets[i := b];
    if i < |buckets| - 1 {
      TotalUpdate(buckets[..|buckets| - 1], i, b, upload);
      assert after[..|after| - 1] == buckets[..|buckets| - 1][i := b];
    } else {
      assert after[..|after| - 1] == buckets[..|buckets| - 1];
    }
  }

  lemma {:induction false} FillConserves(buckets: seq<Bucket>, rows: seq<AggregateRow>, upload: bool)
    ensures Total(Fill(buckets, rows), upload) == Total(buckets, upload) + Carried(|buckets|, rows, upload)
    decreases |rows|
  {
    if rows != [] {
      FillConserves(buckets, rows[..|rows| - 1], upload);
      var before, row := Fill(buckets, rows[..|rows| - 1]), rows[|rows| - 1];
      if 0 <= row.key.bucket < |buckets| {
        TotalUpdate(before, row.key.bucket, Filled(before[row.key.bucket], row), upload);
      }
    }
  }

  lemma {:induction false} NothingSkipped(w: Window, samples: seq<Sample>, rows: seq<AggregateRow>, upload: bool)
    requires w.span > 0
    requires forall i :: 0 <= i < |rows| ==> 0 <= rows[i].key.bucket < w.count && rows[i].traffic == Group(w, samples, rows[i].key)
    ensures Carried(w.count, rows, upload) == Groups(w, samples, rows, upload)
    decreases |rows|
  {
    if rows != [] {
      NothingSkipped(w, samples, rows[..|rows| - 1], upload);
    }
  }

  lemma {:induction false} EmptyTotal(w: Window, n: nat, upload: bool)
    ensures Total(seq(n, i requires 0 <= i => BucketAt(w, i)), upload) == 0
    decreases n
  {
    if n > 0 {
      EmptyTotal(w, n - 1, upload);
      var all := seq(n, i requires 0 <= i => BucketAt(w, i));
      assert all[..n - 1] == seq(n - 1, i requires 0 <= i => BucketAt(w, i));
    }
  }

  /** In each direction the buckets add up to the reported total and to the
      traffic of the inbound samples in the window, for every window. */
  lemma SummaryConserves(hours: int, count: int, endTime: int, now: int, samples: seq<Sample>, rows: seq<AggregateRow>, upload: bool)
    requires endTime <= MAX_INT64 && now <= MAX_INT64
    requires Grouped(NewWindow(hours, count, endTime, now), samples, rows)
    ensures var w := NewWindow(hours, count, endTime, now);
      var buckets := Fill(seq(w.count, i requires 0 <= i => BucketAt(w, i)), rows);
      Total(buckets, upload) == Carried(w.count, rows, upload) == Direction(w, samples, upload)
  {
    var w := NewWindow(hours, count, endTime, now);
    WindowShaped(hours, count, endTime, now);
    forall i | 0 <= i < |rows| ensures 0 <= rows[i].key.bucket < w.count {
      assert HasSample(w, samples, rows[i].key);
      var k :| 0 <= k < |samples| && Counts(w, samples[k]) && KeyOf(w, samples[k]) == rows[i].key;
      BucketOfBounds(w, samples[k].time);
    }
    EmptyTotal(w, w.count, upload);
    FillConserves(seq(w.count, i requires 0 <= i => BucketAt(w, i)), rows, upload);
    NothingSkipped(w, samples, rows, upload);
    GroupsAddUp(w, samples, rows, upload);
  }

  // ---- what a request asks for ----

  /** For every request: the window ends at the time asked for, or now; it is as
      many hours long, 24 if none are asked for and at most 366 days, but does not
      begin before 1970; and its buckets, 48 if none are asked for and at most 720,
      are no longer than it takes to cover it. */
  lemma WindowAsRequested(hours: int, count: int, endTime: int, now: int)
    ensures var w := NewWindow(hours, count, endTime, now);
      && w.end == (if endTime > 0 then endTime else now)
      && w.hours == (if hours < 1 then 24 else if hours > 8784 then 8784 else hours)
      && w.count == (if count < 1 then 48 else if count > 720 then 720 else count)
      && (w.end >= w.hours * 3600 ==> w.end - w.start == w.hours * 3600)
      && (w.end < w.hours * 3600 ==> w.start == 0)
      && (w.start < w.end ==> w.count * (w.span - 1) < w.end - w.start <= w.count * w.span)
  {
    var w := NewWindow(hours, count, endTime, now);
    if w.start < w.end {
      CeilingCovers(w.end - w.start, w.count);
      CeilingIsLeast(w.end - w.start, w.count);
    }
  }

  lemma CeilingIsLeast(length: int, n: int)
    requires 0 < length && 0 < n
    ensures n * ((length + n - 1) / n - 1) < length
  {
    var q := (length + n - 1) / n;
    Quotient(length + n - 1, n, q);
    assert n * (q - 1) == q * n - n;
  }

  /** One inbound sample counts with its traffic in its direction exactly if its
      time is in the window. */
  lemma {:induction false} OneSampleCounts(w: Window, s: Sample, upload: bool)
    ensures Direction(w, [s], upload) ==
      if s.inbound && w.start <= s.time && s.time <= w.end && s.upload == upload then s.traffic else 0
  {
    assert [s][..0] == [];
  }

  lemma {:induction false} DirectionAdds(w: Window, a: seq<Sample>, b: seq<Sample>, upload: bool)
    ensures Direction(w, a + b, upload) == Direction(w, a, upload) + Direction(w, b, upload)
    decreases |b|
  {
    if b == [] {
      assert a + b == a;
    } else {
      DirectionAdds(w, a, b[..|b| - 1], upload);
      assert (a + b)[..|a + b| - 1] == a + b[..|b| - 1];
    }
  }

  /** A row adds its traffic to one side of its own bucket and to nothing else. */
  lemma {:induction false} OneRowFills(buckets: seq<Bucket>, rows: seq<AggregateRow>, i: nat)
    requires rows != [] && i < |buckets|
    ensures var before, row := Fill(buckets, rows[..|rows| - 1])[i], rows[|rows| - 1];
      var mine := row.key.bucket == i;
      Fill(buckets, rows)[i] ==
      Bucket(before.start, before.end,
             before.download + (if mine && !row.key.upload then row.traffic else 0),
             before.upload + (if mine && row.key.upload then row.traffic else 0))
  {
  }
}
