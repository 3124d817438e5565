/** `VideoSplitter`: the subtitle list it accumulates, the two ways it cuts the timeline into
    parts, the subtitle list it writes for one part, and the bookkeeping of a split by time.
    Times are integer milliseconds; ffmpeg and ffprobe are parameters. */
module VideoSplitting {
  import opened Base
  import opened PyStr
  import opened Captions
  import opened Splitter
  import opened Arith

  // ---------------------------------------------------------------------------
  // split_by_duration

  /** The windows `[start, end)` the loop of `split_by_duration` produces from `start` up to
      `total`: each one ends `d` later or at `total`, whichever comes first. The loop ends when
      `d` is positive or when it is not entered at all; otherwise it runs forever. */
  function Windows(start: int, total: int, d: int): (w: seq<(int, int)>)
    requires d > 0 || start >= total
    decreases total - start
  {
    if start >= total then []
    else
      var e := if start + d < total then start + d else total;
      [(start, e)] + Windows(e, total, d)
  }

  /** There is no window exactly when the start is already at or past the total; otherwise the
      first window opens at the start and the last one closes at the total. */
  lemma {:induction false} WindowsEnds(start: int, total: int, d: int)
    requires d > 0 || start >= total
    ensures var w := Windows(start, total, d);
      (w == [] <==> start >= total)
      && (w != [] ==> w[0].0 == start && w[|w| - 1].1 == total)
    decreases total - start
  {
    if start < total {
      var e := if start + d < total then start + d else total;
      WindowsEnds(e, total, d);
    }
  }

  /** Each window is non-empty and at most `d` long, and only the last may be shorter. */
  lemma {:induction false} WindowsLengths(start: int, total: int, d: int)
    requires d > 0 || start >= total
    ensures var w := Windows(start, total, d);
      forall i :: 0 <= i < |w| ==>
        w[i].0 < w[i].1 <= w[i].0 + d && (i < |w| - 1 ==> w[i].1 == w[i].0 + d)
    decreases total - start
  {
    if start < total {
      var e := if start + d < total then start + d else total;
      WindowsLengths(e, total, d);
      WindowsEnds(e, total, d);
    }
  }

  /** Each window opens where the one before it closed. */
  lemma {:induction false} WindowsContiguous(start: int, total: int, d: int)
    requires d > 0 || start >= total
    ensures var w := Windows(start, total, d);
      forall i :: 0 <= i < |w| - 1 ==> w[i].1 == w[i + 1].0
    decreases total - start
  {
    if start < total {
      var e := if start + d < total then start + d else total;
      WindowsContiguous(e, total, d);
      WindowsEnds(e, total, d);
    }
  }

  /** There are `ceil((total - start) / d)` windows. */
  lemma {:induction false} WindowsCount(start: int, total: int, d: int)
    requires d > 0 || start >= total
    ensures |Windows(start, total, d)| == if start >= total then 0 else (total - start + d - 1) / d
    decreases total - start
  {
    if start < total {
      var e := if start + d < total then start + d else total;
      WindowsCount(e, total, d);
      if start + d < total {
        CeilStep(total - start - d, d);
      } else {
        CeilOne(total - start, d);
      }
    }
  }

  lemma CeilStep(r: int, d: int)
    requires r > 0 && d > 0
    ensures (r + d + d - 1) / d == (r + d - 1) / d + 1
  {
    DivPlus(r + d - 1, d);
  }

  lemma CeilOne(r: int, d: int)
    requires 0 < r <= d
    ensures (r + d - 1) / d == 1
  {
  }

  // ---------------------------------------------------------------------------
  // Subtitle times

  /** Every segment carries two well-formed stamps, as the reader guarantees. */
  predicate AllStamped(segs: seq<Segment>) {
    forall i :: 0 <= i < |segs| ==> Stamped(segs[i])
  }

  /** `time_to_seconds(subtitle.start_time)`, which `ParseStamp` shows is defined. */
  function StartMs(seg: Segment): nat
    requires Stamped(seg)
  {
    StampMs(seg.startTime)
  }

  /** `time_to_seconds(subtitle.end_time)` */
  function EndMs(seg: Segment): nat
    requires Stamped(seg)
  {
    StampMs(seg.endTime)
  }

  // ---------------------------------------------------------------------------
  // split_by_segments

  /** The first and last subtitle of each part of `split_by_segments` over `n` subtitles:
      `range(i, n, k)` gives the first, and the last is `k - 1` further or the last subtitle. */
  function Ranges(n: int, k: int, i: int): (r: seq<(int, int)>)
    requires k > 0 && i >= 0
    ensures forall j :: 0 <= j < |r| ==> i <= r[j].0 <= r[j].1 < n
    decreases n - i
  {
    if i >= n then [] else [(i, if i + k - 1 < n - 1 then i + k - 1 else n - 1)] + Ranges(n, k, i + k)
  }

  /** There are `ceil((n - i) / k)` parts. */
  lemma {:induction false} RangesCount(n: int, k: int, i: int)
    requires k > 0 && i >= 0
    ensures |Ranges(n, k, i)| == if i >= n then 0 else (n - i + k - 1) / k
    decreases n - i
  {
    if i < n {
      RangesCount(n, k, i + k);
      if i + k < n {
        CeilStep(n - i - k, k);
      } else {
        CeilOne(n - i, k);
      }
    }
  }

  /** The parts tile the subtitles from `i` to the last one: the first opens at `i`, the last
      closes at `n - 1`, each opens right after the one before it closed, and each holds `k`
      subtitles except possibly the last, which holds at most `k`. */
  lemma {:induction false} RangesTile(n: int, k: int, i: int)
    requires k > 0 && i >= 0
    ensures var r := Ranges(n, k, i);
      (r == [] <==> i >= n)
      && (r != [] ==> r[0].0 == i && r[|r| - 1].1 == n - 1)
      && (forall j :: 0 <= j < |r| - 1 ==> r[j + 1].0 == r[j].1 + 1)
      && (forall j :: 0 <= j < |r| ==> r[j].1 - r[j].0 < k)
      && (forall j :: 0 <= j < |r| - 1 ==> r[j].1 - r[j].0 == k - 1)
    decreases n - i
  {
    if i < n {
      RangesTile(n, k, i + k);
    }
  }

  /** Every subtitle from `i` on lies in exactly one part. */
  lemma RangesCover(n: int, k: int, i: int, x: int)
    requires k > 0 && 0 <= i <= x < n
    ensures Covers(Ranges(n, k, i), x)
    ensures var r := Ranges(n, k, i);
      forall j1, j2 :: (0 <= j1 < |r| && 0 <= j2 < |r| && r[j1].0 <= x <= r[j1].1
        && r[j2].0 <= x <= r[j2].1) ==> j1 == j2
  {
    RangesCoverExists(n, k, i, x);
    RangesOrdered(n, k, i);
  }

  lemma {:induction false} RangesCoverExists(n: int, k: int, i: int, x: int)
    requires k > 0 && 0 <= i <= x < n
    ensures Covers(Ranges(n, k, i), x)
    decreases n - i
  {
    var r := Ranges(n, k, i);
    var e := if i + k - 1 < n - 1 then i + k - 1 else n - 1;
    var rest := Ranges(n, k, i + k);
    assert r == [(i, e)] + rest;
    if x <= e {
      Witness(r, 0, x);
    } else {
      RangesCoverExists(n, k, i + k, x);
      var j :| 0 <= j < |rest| && rest[j].0 <= x <= rest[j].1;
      assert r[j + 1] == rest[j];
      Witness(r, j + 1, x);
    }
  }

  /** Subtitle `x` lies in one of the ranges. */
  predicate Covers(r: seq<(int, int)>, x: int) {
    exists j :: 0 <= j < |r| && r[j].0 <= x <= r[j].1
  }

  lemma Witness(r: seq<(int, int)>, j: int, x: int)
    requires 0 <= j < |r| && r[j].0 <= x <= r[j].1
    ensures Covers(r, x)
  {
  }

  /** Later parts lie entirely after earlier ones. */
  lemma RangesOrdered(n: int, k: int, i: int)
    requires k > 0 && i >= 0
    ensures var r := Ranges(n, k, i);
      forall j1, j2 :: 0 <= j1 < j2 < |r| ==> r[j1].1 < r[j2].0
  {
    var r := Ranges(n, k, i);
    RangesTile(n, k, i);
    forall j1, j2 | 0 <= j1 < j2 < |r| ensures r[j1].1 < r[j2].0 {
      Rising(r, j1, j2);
    }
  }

  lemma {:induction false} Rising(r: seq<(int, int)>, j1: int, j2: int)
    requires 0 <= j1 < j2 < |r|
    requires forall j :: 0 <= j < |r| - 1 ==> r[j + 1].0 == r[j].1 + 1
    requires forall j :: 0 <= j < |r| ==> r[j].0 <= r[j].1
    ensures r[j1].1 < r[j2].0
    decreases j2 - j1
  {
    if j2 > j1 + 1 {
      Rising(r, j1 + 1, j2);
    }
  }

  /** One part of `split_by_segments`: its time span and its first and last subtitle. */
  datatype Batch = Batch(startTime: int, endTime: int, startIdx: int, endIdx: int)

  /** The part over subtitles `r.0` to `r.1`: from the first one's start to the last one's end. */
  function BatchOf(segs: seq<Segment>, r: (int, int)): Batch
    requires AllStamped(segs) && 0 <= r.0 < |segs| && 0 <= r.1 < |segs|
  {
    Batch(StartMs(segs[r.0]), EndMs(segs[r.1]), r.0, r.1)
  }

  /** The parts over a list of index ranges. */
  function BatchesOver(segs: seq<Segment>, rs: seq<(int, int)>): (b: seq<Batch>)
    requires AllStamped(segs)
    requires forall j :: 0 <= j < |rs| ==> 0 <= rs[j].0 < |segs| && 0 <= rs[j].1 < |segs|
    ensures |b| == |rs| && forall j :: 0 <= j < |rs| ==> b[j] == BatchOf(segs, rs[j])
  {
    seq(|rs|, j requires 0 <= j < |rs| => BatchOf(segs, rs[j]))
  }

  lemma BatchesOverCons(segs: seq<Segment>, r: (int, int), rs: seq<(int, int)>)
    requires AllStamped(segs)
    requires 0 <= r.0 < |segs| && 0 <= r.1 < |segs|
    requires forall j :: 0 <= j < |rs| ==> 0 <= rs[j].0 < |segs| && 0 <= rs[j].1 < |segs|
    ensures BatchesOver(segs, [r] + rs) == [BatchOf(segs, r)] + BatchesOver(segs, rs)
  {
  }

  /** What `split_by_segments(k)` returns for a positive `k`. */
  function Batches(segs: seq<Segment>, k: int): seq<Batch>
    requires AllStamped(segs) && k > 0
  {
    BatchesOver(segs, Ranges(|segs|, k, 0))
  }

  // ---------------------------------------------------------------------------
  // create_subtitle_part

  /** The `i`-th subtitle of a part, from its start and end: numbered `i + 1`, shifted back by
      the part's offset, its start clamped at zero and its end kept at least 100 ms after its
      start. */
  function AdjustTimes(start: int, end: int, text: string, i: int, offset: int): Segment {
    var ns := Clamp(start - offset);
    Segment(i + 1, FormatClock(ns), FormatClock(EndAfter(ns, end - offset)), text)
  }

  lemma AdjustTimesIs(start: int, end: int, text: string, i: int, offset: int, ns: int, ne: int)
    requires ns == Clamp(start - offset) && ne == EndAfter(ns, end - offset)
    ensures AdjustTimes(start, end, text, i, offset) == Segment(i + 1, FormatClock(ns), FormatClock(ne), text)
  {
  }

  /** `max(0.0, t)` */
  function Clamp(t: int): nat {
    if t > 0 then t else 0
  }

  /** `max(start + 0.1, end)` */
  function EndAfter(start: nat, end: int): (e: nat)
    ensures e >= start + 100 && e >= end
  {
    if start + 100 >= end then start + 100 else end
  }

  /** The subtitles written for a part, from the parts' start and end times. */
  function AdjustedFrom(starts: seq<int>, ends: seq<int>, part: seq<Segment>, offset: int): (r: seq<Segment>)
    requires |starts| == |part| && |ends| == |part|
    ensures |r| == |part|
    ensures forall i :: 0 <= i < |part| ==> r[i] == AdjustTimes(starts[i], ends[i], part[i].text, i, offset)
  {
    seq(|part|, i requires 0 <= i < |part| => AdjustTimes(starts[i], ends[i], part[i].text, i, offset))
  }

  /** The subtitles written for a part. */
  function Adjusted(part: seq<Segment>, offset: int): (r: seq<Segment>)
    requires AllStamped(part)
    ensures |r| == |part|
  {
    AdjustedFrom(Starts(part), Ends(part), part, offset)
  }

  /** Renumbered, text unchanged; the written start reads back as the shifted start clamped at
      zero, and the written end as the shifted end but at least 100 ms after the start. */
  lemma AdjustRead(start: int, end: int, text: string, i: int, offset: int)
    ensures var r := AdjustTimes(start, end, text, i, offset);
      var ns := Clamp(start - offset);
      r.index == i + 1 && r.text == text
      && ParseClock(r.startTime) == Some(ns)
      && ParseClock(r.endTime) == Some(EndAfter(ns, end - offset))
  {
    var ns := Clamp(start - offset);
    ParseFormat(ns);
    ParseFormat(EndAfter(ns, end - offset));
  }

  /** Below 100 hours after the shift, what a part writes reads back as the adjusted subtitles
      when their captions can be written. */
  lemma AdjustedReadBack(part: seq<Segment>, offset: int)
    requires AllStamped(part)
    requires forall i :: 0 <= i < |part| ==>
      Writable(part[i]) && StartMs(part[i]) - offset < 359999900 && EndMs(part[i]) - offset < 360000000
    ensures ParseSrt(SrtFileText(Adjusted(part, offset))) == (Adjusted(part, offset), true)
  {
    var r := Adjusted(part, offset);
    forall i | 0 <= i < |r| ensures Writable(r[i]) {
      AdjustWritable(StartMs(part[i]), EndMs(part[i]), part[i].text, i, offset);
    }
    ReadBack(r);
  }

  lemma AdjustWritable(start: int, end: int, text: string, i: int, offset: int)
    requires text != [] && (forall l :: l in Split(text, "\n") ==> !AllSpace(l)) && !IsSpace(Last(text))
    requires start - offset < 359999900 && end - offset < 360000000
    ensures Writable(AdjustTimes(start, end, text, i, offset))
  {
    var ns := Clamp(start - offset);
    FormatIsStamp(ns);
    FormatIsStamp(EndAfter(ns, end - offset));
  }

  /** `f"{base_name}_part{part_num:02d}{ext}"` in the output directory. */
  function PartPath(outputDir: string, baseName: string, partNum: int, ext: string): string {
    PathJoin(outputDir, baseName + "_part" + FormatD(partNum, 2) + ext)
  }

  // ---------------------------------------------------------------------------
  // The subtitle range of a part in split_by_time_duration

  /** The start times of the subtitles. */
  function Starts(segs: seq<Segment>): (xs: seq<int>)
    requires AllStamped(segs)
    ensures |xs| == |segs| && forall i :: 0 <= i < |segs| ==> xs[i] == StartMs(segs[i])
  {
    seq(|segs|, i requires 0 <= i < |segs| => StartMs(segs[i]))
  }

  /** The end times of the subtitles. */
  function Ends(segs: seq<Segment>): (xs: seq<int>)
    requires AllStamped(segs)
    ensures |xs| == |segs| && forall i :: 0 <= i < |segs| ==> xs[i] == EndMs(segs[i])
  {
    seq(|segs|, i requires 0 <= i < |segs| => EndMs(segs[i]))
  }

  /** The first position from `i` on holding a time at or after `t`, or 0 when there is none. */
  function FirstFrom(xs: seq<int>, t: int, i: nat): (r: int)
    requires i <= |xs|
    ensures r == 0 || i <= r < |xs|
    decreases |xs| - i
  {
    if i == |xs| then 0 else if xs[i] >= t then i else FirstFrom(xs, t, i + 1)
  }

  /** `FirstFrom` finds the first time at or after `t`, and 0 when every time is earlier. */
  lemma {:induction false} FirstFromMeaning(xs: seq<int>, t: int, i: nat)
    requires i <= |xs|
    ensures var r := FirstFrom(xs, t, i);
      (exists j :: i <= j < |xs| && xs[j] >= t) ==>
        i <= r < |xs| && xs[r] >= t && forall j :: i <= j < r ==> xs[j] < t
    ensures (forall j :: i <= j < |xs| ==> xs[j] < t) ==> FirstFrom(xs, t, i) == 0
    decreases |xs| - i
  {
    if i < |xs| && xs[i] < t {
      FirstFromMeaning(xs, t, i + 1);
    }
  }

  /** The last of the first `m` positions holding a time at or before `t`, or `dflt` when there
      is none. */
  function LastBy(xs: seq<int>, t: int, m: nat, dflt: int): (r: int)
    requires m <= |xs|
    ensures r == dflt || 0 <= r < m
  {
    if m == 0 then dflt
    else if xs[m - 1] <= t then m - 1
    else LastBy(xs, t, m - 1, dflt)
  }

  /** `LastBy` finds the last time at or before `t`, and `dflt` when every time is later. */
  lemma {:induction false} LastByMeaning(xs: seq<int>, t: int, m: nat, dflt: int)
    requires m <= |xs|
    ensures var r := LastBy(xs, t, m, dflt);
      (exists j :: 0 <= j < m && xs[j] <= t) ==>
        0 <= r < m && xs[r] <= t && forall j :: r < j < m ==> xs[j] > t
    ensures (forall j :: 0 <= j < m ==> xs[j] > t) ==> LastBy(xs, t, m, dflt) == dflt
  {
    if m > 0 && xs[m - 1] > t {
      LastByMeaning(xs, t, m - 1, dflt);
    }
  }

  lemma FirstFromStep(xs: seq<int>, t: int, j: nat)
    requires j < |xs|
    ensures FirstFrom(xs, t, j) == if xs[j] >= t then j else FirstFrom(xs, t, j + 1)
  {
  }

  lemma LastByStep(xs: seq<int>, t: int, j: nat, dflt: int)
    requires j < |xs|
    ensures LastBy(xs, t, j + 1, dflt) == if xs[j] <= t then j else LastBy(xs, t, j, dflt)
  {
  }

  /** The first loop of the range selection, over the subtitles' start times: it stops at the
      first one at or after `t`. */
  method FirstStarting(starts: seq<int>, t: int) returns (startIdx: int)
    ensures startIdx == FirstFrom(starts, t, 0)
  {
    startIdx := 0;
    var j := 0;
    while j < |starts|
      invariant 0 <= j <= |starts| && startIdx == 0
      invariant FirstFrom(starts, t, j) == FirstFrom(starts, t, 0)
    {
      FirstFromStep(starts, t, j);
      if starts[j] >= t {
        startIdx := j;
        break;
      }
      j := j + 1;
    }
  }

  /** The second loop of the range selection, over the subtitles' end times: it keeps the last
      one at or before `t`, starting from the last subtitle. */
  method LastEnding(ends: seq<int>, t: int) returns (endIdx: int)
    ensures endIdx == LastBy(ends, t, |ends|, |ends| - 1)
  {
    endIdx := |ends| - 1;
    var j := 0;
    while j < |ends|
      invariant 0 <= j <= |ends|
      invariant endIdx == LastBy(ends, t, j, |ends| - 1)
    {
      LastByStep(ends, t, j, |ends| - 1);
      if ends[j] <= t {
        endIdx := j;
      }
      j := j + 1;
    }
  }

  /** The first and last subtitle of the part spanning `w`. */
  function RangeOf(segs: seq<Segment>, w: (int, int)): (r: (int, int))
    requires AllStamped(segs)
    ensures segs != [] ==> 0 <= r.0 < |segs| && 0 <= r.1 < |segs|
  {
    (FirstFrom(Starts(segs), w.0, 0), LastBy(Ends(segs), w.1, |segs|, |segs| - 1))
  }

  /** The subtitles written for the part spanning `w`, when its range is not empty. */
  function PartOf(segs: seq<Segment>, w: (int, int)): Option<seq<Segment>>
    requires AllStamped(segs)
  {
    var r := RangeOf(segs, w);
    if r.0 <= r.1 then
      SliceStamped(segs, r.0, r.1 + 1);
      Some(Adjusted(segs[r.0..r.1 + 1], w.0))
    else None
  }

  lemma SliceStamped(segs: seq<Segment>, a: int, b: int)
    requires AllStamped(segs) && 0 <= a <= b <= |segs|
    ensures AllStamped(segs[a..b])
  {
    assert forall j :: 0 <= j < b - a ==> segs[a..b][j] == segs[a + j];
  }

  /** The parts that were written, with their numbers counted from `num`. */
  function Numbered<T>(xs: seq<Option<T>>, num: int): seq<(int, T)> {
    if xs == [] then []
    else Entry(xs[0], num) + Numbered(xs[1..], num + 1)
  }

  /** A written part with its number; nothing for a part that was skipped. */
  function Entry<T>(x: Option<T>, num: int): seq<(int, T)> {
    match x
    case Some(p) => [(num, p)]
    case None => []
  }

  lemma {:induction false} NumberedSnoc<T>(xs: seq<Option<T>>, x: Option<T>, num: int)
    ensures Numbered(xs + [x], num) == Numbered(xs, num) + Entry(x, num + |xs|)
    decreases |xs|
  {
    if xs == [] {
      assert ([x])[1..] == [];
      assert Numbered([x], num) == Entry(x, num) + [];
    } else {
      var ys := xs + [x];
      assert ys[0] == xs[0] && ys[1..] == xs[1..] + [x];
      NumberedSnoc(xs[1..], x, num + 1);
      var head, rest := Entry(xs[0], num), Numbered(xs[1..], num + 1);
      assert Numbered(ys, num) == head + (rest + Entry(x, num + |xs|));
      assert Numbered(xs, num) == head + rest;
    }
  }

  /** One more window of the loop: its part, when there is one, goes last with the window's
      number. */
  lemma NumberedStep<T>(xs: seq<Option<T>>, i: nat, done: seq<(int, T)>)
    requires i < |xs| && done == Numbered(xs[..i], 1)
    ensures Numbered(xs[..i + 1], 1) == if xs[i].Some? then done + [(i + 1, xs[i].value)] else done
  {
    TakeSnoc(xs, i);
    NumberedSnoc(xs[..i], xs[i], 1);
    if xs[i].None? {
      assert done + [] == done;
    }
  }

  /** The loop of `split_by_duration` ends: the step is positive, or there is nothing to cut
      (no subtitles, or the last one ends at 0). */
  predicate DurationEnds(segs: seq<Segment>, d: int)
    requires AllStamped(segs)
  {
    d > 0 || segs == [] || EndMs(segs[|segs| - 1]) == 0
  }

  /** `split_by_time_duration` ends: the step is positive, or the run returns before its
      loop (unreadable or aborted subtitles, no length from ffprobe), or the loop has nothing
      to cut (the subtitles, old and new, end at 0, or the length is not positive). */
  predicate TimeSplitEnds(segs: seq<Segment>, srt: Option<Option<string>>, probe: Option<int>, d: int)
    requires AllStamped(segs)
  {
    match srt
    case None => d > 0 || probe.None? || probe.value <= 0
    case Some(None) => true
    case Some(Some(content)) =>
      AppendParsed(segs, content);
      !ParseSrt(content).1 || DurationEnds(segs + ParseSrt(content).0, d)
  }

  /** The windows of `split_by_duration`: none without subtitles, otherwise windows of `d`
      up to the last subtitle's end. */
  function DurationWindows(segs: seq<Segment>, d: int): seq<(int, int)>
    requires AllStamped(segs) && DurationEnds(segs, d)
  {
    if segs == [] then [] else Windows(0, EndMs(segs[|segs| - 1]), d)
  }

  /** What each window writes. */
  function PartsAt(segs: seq<Segment>, ws: seq<(int, int)>): (r: seq<Option<seq<Segment>>>)
    requires AllStamped(segs)
    ensures |r| == |ws|
  {
    seq(|ws|, j requires 0 <= j < |ws| => PartOf(segs, ws[j]))
  }

  /** The subtitle parts written over the windows, numbered from 1. */
  function PartsOf(segs: seq<Segment>, ws: seq<(int, int)>): seq<(int, seq<Segment>)>
    requires AllStamped(segs)
  {
    Numbered(PartsAt(segs, ws), 1)
  }

  // ---------------------------------------------------------------------------
  // Loops shared by the methods

  /** The loop of `split_by_duration`, which `split_by_time_duration` repeats for the length
      ffprobe reports: windows of `d` from 0 up to `total`. */
  method CutWindows(total: int, d: int) returns (points: seq<(int, int)>)
    requires d > 0 || total <= 0
    ensures points == Windows(0, total, d)
  {
    points := [];
    var current := 0;
    while current < total
      invariant d > 0 || current >= total
      invariant points + Windows(current, total, d) == Windows(0, total, d)
      decreases total - current
    {
      var end := if current + d < total then current + d else total;
      AppendAssoc(points, (current, end), Windows(end, total, d));
      points := points + [(current, end)];
      current := end;
    }
    assert points + [] == points;
  }

  lemma AppendAssoc<T>(a: seq<T>, x: T, b: seq<T>)
    ensures a + ([x] + b) == (a + [x]) + b
  {
  }

  /** The number of video parts that were cut. */
  function Successes(oks: seq<bool>): (n: nat)
    ensures n <= |oks|
  {
    if oks == [] then 0 else Successes(oks[..|oks| - 1]) + (if oks[|oks| - 1] then 1 else 0)
  }

  lemma SuccessesSnoc(oks: seq<bool>, b: bool)
    ensures Successes(oks + [b]) == Successes(oks) + if b then 1 else 0
  {
    assert (oks + [b])[..|oks|] == oks;
  }

  /** Every part succeeded exactly when the count of successes is the number of parts. */
  lemma {:induction false} SuccessesAll(oks: seq<bool>)
    ensures Successes(oks) == |oks| <==> forall j :: 0 <= j < |oks| ==> oks[j]
  {
    if oks != [] {
      var n := |oks|;
      SuccessesAll(oks[..n - 1]);
      assert forall j :: 0 <= j < n - 1 ==> oks[..n - 1][j] == oks[j];
    }
  }

  /** Whether ffmpeg wrote the video part of window `j`: from the window's start, as long as
      the window, to `<base>_partNN.mp4` numbered from 1. */
  predicate CutAt(points: seq<(int, int)>, j: int, baseName: string, outputDir: string,
                  cut: (int, int, string) -> bool)
    requires 0 <= j < |points|
  {
    cut(points[j].0, points[j].1 - points[j].0, PartPath(outputDir, baseName, j + 1, ".mp4"))
  }

  /** ffmpeg wrote every video part. */
  predicate AllCut(points: seq<(int, int)>, baseName: string, outputDir: string,
                   cut: (int, int, string) -> bool)
  {
    forall j :: 0 <= j < |points| ==> CutAt(points, j, baseName, outputDir, cut)
  }

  /** Every segment of a Python slice of stamped segments is stamped. */
  lemma SliceAllStamped(segs: seq<Segment>, a: int, b: int)
    requires AllStamped(segs)
    ensures AllStamped(Slice(segs, a, b))
  {
    var i, j := SliceBound(a, |segs|), SliceBound(b, |segs|);
    if i < j {
      SliceStamped(segs, i, j);
    }
  }

  /** Appending what a file yields keeps every subtitle stamped. */
  lemma AppendParsed(segs: seq<Segment>, content: string)
    requires AllStamped(segs)
    ensures AllStamped(segs + ParseSrt(content).0)
  {
    var more := ParseSrt(content).0;
    assert AllStamped(more);
    forall i | 0 <= i < |segs + more| ensures Stamped((segs + more)[i]) {
      if i >= |segs| {
        assert (segs + more)[i] == more[i - |segs|];
      }
    }
  }

  /** Writing one more subtitle appends its block and a blank line. */
  lemma {:induction false} SrtFileTextSnoc(segs: seq<Segment>, seg: Segment)
    ensures SrtFileText(segs + [seg]) == SrtFileText(segs) + (ToSrtFormat(seg) + "\n")
    decreases |segs|
  {
    if segs == [] {
      assert [seg][1..] == [];
      assert SrtFileText([seg]) == ToSrtFormat(seg) + "\n" + SrtFileText([]);
    } else {
      assert (segs + [seg])[1..] == segs[1..] + [seg];
      SrtFileTextSnoc(segs[1..], seg);
    }
  }

  /** The block loop of `parse_srt_file`, given what each block does: the segments kept up to
      the first block that aborts, and whether there was none. */
  method GatherReads(rs: seq<BlockRead>) returns (segs: seq<Segment>, ok: bool)
    ensures (segs, ok) == Gather(rs)
  {
    segs := [];
    var i := 0;
    while i < |rs|
      invariant 0 <= i <= |rs|
      invariant Gather(rs[..i]) == (segs, true)
    {
      GatherSnoc(rs, i);
      match rs[i] {
        case Abort =>
          GatherAborted(rs, i + 1);
          return segs, false;
        case Skip =>
        case Keep(seg) =>
          segs := segs + [seg];
      }
      i := i + 1;
    }
    assert rs[..i] == rs;
    ok := true;
  }

  /** The loop of `create_subtitle_part` that renumbers, shifts and clamps, given the start
      and end times of the part's subtitles. */
  method AdjustPart(starts: seq<int>, ends: seq<int>, part: seq<Segment>, offset: int)
    returns (adjusted: seq<Segment>)
    requires |starts| == |part| && |ends| == |part|
    ensures adjusted == AdjustedFrom(starts, ends, part, offset)
  {
    ghost var want := AdjustedFrom(starts, ends, part, offset);
    adjusted := [];
    for i := 0 to |part|
      invariant adjusted == want[..i]
    {
      var newStart := starts[i] - offset;
      var newEnd := ends[i] - offset;
      newStart := if 0 >= newStart then 0 else newStart;
      newEnd := if newStart + 100 >= newEnd then newStart + 100 else newEnd;
      var seg := Segment(i + 1, FormatClock(newStart), FormatClock(newEnd), part[i].text);
      AdjustTimesIs(starts[i], ends[i], part[i].text, i, offset, newStart, newEnd);
      assert seg == want[i];
      TakeSnoc(want, i);
      adjusted := adjusted + [seg];
    }
    assert want[..|part|] == want;
  }

  /** The write loop of `create_subtitle_part`: each subtitle's block and a blank line. */
  method WriteSrt(segs: seq<Segment>) returns (text: string)
    ensures text == SrtFileText(segs)
  {
    text := "";
    for i := 0 to |segs|
      invariant text == SrtFileText(segs[..i])
    {
      assert segs[..i + 1] == segs[..i] + [segs[i]];
      SrtFileTextSnoc(segs[..i], segs[i]);
      text := text + (ToSrtFormat(segs[i]) + "\n");
    }
    assert segs[..|segs|] == segs;
  }

  // ---------------------------------------------------------------------------
  // VideoSplitter

  class VideoSplitter {
    var subtitles: seq<Segment>
    var maxDurationMinutes: real
    var maxDurationSeconds: real
    var outputDir: string

    /** Every subtitle read carries well-formed stamps, and the limit in seconds is the limit in
        minutes times 60. */
    predicate Valid()
      reads this
    {
      AllStamped(subtitles) && maxDurationSeconds == maxDurationMinutes * 60.0
    }

    /** `max_duration_minutes` defaults to `MAX_DURATION_MINUTES` (20.0) at the caller; a
        missing output directory becomes `output_parts`. */
    constructor (maxDurationMinutes: real, outputDir: Option<string>)
      ensures Valid() && subtitles == []
      ensures this.maxDurationMinutes == maxDurationMinutes
      ensures this.outputDir == if outputDir.Some? then outputDir.value else "output_parts"
    {
      subtitles := [];
      this.maxDurationMinutes := maxDurationMinutes;
      maxDurationSeconds := maxDurationMinutes * 60.0;
      this.outputDir := if outputDir.Some? then outputDir.value else "output_parts";
    }

    /** `parse_srt_file`, given the file's content (`None` when it cannot be read): the
        segments are appended to those already held, and the call fails at the first block
        whose index line is not an integer, keeping what was appended before it. */
    method ParseSrtFile(content: Option<string>) returns (ok: bool)
      requires Valid()
      modifies this
      ensures Valid()
      ensures maxDurationMinutes == old(maxDurationMinutes) && outputDir == old(outputDir)
      ensures content.None? ==> !ok && subtitles == old(subtitles)
      ensures content.Some? ==>
        subtitles == old(subtitles) + ParseSrt(content.value).0 && ok == ParseSrt(content.value).1
    {
      if content.None? {
        return false;
      }
      AppendParsed(subtitles, content.value);
      var segs;
      segs, ok := GatherReads(Reads(SrtBlocks(content.value)));
      assert (segs, ok) == ParseSrt(content.value);
      subtitles := subtitles + segs;
    }

    /** `split_by_duration`: no windows without subtitles; otherwise windows of `d` up to the
        last subtitle's end. */
    method SplitByDuration(d: int) returns (points: seq<(int, int)>)
      requires Valid() && DurationEnds(subtitles, d)
      ensures points == DurationWindows(subtitles, d)
    {
      if subtitles == [] {
        return [];
      }
      var total := EndMs(subtitles[|subtitles| - 1]);
      points := CutWindows(total, d);
    }

    /** `split_by_segments`: no parts without subtitles; `range()` raises ValueError for a
        step of zero and is empty for a negative step; otherwise the parts of `k` subtitles. */
    method SplitBySegments(k: int) returns (r: Outcome<seq<Batch>>)
      requires Valid()
      ensures subtitles == [] ==> r == Returns([])
      ensures subtitles != [] && k == 0 ==> r.Raises?
      ensures subtitles != [] && k < 0 ==> r == Returns([])
      ensures subtitles != [] && k > 0 ==> r == Returns(Batches(subtitles, k))
    {
      if subtitles == [] {
        return Returns([]);
      }
      if k == 0 {
        return Raises("ValueError: range() arg 3 must not be zero");
      }
      if k < 0 {
        return Returns([]);
      }
      var n := |subtitles|;
      var points: seq<Batch> := [];
      var i := 0;
      while i < n
        invariant i >= 0
        invariant points + BatchesOver(subtitles, Ranges(n, k, i)) == Batches(subtitles, k)
        decreases n - i
      {
        var startIdx := i;
        var endIdx := if i + k - 1 < n - 1 then i + k - 1 else n - 1;
        var b := Batch(StartMs(subtitles[startIdx]), EndMs(subtitles[endIdx]), startIdx, endIdx);
        assert Ranges(n, k, i) == [(startIdx, endIdx)] + Ranges(n, k, i + k);
        BatchesOverCons(subtitles, (startIdx, endIdx), Ranges(n, k, i + k));
        AppendAssoc(points, b, BatchesOver(subtitles, Ranges(n, k, i + k)));
        points := points + [b];
        i := i + k;
      }
      assert points + [] == points;
      return Returns(points);
    }

    /** `create_subtitle_part` without the write: the path, the subtitles of the slice
        `[startIdx, endIdx + 1)` adjusted to the part, and the text written. */
    method CreateSubtitlePart(startIdx: int, endIdx: int, partNum: int, outputDir: string,
                              baseName: string, offset: int)
      returns (path: string, adjusted: seq<Segment>, text: string)
      requires Valid()
      ensures AllStamped(Slice(subtitles, startIdx, endIdx + 1))
      ensures adjusted == Adjusted(Slice(subtitles, startIdx, endIdx + 1), offset)
      ensures text == SrtFileText(adjusted)
      ensures path == PartPath(outputDir, baseName, partNum, ".srt")
    {
      var part := Slice(subtitles, startIdx, endIdx + 1);
      SliceAllStamped(subtitles, startIdx, endIdx + 1);
      adjusted := AdjustPart(Starts(part), Ends(part), part, offset);
      path := PartPath(outputDir, baseName, partNum, ".srt");
      text := WriteSrt(adjusted);
    }

    /** `check_duration_needs_splitting`: the duration (0 when the key is absent) is above the
        limit of `max_duration_minutes` minutes. */
    function CheckDurationNeedsSplitting(duration: Option<real>): (r: bool)
      reads this
      requires Valid()
      ensures r <==> (if duration.Some? then duration.value else 0.0) > maxDurationMinutes * 60.0
    {
      (if duration.Some? then duration.value else 0.0) > maxDurationSeconds
    }

    /** The subtitle range of one time part: the first subtitle starting at or after the part's
        start (0 when none does) and the last ending at or before its end (the last subtitle
        when none does). */
    method SelectRange(partStart: int, partEnd: int) returns (startIdx: int, endIdx: int)
      requires Valid()
      ensures (startIdx, endIdx) == RangeOf(subtitles, (partStart, partEnd))
    {
      startIdx := FirstStarting(Starts(subtitles), partStart);
      endIdx := LastEnding(Ends(subtitles), partEnd);
    }

    /** `split_by_time_duration` over what the file system and the tools report: `srt` is
        `None` without a subtitle file, otherwise its content (`None` when unreadable);
        `probe` is the length ffprobe reports; `cut(start, duration, path)` says whether ffmpeg
        wrote a video part. The result holds exactly when every video part was written; the
        windows and the subtitle parts written (numbered from 1) are returned alongside. */
    method SplitByTimeDuration(srt: Option<Option<string>>, probe: Option<int>, d: int,
                               baseName: string, outputDir: string,
                               cut: (int, int, string) -> bool)
      returns (ok: bool, points: seq<(int, int)>, parts: seq<(int, seq<Segment>)>)
      requires Valid() && TimeSplitEnds(subtitles, srt, probe, d)
      modifies this
      ensures Valid()
      ensures srt.None? ==> subtitles == old(subtitles)
      ensures srt.Some? && srt.value.None? ==> !ok && subtitles == old(subtitles)
      ensures srt.Some? && srt.value.Some? ==> subtitles == old(subtitles) + ParseSrt(srt.value.value).0
      ensures srt.Some? && srt.value.Some? && !ParseSrt(srt.value.value).1 ==> !ok
      ensures srt.None? && probe.None? ==> !ok
      ensures srt.Some? && srt.value.Some? && ParseSrt(srt.value.value).1 ==>
        points == DurationWindows(subtitles, d)
        && parts == PartsOf(subtitles, points)
      ensures srt.None? && probe.Some? ==> points == Windows(0, probe.value, d) && parts == []
      ensures (srt.None? && probe.Some?) || (srt.Some? && srt.value.Some? && ParseSrt(srt.value.value).1) ==>
        (ok <==> AllCut(points, baseName, outputDir, cut))
    {
      points, parts := [], [];
      var hasSubtitles := srt.Some?;
      if hasSubtitles {
        var parsed := ParseSrtFile(srt.value);
        if !parsed {
          return false, points, parts;
        }
        points := SplitByDuration(d);
      } else {
        if probe.None? {
          return false, points, parts;
        }
        points := CutWindows(probe.value, d);
      }
      ok, parts := CutParts(points, hasSubtitles, baseName, outputDir, cut);
    }

    /** One window's subtitles in `split_by_time_duration`: the subtitle part written when
        the window's range of subtitles is not empty. */
    method PartFor(startTime: int, endTime: int, partNum: int, outputDir: string, baseName: string)
      returns (part: Option<seq<Segment>>)
      requires Valid()
      ensures part == PartOf(subtitles, (startTime, endTime))
    {
      var startIdx, endIdx := SelectRange(startTime, endTime);
      if startIdx <= endIdx {
        var path, adjusted, text := CreateSubtitlePart(startIdx, endIdx, partNum, outputDir, baseName, startTime);
        return Some(adjusted);
      }
      return None;
    }

    /** The loop of `split_by_time_duration` over the windows: cut each video part, and with
        subtitles write the part's subtitles when its range is not empty. The result holds
        exactly when every video part was written. */
    method CutParts(points: seq<(int, int)>, hasSubtitles: bool, baseName: string, outputDir: string,
                    cut: (int, int, string) -> bool)
      returns (ok: bool, parts: seq<(int, seq<Segment>)>)
      requires Valid()
      ensures parts == if hasSubtitles then PartsOf(subtitles, points) else []
      ensures ok <==> AllCut(points, baseName, outputDir, cut)
    {
      parts := [];
      var successCount := 0;
      ghost var oks: seq<bool> := [];
      ghost var at := PartsAt(subtitles, points);
      for i := 0 to |points|
        invariant |oks| == i && successCount == Successes(oks)
        invariant forall j :: 0 <= j < i ==> oks[j] == CutAt(points, j, baseName, outputDir, cut)
        invariant parts == if hasSubtitles then Numbered(at[..i], 1) else []
      {
        var startTime, endTime := points[i].0, points[i].1;
        var videoSuccess := CutAt(points, i, baseName, outputDir, cut);
        if hasSubtitles {
          var part := PartFor(startTime, endTime, i + 1, outputDir, baseName);
          NumberedStep(at, i, parts);
          if part.Some? {
            parts := parts + [(i + 1, part.value)];
          }
        }
        SuccessesSnoc(oks, videoSuccess);
        if videoSuccess {
          successCount := successCount + 1;
        }
        oks := oks + [videoSuccess];
      }
      TakeAll(at);
      SuccessesAll(oks);
      ok := successCount == |points|;
    }
  }
}
