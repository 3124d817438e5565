/** The video splitter's subtitle handling: its own SRT reader (blank lines that may hold
    whitespace between blocks, an integer index line, an arrow with optional spacing, caption
    lines joined by line breaks), the SRT block it writes back, its clock conversions, the two
    ways it cuts a timeline into parts, and the subtitle list of one part. Times are integer
    milliseconds. */
module Splitter {
  import opened Base
  import opened PyStr
  import opened Captions

  /** `SubtitleSegment`: an index, the two clock strings as read, and the caption text. */
  datatype Segment = Segment(index: int, startTime: string, endTime: string, text: string)

  /** `SubtitleSegment.to_srt_format` */
  function ToSrtFormat(seg: Segment): string {
    IntToStr(seg.index) + "\n" + seg.startTime + " --> " + seg.endTime + "\n" + seg.text + "\n"
  }

  // ---------------------------------------------------------------------------
  // re.split(r'\n\s*\n', content)

  /** The position of the last line break in `run`, or -1. */
  function LastBreak(run: string): (k: int)
    ensures -1 <= k < |run| && (k >= 0 ==> run[k] == '\n')
    ensures forall j :: k < j < |run| ==> run[j] != '\n'
  {
    if run == [] then -1
    else if run[|run| - 1] == '\n' then |run| - 1
    else LastBreak(run[..|run| - 1])
  }

  /** The length of a match of `\n\s*\n` at the start of `s`: the greedy whitespace run after
      the first line break gives back characters until it ends just before a line break. */
  function BlankMatch(s: string): (n: Option<nat>)
    ensures n.Some? ==> 2 <= n.value <= |s|
  {
    if s != [] && s[0] == '\n' then
      var k := LastBreak(s[1..1 + WsLen(s[1..])]);
      if k >= 0 then Some(k + 2) else None
    else None
  }

  /** The leftmost position where `\n\s*\n` matches, or -1. */
  function FindBlank(s: string): (k: int)
    ensures -1 <= k < |s|
    ensures k >= 0 ==> BlankMatch(s[k..]).Some?
    decreases |s|
  {
    if s == [] then -1
    else if BlankMatch(s).Some? then 0
    else
      var r := FindBlank(s[1..]);
      if r < 0 then -1 else (assert s[1..][r..] == s[r + 1..]; r + 1)
  }

  /** `re.split(r'\n\s*\n', s)` */
  function SplitBlank(s: string): (parts: seq<string>)
    ensures |parts| >= 1
    decreases |s|
  {
    var k := FindBlank(s);
    if k < 0 then [s] else [s[..k]] + SplitBlank(s[k + BlankMatch(s[k..]).value..])
  }

  // ---------------------------------------------------------------------------
  // parse_srt_file

  /** `re.match(r'(\d{2}:\d{2}:\d{2},\d{3})\s*-->\s*(\d{2}:\d{2}:\d{2},\d{3})', line)`: a
      prefix match; the two captured stamps. */
  function MatchArrow(line: string): (r: Option<(string, string)>)
    ensures r.Some? ==> IsStamp(r.value.0) && IsStamp(r.value.1)
  {
    if |line| >= 12 && IsStamp(line[..12]) then
      var a := 12 + WsLen(line[12..]);
      if a + 3 <= |line| && line[a..a + 3] == "-->" then
        var b := a + 3 + WsLen(line[a + 3..]);
        if b + 12 <= |line| && IsStamp(line[b..b + 12]) then Some((line[..12], line[b..b + 12]))
        else None
      else None
    else None
  }

  /** Both clock strings of the segment are well-formed stamps. */
  predicate Stamped(seg: Segment) {
    IsStamp(seg.startTime) && IsStamp(seg.endTime)
  }

  /** What one block does to the reading: `int()` of the index line fails and aborts it, or
      the block yields a segment, or it is passed over. */
  datatype BlockRead = Abort | Skip | Keep(seg: Segment)

  /** One block: stripped, split into lines; with at least three lines the index line is read
      by `int()` before the timing line is matched; the caption is the remaining lines. */
  function ReadBlock(block: string): (r: BlockRead)
    ensures r.Keep? ==> Stamped(r.seg)
  {
    var lines := Split(Strip(block), "\n");
    if |lines| >= 3 then
      match ParseInt(lines[0])
      case None => Abort
      case Some(index) =>
        match MatchArrow(lines[1])
        case Some(times) => Keep(Segment(index, times.0, times.1, Join(lines[2..], "\n")))
        case None => Skip
    else Skip
  }

  /** The reading after one more block: unchanged once aborted, otherwise the block's effect. */
  function Step(before: (seq<Segment>, bool), read: BlockRead): (seq<Segment>, bool) {
    if !before.1 then before
    else
      match read
      case Abort => (before.0, false)
      case Skip => before
      case Keep(seg) => (before.0 + [seg], true)
  }

  /** The segments the blocks yield in order, and whether the reading got through every block:
      it stops at the first block that aborts, keeping the segments before it. */
  function Gather(rs: seq<BlockRead>): (r: (seq<Segment>, bool))
    ensures |r.0| <= |rs|
    ensures (forall i :: 0 <= i < |rs| && rs[i].Keep? ==> Stamped(rs[i].seg))
      ==> forall k :: 0 <= k < |r.0| ==> Stamped(r.0[k])
  {
    if rs == [] then ([], true)
    else Step(Gather(rs[..|rs| - 1]), rs[|rs| - 1])
  }

  /** What each block does to the reading. */
  function Reads(blocks: seq<string>): (rs: seq<BlockRead>)
    ensures |rs| == |blocks|
    ensures forall i :: 0 <= i < |blocks| ==> rs[i] == ReadBlock(blocks[i])
  {
    seq(|blocks|, i requires 0 <= i < |blocks| => ReadBlock(blocks[i]))
  }

  /** The blocks of a file's content: `re.split(r'\n\s*\n', content.strip())`. */
  function SrtBlocks(content: string): seq<string> {
    SplitBlank(Strip(content))
  }

  /** The segments a file's content yields, and whether the reading got through it. */
  function ParseSrt(content: string): (r: (seq<Segment>, bool))
    ensures forall k :: 0 <= k < |r.0| ==> Stamped(r.0[k])
  {
    var rs := Reads(SrtBlocks(content));
    ReadsStamped(SrtBlocks(content));
    Gather(rs)
  }

  lemma ReadsStamped(blocks: seq<string>)
    ensures var rs := Reads(blocks);
      forall i :: 0 <= i < |rs| && rs[i].Keep? ==> Stamped(rs[i].seg)
  {
    var rs := Reads(blocks);
    forall i | 0 <= i < |rs| && rs[i].Keep? ensures Stamped(rs[i].seg) {
      var r := ReadBlock(blocks[i]);
      assert rs[i] == r;
    }
  }

  lemma GatherSnoc(rs: seq<BlockRead>, i: nat)
    requires i < |rs|
    ensures Gather(rs[..i + 1]) == Step(Gather(rs[..i]), rs[i])
  {
    assert rs[..i + 1][..i] == rs[..i];
  }

  /** Once a block aborts the reading, the blocks after it change nothing. */
  lemma {:induction false} GatherAborted(rs: seq<BlockRead>, i: nat)
    requires i <= |rs| && !Gather(rs[..i]).1
    ensures Gather(rs) == Gather(rs[..i])
    decreases |rs| - i
  {
    if i < |rs| {
      GatherSnoc(rs, i);
      GatherAborted(rs, i + 1);
    } else {
      assert rs[..i] == rs;
    }
  }

  /** The reading gets through every block exactly when no block's index line fails `int()`. */
  lemma {:induction false} GatherComplete(rs: seq<BlockRead>)
    ensures Gather(rs).1 <==> forall j :: 0 <= j < |rs| ==> !rs[j].Abort?
  {
    if rs != [] {
      var n := |rs|;
      var init := rs[..n - 1];
      GatherComplete(init);
      assert forall j :: 0 <= j < n - 1 ==> init[j] == rs[j];
    }
  }

  /** At the first block whose index line fails `int()` the reading stops with the segments of
      the blocks before it. */
  lemma GatherStopsAt(rs: seq<BlockRead>, j: nat)
    requires j < |rs| && rs[j].Abort?
    requires forall i :: 0 <= i < j ==> !rs[i].Abort?
    ensures Gather(rs) == (Gather(rs[..j]).0, false)
  {
    assert forall i :: 0 <= i < j ==> rs[..j][i] == rs[i];
    GatherComplete(rs[..j]);
    GatherSnoc(rs, j);
    GatherAborted(rs, j + 1);
  }

  // ---------------------------------------------------------------------------
  // Reading back what create_subtitle_part writes

  /** A segment whose block reads back unchanged: well-formed stamps, and a caption whose every
      line holds a visible character and which ends in one. */
  predicate Writable(seg: Segment) {
    Stamped(seg) && seg.text != []
    && (forall l :: l in Split(seg.text, "\n") ==> !AllSpace(l))
    && !IsSpace(Last(seg.text))
  }

  /** A segment's SRT block without the line breaks that close it. */
  function BlockOf(seg: Segment): string {
    IntToStr(seg.index) + "\n" + (seg.startTime + " --> " + seg.endTime) + "\n" + seg.text
  }

  /** The lines of a segment's block: index, timing, caption lines. */
  function BlockLines(seg: Segment): seq<string> {
    [IntToStr(seg.index), seg.startTime + " --> " + seg.endTime] + Split(seg.text, "\n")
  }

  function BlocksOf(segs: seq<Segment>): (bs: seq<string>)
    ensures |bs| == |segs|
    ensures forall i :: 0 <= i < |segs| ==> bs[i] == BlockOf(segs[i])
  {
    seq(|segs|, i requires 0 <= i < |segs| => BlockOf(segs[i]))
  }

  /** The text `create_subtitle_part` writes: each segment's SRT block and one more line break. */
  function SrtFileText(segs: seq<Segment>): string {
    if segs == [] then "" else ToSrtFormat(segs[0]) + "\n" + SrtFileText(segs[1..])
  }

  /** `str()` of an integer holds digits and a minus sign only. */
  lemma IntToStrFree(n: int)
    ensures '\n' !in IntToStr(n) && !AllSpace(IntToStr(n))
  {
    var s := IntToStr(n);
    assert !IsSpace(s[0]);
    if n < 0 {
      assert forall i :: 1 <= i < |s| ==> s[i] == NatToStr(-n)[i - 1];
    }
    assert forall i :: 0 <= i < |s| ==> s[i] == '-' || IsDigit(s[i]);
  }

  /** Every line of a writable segment's block is free of line breaks and holds a visible
      character. */
  lemma BlockLinesFit(seg: Segment)
    requires Writable(seg)
    ensures forall i :: 0 <= i < |BlockLines(seg)| ==> '\n' !in BlockLines(seg)[i] && !AllSpace(BlockLines(seg)[i])
  {
    var lines := BlockLines(seg);
    IntToStrFree(seg.index);
    TimingLineFree(seg.startTime, seg.endTime);
    StampFree(seg.startTime);
    assert lines[1][0] == seg.startTime[0];
    var caption := Split(seg.text, "\n");
    forall i | 0 <= i < |caption| ensures '\n' !in caption[i] && !AllSpace(caption[i]) {
      SplitPiecesFree(seg.text, '\n', i);
      assert caption[i] in caption;
    }
    assert forall i :: 2 <= i < |lines| ==> lines[i] == caption[i - 2];
  }

  lemma BlockLinesJoin(seg: Segment)
    ensures Join(BlockLines(seg), "\n") == BlockOf(seg)
  {
    var caption := Split(seg.text, "\n");
    var timing := seg.startTime + " --> " + seg.endTime;
    JoinSplit(seg.text, "\n");
    JoinCons(timing, caption, "\n");
    JoinCons(IntToStr(seg.index), [timing] + caption, "\n");
    assert BlockLines(seg) == [IntToStr(seg.index)] + ([timing] + caption);
  }

  /** `\n\s*\n` matches at none of the first `n` positions of `s`. */
  predicate Quiet(s: string, n: nat) {
    forall p :: 0 <= p < n && p <= |s| ==> BlankMatch(s[p..]).None?
  }

  lemma QuietCons(c: char, u: string, n: nat)
    requires Quiet(u, n) && BlankMatch([c] + u).None?
    ensures Quiet([c] + u, n + 1)
  {
    forall p | 1 <= p < n + 1 && p <= |[c] + u| ensures BlankMatch(([c] + u)[p..]).None? {
      assert ([c] + u)[p..] == u[p - 1..];
    }
    assert ([c] + u)[0..] == [c] + u;
  }

  /** Characters other than line breaks in front keep the positions after them quiet. */
  lemma {:induction false} QuietFront(a: string, u: string, n: nat)
    requires '\n' !in a && Quiet(u, n)
    ensures Quiet(a + u, |a| + n)
  {
    if a == [] {
      assert a + u == u;
    } else {
      assert '\n' !in a[1..] by {
        forall j | 0 <= j < |a[1..]| ensures a[1..][j] != '\n' {
          assert a[1..][j] == a[j + 1] && a[j + 1] in a;
        }
      }
      QuietFront(a[1..], u, n);
      assert a[0] in a;
      assert a + u == [a[0]] + (a[1..] + u);
      QuietCons(a[0], a[1..] + u, |a[1..]| + n);
    }
  }

  /** Lines without a break, each holding a visible character. */
  predicate VisibleLines(lines: seq<string>) {
    forall i :: 0 <= i < |lines| ==> '\n' !in lines[i] && !AllSpace(lines[i])
  }

  lemma VisibleTail(lines: seq<string>)
    requires |lines| >= 1 && VisibleLines(lines)
    ensures VisibleLines(lines[1..]) && '\n' !in lines[0] && !AllSpace(lines[0])
  {
    assert forall i :: 0 <= i < |lines| - 1 ==> lines[1..][i] == lines[i + 1];
  }

  /** In lines that each hold a visible character, `\n\s*\n` matches nowhere before their end,
      whatever follows them. */
  lemma {:induction false} QuietLines(lines: seq<string>, t: string)
    requires |lines| >= 1 && VisibleLines(lines)
    ensures Quiet(Join(lines, "\n") + t, |Join(lines, "\n")|)
  {
    VisibleTail(lines);
    var first := lines[0];
    if |lines| == 1 {
      QuietFront(first, t, 0);
    } else {
      var rest := Join(lines[1..], "\n");
      QuietLines(lines[1..], t);
      NextLineVisible(lines[1..], t);
      QuietCons('\n', rest + t, |rest|);
      QuietFront(first, "\n" + (rest + t), |rest| + 1);
      JoinTail(lines, t);
    }
  }

  lemma JoinTail(lines: seq<string>, t: string)
    requires |lines| >= 2
    ensures var rest := Join(lines[1..], "\n");
      Join(lines, "\n") + t == lines[0] + ("\n" + (rest + t))
      && |Join(lines, "\n")| == |lines[0]| + (|rest| + 1)
  {
    JoinCons(lines[0], lines[1..], "\n");
  }

  /** After a line break, the whitespace run stops inside the next line, before any break. */
  lemma NextLineVisible(lines: seq<string>, t: string)
    requires |lines| >= 1 && VisibleLines(lines)
    ensures BlankMatch("\n" + (Join(lines, "\n") + t)).None?
  {
    VisibleTail(lines);
    var x := if |lines| == 1 then t else "\n" + Join(lines[1..], "\n") + t;
    JoinHead(lines, t, x);
    BreakThenVisible(lines[0], x);
  }

  lemma JoinHead(lines: seq<string>, t: string, x: string)
    requires |lines| >= 1
    requires x == if |lines| == 1 then t else "\n" + Join(lines[1..], "\n") + t
    ensures Join(lines, "\n") + t == lines[0] + x
  {
    if |lines| > 1 {
      JoinCons(lines[0], lines[1..], "\n");
    }
  }

  lemma BreakThenVisible(line: string, x: string)
    requires '\n' !in line && !AllSpace(line)
    ensures BlankMatch("\n" + (line + x)).None?
  {
    var u := line + x;
    WsLenConcat(line, x);
    var run := u[..WsLen(u)];
    assert run == line[..WsLen(line)];
    NoBreak(line, WsLen(line));
    var v := "\n" + u;
    assert v[1..] == u;
  }

  lemma NoBreak(line: string, w: nat)
    requires '\n' !in line && w <= |line|
    ensures LastBreak(line[..w]) == -1
  {
    var run := line[..w];
    assert forall i :: 0 <= i < |run| ==> run[i] == line[i] && line[i] in line;
  }

  /** Quiet positions in front leave the leftmost match where it is in what follows. */
  lemma {:induction false} FindBlankQuiet(a: string, t: string)
    requires Quiet(a + t, |a|)
    ensures FindBlank(a + t) == if FindBlank(t) < 0 then -1 else |a| + FindBlank(t)
  {
    if a == [] {
      assert a + t == t;
    } else {
      assert (a + t)[0..] == a + t;
      assert (a + t)[1..] == a[1..] + t;
      assert Quiet(a[1..] + t, |a[1..]|) by {
        forall p | 0 <= p < |a[1..]| && p <= |a[1..] + t| ensures BlankMatch((a[1..] + t)[p..]).None? {
          assert (a[1..] + t)[p..] == (a + t)[p + 1..];
        }
      }
      FindBlankQuiet(a[1..], t);
    }
  }

  /** A quiet block followed by a blank line and a visible character is split off. */
  lemma SplitBlankPeel(b: string, rest: string)
    requires Quiet(b + ("\n\n" + rest), |b|)
    requires rest == [] || !IsSpace(rest[0])
    ensures SplitBlank(b + ("\n\n" + rest)) == [b] + SplitBlank(rest)
  {
    var u := "\n\n" + rest;
    var s := b + u;
    BlankAtBreak(rest);
    FindBlankQuiet(b, u);
    SliceAround(b, u);
    SplitBlankAt(s, |b|, 2);
  }

  lemma SliceAround(b: string, u: string)
    ensures (b + u)[|b|..] == u && (b + u)[..|b|] == b
    ensures |u| >= 2 ==> (b + u)[|b| + 2..] == u[2..]
  {
  }

  lemma SplitBlankAt(s: string, k: nat, m: nat)
    requires FindBlank(s) == k && k < |s| && BlankMatch(s[k..]) == Some(m)
    ensures SplitBlank(s) == [s[..k]] + SplitBlank(s[k + m..])
  {
  }

  lemma BlankAtBreak(rest: string)
    requires rest == [] || !IsSpace(rest[0])
    ensures BlankMatch("\n\n" + rest) == Some(2) && FindBlank("\n\n" + rest) == 0
  {
    var u := "\n\n" + rest;
    assert u[1..] == "\n" + rest;
    WsLenSpaces("\n", rest);
    assert u[1..1 + WsLen(u[1..])] == "\n";
  }

  lemma SplitBlankQuiet(b: string)
    requires Quiet(b, |b|)
    ensures SplitBlank(b) == [b]
  {
    assert b + [] == b;
    FindBlankQuiet(b, []);
  }

  /** A writable segment's block is quiet, starts with its index and ends with its caption. */
  lemma BlockQuiet(seg: Segment, t: string)
    requires Writable(seg)
    ensures Quiet(BlockOf(seg) + t, |BlockOf(seg)|)
  {
    BlockLinesFit(seg);
    BlockLinesJoin(seg);
    QuietLines(BlockLines(seg), t);
  }

  lemma BlockEnds(seg: Segment)
    requires Writable(seg)
    ensures BlockOf(seg) != [] && !IsSpace(BlockOf(seg)[0]) && !IsSpace(Last(BlockOf(seg)))
  {
    var b := BlockOf(seg);
    assert b[0] == IntToStr(seg.index)[0];
    assert Last(b) == Last(seg.text);
  }

  /** The blocks joined by blank lines split back into the blocks. */
  lemma {:induction false} SplitJoinedBlocks(segs: seq<Segment>)
    requires |segs| >= 1
    requires forall i :: 0 <= i < |segs| ==> Writable(segs[i])
    ensures SplitBlank(Join(BlocksOf(segs), "\n\n")) == BlocksOf(segs)
    ensures var j := Join(BlocksOf(segs), "\n\n"); j != [] && !IsSpace(j[0]) && !IsSpace(Last(j))
  {
    var b := BlockOf(segs[0]);
    BlockEnds(segs[0]);
    if |segs| == 1 {
      assert BlocksOf(segs) == [b];
      BlockQuiet(segs[0], []);
      assert b + [] == b;
      SplitBlankQuiet(b);
    } else {
      var tail := segs[1..];
      assert forall i :: 0 <= i < |tail| ==> Writable(tail[i]) by {
        assert forall i :: 0 <= i < |tail| ==> tail[i] == segs[i + 1];
      }
      var bs := BlocksOf(tail);
      var rest := Join(bs, "\n\n");
      SplitJoinedBlocks(tail);
      BlocksCons(segs);
      JoinCons(b, bs, "\n\n");
      BlockQuiet(segs[0], "\n\n" + rest);
      SplitBlankPeel(b, rest);
      Assoc(b, "\n\n", rest);
      JoinedEnds(b, rest);
    }
  }

  lemma JoinedEnds(b: string, rest: string)
    requires b != [] && rest != []
    ensures (b + "\n\n" + rest)[0] == b[0] && Last(b + "\n\n" + rest) == Last(rest)
  {
  }

  lemma Assoc(a: string, b: string, c: string)
    ensures a + b + c == a + (b + c)
  {
  }

  /** The written arrow line is matched with the two stamps. */
  lemma ArrowMatches(st: string, en: string)
    requires IsStamp(st) && IsStamp(en)
    ensures MatchArrow(st + " --> " + en) == Some((st, en))
  {
    var line := st + " --> " + en;
    assert line[..12] == st;
    assert line[12..] == " " + ("--> " + en);
    WsLenSpaces(" ", "--> " + en);
    assert line[13..16] == "-->";
    assert line[16..] == " " + en;
    StampFree(en);
    WsLenSpaces(" ", en);
    assert line[17..29] == en;
  }

  /** A writable segment's block reads back as the segment itself. */
  lemma BlockReads(seg: Segment)
    requires Writable(seg)
    ensures ReadBlock(BlockOf(seg)) == Keep(seg)
  {
    var b := BlockOf(seg);
    var lines := BlockLines(seg);
    BlockEnds(seg);
    StripTrimmed(b);
    BlockLinesFit(seg);
    BlockLinesJoin(seg);
    SplitJoinChar(lines, '\n');
    ParseIntToStr(seg.index);
    ArrowMatches(seg.startTime, seg.endTime);
    JoinSplit(seg.text, "\n");
    assert lines[2..] == Split(seg.text, "\n");
  }

  lemma {:induction false} GatherWritten(segs: seq<Segment>)
    requires forall i :: 0 <= i < |segs| ==> Writable(segs[i])
    ensures Gather(Reads(BlocksOf(segs))) == (segs, true)
  {
    if segs != [] {
      var n := |segs|;
      var rs := Reads(BlocksOf(segs));
      GatherWritten(segs[..n - 1]);
      ReadsInit(segs);
      BlockReads(segs[n - 1]);
      KeepLast(segs);
    }
  }

  lemma ReadsInit(segs: seq<Segment>)
    requires segs != []
    ensures Reads(BlocksOf(segs))[..|segs| - 1] == Reads(BlocksOf(segs[..|segs| - 1]))
  {
  }

  lemma KeepLast(segs: seq<Segment>)
    requires segs != []
    ensures segs[..|segs| - 1] + [segs[|segs| - 1]] == segs
  {
  }

  /** The written text is the blocks joined by blank lines, closed by one more. */
  lemma {:induction false} FileTextJoined(segs: seq<Segment>)
    requires |segs| >= 1
    ensures SrtFileText(segs) == Join(BlocksOf(segs), "\n\n") + "\n\n"
  {
    var b := BlockOf(segs[0]);
    BlockClosed(segs[0]);
    BlocksCons(segs);
    if |segs| == 1 {
      assert SrtFileText(segs[1..]) == "";
      assert ToSrtFormat(segs[0]) + "\n" + "" == b + "\n\n";
    } else {
      FileTextJoined(segs[1..]);
      JoinCons(b, BlocksOf(segs[1..]), "\n\n");
      Regroup(ToSrtFormat(segs[0]) + "\n", b, Join(BlocksOf(segs[1..]), "\n\n"), "\n\n");
    }
  }

  lemma BlockClosed(seg: Segment)
    ensures ToSrtFormat(seg) + "\n" == BlockOf(seg) + "\n\n"
  {
  }

  lemma BlocksCons(segs: seq<Segment>)
    requires |segs| >= 1
    ensures BlocksOf(segs) == [BlockOf(segs[0])] + BlocksOf(segs[1..])
  {
    var bs, tail := BlocksOf(segs), BlocksOf(segs[1..]);
    forall i | 1 <= i < |segs| ensures bs[i] == tail[i - 1] {
      var seg := segs[i];
      assert segs[1..][i - 1] == seg;
      assert bs[i] == BlockOf(seg) && tail[i - 1] == BlockOf(seg);
    }
    ConsOfShifted(bs, tail);
  }

  lemma Regroup(x: string, b: string, j: string, sep: string)
    requires x == b + sep
    ensures x + (j + sep) == b + sep + j + sep
  {
  }

  /** Round trip: a file of writable segments, as `create_subtitle_part` writes it, is read back
      by `parse_srt_file` as the same segments, in order, with nothing aborted. */
  lemma ReadBack(segs: seq<Segment>)
    requires forall i :: 0 <= i < |segs| ==> Writable(segs[i])
    ensures ParseSrt(SrtFileText(segs)) == (segs, true)
  {
    if segs == [] {
      ReadEmpty();
    } else {
      var j := Join(BlocksOf(segs), "\n\n");
      FileTextJoined(segs);
      SplitJoinedBlocks(segs);
      StripClosed(j);
      GatherWritten(segs);
    }
  }

  lemma StripClosed(j: string)
    requires j != [] && !IsSpace(j[0]) && !IsSpace(Last(j))
    ensures Strip(j + "\n\n") == j
  {
    RStripSpaces(j, "\n\n");
  }

  /** An empty file yields no segments. */
  lemma ReadEmpty()
    ensures ParseSrt("") == ([], true)
  {
    assert Strip("") == "";
    assert FindBlank("") == -1;
    assert SrtBlocks("") == [""];
    assert Split("", "\n") == [""];
    assert Gather(Reads([""])) == Step(Gather([]), Skip);
  }

  // ---------------------------------------------------------------------------
  // time_to_seconds and seconds_to_time, in milliseconds

  /** `time_to_seconds`: exactly one comma with `H:M:S` before it, every field read by `int()`;
      `None` where Python raises ValueError. */
  function ParseClock(t: string): Option<int> {
    var parts := Split(t, ",");
    if |parts| == 2 then ClockMs(parts[0], ParseInt(parts[1])) else None
  }

  /** `seconds_to_time`: `int()` truncates the seconds toward zero, while `% 1`, `//` and `%`
      floor. */
  function FormatClock(t: int): string {
    var ms := t % 1000;
    var secs := if t >= 0 then t / 1000 else -((-t) / 1000);
    FormatD(secs / 3600, 2) + ":" + FormatD(secs % 3600 / 60, 2) + ":" + FormatD(secs % 60, 2)
      + "," + FormatD(ms, 3)
  }

  /** A stamp whose minutes and seconds are below 60. */
  predicate ClockStamp(st: string) {
    IsStamp(st) && DigitsValue(st[3..5]) < 60 && DigitsValue(st[6..8]) < 60
  }

  /** The milliseconds a well-formed stamp stands for. */
  function StampMs(st: string): (t: nat)
    requires IsStamp(st)
  {
    Millis(DigitsValue(st[..2]), DigitsValue(st[3..5]), DigitsValue(st[6..8]), DigitsValue(st[9..12]))
  }

  lemma DigitsFree(d: string)
    requires AllDigits(d)
    ensures ':' !in d && ',' !in d
  {
    assert forall i :: 0 <= i < |d| ==> d[i] != ':' && d[i] != ',';
  }

  /** A clock written from four digit fields is read back field by field. */
  lemma ParseFields(h: string, m: string, s: string, ms: string)
    requires |h| > 0 && |m| > 0 && |s| > 0 && |ms| > 0
    requires AllDigits(h) && AllDigits(m) && AllDigits(s) && AllDigits(ms)
    ensures ParseClock(h + ":" + m + ":" + s + "," + ms)
      == Some(Millis(DigitsValue(h), DigitsValue(m), DigitsValue(s), DigitsValue(ms)))
  {
    DigitsFree(h);
    DigitsFree(m);
    DigitsFree(s);
    DigitsFree(ms);
    var clock := h + ":" + m + ":" + s;
    ClockCommaFree(h, m, s);
    ParseAtComma(clock, ms);
    ClockOfFields(h, m, s, ParseInt(ms));
    ParseDigits(ms);
    CombineDigits(h, m, s, DigitsValue(ms));
    CombineValues(DigitsValue(h), DigitsValue(m), DigitsValue(s), DigitsValue(ms));
  }

  lemma ClockCommaFree(h: string, m: string, s: string)
    requires ',' !in h && ',' !in m && ',' !in s
    ensures ',' !in h + ":" + m + ":" + s
  {
  }

  lemma ParseAtComma(clock: string, ms: string)
    requires ',' !in clock && ',' !in ms
    ensures ParseClock(clock + "," + ms) == ClockMs(clock, ParseInt(ms))
  {
    CommaSplit(clock, ms);
  }

  lemma ClockOfFields(h: string, m: string, s: string, ms: Option<int>)
    requires ':' !in h && ':' !in m && ':' !in s
    ensures ClockMs(h + ":" + m + ":" + s, ms) == Combine(ParseInt(h), ParseInt(m), ParseInt(s), ms)
  {
    ClockFields(h, m, s);
  }

  lemma CombineDigits(h: string, m: string, s: string, ms: nat)
    requires |h| > 0 && |m| > 0 && |s| > 0
    requires AllDigits(h) && AllDigits(m) && AllDigits(s)
    ensures Combine(ParseInt(h), ParseInt(m), ParseInt(s), Some(ms))
      == Combine(Some(DigitsValue(h) as int), Some(DigitsValue(m) as int), Some(DigitsValue(s) as int), Some(ms))
  {
    ParseDigits(h);
    ParseDigits(m);
    ParseDigits(s);
  }

  /** Hours, minutes, seconds and milliseconds as one count of milliseconds. */
  function Millis(h: nat, m: nat, s: nat, ms: nat): nat {
    1000 * (3600 * h + 60 * m + s) + ms
  }

  lemma CombineValues(h: nat, m: nat, s: nat, ms: nat)
    ensures Combine(Some(h as int), Some(m as int), Some(s as int), Some(ms as int)) == Some(Millis(h, m, s, ms))
  {
  }

  /** A well-formed stamp is read as the milliseconds it stands for. */
  lemma ParseStamp(st: string)
    requires IsStamp(st)
    ensures ParseClock(st) == Some(StampMs(st))
  {
    assert st == st[..2] + ":" + st[3..5] + ":" + st[6..8] + "," + st[9..12];
    ParseFields(st[..2], st[3..5], st[6..8], st[9..12]);
  }

  /** The fields `seconds_to_time` writes for a non-negative time. */
  function Hours(t: nat): nat { t / 1000 / 3600 }
  function Minutes(t: nat): nat { t / 1000 % 3600 / 60 }
  function Seconds(t: nat): nat { t / 1000 % 60 }

  /** For a non-negative time, every field is written zero-padded without a sign. */
  lemma FormatNat(t: nat)
    ensures FormatClock(t) == ZeroPad(Hours(t), 2) + ":" + ZeroPad(Minutes(t), 2) + ":"
      + ZeroPad(Seconds(t), 2) + "," + ZeroPad(t % 1000, 3)
  {
  }

  /** The written fields add back up to the time. */
  lemma ClockArith(t: nat)
    ensures Millis(Hours(t), Minutes(t), Seconds(t), t % 1000) == t
  {
    var secs := t / 1000;
    var q, r := secs / 3600, secs % 3600;
    assert secs == 3600 * q + r;
    assert r == 60 * (r / 60) + r % 60;
    assert secs % 60 == r % 60 by {
      assert secs == 60 * (60 * q + r / 60) + r % 60;
    }
  }

  /** Round trip from milliseconds: `time_to_seconds(seconds_to_time(t)) == t` for every
      non-negative time. */
  lemma ParseFormat(t: nat)
    ensures ParseClock(FormatClock(t)) == Some(t)
  {
    FormatNat(t);
    PadsRead(Hours(t), Minutes(t), Seconds(t), t % 1000);
    ClockArith(t);
  }

  /** Four zero-padded fields are read back as their values. */
  lemma PadsRead(h: nat, m: nat, s: nat, ms: nat)
    ensures ParseClock(ZeroPad(h, 2) + ":" + ZeroPad(m, 2) + ":" + ZeroPad(s, 2) + "," + ZeroPad(ms, 3))
      == Some(Millis(h, m, s, ms))
  {
    PadValue(h, 2);
    PadValue(m, 2);
    PadValue(s, 2);
    PadValue(ms, 3);
    ParseFields(ZeroPad(h, 2), ZeroPad(m, 2), ZeroPad(s, 2), ZeroPad(ms, 3));
  }

  lemma PadValue(n: nat, w: nat)
    ensures DigitsValue(ZeroPad(n, w)) == n
  {
    DigitsValueNat(n);
    var d := NatToStr(n);
    if |d| < w {
      DigitsValueLeadingZeros(w - |d|, d);
    }
  }

  /** Round trip from text: `seconds_to_time(time_to_seconds(st)) == st` for every stamp whose
      minutes and seconds are below 60. */
  lemma FormatParse(st: string)
    requires ClockStamp(st)
    ensures ParseClock(st).Some? && FormatClock(ParseClock(st).value) == st
  {
    ParseStamp(st);
    StampDigits(st);
    StampTime(st);
    FormatBack(StampMs(st), st[..2], st[3..5], st[6..8], st[9..12]);
    StampSplit(st);
  }

  lemma StampDigits(st: string)
    requires IsStamp(st)
    ensures AllDigits(st[..2]) && AllDigits(st[3..5]) && AllDigits(st[6..8]) && AllDigits(st[9..12])
  {
  }

  /** The fields of a stamp's time are the stamp's fields. */
  lemma StampTime(st: string)
    requires ClockStamp(st)
    ensures var t := StampMs(st);
      Hours(t) == DigitsValue(st[..2]) && Minutes(t) == DigitsValue(st[3..5])
      && Seconds(t) == DigitsValue(st[6..8]) && t % 1000 == DigitsValue(st[9..12])
  {
    StampDigits(st);
    DigitsBelow(st[9..12]);
    assert Pow10(3) == 1000;
    StampFields(DigitsValue(st[..2]), DigitsValue(st[3..5]), DigitsValue(st[6..8]), DigitsValue(st[9..12]));
  }

  /** A time whose fields have the values of four digit fields is written as those fields. */
  lemma FormatBack(t: nat, h: string, m: string, s: string, ms: string)
    requires |h| == 2 && |m| == 2 && |s| == 2 && |ms| == 3
    requires AllDigits(h) && AllDigits(m) && AllDigits(s) && AllDigits(ms)
    requires Hours(t) == DigitsValue(h) && Minutes(t) == DigitsValue(m)
    requires Seconds(t) == DigitsValue(s) && t % 1000 == DigitsValue(ms)
    ensures FormatClock(t) == h + ":" + m + ":" + s + "," + ms
  {
    FormatNat(t);
    PadsWritten(h, m, s, ms);
  }

  lemma StampSplit(st: string)
    requires IsStamp(st)
    ensures st == st[..2] + ":" + st[3..5] + ":" + st[6..8] + "," + st[9..12]
  {
  }

  /** Digit fields are written back unchanged from their values. */
  lemma PadsWritten(h: string, m: string, s: string, ms: string)
    requires |h| == 2 && |m| == 2 && |s| == 2 && |ms| == 3
    requires AllDigits(h) && AllDigits(m) && AllDigits(s) && AllDigits(ms)
    ensures ZeroPad(DigitsValue(h), 2) + ":" + ZeroPad(DigitsValue(m), 2) + ":"
      + ZeroPad(DigitsValue(s), 2) + "," + ZeroPad(DigitsValue(ms), 3)
      == h + ":" + m + ":" + s + "," + ms
  {
    PadDigits(h);
    PadDigits(m);
    PadDigits(s);
    PadDigits(ms);
  }

  /** Minutes and seconds below 60 come back out of the milliseconds unchanged. */
  lemma StampFields(hv: nat, mv: nat, sv: nat, msv: nat)
    requires mv < 60 && sv < 60 && msv < 1000
    ensures var t := Millis(hv, mv, sv, msv);
      t % 1000 == msv && Hours(t) == hv && Minutes(t) == mv && Seconds(t) == sv
  {
    var t := Millis(hv, mv, sv, msv);
    var secs := 3600 * hv + 60 * mv + sv;
    MillisSplit(secs, msv);
    SecsSplit(hv, mv, sv);
  }

  lemma MillisSplit(secs: nat, msv: nat)
    requires msv < 1000
    ensures (1000 * secs + msv) / 1000 == secs && (1000 * secs + msv) % 1000 == msv
  {
  }

  lemma SecsSplit(hv: nat, mv: nat, sv: nat)
    requires mv < 60 && sv < 60
    ensures var secs := 3600 * hv + 60 * mv + sv;
      secs / 3600 == hv && secs % 3600 / 60 == mv && secs % 60 == sv
  {
    Split3600(hv, 60 * mv + sv);
    Split60(mv, sv);
    Split60(60 * hv + mv, sv);
  }

  lemma Split3600(q: nat, r: nat)
    requires r < 3600
    ensures (3600 * q + r) / 3600 == q && (3600 * q + r) % 3600 == r
  {
  }

  lemma Split60(q: nat, r: nat)
    requires r < 60
    ensures (60 * q + r) / 60 == q && (60 * q + r) % 60 == r
  {
  }

  /** Below 100 hours, `seconds_to_time` writes a well-formed stamp with minutes and seconds
      below 60. */
  lemma FormatIsStamp(t: nat)
    requires t < 100 * 3600 * 1000
    ensures ClockStamp(FormatClock(t))
  {
    var h, m, s, ms := Hours(t), Minutes(t), Seconds(t), t % 1000;
    FormatNat(t);
    FieldBounds(t);
    PadWidth(h, 2);
    PadWidth(m, 2);
    PadWidth(s, 2);
    PadWidth(ms, 3);
    PadValue(m, 2);
    PadValue(s, 2);
    StampOf(ZeroPad(h, 2), ZeroPad(m, 2), ZeroPad(s, 2), ZeroPad(ms, 3));
  }

  lemma FieldBounds(t: nat)
    requires t < 100 * 3600 * 1000
    ensures Hours(t) < 100 && Minutes(t) < 60 && Seconds(t) < 60
  {
  }

  lemma StampOf(h: string, m: string, s: string, ms: string)
    requires |h| == 2 && |m| == 2 && |s| == 2 && |ms| == 3
    requires AllDigits(h) && AllDigits(m) && AllDigits(s) && AllDigits(ms)
    ensures var st := h + ":" + m + ":" + s + "," + ms;
      IsStamp(st) && st[3..5] == m && st[6..8] == s
  {
    var st := h + ":" + m + ":" + s + "," + ms;
    assert st == [h[0], h[1], ':', m[0], m[1], ':', s[0], s[1], ',', ms[0], ms[1], ms[2]];
  }
}
