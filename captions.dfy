/** The analyzer's reading of SRT captions: blocks separated by an exact blank line, a timing
    line that must start with `HH:MM:SS,mmm --> HH:MM:SS,mmm`, caption lines joined by
    spaces; its clock-string conversion; and the transcript listing sent to the model. */
module Captions {
  import opened Base
  import opened PyStr

  /** One caption entry: the two clock strings exactly as written, and the caption text. */
  datatype Entry = Entry(startTime: string, endTime: string, text: string)

  /** `\d{2}:\d{2}:\d{2},\d{3}` on exactly twelve characters. */
  predicate IsStamp(s: string) {
    |s| == 12 && s[2] == ':' && s[5] == ':' && s[8] == ','
    && forall i :: 0 <= i < 12 && i != 2 && i != 5 && i != 8 ==> IsDigit(s[i])
  }

  /** `re.match(r'(stamp) --> (stamp)', line)`: a prefix match; the two captured stamps. */
  function MatchTiming(line: string): Option<(string, string)>
  {
    if |line| >= 29 && IsStamp(line[..12]) && line[12..17] == " --> " && IsStamp(line[17..29])
    then Some((line[..12], line[17..29]))
    else None
  }

  /** The entry one block yields, if it has at least three lines and a timing second line. */
  function BlockEntry(block: string): Option<Entry>
  {
    var lines := Split(Strip(block), "\n");
    if |lines| >= 3 then
      match MatchTiming(lines[1])
      case Some(times) => Some(Entry(times.0, times.1, Join(lines[2..], " ")))
      case None => None
    else None
  }

  /** `content.strip().split('\n\n')` */
  function Blocks(content: string): seq<string> {
    Split(Strip(content), "\n\n")
  }

  /** The entries of the given blocks, in block order, skipping blocks that yield none. */
  function Collect(blocks: seq<string>): seq<Entry>
  {
    if blocks == [] then []
    else
      var last := blocks[|blocks| - 1];
      Collect(blocks[..|blocks| - 1]) + Found(last)
  }

  /** The entry of one block as a list of zero or one entries. */
  function Found(block: string): seq<Entry> {
    match BlockEntry(block)
    case Some(e) => [e]
    case None => []
  }

  /** The entries `parse_srt_file` reads from a file with this content. */
  function ParseEntries(content: string): seq<Entry> {
    Collect(Blocks(content))
  }

  /** The entries of an SRT file; `None` stands for a file that cannot be read. */
  function FileEntries(content: Option<string>): seq<Entry> {
    if content.None? then [] else ParseEntries(content.value)
  }

  /** `parse_srt_file`: `None` stands for a file that cannot be read, which yields no entries. */
  method ParseSrtFile(content: Option<string>) returns (entries: seq<Entry>)
    ensures content.None? ==> entries == []
    ensures content.Some? ==> entries == ParseEntries(content.value)
    ensures entries == FileEntries(content)
  {
    entries := [];
    if content.None? {
      return;
    }
    var blocks := Blocks(content.value);
    var i := 0;
    while i < |blocks|
      invariant 0 <= i <= |blocks|
      invariant entries == Collect(blocks[..i])
    {
      var e := BlockEntry(blocks[i]);
      CollectSnoc(blocks, i);
      if e.Some? {
        entries := entries + [e.value];
      }
      i := i + 1;
    }
    assert blocks[..i] == blocks;
  }

  lemma CollectSnoc(blocks: seq<string>, i: nat)
    requires i < |blocks|
    ensures Collect(blocks[..i + 1])
      == Collect(blocks[..i]) + Found(blocks[i])
  {
    assert blocks[..i + 1][..i] == blocks[..i];
  }

  /** Every entry carries two well-formed stamps and a single-line text. */
  predicate WellFormedEntry(e: Entry) {
    IsStamp(e.startTime) && IsStamp(e.endTime) && '\n' !in e.text
  }

  lemma JoinNoChar(parts: seq<string>, sep: string, c: char)
    requires c !in sep
    requires forall i :: 0 <= i < |parts| ==> c !in parts[i]
    ensures c !in Join(parts, sep)
  {
    if |parts| > 1 {
      JoinNoChar(parts[1..], sep, c);
    }
  }

  lemma {:induction false} CollectShape(blocks: seq<string>)
    ensures |Collect(blocks)| <= |blocks|
    ensures forall k :: 0 <= k < |Collect(blocks)| ==> WellFormedEntry(Collect(blocks)[k])
  {
    if blocks != [] {
      CollectShape(blocks[..|blocks| - 1]);
      FoundShape(blocks[|blocks| - 1]);
    }
  }

  lemma FoundShape(block: string)
    ensures forall k :: 0 <= k < |Found(block)| ==> WellFormedEntry(Found(block)[k])
  {
    var lines := Split(Strip(block), "\n");
    if |lines| >= 3 && MatchTiming(lines[1]).Some? {
      forall i | 0 <= i < |lines| ensures '\n' !in lines[i] {
        SplitPiecesFree(Strip(block), '\n', i);
      }
      JoinNoChar(lines[2..], " ", '\n');
    }
  }

  /** The pieces of a split at a separator character do not contain it. */
  lemma {:induction false} SplitPiecesFree(s: string, c: char, i: int)
    requires 0 <= i < |Split(s, [c])|
    ensures c !in Split(s, [c])[i]
    decreases |s|
  {
    var k := FindFrom(s, [c], 0);
    if k < 0 {
      forall j | 0 <= j < |s| ensures s[j] != c {
        OccursAtChar(s, c, j);
      }
    } else if i == 0 {
      forall j | 0 <= j < k ensures s[j] != c {
        OccursAtChar(s, c, j);
      }
      assert forall j :: 0 <= j < k ==> s[..k][j] == s[j];
    } else {
      SplitPiecesFree(s[k + 1..], c, i - 1);
    }
  }

  /** One parsed entry per block at most, each with well-formed stamps and a text of one line. */
  lemma ParseEntriesShape(content: string)
    ensures |ParseEntries(content)| <= |Blocks(content)|
    ensures forall k :: 0 <= k < |ParseEntries(content)| ==> WellFormedEntry(ParseEntries(content)[k])
  {
    CollectShape(Blocks(content));
  }

  /** `time_to_seconds`, in milliseconds: `HH:MM:SS` with an optional `,mmm`, each field as
      `int()` reads it; `None` where Python raises ValueError. */
  function TimeToMs(t: string): Option<int>
  {
    if ',' in t then
      var parts := Split(t, ",");
      if |parts| == 2 then ClockMs(parts[0], ParseInt(parts[1])) else None
    else ClockMs(t, Some(0))
  }

  /** `h, m, s = map(int, t.split(':'))`, combined with the milliseconds. */
  function ClockMs(t: string, ms: Option<int>): Option<int>
  {
    var f := Split(t, ":");
    if |f| == 3 then Combine(ParseInt(f[0]), ParseInt(f[1]), ParseInt(f[2]), ms) else None
  }

  /** `h * 3600 + m * 60 + s` seconds plus `ms` milliseconds, when every field was read. */
  function Combine(h: Option<int>, m: Option<int>, s: Option<int>, ms: Option<int>): Option<int>
  {
    if h.Some? && m.Some? && s.Some? && ms.Some?
    then Some(1000 * (3600 * h.value + 60 * m.value + s.value) + ms.value)
    else None
  }

  /** The clock fields are read by `int()` one by one: with a comma, the text after it is the
      millisecond count. */
  lemma TimeToMsWithComma(h: string, m: string, sec: string, ms: string)
    requires ':' !in h && ':' !in m && ':' !in sec
    requires ',' !in h && ',' !in m && ',' !in sec && ',' !in ms
    ensures TimeToMs(h + ":" + m + ":" + sec + "," + ms)
      == Combine(ParseInt(h), ParseInt(m), ParseInt(sec), ParseInt(ms))
  {
    var clock := h + ":" + m + ":" + sec;
    ClockFields(h, m, sec);
    assert ',' !in clock;
    CommaSplit(clock, ms);
  }

  /** Without a comma the milliseconds are zero. */
  lemma TimeToMsWithoutComma(h: string, m: string, sec: string)
    requires ':' !in h && ':' !in m && ':' !in sec
    requires ',' !in h && ',' !in m && ',' !in sec
    ensures TimeToMs(h + ":" + m + ":" + sec) == Combine(ParseInt(h), ParseInt(m), ParseInt(sec), Some(0))
  {
    ClockFields(h, m, sec);
    assert ',' !in h + ":" + m + ":" + sec;
  }

  lemma CommaSplit(clock: string, ms: string)
    requires ',' !in clock && ',' !in ms
    ensures ',' in clock + "," + ms && Split(clock + "," + ms, ",") == [clock, ms]
  {
    SplitNone(ms, ',');
    SplitFirst(clock, ms, ',');
    assert (clock + "," + ms)[|clock|] == ',';
  }

  lemma SplitTwoFields(m: string, sec: string)
    requires ':' !in sec && ':' !in m
    ensures Split(m + ":" + sec, ":") == [m, sec]
  {
    SplitNone(sec, ':');
    SplitFirst(m, sec, ':');
  }

  lemma ClockFields(h: string, m: string, sec: string)
    requires ':' !in h && ':' !in m && ':' !in sec
    ensures Split(h + ":" + m + ":" + sec, ":") == [h, m, sec]
  {
    SplitTwoFields(m, sec);
    var rest := m + ":" + sec;
    SplitFirst(h, rest, ':');
    assert h + ":" + m + ":" + sec == h + [':'] + rest;
  }

  /** One line of `create_transcript_context`. */
  function TranscriptLine(e: Entry): string {
    "[" + e.startTime + " --> " + e.endTime + "] " + e.text
  }

  function TranscriptLines(entries: seq<Entry>): (lines: seq<string>)
    ensures |lines| == |entries|
    ensures forall i :: 0 <= i < |entries| ==> lines[i] == TranscriptLine(entries[i])
  {
    if entries == [] then [] else [TranscriptLine(entries[0])] + TranscriptLines(entries[1..])
  }

  /** `create_transcript_context`: the entry lines joined by newlines. */
  function TranscriptContext(entries: seq<Entry>): string {
    Join(TranscriptLines(entries), "\n")
  }

  /** The transcript listing has exactly one line per entry, in entry order, for the entries
      the parser produces. */
  lemma TranscriptContextLines(entries: seq<Entry>)
    requires |entries| >= 1
    requires forall k :: 0 <= k < |entries| ==> WellFormedEntry(entries[k])
    ensures Split(TranscriptContext(entries), "\n") == TranscriptLines(entries)
  {
    var lines := TranscriptLines(entries);
    forall i | 0 <= i < |lines| ensures '\n' !in lines[i] {
      TranscriptLineFree(entries[i]);
    }
    SplitJoinChar(lines, '\n');
  }

  lemma TranscriptLineFree(e: Entry)
    requires WellFormedEntry(e)
    ensures '\n' !in TranscriptLine(e)
  {
    StampFree(e.startTime);
    StampFree(e.endTime);
  }

  // ---------------------------------------------------------------------------
  // Reading back what an SRT writer produces

  /** An SRT block as a writer lays it out: an index line, a timing line, caption lines. */
  datatype SrtBlock = SrtBlock(index: string, startTime: string, endTime: string, lines: seq<string>)

  function BlockText(b: SrtBlock): string {
    b.index + "\n" + (TimingLine(b.startTime, b.endTime) + "\n" + Join(b.lines, "\n"))
  }

  function TimingLine(startTime: string, endTime: string): string {
    startTime + " --> " + endTime
  }

  /** Blocks the analyzer reads back: stamps well formed, an index line and caption lines that
      are non-empty and newline-free, the index starting and the caption ending in a
      non-whitespace character. */
  predicate ReadableBlock(b: SrtBlock) {
    IsStamp(b.startTime) && IsStamp(b.endTime)
    && b.index != [] && '\n' !in b.index && !IsSpace(b.index[0])
    && |b.lines| >= 1
    && (forall i :: 0 <= i < |b.lines| ==> b.lines[i] != [] && '\n' !in b.lines[i])
    && !IsSpace(Last(b.lines[|b.lines| - 1]))
  }

  function Last(s: string): char
    requires s != []
  {
    s[|s| - 1]
  }

  /** No blank line: no two adjacent newlines. */
  predicate NoBlankLine(s: string) {
    forall i, j :: 0 <= i < |s| && 0 <= j < |s| && j == i + 1 ==> !(s[i] == '\n' && s[j] == '\n')
  }

  lemma NoBlankLineConcat(a: string, b: string)
    requires NoBlankLine(a) && NoBlankLine(b)
    requires a == [] || b == [] || a[|a| - 1] != '\n' || b[0] != '\n'
    ensures NoBlankLine(a + b)
  {
    var s := a + b;
    forall i, j | 0 <= i < |s| && 0 <= j < |s| && j == i + 1 ensures !(s[i] == '\n' && s[j] == '\n') {
      if j < |a| {
        assert s[i] == a[i] && s[j] == a[j];
      } else if i >= |a| {
        assert s[i] == b[i - |a|] && s[j] == b[j - |a|];
      }
    }
  }

  lemma NoBlankLineFree(s: string)
    requires '\n' !in s
    ensures NoBlankLine(s)
  {
    forall i | 0 <= i < |s| ensures s[i] != '\n' {
      assert s[i] in s;
    }
  }

  /** Caption lines joined by newlines: no blank line, first and last characters from the
      first and last lines. */
  lemma {:induction false} JoinLinesShape(lines: seq<string>)
    requires |lines| >= 1
    requires forall i :: 0 <= i < |lines| ==> lines[i] != [] && '\n' !in lines[i]
    ensures var t := Join(lines, "\n");
      NoBlankLine(t) && t != [] && t[0] == lines[0][0] && Last(t) == Last(lines[|lines| - 1])
  {
    NoBlankLineFree(lines[0]);
    if |lines| > 1 {
      JoinLinesShape(lines[1..]);
      var rest := Join(lines[1..], "\n");
      assert lines[0][|lines[0]| - 1] in lines[0];
      assert NoBlankLine("\n");
      NoBlankLineConcat(lines[0], "\n");
      NoBlankLineConcat(lines[0] + "\n", rest);
      assert Join(lines, "\n") == lines[0] + "\n" + rest;
    }
  }

  lemma StampFree(s: string)
    requires IsStamp(s)
    ensures '\n' !in s && !IsSpace(s[0]) && !IsSpace(s[11])
  {
    assert forall j :: 0 <= j < 12 ==> s[j] != '\n';
  }

  /** A readable block has no blank line, starts with its index and ends with its caption. */
  lemma BlockTextShape(b: SrtBlock)
    requires ReadableBlock(b)
    ensures var t := BlockText(b);
      NoBlankLine(t) && t != [] && !IsSpace(t[0]) && !IsSpace(Last(t))
  {
    var timing := TimingLine(b.startTime, b.endTime);
    TimingLineFree(b.startTime, b.endTime);
    var body := Join(b.lines, "\n");
    JoinLinesShape(b.lines);
    assert b.lines[0][0] in b.lines[0];
    NoBlankLineFree(b.index);
    NoBlankLineFree(timing);
    assert NoBlankLine("\n");
    NoBlankLineConcat(timing, "\n");
    NoBlankLineConcat(timing + "\n", body);
    var inner := timing + "\n" + body;
    NoBlankLineConcat(b.index, "\n");
    NoBlankLineConcat(b.index + "\n", inner);
  }

  lemma TimingLineFree(st: string, en: string)
    requires IsStamp(st) && IsStamp(en)
    ensures '\n' !in TimingLine(st, en) && TimingLine(st, en) != []
  {
    StampFree(st);
    StampFree(en);
  }

  /** A readable block yields the entry with its stamps and its caption lines joined by
      spaces. */
  lemma BlockEntryOfText(b: SrtBlock)
    requires ReadableBlock(b)
    ensures BlockEntry(BlockText(b)) == Some(Entry(b.startTime, b.endTime, Join(b.lines, " ")))
  {
    var timing := TimingLine(b.startTime, b.endTime);
    BlockLines(b);
    var lines := [b.index, timing] + b.lines;
    assert lines[1] == timing && lines[2..] == b.lines;
    TimingMatches(b.startTime, b.endTime);
  }

  /** The lines of a readable block: index, timing, then the caption lines. */
  lemma BlockLines(b: SrtBlock)
    requires ReadableBlock(b)
    ensures Split(Strip(BlockText(b)), "\n") == [b.index, TimingLine(b.startTime, b.endTime)] + b.lines
  {
    BlockStripped(b);
    BlockSplit(b);
  }

  lemma BlockStripped(b: SrtBlock)
    requires ReadableBlock(b)
    ensures Strip(BlockText(b)) == BlockText(b)
  {
    BlockTextShape(b);
    StripTrimmed(BlockText(b));
  }

  lemma BlockSplit(b: SrtBlock)
    requires ReadableBlock(b)
    ensures Split(BlockText(b), "\n") == [b.index, TimingLine(b.startTime, b.endTime)] + b.lines
  {
    var timing := TimingLine(b.startTime, b.endTime);
    TimingLineFree(b.startTime, b.endTime);
    SplitLinesAfter(timing, b.lines);
    SplitFirst(b.index, timing + "\n" + Join(b.lines, "\n"), '\n');
  }

  lemma SplitLinesAfter(first: string, lines: seq<string>)
    requires '\n' !in first && |lines| >= 1
    requires forall i :: 0 <= i < |lines| ==> '\n' !in lines[i]
    ensures Split(first + "\n" + Join(lines, "\n"), "\n") == [first] + lines
  {
    SplitJoinChar(lines, '\n');
    SplitFirst(first, Join(lines, "\n"), '\n');
  }

  lemma TimingMatches(st: string, en: string)
    requires IsStamp(st) && IsStamp(en)
    ensures MatchTiming(TimingLine(st, en)) == Some((st, en))
  {
    var timing := TimingLine(st, en);
    assert timing[..12] == st && timing[17..29] == en && timing[12..17] == " --> ";
  }

  function BlockTexts(blocks: seq<SrtBlock>): (ts: seq<string>)
    ensures |ts| == |blocks|
    ensures forall i :: 0 <= i < |blocks| ==> ts[i] == BlockText(blocks[i])
  {
    if blocks == [] then [] else [BlockText(blocks[0])] + BlockTexts(blocks[1..])
  }

  /** The SRT text of the blocks, separated by blank lines. */
  function SrtText(blocks: seq<SrtBlock>): string {
    Join(BlockTexts(blocks), "\n\n")
  }

  function Expected(blocks: seq<SrtBlock>): (es: seq<Entry>)
    ensures |es| == |blocks|
  {
    if blocks == [] then []
    else
      var b := blocks[|blocks| - 1];
      Expected(blocks[..|blocks| - 1]) + [Entry(b.startTime, b.endTime, Join(b.lines, " "))]
  }

  lemma OccursAtBlank(s: string, j: int)
    ensures OccursAt(s, "\n\n", j) <==> 0 <= j && j + 1 < |s| && s[j] == '\n' && s[j + 1] == '\n'
  {
    if 0 <= j && j + 1 < |s| {
      assert s[j..j + 2] == [s[j], s[j + 1]];
    }
  }

  lemma SplitBlankPeel(a: string, rest: string)
    requires NoBlankLine(a) && a != [] && Last(a) != '\n'
    ensures Split(a + "\n\n" + rest, "\n\n") == [a] + Split(rest, "\n\n")
  {
    var s := a + "\n\n" + rest;
    OccursAtBlank(s, |a|);
    forall j | 0 <= j < |a| ensures !OccursAt(s, "\n\n", j) {
      OccursAtBlank(s, j);
      if j + 1 < |a| {
        assert s[j] == a[j] && s[j + 1] == a[j + 1];
      } else {
        assert s[j] == Last(a);
      }
    }
    var k := FindFrom(s, "\n\n", 0);
    assert k == |a|;
    assert s[..|a|] == a;
    assert s[|a| + 2..] == rest;
  }

  lemma SplitBlankNone(a: string)
    requires NoBlankLine(a)
    ensures Split(a, "\n\n") == [a]
  {
    forall j | 0 <= j ensures !OccursAt(a, "\n\n", j) {
      OccursAtBlank(a, j);
    }
  }

  lemma {:induction false} SplitSrtText(blocks: seq<SrtBlock>)
    requires |blocks| >= 1
    requires forall i :: 0 <= i < |blocks| ==> ReadableBlock(blocks[i])
    ensures Split(SrtText(blocks), "\n\n") == BlockTexts(blocks)
    ensures SrtText(blocks) != [] && !IsSpace(SrtText(blocks)[0]) && !IsSpace(Last(SrtText(blocks)))
  {
    BlockTextShape(blocks[0]);
    if |blocks| == 1 {
      SplitBlankNone(BlockText(blocks[0]));
    } else {
      SplitSrtText(blocks[1..]);
      assert BlockTexts(blocks)[1..] == BlockTexts(blocks[1..]);
      SplitBlankPeel(BlockText(blocks[0]), SrtText(blocks[1..]));
      assert SrtText(blocks) == BlockText(blocks[0]) + "\n\n" + SrtText(blocks[1..]);
    }
  }

  lemma {:induction false} CollectBlockTexts(blocks: seq<SrtBlock>)
    requires forall i :: 0 <= i < |blocks| ==> ReadableBlock(blocks[i])
    ensures Collect(BlockTexts(blocks)) == Expected(blocks)
  {
    if blocks != [] {
      var n := |blocks|;
      CollectBlockTexts(blocks[..n - 1]);
      BlockTextsInit(blocks);
      BlockEntryOfText(blocks[n - 1]);
      CollectLast(BlockTexts(blocks));
    }
  }

  lemma {:induction false} BlockTextsInit(blocks: seq<SrtBlock>)
    requires blocks != []
    ensures BlockTexts(blocks)[..|blocks| - 1] == BlockTexts(blocks[..|blocks| - 1])
  {
    var n := |blocks|;
    if n > 1 {
      BlockTextsInit(blocks[1..]);
      assert blocks[1..][..n - 2] == blocks[..n - 1][1..];
      TakeCons(BlockText(blocks[0]), BlockTexts(blocks[1..]));
    }
  }

  lemma TakeCons<T>(x: T, tail: seq<T>)
    requires tail != []
    ensures ([x] + tail)[..|tail|] == [x] + tail[..|tail| - 1]
  {
  }

  lemma CollectLast(ts: seq<string>)
    requires ts != []
    ensures Collect(ts)
      == Collect(ts[..|ts| - 1]) + Found(ts[|ts| - 1])
  {
  }

  /** An empty file has no entries. */
  lemma ParseEmpty()
    ensures ParseEntries("") == []
  {
    StripTrimmed("");
    assert Blocks("") == [""];
    assert Collect([""]) == Collect([]) + Found("");
    assert Split("", "\n") == [""];
  }

  /** Round trip: the analyzer reads back every block an SRT writer lays out, in order, with
      its stamps and with its caption lines joined by single spaces. */
  lemma ParseSrtText(blocks: seq<SrtBlock>)
    requires forall i :: 0 <= i < |blocks| ==> ReadableBlock(blocks[i])
    ensures ParseEntries(SrtText(blocks)) == Expected(blocks)
  {
    if blocks == [] {
      assert SrtText(blocks) == "";
      ParseEmpty();
    } else {
      BlocksOfSrtText(blocks);
      CollectBlockTexts(blocks);
    }
  }

  lemma BlocksOfSrtText(blocks: seq<SrtBlock>)
    requires |blocks| >= 1
    requires forall i :: 0 <= i < |blocks| ==> ReadableBlock(blocks[i])
    ensures Blocks(SrtText(blocks)) == BlockTexts(blocks)
  {
    SplitSrtText(blocks);
    BlocksTrimmed(SrtText(blocks));
  }

  lemma BlocksTrimmed(text: string)
    requires text != [] && !IsSpace(text[0]) && !IsSpace(Last(text))
    ensures Blocks(text) == Split(text, "\n\n")
  {
    StripTrimmed(text);
  }
}
