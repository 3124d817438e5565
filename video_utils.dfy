/** The generic helpers of the pipeline (core/video_utils.py): the file-name sanitiser, the
    mapping of a phase's progress into the whole job's range, the classification of a video
    source, the video id of a URL and the lookup of an earlier download, and the listing of
    the parts a split left behind. The filesystem is a pair of oracles: `listDir` gives the
    names in a directory in directory order, `isDir` and `pathExists` answer for a path. */
module VideoUtils {
  import opened Base
  import opened PyStr
  import opened JsonValue
  import opened PySort

  // ---------------------------------------------------------------------------
  // FileNameSanitizer.sanitize_filename

  /** The characters the sanitiser replaces, in the order it replaces them. */
  const Unsafe: string := "<>:\"/\\|?*"

  const MaxNameLength: nat := 100

  /** `s.replace(c, '_')` for one character. */
  function ReplaceChar(s: string, c: char): (r: string)
    ensures |r| == |s|
  {
    seq(|s|, k requires 0 <= k < |s| => if s[k] == c then '_' else s[k])
  }

  /** Every character of `s` that is one of `chars` turned into `_`, in its own place. */
  function ReplaceEach(s: string, chars: string): (r: string)
    ensures |r| == |s|
  {
    seq(|s|, k requires 0 <= k < |s| => if s[k] in chars then '_' else s[k])
  }

  /** Replacing one more character keeps the one-for-one picture. */
  lemma ReplaceStep(s: string, chars: string, c: char)
    ensures ReplaceChar(ReplaceEach(s, chars), c) == ReplaceEach(s, chars + [c])
  {
  }

  function Truncate(s: string): (r: string)
    ensures |r| <= MaxNameLength
  {
    if |s| > MaxNameLength then s[..MaxNameLength] else s
  }

  /** What `sanitize_filename` returns. */
  function SanitizedName(name: string): string {
    Strip(Truncate(ReplaceEach(name, Unsafe)))
  }

  /** A name the sanitiser could have produced: no unsafe character, at most 100 characters,
      no whitespace at either end. */
  predicate SafeName(r: string) {
    && (forall k :: 0 <= k < |r| ==> r[k] !in Unsafe)
    && |r| <= MaxNameLength
    && (r == [] || (!IsSpace(r[0]) && !IsSpace(r[|r| - 1])))
  }

  method SanitizeFilename(filename: string) returns (r: string)
    ensures r == SanitizedName(filename)
  {
    r := filename;
    assert r == ReplaceEach(filename, Unsafe[..0]);
    for i := 0 to |Unsafe|
      invariant r == ReplaceEach(filename, Unsafe[..i])
    {
      ReplaceStep(filename, Unsafe[..i], Unsafe[i]);
      assert Unsafe[..i + 1] == Unsafe[..i] + [Unsafe[i]];
      r := ReplaceChar(r, Unsafe[i]);
    }
    assert Unsafe[..|Unsafe|] == Unsafe;
    if |r| > MaxNameLength {
      r := r[..MaxNameLength];
    }
    r := Strip(r);
  }

  /** The kept characters sit where they were: the result is the stretch of the replaced and
      truncated name after its leading whitespace. */
  lemma SanitizedPositions(name: string)
    ensures var r, lead := SanitizedName(name), LeadingSpace(Truncate(ReplaceEach(name, Unsafe)));
      && lead + |r| <= |name|
      && forall k :: 0 <= k < |r| ==> r[k] == (if name[lead + k] in Unsafe then '_' else name[lead + k])
  {
    var t := Truncate(ReplaceEach(name, Unsafe));
    StripSlice(t);
  }

  lemma SanitizedSafe(name: string)
    ensures SafeName(SanitizedName(name))
  {
    var t := Truncate(ReplaceEach(name, Unsafe));
    StripSlice(t);
    var r, lead := SanitizedName(name), LeadingSpace(t);
    forall k | 0 <= k < |r|
      ensures r[k] !in Unsafe
    {
      assert r[k] == t[lead + k];
    }
  }

  /** Sanitising twice gives what sanitising once gave. */
  lemma SanitizeIdempotent(name: string)
    ensures SanitizedName(SanitizedName(name)) == SanitizedName(name)
  {
    var r := SanitizedName(name);
    SanitizedSafe(name);
    assert ReplaceEach(r, Unsafe) == r;
    StripIdempotent(Truncate(ReplaceEach(name, Unsafe)));
  }

  // ---------------------------------------------------------------------------
  // ProgressCallbackManager

  /** The callback `create_download_progress_callback` hands to a downloader: it reports a
      download's own percentage as a point of `[start, end]` of the whole job. */
  datatype DownloadProgress = DownloadProgress(start: real, end: real)

  /** No callback, no wrapper. */
  function CreateDownloadProgress(hasCallback: bool, start: real, end: real): (r: Option<DownloadProgress>)
    ensures r.None? <==> !hasCallback
    ensures r.Some? ==> r.value.start == start && r.value.end == end
  {
    if hasCallback then Some(DownloadProgress(start, end)) else None
  }

  /** The message and the overall percentage the wrapper passes on for a download at
      `progress` percent. */
  function DownloadReport(cb: DownloadProgress, status: string, progress: real): (string, real) {
    ("Downloading: " + status, cb.start + Percent(progress, cb.end - cb.start))
  }

  /** `p` percent of `d`. */
  function Percent(p: real, d: real): real {
    p * d / 100.0
  }

  /** The download's 0 and 100 are the phase's start and end. */
  lemma DownloadEnds(cb: DownloadProgress, status: string)
    ensures DownloadReport(cb, status, 0.0).1 == cb.start
    ensures DownloadReport(cb, status, 100.0).1 == cb.end
  {
  }

  /** Over an ascending range, more download progress never reports less overall progress,
      and a download between 0 and 100 percent stays inside the range. */
  lemma DownloadMonotone(cb: DownloadProgress, status: string, p: real, q: real)
    requires cb.start <= cb.end && p <= q
    ensures DownloadReport(cb, status, p).1 <= DownloadReport(cb, status, q).1
    ensures 0.0 <= p <= 100.0 ==>
      cb.start <= DownloadReport(cb, status, p).1 <= cb.end
  {
    var d := cb.end - cb.start;
    ScaleMonotone(p, q, d);
    if 0.0 <= p <= 100.0 {
      ScaleMonotone(0.0, p, d);
      ScaleMonotone(p, 100.0, d);
    }
  }

  lemma ScaleMonotone(p: real, q: real, d: real)
    requires p <= q && d >= 0.0
    ensures Percent(p, d) <= Percent(q, d)
    ensures p == 0.0 ==> Percent(p, d) == 0.0
    ensures q == 100.0 ==> Percent(q, d) == d
  {
    assert q * d - p * d == (q - p) * d;
  }

  /** What `create_whisper_progress_callback` returns, and what it reported. */
  datatype WhisperUpdate = WhisperUpdate(progress: real, report: Option<(string, real)>)

  function WhisperMessage(current: int, total: int): string {
    "Generating transcript for part " + IntToStr(current + 1) + "/" + IntToStr(total) + "..."
  }

  /** The progress of transcribing part `current` of `total`: 0 without a callback, else the
      point `current/total` of `[start, end]`, reported together with the part's label.
      Python's true division raises on a zero `total`. */
  function WhisperProgress(hasCallback: bool, current: int, total: int, start: real, end: real)
    : (r: Outcome<WhisperUpdate>)
    ensures !hasCallback ==> r == Returns(WhisperUpdate(0.0, None))
    ensures r.Raises? <==> hasCallback && total == 0
    ensures hasCallback && r.Returns? ==>
      r.value.report == Some((WhisperMessage(current, total), r.value.progress))
  {
    if !hasCallback then Returns(WhisperUpdate(0.0, None))
    else if total == 0 then Raises("ZeroDivisionError")
    else
      var p := Interpolate(start, end, current as real, total as real);
      Returns(WhisperUpdate(p, Some((WhisperMessage(current, total), p))))
  }

  /** The point `a/t` of the way from `start` to `end`. */
  function Interpolate(start: real, end: real, a: real, t: real): real
    requires t != 0.0
  {
    start + Scaled(a / t, end - start)
  }

  function Scaled(x: real, d: real): real {
    x * d
  }

  /** With a callback, part 0 starts the range and part `total` ends it; over an ascending
      range the progress grows with the part and stays inside the range. */
  lemma WhisperRange(current: int, later: int, total: int, start: real, end: real)
    requires 0 <= current <= later <= total && total > 0 && start <= end
    ensures WhisperProgress(true, 0, total, start, end).value.progress == start
    ensures WhisperProgress(true, total, total, start, end).value.progress == end
    ensures var p := WhisperProgress(true, current, total, start, end).value.progress;
      start <= p <= WhisperProgress(true, later, total, start, end).value.progress <= end
  {
    var t := total as real;
    InterpolateRange(start, end, 0.0, current as real, t);
    InterpolateRange(start, end, current as real, later as real, t);
    InterpolateRange(start, end, later as real, t, t);
  }

  /** For `0 <= a <= b <= t` the points lie in order inside `[start, end]`, with 0 at
      `start` and `t` at `end`. */
  lemma InterpolateRange(start: real, end: real, a: real, b: real, t: real)
    requires 0.0 <= a <= b <= t && t > 0.0 && start <= end
    ensures start <= Interpolate(start, end, a, t) <= Interpolate(start, end, b, t) <= end
    ensures a == 0.0 ==> Interpolate(start, end, a, t) == start
    ensures b == t ==> Interpolate(start, end, b, t) == end
  {
    FractionOrder(a, b, t);
    ScaledOrder(a / t, b / t, end - start);
  }

  lemma FractionOrder(a: real, b: real, t: real)
    requires 0.0 <= a <= b <= t && t > 0.0
    ensures 0.0 <= a / t <= b / t <= 1.0
    ensures a == 0.0 ==> a / t == 0.0
    ensures b == t ==> b / t == 1.0
  {
  }

  lemma ScaledOrder(x: real, y: real, d: real)
    requires 0.0 <= x <= y <= 1.0 && d >= 0.0
    ensures 0.0 <= Scaled(x, d) <= Scaled(y, d) <= d
    ensures x == 0.0 ==> Scaled(x, d) == 0.0
    ensures y == 1.0 ==> Scaled(y, d) == d
  {
    assert y * d - x * d == (y - x) * d;
    assert d - y * d == (1.0 - y) * d;
  }

  // ---------------------------------------------------------------------------
  // VideoFileValidator and validate_video_source

  const VideoExtensions: set<string> :=
    {".mp4", ".mkv", ".avi", ".mov", ".wmv", ".flv", ".webm", ".m4v", ".3gp"}

  /** `s.rfind(c)`: the index of the last `c`, or -1. */
  function RFind(s: string, c: char): (i: int)
    ensures -1 <= i < |s|
    ensures i >= 0 ==> s[i] == c
    ensures forall k :: i < k < |s| ==> s[k] != c
  {
    if s == [] then -1 else if s[|s| - 1] == c then |s| - 1 else RFind(s[..|s| - 1], c)
  }

  /** `Path(p).name`: what follows the last separator. */
  function FileName(p: string): (name: string)
    ensures EndsWith(p, name) && '/' !in name
  {
    p[RFind(p, '/') + 1..]
  }

  /** `Path(p).suffix`: the name from its last dot on, when that dot is neither the first nor
      the last character of the name; otherwise empty. */
  function Suffix(p: string): string {
    var name := FileName(p);
    var i := RFind(name, '.');
    if 0 < i < |name| - 1 then name[i..] else ""
  }

  /** `is_video_file` */
  predicate IsVideoFile(p: string) {
    Lower(Suffix(p)) in VideoExtensions
  }

  predicate IsUrl(source: string) {
    StartsWith(source, "http://") || StartsWith(source, "https://") || StartsWith(source, "ftp://")
  }

  /** `is_local_video_file`: a URL is never local, whatever the filesystem says; otherwise the
      path must exist and carry a video extension. */
  function IsLocalVideoFile(source: string, pathExists: string -> bool): (r: bool)
    ensures IsUrl(source) ==> !r
    ensures r ==> pathExists(source) && IsVideoFile(source)
  {
    if IsUrl(source) then false
    else if !pathExists(source) then false
    else IsVideoFile(source)
  }

  /** A dot followed by ASCII letters and digits. */
  predicate ExtensionForm(e: string) {
    |e| >= 2 && e[0] == '.' && forall k :: 1 <= k < |e| ==> IsAsciiAlnum(e[k])
  }

  lemma ExtensionLetters(e: string)
    requires e in VideoExtensions
    ensures ExtensionForm(e)
  {
    if e == ".mp4" {
    } else if e == ".mkv" {
    } else if e == ".avi" {
    } else if e == ".mov" {
    } else if e == ".wmv" {
    } else if e == ".flv" {
    } else if e == ".webm" {
    } else if e == ".m4v" {
    } else {
      assert e == ".3gp";
    }
  }

  /** A name whose lower-cased form is a dot and letters or digits has one dot, in front, and
      no separator. */
  lemma ExtensionShape(ext: string, e: string)
    requires e == Lower(ext) && ExtensionForm(e)
    ensures |ext| >= 2 && ext[0] == '.'
    ensures forall k :: 1 <= k < |ext| ==> ext[k] != '/' && ext[k] != '.'
  {
    assert e[0] == LowerChar(ext[0]);
    forall k | 1 <= k < |ext|
      ensures ext[k] != '/' && ext[k] != '.'
    {
      assert e[k] == LowerChar(ext[k]) && IsAsciiAlnum(e[k]);
    }
  }

  /** The last `c` of `s` is at `j`. */
  lemma LastAt(s: string, c: char, j: nat)
    requires j < |s| && s[j] == c
    requires forall k :: j < k < |s| ==> s[k] != c
    ensures RFind(s, c) == j
  {
  }

  /** A file named `stem` plus a video extension, in any letter case, is a video file. */
  lemma VideoFileByExtension(dir: string, stem: string, ext: string)
    requires stem != [] && '/' !in stem && Lower(ext) in VideoExtensions
    requires dir == [] || dir[|dir| - 1] == '/'
    ensures IsVideoFile(dir + stem + ext)
  {
    ExtensionLetters(Lower(ext));
    ExtensionShape(ext, Lower(ext));
    SuffixOfName(dir, stem, ext);
  }

  /** The suffix of `dir + stem + ext` is `ext` when `ext` is a dot and at least one more
      character, none of them a dot or a separator. */
  lemma SuffixOfName(dir: string, stem: string, ext: string)
    requires stem != [] && '/' !in stem
    requires dir == [] || dir[|dir| - 1] == '/'
    requires |ext| >= 2 && ext[0] == '.'
    requires forall k :: 1 <= k < |ext| ==> ext[k] != '/' && ext[k] != '.'
    ensures Suffix(dir + stem + ext) == ext
  {
    var name := stem + ext;
    NameParts(stem, ext);
    FileNameOf(dir, name);
    LastAt(name, '.', |stem|);
    SuffixAt(dir + name, name, |stem|);
    Regrouped(dir, stem, ext);
  }

  lemma Regrouped(a: string, b: string, c: string)
    ensures a + b + c == a + (b + c)
  {
  }

  lemma SuffixAt(p: string, name: string, i: int)
    requires FileName(p) == name && RFind(name, '.') == i && 0 < i < |name| - 1
    ensures Suffix(p) == name[i..]
  {
  }

  lemma NameParts(stem: string, ext: string)
    requires '/' !in stem
    requires |ext| >= 2 && ext[0] == '.'
    requires forall k :: 1 <= k < |ext| ==> ext[k] != '/' && ext[k] != '.'
    ensures '/' !in stem + ext && (stem + ext)[|stem|] == '.' && (stem + ext)[|stem|..] == ext
    ensures forall k :: |stem| < k < |stem + ext| ==> (stem + ext)[k] != '.'
  {
    var name := stem + ext;
    forall k | 0 <= k < |name|
      ensures name[k] != '/'
    {
      if k >= |stem| {
        assert name[k] == ext[k - |stem|];
      }
    }
  }

  /** The name of `dir + name` is `name` when `dir` is empty or ends in a separator. */
  lemma FileNameOf(dir: string, name: string)
    requires '/' !in name
    requires dir == [] || dir[|dir| - 1] == '/'
    ensures FileName(dir + name) == name
  {
    var p := dir + name;
    assert forall k :: |dir| <= k < |p| ==> p[k] == name[k - |dir|];
    if dir != [] {
      LastAt(p, '/', |dir| - 1);
    } else {
      assert p == name;
    }
    assert p[|dir|..] == name;
  }

  /** Conversely, the lower-cased path of a video file ends with one of the extensions. */
  lemma VideoFileEnds(p: string)
    requires IsVideoFile(p)
    ensures exists e :: e in VideoExtensions && EndsWith(Lower(p), e)
  {
    LowerEndsWithSuffix(p);
  }

  lemma LowerEndsWithSuffix(p: string)
    ensures EndsWith(Lower(p), Lower(Suffix(p)))
  {
    SuffixIsTail(p);
    LowerTailEnds(p, Suffix(p));
  }

  /** The suffix is the end of the path (or empty). */
  lemma SuffixIsTail(p: string)
    ensures |Suffix(p)| <= |p| && Suffix(p) == p[|p| - |Suffix(p)|..]
  {
    var name := FileName(p);
    var j := RFind(p, '/') + 1;
    assert name == p[j..];
    var i := RFind(name, '.');
    if 0 < i < |name| - 1 {
      SuffixAt(p, name, i);
      TailOfTail(p, j, name, i);
    } else {
      SuffixEmpty(p, name, i);
      assert p[|p|..] == [];
    }
  }

  lemma SuffixEmpty(p: string, name: string, i: int)
    requires FileName(p) == name && RFind(name, '.') == i && !(0 < i < |name| - 1)
    ensures Suffix(p) == []
  {
  }

  lemma TailOfTail(p: string, j: nat, name: string, i: nat)
    requires j <= |p| && name == p[j..] && i <= |name|
    ensures name[i..] == p[j + i..]
  {
  }

  lemma LowerTailEnds(p: string, x: string)
    requires |x| <= |p| && x == p[|p| - |x|..]
    ensures EndsWith(Lower(p), Lower(x))
  {
    LowerSuffix(p, |p| - |x|);
  }
  /** `validate_video_source`: a local video file, else a web URL, else unknown. */
  function ValidateVideoSource(source: string, pathExists: string -> bool): (r: (bool, string))
    ensures r.0 <==> (IsLocalVideoFile(source, pathExists)
                      || StartsWith(source, "http://") || StartsWith(source, "https://"))
    ensures r.0 ==> r.1 == (if IsLocalVideoFile(source, pathExists) then "local_file" else "url")
    ensures !r.0 ==> r.1 == "unknown"
  {
    if IsLocalVideoFile(source, pathExists) then (true, "local_file")
    else if StartsWith(source, "http://") || StartsWith(source, "https://") then (true, "url")
    else (false, "unknown")
  }

  /** An `ftp://` source is neither local nor accepted as a URL. */
  lemma FtpUnknown(source: string, pathExists: string -> bool)
    requires StartsWith(source, "ftp://")
    ensures ValidateVideoSource(source, pathExists) == (false, "unknown")
  {
    assert source[0] == 'f';
  }

  // ---------------------------------------------------------------------------
  // The video id of a URL (find_existing_download)

  /** `lit` occurs at `i` and is followed by at least one character of `cls`. */
  predicate Hit(s: string, lit: string, cls: char -> bool, i: nat) {
    i + |lit| < |s| && s[i..i + |lit|] == lit && cls(s[i + |lit|])
  }

  /** Where `re.search` finds `lit` followed by `cls+`: the leftmost hit at or after `i`. */
  function SearchFrom(s: string, lit: string, cls: char -> bool, i: nat): (r: Option<nat>)
    ensures r.Some? ==> i <= r.value && Hit(s, lit, cls, r.value)
    ensures forall k :: i <= k && (r.None? || k < r.value) ==> !Hit(s, lit, cls, k)
    decreases |s| - i
  {
    if i + |lit| >= |s| then None
    else if Hit(s, lit, cls, i) then Some(i)
    else SearchFrom(s, lit, cls, i + 1)
  }

  /** Where the greedy run of `cls` characters starting at `j` ends. */
  function RunEnd(s: string, cls: char -> bool, j: nat): (k: nat)
    requires j <= |s|
    ensures j <= k <= |s|
    ensures forall m :: j <= m < k ==> cls(s[m])
    ensures k == |s| || !cls(s[k])
    decreases |s| - j
  {
    if j < |s| && cls(s[j]) then RunEnd(s, cls, j + 1) else j
  }

  /** The group `([cls]+)` of the first match of `lit` followed by it. */
  function Group(s: string, lit: string, cls: char -> bool): (r: Option<string>)
    ensures r.Some? ==> r.value != []
  {
    match SearchFrom(s, lit, cls, 0)
    case None => None
    case Some(i) => Some(s[i + |lit|..RunEnd(s, cls, i + |lit|)])
  }

  /** `BV[a-zA-Z0-9]+`: the whole match, from the first hit of `BV`. */
  function BvId(url: string): (r: Option<string>)
    ensures r.Some? ==> StartsWith(r.value, "BV") && |r.value| > 2
    ensures r.None? <==> forall k :: !Hit(url, "BV", IsAsciiAlnum, k)
  {
    match SearchFrom(url, "BV", IsAsciiAlnum, 0)
    case None => None
    case Some(i) => Some(url[i..RunEnd(url, IsAsciiAlnum, i + 2)])
  }

  /** The YouTube forms, tried in this order; each is followed by `[\w-]+`. */
  const YouTubePatterns: seq<string> :=
    ["youtube.com/watch?v=", "youtu.be/", "youtube.com/shorts/", "youtube.com/embed/"]

  /** `[\w-]`, where `word` is the `\w` class of the regular-expression engine. */
  function IdClass(word: char -> bool): char -> bool {
    c => word(c) || c == '-'
  }

  /** The group of the first pattern that matches. */
  function FirstGroup(patterns: seq<string>, url: string, cls: char -> bool): (r: Option<string>)
    ensures r.Some? ==> r.value != []
  {
    if patterns == [] then None
    else match Group(url, patterns[0], cls)
      case Some(id) => Some(id)
      case None => FirstGroup(patterns[1..], url, cls)
  }

  /** The video id: a Bilibili `BV` id anywhere in the URL first, then the YouTube forms. */
  function VideoId(url: string, word: char -> bool): (r: Option<string>)
    ensures r.Some? ==> r.value != []
  {
    match BvId(url)
    case Some(id) => Some(id)
    case None => FirstGroup(YouTubePatterns, url, IdClass(word))
  }

  /** A `BV` id wins over every YouTube form. */
  lemma BilibiliFirst(url: string, word: char -> bool, i: nat)
    requires Hit(url, "BV", IsAsciiAlnum, i)
    ensures VideoId(url, word) == BvId(url) && StartsWith(VideoId(url, word).value, "BV")
  {
  }

  /** Without a `BV` id the id is the group of the first YouTube form that matches, and there
      is none when no form matches. */
  lemma {:induction false} FirstGroupIs(patterns: seq<string>, url: string, cls: char -> bool, k: nat)
    requires k <= |patterns|
    requires forall j :: 0 <= j < k ==> Group(url, patterns[j], cls).None?
    ensures FirstGroup(patterns, url, cls)
      == if k == |patterns| then None else FirstGroup(patterns[k..], url, cls)
  {
    if k > 0 {
      assert Group(url, patterns[0], cls).None?;
      FirstGroupIs(patterns[1..], url, cls, k - 1);
      assert patterns[1..][k - 1..] == patterns[k..];
    }
  }

  /** Some form matching is enough for an id. */
  lemma {:induction false} FirstGroupSome(patterns: seq<string>, url: string, cls: char -> bool, k: nat)
    requires k < |patterns| && Group(url, patterns[k], cls).Some?
    ensures FirstGroup(patterns, url, cls).Some?
  {
    if k > 0 && Group(url, patterns[0], cls).None? {
      FirstGroupSome(patterns[1..], url, cls, k - 1);
    }
  }

  lemma YouTubeOrder(url: string, word: char -> bool, k: nat)
    requires BvId(url).None? && k < |YouTubePatterns|
    requires forall j :: 0 <= j < k ==> Group(url, YouTubePatterns[j], IdClass(word)).None?
    requires Group(url, YouTubePatterns[k], IdClass(word)).Some?
    ensures VideoId(url, word) == Group(url, YouTubePatterns[k], IdClass(word))
  {
    FirstGroupIs(YouTubePatterns, url, IdClass(word), k);
  }

  lemma NoVideoId(url: string, word: char -> bool)
    requires BvId(url).None?
    requires forall j :: 0 <= j < |YouTubePatterns| ==> Group(url, YouTubePatterns[j], IdClass(word)).None?
    ensures VideoId(url, word).None?
  {
    FirstGroupIs(YouTubePatterns, url, IdClass(word), |YouTubePatterns|);
  }

  method ExtractVideoId(url: string, word: char -> bool) returns (id: Option<string>)
    ensures id == VideoId(url, word)
  {
    var bv := BvId(url);
    if bv.Some? {
      return bv;
    }
    id := None;
    var patterns := YouTubePatterns;
    for i := 0 to |patterns|
      invariant FirstGroup(patterns[i..], url, IdClass(word)) == FirstGroup(patterns, url, IdClass(word))
    {
      var m := Group(url, patterns[i], IdClass(word));
      assert patterns[i..][1..] == patterns[i + 1..];
      if m.Some? {
        return m;
      }
    }
  }

  // ---------------------------------------------------------------------------
  // find_existing_download

  /** What `find_existing_download` returns: the video's path, its metadata and the subtitle
      path, `""` when there is none. */
  datatype Download = Download(videoPath: Option<string>, videoInfo: Json, subtitlePath: string)

  /** The result of every failure. */
  const NotFound: Download := Download(None, JObj([]), "")

  /** The names `*suffix` matches, in directory order: a name is listed exactly when it is
      in the directory and ends with the suffix (`EndingAppend` gives the order). */
  function Ending(names: seq<string>, suffix: string): (r: seq<string>)
    ensures forall k :: 0 <= k < |r| ==> EndsWith(r[k], suffix)
    ensures forall x :: x in r <==> x in names && EndsWith(x, suffix)
    ensures |r| <= |names|
    ensures r == [] <==> forall k :: 0 <= k < |names| ==> !EndsWith(names[k], suffix)
  {
    if names == [] then []
    else
      assert forall x :: x in names <==> x == names[0] || x in names[1..];
      (if EndsWith(names[0], suffix) then [names[0]] else []) + Ending(names[1..], suffix)
  }

  /** Filtering keeps the directory order: the matches of a listing are those of its first
      entries followed by those of the rest. */
  lemma {:induction false} EndingAppend(a: seq<string>, b: seq<string>, suffix: string)
    ensures Ending(a + b, suffix) == Ending(a, suffix) + Ending(b, suffix)
  {
    if a != [] {
      assert (a + b)[0] == a[0] && (a + b)[1..] == a[1..] + b;
      EndingAppend(a[1..], b, suffix);
    } else {
      assert a + b == b;
    }
  }

  /** `{id}*` matches the entry and it is a directory. */
  predicate DirMatches(name: string, id: string, downloads: string, isDir: string -> bool) {
    StartsWith(name, id) && isDir(PathJoin(downloads, name))
  }

  /** The first entry `{id}*` matches that is a directory: none exactly when no entry
      qualifies, otherwise a qualifying entry with none before it. */
  function FirstDir(names: seq<string>, id: string, downloads: string, isDir: string -> bool)
    : (r: Option<string>)
    ensures r.Some? ==> DirMatches(r.value, id, downloads, isDir)
    ensures r.None? <==> forall k :: 0 <= k < |names| ==> !DirMatches(names[k], id, downloads, isDir)
    ensures r.Some? ==>
      exists k ::
        0 <= k < |names| && names[k] == r.value
        && forall j :: 0 <= j < k ==> !DirMatches(names[j], id, downloads, isDir)
  {
    if names == [] then None
    else if DirMatches(names[0], id, downloads, isDir) then Some(names[0])
    else
      var r := FirstDir(names[1..], id, downloads, isDir);
      assert r.Some? ==>
        exists k ::
          0 <= k < |names| && names[k] == r.value
          && forall j :: 0 <= j < k ==> !DirMatches(names[j], id, downloads, isDir)
      by {
        if r.Some? {
          var k :| 0 <= k < |names[1..]| && names[1..][k] == r.value
            && forall j :: 0 <= j < k ==> !DirMatches(names[1..][j], id, downloads, isDir);
          assert forall j :: 0 <= j < k + 1 ==> !DirMatches(names[j], id, downloads, isDir) by {
            forall j | 0 <= j < k + 1 ensures !DirMatches(names[j], id, downloads, isDir) {
              if j > 0 {
                assert names[j] == names[1..][j - 1];
              }
            }
          }
          assert names[k + 1] == r.value;
        }
      }
      r
  }

  function VideoFiles(names: seq<string>): seq<string> {
    Ending(names, ".mp4") + Ending(names, ".mkv") + Ending(names, ".webm")
  }

  /** The metadata without a readable info file. */
  function DefaultInfo(dirName: string): Json {
    JObj([("title", JStr(dirName)), ("duration", JInt(0))])
  }

  /** What is found in the download directory `dirName`. */
  function InDirectory(downloads: string, dirName: string, listDir: string -> seq<string>,
                       loadInfo: string -> Option<Json>): Download
  {
    var dir := PathJoin(downloads, dirName);
    var names := listDir(dir);
    var videos := VideoFiles(names);
    if videos == [] then NotFound
    else
      var subtitles := Ending(names, ".srt");
      var infos := Ending(names, ".info.json");
      var info :=
        if infos == [] then DefaultInfo(dirName)
        else match loadInfo(PathJoin(dir, infos[0]))
          case Some(j) => j
          case None => DefaultInfo(dirName);
      Download(Some(PathJoin(dir, videos[0])), info,
               if subtitles == [] then "" else PathJoin(dir, subtitles[0]))
  }

  /** `find_existing_download`: the id of the URL, the first directory under
      `outputDir/downloads` that starts with it, and the first video in there. */
  function ExistingDownload(url: string, word: char -> bool, outputDir: string,
                            listDir: string -> seq<string>, isDir: string -> bool,
                            loadInfo: string -> Option<Json>): Download
  {
    match VideoId(url, word)
    case None => NotFound
    case Some(id) =>
      var downloads := PathJoin(outputDir, "downloads");
      match FirstDir(listDir(downloads), id, downloads, isDir)
      case None => NotFound
      case Some(dirName) => InDirectory(downloads, dirName, listDir, loadInfo)
  }

  /** Every failure gives the same result, and a failure is exactly one of: no id in the URL,
      no directory for it, no video in the directory. */
  lemma ExistingDownloadFailure(url: string, word: char -> bool, outputDir: string,
                                listDir: string -> seq<string>, isDir: string -> bool,
                                loadInfo: string -> Option<Json>)
    ensures var r := ExistingDownload(url, word, outputDir, listDir, isDir, loadInfo);
      r.videoPath.None? ==> r == NotFound
    ensures var r := ExistingDownload(url, word, outputDir, listDir, isDir, loadInfo);
      var downloads := PathJoin(outputDir, "downloads");
      r.videoPath.None? <==>
        || VideoId(url, word).None?
        || FirstDir(listDir(downloads), VideoId(url, word).value, downloads, isDir).None?
        || VideoFiles(listDir(PathJoin(downloads,
             FirstDir(listDir(downloads), VideoId(url, word).value, downloads, isDir).value))) == []
  {
  }

  /** A found video is an `.mp4`, `.mkv` or `.webm` file, and an `.mp4` whenever the directory
      holds one. */
  lemma ExistingDownloadPrefersMp4(downloads: string, dirName: string,
                                   listDir: string -> seq<string>, loadInfo: string -> Option<Json>)
    ensures var r := InDirectory(downloads, dirName, listDir, loadInfo);
      r.videoPath.Some? ==>
        EndsWith(r.videoPath.value, ".mp4") || EndsWith(r.videoPath.value, ".mkv")
        || EndsWith(r.videoPath.value, ".webm")
    ensures var names := listDir(PathJoin(downloads, dirName));
      (exists k :: 0 <= k < |names| && EndsWith(names[k], ".mp4")) ==>
        EndsWith(InDirectory(downloads, dirName, listDir, loadInfo).videoPath.value, ".mp4")
  {
    var dir := PathJoin(downloads, dirName);
    var names := listDir(dir);
    var videos := VideoFiles(names);
    if videos != [] {
      var v := videos[0];
      FirstVideoEnds(names);
      var path := PathJoin(dir, v);
      EndsWithTrans(path, v, ".mp4");
      EndsWithTrans(path, v, ".mkv");
      EndsWithTrans(path, v, ".webm");
    } else {
      FirstVideoEnds(names);
    }
  }

  /** The first video file is an `.mp4`, `.mkv` or `.webm`, and an `.mp4` if there is one. */
  lemma FirstVideoEnds(names: seq<string>)
    ensures VideoFiles(names) != [] ==>
      var v := VideoFiles(names)[0];
      EndsWith(v, ".mp4") || EndsWith(v, ".mkv") || EndsWith(v, ".webm")
    ensures (exists k :: 0 <= k < |names| && EndsWith(names[k], ".mp4")) ==>
      VideoFiles(names) != [] && EndsWith(VideoFiles(names)[0], ".mp4")
  {
    var mp4, mkv, webm := Ending(names, ".mp4"), Ending(names, ".mkv"), Ending(names, ".webm");
    assert VideoFiles(names) == mp4 + mkv + webm;
    if mp4 != [] {
      assert VideoFiles(names)[0] == mp4[0];
    } else if mkv != [] {
      assert VideoFiles(names)[0] == mkv[0];
    } else if webm != [] {
      assert VideoFiles(names)[0] == webm[0];
    }
  }

  lemma EndsWithTrans(s: string, t: string, u: string)
    requires EndsWith(s, t)
    ensures EndsWith(t, u) ==> EndsWith(s, u)
  {
    if EndsWith(t, u) {
      assert s[|s| - |u|..] == t[|t| - |u|..];
    }
  }

  method FindExistingDownload(url: string, word: char -> bool, outputDir: string,
                              listDir: string -> seq<string>, isDir: string -> bool,
                              loadInfo: string -> Option<Json>)
    returns (r: Download)
    ensures r == ExistingDownload(url, word, outputDir, listDir, isDir, loadInfo)
  {
    var id := ExtractVideoId(url, word);
    if id.None? {
      return NotFound;
    }
    var downloads := PathJoin(outputDir, "downloads");
    var entries := listDir(downloads);
    var found: Option<string> := None;
    for i := 0 to |entries|
      invariant FirstDir(entries[i..], id.value, downloads, isDir)
        == FirstDir(entries, id.value, downloads, isDir)
    {
      assert entries[i..][1..] == entries[i + 1..];
      if StartsWith(entries[i], id.value) && isDir(PathJoin(downloads, entries[i])) {
        found := Some(entries[i]);
        break;
      }
    }
    if found.None? {
      return NotFound;
    }
    return InDirectory(downloads, found.value, listDir, loadInfo);
  }

  // ---------------------------------------------------------------------------
  // find_video_parts

  /** `{baseName}_part*{ext}` matches the name. */
  predicate IsPartName(name: string, baseName: string, ext: string) {
    var prefix := baseName + "_part";
    StartsWith(name, prefix) && EndsWith(name, ext) && |name| >= |prefix| + |ext|
  }

  /** The names `{baseName}_part*{ext}` matches, in directory order: a name is listed exactly
      when it is in the directory and matches (`PartNamesAppend` gives the order). */
  function PartNames(names: seq<string>, baseName: string, ext: string): (r: seq<string>)
    ensures forall k :: 0 <= k < |r| ==> IsPartName(r[k], baseName, ext)
    ensures forall x :: x in r <==> x in names && IsPartName(x, baseName, ext)
    ensures |r| <= |names|
  {
    if names == [] then []
    else
      assert forall x :: x in names <==> x == names[0] || x in names[1..];
      (if IsPartName(names[0], baseName, ext) then [names[0]] else [])
      + PartNames(names[1..], baseName, ext)
  }

  /** Filtering keeps the directory order: the parts of a listing are those of its first
      entries followed by those of the rest. */
  lemma {:induction false} PartNamesAppend(a: seq<string>, b: seq<string>, baseName: string, ext: string)
    ensures PartNames(a + b, baseName, ext) == PartNames(a, baseName, ext) + PartNames(b, baseName, ext)
  {
    if a != [] {
      assert (a + b)[0] == a[0] && (a + b)[1..] == a[1..] + b;
      PartNamesAppend(a[1..], b, baseName, ext);
    } else {
      assert a + b == b;
    }
  }

  function Paths(dir: string, names: seq<string>): (r: seq<string>)
    ensures |r| == |names|
  {
    seq(|names|, k requires 0 <= k < |names| => PathJoin(dir, names[k]))
  }

  /** `find_video_parts`: the video and the subtitle parts under `{baseName}_split`. */
  function FindVideoParts(splitsDir: string, baseName: string, listDir: string -> seq<string>)
    : (seq<string>, seq<string>)
  {
    var dir := PathJoin(splitsDir, baseName + "_split");
    var names := listDir(dir);
    (Sort(Paths(dir, PartNames(names, baseName, ".mp4"))),
     Sort(Paths(dir, PartNames(names, baseName, ".srt"))))
  }

  /** Both lists come back in ascending order and hold exactly the paths of the matching
      names. */
  lemma VideoPartsSorted(splitsDir: string, baseName: string, listDir: string -> seq<string>)
    ensures var dir := PathJoin(splitsDir, baseName + "_split");
      var (videos, subtitles) := FindVideoParts(splitsDir, baseName, listDir);
      && Sorted(videos) && multiset(videos) == multiset(Paths(dir, PartNames(listDir(dir), baseName, ".mp4")))
      && Sorted(subtitles) && multiset(subtitles) == multiset(Paths(dir, PartNames(listDir(dir), baseName, ".srt")))
  {
    var dir := PathJoin(splitsDir, baseName + "_split");
    SortSorted(Paths(dir, PartNames(listDir(dir), baseName, ".mp4")));
    SortSorted(Paths(dir, PartNames(listDir(dir), baseName, ".srt")));
  }
}
