/** The clip generator: naming clips after their titles, reading the `MM:SS` and `HH:MM:SS`
    times of a moment, finding the source video of a part, and the bookkeeping of a run over
    the top moments. ffmpeg is a function from its arguments to whether it wrote the clip; the
    video directory is the list of file names it holds. */
module ClipGeneration {
  import opened Base
  import opened PyStr
  import opened JsonValue

  // ---------------------------------------------------------------------------
  // _sanitize_filename

  /** Python's `\w` for `str` patterns (Unicode letters, digits and the underscore) is given as
      `word`; all the sanitizer needs of it is that the underscore is a word character and that
      no whitespace character or hyphen is. */
  predicate WordClass(word: char -> bool) {
    word('_') && forall c :: word(c) ==> !IsSpace(c) && c != '-'
  }

  /** What `[\s\-]` matches. */
  predicate Separator(c: char) { IsSpace(c) || c == '-' }

  predicate IsUnderscore(c: char) { c == '_' }

  /** What `[\w\s-]` matches. */
  predicate Allowed(c: char, word: char -> bool) { word(c) || Separator(c) }

  /** `re.sub(r'[^\w\s-]', '', s)`: drops every character that is not a word character,
      whitespace or a hyphen (emoji and punctuation). */
  function DropDisallowed(s: string, word: char -> bool): (r: string)
    ensures forall i :: 0 <= i < |r| ==> Allowed(r[i], word)
  {
    if s == [] then []
    else (if Allowed(s[0], word) then [s[0]] else []) + DropDisallowed(s[1..], word)
  }

  /** The rest of `s` after its leading run of characters `run` matches. */
  function SkipRun(s: string, run: char -> bool): (r: string)
    ensures |r| <= |s| && r == s[|s| - |r|..]
    ensures r == [] || !run(r[0])
  {
    if s != [] && run(s[0]) then
      var r := SkipRun(s[1..], run);
      assert s[1..][|s| - 1 - |r|..] == s[|s| - |r|..];
      r
    else s
  }

  /** `re.sub(p + '+', '_', s)` for a one-character class `p`: every maximal run of characters
      `run` matches becomes one underscore. */
  function Collapse(s: string, run: char -> bool): (r: string)
    ensures (r == []) == (s == [])
    ensures r != [] ==> r[0] == if run(s[0]) then '_' else s[0]
    ensures forall i :: 0 <= i < |r| ==> r[i] == '_' || (r[i] in s && !run(r[i]))
    decreases |s|
  {
    if s == [] then []
    else if run(s[0]) then
      var rest := SkipRun(s[1..], run);
      assert forall c :: c in rest ==> c in s;
      "_" + Collapse(rest, run)
    else [s[0]] + Collapse(s[1..], run)
  }

  /** `ClipGenerator._sanitize_filename`: drop what is not a word character, whitespace or a
      hyphen; turn runs of whitespace and hyphens into `_`; squeeze runs of `_`; trim `_`. */
  function Sanitize(title: string, word: char -> bool): string {
    StripChar(Collapse(Collapse(DropDisallowed(title, word), Separator), IsUnderscore), '_')
  }

  /** No two underscores side by side. */
  predicate NoDoubleUnderscore(s: string) {
    forall i, j :: 0 <= i < |s| && 0 <= j < |s| && j == i + 1 ==> !(s[i] == '_' && s[j] == '_')
  }

  /** Every character of `s` is a word character. */
  predicate AllWord(s: string, word: char -> bool) {
    forall i :: 0 <= i < |s| ==> word(s[i])
  }

  /** A name the sanitizer produces: word characters only, no `__`, no `_` at either end. */
  predicate SafeName(s: string, word: char -> bool) {
    AllWord(s, word) && NoDoubleUnderscore(s) && (s == [] || (s[0] != '_' && s[|s| - 1] != '_'))
  }

  /** Squeezing the runs of underscores leaves no two side by side. */
  lemma {:induction false} CollapseNoDouble(s: string)
    ensures NoDoubleUnderscore(Collapse(s, IsUnderscore))
    decreases |s|
  {
    if s != [] {
      if s[0] == '_' {
        CollapseNoDouble(SkipRun(s[1..], IsUnderscore));
      } else {
        CollapseNoDouble(s[1..]);
      }
    }
  }

  /** Trimming a character from both ends keeps a contiguous part of the text. */
  lemma {:induction false} StripCharNoDouble(s: string, c: char)
    requires NoDoubleUnderscore(s)
    ensures NoDoubleUnderscore(StripChar(s, c))
    decreases |s|
  {
    if s != [] && s[0] == c {
      StripCharNoDouble(s[1..], c);
    } else if s != [] && s[|s| - 1] == c {
      StripCharNoDouble(s[..|s| - 1], c);
    }
  }

  /** The sanitizer's output holds word characters only, has no `__`, and neither starts nor
      ends with `_`. */
  lemma SanitizeSafe(title: string, word: char -> bool)
    requires WordClass(word)
    ensures SafeName(Sanitize(title, word), word)
  {
    var s1 := DropDisallowed(title, word);
    var s2 := Collapse(s1, Separator);
    var s3 := Collapse(s2, IsUnderscore);
    assert AllWord(s2, word);
    assert AllWord(s3, word);
    CollapseNoDouble(s2);
    StripCharNoDouble(s3, '_');
  }

  lemma {:induction false} DropAllowed(s: string, word: char -> bool)
    requires forall i :: 0 <= i < |s| ==> Allowed(s[i], word)
    ensures DropDisallowed(s, word) == s
  {
    if s != [] {
      DropAllowed(s[1..], word);
    }
  }

  lemma {:induction false} CollapseAbsent(s: string, run: char -> bool)
    requires forall i :: 0 <= i < |s| ==> !run(s[i])
    ensures Collapse(s, run) == s
  {
    if s != [] {
      CollapseAbsent(s[1..], run);
    }
  }

  lemma {:induction false} CollapseSingles(s: string)
    requires NoDoubleUnderscore(s)
    ensures Collapse(s, IsUnderscore) == s
  {
    if s != [] {
      assert NoDoubleUnderscore(s[1..]);
      CollapseSingles(s[1..]);
      if s[0] == '_' {
        assert s[1..] == [] || s[1..][0] != '_';
      }
    }
  }

  /** Sanitizing a sanitized name changes nothing. */
  lemma SanitizeIdempotent(title: string, word: char -> bool)
    requires WordClass(word)
    ensures Sanitize(Sanitize(title, word), word) == Sanitize(title, word)
  {
    var r := Sanitize(title, word);
    SanitizeSafe(title, word);
    DropAllowed(r, word);
    CollapseAbsent(r, Separator);
    CollapseSingles(r);
  }

  /** The characters of `s` other than `_`. */
  function WithoutUnderscores(s: string): (r: string)
    ensures |r| <= |s|
  {
    if s == [] then [] else (if s[0] == '_' then [] else [s[0]]) + WithoutUnderscores(s[1..])
  }

  /** The characters of `s` that are neither separators nor `_`. */
  function Plain(s: string): (r: string)
  {
    if s == [] then [] else (if Separator(s[0]) || s[0] == '_' then [] else [s[0]]) + Plain(s[1..])
  }

  /** The word characters of `s` other than `_`, in order. */
  function WordChars(s: string, word: char -> bool): (r: string)
  {
    if s == [] then [] else (if word(s[0]) && s[0] != '_' then [s[0]] else []) + WordChars(s[1..], word)
  }

  lemma WithoutLeading(x: string)
    ensures WithoutUnderscores("_" + x) == WithoutUnderscores(x)
    ensures Plain("_" + x) == Plain(x)
  {
    assert ("_" + x)[1..] == x;
  }

  lemma WithoutCons(c: char, x: string)
    ensures WithoutUnderscores([c] + x) == (if c == '_' then [] else [c]) + WithoutUnderscores(x)
    ensures Plain([c] + x) == (if Separator(c) || c == '_' then [] else [c]) + Plain(x)
  {
    assert ([c] + x)[1..] == x;
  }

  lemma {:induction false} SkipUnderscores(s: string)
    ensures WithoutUnderscores(SkipRun(s, IsUnderscore)) == WithoutUnderscores(s)
  {
    if s != [] && s[0] == '_' {
      SkipUnderscores(s[1..]);
    }
  }

  lemma {:induction false} SkipSeparators(s: string)
    ensures Plain(SkipRun(s, Separator)) == Plain(s)
  {
    if s != [] && Separator(s[0]) {
      SkipSeparators(s[1..]);
    }
  }

  lemma {:induction false} CollapseUnderscoresKeeps(s: string)
    ensures WithoutUnderscores(Collapse(s, IsUnderscore)) == WithoutUnderscores(s)
    decreases |s|
  {
    if s != [] {
      if s[0] == '_' {
        var rest := SkipRun(s[1..], IsUnderscore);
        CollapseUnderscoresKeeps(rest);
        SkipUnderscores(s[1..]);
        WithoutLeading(Collapse(rest, IsUnderscore));
      } else {
        CollapseUnderscoresKeeps(s[1..]);
        WithoutCons(s[0], Collapse(s[1..], IsUnderscore));
      }
    }
  }

  lemma {:induction false} CollapseSeparatorsKeeps(s: string)
    ensures WithoutUnderscores(Collapse(s, Separator)) == Plain(s)
    decreases |s|
  {
    if s != [] {
      if Separator(s[0]) {
        var rest := SkipRun(s[1..], Separator);
        CollapseSeparatorsKeeps(rest);
        SkipSeparators(s[1..]);
        WithoutLeading(Collapse(rest, Separator));
      } else {
        CollapseSeparatorsKeeps(s[1..]);
        WithoutCons(s[0], Collapse(s[1..], Separator));
      }
    }
  }

  lemma {:induction false} StripUnderscoresKeeps(s: string)
    ensures WithoutUnderscores(StripChar(s, '_')) == WithoutUnderscores(s)
    decreases |s|
  {
    if s != [] && s[0] == '_' {
      StripUnderscoresKeeps(s[1..]);
    } else if s != [] && s[|s| - 1] == '_' {
      StripUnderscoresKeeps(s[..|s| - 1]);
      WithoutSnoc(s[..|s| - 1], '_');
      assert s[..|s| - 1] + ['_'] == s;
    }
  }

  lemma {:induction false} WithoutSnoc(s: string, c: char)
    ensures WithoutUnderscores(s + [c]) == WithoutUnderscores(s) + (if c == '_' then [] else [c])
  {
    if s != [] {
      assert (s + [c])[1..] == s[1..] + [c];
      WithoutSnoc(s[1..], c);
    } else {
      assert ([] + [c])[1..] == [];
    }
  }

  lemma {:induction false} DropDisallowedPlain(s: string, word: char -> bool)
    requires WordClass(word)
    ensures Plain(DropDisallowed(s, word)) == WordChars(s, word)
  {
    if s != [] {
      DropDisallowedPlain(s[1..], word);
      assert word(s[0]) ==> !Separator(s[0]);
      if Allowed(s[0], word) {
        assert DropDisallowed(s, word) == [s[0]] + DropDisallowed(s[1..], word);
        WithoutCons(s[0], DropDisallowed(s[1..], word));
      } else {
        assert DropDisallowed(s, word) == DropDisallowed(s[1..], word);
      }
    }
  }

  /** Apart from the underscores it places between words, the sanitizer keeps exactly the word
      characters of the title, in order. */
  lemma SanitizeKeepsWords(title: string, word: char -> bool)
    requires WordClass(word)
    ensures WithoutUnderscores(Sanitize(title, word)) == WordChars(title, word)
  {
    var s1 := DropDisallowed(title, word);
    var s2 := Collapse(s1, Separator);
    var s3 := Collapse(s2, IsUnderscore);
    StripUnderscoresKeeps(s3);
    CollapseUnderscoresKeeps(s2);
    CollapseSeparatorsKeeps(s1);
    DropDisallowedPlain(title, word);
  }

  // ---------------------------------------------------------------------------
  // _time_to_seconds

  /** `ClipGenerator._time_to_seconds`: `MM:SS` or `HH:MM:SS` in seconds, 0 for any other
      number of `:`-separated fields; `None` where `int()` raises ValueError. */
  function TimeToSeconds(text: string): (r: Option<int>)
    ensures |Split(text, ":")| != 2 && |Split(text, ":")| != 3 ==> r == Some(0)
  {
    var parts := Split(text, ":");
    if |parts| == 2 then
      var m, s := ParseInt(parts[0]), ParseInt(parts[1]);
      if m.Some? && s.Some? then Some(m.value * 60 + s.value) else None
    else if |parts| == 3 then
      var h, m, s := ParseInt(parts[0]), ParseInt(parts[1]), ParseInt(parts[2]);
      if h.Some? && m.Some? && s.Some? then Some(h.value * 3600 + m.value * 60 + s.value) else None
    else Some(0)
  }

  lemma SplitTwo(a: string, b: string)
    requires ':' !in a && ':' !in b
    ensures Split(a + ":" + b, ":") == [a, b]
  {
    SplitFirst(a, b, ':');
    SplitNone(b, ':');
  }

  lemma SplitThree(a: string, b: string, c: string)
    requires ':' !in a && ':' !in b && ':' !in c
    ensures Split(a + ":" + b + ":" + c, ":") == [a, b, c]
  {
    assert a + ":" + b + ":" + c == a + [':'] + (b + ":" + c);
    SplitFirst(a, b + ":" + c, ':');
    SplitTwo(b, c);
  }

  /** `MM:SS`: two fields `int()` reads as `m` and `s` give `60m + s` seconds. */
  lemma MinSecFields(a: string, b: string, x: int, y: int)
    requires ':' !in a && ':' !in b && ParseInt(a) == Some(x) && ParseInt(b) == Some(y)
    ensures TimeToSeconds(a + ":" + b) == Some(x * 60 + y)
  {
    SplitTwo(a, b);
  }

  /** `HH:MM:SS`: three fields `int()` reads as `h`, `m` and `s` give `3600h + 60m + s`
      seconds. */
  lemma HourMinSecFields(a: string, b: string, c: string, x: int, y: int, z: int)
    requires ':' !in a && ':' !in b && ':' !in c
    requires ParseInt(a) == Some(x) && ParseInt(b) == Some(y) && ParseInt(c) == Some(z)
    ensures TimeToSeconds(a + ":" + b + ":" + c) == Some(x * 3600 + y * 60 + z)
  {
    SplitThree(a, b, c);
  }

  // ---------------------------------------------------------------------------
  // _find_video_file

  /** A glob pattern over the names in one directory: `*` followed by a suffix, or a plain
      name. */
  datatype Pattern = AnyThen(suffix: string) | Exactly(name: string)

  predicate Matches(p: Pattern, name: string) {
    match p
    case AnyThen(suffix) => EndsWith(name, suffix)
    case Exactly(n) => name == n
  }

  /** The patterns tried for a part, in order: `*_{part}.mp4`, `{part}.mp4`, `*.mp4`. */
  function VideoPatterns(part: string): seq<Pattern> {
    [AnyThen("_" + part + ".mp4"), Exactly(part + ".mp4"), AnyThen(".mp4")]
  }

  /** `list(video_dir.glob(p))`: the names that match, in directory order. */
  function Glob(p: Pattern, names: seq<string>): (r: seq<string>)
    ensures forall i :: 0 <= i < |r| ==> r[i] in names && Matches(p, r[i])
    ensures (exists n :: n in names && Matches(p, n)) ==> r != []
  {
    if names == [] then []
    else (if Matches(p, names[0]) then [names[0]] else []) + Glob(p, names[1..])
  }

  /** The first match is the first name in directory order that matches. */
  lemma {:induction false} GlobFirst(p: Pattern, names: seq<string>)
    requires Glob(p, names) != []
    ensures exists k :: (0 <= k < |names| && names[k] == Glob(p, names)[0] && Matches(p, names[k])
      && forall j :: 0 <= j < k ==> !Matches(p, names[j]))
  {
    if !Matches(p, names[0]) {
      GlobFirst(p, names[1..]);
      var k :| 0 <= k < |names[1..]| && names[1..][k] == Glob(p, names[1..])[0] && Matches(p, names[1..][k])
        && forall j :: 0 <= j < k ==> !Matches(p, names[1..][j]);
      assert names[k + 1] == Glob(p, names)[0];
      forall j | 0 <= j < k + 1 ensures !Matches(p, names[j]) {
        if j > 0 {
          assert names[j] == names[1..][j - 1];
        }
      }
    }
  }

  /** The path of the first match of the first pattern that matches anything. */
  function FirstMatch(patterns: seq<Pattern>, names: seq<string>, dir: string): (r: Option<string>)
    ensures r.Some? <==> exists i, n :: 0 <= i < |patterns| && n in names && Matches(patterns[i], n)
  {
    if patterns == [] then None
    else
      var matches := Glob(patterns[0], names);
      if matches != [] then Some(PathJoin(dir, matches[0]))
      else
        var r := FirstMatch(patterns[1..], names, dir);
        assert forall i, n :: (0 <= i < |patterns[1..]| && n in names && Matches(patterns[1..][i], n)
          ==> Matches(patterns[i + 1], n));
        r
  }

  /** `ClipGenerator._find_video_file` over the names the video directory holds. */
  method FindVideoFile(part: string, names: seq<string>, dir: string) returns (r: Option<string>)
    ensures r == FirstMatch(VideoPatterns(part), names, dir)
  {
    var patterns := VideoPatterns(part);
    for i := 0 to |patterns|
      invariant FirstMatch(patterns[i..], names, dir) == FirstMatch(patterns, names, dir)
    {
      var matches := Glob(patterns[i], names);
      if matches != [] {
        return Some(PathJoin(dir, matches[0]));
      }
      assert patterns[i..][1..] == patterns[i + 1..];
    }
    return None;
  }

  /** A part's video is missing exactly when the directory holds no `.mp4` file at all, since
      every pattern ends in `.mp4` and the last one is `*.mp4`. */
  lemma FindVideoNone(part: string, names: seq<string>, dir: string)
    ensures FirstMatch(VideoPatterns(part), names, dir).None?
      <==> forall n :: n in names ==> !EndsWith(n, ".mp4")
  {
    var ps := VideoPatterns(part);
    forall n | n in names && EndsWith(n, ".mp4")
      ensures FirstMatch(ps, names, dir).Some?
    {
      assert Matches(ps[2], n);
    }
    forall i, n | 0 <= i < |ps| && n in names && Matches(ps[i], n)
      ensures EndsWith(n, ".mp4")
    {
      if i == 0 {
        EndsWithConcat("_" + part, ".mp4");
        EndsWithSuffix(n, "_" + part + ".mp4", ".mp4");
      } else if i == 1 {
        EndsWithConcat(part, ".mp4");
      }
    }
  }

  lemma EndsWithSuffix(s: string, t: string, u: string)
    requires EndsWith(s, t) && EndsWith(t, u)
    ensures EndsWith(s, u)
  {
    assert s[|s| - |u|..] == s[|s| - |t|..][|t| - |u|..];
  }

  /** A name ending in `_{part}.mp4` wins: the result is the first such name in directory
      order. */
  lemma FindVideoPrefersPart(part: string, names: seq<string>, dir: string, k: nat)
    requires k < |names| && EndsWith(names[k], "_" + part + ".mp4")
    requires forall j :: 0 <= j < k ==> !EndsWith(names[j], "_" + part + ".mp4")
    ensures FirstMatch(VideoPatterns(part), names, dir) == Some(PathJoin(dir, names[k]))
  {
    var p := AnyThen("_" + part + ".mp4");
    assert Matches(p, names[k]);
    assert Glob(p, names) != [];
    GlobFirst(p, names);
    var k' :| 0 <= k' < |names| && names[k'] == Glob(p, names)[0] && Matches(p, names[k'])
      && forall j :: 0 <= j < k' ==> !Matches(p, names[j]);
    assert k' == k;
  }

  // ---------------------------------------------------------------------------
  // _create_clip

  /** ffmpeg cutting a clip: the `-ss` start text, the input video, the `-t` duration in
      seconds and the output path, to whether it wrote the clip. */
  type Ffmpeg = (string, string, int, string) -> bool

  /** The `-t` value of `ClipGenerator._create_clip`: `None` when a time is not text (`split`
      raises AttributeError) or does not parse (ValueError). */
  function ClipSeconds(startTime: Json, endTime: Json): Option<int> {
    if !startTime.JStr? || !endTime.JStr? then None
    else
      var a, b := TimeToSeconds(startTime.s), TimeToSeconds(endTime.s);
      if a.Some? && b.Some? then Some(b.value - a.value) else None
  }

  /** `ClipGenerator._create_clip`: false when the times cannot be read (the exception is
      caught), otherwise what ffmpeg reports. */
  function CreateClip(input: string, startTime: Json, endTime: Json, output: string, ffmpeg: Ffmpeg): bool {
    match ClipSeconds(startTime, endTime)
    case None => false
    case Some(d) => ffmpeg(startTime.s, input, d, output)
  }

  /** `M:SS` with one minute digit and two second digits. */
  lemma MinSecDigits(m: char, s1: char, s2: char)
    requires IsDigit(m) && IsDigit(s1) && IsDigit(s2)
    ensures TimeToSeconds([m, ':', s1, s2])
      == Some(DigitOf(m) * 60 + DigitOf(s1) * 10 + DigitOf(s2))
  {
    var a, b := [m], [s1, s2];
    ParseDigits(a);
    ParseDigits(b);
    DigitsOfTwo(m, s1, s2);
    MinSecText([m, ':', s1, s2], a, b, DigitOf(m), DigitOf(s1) * 10 + DigitOf(s2));
  }

  lemma MinSecText(t: string, a: string, b: string, x: int, y: int)
    requires t == a + ":" + b
    requires ':' !in a && ':' !in b && ParseInt(a) == Some(x) && ParseInt(b) == Some(y)
    ensures TimeToSeconds(t) == Some(x * 60 + y)
  {
    MinSecFields(a, b, x, y);
  }

  lemma DigitsOfTwo(m: char, s1: char, s2: char)
    requires IsDigit(m) && IsDigit(s1) && IsDigit(s2)
    ensures DigitsValue([m]) == DigitOf(m)
    ensures DigitsValue([s1, s2]) == DigitOf(s1) * 10 + DigitOf(s2)
  {
    assert [m][..0] == [] && [s1, s2][..1] == [s1] && [s1][..0] == [];
  }

  function DigitOf(c: char): int {
    c as int - '0' as int
  }

  /** So a clip from `1:00` to `0:30` asks ffmpeg for -30 seconds. */
  lemma NegativeDurationAsked()
    ensures ClipSeconds(JStr("1:00"), JStr("0:30")) == Some(-30)
  {
    MinSecDigits('1', '0', '0');
    MinSecDigits('0', '3', '0');
  }

  // ---------------------------------------------------------------------------
  // generate_clips_from_analysis

  /** `v[key]` for a string key: KeyError when a dictionary lacks it, TypeError on any other
      value. */
  function Item(v: Json, key: string): (r: Outcome<Json>)
    ensures r.Returns? <==> v.JObj? && HasKey(v.fields, key)
    ensures r.Returns? ==> Get(v.fields, key) == Some(r.value)
  {
    if v.JObj? && HasKey(v.fields, key) then Returns(Get(v.fields, key).value)
    else if v.JObj? then Raises("KeyError")
    else Raises("TypeError")
  }

  /** `v.get(key, default)`: AttributeError on anything but a dictionary. */
  function ItemOr(v: Json, key: string, default: Json): (r: Outcome<Json>)
    ensures r.Returns? <==> v.JObj?
  {
    if v.JObj? then Returns(GetOr(v.fields, key, default)) else Raises("AttributeError")
  }

  /** `f"{rank:02d}"`: integers (and booleans, which are integers) are padded to two digits;
      a string raises ValueError and anything else TypeError. */
  function FormatRank(rank: Json): (r: Outcome<string>)
    ensures r.Returns? <==> rank.JInt? || rank.JBool?
  {
    match rank
    case JInt(i) => Returns(FormatD(i, 2))
    case JBool(b) => Returns(FormatD(if b then 1 else 0, 2))
    case JStr(_) => Raises("ValueError")
    case _ => Raises("TypeError")
  }

  /** An entry of `clips_info`. */
  datatype ClipInfo = ClipInfo(rank: Json, title: Json, filename: string, duration: Json, videoPart: Json,
                               timeRange: string, engagementLevel: Json, whyEngaging: Json)

  /** `rank_{rank:02d}_{safe_title}.mp4` */
  function ClipName(rank: string, safeTitle: string): string {
    "rank_" + rank + "_" + safeTitle + ".mp4"
  }

  /** One pass of the loop over the moments: the clip entry when the clip was cut, nothing
      when the video is missing or ffmpeg failed, and the exception the moment raises
      otherwise. The video directory holds `names`; clips go to `outputDir`. */
  function MomentClip(m: Json, names: seq<string>, videoDir: string, outputDir: string,
                      word: char -> bool, ffmpeg: Ffmpeg): Outcome<Option<ClipInfo>>
  {
    var rank :- Item(m, "rank");
    var title :- Item(m, "title");
    var timing :- Item(m, "timing");
    var videoPart :- Item(timing, "video_part");
    var startTime :- Item(timing, "start_time");
    var endTime :- Item(timing, "end_time");
    var duration :- Item(timing, "duration");
    CutMoment(m, rank, title, videoPart, startTime, endTime, duration, names, videoDir, outputDir, word, ffmpeg)
  }

  /** The rest of the pass once the moment's fields are read: a clip that was cut is named
      from the moment's rank and its sanitised title. */
  function CutMoment(m: Json, rank: Json, title: Json, videoPart: Json, startTime: Json, endTime: Json,
                     duration: Json, names: seq<string>, videoDir: string, outputDir: string,
                     word: char -> bool, ffmpeg: Ffmpeg): (r: Outcome<Option<ClipInfo>>)
    ensures r.Returns? && r.value.Some? ==>
      title.JStr? && FormatRank(rank).Returns?
      && r.value.value.filename == ClipName(FormatRank(rank).value, Sanitize(title.s, word))
  {
    match FirstMatch(VideoPatterns(Str(videoPart)), names, videoDir)
    case None => Returns(None)
    case Some(input) =>
      if !title.JStr? then Raises("TypeError")
      else
        var rankText :- FormatRank(rank);
        var filename := ClipName(rankText, Sanitize(title.s, word));
        if !CreateClip(input, startTime, endTime, PathJoin(outputDir, filename), ffmpeg) then Returns(None)
        else
          var details :- Item(m, "engagement_details");
          var level :- ItemOr(details, "engagement_level", JStr("N/A"));
          var why :- Item(m, "why_engaging");
          Returns(Some(ClipInfo(rank, title, filename, duration, videoPart,
                                Str(startTime) + " - " + Str(endTime), level, why)))
  }

  /** One more moment on top of the loop so far. */
  function Then<T>(done: Outcome<seq<T>>, step: Outcome<Option<T>>): Outcome<seq<T>> {
    if done.Raises? then done
    else if step.Raises? then Raises(step.error)
    else if step.value.None? then done
    else Returns(done.value + [step.value.value])
  }

  /** The loop's bookkeeping over what each moment did: the clip entries in moment order, or
      the first exception, which ends the loop. */
  function Collect<T>(steps: seq<Outcome<Option<T>>>): (r: Outcome<seq<T>>)
    ensures r.Returns? ==> |r.value| <= |steps|
  {
    if steps == [] then Returns([]) else Then(Collect(steps[..|steps| - 1]), steps[|steps| - 1])
  }

  /** The entries of the moments that gave one, in order. */
  function Entries<T>(steps: seq<Outcome<Option<T>>>): seq<T>
  {
    if steps == [] then []
    else (if steps[0].Returns? && steps[0].value.Some? then [steps[0].value.value] else []) + Entries(steps[1..])
  }

  lemma {:induction false} EntriesSnoc<T>(steps: seq<Outcome<Option<T>>>, x: Outcome<Option<T>>)
    ensures Entries(steps + [x]) == Entries(steps) + (if x.Returns? && x.value.Some? then [x.value.value] else [])
  {
    if steps != [] {
      assert (steps + [x])[1..] == steps[1..] + [x];
      EntriesSnoc(steps[1..], x);
    } else {
      assert [x][1..] == [];
    }
  }

  lemma CollectSnoc<T>(steps: seq<Outcome<Option<T>>>, i: nat)
    requires i < |steps|
    ensures Collect(steps[..i + 1]) == Then(Collect(steps[..i]), steps[i])
  {
    assert steps[..i + 1][..i] == steps[..i];
  }

  /** Without an exception the entries are those of the moments that gave one, in moment
      order. */
  lemma {:induction false} CollectEntries<T>(steps: seq<Outcome<Option<T>>>)
    requires forall i :: 0 <= i < |steps| ==> steps[i].Returns?
    ensures Collect(steps) == Returns(Entries(steps))
  {
    if steps != [] {
      var n := |steps|;
      var init := steps[..n - 1];
      assert forall i :: 0 <= i < n - 1 ==> init[i] == steps[i];
      CollectEntries(init);
      assert init + [steps[n - 1]] == steps;
      assert Collect(steps) == Then(Collect(init), steps[n - 1]);
      EntriesSnoc(init, steps[n - 1]);
      if steps[n - 1].value.None? {
        assert Entries(init) + [] == Entries(init);
      }
    }
  }

  /** The exception is that of the first moment that raised. */
  lemma {:induction false} CollectFirstRaise<T>(steps: seq<Outcome<Option<T>>>, i: nat)
    requires i < |steps| && steps[i].Raises?
    requires forall j :: 0 <= j < i ==> steps[j].Returns?
    ensures Collect(steps) == Raises(steps[i].error)
  {
    var n := |steps|;
    var init := steps[..n - 1];
    if i < n - 1 {
      assert init[i] == steps[i];
      assert forall j :: 0 <= j < i ==> init[j] == steps[j];
      CollectFirstRaise(init, i);
    } else {
      assert forall j :: 0 <= j < n - 1 ==> init[j] == steps[j];
      CollectEntries(init);
    }
  }

  /** One more moment of the loop: it raises, adds nothing, or adds its entry. */
  lemma CollectStep<T>(steps: seq<Outcome<Option<T>>>, i: nat, done: seq<T>)
    requires i < |steps| && Collect(steps[..i]) == Returns(done)
    ensures steps[i].Raises? ==> Collect(steps) == Raises(steps[i].error)
    ensures steps[i] == Returns(None) ==> Collect(steps[..i + 1]) == Returns(done)
    ensures steps[i].Returns? && steps[i].value.Some? ==> Collect(steps[..i + 1]) == Returns(done + [steps[i].value.value])
  {
    CollectSnoc(steps, i);
    if steps[i].Raises? {
      CollectRaised(steps, i + 1);
    }
  }

  /** Once the loop has raised, the moments after it change nothing. */
  lemma {:induction false} CollectRaised<T>(steps: seq<Outcome<Option<T>>>, j: nat)
    requires j <= |steps| && Collect(steps[..j]).Raises?
    ensures Collect(steps) == Collect(steps[..j])
    decreases |steps|
  {
    if j < |steps| {
      var n := |steps|;
      assert steps[..n - 1][..j] == steps[..j];
      CollectRaised(steps[..n - 1], j);
    } else {
      assert steps[..j] == steps;
    }
  }

  /** A moment that raises makes the whole loop raise. */
  lemma {:induction false} CollectRaises<T>(steps: seq<Outcome<Option<T>>>, i: nat)
    requires i < |steps| && steps[i].Raises?
    ensures Collect(steps).Raises?
  {
    CollectSnoc(steps, i);
    CollectRaised(steps, i + 1);
  }

  /** The result dictionary of `generate_clips_from_analysis`. `error` is set exactly when an
      exception ended the run; its text names the exception class only. */
  datatype Report = Report(success: bool, error: Option<string>, totalClips: nat, successfulClips: nat,
                           clipsInfo: seq<ClipInfo>, outputDir: Option<string>)

  /** The `except` branch: not a success, no clips. */
  function Failure(e: string): Report {
    Report(false, Some(e), 0, 0, [], None)
  }

  /** Whether `', '.join(v)` succeeds: a string (its characters), a dictionary (its keys) or
      a list of strings. */
  predicate Joinable(v: Json) {
    match v
    case JStr(_) => true
    case JObj(_) => true
    case JArr(items) => forall i :: 0 <= i < |items| ==> items[i].JStr?
    case _ => false
  }

  /** Whether `_create_summary` gets through: with an `analysis_summary`, it must hold joinable
      `highest_engagement_themes`, `total_engaging_content_time` and `recommendation`; and the
      summary file must be written (`written`). */
  predicate SummaryWritten(data: Fields, written: bool) {
    written
    && (HasKey(data, "analysis_summary") ==>
          var a := Get(data, "analysis_summary").value;
          Item(a, "highest_engagement_themes").Returns?
          && Joinable(Item(a, "highest_engagement_themes").value)
          && Item(a, "total_engaging_content_time").Returns?
          && Item(a, "recommendation").Returns?)
  }

  /** What each moment of the list does. */
  function Steps(moments: seq<Json>, names: seq<string>, videoDir: string, outputDir: string,
                 word: char -> bool, ffmpeg: Ffmpeg): (r: seq<Outcome<Option<ClipInfo>>>)
    ensures |r| == |moments|
  {
    seq(|moments|, i requires 0 <= i < |moments| => MomentClip(moments[i], names, videoDir, outputDir, word, ffmpeg))
  }

  /** The clips run up to the result: the list of moments, then the clip entries; `data` is
      `None` when the analysis file cannot be read or decoded. */
  function Run(data: Option<Json>, names: seq<string>, videoDir: string, outputDir: string,
               word: char -> bool, ffmpeg: Ffmpeg, written: bool): Outcome<(seq<Json>, seq<ClipInfo>)>
  {
    if data.None? then Raises("OSError")
    else
      var top :- Item(data.value, "top_engaging_moments");
      match Iter(top)
      case None => Raises("TypeError")
      case Some(moments) =>
        var clips :- Collect(Steps(moments, names, videoDir, outputDir, word, ffmpeg));
        if clips != [] && !SummaryWritten(data.value.fields, written) then Raises("summary")
        else Returns((moments, clips))
  }

  /** `ClipGenerator.generate_clips_from_analysis`. */
  function Generate(data: Option<Json>, names: seq<string>, videoDir: string, outputDir: string,
                    word: char -> bool, ffmpeg: Ffmpeg, written: bool): (r: Report)
    ensures r.successfulClips == |r.clipsInfo|
    ensures r.success <==> r.clipsInfo != []
    ensures r.error.Some? ==> !r.success && r.totalClips == 0 && r.clipsInfo == []
  {
    match Run(data, names, videoDir, outputDir, word, ffmpeg, written)
    case Raises(e) => Failure(e)
    case Returns((moments, clips)) => Report(|clips| > 0, None, |moments|, |clips|, clips, Some(outputDir))
  }

  /** The body of the loop over the moments, statement by statement. */
  method ProcessMoment(m: Json, names: seq<string>, videoDir: string, outputDir: string,
                       word: char -> bool, ffmpeg: Ffmpeg) returns (step: Outcome<Option<ClipInfo>>)
    ensures step == MomentClip(m, names, videoDir, outputDir, word, ffmpeg)
  {
    var rank := Item(m, "rank");
    if rank.Raises? { return Raises(rank.error); }
    var title := Item(m, "title");
    if title.Raises? { return Raises(title.error); }
    var timing := Item(m, "timing");
    if timing.Raises? { return Raises(timing.error); }
    var videoPart := Item(timing.value, "video_part");
    if videoPart.Raises? { return Raises(videoPart.error); }
    var startTime := Item(timing.value, "start_time");
    if startTime.Raises? { return Raises(startTime.error); }
    var endTime := Item(timing.value, "end_time");
    if endTime.Raises? { return Raises(endTime.error); }
    var duration := Item(timing.value, "duration");
    if duration.Raises? { return Raises(duration.error); }
    var inputVideo := FindVideoFile(Str(videoPart.value), names, videoDir);
    if inputVideo.None? {
      return Returns(None);
    }
    if !title.value.JStr? {
      return Raises("TypeError");
    }
    var safeTitle := Sanitize(title.value.s, word);
    var rankText := FormatRank(rank.value);
    if rankText.Raises? { return Raises(rankText.error); }
    var outputFilename := ClipName(rankText.value, safeTitle);
    var success := CreateClip(inputVideo.value, startTime.value, endTime.value, PathJoin(outputDir, outputFilename), ffmpeg);
    if !success {
      return Returns(None);
    }
    var details := Item(m, "engagement_details");
    if details.Raises? { return Raises(details.error); }
    var level := ItemOr(details.value, "engagement_level", JStr("N/A"));
    if level.Raises? { return Raises(level.error); }
    var why := Item(m, "why_engaging");
    if why.Raises? { return Raises(why.error); }
    step := Returns(Some(ClipInfo(rank.value, title.value, outputFilename, duration.value, videoPart.value,
                                  Str(startTime.value) + " - " + Str(endTime.value), level.value, why.value)));
  }

  /** The loop over the moments: `clips_info` grows by the entry of each clip cut, and the
      first exception ends the loop. */
  method CollectClips(moments: seq<Json>, names: seq<string>, videoDir: string, outputDir: string,
                      word: char -> bool, ffmpeg: Ffmpeg) returns (r: Outcome<seq<ClipInfo>>)
    ensures r == Collect(Steps(moments, names, videoDir, outputDir, word, ffmpeg))
  {
    ghost var steps := Steps(moments, names, videoDir, outputDir, word, ffmpeg);
    var clipsInfo: seq<ClipInfo> := [];
    var successfulClips := 0;
    for i := 0 to |moments|
      invariant Collect(steps[..i]) == Returns(clipsInfo)
      invariant successfulClips == |clipsInfo|
    {
      var step := ProcessMoment(moments[i], names, videoDir, outputDir, word, ffmpeg);
      assert step == steps[i];
      CollectStep(steps, i, clipsInfo);
      match step {
        case Raises(e) =>
          return Raises(e);
        case Returns(None) =>
        case Returns(Some(clip)) =>
          successfulClips := successfulClips + 1;
          clipsInfo := clipsInfo + [clip];
      }
    }
    TakeAll(steps);
    return Returns(clipsInfo);
  }

  /** `ClipGenerator.generate_clips_from_analysis` over the decoded analysis file, the names
      in the video directory, ffmpeg, and whether the summary file can be written. */
  method GenerateClips(data: Option<Json>, names: seq<string>, videoDir: string, outputDir: string,
                       word: char -> bool, ffmpeg: Ffmpeg, written: bool) returns (report: Report)
    ensures report == Generate(data, names, videoDir, outputDir, word, ffmpeg, written)
  {
    if data.None? {
      return Failure("OSError");
    }
    var top := Item(data.value, "top_engaging_moments");
    if top.Raises? {
      return Failure(top.error);
    }
    var iter := Iter(top.value);
    if iter.None? {
      return Failure("TypeError");
    }
    var moments := iter.value;
    var clips := CollectClips(moments, names, videoDir, outputDir, word, ffmpeg);
    if clips.Raises? {
      return Failure(clips.error);
    }
    var clipsInfo := clips.value;
    var successfulClips := |clipsInfo|;
    if clipsInfo != [] && !SummaryWritten(data.value.fields, written) {
      return Failure("summary");
    }
    report := Report(successfulClips > 0, None, |moments|, successfulClips, clipsInfo, Some(outputDir));
  }

  /** A run that gets through reports every moment in `total_clips` and lists the clips that
      were cut, in moment order, as many as `successful_clips` counts. */
  lemma GenerateReportsClips(f: Fields, moments: seq<Json>, names: seq<string>, videoDir: string,
                             outputDir: string, word: char -> bool, ffmpeg: Ffmpeg, written: bool)
    requires HasKey(f, "top_engaging_moments") && Iter(Get(f, "top_engaging_moments").value) == Some(moments)
    requires forall i :: 0 <= i < |moments| ==> MomentClip(moments[i], names, videoDir, outputDir, word, ffmpeg).Returns?
    requires SummaryWritten(f, written)
    ensures Generate(Some(JObj(f)), names, videoDir, outputDir, word, ffmpeg, written)
      == var clips := Entries(Steps(moments, names, videoDir, outputDir, word, ffmpeg));
         Report(clips != [], None, |moments|, |clips|, clips, Some(outputDir))
  {
    CollectEntries(Steps(moments, names, videoDir, outputDir, word, ffmpeg));
  }

  /** A moment without `timing` (as the fallback ranking produces) fails the whole run: no
      clips are reported, whatever the other moments did. */
  lemma MissingTimingFails(f: Fields, moments: seq<Json>, k: nat, names: seq<string>, videoDir: string,
                           outputDir: string, word: char -> bool, ffmpeg: Ffmpeg, written: bool)
    requires HasKey(f, "top_engaging_moments") && Iter(Get(f, "top_engaging_moments").value) == Some(moments)
    requires k < |moments| && moments[k].JObj?
    requires HasKey(moments[k].fields, "rank") && HasKey(moments[k].fields, "title")
    requires !HasKey(moments[k].fields, "timing")
    ensures Generate(Some(JObj(f)), names, videoDir, outputDir, word, ffmpeg, written).error.Some?
    ensures Generate(Some(JObj(f)), names, videoDir, outputDir, word, ffmpeg, written).clipsInfo == []
  {
    var steps := Steps(moments, names, videoDir, outputDir, word, ffmpeg);
    assert steps[k].Raises?;
    CollectRaises(steps, k);
  }
}
