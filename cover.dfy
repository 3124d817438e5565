/** The layout rules of the cover generator (core/cover_image_generator.py): greedy wrapping
    of a title into lines, the search for the largest font size that keeps the title within
    a number of lines, the centred 3:4 crop of the vertical cover, and the frame, path and
    failure rules of `generate_cover`. Text measurement is the oracle `width(font, s)` (the
    width of the bounding box the drawing library reports); whether a line fits is a
    predicate `fits` built from it. */
module CoverImage {
  import opened Base
  import opened PyStr

  // ---------------------------------------------------------------------------
  // _wrap_text, text without a space: character by character

  /** The lines so far and the line being filled. */
  datatype CharState = CharState(lines: seq<string>, current: string)

  /** One more character: it joins the current line if the longer line fits; otherwise the
      current line is closed and the character starts the next one, or, with no current line,
      it becomes a line of its own. */
  function CharStep(st: CharState, c: char, fits: string -> bool): CharState {
    if fits(st.current + [c]) then CharState(st.lines, st.current + [c])
    else if st.current != [] then CharState(st.lines + [st.current], [c])
    else CharState(st.lines + [[c]], [])
  }

  function CharFold(text: string, fits: string -> bool): CharState {
    if text == [] then CharState([], [])
    else CharStep(CharFold(text[..|text| - 1], fits), text[|text| - 1], fits)
  }

  /** The last line, if any, closed. */
  function Flush<T>(lines: seq<T>, current: T, empty: bool): seq<T> {
    if empty then lines else lines + [current]
  }

  /** `lines if lines else [text]` */
  function OrText(lines: seq<string>, text: string): (r: seq<string>)
    ensures r != []
  {
    if lines != [] then lines else [text]
  }

  function WrapChars(text: string, fits: string -> bool): seq<string> {
    var st := CharFold(text, fits);
    OrText(Flush(st.lines, st.current, st.current == []), text)
  }

  /** A line the wrapper may produce from characters: it fits, or it is one character. */
  predicate CharLine(line: string, fits: string -> bool) {
    line != [] && (fits(line) || |line| == 1)
  }

  /** What the character fold keeps true: the lines and the current line spell the text read
      so far, and every line is acceptable. */
  predicate CharInvariant(st: CharState, text: string, fits: string -> bool) {
    && Concat(st.lines) + st.current == text
    && (forall k :: 0 <= k < |st.lines| ==> CharLine(st.lines[k], fits))
    && (st.current == [] || CharLine(st.current, fits))
  }

  lemma {:induction false} CharFoldInvariant(text: string, fits: string -> bool)
    ensures CharInvariant(CharFold(text, fits), text, fits)
  {
    if text != [] {
      var init, c := text[..|text| - 1], text[|text| - 1];
      CharFoldInvariant(init, fits);
      assert init + [c] == text;
      CharStepInvariant(CharFold(init, fits), init, c, fits);
    }
  }

  lemma CharStepInvariant(st: CharState, text: string, c: char, fits: string -> bool)
    requires CharInvariant(st, text, fits)
    ensures CharInvariant(CharStep(st, c, fits), text + [c], fits)
  {
    var st' := CharStep(st, c, fits);
    if !fits(st.current + [c]) {
      if st.current != [] {
        ConcatAppend(st.lines, [st.current]);
        assert Concat([st.current]) == st.current;
      } else {
        ConcatAppend(st.lines, [[c]]);
        assert Concat([[c]]) == [c];
      }
    }
  }

  /** Without a space, the lines are non-empty and spell the text exactly, and each line
      fits or is a single character; the empty text gives the one line `""`. */
  lemma WrapCharsMeaning(text: string, fits: string -> bool)
    ensures text == [] ==> WrapChars(text, fits) == [""]
    ensures text != [] ==> Concat(WrapChars(text, fits)) == text
    ensures text != [] ==>
      forall k :: 0 <= k < |WrapChars(text, fits)| ==> CharLine(WrapChars(text, fits)[k], fits)
  {
    CharFoldInvariant(text, fits);
    var st := CharFold(text, fits);
    if st.current != [] {
      ConcatAppend(st.lines, [st.current]);
      assert Concat([st.current]) == st.current;
    } else {
      assert st.current + [] == st.current;
    }
  }

  // ---------------------------------------------------------------------------
  // _wrap_text, text with a space: word by word

  /** The groups of words already closed into lines, and the words of the current line. */
  datatype WordState = WordState(groups: seq<seq<string>>, current: seq<string>)

  function Spaced(words: seq<string>): string {
    Join(words, " ")
  }

  /** One more word, by the same rule as characters, measuring the words joined by a space. */
  function WordStep(st: WordState, w: string, fits: string -> bool): WordState {
    if fits(Spaced(st.current + [w])) then WordState(st.groups, st.current + [w])
    else if st.current != [] then WordState(st.groups + [st.current], [w])
    else WordState(st.groups + [[w]], [])
  }

  function WordFold(words: seq<string>, fits: string -> bool): WordState {
    if words == [] then WordState([], [])
    else WordStep(WordFold(words[..|words| - 1], fits), words[|words| - 1], fits)
  }

  /** Each group of words as the line `' '.join(group)`. */
  function Lines(groups: seq<seq<string>>): (r: seq<string>)
    ensures |r| == |groups|
  {
    seq(|groups|, k requires 0 <= k < |groups| => Spaced(groups[k]))
  }

  function WrapWords(text: string, fits: string -> bool): seq<string> {
    var st := WordFold(SplitWs(text), fits);
    OrText(Lines(Flush(st.groups, st.current, st.current == [])), text)
  }

  /** `_wrap_text`: words when the text holds a space, characters otherwise. */
  function Wrap(text: string, fits: string -> bool): (r: seq<string>)
    ensures r != []
  {
    if ' ' in text then WrapWords(text, fits) else WrapChars(text, fits)
  }

  function Flatten(groups: seq<seq<string>>): seq<string> {
    if groups == [] then [] else groups[0] + Flatten(groups[1..])
  }

  lemma {:induction false} FlattenSnoc(groups: seq<seq<string>>, g: seq<string>)
    ensures Flatten(groups + [g]) == Flatten(groups) + g
  {
    if groups != [] {
      assert (groups + [g])[1..] == groups[1..] + [g];
      FlattenSnoc(groups[1..], g);
    } else {
      assert [g][1..] == [];
    }
  }

  /** A group the wrapper may close: non-empty, and it fits or is a single word. */
  predicate WordGroup(g: seq<string>, fits: string -> bool) {
    g != [] && (fits(Spaced(g)) || |g| == 1)
  }

  predicate WordInvariant(st: WordState, words: seq<string>, fits: string -> bool) {
    && Flatten(st.groups) + st.current == words
    && (forall k :: 0 <= k < |st.groups| ==> WordGroup(st.groups[k], fits))
    && (st.current == [] || WordGroup(st.current, fits))
  }

  lemma {:induction false} WordFoldInvariant(words: seq<string>, fits: string -> bool)
    ensures WordInvariant(WordFold(words, fits), words, fits)
  {
    if words != [] {
      var init, w := words[..|words| - 1], words[|words| - 1];
      WordFoldInvariant(init, fits);
      assert init + [w] == words;
      WordStepInvariant(WordFold(init, fits), init, w, fits);
    }
  }

  lemma WordStepInvariant(st: WordState, words: seq<string>, w: string, fits: string -> bool)
    requires WordInvariant(st, words, fits)
    ensures WordInvariant(WordStep(st, w, fits), words + [w], fits)
  {
    if !fits(Spaced(st.current + [w])) {
      if st.current != [] {
        FlattenSnoc(st.groups, st.current);
        assert Spaced([w]) == w;
      } else {
        FlattenSnoc(st.groups, [w]);
      }
    }
  }

  lemma {:induction false} JoinAppend(a: seq<string>, b: seq<string>, sep: string)
    requires a != [] && b != []
    ensures Join(a + b, sep) == Join(a, sep) + sep + Join(b, sep)
  {
    if |a| == 1 {
      JoinCons(a[0], b, sep);
      assert [a[0]] + b == a + b;
    } else {
      JoinAppend(a[1..], b, sep);
      assert (a + b)[1..] == a[1..] + b;
      assert (a + b)[0] == a[0];
    }
  }

  /** Joining the lines by a space joins all their words by a space. */
  lemma {:induction false} JoinLines(groups: seq<seq<string>>)
    requires forall k :: 0 <= k < |groups| ==> groups[k] != []
    ensures Spaced(Lines(groups)) == Spaced(Flatten(groups))
  {
    if |groups| == 1 {
      assert Flatten(groups) == groups[0] + [];
      assert groups[0] + [] == groups[0];
    } else if groups != [] {
      var rest := groups[1..];
      JoinLines(rest);
      assert Lines(groups) == [Spaced(groups[0])] + Lines(rest);
      JoinCons(Spaced(groups[0]), Lines(rest), " ");
      assert rest[0] != [];
      assert Flatten(rest) != [];
      JoinAppend(groups[0], Flatten(rest), " ");
    }
  }

  /** With a space in the text and at least one word, the lines joined by a space are the
      words joined by a space, and each line fits or is one of the words. */
  lemma WrapWordsMeaning(text: string, fits: string -> bool)
    requires SplitWs(text) != []
    ensures Spaced(WrapWords(text, fits)) == Spaced(SplitWs(text))
    ensures forall k :: 0 <= k < |WrapWords(text, fits)| ==>
      fits(WrapWords(text, fits)[k]) || WrapWords(text, fits)[k] in SplitWs(text)
  {
    var words := SplitWs(text);
    WordFoldInvariant(words, fits);
    var st := WordFold(words, fits);
    var groups := Flush(st.groups, st.current, st.current == []);
    if st.current != [] {
      FlattenSnoc(st.groups, st.current);
    } else {
      assert Flatten(st.groups) + [] == Flatten(st.groups);
    }
    assert Flatten(groups) == words;
    assert forall k :: 0 <= k < |groups| ==> WordGroup(groups[k], fits);
    JoinLines(groups);
    forall k | 0 <= k < |groups|
      ensures fits(Lines(groups)[k]) || Lines(groups)[k] in words
    {
      if !fits(Spaced(groups[k])) {
        FlattenHas(groups, k);
      }
    }
  }

  /** A single-word group is one of the flattened words. */
  lemma {:induction false} FlattenHas(groups: seq<seq<string>>, k: nat)
    requires k < |groups| && |groups[k]| == 1
    ensures Spaced(groups[k]) in Flatten(groups)
  {
    if k > 0 {
      FlattenHas(groups[1..], k - 1);
    }
  }

  /** The wrapper never returns an empty list; with no line produced it returns the text. */
  lemma WrapNeverEmpty(text: string, fits: string -> bool)
    ensures Wrap(text, fits) != []
    ensures text == [] ==> Wrap(text, fits) == [text]
  {
    if text == [] {
      assert ' ' !in text;
    }
  }

  /** `_wrap_text` as the source runs it: one loop over the characters or over the words. */
  method WrapText(text: string, fits: string -> bool) returns (lines: seq<string>)
    ensures lines == Wrap(text, fits)
  {
    if ' ' in text {
      lines := WrapWordLoop(text, fits);
    } else {
      lines := WrapCharLoop(text, fits);
    }
  }

  method WrapCharLoop(text: string, fits: string -> bool) returns (lines: seq<string>)
    ensures lines == WrapChars(text, fits)
  {
    lines := [];
    var current := "";
    for i := 0 to |text|
      invariant CharState(lines, current) == CharFold(text[..i], fits)
    {
      assert text[..i + 1][..i] == text[..i];
      var c := text[i];
      var testLine := current + [c];
      if fits(testLine) {
        current := testLine;
      } else if current != [] {
        lines := lines + [current];
        current := [c];
      } else {
        lines := lines + [[c]];
      }
    }
    assert text[..|text|] == text;
    if current != [] {
      lines := lines + [current];
    }
    if lines == [] {
      lines := [text];
    }
  }

  method WrapWordLoop(text: string, fits: string -> bool) returns (lines: seq<string>)
    ensures lines == WrapWords(text, fits)
  {
    var words := SplitWs(text);
    lines := [];
    var current: seq<string> := [];
    for i := 0 to |words|
      invariant lines == Lines(WordFold(words[..i], fits).groups)
      invariant current == WordFold(words[..i], fits).current
    {
      assert words[..i + 1][..i] == words[..i];
      var w := words[i];
      ghost var groups := WordFold(words[..i], fits).groups;
      var testLine := Spaced(current + [w]);
      if fits(testLine) {
        current := current + [w];
      } else if current != [] {
        assert Lines(groups + [current]) == Lines(groups) + [Spaced(current)];
        lines := lines + [Spaced(current)];
        current := [w];
      } else {
        assert Lines(groups + [[w]]) == Lines(groups) + [Spaced([w])];
        lines := lines + [w];
      }
    }
    assert words[..|words|] == words;
    ghost var st := WordFold(words, fits);
    if current != [] {
      assert Lines(st.groups + [current]) == Lines(st.groups) + [Spaced(current)];
      lines := lines + [Spaced(current)];
    }
    if lines == [] {
      lines := [text];
    }
  }

  // ---------------------------------------------------------------------------
  // _get_font_for_max_lines

  /** A loaded font: a TrueType font at a size, or the library's default font. */
  datatype Font = Truetype(size: int) | DefaultFont

  /** The TrueType font at `size` when a font file was found and loading it at that size
      succeeds (`loads`); the default font otherwise. */
  function LoadFont(hasFontPath: bool, loads: int -> bool, size: int): (f: Font)
    ensures f.Truetype? ==> f.size == size
  {
    if hasFontPath && loads(size) then Truetype(size) else DefaultFont
  }

  /** Lines fit when their measured width is at most `maxWidth`. */
  function FitsIn(width: (Font, string) -> int, font: Font, maxWidth: int): string -> bool {
    s => width(font, s) <= maxWidth
  }

  /** `int(initial * 0.4)`: 40 percent, truncated toward zero. */
  function MinFontSize(initial: int): (m: int)
    ensures 0 <= initial ==> 0 <= m <= initial && 5 * m <= 2 * initial < 5 * m + 5
  {
    if initial >= 0 then (2 * initial) / 5 else -((-2 * initial) / 5)
  }

  /** The text wrapped at `size` takes at most `maxLines` lines. */
  predicate FitsAt(text: string, size: int, maxWidth: int, maxLines: int, hasFontPath: bool,
                   loads: int -> bool, width: (Font, string) -> int)
  {
    |Wrap(text, FitsIn(width, LoadFont(hasFontPath, loads, size), maxWidth))| <= maxLines
  }

  /** The first of `size`, `size - 2`, ... down to `minSize` that `fitsAt` accepts. */
  function FirstFitting(size: int, minSize: int, fitsAt: int -> bool): (r: Option<int>)
    decreases if size >= minSize then size - minSize + 1 else 0
  {
    if size < minSize then None
    else if fitsAt(size) then Some(size)
    else FirstFitting(size - 2, minSize, fitsAt)
  }

  /** The search returns a size of the sequence `size`, `size - 2`, ... that fits, and every
      size of the sequence before it, down to `minSize`, does not; it returns None only
      when no size of the sequence fits. */
  lemma {:induction false} FirstFittingMeaning(size: int, minSize: int, fitsAt: int -> bool)
    ensures var r := FirstFitting(size, minSize, fitsAt);
      r.Some? ==> minSize <= r.value <= size && (size - r.value) % 2 == 0 && fitsAt(r.value)
    ensures var r := FirstFitting(size, minSize, fitsAt);
      forall s :: (minSize <= s <= size && (size - s) % 2 == 0 && (r.None? || s > r.value)
        ==> !fitsAt(s))
    decreases if size >= minSize then size - minSize + 1 else 0
  {
    if size >= minSize && !fitsAt(size) {
      FirstFittingMeaning(size - 2, minSize, fitsAt);
    }
  }

  /** Whether the text fits in `maxLines` at each font size. */
  function FitsAtSize(text: string, maxWidth: int, maxLines: int, hasFontPath: bool,
                      loads: int -> bool, width: (Font, string) -> int): int -> bool
  {
    size => FitsAt(text, size, maxWidth, maxLines, hasFontPath, loads, width)
  }

  lemma FitsAtSizeIs(text: string, maxWidth: int, maxLines: int, hasFontPath: bool,
                     loads: int -> bool, width: (Font, string) -> int, size: int, lines: seq<string>)
    requires lines == Wrap(text, FitsIn(width, LoadFont(hasFontPath, loads, size), maxWidth))
    ensures FitsAtSize(text, maxWidth, maxLines, hasFontPath, loads, width)(size) <==> |lines| <= maxLines
  {
  }

  /** The font `_get_font_for_max_lines` returns: the first fitting size, or the smallest
      size when none fits. */
  function FontFor(text: string, initial: int, maxWidth: int, maxLines: int, hasFontPath: bool,
                   loads: int -> bool, width: (Font, string) -> int): Font
  {
    var first := FirstFitting(initial, MinFontSize(initial),
                              FitsAtSize(text, maxWidth, maxLines, hasFontPath, loads, width));
    LoadFont(hasFontPath, loads, if first.Some? then first.value else MinFontSize(initial))
  }

  method GetFontForMaxLines(text: string, initial: int, maxWidth: int, maxLines: int,
                            hasFontPath: bool, loads: int -> bool, width: (Font, string) -> int)
    returns (font: Font)
    ensures font == FontFor(text, initial, maxWidth, maxLines, hasFontPath, loads, width)
  {
    ghost var fitsAt := FitsAtSize(text, maxWidth, maxLines, hasFontPath, loads, width);
    var fontSize := initial;
    var minFontSize := MinFontSize(initial);
    ghost var first := FirstFitting(initial, minFontSize, fitsAt);
    while fontSize >= minFontSize
      invariant FirstFitting(fontSize, minFontSize, fitsAt) == first
      decreases fontSize - minFontSize + 1
    {
      var testFont := LoadFont(hasFontPath, loads, fontSize);
      var wrapped := WrapText(text, FitsIn(width, testFont, maxWidth));
      FitsAtSizeIs(text, maxWidth, maxLines, hasFontPath, loads, width, fontSize, wrapped);
      if |wrapped| <= maxLines {
        assert first == Some(fontSize);
        return testFont;
      }
      fontSize := fontSize - 2;
    }
    assert first == None;
    return LoadFont(hasFontPath, loads, minFontSize);
  }

  // ---------------------------------------------------------------------------
  // _create_vertical_cover

  /** A crop box `(left, top, right, bottom)` in pixels. */
  datatype Box = Box(left: int, top: int, right: int, bottom: int)

  /** `int(h * 3 / 4)`: the width of a 3:4 portrait of height `h`. */
  function TargetWidth(h: nat): (t: nat)
    ensures 4 * t <= 3 * h < 4 * t + 4
  {
    (3 * h) / 4
  }

  /** The crop of a `w` by `h` frame: a full-height band of the target width in the middle
      when the frame is wider than that, and no crop otherwise. */
  function VerticalCrop(w: nat, h: nat): (r: Option<Box>)
    ensures r.Some? <==> TargetWidth(h) < w
    ensures r.Some? ==> r.value.top == 0 && r.value.bottom == h
    ensures r.Some? ==> 0 <= r.value.left && r.value.right <= w
    ensures r.Some? ==> r.value.right - r.value.left == TargetWidth(h)
    ensures r.Some? ==> 0 <= (w - r.value.right) - r.value.left <= 1
  {
    var target := TargetWidth(h);
    if target < w then
      var left := (w - target) / 2;
      Some(Box(left, 0, left + target, h))
    else None
  }

  // ---------------------------------------------------------------------------
  // generate_cover

  /** The frame time: the requested time, but no later than the middle of the video. */
  function SampleTime(frameTime: real, duration: real): (t: real)
    ensures t <= frameTime && t <= duration / 2.0
    ensures t == frameTime || t == duration / 2.0
  {
    if duration / 2.0 < frameTime then duration / 2.0 else frameTime
  }

  /** The path of the vertical cover: every `.jpg` in the path becomes `_vertical.jpg`, so a
      path without `.jpg` is the horizontal cover's own path. */
  function VerticalPath(outputPath: string): (p: string)
    ensures !Contains(outputPath, ".jpg") ==> p == outputPath
  {
    ReplaceAll(outputPath, ".jpg", "_vertical.jpg")
  }

  /** A path ending in its only `.jpg` gets `_vertical` before the extension. */
  lemma VerticalPathOfJpg(stem: string)
    requires !Contains(stem, ".jpg")
    ensures VerticalPath(stem + ".jpg") == stem + "_vertical.jpg"
  {
    var s, pat := stem + ".jpg", ".jpg";
    assert s[|stem|..] == pat;
    forall j | 0 <= j < |stem|
      ensures !OccursAt(s, pat, j)
    {
      NotBeforeExtension(stem, j);
    }
    assert OccursAt(s, pat, |stem|);
    assert FindFrom(s, pat, 0) == |stem|;
    ReplaceAllAt(s, pat, "_vertical.jpg");
    assert s[..|stem|] == stem && s[|stem| + |pat|..] == [];
    assert FindFrom([], pat, 0) == -1;
  }

  /** `.jpg` does not start inside a stem that does not contain it. */
  lemma NotBeforeExtension(stem: string, j: nat)
    requires !Contains(stem, ".jpg") && j < |stem|
    ensures !OccursAt(stem + ".jpg", ".jpg", j)
  {
    var s, pat := stem + ".jpg", ".jpg";
    if j + |pat| <= |stem| {
      var window, inStem := s[j..j + |pat|], stem[j..j + |pat|];
      forall k | 0 <= k < |pat| ensures window[k] == inStem[k] {
        assert s[j + k] == stem[j + k];
      }
      assert window == inStem;
      if OccursAt(stem, pat, j) {
        ContainsAt(stem, pat, j);
      }
    } else if j + |pat| <= |s| {
      var d := |stem| - j;
      assert s[j..j + |pat|][d] == s[|stem|] == '.';
      assert pat[d] != '.';
    }
  }

  /** What one call did: whether it returned True, the time it sampled, and the files it
      wrote, in order. */
  datatype CoverRun = CoverRun(ok: bool, sampledAt: Option<real>, written: seq<string>)

  /** `generate_cover`. `duration` is None when the video cannot be opened; `saves(p)` says
      whether drawing and saving the image at `p` succeeds. Any exception gives False. */
  function GenerateCover(outputPath: string, frameTime: real, generateVertical: bool,
                         duration: Option<real>, saves: string -> bool): (r: CoverRun)
    ensures r.ok ==> r.written == [outputPath] + (if generateVertical then [VerticalPath(outputPath)] else [])
    ensures duration.None? ==> !r.ok && r.written == []
    ensures duration.Some? ==> r.sampledAt == Some(SampleTime(frameTime, duration.value))
  {
    match duration
    case None => CoverRun(false, None, [])
    case Some(d) =>
      var t := SampleTime(frameTime, d);
      if !saves(outputPath) then CoverRun(false, Some(t), [])
      else if !generateVertical then CoverRun(true, Some(t), [outputPath])
      else if !saves(VerticalPath(outputPath)) then CoverRun(false, Some(t), [outputPath])
      else CoverRun(true, Some(t), [outputPath, VerticalPath(outputPath)])
  }

  /** The result is True exactly when the video opens and every image it writes is saved. */
  lemma GenerateCoverSucceeds(outputPath: string, frameTime: real, generateVertical: bool,
                              duration: Option<real>, saves: string -> bool)
    ensures GenerateCover(outputPath, frameTime, generateVertical, duration, saves).ok <==>
      duration.Some? && saves(outputPath) && (generateVertical ==> saves(VerticalPath(outputPath)))
  {
  }
}
