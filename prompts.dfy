/** The analyzer's configuration, its prompt templates and the two prompts it sends: one per
    video part and one for the aggregation of all parts. Files are given as a map from path to
    content (a path is present when the file exists and can be read). */
module Prompts {
  import opened Base
  import opened PyStr
  import opened JsonValue
  import opened Captions

  type Files = map<string, string>

  const PartRequirement := "engaging_moments_part_requirement"
  const AggRequirement := "engaging_moments_agg_requirement"
  const BackgroundPath := "prompts/background/background.md"

  function PromptPath(name: string): string { "prompts/" + name + ".md" }

  function PatchPath(language: string): string { "prompts/language_patches/" + language + ".md" }

  /** The providers the constructor accepts, compared case-insensitively. */
  predicate Supported(provider: string) {
    Lower(provider) == "qwen" || Lower(provider) == "openrouter"
  }

  const PartClosing := "\n\nPlease analyze this transcript and identify engaging moments following the requirements above."

  function PartHeader(partName: string): string { "\n\n## Transcript Data for " + partName + "\n\n" }

  function AggClosing(maxClips: int): string {
    "\n\nPlease select and rank the top " + IntToStr(maxClips) + " most engaging moments following the requirements above."
  }

  const AggHeader := "\n\n## All Engaging Moments Data\n\n"

  /** `EngagingMomentsAnalyzer`: the settings the prompts depend on. The LLM client is not
      part of this class; its answers are passed to the operations that use them. */
  class Analyzer {
    var customPromptFile: Option<string>
    var maxClips: int
    var provider: string
    var useBackground: bool
    var backgroundContent: Option<string>
    var language: string
    var debug: bool

    /** The fields as `__init__` sets them before it loads the background. */
    constructor (customPromptFile: Option<string>, maxClips: int, provider: string, useBackground: bool,
                 language: string, debug: bool)
      ensures this.customPromptFile == customPromptFile && this.maxClips == maxClips
      ensures this.provider == Lower(provider) && this.useBackground == useBackground
      ensures this.backgroundContent == None && this.language == language && this.debug == debug
    {
      this.customPromptFile := customPromptFile;
      this.maxClips := maxClips;
      this.provider := Lower(provider);
      this.useBackground := useBackground;
      this.backgroundContent := None;
      this.language := language;
      this.debug := debug;
    }

    /** `__init__`: an unsupported provider raises ValueError; with `use_background` set the
        background file is loaded, and its absence switches the background off. */
    static method Create(customPromptFile: Option<string>, maxClips: int, provider: string,
                         useBackground: bool, language: string, debug: bool, files: Files)
      returns (r: Outcome<Analyzer>)
      ensures r.Raises? <==> !Supported(provider)
      ensures r.Returns? ==> fresh(r.value)
      ensures r.Returns? ==> r.value.useBackground == (useBackground && BackgroundPath in files)
      ensures r.Returns? ==> (r.value.backgroundContent
        == if useBackground && BackgroundPath in files then Some(Strip(files[BackgroundPath])) else None)
      ensures r.Returns? ==> (r.value.maxClips == maxClips && r.value.language == language
        && r.value.customPromptFile == customPromptFile && r.value.debug == debug)
    {
      if !Supported(provider) {
        return Raises("ValueError");
      }
      var a := new Analyzer(customPromptFile, maxClips, provider, useBackground, language, debug);
      if useBackground {
        a.LoadBackgroundInfo(files);
      }
      return Returns(a);
    }

    /** `_load_background_info`: the stripped background file, or background switched off. */
    method LoadBackgroundInfo(files: Files)
      modifies this
      ensures BackgroundPath in files ==> (backgroundContent == Some(Strip(files[BackgroundPath]))
        && useBackground == old(useBackground))
      ensures BackgroundPath !in files ==> !useBackground && backgroundContent == old(backgroundContent)
      ensures customPromptFile == old(customPromptFile) && maxClips == old(maxClips)
        && provider == old(provider) && language == old(language) && debug == old(debug)
    {
      if BackgroundPath in files {
        backgroundContent := Some(Strip(files[BackgroundPath]));
      } else {
        useBackground := false;
      }
    }

    /** The custom prompt file replaces the part-requirement template when it is set and exists. */
    predicate UsesCustom(name: string, files: Files)
      reads this
    {
      name == PartRequirement && customPromptFile.Some? && customPromptFile.value != []
      && customPromptFile.value in files
    }

    /** A template with the language patch, if one exists, appended after a blank line. */
    function Patched(base: string, files: Files): (r: string)
      reads this
      ensures PatchPath(language) !in files ==> r == base
      ensures PatchPath(language) in files ==> (StartsWith(r, base + "\n\n")
        && EndsWith(r, "\n\n" + Strip(files[PatchPath(language)])))
    {
      if PatchPath(language) in files then
        StartsWithConcat(base + "\n\n", Strip(files[PatchPath(language)]));
        EndsWithConcat(base, "\n\n" + Strip(files[PatchPath(language)]));
        base + ("\n\n" + Strip(files[PatchPath(language)]))
      else base
    }

    /** `load_prompt_template`: FileNotFoundError exactly when neither the custom file (for the
        part-requirement prompt) nor `prompts/{name}.md` is there. */
    function LoadPromptTemplate(name: string, files: Files): (r: Outcome<string>)
      reads this
      ensures r.Raises? <==> !UsesCustom(name, files) && PromptPath(name) !in files
      ensures UsesCustom(name, files) ==> r == Returns(Patched(Strip(files[customPromptFile.value]), files))
      ensures !UsesCustom(name, files) && PromptPath(name) in files
        ==> r == Returns(Patched(Strip(files[PromptPath(name)]), files))
    {
      if UsesCustom(name, files) then Returns(Patched(Strip(files[customPromptFile.value]), files))
      else if PromptPath(name) in files then Returns(Patched(Strip(files[PromptPath(name)]), files))
      else Raises("FileNotFoundError")
    }

    /** Only the part-requirement prompt looks at the custom file. */
    lemma CustomOnlyForPart(name: string, files: Files)
      requires name != PartRequirement && customPromptFile.Some?
      ensures LoadPromptTemplate(name, files) == LoadPromptTemplate(name, files - {customPromptFile.value})
        || customPromptFile.value == PromptPath(name) || customPromptFile.value == PatchPath(language)
    {
    }

    /** The background section of the part prompt; empty unless the background is on and
        non-empty. */
    function PartBackground(): (r: string)
      reads this
      ensures r != [] <==> useBackground && backgroundContent.Some? && backgroundContent.value != []
    {
      if useBackground && backgroundContent.Some? && backgroundContent.value != [] then
        "## Additional Background Information\n\n" + backgroundContent.value + "\n\n"
      else ""
    }

    /** `build_part_analysis_prompt`: `content` is the SRT file (`None` if unreadable). */
    function BuildPartPrompt(content: Option<string>, partName: string, files: Files): (r: Outcome<string>)
      reads this
      ensures r == Returns("") <==> FileEntries(content) == []
      ensures r.Raises? <==> FileEntries(content) != [] && LoadPromptTemplate(PartRequirement, files).Raises?
    {
      var entries := FileEntries(content);
      if entries == [] then Returns("")
      else
        var context := TranscriptContext(entries);
        match LoadPromptTemplate(PartRequirement, files)
        case Raises(e) => Raises(e)
        case Returns(template) =>
          var text := PartBackground() + template + PartHeader(partName) + context + PartClosing;
          assert text[|text| - 1] == '.';
          Returns(text)
    }

    /** The part prompt opens with the background section (if any) followed by the template,
        and closes with the part header, one transcript line per caption entry and the
        instruction sentence. */
    lemma PartPromptLayout(content: Option<string>, partName: string, files: Files)
      requires FileEntries(content) != [] && LoadPromptTemplate(PartRequirement, files).Returns?
      ensures var r := BuildPartPrompt(content, partName, files).value;
        var template := LoadPromptTemplate(PartRequirement, files).value;
        StartsWith(r, PartBackground() + template)
        && EndsWith(r, PartHeader(partName) + TranscriptContext(FileEntries(content)) + PartClosing)
        && Split(TranscriptContext(FileEntries(content)), "\n") == TranscriptLines(FileEntries(content))
    {
      var entries := FileEntries(content);
      var template := LoadPromptTemplate(PartRequirement, files).value;
      var head := PartBackground() + template;
      var tail := PartHeader(partName) + TranscriptContext(entries) + PartClosing;
      PromptConcat(PartBackground(), template, PartHeader(partName), TranscriptContext(entries), PartClosing);
      StartsWithConcat(head, tail);
      EndsWithConcat(head, tail);
      FileEntriesShape(content);
      TranscriptContextLines(entries);
    }

    /** The template section of the aggregation prompt: `{max_clips}` replaced by the limit. */
    function AggTemplate(template: string): string
      reads this
    {
      ReplaceAll(template, "{max_clips}", IntToStr(maxClips))
    }

    function AggBackground(): (r: string)
      reads this
      ensures r != [] <==> useBackground && backgroundContent.Some? && backgroundContent.value != []
    {
      if useBackground && backgroundContent.Some? && backgroundContent.value != [] then
        "## Background Information\n\n" + backgroundContent.value + "\n\n"
      else ""
    }

    /** `build_aggregation_prompt`: the moments of the highlights files, each tagged with its
        part, rendered and wrapped in the aggregation template. Rendering a moment and loading
        the template may raise. */
    function BuildAggregationPrompt(highlights: seq<Option<string>>, parse: string -> Option<Json>, files: Files)
      : (r: Outcome<string>)
      reads this
      ensures r.Raises? <==> (MomentsContext(LoadTagged(highlights, parse)).Raises?
        || LoadPromptTemplate(AggRequirement, files).Raises?)
    {
      match MomentsContext(LoadTagged(highlights, parse))
      case Raises(e) => Raises(e)
      case Returns(context) =>
        match LoadPromptTemplate(AggRequirement, files)
        case Raises(e) => Raises(e)
        case Returns(template) =>
          Returns(AggBackground() + AggTemplate(template) + AggHeader + context + AggClosing(maxClips))
    }

    /** The aggregation prompt has every `{max_clips}` of the template replaced by the limit
        (`str.replace` is `join` over `split`), and ends with the rendered moments and the
        instruction naming the limit. */
    lemma AggPromptLayout(highlights: seq<Option<string>>, parse: string -> Option<Json>, files: Files)
      requires BuildAggregationPrompt(highlights, parse, files).Returns?
      ensures var r := BuildAggregationPrompt(highlights, parse, files).value;
        var template := LoadPromptTemplate(AggRequirement, files).value;
        var context := MomentsContext(LoadTagged(highlights, parse)).value;
        StartsWith(r, AggBackground() + Join(Split(template, "{max_clips}"), IntToStr(maxClips)))
        && EndsWith(r, AggHeader + context + AggClosing(maxClips))
    {
      var template := LoadPromptTemplate(AggRequirement, files).value;
      var context := MomentsContext(LoadTagged(highlights, parse)).value;
      ReplaceAllSplitJoin(template, "{max_clips}", IntToStr(maxClips));
      var head := AggBackground() + AggTemplate(template);
      var tail := AggHeader + context + AggClosing(maxClips);
      PromptConcat(AggBackground(), AggTemplate(template), AggHeader, context, AggClosing(maxClips));
      StartsWithConcat(head, tail);
      EndsWithConcat(head, tail);
    }
  }

  lemma PromptConcat(a: string, b: string, c: string, d: string, e: string)
    ensures a + b + c + d + e == (a + b) + (c + d + e)
  {
  }

  lemma FileEntriesShape(content: Option<string>)
    ensures forall k :: 0 <= k < |FileEntries(content)| ==> WellFormedEntry(FileEntries(content)[k])
  {
    if content.Some? {
      ParseEntriesShape(content.value);
    }
  }

  /** The moments of one highlights file as the aggregation prompt loads them: the file must
      parse to an object whose `engaging_moments` can be iterated; moments are taken while
      they are objects (the first other value raises and ends the file), each tagged with the
      file's `video_part`. */
  function TaggedOfFile(content: Option<string>, parse: string -> Option<Json>): seq<Fields>
  {
    if content.None? then []
    else
      match parse(content.value)
      case None => []
      case Some(data) =>
        if !data.JObj? then []
        else
          var part := GetOr(data.fields, "video_part", JStr("unknown"));
          match Iter(GetOr(data.fields, "engaging_moments", JArr([])))
          case None => []
          case Some(items) => TagPrefix(items, part)
  }

  /** The longest prefix of objects, each with `source_part` set. */
  function TagPrefix(items: seq<Json>, part: Json): (r: seq<Fields>)
    ensures |r| <= |items|
    ensures forall k :: 0 <= k < |r| ==> items[k].JObj? && r[k] == Put(items[k].fields, "source_part", part)
    ensures |r| < |items| ==> !items[|r|].JObj?
  {
    if items == [] || !items[0].JObj? then []
    else [Put(items[0].fields, "source_part", part)] + TagPrefix(items[1..], part)
  }

  /** The tagged moments of all highlights files, in file order. */
  function LoadTagged(highlights: seq<Option<string>>, parse: string -> Option<Json>): seq<Fields>
  {
    if highlights == [] then []
    else LoadTagged(highlights[..|highlights| - 1], parse) + TaggedOfFile(highlights[|highlights| - 1], parse)
  }

  /** The moments of one file as `aggregate_top_moments` counts them: every element of
      `engaging_moments`, objects or not. */
  function MomentsOfFile(content: Option<string>, parse: string -> Option<Json>): seq<Json>
  {
    if content.None? then []
    else
      match parse(content.value)
      case None => []
      case Some(data) =>
        if !data.JObj? then []
        else
          match Iter(GetOr(data.fields, "engaging_moments", JArr([])))
          case None => []
          case Some(items) => items
  }

  function LoadMoments(highlights: seq<Option<string>>, parse: string -> Option<Json>): seq<Json>
  {
    if highlights == [] then []
    else LoadMoments(highlights[..|highlights| - 1], parse) + MomentsOfFile(highlights[|highlights| - 1], parse)
  }

  /** The prompt never lists more moments than the aggregation counts, so with no moments
      counted there are none to list. */
  lemma {:induction false} TaggedAtMostLoaded(highlights: seq<Option<string>>, parse: string -> Option<Json>)
    ensures |LoadTagged(highlights, parse)| <= |LoadMoments(highlights, parse)|
  {
    if highlights != [] {
      TaggedAtMostLoaded(highlights[..|highlights| - 1], parse);
    }
  }

  /** Every element of an iteration is a string. */
  predicate AllStrings(items: seq<Json>) {
    forall k :: 0 <= k < |items| ==> items[k].JStr?
  }

  /** The texts of a sequence of strings. */
  function TagTexts(items: seq<Json>): seq<string>
    requires AllStrings(items)
  {
    seq(|items|, k requires 0 <= k < |items| => items[k].s)
  }

  /** `', '.join(v)`: `v` must be iterable and every element must be a string; the result
      is the element texts separated by `", "`. */
  function JoinTags(v: Json): (r: Option<string>)
    ensures r.Some? <==> Iter(v).Some? && AllStrings(Iter(v).value)
    ensures r.Some? ==> r.value == Join(TagTexts(Iter(v).value), ", ")
  {
    match Iter(v)
    case None => None
    case Some(items) =>
      if AllStrings(items) then Some(Join(TagTexts(items), ", ")) else None
  }

  /** Joined tags without a comma split back at `", "` into the tags, one by one. */
  lemma JoinTagsSplit(v: Json)
    requires JoinTags(v).Some? && |Iter(v).value| >= 1
    requires forall k :: 0 <= k < |Iter(v).value| ==> ',' !in Iter(v).value[k].s
    ensures Split(JoinTags(v).value, ", ") == TagTexts(Iter(v).value)
  {
    var texts := TagTexts(Iter(v).value);
    assert forall i :: 0 <= i < |texts| ==> ", "[0] !in texts[i];
    SplitJoinSep(texts, ", ");
  }

  /** `v[:200]` inside an f-string: a string or a list can be sliced, anything else raises. */
  function Head200(v: Json): Option<string>
  {
    match v
    case JStr(s) => Some(if |s| <= 200 then s else s[..200])
    case JArr(items) => Some(Repr(JArr(if |items| <= 200 then items else items[..200])))
    case _ => None
  }

  /** One moment's block in `_create_moments_context`, numbered `i`. */
  function MomentBlock(i: int, m: Fields): Option<string>
  {
    var details := GetOr(m, "engagement_details", JObj([]));
    if !details.JObj? then None
    else
      var level := GetOr(details.fields, "engagement_level", JStr("unknown"));
      match JoinTags(GetOr(m, "tags", JArr([])))
      case None => None
      case Some(tags) =>
        match Head200(GetOr(m, "transcript", JStr("")))
        case None => None
        case Some(transcript) =>
          Some("\nMoment " + IntToStr(i) + ":\n- Part: " + Str(GetOr(m, "source_part", JStr("unknown")))
            + "\n- Title: " + Str(GetOr(m, "title", JStr("No title")))
            + "\n- Time: " + Str(GetOr(m, "start_time", JStr(""))) + " --> " + Str(GetOr(m, "end_time", JStr("")))
            + "\n- Duration: " + Str(GetOr(m, "duration_seconds", JInt(0))) + " seconds"
            + "\n- Engagement Level: " + Str(level)
            + "\n- Tags: " + tags
            + "\n- Transcript: " + transcript + "...\n")
  }

  /** The blocks of the items numbered from `first`; `None` if any item cannot be rendered. */
  function RenderBlocks<T>(ms: seq<T>, first: int, render: (int, T) -> Option<string>): Option<seq<string>>
    decreases |ms|
  {
    if ms == [] then Some([])
    else
      var b := render(first, ms[0]);
      var rest := RenderBlocks(ms[1..], first + 1, render);
      if b.Some? && rest.Some? then Some([b.value] + rest.value) else None
  }

  /** The k-th block renders the k-th item under the number `first + k`, and rendering fails
      exactly when some item cannot be rendered. */
  lemma {:induction false} RenderBlocksSpec<T>(ms: seq<T>, first: int, render: (int, T) -> Option<string>)
    ensures RenderBlocks(ms, first, render).Some? <==> forall k :: 0 <= k < |ms| ==> render(first + k, ms[k]).Some?
    ensures RenderBlocks(ms, first, render).Some? ==> |RenderBlocks(ms, first, render).value| == |ms|
    ensures RenderBlocks(ms, first, render).Some? ==>
      forall k :: 0 <= k < |ms| ==> RenderBlocks(ms, first, render).value[k] == render(first + k, ms[k]).value
    decreases |ms|
  {
    if ms != [] {
      RenderBlocksSpec(ms[1..], first + 1, render);
      forall k | 1 <= k < |ms| ensures ms[1..][k - 1] == ms[k] && first + 1 + (k - 1) == first + k {
      }
    }
  }

  /** The moments context renders every moment, numbered from 1 in list order, and raises
      exactly when some moment cannot be rendered. */
  lemma MomentsContextBlocks(ms: seq<Fields>)
    ensures MomentsContext(ms).Returns? <==> forall k :: 0 <= k < |ms| ==> MomentBlock(1 + k, ms[k]).Some?
  {
    RenderBlocksSpec(ms, 1, MomentBlock);
  }

  /** `_create_moments_context`: the blocks, numbered from 1, joined by newlines. */
  function MomentsContext(ms: seq<Fields>): (r: Outcome<string>)
    ensures r.Returns? <==> RenderBlocks(ms, 1, MomentBlock).Some?
  {
    match RenderBlocks(ms, 1, MomentBlock)
    case None => Raises("TypeError")
    case Some(blocks) => Returns(Join(blocks, "\n"))
  }
}
