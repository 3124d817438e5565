/** The two analysis flows of the analyzer: one part's captions to a validated result
    (`analyze_part_for_engaging_moments` with `_extract_and_parse_json`), and the saved part
    results to a ranking (`aggregate_top_moments` with
    `_extract_and_parse_aggregation_json`). The language model is the function `chat` (its
    answer to a prompt, `None` when the call raises), `repair` its answer to the repair request
    for an answer, `parse` is `json.loads`, and `now` the `isoformat()` of the current time. */
module Analysis {
  import opened Base
  import opened PyStr
  import opened JsonValue
  import opened Captions
  import opened Prompts
  import opened Extract
  import opened Validation
  import opened Aggregation

  /** What one run returns or raises, and what it did on the way: the prompts written to the
      debug directory, the analysis calls, the repair calls, and the failed answers exported. */
  datatype Run = Run(result: Outcome<Json>, debugPrompts: seq<string>, chatCalls: nat, repairCalls: nat,
                     exports: seq<Export>)

  /** `analyze_part_for_engaging_moments` on a part whose SRT file has `content`. Building the
      prompt is outside the `try`, so a missing template escapes; every failure after it
      yields the empty result. */
  function AnalyzePart(a: Analyzer, content: Option<string>, partName: string, files: Files,
                       parse: string -> Option<Json>, chat: string -> Option<string>,
                       repair: string -> Option<string>, now: string): Run
    reads a
  {
    if FileEntries(content) == [] then Run(Returns(EmptyResult(partName, now)), [], 0, 0, [])
    else
      match a.BuildPartPrompt(content, partName, files)
      case Raises(e) => Run(Raises(e), [], 0, 0, [])
      case Returns(prompt) =>
        var debugPrompts := if a.debug then [prompt] else [];
        match chat(prompt)
        case None => Run(Returns(EmptyResult(partName, now)), debugPrompts, 1, 0, [])
        case Some(answer) =>
          var x := Escalate(answer, parse, repair, v => ValidateResult(v, partName, now));
          var result := if x.outcome.Returns? then x.outcome else Returns(EmptyResult(partName, now));
          Run(result, debugPrompts, 1, x.repairCalls, x.exports)
  }

  /** A part without caption entries costs no model call and yields the empty result; the
      run raises exactly when the part has entries and the prompt template is missing;
      otherwise the result names the part and counts its moments, at most two model calls
      are made, and an exported failure comes with the empty result. */
  lemma AnalyzePartSpec(a: Analyzer, content: Option<string>, partName: string, files: Files,
                        parse: string -> Option<Json>, chat: string -> Option<string>,
                        repair: string -> Option<string>, now: string)
    ensures var run := AnalyzePart(a, content, partName, files, parse, chat, repair, now);
      FileEntries(content) == [] ==> run == Run(Returns(EmptyResult(partName, now)), [], 0, 0, [])
    ensures var run := AnalyzePart(a, content, partName, files, parse, chat, repair, now);
      run.result.Raises?
      <==> FileEntries(content) != [] && a.LoadPromptTemplate(PartRequirement, files).Raises?
    ensures var run := AnalyzePart(a, content, partName, files, parse, chat, repair, now);
      run.result.Returns? ==> (Counted(run.result.value)
        && Get(run.result.value.fields, "video_part") == Some(JStr(partName)))
    ensures var run := AnalyzePart(a, content, partName, files, parse, chat, repair, now);
      run.chatCalls + run.repairCalls <= 2 && |run.debugPrompts| <= run.chatCalls
      && (run.debugPrompts != [] <==> a.debug && run.chatCalls == 1)
    ensures var run := AnalyzePart(a, content, partName, files, parse, chat, repair, now);
      run.exports != [] ==> run.result == Returns(EmptyResult(partName, now))
  {
    var run := AnalyzePart(a, content, partName, files, parse, chat, repair, now);
    if FileEntries(content) != [] && a.BuildPartPrompt(content, partName, files).Returns? {
      var prompt := a.BuildPartPrompt(content, partName, files).value;
      if chat(prompt).Some? {
        var validate := v => ValidateResult(v, partName, now);
        var x := Escalate(chat(prompt).value, parse, repair, validate);
        if x.outcome.Returns? {
          EscalatedResult(x, validate, parse, repair, chat(prompt).value);
          ValidatedResult(x.outcome.value, partName, now);
        }
      }
    }
  }

  /** A successful extraction holds what validation returned for some parsed answer. */
  lemma EscalatedResult(x: Extraction, validate: Json -> Outcome<Json>, parse: string -> Option<Json>,
                        repair: string -> Option<string>, answer: string)
    requires x == Escalate(answer, parse, repair, validate) && x.outcome.Returns?
    ensures exists v :: validate(v) == x.outcome
  {
    if parse(Strip(answer)).Some? {
      assert validate(parse(Strip(answer)).value) == x.outcome;
    } else if FindFenced(answer).Some? && parse(FindFenced(answer).value).Some? {
      assert validate(parse(FindFenced(answer).value).value) == x.outcome;
    } else {
      assert validate(parse(FixTail(repair(answer).value)).value) == x.outcome;
    }
  }

  lemma ValidatedResult(out: Json, partName: string, now: string)
    requires exists v :: ValidateResult(v, partName, now) == Returns(out)
    ensures Counted(out) && Get(out.fields, "video_part") == Some(JStr(partName))
  {
    var v :| ValidateResult(v, partName, now) == Returns(out);
    ValidateResultSpec(v, partName, now);
  }

  /** `aggregate_top_moments` over the saved part results `highlights` (`None` for a file
      that cannot be read). Building the prompt is outside the `try`; a failed call or
      extraction falls back to the first moments, and the fallback itself is outside any
      handler. */
  function AggregateTopMoments(a: Analyzer, highlights: seq<Option<string>>, files: Files,
                               parse: string -> Option<Json>, chat: string -> Option<string>,
                               repair: string -> Option<string>, now: string): Run
    reads a
  {
    var moments := LoadMoments(highlights, parse);
    if moments == [] then Run(Returns(EmptyAggregation(now)), [], 0, 0, [])
    else
      match a.BuildAggregationPrompt(highlights, parse, files)
      case Raises(e) => Run(Raises(e), [], 0, 0, [])
      case Returns(prompt) =>
        var debugPrompts := if a.debug then [prompt] else [];
        match chat(prompt)
        case None => Run(Fallback(moments, a.maxClips, now), debugPrompts, 1, 0, [])
        case Some(answer) =>
          var x := Escalate(answer, parse, repair, v => ValidateAggregation(v, now));
          var result := if x.outcome.Returns? then x.outcome else Fallback(moments, a.maxClips, now);
          Run(result, debugPrompts, 1, x.repairCalls, x.exports)
  }

  /** No loaded moment means no model call and the empty ranking; a prompt that cannot be
      built raises before any call; a failed call falls back to the first moments (raising
      where the fallback raises); a ranking the model answered that validates is returned as
      is, densely ranked and counted, and any other answer falls back. */
  lemma AggregateSpec(a: Analyzer, highlights: seq<Option<string>>, files: Files,
                      parse: string -> Option<Json>, chat: string -> Option<string>,
                      repair: string -> Option<string>, now: string)
    ensures var run := AggregateTopMoments(a, highlights, files, parse, chat, repair, now);
      LoadMoments(highlights, parse) == [] ==> run == Run(Returns(EmptyAggregation(now)), [], 0, 0, [])
    ensures var run := AggregateTopMoments(a, highlights, files, parse, chat, repair, now);
      var prompt := a.BuildAggregationPrompt(highlights, parse, files);
      LoadMoments(highlights, parse) != [] && prompt.Returns? && chat(prompt.value).None?
      ==> run.result == Fallback(LoadMoments(highlights, parse), a.maxClips, now) && run.chatCalls == 1
    ensures var run := AggregateTopMoments(a, highlights, files, parse, chat, repair, now);
      var prompt := a.BuildAggregationPrompt(highlights, parse, files);
      LoadMoments(highlights, parse) != [] && prompt.Returns? && chat(prompt.value).Some?
      && Escalate(chat(prompt.value).value, parse, repair, v => ValidateAggregation(v, now)).outcome.Raises?
      ==> run.result == Fallback(LoadMoments(highlights, parse), a.maxClips, now)
    ensures var run := AggregateTopMoments(a, highlights, files, parse, chat, repair, now);
      var prompt := a.BuildAggregationPrompt(highlights, parse, files);
      LoadMoments(highlights, parse) != [] && prompt.Raises?
      ==> run.result == Raises(prompt.error) && run.chatCalls == 0
    ensures var run := AggregateTopMoments(a, highlights, files, parse, chat, repair, now);
      var prompt := a.BuildAggregationPrompt(highlights, parse, files);
      LoadMoments(highlights, parse) != [] && prompt.Returns? && chat(prompt.value).Some?
      && Escalate(chat(prompt.value).value, parse, repair, v => ValidateAggregation(v, now)).outcome.Returns?
      ==> (run.result == Escalate(chat(prompt.value).value, parse, repair, v => ValidateAggregation(v, now)).outcome
           && run.chatCalls == 1 && DenselyRanked(run.result.value))
    ensures var run := AggregateTopMoments(a, highlights, files, parse, chat, repair, now);
      run.chatCalls + run.repairCalls <= 2
  {
    var prompt := a.BuildAggregationPrompt(highlights, parse, files);
    if LoadMoments(highlights, parse) != [] && prompt.Returns? && chat(prompt.value).Some? {
      var validate := v => ValidateAggregation(v, now);
      var x := Escalate(chat(prompt.value).value, parse, repair, validate);
      if x.outcome.Returns? {
        EscalatedResult(x, validate, parse, repair, chat(prompt.value).value);
        var v :| validate(v) == x.outcome;
        ValidatedRanked(v, now);
      }
    }
  }
}
