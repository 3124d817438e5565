/** Pulling a JSON object out of free-form LLM text, and the fixed order in which the analyzer
    tries to: the whole stripped answer, then the first fenced ```` ```json ```` block, then a
    single repair request whose answer is reduced to its fenced block, its outermost brace
    span, or its stripped text. `json.loads` and the repair request are parameters. */
module Extract {
  import opened Base
  import opened PyStr
  import opened JsonValue

  const Fence := "```json"
  const Close := "```"

  /** The first index at or after `i` that is not whitespace (`\s*` matched greedily). */
  function SkipWs(s: string, i: nat): (k: nat)
    requires i <= |s|
    ensures i <= k <= |s| && (k == |s| || !IsSpace(s[k]))
    ensures forall j :: i <= j < k ==> IsSpace(s[j])
    decreases |s| - i
  {
    if i < |s| && IsSpace(s[i]) then SkipWs(s, i + 1) else i
  }

  /** The lazy `\{.*?\}\s*```` part: the smallest end `e >= from` of a group closing with `}`
      that is followed by optional whitespace and a closing fence. */
  function CloseFrom(s: string, from: nat): (e: Option<nat>)
    requires 1 <= from
    ensures e.Some? ==> from <= e.value <= |s| && s[e.value - 1] == '}'
    ensures e.Some? ==> OccursAt(s, Close, SkipWs(s, e.value))
    decreases |s| + 1 - from
  {
    if from > |s| then None
    else if s[from - 1] == '}' && OccursAt(s, Close, SkipWs(s, from)) then Some(from)
    else CloseFrom(s, from + 1)
  }

  /** The group of the fenced pattern when its match starts at `p`. */
  function FencedAt(s: string, p: nat): (g: Option<string>)
    requires OccursAt(s, Fence, p)
    ensures g.Some? ==> |g.value| >= 2 && g.value[0] == '{' && g.value[|g.value| - 1] == '}'
  {
    var q := SkipWs(s, p + 7);
    if q < |s| && s[q] == '{' then
      match CloseFrom(s, q + 2)
      case None => None
      case Some(e) => Some(s[q..e])
    else None
  }

  function FencedFrom(s: string, p: nat): (g: Option<string>)
    ensures g.Some? ==> |g.value| >= 2 && g.value[0] == '{' && g.value[|g.value| - 1] == '}'
    decreases |s| - p
  {
    if p + 7 > |s| then None
    else if OccursAt(s, Fence, p) && FencedAt(s, p).Some? then FencedAt(s, p)
    else FencedFrom(s, p + 1)
  }

  /** `re.search(r'```json\s*(\{.*?\})\s*```', s, re.DOTALL)`, group 1: the leftmost match,
      with the shortest object-shaped group that a closing fence follows. */
  function FindFenced(s: string): (g: Option<string>)
    ensures g.Some? ==> |g.value| >= 2 && g.value[0] == '{' && g.value[|g.value| - 1] == '}'
  {
    FencedFrom(s, 0)
  }

  /** The last index of `c` in `s`, or -1. */
  function LastIndex(s: string, c: char): (k: int)
    ensures -1 <= k < |s|
    ensures k >= 0 ==> s[k] == c
    ensures forall j :: k < j < |s| ==> s[j] != c
  {
    if s == [] then -1
    else if s[|s| - 1] == c then |s| - 1
    else LastIndex(s[..|s| - 1], c)
  }

  /** `re.search(r'\{.*\}', s, re.DOTALL)`: from the first `{` to the last `}` after it. */
  function BraceSpan(s: string): (g: Option<string>)
    ensures g.Some? ==> |g.value| >= 2 && g.value[0] == '{' && g.value[|g.value| - 1] == '}'
    ensures g.None? <==> FindFrom(s, "{", 0) < 0 || LastIndex(s, '}') <= FindFrom(s, "{", 0)
  {
    var p := FindFrom(s, "{", 0);
    var l := LastIndex(s, '}');
    if p >= 0 && l > p then
      assert s[p..p + 1] == "{";
      Some(s[p..l + 1])
    else None
  }

  /** The extraction tail of the repair call: its fenced block, else its brace span, else the
      whole answer stripped. */
  function FixTail(answer: string): (r: string)
    ensures FindFenced(answer).Some? ==> r == FindFenced(answer).value
    ensures FindFenced(answer).None? && BraceSpan(answer).Some? ==> r == BraceSpan(answer).value
    ensures FindFenced(answer).None? && BraceSpan(answer).None? ==> r == Strip(answer)
  {
    match FindFenced(answer)
    case Some(g) => g
    case None =>
      match BraceSpan(answer)
      case Some(g) => g
      case None => Strip(answer)
  }

  /** A fenced block whose object has no backtick is found whole. */
  lemma FencedRecovers(w1: string, body: string, w2: string, rest: string)
    requires AllSpace(w1) && AllSpace(w2)
    requires |body| >= 2 && body[0] == '{' && body[|body| - 1] == '}'
    requires forall j :: 0 <= j < |body| ==> body[j] != '`'
    ensures FindFenced(Fence + w1 + body + w2 + Close + rest) == Some(body)
  {
    var s := Fence + w1 + body + w2 + Close + rest;
    var q := 7 + |w1|;
    var end := q + |body|;
    FencedLayout(w1, body, w2, rest);
    SkipSpaces(s, 7, q);
    SkipSpaces(s, end, end + |w2|);
    assert OccursAt(s, Close, end + |w2|);
    CloseFromSkips(s, q + 2, end);
    FencedAtIs(s, q, end);
    BodyAt(s, w1, body, w2, rest, q, end);
  }

  /** A match at the very start is the leftmost one. */
  lemma FencedAtIs(s: string, q: nat, e: nat)
    requires OccursAt(s, Fence, 0) && SkipWs(s, 7) == q && q < |s| && s[q] == '{'
    requires CloseFrom(s, q + 2) == Some(e)
    ensures FindFenced(s) == Some(s[q..e])
  {
  }

  lemma BodyAt(s: string, w1: string, body: string, w2: string, rest: string, q: nat, e: nat)
    requires s == Fence + w1 + body + w2 + Close + rest && q == 7 + |w1| && e == q + |body|
    ensures s[q..e] == body
  {
    assert s == (Fence + w1) + body + (w2 + Close + rest);
  }

  lemma FencedLayout(w1: string, body: string, w2: string, rest: string)
    requires |body| >= 1
    ensures var s := Fence + w1 + body + w2 + Close + rest;
      var q := 7 + |w1|;
      OccursAt(s, Fence, 0)
      && (forall j :: 7 <= j < q ==> s[j] == w1[j - 7])
      && (forall j :: q <= j < q + |body| ==> s[j] == body[j - q])
      && (forall j :: q + |body| <= j < q + |body| + |w2| ==> s[j] == w2[j - q - |body|])
      && s[q + |body| + |w2|..q + |body| + |w2| + 3] == Close
  {
  }

  /** Skipping a run of whitespace that ends at a non-space character. */
  lemma SkipSpaces(s: string, i: nat, k: nat)
    requires i <= k < |s| && !IsSpace(s[k])
    requires forall j :: i <= j < k ==> IsSpace(s[j])
    ensures SkipWs(s, i) == k
    decreases k - i
  {
    if i < k {
      SkipSpaces(s, i + 1, k);
    }
  }

  /** No earlier end qualifies while the text up to `end` has no backtick and ends in `}`. */
  lemma CloseFromSkips(s: string, from: nat, end: nat)
    requires 1 <= from <= end <= |s| && s[end - 1] == '}' && !IsSpace(s[end - 1])
    requires forall j :: from - 1 <= j < end ==> s[j] != '`'
    requires OccursAt(s, Close, SkipWs(s, end))
    ensures CloseFrom(s, from) == Some(end)
    decreases end - from
  {
    if from < end {
      var k := SkipWs(s, from);
      assert k <= end - 1;
      NoCloseAt(s, k);
      CloseFromSkips(s, from + 1, end);
    }
  }

  lemma NoCloseAt(s: string, k: nat)
    requires k < |s| && s[k] != '`'
    ensures !OccursAt(s, Close, k)
  {
    if k + |Close| <= |s| {
      assert s[k..k + |Close|][0] == s[k];
    }
  }

  /** The brace span of a text is the object between a prefix without `{` and a suffix
      without `}`. */
  lemma BraceRecovers(pre: string, body: string, post: string)
    requires '{' !in pre && '}' !in post
    requires |body| >= 2 && body[0] == '{' && body[|body| - 1] == '}'
    ensures BraceSpan(pre + body + post) == Some(body)
  {
    var s := pre + body + post;
    var p := |pre|;
    var l := |pre| + |body| - 1;
    assert OccursAt(s, "{", p) by {
      assert s[p..p + 1] == [s[p]];
    }
    forall j | 0 <= j < p ensures !OccursAt(s, "{", j) {
      assert s[j] == pre[j];
      assert s[j..j + 1] == [s[j]];
    }
    forall j | l < j < |s| ensures s[j] != '}' {
      assert s[j] == post[j - l - 1];
    }
    LastIndexIs(s, '}', l);
    assert s[p..l + 1] == body;
  }

  lemma LastIndexIs(s: string, c: char, k: nat)
    requires k < |s| && s[k] == c
    requires forall j :: k < j < |s| ==> s[j] != c
    ensures LastIndex(s, c) == k
    decreases |s|
  {
    if k < |s| - 1 {
      var t := s[..|s| - 1];
      assert t[k] == c;
      LastIndexIs(t, c, k);
    }
  }

  /** A debug export of the raw answer and, when the repair call returned, its extract. */
  datatype Export = Export(raw: string, fixed: Option<string>)

  /** What the escalation did: its outcome, the number of repair requests and the exports. */
  datatype Extraction = Extraction(outcome: Outcome<Json>, repairCalls: nat, exports: seq<Export>)

  /** The extraction shared by `_extract_and_parse_json` and
      `_extract_and_parse_aggregation_json`. `parse` is `json.loads` (`None` for a decode error),
      `repair` the repair request for this answer (`None` if it raises), `validate` the
      validation applied to a parsed object. A validation that raises in the first two tiers
      escapes unhandled; any failure in the third is exported and reported as `Raises`. */
  function Escalate(response: string, parse: string -> Option<Json>, repair: string -> Option<string>,
                    validate: Json -> Outcome<Json>): (x: Extraction)
    ensures x.repairCalls <= 1 && |x.exports| <= 1
    ensures parse(Strip(response)).Some?
      ==> x == Extraction(validate(parse(Strip(response)).value), 0, [])
    ensures parse(Strip(response)).None? && FindFenced(response).Some? && parse(FindFenced(response).value).Some?
      ==> x == Extraction(validate(parse(FindFenced(response).value).value), 0, [])
    ensures x.repairCalls == 1 <==> (parse(Strip(response)).None?
      && (FindFenced(response).None? || parse(FindFenced(response).value).None?))
    ensures x.exports != [] <==> x.repairCalls == 1 && x.outcome.Raises?
    ensures x.exports != [] ==> (x.exports
      == [Export(response, if repair(response).Some? then Some(FixTail(repair(response).value)) else None)])
    ensures x.repairCalls == 1 && x.outcome.Returns? ==> (repair(response).Some?
      && parse(FixTail(repair(response).value)).Some?
      && x.outcome == validate(parse(FixTail(repair(response).value)).value))
  {
    match parse(Strip(response))
    case Some(v) => Extraction(validate(v), 0, [])
    case None =>
      var fenced := FindFenced(response);
      if fenced.Some? && parse(fenced.value).Some? then
        Extraction(validate(parse(fenced.value).value), 0, [])
      else
        match repair(response)
        case None => Extraction(Raises("repair request failed"), 1, [Export(response, None)])
        case Some(answer) =>
          var fixed := FixTail(answer);
          match parse(fixed)
          case None => Extraction(Raises("JSONDecodeError"), 1, [Export(response, Some(fixed))])
          case Some(v) =>
            var out := validate(v);
            if out.Raises? then Extraction(out, 1, [Export(response, Some(fixed))])
            else Extraction(out, 1, [])
  }
}
