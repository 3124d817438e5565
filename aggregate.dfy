/** The aggregation results: validation of the model's ranking
    (`_validate_aggregation_result`), the fallback that takes the first moments in load order
    (`_create_fallback_aggregation`), and the empty result. The `enumerate` loops that write
    `rank` into each moment are methods proved against the functions that describe them. */
module Aggregation {
  import opened Base
  import opened PyStr
  import opened JsonValue

  const Top := "top_engaging_moments"
  const DefaultCriteria := "Selected based on engagement score, duration, and content quality"

  /** `moment['rank'] = i + 1` on a dictionary; other values are left as they are. */
  function WithRank(m: Json, i: nat): Json {
    if m.JObj? then JObj(Put(m.fields, "rank", JInt(i + 1))) else m
  }

  /** Every ranked moment: `None` when some element is not a dictionary, where the item
      assignment raises. */
  function Ranked(items: seq<Json>): (r: Option<seq<Json>>)
    ensures r.Some? <==> forall k :: 0 <= k < |items| ==> items[k].JObj?
  {
    if forall k :: 0 <= k < |items| ==> items[k].JObj?
    then Some(seq(|items|, k requires 0 <= k < |items| => WithRank(items[k], k)))
    else None
  }

  /** Ranking neither drops nor reorders: the `k`-th moment gets rank `k + 1` and keeps every
      other key. */
  lemma RankedSpec(items: seq<Json>)
    requires Ranked(items).Some?
    ensures |Ranked(items).value| == |items|
    ensures forall k :: 0 <= k < |items| ==> (Ranked(items).value[k].JObj?
      && Get(Ranked(items).value[k].fields, "rank") == Some(JInt(k + 1))
      && (forall key :: key != "rank" ==> Get(Ranked(items).value[k].fields, key) == Get(items[k].fields, key)))
  {
  }

  /** The ranking loop of `_validate_aggregation_result`. */
  method RankMoments(items: seq<Json>) returns (r: Option<seq<Json>>)
    ensures r == Ranked(items)
  {
    var ranked: seq<Json> := [];
    var i := 0;
    while i < |items|
      invariant 0 <= i <= |items|
      invariant forall k :: 0 <= k < i ==> items[k].JObj?
      invariant ranked == seq(i, k requires 0 <= k < i => WithRank(items[k], k))
    {
      if !items[i].JObj? {
        return None;
      }
      ranked := ranked + [WithRank(items[i], i)];
      i := i + 1;
    }
    r := Some(ranked);
  }

  /** `_validate_aggregation_result` as a function of its input; `now` is the `isoformat()`
      of the current time. A non-dictionary raises, as does a moment list that cannot be
      iterated or holds a non-dictionary. A string or dictionary in place of the list passes
      only when empty, and is then kept as it is. */
  function ValidateAggregation(result: Json, now: string): (r: Outcome<Json>)
  {
    if !result.JObj? then Raises("TypeError")
    else
      var f1 := Default(result.fields, Top, JArr([]));
      var top := Get(f1, Top).value;
      match Iter(top)
      case None => Raises("TypeError")
      case Some(items) =>
        match Ranked(items)
        case None => Raises("TypeError")
        case Some(rs) => Returns(JObj(RankedFields(f1, if top.JArr? then JArr(rs) else top, |items|, now)))
  }

  /** The writes after ranking: the list, its count, the time stamp and the criteria default. */
  function RankedFields(f: Fields, top: Json, n: int, now: string): Fields
  {
    var f2 := Put(Put(Put(f, Top, top), "total_moments", JInt(n)), "analysis_timestamp", JStr(now + "Z"));
    Default(f2, "aggregation_criteria", JStr(DefaultCriteria))
  }

  lemma RankedFieldsSpec(f: Fields, top: Json, n: int, now: string)
    ensures Get(RankedFields(f, top, n, now), Top) == Some(top)
    ensures Get(RankedFields(f, top, n, now), "total_moments") == Some(JInt(n))
    ensures Get(RankedFields(f, top, n, now), "aggregation_criteria")
      == if HasKey(f, "aggregation_criteria") then Get(f, "aggregation_criteria") else Some(JStr(DefaultCriteria))
  {
    var f2 := Put(Put(Put(f, Top, top), "total_moments", JInt(n)), "analysis_timestamp", JStr(now + "Z"));
    assert Get(f2, "aggregation_criteria") == Get(f, "aggregation_criteria");
  }

  /** A validated ranking keeps every moment the model returned, in its order, ranked
      1, 2, ...; it counts them; and it keeps the model's criteria when given. */
  lemma ValidateAggregationSpec(result: Json, now: string)
    requires ValidateAggregation(result, now).Returns?
    ensures var out := ValidateAggregation(result, now).value.fields;
      var top := GetOr(result.fields, Top, JArr([]));
      result.JObj? && Iter(top).Some? && Ranked(Iter(top).value).Some?
      && Get(out, "total_moments") == Some(JInt(|Iter(top).value|))
      && (top.JArr? ==> Get(out, Top) == Some(JArr(Ranked(top.items).value)))
      && (!top.JArr? ==> Iter(top).value == [] && Get(out, Top) == Some(top))
      && Get(out, "aggregation_criteria")
        == (if HasKey(result.fields, "aggregation_criteria") then Get(result.fields, "aggregation_criteria")
            else Some(JStr(DefaultCriteria)))
  {
    var f1 := Default(result.fields, Top, JArr([]));
    var top := GetOr(result.fields, Top, JArr([]));
    var items := Iter(top).value;
    var newTop := if top.JArr? then JArr(Ranked(items).value) else top;
    ValidateAggregationUnfold(result, now);
    NonListEmpty(top);
    RankedFieldsSpec(f1, newTop, |items|, now);
  }

  lemma ValidateAggregationUnfold(result: Json, now: string)
    requires ValidateAggregation(result, now).Returns?
    ensures var f1 := Default(result.fields, Top, JArr([]));
      var top := GetOr(result.fields, Top, JArr([]));
      result.JObj? && Iter(top).Some? && Ranked(Iter(top).value).Some?
      && Get(f1, "aggregation_criteria") == Get(result.fields, "aggregation_criteria")
      && ValidateAggregation(result, now).value
        == JObj(RankedFields(f1, if top.JArr? then JArr(Ranked(top.items).value) else top, |Iter(top).value|, now))
  {
  }

  /** A string or dictionary in place of the moment list ranks only when empty. */
  lemma NonListEmpty(c: Json)
    ensures !c.JArr? && Iter(c).Some? && Iter(c).value != [] ==> !Iter(c).value[0].JObj?
  {
  }

  /** A ranking as validation leaves it: a moment list of dictionaries ranked 1, 2, ... by
      position and counted by `total_moments`, or an empty string or dictionary in its place,
      counted as zero. */
  predicate DenselyRanked(out: Json) {
    out.JObj? && Get(out.fields, Top).Some?
    && var top := Get(out.fields, Top).value;
    (top.JArr? ==>
       Get(out.fields, "total_moments") == Some(JInt(|top.items|))
       && forall k :: 0 <= k < |top.items| ==>
            top.items[k].JObj? && Get(top.items[k].fields, "rank") == Some(JInt(k + 1)))
    && (!top.JArr? ==> Get(out.fields, "total_moments") == Some(JInt(0)))
  }

  /** Every ranking that validation returns is densely ranked. */
  lemma ValidatedRanked(result: Json, now: string)
    requires ValidateAggregation(result, now).Returns?
    ensures DenselyRanked(ValidateAggregation(result, now).value)
  {
    ValidateAggregationUnfold(result, now);
    ValidateAggregationSpec(result, now);
    var top := GetOr(result.fields, Top, JArr([]));
    if top.JArr? {
      RankedSpec(top.items);
    }
  }

  /** Python's `all_moments[:n]`: a negative `n` counts from the end. */
  function Prefix(all: seq<Json>, n: int): (r: seq<Json>)
    ensures |r| == if n >= 0 then Min(n, |all|) else Max(0, |all| + n)
    ensures r == all[..|r|]
  {
    if n >= 0 then all[..Min(n, |all|)] else all[..Max(0, |all| + n)]
  }

  function Min(a: int, b: int): int { if a <= b then a else b }
  function Max(a: int, b: int): int { if a >= b then a else b }

  /** `if 'rank' not in moment: moment['rank'] = i + 1`; `Raises` where either step raises. */
  function RankIfAbsent(m: Json, i: nat): (r: Outcome<Json>)
    ensures r.Raises? <==> StrIn("rank", m) != Some(true) && !m.JObj?
    ensures r.Returns? && StrIn("rank", m) == Some(true) ==> r.value == m
    ensures r.Returns? && StrIn("rank", m) == Some(false) ==> r.value == WithRank(m, i)
  {
    match StrIn("rank", m)
    case None => Raises("TypeError")
    case Some(present) =>
      if present then Returns(m)
      else
        match SetItem(m, "rank", JInt(i + 1))
        case None => Raises("TypeError")
        case Some(v) => Returns(v)
  }

  /** The fallback's ranking of the selected moments. */
  function FallbackRanked(items: seq<Json>): (r: Outcome<seq<Json>>)
    ensures r.Returns? <==> forall k :: 0 <= k < |items| ==> RankIfAbsent(items[k], k).Returns?
    ensures r.Returns? ==> |r.value| == |items|
  {
    if forall k :: 0 <= k < |items| ==> RankIfAbsent(items[k], k).Returns?
    then Returns(seq(|items|, k requires 0 <= k < |items| => RankIfAbsent(items[k], k).value))
    else Raises("TypeError")
  }

  /** The ranking loop of `_create_fallback_aggregation`. */
  method RankFallback(items: seq<Json>) returns (r: Outcome<seq<Json>>)
    ensures r == FallbackRanked(items)
  {
    var ranked: seq<Json> := [];
    var i := 0;
    while i < |items|
      invariant 0 <= i <= |items|
      invariant forall k :: 0 <= k < i ==> RankIfAbsent(items[k], k).Returns?
      invariant ranked == seq(i, k requires 0 <= k < i => RankIfAbsent(items[k], k).value)
    {
      var m := RankIfAbsent(items[i], i);
      if m.Raises? {
        return Raises("TypeError");
      }
      ranked := ranked + [m.value];
      i := i + 1;
    }
    r := Returns(ranked);
  }

  /** `_create_fallback_aggregation`: the first `maxClips` moments in load order, a rank added
      to those without one, and the fixed summary. */
  function Fallback(all: seq<Json>, maxClips: int, now: string): Outcome<Json>
  {
    var top := Prefix(all, maxClips);
    match FallbackRanked(top)
    case Raises(e) => Raises(e)
    case Returns(ranked) => Returns(JObj(FallbackFields(ranked, maxClips, now)))
  }

  /** The fallback dictionary. */
  function FallbackFields(ranked: seq<Json>, maxClips: int, now: string): Fields
  {
    [(Top, JArr(ranked)),
     ("total_moments", JInt(|ranked|)),
     ("analysis_timestamp", JStr(now + "Z")),
     ("aggregation_criteria", JStr("Fallback selection - first " + IntToStr(maxClips) + " moments")),
     ("analysis_summary", JObj([("highest_engagement_themes", JArr([])),
                                ("total_engaging_content_time", JStr("N/A")),
                                ("recommendation", JStr("Fallback aggregation used due to parsing error"))])),
     ("honorable_mentions", JArr([]))]
  }

  lemma FallbackFieldsSpec(ranked: seq<Json>, maxClips: int, now: string)
    ensures Get(FallbackFields(ranked, maxClips, now), Top) == Some(JArr(ranked))
    ensures Get(FallbackFields(ranked, maxClips, now), "total_moments") == Some(JInt(|ranked|))
  {
    GetAt(FallbackFields(ranked, maxClips, now), 0);
    GetAt(FallbackFields(ranked, maxClips, now), 1);
  }

  /** The fallback raises exactly when a selected moment is neither a dictionary nor a string
      or list holding `"rank"`. */
  lemma FallbackRaises(all: seq<Json>, maxClips: int, now: string)
    ensures var top := Prefix(all, maxClips);
      Fallback(all, maxClips, now).Raises?
      <==> exists k :: 0 <= k < |top| && !top[k].JObj? && StrIn("rank", top[k]) != Some(true)
  {
  }

  /** A moment that already has a rank keeps it unchanged; the others are numbered by
      position. */
  lemma FallbackRankedSpec(items: seq<Json>)
    requires FallbackRanked(items).Returns?
    ensures forall k :: 0 <= k < |items| ==> (FallbackRanked(items).value[k]
      == (if StrIn("rank", items[k]) == Some(true) then items[k] else WithRank(items[k], k)))
  {
  }

  /** The fallback keeps the first `maxClips` moments (fewer when there are fewer), in load
      order, counts them, keeps a rank a moment already has and numbers the others by
      position. */
  lemma FallbackSpec(all: seq<Json>, maxClips: int, now: string)
    requires Fallback(all, maxClips, now).Returns?
    ensures var out := Fallback(all, maxClips, now).value;
      var n := if maxClips >= 0 then Min(maxClips, |all|) else Max(0, |all| + maxClips);
      out.JObj? && Get(out.fields, "total_moments") == Some(JInt(n))
      && Get(out.fields, Top).Some? && Get(out.fields, Top).value.JArr?
      && |Get(out.fields, Top).value.items| == n
      && (forall k :: 0 <= k < n ==> (Get(out.fields, Top).value.items[k]
            == (if StrIn("rank", all[k]) == Some(true) then all[k] else WithRank(all[k], k))))
  {
    var top := Prefix(all, maxClips);
    var ranked := FallbackRanked(top).value;
    FallbackFieldsSpec(ranked, maxClips, now);
    FallbackRankedSpec(top);
  }

  /** `_create_empty_aggregation_result`. */
  function EmptyAggregation(now: string): (r: Json)
    ensures r.JObj? && Get(r.fields, Top) == Some(JArr([])) && Get(r.fields, "total_moments") == Some(JInt(0))
  {
    var fields := [(Top, JArr([])), ("total_moments", JInt(0)), ("analysis_timestamp", JStr(now + "Z")),
                   ("aggregation_criteria", JStr("No engaging moments found"))];
    GetAt(fields, 0);
    GetAt(fields, 1);
    JObj(fields)
  }
}
