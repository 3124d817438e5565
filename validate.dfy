/** Validation of a part result: each moment is checked and completed
    (`_validate_moment`), and the result keeps exactly the accepted moments with a recomputed
    count (`_validate_and_clean_result`). Dictionaries are values here: an update in place is
    a function returning the updated dictionary. */
module Validation {
  import opened Base
  import opened PyStr
  import opened JsonValue
  import opened Captions

  const Moments := "engaging_moments"
  const MinMs := 30000
  const MaxMs := 240000

  /** `time_to_seconds` on a moment field, in milliseconds; any non-string raises inside the
      validator's `try` and counts as unparseable. */
  function FieldMs(v: Json): Option<int>
  {
    if v.JStr? then TimeToMs(v.s) else None
  }

  /** The `engagement_details` step: a missing value becomes `{"engagement_level": "medium"}`;
      a dictionary without the level gets `"medium"`; a string or list that holds
      `"engagement_level"` is left alone; anything else raises and rejects the moment. */
  function Details(f: Fields): (r: Option<Fields>)
    ensures r.Some? ==> HasKey(r.value, "engagement_details")
    ensures r.Some? ==> forall k :: k != "engagement_details" ==> Get(r.value, k) == Get(f, k)
    ensures !HasKey(f, "engagement_details")
      ==> r == Some(Put(f, "engagement_details", JObj([("engagement_level", JStr("medium"))])))
    ensures HasKey(f, "engagement_details") ==> (r.Some? <==> DetailsUsable(Get(f, "engagement_details").value))
  {
    match Get(f, "engagement_details")
    case None => Some(Put(f, "engagement_details", JObj([("engagement_level", JStr("medium"))])))
    case Some(details) =>
      match StrIn("engagement_level", details)
      case None => None
      case Some(present) =>
        if present then Some(f)
        else
          match SetItem(details, "engagement_level", JStr("medium"))
          case None => None
          case Some(d) => Some(Put(f, "engagement_details", d))
  }

  /** An existing `engagement_details` the validator can complete: a dictionary, or a string
      or list that already holds `"engagement_level"`. */
  predicate DetailsUsable(details: Json) {
    details.JObj? || ((details.JStr? || details.JArr?) && StrIn("engagement_level", details) == Some(true))
  }

  /** The milliseconds between the start and end stamps of a moment with both fields. */
  function Span(f: Fields): Option<int>
    requires HasKey(f, "start_time") && HasKey(f, "end_time")
  {
    var s := FieldMs(Get(f, "start_time").value);
    var e := FieldMs(Get(f, "end_time").value);
    if s.Some? && e.Some? then Some(e.value - s.value) else None
  }

  /** The acceptance rule, stated on its own: a dictionary with the three required keys,
      both stamps readable, a span of 30 to 240 seconds inclusive, and usable details. */
  predicate Accepts(m: Json) {
    m.JObj? && HasKey(m.fields, "title") && HasKey(m.fields, "start_time") && HasKey(m.fields, "end_time")
    && Span(m.fields).Some? && MinMs <= Span(m.fields).value <= MaxMs
    && (!HasKey(m.fields, "engagement_details") || DetailsUsable(Get(m.fields, "engagement_details").value))
  }

  /** The completion of a dictionary whose span `d` passed the window: whole-second
      duration, then the transcript, details and tags defaults. */
  function Complete(f: Fields, d: int): (r: Option<Fields>)
    ensures r.Some? <==> (!HasKey(f, "engagement_details") || DetailsUsable(Get(f, "engagement_details").value))
  {
    var f2 := Default(Put(f, "duration_seconds", JInt(d / 1000)), "transcript", JStr(""));
    assert Get(f2, "engagement_details") == Get(f, "engagement_details");
    match Details(f2)
    case None => None
    case Some(g) => Some(Default(g, "tags", JArr([])))
  }

  /** `_validate_moment` on a dictionary. */
  function ValidateObject(f: Fields): (r: Option<Fields>)
    ensures r.Some? <==> Accepts(JObj(f))
  {
    if !(HasKey(f, "title") && HasKey(f, "start_time") && HasKey(f, "end_time")) then None
    else
      match Span(f)
      case None => None
      case Some(d) => if d < MinMs || d > MaxMs then None else Complete(f, d)
  }

  /** `_validate_moment`: `Raises` where `in` itself raises (numbers, booleans, `None`),
      `Returns(None)` for a rejected moment, and the completed moment otherwise. Strings and
      lists never pass: indexing them by a key raises inside the `try`. */
  function ValidateMoment(m: Json): (r: Outcome<Option<Json>>)
    ensures r.Raises? <==> Unsearchable(m)
    ensures r.Returns? ==> (r.value.Some? <==> Accepts(m))
  {
    match m
    case JInt(_) => Raises("TypeError")
    case JBool(_) => Raises("TypeError")
    case JNull => Raises("TypeError")
    case JStr(_) => Returns(None)
    case JArr(_) => Returns(None)
    case JObj(f) =>
      match ValidateObject(f)
      case None => Returns(None)
      case Some(g) => Returns(Some(JObj(g)))
  }

  /** What completion writes: the whole-second duration, and defaults for the missing
      optional fields. */
  lemma CompleteSpec(f: Fields, d: int)
    requires Complete(f, d).Some?
    ensures var g := Complete(f, d).value;
      Get(g, "duration_seconds") == Some(JInt(d / 1000))
      && Get(g, "transcript") == (if HasKey(f, "transcript") then Get(f, "transcript") else Some(JStr("")))
      && Get(g, "tags") == (if HasKey(f, "tags") then Get(f, "tags") else Some(JArr([])))
      && HasKey(g, "engagement_details")
  {
    var f1 := Put(f, "duration_seconds", JInt(d / 1000));
    var f2 := Default(f1, "transcript", JStr(""));
    var g := Details(f2).value;
    assert Get(f1, "transcript") == Get(f, "transcript");
    assert Get(g, "tags") == Get(f2, "tags") == Get(f1, "tags") == Get(f, "tags");
  }

  /** Completion leaves every key but the four it writes untouched. */
  lemma CompleteKeeps(f: Fields, d: int, k: string)
    requires Complete(f, d).Some?
    requires k != "duration_seconds" && k != "transcript" && k != "engagement_details" && k != "tags"
    ensures Get(Complete(f, d).value, k) == Get(f, k)
  {
  }

  /** An accepted moment is a dictionary whose completion carries a duration of 30 to 240
      whole seconds, the span of its two stamps rounded down. */
  lemma AcceptedMoment(m: Json)
    requires Accepts(m)
    ensures var g := Complete(m.fields, Span(m.fields).value);
      g.Some? && ValidateMoment(m) == Returns(Some(JObj(g.value)))
      && Get(g.value, "duration_seconds") == Some(JInt(Span(m.fields).value / 1000))
      && 30 <= Span(m.fields).value / 1000 <= 240
  {
    var d := Span(m.fields).value;
    ObjectIsComplete(m.fields);
    CompleteSpec(m.fields, d);
    WholeSeconds(d);
  }

  lemma WholeSeconds(d: int)
    requires MinMs <= d <= MaxMs
    ensures 30 <= d / 1000 <= 240
  {
  }

  lemma ObjectIsComplete(f: Fields)
    requires Accepts(JObj(f))
    ensures ValidateObject(f) == Complete(f, Span(f).value)
  {
  }

  /** An accepted moment as the result keeps it. */
  predicate CleanMoment(m: Json) {
    m.JObj? && HasKey(m.fields, "title") && HasKey(m.fields, "start_time") && HasKey(m.fields, "end_time")
    && HasKey(m.fields, "transcript") && HasKey(m.fields, "engagement_details") && HasKey(m.fields, "tags")
    && (exists d :: 30 <= d <= 240 && Get(m.fields, "duration_seconds") == Some(JInt(d)))
  }

  lemma AcceptedIsClean(m: Json)
    requires Accepts(m)
    ensures CleanMoment(ValidateMoment(m).value.value)
  {
    AcceptedMoment(m);
    var d := Span(m.fields).value;
    CompleteSpec(m.fields, d);
    CompleteKeeps(m.fields, d, "title");
    CompleteKeeps(m.fields, d, "start_time");
    CompleteKeeps(m.fields, d, "end_time");
  }

  /** The accepted moments of a list, completed, in list order; `Raises` if validating any
      moment raises. */
  function Kept(items: seq<Json>): Outcome<seq<Json>>
  {
    if items == [] then Returns([])
    else
      match Kept(items[..|items| - 1])
      case Raises(e) => Raises(e)
      case Returns(vs) =>
        match ValidateMoment(items[|items| - 1])
        case Raises(e) => Raises(e)
        case Returns(None) => Returns(vs)
        case Returns(Some(m)) => Returns(vs + [m])
  }

  /** Once a prefix raises, the whole list raises with the same error: the first moment
      that raises ends validation. */
  lemma {:induction false} KeptRaises(items: seq<Json>, j: nat)
    requires j <= |items| && Kept(items[..j]).Raises?
    ensures Kept(items) == Kept(items[..j])
    decreases |items|
  {
    if j < |items| {
      var n := |items|;
      assert items[..n - 1][..j] == items[..j];
      KeptRaises(items[..n - 1], j);
    } else {
      assert items[..j] == items;
    }
  }

  /** The number of accepted moments. */
  function CountAccepted(items: seq<Json>): nat
  {
    if items == [] then 0
    else CountAccepted(items[..|items| - 1]) + (if Accepts(items[|items| - 1]) then 1 else 0)
  }

  /** A value `in` cannot search: a number, a boolean or `None`. */
  predicate Unsearchable(m: Json) {
    m.JInt? || m.JBool? || m.JNull?
  }

  /** Validating a list raises exactly when some moment cannot be searched. */
  lemma {:induction false} KeptRaisesIff(items: seq<Json>)
    ensures Kept(items).Raises? <==> exists m :: m in items && Unsearchable(m)
  {
    if items != [] {
      var init, last := items[..|items| - 1], items[|items| - 1];
      KeptRaisesIff(init);
      KeptUnfold(items);
      SnocMembers(items);
    }
  }

  lemma KeptUnfold(items: seq<Json>)
    requires items != []
    ensures Kept(items).Raises?
      <==> Kept(items[..|items| - 1]).Raises? || Unsearchable(items[|items| - 1])
  {
  }

  lemma SnocMembers<T>(items: seq<T>)
    requires items != []
    ensures forall m :: m in items <==> m in items[..|items| - 1] || m == items[|items| - 1]
  {
    assert items == items[..|items| - 1] + [items[|items| - 1]];
  }

  /** As many moments are kept as are accepted. */
  lemma {:induction false} KeptCount(items: seq<Json>)
    requires Kept(items).Returns?
    ensures |Kept(items).value| == CountAccepted(items)
  {
    if items != [] {
      KeptCount(items[..|items| - 1]);
    }
  }

  /** Every kept moment is clean. */
  lemma {:induction false} KeptClean(items: seq<Json>)
    requires Kept(items).Returns?
    ensures forall j :: 0 <= j < |Kept(items).value| ==> CleanMoment(Kept(items).value[j])
  {
    if items != [] {
      var last := items[|items| - 1];
      KeptClean(items[..|items| - 1]);
      if Accepts(last) {
        AcceptedIsClean(last);
      }
    }
  }

  lemma KeptSnoc(items: seq<Json>, i: nat)
    requires i < |items|
    ensures Kept(items[..i + 1]) == match Kept(items[..i])
      case Raises(e) => Raises(e)
      case Returns(vs) =>
        match ValidateMoment(items[i])
        case Raises(e) => Raises(e)
        case Returns(None) => Returns(vs)
        case Returns(Some(m)) => Returns(vs + [m])
  {
    assert items[..i + 1][..i] == items[..i];
  }

  /** The result's moment list and count agree. */
  predicate Counted(r: Json) {
    r.JObj? && Get(r.fields, Moments).Some? && Get(r.fields, Moments).value.JArr?
    && Get(r.fields, "total_moments") == Some(JInt(|Get(r.fields, Moments).value.items|))
  }

  /** `_create_empty_result`; `now` is the `isoformat()` of the current time. */
  function EmptyResult(partName: string, now: string): (r: Json)
    ensures Counted(r) && Get(r.fields, "video_part") == Some(JStr(partName))
    ensures Get(r.fields, Moments) == Some(JArr([]))
  {
    var fields := [("video_part", JStr(partName)), (Moments, JArr([])), ("total_moments", JInt(0)),
                   ("analysis_timestamp", JStr(now + "Z"))];
    GetAt(fields, 0);
    GetAt(fields, 1);
    GetAt(fields, 2);
    JObj(fields)
  }

  /** The moment list, read after `setdefault` supplied an empty one. */
  function MomentsOf(f: Fields): Json {
    GetOr(f, Moments, JArr([]))
  }

  /** The keys `_validate_and_clean_result` writes. */
  predicate Written(k: string) {
    k == Moments || k == "video_part" || k == "total_moments" || k == "analysis_timestamp"
    || k == "detected_content_type"
  }

  /** The fields written before the moments are checked: the list default, the part name,
      the provisional count `n`, the time stamp and the content-type default. */
  function Prepared(f: Fields, partName: string, n: int, now: string): Fields
  {
    var f1 := Default(f, Moments, JArr([]));
    var f2 := Put(f1, "video_part", JStr(partName));
    var f3 := Put(f2, "total_moments", JInt(n));
    var f4 := Put(f3, "analysis_timestamp", JStr(now + "Z"));
    Default(f4, "detected_content_type", JStr("unknown"))
  }

  /** The final fields: the kept moments `vs` and their count replace the provisional ones. */
  function Cleaned(f: Fields, partName: string, n: int, now: string, vs: seq<Json>): Fields
  {
    Put(Put(Prepared(f, partName, n, now), Moments, JArr(vs)), "total_moments", JInt(|vs|))
  }

  /** `_validate_and_clean_result` as a function of its input. Anything but a dictionary
      raises, as does a moment list without a length or a moment that makes `in` raise. */
  function ValidateResult(result: Json, partName: string, now: string): (r: Outcome<Json>)
  {
    if !result.JObj? then Raises("TypeError")
    else
      match Iter(MomentsOf(result.fields))
      case None => Raises("TypeError")
      case Some(items) =>
        match Kept(items)
        case Raises(e) => Raises(e)
        case Returns(vs) => Returns(JObj(Cleaned(result.fields, partName, |items|, now, vs)))
  }

  lemma PreparedSpec(f: Fields, partName: string, n: int, now: string)
    ensures var p := Prepared(f, partName, n, now);
      Get(p, "video_part") == Some(JStr(partName))
      && Get(p, "detected_content_type")
        == (if HasKey(f, "detected_content_type") then Get(f, "detected_content_type") else Some(JStr("unknown")))
      && (forall k :: !Written(k) ==> Get(p, k) == Get(f, k))
  {
    var f1 := Default(f, Moments, JArr([]));
    var f4 := Put(Put(Put(f1, "video_part", JStr(partName)), "total_moments", JInt(n)), "analysis_timestamp", JStr(now + "Z"));
    assert Get(f4, "detected_content_type") == Get(f, "detected_content_type");
  }

  lemma CleanedSpec(f: Fields, partName: string, n: int, now: string, vs: seq<Json>)
    ensures var c := JObj(Cleaned(f, partName, n, now, vs));
      Counted(c) && Get(c.fields, Moments) == Some(JArr(vs))
      && Get(c.fields, "video_part") == Some(JStr(partName))
      && Get(c.fields, "detected_content_type")
        == (if HasKey(f, "detected_content_type") then Get(f, "detected_content_type") else Some(JStr("unknown")))
      && (forall k :: !Written(k) ==> Get(c.fields, k) == Get(f, k))
  {
    PreparedSpec(f, partName, n, now);
  }

  /** A validated result names the caller's part, lists exactly the kept moments and counts
      them, keeps a content type it already had (else `"unknown"`), and leaves every other
      key as it was. */
  lemma ValidateResultSpec(result: Json, partName: string, now: string)
    requires ValidateResult(result, partName, now).Returns?
    ensures var out := ValidateResult(result, partName, now).value;
      result.JObj? && Iter(MomentsOf(result.fields)).Some? && Kept(Iter(MomentsOf(result.fields)).value).Returns?
      && Counted(out)
      && Get(out.fields, Moments) == Some(JArr(Kept(Iter(MomentsOf(result.fields)).value).value))
      && Get(out.fields, "video_part") == Some(JStr(partName))
      && Get(out.fields, "detected_content_type")
        == (if HasKey(result.fields, "detected_content_type") then Get(result.fields, "detected_content_type")
            else Some(JStr("unknown")))
      && (forall k :: !Written(k) ==> Get(out.fields, k) == Get(result.fields, k))
  {
    var items := Iter(MomentsOf(result.fields)).value;
    CleanedSpec(result.fields, partName, |items|, now, Kept(items).value);
  }

  /** `_validate_and_clean_result` step by step: the loop collects the accepted moments. */
  method ValidateAndCleanResult(result: Json, partName: string, now: string) returns (r: Outcome<Json>)
    ensures r == ValidateResult(result, partName, now)
  {
    if !result.JObj? {
      return Raises("TypeError");
    }
    var items := Iter(MomentsOf(result.fields));
    if items.None? {
      return Raises("TypeError");
    }
    var valid: seq<Json> := [];
    var i := 0;
    while i < |items.value|
      invariant 0 <= i <= |items.value|
      invariant Kept(items.value[..i]) == Returns(valid)
    {
      var v := ValidateMoment(items.value[i]);
      KeptSnoc(items.value, i);
      if v.Raises? {
        KeptRaises(items.value, i + 1);
        return Raises(v.error);
      }
      if v.value.Some? {
        valid := valid + [v.value.value];
      }
      i := i + 1;
    }
    assert items.value[..i] == items.value;
    r := Returns(JObj(Cleaned(result.fields, partName, |items.value|, now, valid)));
  }
}
