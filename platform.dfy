/** The platform classifier and dispatch of the unified downloader
    (core/downloaders/video_downloader.py). Each URL pattern is matched at the start of the
    URL (`re.match`); `word` is the `\w` class of the regular-expression engine. The
    platform downloaders themselves are oracles. */
module Platform {
  import opened Base
  import opened PyStr
  import VideoUtils

  datatype Platform = Bilibili | YouTube | Unknown

  /** What a pattern demands after its fixed text: nothing, one character of a class (the
      rest of a `[...]+` run does not matter to a match at the start), or a `BV` id. */
  datatype Tail = AnyRest | OneOrMore(cls: char -> bool) | BvTail

  /** `https?://(?:optional)?body` followed by the tail; an empty `optional` stands for a
      pattern without the optional group. */
  datatype UrlPattern = UrlPattern(optional: string, body: string, tail: Tail)

  /** `[Bb][Vv][0-9A-Za-z]` at the start of `rest`. */
  predicate BvStart(rest: string) {
    |rest| >= 3 && (rest[0] == 'B' || rest[0] == 'b') && (rest[1] == 'V' || rest[1] == 'v')
    && IsAsciiAlnum(rest[2])
  }

  predicate TailOk(rest: string, tail: Tail) {
    match tail
    case AnyRest => true
    case OneOrMore(cls) => rest != [] && cls(rest[0])
    case BvTail => BvStart(rest)
  }

  /** The URL starts with `prefix` and what follows satisfies the tail. */
  predicate MatchesFrom(url: string, prefix: string, tail: Tail) {
    StartsWith(url, prefix) && TailOk(url[|prefix|..], tail)
  }

  /** `re.match(pattern, url)` succeeds: for some choice of the scheme and of the optional
      group. */
  predicate Matches(p: UrlPattern, url: string) {
    || MatchesFrom(url, "http://" + p.optional + p.body, p.tail)
    || MatchesFrom(url, "https://" + p.optional + p.body, p.tail)
    || MatchesFrom(url, "http://" + p.body, p.tail)
    || MatchesFrom(url, "https://" + p.body, p.tail)
  }

  /** `any(re.match(p, url) for p in patterns)` */
  predicate AnyMatch(patterns: seq<UrlPattern>, url: string) {
    patterns != [] && (Matches(patterns[0], url) || AnyMatch(patterns[1..], url))
  }

  lemma {:induction false} AnyMatchSome(patterns: seq<UrlPattern>, url: string)
    ensures AnyMatch(patterns, url) <==> exists k :: 0 <= k < |patterns| && Matches(patterns[k], url)
  {
    if patterns != [] {
      AnyMatchSome(patterns[1..], url);
      if AnyMatch(patterns[1..], url) {
        var j :| 0 <= j < |patterns[1..]| && Matches(patterns[1..][j], url);
        assert Matches(patterns[j + 1], url);
      }
      if exists k :: 0 <= k < |patterns| && Matches(patterns[k], url) {
        var j :| 0 <= j < |patterns| && Matches(patterns[j], url);
        if j > 0 {
          assert Matches(patterns[1..][j - 1], url);
        }
      }
    }
  }

  function BilibiliPatterns(): seq<UrlPattern> {
    [ UrlPattern("www.", "bilibili.com/video/", BvTail),
      UrlPattern("www.", "bilibili.com/bangumi/", AnyRest),
      UrlPattern("www.", "b23.tv/", AnyRest),
      UrlPattern("m.", "bilibili.com/video/", AnyRest) ]
  }

  function YouTubePatterns(word: char -> bool): seq<UrlPattern> {
    var id := OneOrMore(VideoUtils.IdClass(word));
    [ UrlPattern("www.", "youtube.com/watch?v=", id),
      UrlPattern("www.", "youtube.com/shorts/", id),
      UrlPattern("", "youtu.be/", id),
      UrlPattern("www.", "youtube.com/embed/", id) ]
  }

  /** `detect_platform`: the Bilibili patterns are tried first. */
  function DetectPlatform(url: string, word: char -> bool): (r: Platform)
    ensures r == Bilibili <==> AnyMatch(BilibiliPatterns(), url)
    ensures r == YouTube <==> !AnyMatch(BilibiliPatterns(), url) && AnyMatch(YouTubePatterns(word), url)
  {
    if AnyMatch(BilibiliPatterns(), url) then Bilibili
    else if AnyMatch(YouTubePatterns(word), url) then YouTube
    else Unknown
  }

  /** A pattern only matches a URL that starts with `http://` or `https://`. */
  lemma MatchesWeb(p: UrlPattern, url: string)
    requires Matches(p, url)
    ensures StartsWith(url, "http://") || StartsWith(url, "https://")
  {
    forall prefix: string, rest: string | StartsWith(url, prefix + rest)
      ensures StartsWith(url, prefix)
    {
      assert (prefix + rest)[..|prefix|] == prefix;
    }
  }

  lemma {:induction false} AnyMatchWeb(patterns: seq<UrlPattern>, url: string)
    requires AnyMatch(patterns, url)
    ensures StartsWith(url, "http://") || StartsWith(url, "https://")
  {
    if Matches(patterns[0], url) {
      MatchesWeb(patterns[0], url);
    } else {
      AnyMatchWeb(patterns[1..], url);
    }
  }

  /** Only a web URL is classified as a platform. */
  lemma DetectedIsWeb(url: string, word: char -> bool)
    requires DetectPlatform(url, word) != Unknown
    ensures StartsWith(url, "http://") || StartsWith(url, "https://")
  {
    if AnyMatch(BilibiliPatterns(), url) {
      AnyMatchWeb(BilibiliPatterns(), url);
    } else {
      AnyMatchWeb(YouTubePatterns(word), url);
    }
  }

  /** A URL the classifier calls YouTube carries a video id that the lookup of an earlier
      download can extract. */
  lemma YouTubeHasId(url: string, word: char -> bool)
    requires DetectPlatform(url, word) == YouTube
    ensures VideoUtils.VideoId(url, word).Some?
  {
    var ps := YouTubePatterns(word);
    var cls := VideoUtils.IdClass(word);
    AnyMatchSome(ps, url);
    var k :| 0 <= k < |ps| && Matches(ps[k], url);
    var j := if k == 0 then 0 else if k == 1 then 2 else if k == 2 then 1 else 3;
    assert ps[k].body == VideoUtils.YouTubePatterns[j];
    BodyHit(url, ps[k], cls);
    VideoUtils.FirstGroupSome(VideoUtils.YouTubePatterns, url, cls, j);
  }

  /** A match of a pattern whose tail is a `cls` run is a hit of its body followed by `cls`. */
  lemma BodyHit(url: string, p: UrlPattern, cls: char -> bool)
    requires Matches(p, url) && p.tail == OneOrMore(cls)
    ensures VideoUtils.Group(url, p.body, cls).Some?
  {
    if MatchesFrom(url, "http://" + p.optional + p.body, p.tail) {
      PrefixHit(url, "http://" + p.optional, p.body, cls);
    } else if MatchesFrom(url, "https://" + p.optional + p.body, p.tail) {
      PrefixHit(url, "https://" + p.optional, p.body, cls);
    } else if MatchesFrom(url, "http://" + p.body, p.tail) {
      PrefixHit(url, "http://", p.body, cls);
    } else {
      PrefixHit(url, "https://", p.body, cls);
    }
  }

  lemma PrefixHit(url: string, pre: string, body: string, cls: char -> bool)
    requires MatchesFrom(url, pre + body, OneOrMore(cls))
    ensures VideoUtils.Group(url, body, cls).Some?
  {
    var i := |pre|;
    assert url[i..i + |body|] == (pre + body)[i..];
    assert (pre + body)[i..] == body;
    assert url[|pre + body|..][0] == url[i + |body|];
    assert VideoUtils.Hit(url, body, cls, i);
  }

  // ---------------------------------------------------------------------------
  // What the Bilibili patterns accept

  /** A character that differs from the prefix's rules the prefix out. */
  lemma NotStart(s: string, prefix: string, j: int)
    requires 0 <= j < |prefix| && j < |s| && s[j] != prefix[j]
    ensures !StartsWith(s, prefix)
  {
    if |prefix| <= |s| {
      assert s[..|prefix|][j] == s[j];
    }
  }

  /** The two schemes `https?://` allows. */
  predicate Scheme(scheme: string) { scheme == "http://" || scheme == "https://" }

  /** What follows a known prefix of the URL. */
  lemma AfterPrefix(a: string, b: string)
    ensures StartsWith(a + b, a) && (a + b)[|a|..] == b
  {
    assert (a + b)[..|a|] == a;
  }

  /** A URL made of a prefix and a rest matches from that prefix exactly when the rest
      satisfies the tail. */
  lemma PrefixTail(prefix: string, rest: string, t: Tail)
    ensures MatchesFrom(prefix + rest, prefix, t) <==> TailOk(rest, t)
  {
    AfterPrefix(prefix, rest);
  }

  /** Under a shared first part, matching is decided by what follows it. */
  lemma SharedPrefix(a: string, tail: string, q: string, t: Tail)
    ensures MatchesFrom(a + tail, a + q, t) <==> MatchesFrom(tail, q, t)
  {
    var url := a + tail;
    if |a + q| <= |url| {
      assert url[..|a + q|] == a + tail[..|q|];
      assert url[|a + q|..] == tail[|q|..];
      if url[..|a + q|] == a + q {
        assert tail[..|q|] == (a + q)[|a|..];
      }
    }
  }

  /** A pattern matches a URL under a scheme exactly when what follows the scheme starts with
      the pattern's body, with or without its optional group, and the tail holds after it. */
  lemma MatchesUnder(p: UrlPattern, scheme: string, tail: string)
    requires Scheme(scheme)
    ensures Matches(p, scheme + tail)
      <==> MatchesFrom(tail, p.optional + p.body, p.tail) || MatchesFrom(tail, p.body, p.tail)
  {
    var url := scheme + tail;
    var other := if scheme == "http://" then "https://" else "http://";
    assert url[4] != other[4];
    NotStart(url, other + p.optional + p.body, 4);
    NotStart(url, other + p.body, 4);
    assert scheme + p.optional + p.body == scheme + (p.optional + p.body);
    SharedPrefix(scheme, tail, p.optional + p.body, p.tail);
    SharedPrefix(scheme, tail, p.body, p.tail);
  }

  /** The first Bilibili pattern accepts a `www.bilibili.com/video/` URL exactly when a `BV`
      id starts after it. */
  lemma WwwVideoFirst(scheme: string, rest: string)
    requires Scheme(scheme)
    ensures Matches(BilibiliPatterns()[0], scheme + ("www.bilibili.com/video/" + rest)) <==> BvStart(rest)
  {
    var p := BilibiliPatterns()[0];
    var tail := "www.bilibili.com/video/" + rest;
    assert p.optional + p.body == "www.bilibili.com/video/";
    MatchesUnder(p, scheme, tail);
    PrefixTail("www.bilibili.com/video/", rest, p.tail);
    assert tail[0] == 'w';
    NotStart(tail, p.body, 0);
  }

  /** No other Bilibili pattern accepts a `www.bilibili.com/video/` URL. */
  lemma WwwVideoOthers(scheme: string, rest: string, k: int)
    requires Scheme(scheme) && 1 <= k < 4
    ensures !Matches(BilibiliPatterns()[k], scheme + ("www.bilibili.com/video/" + rest))
  {
    var tail := "www.bilibili.com/video/" + rest;
    var p := BilibiliPatterns()[k];
    MatchesUnder(p, scheme, tail);
    assert tail[0] == 'w' && tail[5] == 'i' && tail[17] == 'v';
    if k == 1 {
      // `/bangumi/` parts from `/video/` at its first letter.
      NotStart(tail, p.optional + p.body, 17);
      NotStart(tail, p.body, 0);
    } else if k == 2 {
      // `b23.tv` parts from `bilibili` after `www.b`.
      NotStart(tail, p.optional + p.body, 5);
      NotStart(tail, p.body, 0);
    } else {
      // The `m.` pattern allows `m.` or no host prefix, never `www.`.
      NotStart(tail, p.optional + p.body, 0);
      NotStart(tail, p.body, 0);
    }
  }

  /** On `www.bilibili.com`, a `/video/` URL is Bilibili exactly when `[Bb][Vv]` and a letter
      or digit follow: the `m.` pattern does not accept the `www.` host. */
  lemma WwwVideoNeedsBv(scheme: string, rest: string, word: char -> bool)
    requires Scheme(scheme)
    ensures DetectPlatform(scheme + "www.bilibili.com/video/" + rest, word) == Bilibili
      <==> BvStart(rest)
  {
    var url := scheme + ("www.bilibili.com/video/" + rest);
    assert url == scheme + "www.bilibili.com/video/" + rest;
    var ps := BilibiliPatterns();
    WwwVideoFirst(scheme, rest);
    forall k | 1 <= k < 4 ensures !Matches(ps[k], url) {
      WwwVideoOthers(scheme, rest, k);
    }
    AnyMatchSome(ps, url);
  }

  /** The last Bilibili pattern accepts `bilibili.com/video/` with no host prefix or with `m.`,
      whatever follows. */
  lemma BareVideoMatches(scheme: string, host: string, rest: string)
    requires Scheme(scheme) && (host == "" || host == "m.")
    ensures Matches(BilibiliPatterns()[3], scheme + (host + "bilibili.com/video/" + rest))
  {
    var p := BilibiliPatterns()[3];
    var tail := host + "bilibili.com/video/" + rest;
    MatchesUnder(p, scheme, tail);
    if host == "" {
      assert tail == p.body + rest;
      AfterPrefix(p.body, rest);
    } else {
      assert tail == p.optional + p.body + rest;
      AfterPrefix(p.optional + p.body, rest);
    }
  }

  /** Without `www.`, and with `m.`, any text after `/video/` is Bilibili. */
  lemma BareVideoAny(scheme: string, host: string, rest: string, word: char -> bool)
    requires Scheme(scheme) && (host == "" || host == "m.")
    ensures DetectPlatform(scheme + host + "bilibili.com/video/" + rest, word) == Bilibili
  {
    var url := scheme + (host + "bilibili.com/video/" + rest);
    BareVideoMatches(scheme, host, rest);
    assert url == scheme + host + "bilibili.com/video/" + rest;
    AnyMatchSome(BilibiliPatterns(), url);
  }

  /** A prefix of the URL and the text after it both survive appending. */
  lemma MatchesFromExtend(url: string, prefix: string, tail: Tail, t: string)
    requires MatchesFrom(url, prefix, tail)
    ensures MatchesFrom(url + t, prefix, tail)
  {
    assert (url + t)[..|prefix|] == url[..|prefix|];
    var r := url[|prefix|..];
    assert (url + t)[|prefix|..] == r + t;
    if r != [] {
      assert (r + t)[0] == r[0];
    }
    if |r| >= 3 {
      assert (r + t)[1] == r[1] && (r + t)[2] == r[2];
    }
  }

  /** `re.match` anchors at the start only: a matching URL still matches with text appended. */
  lemma MatchesExtend(p: UrlPattern, url: string, t: string)
    requires Matches(p, url)
    ensures Matches(p, url + t)
  {
    if MatchesFrom(url, "http://" + p.optional + p.body, p.tail) {
      MatchesFromExtend(url, "http://" + p.optional + p.body, p.tail, t);
    } else if MatchesFrom(url, "https://" + p.optional + p.body, p.tail) {
      MatchesFromExtend(url, "https://" + p.optional + p.body, p.tail, t);
    } else if MatchesFrom(url, "http://" + p.body, p.tail) {
      MatchesFromExtend(url, "http://" + p.body, p.tail, t);
    } else {
      MatchesFromExtend(url, "https://" + p.body, p.tail, t);
    }
  }

  lemma {:induction false} AnyMatchExtend(patterns: seq<UrlPattern>, url: string, t: string)
    requires AnyMatch(patterns, url)
    ensures AnyMatch(patterns, url + t)
  {
    if Matches(patterns[0], url) {
      MatchesExtend(patterns[0], url, t);
    } else {
      AnyMatchExtend(patterns[1..], url, t);
    }
  }

  /** Appending text to a URL never takes it from Bilibili, and never makes a classified URL
      unknown. */
  lemma DetectExtend(url: string, t: string, word: char -> bool)
    ensures DetectPlatform(url, word) == Bilibili ==> DetectPlatform(url + t, word) == Bilibili
    ensures DetectPlatform(url, word) != Unknown ==> DetectPlatform(url + t, word) != Unknown
  {
    if AnyMatch(BilibiliPatterns(), url) {
      AnyMatchExtend(BilibiliPatterns(), url, t);
    } else if AnyMatch(YouTubePatterns(word), url) {
      AnyMatchExtend(YouTubePatterns(word), url, t);
    }
  }

  /** `get_video_info` and `download_video`: ValueError for an unknown platform, otherwise
      exactly the result of the matching platform's downloader. */
  function Dispatch<T>(url: string, word: char -> bool, bilibili: T, youtube: T): (r: Outcome<T>)
    ensures r.Raises? <==> DetectPlatform(url, word) == Unknown
    ensures r.Returns? ==> r.value == (if DetectPlatform(url, word) == Bilibili then bilibili else youtube)
  {
    match DetectPlatform(url, word)
    case Bilibili => Returns(bilibili)
    case YouTube => Returns(youtube)
    case Unknown => Raises("ValueError")
  }

  function GetVideoInfo<T>(url: string, word: char -> bool, bilibili: string -> T, youtube: string -> T)
    : Outcome<T>
  {
    Dispatch(url, word, bilibili(url), youtube(url))
  }

  function DownloadVideo<T, C>(url: string, word: char -> bool, customFilename: Option<string>,
                               callback: Option<C>,
                               bilibili: (string, Option<string>, Option<C>) -> T,
                               youtube: (string, Option<string>, Option<C>) -> T): Outcome<T>
  {
    Dispatch(url, word, bilibili(url, customFilename, callback), youtube(url, customFilename, callback))
  }

  /** A URL both pattern lists accept goes to Bilibili; a URL goes to YouTube only when no
      Bilibili pattern matches it. */
  lemma BilibiliFirst<T, C>(url: string, word: char -> bool, customFilename: Option<string>,
                            callback: Option<C>,
                            bilibili: (string, Option<string>, Option<C>) -> T,
                            youtube: (string, Option<string>, Option<C>) -> T)
    requires AnyMatch(BilibiliPatterns(), url)
    ensures DownloadVideo(url, word, customFilename, callback, bilibili, youtube)
      == Returns(bilibili(url, customFilename, callback))
  {
  }
}
