/** `_clean_json_text`: seven textual passes over a model answer before it is parsed. Each
    regular-expression pass is a function that scans left to right as `re.sub` does. */
module Cleaning {
  import opened PyStr
  import opened Captions
  import opened Extract

  /** `re.sub(r'^```json\s*', '', s)`: the opening fence and the whitespace after it. */
  function DropOpenFence(s: string): (r: string)
    ensures StartsWith(s, Fence) ==> r == s[SkipWs(s, |Fence|)..]
    ensures !StartsWith(s, Fence) ==> r == s
  {
    if StartsWith(s, Fence) then s[SkipWs(s, |Fence|)..] else s
  }

  /** `re.sub(r'\s*```$', '', s)`: a closing fence at the end (or just before a final line
      break), with the whitespace run before it. */
  function DropCloseFence(s: string): (r: string)
  {
    if EndsWith(s, Close) then RStrip(s[..|s| - 3])
    else if EndsWith(s, Close + "\n") then RStrip(s[..|s| - 4]) + "\n"
    else s
  }

  /** `\s*[}\]]` matches at the start of `s`. */
  predicate ClosesAfter(s: string) {
    WsLen(s) < |s| && (s[WsLen(s)] == '}' || s[WsLen(s)] == ']')
  }

  /** `re.sub(r',(\s*[}\]])', r'\1', s)`: every comma followed by whitespace and a closing
      bracket is deleted. A match ends at the bracket, so no comma is skipped by overlap. */
  function DropTrailingCommas(s: string): (r: string)
  {
    if s == [] then []
    else (if s[0] == ',' && ClosesAfter(s[1..]) then [] else [s[0]]) + DropTrailingCommas(s[1..])
  }

  /** `\s*` then `open` at the start of `s`. */
  predicate OpensAfter(s: string, open: char) {
    WsLen(s) < |s| && s[WsLen(s)] == open
  }

  /** `re.sub(r'}\s*{', '},{', s)` (and the same for `]` and `[`): the whitespace between a
      closing and an opening bracket becomes one comma. */
  function JoinAdjacent(s: string, close: char, open: char): (r: string)
    requires close != open
    decreases |s|
  {
    if s == [] then []
    else if s[0] == close && OpensAfter(s[1..], open) then [close, ','] + JoinAdjacent(s[1 + WsLen(s[1..])..], close, open)
    else [s[0]] + JoinAdjacent(s[1..], close, open)
  }

  /** `re.sub(r'(\d{2}:\d{2}:\d{2}),\d{3}', r'\1', s)`: each caption stamp loses its
      milliseconds; the scan resumes after the stamp. */
  function DropMillis(s: string): (r: string)
    decreases |s|
  {
    if |s| >= 12 && IsStamp(s[..12]) then s[..8] + DropMillis(s[12..])
    else if s == [] then []
    else [s[0]] + DropMillis(s[1..])
  }

  /** `_clean_json_text` */
  function CleanJsonText(text: string): string {
    var t := DropCloseFence(DropOpenFence(Strip(text)));
    DropMillis(JoinAdjacent(JoinAdjacent(DropTrailingCommas(t), '}', '{'), ']', '['))
  }

  /** `s` without its commas. */
  function Uncomma(s: string): string {
    if s == [] then [] else (if s[0] == ',' then [] else [s[0]]) + Uncomma(s[1..])
  }

  /** Dropping trailing commas deletes commas and nothing else. */
  lemma {:induction false} DropTrailingCommasOnlyCommas(s: string)
    ensures Uncomma(DropTrailingCommas(s)) == Uncomma(s)
    ensures |DropTrailingCommas(s)| <= |s|
  {
    if s != [] {
      DropTrailingCommasOnlyCommas(s[1..]);
      var head := if s[0] == ',' && ClosesAfter(s[1..]) then [] else [s[0]];
      UncommaConcat(head, DropTrailingCommas(s[1..]));
    }
  }

  lemma {:induction false} UncommaConcat(a: string, b: string)
    ensures Uncomma(a + b) == Uncomma(a) + Uncomma(b)
  {
    if a != [] {
      var h := if a[0] == ',' then [] else [a[0]];
      assert (a + b)[0] == a[0] && (a + b)[1..] == a[1..] + b;
      assert Uncomma(a + b) == h + Uncomma(a[1..] + b);
      UncommaConcat(a[1..], b);
    } else {
      assert a + b == b;
    }
  }

  /** A text without a comma passes the comma and timestamp passes unchanged. */
  lemma {:induction false} NoCommaUnchanged(s: string)
    requires ',' !in s
    ensures DropTrailingCommas(s) == s && DropMillis(s) == s
  {
    if s != [] {
      assert s == [s[0]] + s[1..];
      NoCommaUnchanged(s[1..]);
    }
  }

  /** No closing bracket in `r` is followed by whitespace and an opening one. */
  predicate Separated(r: string, close: char, open: char) {
    forall i :: 0 <= i < |r| && r[i] == close ==> !OpensAfter(r[i + 1..], open)
  }

  lemma SeparatedCons(c: char, t: string, close: char, open: char)
    ensures Separated([c] + t, close, open) <==> Separated(t, close, open) && (c == close ==> !OpensAfter(t, open))
  {
    var r := [c] + t;
    assert r[1..] == t;
    assert forall i :: 1 <= i < |r| ==> r[i] == t[i - 1] && r[i + 1..] == t[i..];
    if Separated(r, close, open) {
      forall i | 0 <= i < |t| && t[i] == close ensures !OpensAfter(t[i + 1..], open) {
        assert r[i + 1] == t[i] && r[i + 2..] == t[i + 1..];
      }
      if c == close {
        assert r[0] == close && r[0 + 1..] == t;
      }
    }
    if Separated(t, close, open) && (c == close ==> !OpensAfter(t, open)) {
      forall i | 0 <= i < |r| && r[i] == close ensures !OpensAfter(r[i + 1..], open) {
        if i > 0 {
          assert r[i] == t[i - 1] && r[i + 1..] == t[i..];
        }
      }
    }
  }

  /** After the pass no closing bracket is followed by whitespace and an opening one. */
  lemma {:induction false} JoinAdjacentSeparates(s: string, close: char, open: char)
    requires close != open && open != ',' && close != ',' && !IsSpace(close)
    ensures Separated(JoinAdjacent(s, close, open), close, open)
    decreases |s|
  {
    if s != [] {
      if s[0] == close && OpensAfter(s[1..], open) {
        var rest := JoinAdjacent(s[1 + WsLen(s[1..])..], close, open);
        JoinAdjacentSeparates(s[1 + WsLen(s[1..])..], close, open);
        SeparatedCons(',', rest, close, open);
        SeparatedCons(close, [','] + rest, close, open);
        assert [close, ','] + rest == [close] + ([','] + rest);
      } else {
        JoinAdjacentSeparates(s[1..], close, open);
        JoinAdjacentKeepsOpening(s[1..], close, open);
        SeparatedCons(s[0], JoinAdjacent(s[1..], close, open), close, open);
      }
    }
  }

  /** The pass leaves the leading whitespace and the first bracket after it alone. */
  lemma {:induction false} JoinAdjacentKeepsOpening(s: string, close: char, open: char)
    requires close != open && !IsSpace(close)
    ensures OpensAfter(JoinAdjacent(s, close, open), open) == OpensAfter(s, open)
    decreases |s|
  {
    if s != [] && s[0] != close {
      JoinAdjacentKeepsOpening(s[1..], close, open);
      var r := JoinAdjacent(s, close, open);
      assert r[0] == s[0] && r[1..] == JoinAdjacent(s[1..], close, open);
    }
  }

  /** A fenced answer loses both fences and the whitespace next to them. */
  lemma FencesDropped(w1: string, body: string, w2: string)
    requires AllSpace(w1) && AllSpace(w2)
    requires body != [] && !IsSpace(body[0]) && !IsSpace(body[|body| - 1])
    ensures DropCloseFence(DropOpenFence(Fence + w1 + body + w2 + Close)) == body
  {
    var s := Fence + w1 + body + w2 + Close;
    FencedLayout(w1, body, w2, "");
    assert Fence + w1 + body + w2 + Close + "" == s;
    SkipSpaces(s, 7, 7 + |w1|);
    assert s[7 + |w1|..] == body + w2 + Close;
    var t := body + w2 + Close;
    assert EndsWith(t, Close) && t[..|t| - 3] == body + w2;
    RStripSpaces(body, w2);
  }

  /** No comma of `a` is followed only by whitespace: its commas are decided within `a`. */
  predicate Settled(a: string) {
    forall i :: 0 <= i < |a| && a[i] == ',' ==> !AllSpace(a[i + 1..])
  }

  lemma {:induction false} DropTrailingCommasConcat(a: string, x: string)
    requires Settled(a)
    ensures DropTrailingCommas(a + x) == DropTrailingCommas(a) + DropTrailingCommas(x)
  {
    if a == [] {
      assert a + x == x;
    } else {
      var u := a[1..];
      assert (a + x)[0] == a[0] && (a + x)[1..] == u + x;
      assert Settled(u) by {
        forall i | 0 <= i < |u| && u[i] == ',' ensures !AllSpace(u[i + 1..]) {
          assert u[i] == a[i + 1] && u[i + 1..] == a[i + 2..];
        }
      }
      if a[0] == ',' {
        assert !AllSpace(a[0 + 1..]);
        WsLenConcat(u, x);
        assert (u + x)[WsLen(u)] == u[WsLen(u)];
      }
      DropTrailingCommasConcat(u, x);
    }
  }

  /** A comma before whitespace and a closing bracket is deleted; the rest is kept. */
  lemma TrailingCommaDropped(a: string, w: string, b: char, c: string)
    requires Settled(a) && AllSpace(w) && (b == '}' || b == ']')
    ensures DropTrailingCommas(a + "," + w + [b] + c) == DropTrailingCommas(a) + w + [b] + DropTrailingCommas(c)
  {
    var tail := w + [b] + c;
    assert a + "," + w + [b] + c == a + ([','] + tail);
    DropTrailingCommasConcat(a, [','] + tail);
    CommaBeforeClose(w, b, c);
  }

  lemma CommaBeforeClose(w: string, b: char, c: string)
    requires AllSpace(w) && (b == '}' || b == ']')
    ensures DropTrailingCommas([','] + (w + [b] + c)) == w + [b] + DropTrailingCommas(c)
  {
    var tail := w + [b] + c;
    assert ([','] + tail)[1..] == tail;
    WsLenSpaces(w, [b] + c);
    assert tail == w + ([b] + c);
    assert tail[|w|] == b;
    SpacesThenClose(w, b, c);
  }

  lemma SpacesThenClose(w: string, b: char, c: string)
    requires AllSpace(w) && (b == '}' || b == ']')
    ensures DropTrailingCommas(w + [b] + c) == w + [b] + DropTrailingCommas(c)
  {
    assert Settled(w + [b]) by {
      assert forall i :: 0 <= i < |w + [b]| ==> (w + [b])[i] != ',';
    }
    DropTrailingCommasConcat(w + [b], c);
    NoCommaUnchanged(w + [b]);
  }

  /** None of the last eleven characters of `a` is a digit, so no stamp starts in `a` and
      ends past it. */
  predicate DigitFreeTail(a: string) {
    forall i :: 0 <= i < |a| && |a| <= i + 11 ==> !IsDigit(a[i])
  }

  lemma {:induction false} DropMillisConcat(a: string, x: string)
    requires DigitFreeTail(a)
    ensures DropMillis(a + x) == DropMillis(a) + DropMillis(x)
    decreases |a|
  {
    if a == [] {
      assert a + x == x;
    } else if |a| >= 12 && IsStamp(a[..12]) {
      assert (a + x)[..12] == a[..12] && (a + x)[12..] == a[12..] + x;
      assert DigitFreeTail(a[12..]) by {
        forall i | 0 <= i < |a[12..]| && |a[12..]| <= i + 11 ensures !IsDigit(a[12..][i]) {
          assert a[12..][i] == a[i + 12];
        }
      }
      DropMillisConcat(a[12..], x);
    } else {
      assert (a + x)[0] == a[0] && (a + x)[1..] == a[1..] + x;
      assert !(|a + x| >= 12 && IsStamp((a + x)[..12])) by {
        if |a| >= 12 {
          assert (a + x)[..12] == a[..12];
        } else {
          assert !IsDigit(a[0]);
        }
      }
      assert DigitFreeTail(a[1..]) by {
        forall i | 0 <= i < |a[1..]| && |a[1..]| <= i + 11 ensures !IsDigit(a[1..][i]) {
          assert a[1..][i] == a[i + 1];
        }
      }
      DropMillisConcat(a[1..], x);
    }
  }

  /** A stamp with no digit in the eleven characters before it loses its milliseconds. */
  lemma StampShortened(a: string, stamp: string, c: string)
    requires DigitFreeTail(a) && IsStamp(stamp)
    ensures DropMillis(a + stamp + c) == DropMillis(a) + stamp[..8] + DropMillis(c)
  {
    assert a + stamp + c == a + (stamp + c);
    DropMillisConcat(a, stamp + c);
    assert (stamp + c)[..12] == stamp && (stamp + c)[12..] == c;
  }

  /** A text without the closing bracket passes the bracket pass unchanged. */
  lemma {:induction false} NoCloseUnchanged(s: string, close: char, open: char)
    requires close != open && close !in s
    ensures JoinAdjacent(s, close, open) == s
  {
    if s != [] {
      assert s == [s[0]] + s[1..];
      NoCloseUnchanged(s[1..], close, open);
    }
  }

  /** A JSON text `a` + stamp + `q`, where `a` has no comma, bracket or digit and the closing
      `q` is one quote, comes out with the stamp's milliseconds removed and nothing else
      changed. */
  lemma StampCleaned(a: string, stamp: string, q: string)
    requires a != [] && !IsSpace(a[0]) && a[0] != '`'
    requires forall i :: 0 <= i < |a| ==> a[i] != ',' && a[i] != '}' && a[i] != ']' && !IsDigit(a[i])
    requires IsStamp(stamp) && q == "\""
    ensures CleanJsonText(a + stamp + q) == a + stamp[..8] + q
  {
    var x := a + stamp + q;
    assert x[0] == a[0] && x[|x| - 1] == '"';
    Unfenced(x);
    StampCommasKept(a, stamp, q);
    StampUnjoined(a, stamp, q);
    StampShortened(a, stamp, q);
    NoCommaUnchanged(a);
    NoCommaUnchanged(q);
  }

  lemma StampUnjoined(a: string, stamp: string, q: string)
    requires forall i :: 0 <= i < |a| ==> a[i] != '}' && a[i] != ']'
    requires IsStamp(stamp) && q == "\""
    ensures JoinAdjacent(JoinAdjacent(a + stamp + q, '}', '{'), ']', '[') == a + stamp + q
  {
    var x := a + stamp + q;
    assert forall i :: |a| <= i < |a| + |stamp| ==> x[i] == stamp[i - |a|];
    NoCloseUnchanged(x, '}', '{');
    NoCloseUnchanged(x, ']', '[');
  }

  lemma StampCommasKept(a: string, stamp: string, q: string)
    requires forall i :: 0 <= i < |a| ==> a[i] != ','
    requires IsStamp(stamp) && q == "\""
    ensures DropTrailingCommas(a + stamp + q) == a + stamp + q
  {
    var pre, post := a + stamp[..8], stamp[8..] + q;
    StampSplit(a, stamp, q);
    StampHeadNoComma(a, stamp);
    DropTrailingCommasConcat(pre, post);
    NoCommaUnchanged(pre);
    StampTailKept(stamp, q);
  }

  lemma StampSplit(a: string, stamp: string, q: string)
    requires |stamp| == 12
    ensures a + stamp + q == (a + stamp[..8]) + (stamp[8..] + q)
  {
    assert stamp == stamp[..8] + stamp[8..];
  }

  lemma StampHeadNoComma(a: string, stamp: string)
    requires forall i :: 0 <= i < |a| ==> a[i] != ','
    requires IsStamp(stamp)
    ensures ',' !in a + stamp[..8] && Settled(a + stamp[..8])
  {
    var pre := a + stamp[..8];
    forall i | 0 <= i < |pre| ensures pre[i] != ',' {
      if i >= |a| {
        assert pre[i] == stamp[i - |a|];
      }
    }
  }

  /** The comma before the milliseconds is followed by a digit, so it stays. */
  lemma StampTailKept(stamp: string, q: string)
    requires IsStamp(stamp) && q == "\""
    ensures DropTrailingCommas(stamp[8..] + q) == stamp[8..] + q
  {
    var post := stamp[8..] + q;
    assert post[0] == stamp[8] && post[1] == stamp[9];
    assert IsDigit(stamp[9]);
    forall i | 1 <= i < |post| ensures post[i] != ',' {
      if i < 4 {
        assert post[i] == stamp[8 + i] && IsDigit(stamp[8 + i]);
      }
    }
    assert ',' !in post[1..];
    NoCommaUnchanged(post[1..]);
    assert post == [post[0]] + post[1..];
  }

  /** A text already trimmed that neither opens nor closes with a backtick passes the first
      three steps unchanged. */
  lemma Unfenced(x: string)
    requires x != [] && !IsSpace(x[0]) && !IsSpace(x[|x| - 1]) && x[0] != '`' && x[|x| - 1] != '`'
    ensures DropCloseFence(DropOpenFence(Strip(x))) == x
  {
    StripTrimmed(x);
    assert !StartsWith(x, Fence) && !EndsWith(x, Close) && !EndsWith(x, Close + "\n");
  }

  /** A text `a` + `,}` with no comma or closing bracket in `a` loses the comma. */
  lemma TrailingCommaCleaned(a: string)
    requires a != [] && !IsSpace(a[0]) && a[0] != '`'
    requires forall i :: 0 <= i < |a| ==> a[i] != ',' && a[i] != '}' && a[i] != ']'
    ensures CleanJsonText(a + ",}") == a + "}"
  {
    var x := a + ",}";
    assert x[0] == a[0] && x[|x| - 1] == '}';
    Unfenced(x);
    CommaBeforeBrace(a);
    JoinAtEnd(a, '}', '{');
    var y := a + "}";
    assert forall i :: 0 <= i < |y| ==> y[i] != ']' && y[i] != ',';
    NoCloseUnchanged(y, ']', '[');
    NoCommaUnchanged(y);
  }

  lemma CommaBeforeBrace(a: string)
    requires forall i :: 0 <= i < |a| ==> a[i] != ','
    ensures DropTrailingCommas(a + ",}") == a + "}"
  {
    var e: string := [];
    TrailingCommaDropped(a, e, '}', e);
    NoCommaUnchanged(a);
    EmptyJoin(a, '}');
  }

  lemma EmptyJoin(a: string, b: char)
    ensures a + "," + [] + [b] + [] == a + [',', b]
    ensures a + [] + [b] + DropTrailingCommas([]) == a + [b]
  {
  }

  lemma {:induction false} JoinAtEnd(a: string, close: char, open: char)
    requires close != open && close !in a
    ensures JoinAdjacent(a + [close], close, open) == a + [close]
  {
    if a == [] {
      assert JoinAdjacent([close][1..], close, open) == [];
    } else {
      assert (a + [close])[1..] == a[1..] + [close];
      JoinAtEnd(a[1..], close, open);
    }
  }
}
