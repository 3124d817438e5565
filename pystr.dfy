/** Python `str` primitives the model relies on: whitespace (`str.isspace`), `strip`,
    `find`, `split`, `join`, `replace`, `int()` on text and decimal formatting.
    Characters are code points; digits are the ASCII digits only. */
module PyStr {
  import opened Base

  /** `c.isspace()` in Python 3. */
  predicate IsSpace(c: char) {
    ('\t' <= c <= '\r') || ('\U{1c}' <= c <= ' ') || c == '\U{85}' || c == '\U{a0}'
    || c == '\U{1680}' || ('\U{2000}' <= c <= '\U{200a}') || c == '\U{2028}' || c == '\U{2029}'
    || c == '\U{202f}' || c == '\U{205f}' || c == '\U{3000}'
  }

  predicate IsDigit(c: char) { '0' <= c <= '9' }

  predicate IsAsciiLetter(c: char) { ('a' <= c <= 'z') || ('A' <= c <= 'Z') }

  predicate IsAsciiAlnum(c: char) { IsAsciiLetter(c) || IsDigit(c) }

  predicate AllSpace(s: string) { forall i :: 0 <= i < |s| ==> IsSpace(s[i]) }

  predicate AllDigits(s: string) { forall i :: 0 <= i < |s| ==> IsDigit(s[i]) }

  predicate StartsWith(s: string, prefix: string) { |prefix| <= |s| && s[..|prefix|] == prefix }

  predicate EndsWith(s: string, suffix: string) { |suffix| <= |s| && s[|s| - |suffix|..] == suffix }

  /** `s.lstrip()` */
  function LStrip(s: string): (r: string)
    ensures |r| <= |s|
    ensures r == [] || !IsSpace(r[0])
  {
    if s != [] && IsSpace(s[0]) then LStrip(s[1..]) else s
  }

  /** `s.rstrip()` */
  function RStrip(s: string): (r: string)
    ensures |r| <= |s| && r == s[..|r|]
    ensures r == [] || !IsSpace(r[|r| - 1])
  {
    if s != [] && IsSpace(s[|s| - 1]) then RStrip(s[..|s| - 1]) else s
  }

  /** `s.strip()`: a contiguous slice of `s` with no whitespace at either end. */
  function Strip(s: string): (r: string)
    ensures r == [] || (!IsSpace(r[0]) && !IsSpace(r[|r| - 1]))
    ensures |r| <= |s|
  {
    RStrip(LStrip(s))
  }

  lemma StripTrimmed(s: string)
    requires s == [] || (!IsSpace(s[0]) && !IsSpace(s[|s| - 1]))
    ensures Strip(s) == s
  {
  }

  /** How much `lstrip` removes. */
  function LeadingSpace(s: string): (n: nat)
    ensures n <= |s|
  {
    if s != [] && IsSpace(s[0]) then 1 + LeadingSpace(s[1..]) else 0
  }

  lemma {:induction false} LStripSuffix(s: string)
    ensures LStrip(s) == s[LeadingSpace(s)..]
  {
    if s != [] && IsSpace(s[0]) {
      LStripSuffix(s[1..]);
      assert s[1..][LeadingSpace(s[1..])..] == s[LeadingSpace(s)..];
    }
  }

  /** `s.strip()` is the slice of `s` that starts after the leading whitespace. */
  lemma StripSlice(s: string)
    ensures LeadingSpace(s) + |Strip(s)| <= |s|
    ensures Strip(s) == s[LeadingSpace(s)..LeadingSpace(s) + |Strip(s)|]
  {
    LStripSuffix(s);
  }

  lemma StripIdempotent(s: string)
    ensures Strip(Strip(s)) == Strip(s)
  {
    StripTrimmed(Strip(s));
  }

  /** `s.strip(c)` for a single character `c`. */
  function StripChar(s: string, c: char): (r: string)
    ensures r == [] || (r[0] != c && r[|r| - 1] != c)
    ensures forall i :: 0 <= i < |r| ==> r[i] in s
    decreases |s|
  {
    if s != [] && s[0] == c then StripChar(s[1..], c)
    else if s != [] && s[|s| - 1] == c then StripChar(s[..|s| - 1], c)
    else s
  }

  /** `sub` occurs in `s` at index `i`. */
  predicate OccursAt(s: string, sub: string, i: int) {
    0 <= i && i + |sub| <= |s| && s[i..i + |sub|] == sub
  }

  /** `s.find(sub, start)`: the first index at or after `start` where `sub` occurs, or -1. */
  function FindFrom(s: string, sub: string, start: nat): (k: int)
    ensures k == -1 || (start <= k && OccursAt(s, sub, k))
    ensures forall j :: start <= j && (k == -1 || j < k) ==> !OccursAt(s, sub, j)
    decreases |s| - start
  {
    if start + |sub| > |s| then -1
    else if OccursAt(s, sub, start) then start
    else FindFrom(s, sub, start + 1)
  }

  /** `sub in s` */
  predicate Contains(s: string, sub: string) { FindFrom(s, sub, 0) >= 0 }

  lemma ContainsAt(s: string, sub: string, i: int)
    requires OccursAt(s, sub, i)
    ensures Contains(s, sub)
  {
  }

  /** `s.split(sep)` for a non-empty separator. */
  function Split(s: string, sep: string): (parts: seq<string>)
    requires sep != []
    ensures |parts| >= 1
    decreases |s|
  {
    var k := FindFrom(s, sep, 0);
    if k < 0 then [s] else [s[..k]] + Split(s[k + |sep|..], sep)
  }

  /** `sep.join(parts)` */
  function Join(parts: seq<string>, sep: string): string
  {
    if |parts| == 0 then ""
    else if |parts| == 1 then parts[0]
    else parts[0] + sep + Join(parts[1..], sep)
  }

  /** Concatenation of a list of strings (`"".join(parts)`). */
  function Concat(parts: seq<string>): string
  {
    if parts == [] then "" else parts[0] + Concat(parts[1..])
  }

  lemma ConcatAppend(a: seq<string>, b: seq<string>)
    ensures Concat(a + b) == Concat(a) + Concat(b)
  {
    if a != [] {
      assert (a + b)[0] == a[0];
      assert (a + b)[1..] == a[1..] + b;
      ConcatAppend(a[1..], b);
      calc {
        Concat(a + b);
        (a + b)[0] + Concat((a + b)[1..]);
        a[0] + Concat(a[1..] + b);
        a[0] + (Concat(a[1..]) + Concat(b));
        (a[0] + Concat(a[1..])) + Concat(b);
      }
    } else {
      assert a + b == b;
    }
  }

  lemma {:induction false} JoinSplit(s: string, sep: string)
    requires sep != []
    ensures Join(Split(s, sep), sep) == s
    decreases |s|
  {
    var k := FindFrom(s, sep, 0);
    if k >= 0 {
      var rest := s[k + |sep|..];
      JoinSplit(rest, sep);
      SplitAt(s, sep);
      JoinCons(s[..k], Split(rest, sep), sep);
      AroundOccurrence(s, sep, k);
    }
  }

  lemma SplitAt(s: string, sep: string)
    requires sep != [] && FindFrom(s, sep, 0) >= 0
    ensures Split(s, sep) == [s[..FindFrom(s, sep, 0)]] + Split(s[FindFrom(s, sep, 0) + |sep|..], sep)
  {
  }

  lemma JoinCons(a: string, tail: seq<string>, sep: string)
    requires |tail| >= 1
    ensures Join([a] + tail, sep) == a + sep + Join(tail, sep)
  {
    var parts := [a] + tail;
    assert parts[0] == a && parts[1..] == tail;
  }

  lemma AroundOccurrence(s: string, sub: string, k: int)
    requires OccursAt(s, sub, k)
    ensures s == s[..k] + sub + s[k + |sub|..]
  {
    assert s == s[..k] + s[k..k + |sub|] + s[k + |sub|..];
  }

  lemma OccursAtChar(s: string, c: char, j: int)
    ensures OccursAt(s, [c], j) <==> 0 <= j < |s| && s[j] == c
  {
    if 0 <= j < |s| {
      assert s[j..j + 1] == [s[j]];
    }
  }

  /** Splitting at a single-character separator peels off a first piece free of it. */
  lemma SplitFirst(a: string, rest: string, c: char)
    requires c !in a
    ensures Split(a + [c] + rest, [c]) == [a] + Split(rest, [c])
  {
    var s := a + [c] + rest;
    OccursAtChar(s, c, |a|);
    forall j | 0 <= j < |a| ensures !OccursAt(s, [c], j) {
      assert s[j] == a[j];
      OccursAtChar(s, c, j);
    }
    var k := FindFrom(s, [c], 0);
    assert k == |a|;
    assert s[..|a|] == a;
    assert s[|a| + 1..] == rest;
  }

  /** A piece without the single-character separator splits to itself. */
  lemma SplitNone(a: string, c: char)
    requires c !in a
    ensures Split(a, [c]) == [a]
  {
    forall j | 0 <= j ensures !OccursAt(a, [c], j) {
      OccursAtChar(a, c, j);
    }
  }

  /** Splitting a join at a separator character none of the pieces holds gives the pieces back. */
  lemma {:induction false} SplitJoinChar(parts: seq<string>, c: char)
    requires |parts| >= 1
    requires forall i :: 0 <= i < |parts| ==> c !in parts[i]
    ensures Split(Join(parts, [c]), [c]) == parts
  {
    if |parts| == 1 {
      SplitNone(parts[0], c);
    } else {
      SplitJoinChar(parts[1..], c);
      SplitFirst(parts[0], Join(parts[1..], [c]), c);
    }
  }

  /** An occurrence of `sep` starts with its first character. */
  lemma OccursAtHead(s: string, sep: string, j: int)
    requires sep != [] && OccursAt(s, sep, j)
    ensures 0 <= j < |s| && s[j] == sep[0]
  {
    assert s[j..j + |sep|][0] == s[j];
  }

  /** Splitting at a separator whose first character a piece lacks peels that piece off. */
  lemma SplitFirstSep(a: string, rest: string, sep: string)
    requires sep != [] && sep[0] !in a
    ensures Split(a + sep + rest, sep) == [a] + Split(rest, sep)
  {
    var s := a + sep + rest;
    assert s[|a|..|a| + |sep|] == sep;
    assert OccursAt(s, sep, |a|);
    forall j | 0 <= j < |a| ensures !OccursAt(s, sep, j) {
      if OccursAt(s, sep, j) {
        OccursAtHead(s, sep, j);
      }
    }
    assert FindFrom(s, sep, 0) == |a|;
    assert s[..|a|] == a;
    assert s[|a| + |sep|..] == rest;
  }

  /** A piece lacking the separator's first character splits to itself. */
  lemma SplitNoneSep(a: string, sep: string)
    requires sep != [] && sep[0] !in a
    ensures Split(a, sep) == [a]
  {
    forall j | 0 <= j ensures !OccursAt(a, sep, j) {
      if OccursAt(a, sep, j) {
        OccursAtHead(a, sep, j);
      }
    }
  }

  /** Splitting a join at a separator whose first character no piece holds gives the pieces back. */
  lemma {:induction false} SplitJoinSep(parts: seq<string>, sep: string)
    requires |parts| >= 1 && sep != []
    requires forall i :: 0 <= i < |parts| ==> sep[0] !in parts[i]
    ensures Split(Join(parts, sep), sep) == parts
  {
    if |parts| == 1 {
      SplitNoneSep(parts[0], sep);
    } else {
      SplitJoinSep(parts[1..], sep);
      SplitFirstSep(parts[0], Join(parts[1..], sep), sep);
    }
  }

  /** The index of the first whitespace character of `s` at or after `i`, or `|s|`. */
  function SpaceFrom(s: string, i: nat): (k: nat)
    requires i <= |s|
    ensures i <= k <= |s| && (k == |s| || IsSpace(s[k]))
    ensures forall j :: i <= j < k ==> !IsSpace(s[j])
    decreases |s| - i
  {
    if i == |s| || IsSpace(s[i]) then i else SpaceFrom(s, i + 1)
  }

  /** A non-empty run of non-whitespace characters. */
  predicate IsWord(w: string) {
    w != [] && forall j :: 0 <= j < |w| ==> !IsSpace(w[j])
  }

  /** `s.split()` without an argument: the maximal runs of non-whitespace characters. */
  function SplitWs(s: string): (words: seq<string>)
    ensures forall k :: 0 <= k < |words| ==> IsWord(words[k])
    decreases |s|
  {
    var t := LStrip(s);
    if t == [] then []
    else
      var k := SpaceFrom(t, 0);
      assert k >= 1;
      assert IsWord(t[..k]);
      [t[..k]] + SplitWs(t[k..])
  }

  /** `s.replace(pat, rep)` for a non-empty `pat`: every non-overlapping occurrence, left to right. */
  function ReplaceAll(s: string, pat: string, rep: string): (r: string)
    requires pat != []
    ensures !Contains(s, pat) ==> r == s
    decreases |s|
  {
    var k := FindFrom(s, pat, 0);
    if k < 0 then s else s[..k] + rep + ReplaceAll(s[k + |pat|..], pat, rep)
  }

  /** `s.replace(pat, rep)` is `rep.join(s.split(pat))`. */
  lemma {:induction false} ReplaceAllSplitJoin(s: string, pat: string, rep: string)
    requires pat != []
    ensures ReplaceAll(s, pat, rep) == Join(Split(s, pat), rep)
    decreases |s|
  {
    var k := FindFrom(s, pat, 0);
    if k >= 0 {
      var head, rest := s[..k], s[k + |pat|..];
      ReplaceAllSplitJoin(rest, pat, rep);
      ReplaceAllAt(s, pat, rep);
      SplitAt(s, pat);
      JoinCons(head, Split(rest, pat), rep);
    }
  }

  lemma ReplaceAllAt(s: string, pat: string, rep: string)
    requires pat != [] && FindFrom(s, pat, 0) >= 0
    ensures var k := FindFrom(s, pat, 0);
      ReplaceAll(s, pat, rep) == s[..k] + rep + ReplaceAll(s[k + |pat|..], pat, rep)
  {
  }

  lemma StartsWithConcat(a: string, b: string)
    ensures StartsWith(a + b, a)
  {
    assert (a + b)[..|a|] == a;
  }

  lemma EndsWithConcat(a: string, b: string)
    ensures EndsWith(a + b, b)
  {
    assert (a + b)[|a|..] == b;
  }

  /** `c.lower()` on ASCII letters; every other character is kept. */
  function LowerChar(c: char): char {
    if 'A' <= c <= 'Z' then (c as int + 32) as char else c
  }

  /** `s.lower()` restricted to ASCII letters. */
  function Lower(s: string): (r: string)
    ensures |r| == |s|
  {
    seq(|s|, k requires 0 <= k < |s| => LowerChar(s[k]))
  }

  /** Lower-casing works character by character, so it commutes with taking a suffix. */
  lemma LowerSuffix(s: string, n: nat)
    requires n <= |s|
    ensures Lower(s[n..]) == Lower(s)[n..]
  {
    var t, a, b := s[n..], Lower(s[n..]), Lower(s)[n..];
    forall k | 0 <= k < |t|
      ensures a[k] == b[k]
    {
      assert t[k] == s[n + k];
    }
    assert a == b;
  }

  // ---------------------------------------------------------------------------
  // int() on text and decimal formatting

  /** The body `int()` accepts after the sign: digits, with single underscores between digits. */
  predicate DigitBody(s: string) {
    |s| > 0 && IsDigit(s[0]) && IsDigit(s[|s| - 1])
    && (forall i :: 0 <= i < |s| ==> IsDigit(s[i]) || s[i] == '_')
    && (forall i, j :: 0 <= i < |s| && 0 <= j < |s| && j == i + 1 && s[i] == '_' ==> IsDigit(s[j]))
  }

  /** The value of a digit body, underscores ignored. */
  function DigitsValue(s: string): nat
  {
    if s == [] then 0
    else if IsDigit(s[|s| - 1]) then DigitsValue(s[..|s| - 1]) * 10 + (s[|s| - 1] as int - '0' as int)
    else DigitsValue(s[..|s| - 1])
  }

  /** `int(s)` for a base-10 string: surrounding whitespace, an optional sign, a digit body;
      `None` where Python raises ValueError. */
  function ParseInt(s: string): Option<int>
  {
    var t := Strip(s);
    if |t| > 0 && (t[0] == '-' || t[0] == '+') then
      if DigitBody(t[1..]) then Some(if t[0] == '-' then 0 - DigitsValue(t[1..]) else DigitsValue(t[1..]) as int) else None
    else if DigitBody(t) then Some(DigitsValue(t))
    else None
  }

  function DigitChar(d: nat): char
    requires d < 10
  {
    ('0' as int + d) as char
  }

  /** `str(n)` for a natural number. */
  function NatToStr(n: nat): (s: string)
    ensures |s| > 0 && AllDigits(s)
  {
    if n < 10 then [DigitChar(n)] else NatToStr(n / 10) + [DigitChar(n % 10)]
  }

  /** `str(n)` */
  function IntToStr(n: int): (s: string)
    ensures |s| > 0 && !IsSpace(s[0]) && !IsSpace(s[|s| - 1])
  {
    if n < 0 then "-" + NatToStr(-n) else NatToStr(n)
  }

  function Zeros(n: nat): (s: string)
    ensures |s| == n && AllDigits(s)
  {
    if n == 0 then "" else "0" + Zeros(n - 1)
  }

  /** `f"{n:0{width}d}"` for a natural number. */
  function ZeroPad(n: nat, width: nat): (s: string)
    ensures |s| >= width && |s| > 0 && AllDigits(s)
  {
    var d := NatToStr(n);
    if |d| >= width then d else Zeros(width - |d|) + d
  }

  /** `f"{n:0{width}d}"` for any integer: the sign counts toward the width. */
  function FormatD(n: int, width: nat): string
  {
    if n < 0 then "-" + ZeroPad(-n, if width > 0 then width - 1 else 0) else ZeroPad(n, width)
  }

  lemma {:induction false} DigitsValueNat(n: nat)
    ensures DigitsValue(NatToStr(n)) == n
  {
    var s := NatToStr(n);
    if n >= 10 {
      DigitsValueNat(n / 10);
      assert s[..|s| - 1] == NatToStr(n / 10);
    }
  }

  lemma {:induction false} DigitsValueLeadingZeros(z: nat, d: string)
    ensures DigitsValue(Zeros(z) + d) == DigitsValue(d)
    decreases |d|
  {
    if d == [] {
      assert Zeros(z) + d == Zeros(z);
      ZerosValue(z);
    } else {
      var s := Zeros(z) + d;
      assert s[..|s| - 1] == Zeros(z) + d[..|d| - 1];
      DigitsValueLeadingZeros(z, d[..|d| - 1]);
    }
  }

  lemma {:induction false} ZerosValue(z: nat)
    ensures DigitsValue(Zeros(z)) == 0
  {
    if z > 0 {
      var s := Zeros(z);
      assert s[..|s| - 1] == Zeros(z - 1) by {
        ZerosSnoc(z - 1);
      }
      ZerosValue(z - 1);
    }
  }

  lemma {:induction false} ZerosSnoc(z: nat)
    ensures Zeros(z + 1) == Zeros(z) + "0"
  {
    if z > 0 {
      ZerosSnoc(z - 1);
    }
  }

  function Pow10(n: nat): (p: nat)
    ensures p > 0
  {
    if n == 0 then 1 else 10 * Pow10(n - 1)
  }

  /** A digit string of length `n` stands for less than `10^n`. */
  lemma {:induction false} DigitsBelow(s: string)
    ensures DigitsValue(s) < Pow10(|s|)
  {
    if s != [] {
      DigitsBelow(s[..|s| - 1]);
    }
  }

  lemma DigitsValueSnoc(s: string, c: char)
    requires IsDigit(c)
    ensures DigitsValue(s + [c]) == 10 * DigitsValue(s) + (c as int - '0' as int)
  {
    assert (s + [c])[..|s|] == s;
  }

  lemma AllDigitsBody(s: string)
    requires |s| > 0 && AllDigits(s)
    ensures DigitBody(s)
  {
  }

  /** `int()` of a non-empty run of digits is its decimal value. */
  lemma ParseDigits(s: string)
    requires |s| > 0 && AllDigits(s)
    ensures ParseInt(s) == Some(DigitsValue(s) as int)
  {
    assert IsDigit(s[0]) && IsDigit(s[|s| - 1]);
    StripTrimmed(s);
    AllDigitsBody(s);
    ParseUnsigned(s);
  }

  lemma ParseUnsigned(t: string)
    requires Strip(t) == t && DigitBody(t)
    ensures ParseInt(t) == Some(DigitsValue(t) as int)
  {
  }

  lemma ParseMinus(t: string)
    requires Strip(t) == t && |t| > 0 && t[0] == '-' && DigitBody(t[1..])
    ensures ParseInt(t) == Some(0 - DigitsValue(t[1..]))
  {
  }

  /** `int()` of a minus sign followed by a non-empty run of digits. */
  lemma ParseNegDigits(d: string)
    requires |d| > 0 && AllDigits(d)
    ensures ParseInt("-" + d) == Some(0 - DigitsValue(d))
  {
    var s := "-" + d;
    assert s[0] == '-' && s[1..] == d && s[|s| - 1] == d[|d| - 1];
    StripTrimmed(s);
    AllDigitsBody(d);
    ParseMinus(s);
  }

  /** `int(str(n)) == n` */
  lemma ParseIntToStr(n: int)
    ensures ParseInt(IntToStr(n)) == Some(n)
  {
    var d := NatToStr(if n < 0 then -n else n);
    DigitsValueNat(if n < 0 then -n else n);
    if n < 0 {
      ParseNegDigits(d);
    } else {
      ParseDigits(d);
    }
  }

  /** `int(f"{n:0{w}d}") == n` for a natural number. */
  lemma ParseZeroPad(n: nat, width: nat)
    ensures ParseInt(ZeroPad(n, width)) == Some(n)
  {
    var s := ZeroPad(n, width);
    ParseDigits(s);
    DigitsValueNat(n);
    var d := NatToStr(n);
    if |d| < width {
      DigitsValueLeadingZeros(width - |d|, d);
    }
  }

  /** A run of digits written back with its own width: `f"{int(d):0{len(d)}d}" == d`. */
  lemma {:induction false} PadDigits(d: string)
    requires |d| >= 1 && AllDigits(d)
    ensures ZeroPad(DigitsValue(d), |d|) == d
  {
    var k := |d| - 1;
    var init, c := d[..k], d[k];
    assert d == init + [c];
    DigitsValueSnoc(init, c);
    var cv := c as int - '0' as int;
    assert DigitChar(cv) == c;
    if k > 0 {
      PadDigits(init);
      var w := DigitsValue(init);
      if w == 0 {
        PadZero(init, c);
      } else {
        PadNonzero(init, c, w);
      }
    }
  }

  /** Zeros padded to width `k` and one more digit. */
  lemma PadZero(init: string, c: char)
    requires |init| >= 1 && IsDigit(c) && ZeroPad(0, |init|) == init
    ensures ZeroPad(c as int - '0' as int, |init| + 1) == init + [c]
  {
    var k := |init|;
    var cv := c as int - '0' as int;
    assert NatToStr(0) == "0" && NatToStr(cv) == [c];
    ZerosSnoc(k - 1);
    assert init == Zeros(k);
    ZerosSnoc(k);
  }

  /** A positive number padded to width `k` and one more digit. */
  lemma PadNonzero(init: string, c: char, w: nat)
    requires w > 0 && IsDigit(c) && ZeroPad(w, |init|) == init
    ensures ZeroPad(10 * w + (c as int - '0' as int), |init| + 1) == init + [c]
  {
    var k := |init|;
    var cv := c as int - '0' as int;
    var v := 10 * w + cv;
    assert v / 10 == w && v % 10 == cv;
    assert DigitChar(cv) == c;
    assert NatToStr(v) == NatToStr(w) + [c];
    if |NatToStr(w)| < k {
      assert ZeroPad(v, k + 1) == Zeros(k - |NatToStr(w)|) + NatToStr(w) + [c];
    }
  }

  /** A number below 10^w written with width w takes exactly w digits (for widths 2 and 3). */
  lemma PadWidth(n: nat, w: nat)
    requires (w == 2 && n < 100) || (w == 3 && n < 1000)
    ensures |ZeroPad(n, w)| == w
  {
    if n >= 10 {
      assert NatToStr(n) == NatToStr(n / 10) + [DigitChar(n % 10)];
      if n / 10 >= 10 {
        assert NatToStr(n / 10) == NatToStr(n / 100) + [DigitChar(n / 10 % 10)];
      }
    }
  }

  // ---------------------------------------------------------------------------
  // Whitespace runs

  /** The length of the whitespace run `\s*` matches at the start of `s`. */
  function WsLen(s: string): (n: nat)
    ensures n <= |s| && AllSpace(s[..n]) && (n == |s| || !IsSpace(s[n]))
  {
    if s != [] && IsSpace(s[0]) then 1 + WsLen(s[1..]) else 0
  }

  lemma {:induction false} RStripSpaces(x: string, w: string)
    requires AllSpace(w) && (x == [] || !IsSpace(x[|x| - 1]))
    ensures RStrip(x + w) == x
  {
    if w != [] {
      assert (x + w)[..|x + w| - 1] == x + w[..|w| - 1];
      RStripSpaces(x, w[..|w| - 1]);
    } else {
      assert x + w == x;
    }
  }

  lemma WsLenConcat(u: string, x: string)
    requires !AllSpace(u)
    ensures WsLen(u + x) == WsLen(u) < |u|
  {
    if u != [] && IsSpace(u[0]) {
      assert (u + x)[1..] == u[1..] + x;
      AllSpaceCons(u);
      WsLenConcat(u[1..], x);
    }
  }

  lemma AllSpaceCons(u: string)
    requires u != []
    ensures IsSpace(u[0]) && AllSpace(u[1..]) ==> AllSpace(u)
  {
    assert forall i :: 0 < i < |u| ==> u[i] == u[1..][i - 1];
  }

  lemma {:induction false} WsLenSpaces(w: string, x: string)
    requires AllSpace(w) && (x == [] || !IsSpace(x[0]))
    ensures WsLen(w + x) == |w|
  {
    if w != [] {
      assert (w + x)[0] == w[0] && (w + x)[1..] == w[1..] + x;
      WsLenSpaces(w[1..], x);
    } else {
      assert w + x == x;
    }
  }

  // ---------------------------------------------------------------------------
  // Lists and paths

  /** A slice bound of Python: negative counts from the end, then clamped to `[0, n]`. */
  function SliceBound(i: int, n: nat): (j: nat)
    ensures j <= n
    ensures 0 <= i <= n ==> j == i
    ensures i < 0 && i + n >= 0 ==> j == i + n
  {
    if i < 0 then (if i + n < 0 then 0 else i + n) else if i > n then n else i
  }

  /** `s[a:b]` */
  function Slice<T>(s: seq<T>, a: int, b: int): (r: seq<T>)
    ensures 0 <= a <= b <= |s| ==> r == s[a..b]
    ensures |r| <= |s|
  {
    var i, j := SliceBound(a, |s|), SliceBound(b, |s|);
    if i < j then s[i..j] else []
  }

  /** `os.path.join(a, b)` on POSIX: an absolute `b` replaces `a`, and a separator is added
      only when `a` is non-empty and does not end in one. */
  function PathJoin(a: string, b: string): (p: string)
    ensures EndsWith(p, b)
    ensures !StartsWith(b, "/") && a != [] ==> StartsWith(p, a) && |p| <= |a| + 1 + |b|
  {
    if StartsWith(b, "/") || a == [] then b
    else if EndsWith(a, "/") then a + b
    else a + "/" + b
  }
}
