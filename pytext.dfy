/**
 * The pieces of Python's `str` behaviour the statistics engine relies on:
 * `str.strip()`, `int(str)` in base 10, the ordering `<` on strings and
 * `str.lower()`.
 */
module PyText {
  import opened Wrappers
  import Seqs

  /** Python's `str.isspace()`: the characters `strip()` removes. */
  predicate IsSpace(c: char) {
    || '\t' <= c <= '\r'
    || '\U{1C}' <= c <= '\U{1F}'
    || c == ' ' || c == '\U{85}' || c == '\U{A0}' || c == '\U{1680}'
    || '\U{2000}' <= c <= '\U{200A}'
    || c == '\U{2028}' || c == '\U{2029}' || c == '\U{202F}' || c == '\U{205F}'
    || c == '\U{3000}'
  }

  /**
   * The characters `int()` skips around a number. It turns every non-ASCII
   * whitespace character into a blank and then skips the C-locale
   * whitespace, so the ASCII separators U+001C..U+001F, which `isspace()`
   * accepts, stop the parse.
   */
  predicate IsIntSpace(c: char) {
    IsSpace(c) && !('\U{1C}' <= c <= '\U{1F}')
  }

  predicate AllSpace(s: string, space: char -> bool) {
    forall i :: 0 <= i < |s| ==> space(s[i])
  }

  /** No `space` character at either end: the shape of every stripped string. */
  predicate StrippedBy(s: string, space: char -> bool) {
    s == [] || (!space(s[0]) && !space(s[|s| - 1]))
  }

  /** The shape of every result of `strip()`. */
  predicate Stripped(s: string) {
    StrippedBy(s, IsSpace)
  }

  function TrimStart(s: string, space: char -> bool): (r: string)
    ensures |r| <= |s|
    ensures r != [] ==> !space(r[0])
  {
    if s != [] && space(s[0]) then TrimStart(s[1..], space) else s
  }

  function TrimEnd(s: string, space: char -> bool): (r: string)
    ensures |r| <= |s|
    ensures r != [] ==> !space(r[|r| - 1])
  {
    if s != [] && space(s[|s| - 1]) then TrimEnd(s[..|s| - 1], space) else s
  }

  /** TrimStart drops a run of `space` characters from the front and keeps the rest. */
  lemma {:induction false} TrimStartShape(s: string, space: char -> bool)
    ensures var r := TrimStart(s, space); r == s[|s| - |r|..] && AllSpace(s[..|s| - |r|], space)
  {
    if s != [] && space(s[0]) {
      TrimStartShape(s[1..], space);
    }
  }

  /** TrimEnd drops a run of `space` characters from the back and keeps the rest. */
  lemma {:induction false} TrimEndShape(s: string, space: char -> bool)
    ensures var r := TrimEnd(s, space); r == s[..|r|] && AllSpace(s[|r|..], space)
  {
    if s != [] && space(s[|s| - 1]) {
      var r := TrimEnd(s[..|s| - 1], space);
      TrimEndShape(s[..|s| - 1], space);
      assert s[|r|..] == s[..|s| - 1][|r|..] + [s[|s| - 1]];
    }
  }

  /** `s` without its leading and trailing `space` characters. */
  function StripBy(s: string, space: char -> bool): (r: string)
    ensures StrippedBy(r, space)
  {
    var e := TrimEnd(s, space);
    TrimStartShape(e, space);
    TrimStart(e, space)
  }

  /** Python's `s.strip()`: `s` without its leading and trailing whitespace. */
  function Strip(s: string): (r: string)
    ensures Stripped(r)
  {
    StripBy(s, IsSpace)
  }

  /** Stripping removes `space` characters and nothing else, from the two ends only. */
  lemma StripRemovesOnlyEdges(s: string, space: char -> bool)
    ensures var r := StripBy(s, space);
      exists k :: 0 <= k <= |s| - |r| && s[k..k + |r|] == r
                  && AllSpace(s[..k], space) && AllSpace(s[k + |r|..], space)
  {
    var e := TrimEnd(s, space);
    var r := TrimStart(e, space);
    TrimEndShape(s, space);
    TrimStartShape(e, space);
    var k := |e| - |r|;
    assert s[k..k + |r|] == e[k..] == r;
    assert s[..k] == e[..k];
    assert s[k + |r|..] == s[|e|..];
  }

  predicate IsDigit(c: char) {
    '0' <= c <= '9'
  }

  predicate AllDigits(s: string) {
    forall i :: 0 <= i < |s| ==> IsDigit(s[i])
  }

  /** The number a run of decimal digits denotes (leading zeros allowed, as `int()` allows). */
  function DigitsValue(ds: string): nat
    requires AllDigits(ds)
  {
    if ds == [] then 0
    else 10 * DigitsValue(ds[..|ds| - 1]) + (ds[|ds| - 1] as int - '0' as int)
  }

  /**
   * Python's `int(s)` for a string `s`; `None` stands for the ValueError
   * it raises on anything that is not a base-10 integer literal.
   */
  function ParseInt(s: string): Option<int> {
    ParseLiteral(StripBy(s, IsIntSpace))
  }

  /** The sign in front of a literal, if any. */
  function SignOf(t: string): (sign: string)
    ensures IsSign(sign) && sign <= t
  {
    if t != [] && (t[0] == '+' || t[0] == '-') then t[..1] else ""
  }

  /** An optional sign followed by one or more digits, or None. */
  function ParseLiteral(t: string): Option<int> {
    var sign := SignOf(t);
    var body := t[|sign|..];
    if body != [] && AllDigits(body) then
      var v: int := DigitsValue(body);
      Some(if sign == "-" then -v else v)
    else None
  }

  function DigitChar(d: nat): char
    requires d < 10
  {
    ('0' as int + d) as char
  }

  /** Decimal digits of `n`, most significant first, without leading zeros. */
  function Digits(n: nat): string
  {
    if n < 10 then [DigitChar(n)] else Digits(n / 10) + [DigitChar(n % 10)]
  }

  /** Python's `str(n)` for an integer: how the tables write their numbers. */
  function DecimalString(n: int): string {
    if n < 0 then "-" + Digits(-n) else Digits(n)
  }

  /** `k` zero digits. */
  function Zeros(k: nat): (z: string)
    ensures |z| == k && AllDigits(z)
  {
    seq(k, _ => '0')
  }

  /** A sign `int()` accepts in front of the digits. */
  predicate IsSign(sign: string) {
    sign == "" || sign == "+" || sign == "-"
  }

  lemma {:induction false} DigitsValueOf(n: nat)
    ensures |Digits(n)| > 0 && AllDigits(Digits(n))
    ensures DigitsValue(Digits(n)) == n
  {
    if n >= 10 {
      DigitsValueOf(n / 10);
      var d := Digits(n);
      assert d[..|d| - 1] == Digits(n / 10);
    }
  }

  lemma StrippedIsFixed(s: string, space: char -> bool)
    requires StrippedBy(s, space)
    ensures StripBy(s, space) == s
  {
  }

  /** A run of digits worth nothing is all zeros. */
  lemma {:induction false} ZeroValue(ds: string)
    requires AllDigits(ds) && DigitsValue(ds) == 0
    ensures ds == Zeros(|ds|)
  {
    if ds != [] {
      ZeroValue(ds[..|ds| - 1]);
      assert ds == ds[..|ds| - 1] + [ds[|ds| - 1]];
    }
  }

  /** Every run of digits is some zeros followed by the plain decimal form of its value. */
  lemma {:induction false} DigitsNormal(ds: string) returns (k: nat)
    requires ds != [] && AllDigits(ds)
    ensures ds == Zeros(k) + Digits(DigitsValue(ds))
  {
    var pre := ds[..|ds| - 1];
    var c := ds[|ds| - 1];
    var v := DigitsValue(ds);
    assert ds == pre + [c];
    if v < 10 {
      ZeroValue(pre);
      k := |pre|;
      assert Digits(v) == [c];
    } else {
      k := DigitsNormal(pre);
      assert v / 10 == DigitsValue(pre) && v % 10 == c as int - '0' as int;
      assert Digits(v) == Digits(DigitsValue(pre)) + [c];
    }
  }

  /** Leading zeros do not change the value of a run of digits. */
  lemma {:induction false} LeadingZeros(k: nat, ds: string)
    requires AllDigits(ds)
    ensures DigitsValue(Zeros(k) + ds) == DigitsValue(ds)
  {
    if ds == [] {
      assert Zeros(k) + ds == Zeros(k);
      ZerosValue(k);
    } else {
      var pre := ds[..|ds| - 1];
      assert (Zeros(k) + ds)[..|Zeros(k) + ds| - 1] == Zeros(k) + pre;
      LeadingZeros(k, pre);
    }
  }

  lemma {:induction false} ZerosValue(k: nat)
    ensures DigitsValue(Zeros(k)) == 0
  {
    if k > 0 {
      assert Zeros(k)[..k - 1] == Zeros(k - 1);
      ZerosValue(k - 1);
    }
  }

  /**
   * Whatever `int()` accepts is, once stripped, an optional sign, some
   * leading zeros and the decimal digits of the magnitude; a minus sign
   * gives a number that is not positive, any other sign one that is not
   * negative.
   */
  lemma ParseIntSound(s: string, n: int) returns (sign: string, k: nat)
    requires ParseInt(s) == Some(n)
    ensures IsSign(sign)
    ensures StripBy(s, IsIntSpace) == sign + (Zeros(k) + Digits(if n < 0 then -n else n))
    ensures sign == "-" ==> n <= 0
    ensures sign != "-" ==> n >= 0
  {
    var t := StripBy(s, IsIntSpace);
    sign := SignOf(t);
    var body := t[|sign|..];
    assert t == sign + body;
    k := DigitsNormal(body);
  }

  /**
   * `int()` accepts every optional sign followed by leading zeros and the
   * decimal digits of a number, and gives back that number, negated after
   * a minus sign.
   */
  lemma ParseIntComplete(sign: string, k: nat, m: nat)
    requires IsSign(sign)
    ensures ParseInt(sign + (Zeros(k) + Digits(m))) == Some(if sign == "-" then -(m as int) else m as int)
  {
    DigitsValueOf(m);
    DigitsConcat(Zeros(k), Digits(m));
    LeadingZeros(k, Digits(m));
    SignedInt(sign, Zeros(k) + Digits(m), m);
  }

  lemma DigitsConcat(a: string, b: string)
    requires AllDigits(a) && AllDigits(b)
    ensures AllDigits(a + b)
  {
    forall i | 0 <= i < |a + b| ensures IsDigit((a + b)[i]) {
      if i >= |a| {
        assert (a + b)[i] == b[i - |a|];
      }
    }
  }

  /** `int()` of a sign and a run of digits is the signed value of the digits. */
  lemma SignedInt(sign: string, body: string, v: nat)
    requires IsSign(sign) && body != [] && AllDigits(body) && DigitsValue(body) == v
    ensures ParseInt(sign + body) == Some(if sign == "-" then -(v as int) else v as int)
  {
    SignedLiteral(sign, body);
    StrippedIsFixed(sign + body, IsIntSpace);
  }

  /** A sign and a run of digits: nothing for `int()` to strip, and the signed value of the digits. */
  lemma SignedLiteral(sign: string, body: string)
    requires IsSign(sign) && body != [] && AllDigits(body)
    ensures StrippedBy(sign + body, IsIntSpace)
    ensures ParseLiteral(sign + body) ==
            Some(if sign == "-" then -(DigitsValue(body) as int) else DigitsValue(body) as int)
  {
    var t := sign + body;
    assert t[|t| - 1] == body[|body| - 1];
    assert t[|sign|..] == body;
    if sign == "" {
      assert t == body;
    } else {
      assert t[0] == sign[0];
    }
    assert SignOf(t) == sign;
  }

  /** `int(str(n)) == n`: parsing the decimal form of any integer gives it back. */
  lemma ParseIntRoundTrip(n: int)
    ensures ParseInt(DecimalString(n)) == Some(n)
  {
    var m := if n < 0 then -n else n;
    var sign := if n < 0 then "-" else "";
    assert Zeros(0) + Digits(m) == Digits(m);
    assert DecimalString(n) == sign + Digits(m);
    ParseIntComplete(sign, 0, m);
  }

  /** `int()` rejects a number behind an ASCII separator that `strip()` would remove. */
  lemma SeparatorStopsParse()
    ensures Strip("\U{1C}5") == "5"
    ensures ParseInt("\U{1C}5") == None
  {
    assert TrimEnd("\U{1C}5", IsSpace) == "\U{1C}5";
    assert "\U{1C}5"[1..] == "5";
    assert TrimStart("5", IsSpace) == "5";
    assert TrimEnd("\U{1C}5", IsIntSpace) == "\U{1C}5";
  }

  /** Whitespace around a field never changes what `int()` makes of it. */
  lemma ParseIntIgnoresPadding(pre: string, s: string, post: string)
    requires AllSpace(pre, IsIntSpace) && AllSpace(post, IsIntSpace)
    ensures ParseInt(pre + s + post) == ParseInt(s)
  {
    StripPadding(pre, s, post, IsIntSpace);
  }

  lemma {:induction false} StripPadding(pre: string, s: string, post: string, space: char -> bool)
    requires AllSpace(pre, space) && AllSpace(post, space)
    ensures StripBy(pre + s + post, space) == StripBy(s, space)
  {
    TrimEndPadding(pre + s, post, space);
    TrimEndPrefix(pre, s, space);
    var e := TrimEnd(pre + s, space);
    if e == pre + TrimEnd(s, space) {
      TrimStartPadding(pre, TrimEnd(s, space), space);
    } else {
      TrimStartAllSpace(e, space);
      assert TrimStart(TrimEnd(s, space), space) == [];
    }
  }

  lemma TrimStartAllSpace(s: string, space: char -> bool)
    requires AllSpace(s, space)
    ensures TrimStart(s, space) == []
  {
    TrimStartShape(s, space);
  }

  lemma {:induction false} TrimEndPadding(s: string, post: string, space: char -> bool)
    requires AllSpace(post, space)
    ensures TrimEnd(s + post, space) == TrimEnd(s, space)
    decreases |post|
  {
    if post != [] {
      var t := s + post;
      assert t[..|t| - 1] == s + post[..|post| - 1];
      TrimEndPadding(s, post[..|post| - 1], space);
    } else {
      assert s + post == s;
    }
  }

  lemma {:induction false} TrimStartPadding(pre: string, s: string, space: char -> bool)
    requires AllSpace(pre, space)
    ensures TrimStart(pre + s, space) == TrimStart(s, space)
    decreases |pre|
  {
    if pre != [] {
      assert (pre + s)[1..] == pre[1..] + s;
      TrimStartPadding(pre[1..], s, space);
    } else {
      assert pre + s == s;
    }
  }

  /** Trailing whitespace is trimmed the same way whatever precedes it. */
  lemma {:induction false} TrimEndPrefix(pre: string, s: string, space: char -> bool)
    requires AllSpace(pre, space)
    ensures TrimEnd(pre + s, space) == pre + TrimEnd(s, space) ||
            (TrimEnd(s, space) == [] && AllSpace(TrimEnd(pre + s, space), space))
    decreases |s|
  {
    if s == [] {
      assert pre + s == pre;
      TrimEndShape(pre, space);
    } else if space(s[|s| - 1]) {
      assert (pre + s)[..|pre + s| - 1] == pre + s[..|s| - 1];
      TrimEndPrefix(pre, s[..|s| - 1], space);
    }
  }

  /**
   * Python's `a <= b` on strings: code point by code point, and a proper
   * prefix comes first.
   */
  predicate StrLe(a: string, b: string) {
    a == [] || (b != [] && (a[0] < b[0] || (a[0] == b[0] && StrLe(a[1..], b[1..]))))
  }

  lemma {:induction false} StrLeTotal(a: string, b: string)
    ensures StrLe(a, b) || StrLe(b, a)
  {
    if a != [] && b != [] && a[0] == b[0] {
      StrLeTotal(a[1..], b[1..]);
    }
  }

  lemma {:induction false} StrLeTransitive(a: string, b: string, c: string)
    requires StrLe(a, b) && StrLe(b, c)
    ensures StrLe(a, c)
  {
    if a != [] && a[0] == b[0] && b[0] == c[0] {
      StrLeTransitive(a[1..], b[1..], c[1..]);
    }
  }

  lemma {:induction false} StrLeAntisymmetric(a: string, b: string)
    requires StrLe(a, b) && StrLe(b, a)
    ensures a == b
  {
    if a != [] {
      StrLeAntisymmetric(a[1..], b[1..]);
      assert a == [a[0]] + a[1..] && b == [b[0]] + b[1..];
    }
  }

  /** Python's string order is a total order, so `sorted` on strings is well defined. */
  lemma StrLeIsTotalPreorder()
    ensures Seqs.TotalPreorder(StrLe)
  {
    forall a, b ensures StrLe(a, b) || StrLe(b, a) {
      StrLeTotal(a, b);
    }
    forall a, b, c | StrLe(a, b) && StrLe(b, c) ensures StrLe(a, c) {
      StrLeTransitive(a, b, c);
    }
  }

  /** `c.lower()` for the ASCII letters. */
  function LowerChar(c: char): (r: char)
    ensures 'A' <= c <= 'Z' ==> 'a' <= r <= 'z'
    ensures !('A' <= c <= 'Z') ==> r == c
  {
    if 'A' <= c <= 'Z' then (c as int - 'A' as int + 'a' as int) as char else c
  }

  /** `s.lower()`, restricted to ASCII letters. */
  function Lower(s: string): (r: string)
    ensures |r| == |s|
    ensures forall i :: 0 <= i < |s| ==> r[i] == LowerChar(s[i])
  {
    if s == [] then [] else [LowerChar(s[0])] + Lower(s[1..])
  }
}
