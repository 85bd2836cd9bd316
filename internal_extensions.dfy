/**
 * The span and conversion helpers of src/InternalExtensions.cs, and the
 * character classes of the .NET calls they and their callers lean on
 * (`char.IsWhiteSpace`, `Trim`, `int.TryParse`).
 */
module InternalExtensions {
  import opened Wrappers
  import opened Bytes
  import opened VwTypes
  import Base64

  // ---- Searching and tokenising ----

  /** `span.IndexOf(c)`: the first position of `c`, or -1. */
  function IndexOf(s: seq<char>, c: char): (r: int)
    ensures -1 <= r < |s|
    ensures r == -1 <==> c !in s
    ensures r >= 0 ==> s[r] == c && c !in s[..r]
  {
    if s == [] then -1
    else if s[0] == c then 0
    else
      var k := IndexOf(s[1..], c);
      assert s[1..][..if k < 0 then 0 else k] == s[1..if k < 0 then 1 else k + 1];
      if k < 0 then -1 else k + 1
  }

  /**
   * `TakeSkipToken`: the text before the first `sep`, and in `next` everything
   * after it; without a `sep`, the whole text and an empty `next`.
   */
  function TakeSkipToken(s: seq<char>, sep: char): (r: (seq<char>, seq<char>))
    ensures sep !in r.0
    ensures sep in s ==> r.0 + [sep] + r.1 == s
    ensures sep !in s ==> r.0 == s && r.1 == []
    ensures s != [] ==> |r.1| < |s|
  {
    var pos := IndexOf(s, sep);
    if pos < 0 then (s, s[|s|..])
    else
      assert s == s[..pos] + [sep] + s[pos + 1..];
      (s[..pos], s[pos + 1..])
  }

  /** TakeSkipToken splits at the first separator: a separator-free prefix comes back whole, and so does the rest. */
  lemma TakeSkipTokenFirst(a: seq<char>, sep: char, b: seq<char>)
    requires sep !in a
    ensures TakeSkipToken(a + [sep] + b, sep) == (a, b)
  {
    var s := a + [sep] + b;
    var pos := IndexOf(s, sep);
    assert s[|a|] == sep;
    assert s[..|a|] == a && s[|a| + 1..] == b;
  }

  // ---- White space ----

  /** `char.IsWhiteSpace`: the Unicode white-space characters. */
  predicate IsWhiteSpace(c: char) {
    ('\U{9}' <= c <= '\U{D}') || c == ' ' || c == '\U{85}' || c == '\U{A0}' || c == '\U{1680}' ||
    ('\U{2000}' <= c <= '\U{200A}') || c == '\U{2028}' || c == '\U{2029}' || c == '\U{202F}' ||
    c == '\U{205F}' || c == '\U{3000}'
  }

  /** Every character is white space; true of empty text. */
  predicate AllWhiteSpace(s: seq<char>) {
    forall i :: 0 <= i < |s| ==> IsWhiteSpace(s[i])
  }

  /** `span.IsWhiteSpace()`, and `string.IsNullOrWhiteSpace` with null as `None`: true of empty text too. */
  predicate IsBlank(s: Option<seq<char>>) {
    s.None? || AllWhiteSpace(s.value)
  }

  /** The scan from the front: the first position at or after `i` that is not white space, or the end. */
  function SkipWhiteSpace(s: seq<char>, i: nat): (k: nat)
    requires i <= |s|
    ensures i <= k <= |s|
    ensures forall j :: i <= j < k ==> IsWhiteSpace(s[j])
    ensures k < |s| ==> !IsWhiteSpace(s[k])
    decreases |s| - i
  {
    if i < |s| && IsWhiteSpace(s[i]) then SkipWhiteSpace(s, i + 1) else i
  }

  /** The scan from the back, down to `lo`: the position just after the last character before `j` that is not white space, or `lo`. */
  function BackWhiteSpace(s: seq<char>, lo: nat, j: nat): (k: nat)
    requires lo <= j <= |s|
    ensures lo <= k <= j
    ensures forall m :: k <= m < j ==> IsWhiteSpace(s[m])
    ensures k > lo ==> !IsWhiteSpace(s[k - 1])
    decreases j
  {
    if j > lo && IsWhiteSpace(s[j - 1]) then BackWhiteSpace(s, lo, j - 1) else j
  }

  /**
   * `Trim()`: leading and trailing white space removed, the middle kept. The
   * result is the slice of the text that starts where the leading white space
   * ends; everything before and after it is white space, and it neither
   * starts nor ends with white space.
   */
  function Trim(s: seq<char>): (r: seq<char>)
    ensures var a := SkipWhiteSpace(s, 0); a + |r| <= |s| && r == s[a..a + |r|]
    ensures forall i :: 0 <= i < SkipWhiteSpace(s, 0) ==> IsWhiteSpace(s[i])
    ensures forall i :: SkipWhiteSpace(s, 0) + |r| <= i < |s| ==> IsWhiteSpace(s[i])
    ensures r == [] || (!IsWhiteSpace(r[0]) && !IsWhiteSpace(r[|r| - 1]))
  {
    var a := SkipWhiteSpace(s, 0);
    var b := BackWhiteSpace(s, a, |s|);
    assert b > a ==> s[a..b][0] == s[a] && s[a..b][b - a - 1] == s[b - 1];
    s[a..b]
  }

  /** `Trim()` leaves text alone whose first and last characters are not white space. */
  lemma TrimKeepsTrimmed(s: seq<char>)
    requires s != [] ==> !IsWhiteSpace(s[0]) && !IsWhiteSpace(s[|s| - 1])
    ensures Trim(s) == s
  {
    assert SkipWhiteSpace(s, 0) == 0;
    assert s != [] ==> BackWhiteSpace(s, 0, |s|) == |s|;
  }

  // ---- Base64 and UTF-8 ----

  /** `DecodeBase64`: the bytes, or null when the text is not valid base64. */
  function DecodeBase64(s: seq<char>): (r: Option<seq<byte>>)
    ensures r.Some? <==> Base64.IsValid(s)
    ensures s == [] ==> r == Some([])
  {
    Base64.DecodeSucceedsIffValid(s);
    Base64.Decode(s)
  }

  /** `EncodeBase64`: null for null, otherwise text that `DecodeBase64` turns back into the same bytes. */
  function EncodeBase64(b: Option<seq<byte>>): (r: Option<string>)
    ensures r.Some? <==> b.Some?
    ensures b.Some? ==> DecodeBase64(r.value) == Some(b.value)
    ensures b.Some? ==> '|' !in r.value && '.' !in r.value && (|b.value| > 0 ==> !IsBlank(Some(r.value)))
  {
    match b
    case None => None
    case Some(bytes) =>
      Base64.DecodeEncode(bytes);
      Base64.EncodeAlphabet(bytes);
      Some(Base64.Encode(bytes))
  }

  /** `EncodeUtf8`: null for null, otherwise the encoder's bytes. */
  function EncodeUtf8(utf8: string -> seq<byte>, s: Option<string>): (r: Option<seq<byte>>)
    ensures r.Some? <==> s.Some?
    ensures s.Some? ==> r.value == utf8(s.value)
  {
    match s
    case None => None
    case Some(text) => Some(utf8(text))
  }

  // ---- Numbers ----

  /** The white space `int.TryParse` allows around a number. */
  predicate IsNumberWhite(c: char) {
    ('\U{9}' <= c <= '\U{D}') || c == ' '
  }

  predicate IsDigit(c: char) { '0' <= c <= '9' }

  predicate AllDigits(s: seq<char>) {
    forall i :: 0 <= i < |s| ==> IsDigit(s[i])
  }

  /** The value of a run of decimal digits. */
  function DigitsValue(s: seq<char>): (n: nat)
    requires AllDigits(s)
  {
    if s == [] then 0 else DigitsValue(s[..|s| - 1]) * 10 + (s[|s| - 1] as int - '0' as int)
  }

  /** The text without its leading number white space. */
  function DropNumberWhiteStart(s: seq<char>): (r: seq<char>)
    ensures |r| <= |s|
    ensures r == [] || !IsNumberWhite(r[0])
  {
    if s != [] && IsNumberWhite(s[0]) then DropNumberWhiteStart(s[1..]) else s
  }

  /** The text without its trailing number white space. */
  function DropNumberWhiteEnd(s: seq<char>): (r: seq<char>)
    ensures |r| <= |s|
    ensures r == [] || !IsNumberWhite(r[|r| - 1])
  {
    if s != [] && IsNumberWhite(s[|s| - 1]) then DropNumberWhiteEnd(s[..|s| - 1]) else s
  }

  /** A signed magnitude as an `int`, or null when it is outside the 32-bit range. */
  function SignedInt32(negative: bool, magnitude: nat): (r: Option<int32>)
  {
    var v: int := if negative then -(magnitude as int) else magnitude as int;
    if -0x8000_0000 <= v < 0x8000_0000 then Some(v as int32) else None
  }

  /** `int.TryParse` once the surrounding white space is gone: an optional sign, then digits. */
  function ParseSignedDigits(t: seq<char>): (r: Option<int32>)
    ensures r.Some? ==> t != [] && IsDigit(t[|t| - 1])
  {
    if t == [] then None
    else
      var negative := t[0] == '-';
      var digits := if IsSign(t[0]) then t[1..] else t;
      if digits == [] || !AllDigits(digits) then None
      else
        assert t[|t| - 1] == digits[|digits| - 1];
        SignedInt32(negative, DigitsValue(digits))
  }

  /**
   * `TryParseNumber<int>`: `int.TryParse` with the invariant culture, which
   * accepts optional white space, an optional '+' or '-', one or more decimal
   * digits, optional white space, and a value that fits in 32 bits.
   */
  function TryParseNumber(s: seq<char>): (r: Option<int32>)
    ensures r.Some? ==> exists i :: 0 <= i < |s| && IsDigit(s[i])
  {
    var t := DropNumberWhiteEnd(DropNumberWhiteStart(s));
    var r := ParseSignedDigits(t);
    assert r.Some? ==> exists i :: 0 <= i < |s| && IsDigit(s[i]) by {
      if r.Some? {
        var p, q := CoreBounds(s);
        assert s[q - 1] == t[|t| - 1];
      }
    }
    r
  }

  /** The leading strip drops a run of number white space and keeps the rest. */
  lemma {:induction false} DropStartSlice(s: seq<char>) returns (p: nat)
    ensures p <= |s| && DropNumberWhiteStart(s) == s[p..]
    ensures forall i :: 0 <= i < p ==> IsNumberWhite(s[i])
    decreases |s|
  {
    if s != [] && IsNumberWhite(s[0]) {
      var p' := DropStartSlice(s[1..]);
      p := p' + 1;
      assert s[1..][p'..] == s[p..];
      assert forall i :: 1 <= i < p ==> s[i] == s[1..][i - 1];
    } else {
      p := 0;
    }
  }

  /** The trailing strip drops a run of number white space and keeps the rest. */
  lemma {:induction false} DropEndSlice(u: seq<char>) returns (q: nat)
    ensures q <= |u| && DropNumberWhiteEnd(u) == u[..q]
    ensures forall i :: q <= i < |u| ==> IsNumberWhite(u[i])
    decreases |u|
  {
    if u != [] && IsNumberWhite(u[|u| - 1]) {
      var u' := u[..|u| - 1];
      q := DropEndSlice(u');
      assert u'[..q] == u[..q];
      assert forall i :: q <= i < |u'| ==> u'[i] == u[i];
    } else {
      q := |u|;
    }
  }

  /** What is left after both strips is a slice of the text, with only number white space around it. */
  lemma CoreBounds(s: seq<char>) returns (p: nat, q: nat)
    ensures p <= q <= |s| && DropNumberWhiteEnd(DropNumberWhiteStart(s)) == s[p..q]
    ensures forall i :: 0 <= i < p ==> IsNumberWhite(s[i])
    ensures forall i :: q <= i < |s| ==> IsNumberWhite(s[i])
  {
    p := DropStartSlice(s);
    var u := s[p..];
    var k := DropEndSlice(u);
    q := p + k;
    assert u[..k] == s[p..q];
    forall i | q <= i < |s| ensures IsNumberWhite(s[i]) {
      assert s[i] == u[i - p];
    }
  }

  // ---- The integer text form, independently of the parser ----

  predicate IsSign(c: char) { c == '+' || c == '-' }

  /**
   * The layout `int.TryParse` accepts, with the digits at `s[a..b]`: number
   * white space, an optional sign right before the digits, one or more
   * digits, and number white space to the end.
   */
  predicate NumberLayout(s: seq<char>, a: nat, b: nat) {
    a < b <= |s| && AllDigits(s[a..b]) &&
    (forall i :: b <= i < |s| ==> IsNumberWhite(s[i])) &&
    (forall i :: 0 <= i < a - 1 ==> IsNumberWhite(s[i])) &&
    (a > 0 ==> IsNumberWhite(s[a - 1]) || IsSign(s[a - 1]))
  }

  /** The number a layout denotes: the digits' value, negated after a '-'. */
  function LayoutValue(s: seq<char>, a: nat, b: nat): int
    requires NumberLayout(s, a, b)
  {
    var v: int := DigitsValue(s[a..b]);
    if a > 0 && s[a - 1] == '-' then -v else v
  }

  predicate InInt32(v: int) { -0x8000_0000 <= v < 0x8000_0000 }

  /** Where the leading strip stops: at the first character that is not number white space. */
  lemma {:induction false} DropStartAt(s: seq<char>, p: nat)
    requires p < |s| && !IsNumberWhite(s[p])
    requires forall i :: 0 <= i < p ==> IsNumberWhite(s[i])
    ensures DropNumberWhiteStart(s) == s[p..]
    decreases p
  {
    if p > 0 {
      assert IsNumberWhite(s[0]);
      assert forall i :: 0 <= i < p - 1 ==> s[1..][i] == s[i + 1];
      DropStartAt(s[1..], p - 1);
      assert s[1..][p - 1..] == s[p..];
    }
  }

  /** Where the trailing strip of `s[p..]` stops: after the last character that is not number white space. */
  lemma {:induction false} DropEndAt(s: seq<char>, p: nat, q: nat)
    requires p < q <= |s| && !IsNumberWhite(s[q - 1])
    requires forall i :: q <= i < |s| ==> IsNumberWhite(s[i])
    ensures DropNumberWhiteEnd(s[p..]) == s[p..q]
    decreases |s|
  {
    var u := s[p..];
    assert u[|u| - 1] == s[|s| - 1];
    if q < |s| {
      var s' := s[..|s| - 1];
      assert u[..|u| - 1] == s'[p..];
      assert forall i :: q <= i < |s'| ==> s'[i] == s[i];
      DropEndAt(s', p, q);
      assert s'[p..q] == s[p..q];
    }
  }

  /** Both strips leave exactly the slice between number white space whose ends are not white space. */
  lemma CoreIs(s: seq<char>, p: nat, q: nat)
    requires p < q <= |s| && !IsNumberWhite(s[p]) && !IsNumberWhite(s[q - 1])
    requires forall i :: 0 <= i < p ==> IsNumberWhite(s[i])
    requires forall i :: q <= i < |s| ==> IsNumberWhite(s[i])
    ensures DropNumberWhiteEnd(DropNumberWhiteStart(s)) == s[p..q]
  {
    DropStartAt(s, p);
    DropEndAt(s, p, q);
  }

  /** An optional sign and a run of digits read as the digits' value, negated after '-', range-checked. */
  lemma SignedRunParses(t: seq<char>, signed: bool)
    requires t != [] && IsSign(t[0]) == signed
    requires var digits := if signed then t[1..] else t; digits != [] && AllDigits(digits)
    ensures ParseSignedDigits(t) == SignedInt32(t[0] == '-', DigitsValue(if signed then t[1..] else t))
  {
  }

  /** Text of the integer layout parses to its number when that fits in 32 bits, and fails otherwise. */
  lemma LayoutParses(s: seq<char>, a: nat, b: nat)
    requires NumberLayout(s, a, b)
    ensures InInt32(LayoutValue(s, a, b)) ==> TryParseNumber(s) == Some(LayoutValue(s, a, b) as int32)
    ensures !InInt32(LayoutValue(s, a, b)) ==> TryParseNumber(s).None?
  {
    var signed := a > 0 && IsSign(s[a - 1]);
    var p := if signed then a - 1 else a;
    assert IsDigit(s[a..b][0]) && IsDigit(s[a..b][b - a - 1]);
    CoreIs(s, p, b);
    var t := s[p..b];
    assert t[0] == s[p];
    assert (if signed then t[1..] else t) == s[a..b];
    SignedRunParses(t, signed);
  }

  /** A parsed number comes from text of the integer layout denoting it. */
  lemma ParsedLayout(s: seq<char>)
    requires TryParseNumber(s).Some?
    ensures exists a: nat, b: nat :: NumberLayout(s, a, b) && LayoutValue(s, a, b) == TryParseNumber(s).value as int
  {
    var p, b := CoreBounds(s);
    var t := s[p..b];
    var signed := IsSign(t[0]);
    var a := if signed then p + 1 else p;
    assert s[a..b] == if signed then t[1..] else t;
    assert signed ==> s[a - 1] == t[0];
    assert NumberLayout(s, a, b);
  }

  /** `int.TryParse` gives `n` exactly for text of the integer layout denoting `n`. */
  lemma TryParseNumberIff(s: seq<char>, n: int32)
    ensures TryParseNumber(s) == Some(n) <==>
      exists a: nat, b: nat :: NumberLayout(s, a, b) && LayoutValue(s, a, b) == n as int
  {
    if TryParseNumber(s) == Some(n) {
      ParsedLayout(s);
    }
    if exists a: nat, b: nat :: NumberLayout(s, a, b) && LayoutValue(s, a, b) == n as int {
      var a: nat, b: nat :| NumberLayout(s, a, b) && LayoutValue(s, a, b) == n as int;
      LayoutParses(s, a, b);
    }
  }

  /** Text of no integer layout does not parse. */
  lemma NoLayoutNoNumber(s: seq<char>)
    requires forall a: nat, b: nat :: !NumberLayout(s, a, b)
    ensures TryParseNumber(s).None?
  {
    if TryParseNumber(s).Some? {
      ParsedLayout(s);
    }
  }

  /** Decimal digits of a natural number, most significant first, no leading zeros. */
  function DecimalDigits(n: nat): (s: seq<char>)
    ensures s != [] && AllDigits(s)
    decreases n
  {
    var d := (n % 10 + '0' as int) as char;
    if n < 10 then [d] else DecimalDigits(n / 10) + [d]
  }

  /** `Int32.ToString()`: the decimal text of an `int`. */
  function IntText(n: int): (s: string)
  {
    if n < 0 then "-" + DecimalDigits(-n) else DecimalDigits(n)
  }

  lemma {:induction false} DigitsOfDecimal(n: nat)
    ensures DigitsValue(DecimalDigits(n)) == n
    decreases n
  {
    var s := DecimalDigits(n);
    if n >= 10 {
      DigitsOfDecimal(n / 10);
      assert s[..|s| - 1] == DecimalDigits(n / 10);
    }
  }

  lemma NoNumberWhite(s: seq<char>)
    requires s != [] && !IsNumberWhite(s[0]) && !IsNumberWhite(s[|s| - 1])
    ensures DropNumberWhiteEnd(DropNumberWhiteStart(s)) == s
  {
  }

  /** `TryParseNumber` reads back the decimal text of every 32-bit integer. */
  lemma ParseNumberOfText(n: int32)
    ensures TryParseNumber(IntText(n as int)) == Some(n)
  {
    var s := IntText(n as int);
    var m := if n < 0 then -(n as int) else n as int;
    var digits := DecimalDigits(m);
    DigitsOfDecimal(m);
    NoNumberWhite(s);
    if n < 0 {
      assert s[1..] == digits;
    }
  }

  /** A plain run of digits parses to its value when that fits in 32 bits. */
  lemma ParseNumberOfDigits(s: seq<char>)
    requires s != [] && AllDigits(s) && DigitsValue(s) < 0x8000_0000
    ensures TryParseNumber(s) == Some(DigitsValue(s) as int32)
  {
    NoNumberWhite(s);
  }
}
