/**
 * Standard base64 (section 4 of RFC 4648), as the .NET calls `Convert.ToBase64String`
 * and `Convert.TryFromBase64Chars` implement it: the encoder pads with '=' to a
 * multiple of four characters; the decoder skips the white-space characters
 * ' ', '\t', '\r' and '\n' wherever they occur, then demands a multiple of four
 * alphabet characters of which at most the last two are '=' padding. It does not
 * check that the bits a padded final group leaves unused are zero.
 */
module Base64 {
  import opened Wrappers
  import opened Bytes

  /** A 6-bit value, the payload of one base64 character. */
  type Sextet = v: int | 0 <= v < 64

  /** The alphabet of section 4 of RFC 4648: A-Z, a-z, 0-9, '+', '/'. */
  function CharOf(v: Sextet): (c: char)
    ensures IsAlphabet(c) && ValueOf(c) == v
  {
    if v < 26 then ('A' as int + v) as char
    else if v < 52 then ('a' as int + (v - 26)) as char
    else if v < 62 then ('0' as int + (v - 52)) as char
    else if v == 62 then '+'
    else '/'
  }

  predicate IsAlphabet(c: char) {
    ('A' <= c <= 'Z') || ('a' <= c <= 'z') || ('0' <= c <= '9') || c == '+' || c == '/'
  }

  function ValueOf(c: char): (v: Sextet)
    requires IsAlphabet(c)
  {
    if 'A' <= c <= 'Z' then c as int - 'A' as int
    else if 'a' <= c <= 'z' then c as int - 'a' as int + 26
    else if '0' <= c <= '9' then c as int - '0' as int + 52
    else if c == '+' then 62
    else 63
  }

  /** The characters the .NET decoder skips. */
  predicate IsSpace(c: char) {
    c == ' ' || c == '\t' || c == '\r' || c == '\n'
  }

  /** The text with every skipped white-space character taken out. */
  function RemoveSpaces(s: seq<char>): (t: seq<char>)
    ensures |t| <= |s|
    ensures forall i :: 0 <= i < |t| ==> !IsSpace(t[i])
  {
    if s == [] then []
    else if IsSpace(s[0]) then RemoveSpaces(s[1..])
    else [s[0]] + RemoveSpaces(s[1..])
  }

  // ---- Encoding ----

  /** Three bytes as four characters. */
  function EncodeTriple(x: byte, y: byte, z: byte): (q: seq<char>)
    ensures |q| == 4
  {
    [CharOf(x / 4), CharOf((x % 4) * 16 + y / 16), CharOf((y % 16) * 4 + z / 64), CharOf(z % 64)]
  }

  /** `Convert.ToBase64String`. */
  function Encode(b: seq<byte>): (s: string)
    ensures |s| == 4 * ((|b| + 2) / 3)
  {
    if |b| == 0 then ""
    else if |b| == 1 then [CharOf(b[0] / 4), CharOf((b[0] % 4) * 16), '=', '=']
    else if |b| == 2 then [CharOf(b[0] / 4), CharOf((b[0] % 4) * 16 + b[1] / 16), CharOf((b[1] % 16) * 4), '=']
    else EncodeTriple(b[0], b[1], b[2]) + Encode(b[3..])
  }

  // ---- Decoding ----

  predicate AllAlphabet(q: seq<char>) {
    forall i :: 0 <= i < |q| ==> IsAlphabet(q[i])
  }

  /** Four alphabet characters as three bytes. */
  function DecodeQuad(q: seq<char>): (b: seq<byte>)
    requires |q| == 4 && AllAlphabet(q)
    ensures |b| == 3
  {
    var v0, v1, v2, v3 := ValueOf(q[0]), ValueOf(q[1]), ValueOf(q[2]), ValueOf(q[3]);
    [v0 * 4 + v1 / 16, (v1 % 16) * 16 + v2 / 4, (v2 % 4) * 64 + v3]
  }

  /** The last group of four, which may end in one or two '='. */
  function DecodeFinal(q: seq<char>): (r: Option<seq<byte>>)
    requires |q| == 4
    ensures r.Some? ==> 1 <= |r.value| <= 3
  {
    if AllAlphabet(q) then Some(DecodeQuad(q))
    else if q[3] == '=' && AllAlphabet(q[..3]) then
      var v0, v1, v2 := ValueOf(q[0]), ValueOf(q[1]), ValueOf(q[2]);
      Some([v0 * 4 + v1 / 16, (v1 % 16) * 16 + v2 / 4])
    else if q[2] == '=' && q[3] == '=' && AllAlphabet(q[..2]) then
      var v0, v1 := ValueOf(q[0]), ValueOf(q[1]);
      Some([v0 * 4 + v1 / 16])
    else None
  }

  /** Decoding of white-space-free text, group by group. */
  function DecodeGroups(t: seq<char>): (r: Option<seq<byte>>)
    ensures r.Some? ==> |t| % 4 == 0 && |r.value| <= |t| / 4 * 3
    decreases |t|
  {
    if |t| == 0 then Some([])
    else if |t| < 4 then None
    else if |t| == 4 then DecodeFinal(t)
    else if !AllAlphabet(t[..4]) then None
    else match DecodeGroups(t[4..])
      case Some(rest) => Some(DecodeQuad(t[..4]) + rest)
      case None => None
  }

  /**
   * `Convert.TryFromBase64Chars`: `None` when it returns false. The bytes
   * always fit the `GetMaxDecodedFromUtf8Length` buffer `DecodeBase64`
   * rents, three bytes per four characters, so the buffer never makes the
   * call fail.
   */
  function Decode(s: seq<char>): (r: Option<seq<byte>>)
    ensures s == [] ==> r == Some([])
    ensures r.Some? ==> |r.value| <= |s| / 4 * 3
  {
    DecodeGroups(RemoveSpaces(s))
  }

  // ---- What valid base64 text is, independently of the decoder ----

  /** `t` is alphabet characters followed by exactly `pad` '=' characters. */
  predicate PaddedWith(t: seq<char>, pad: nat) {
    pad <= |t| &&
    (forall i :: 0 <= i < |t| - pad ==> IsAlphabet(t[i])) &&
    (forall i :: |t| - pad <= i < |t| ==> t[i] == '=')
  }

  /** Valid base64 text: after skipping white space, a multiple of four characters, at most two of them trailing padding. */
  predicate IsValid(s: seq<char>) {
    WellShaped(RemoveSpaces(s))
  }

  // ---- Lemmas ----

  lemma QuadRoundTrip(x: byte, y: byte, z: byte)
    ensures AllAlphabet(EncodeTriple(x, y, z)) && DecodeQuad(EncodeTriple(x, y, z)) == [x, y, z]
  {
    var v0, v1, v2, v3 := x / 4, (x % 4) * 16 + y / 16, (y % 16) * 4 + z / 64, z % 64;
    var q := EncodeTriple(x, y, z);
    assert q == [CharOf(v0), CharOf(v1), CharOf(v2), CharOf(v3)];
    assert ValueOf(q[0]) == v0 && ValueOf(q[1]) == v1 && ValueOf(q[2]) == v2 && ValueOf(q[3]) == v3;
    TripleArith(x, y, z);
  }

  /** The sextets of three bytes put back together give the bytes. */
  lemma TripleArith(x: byte, y: byte, z: byte)
    ensures var v0, v1, v2, v3 := x / 4, (x % 4) * 16 + y / 16, (y % 16) * 4 + z / 64, z % 64;
      v0 * 4 + v1 / 16 == x && (v1 % 16) * 16 + v2 / 4 == y && (v2 % 4) * 64 + v3 == z
  {
    SplitAt16(x % 4, y / 16);
    SplitAt4(y % 16, z / 64);
  }

  /** A byte-sized value built as `a * 16 + b` splits back into `a` and `b`. */
  lemma SplitAt16(a: int, b: int)
    requires 0 <= a < 16 && 0 <= b < 16
    ensures (a * 16 + b) / 16 == a && (a * 16 + b) % 16 == b
  {
  }

  /** A sextet built as `a * 4 + b` splits back into `a` and `b`. */
  lemma SplitAt4(a: int, b: int)
    requires 0 <= a < 16 && 0 <= b < 4
    ensures (a * 4 + b) / 4 == a && (a * 4 + b) % 4 == b
  {
  }

  lemma {:induction false} EncodeHasNoSpaces(b: seq<byte>)
    ensures RemoveSpaces(Encode(b)) == Encode(b)
    decreases |b|
  {
    var s := Encode(b);
    if |b| >= 3 {
      EncodeHasNoSpaces(b[3..]);
      NoSpacesAppend(EncodeTriple(b[0], b[1], b[2]), Encode(b[3..]));
    } else {
      NoSpacesFixed(s);
    }
  }

  lemma {:induction false} NoSpacesFixed(s: seq<char>)
    requires forall i :: 0 <= i < |s| ==> !IsSpace(s[i])
    ensures RemoveSpaces(s) == s
    decreases |s|
  {
    if s != [] {
      NoSpacesFixed(s[1..]);
    }
  }

  lemma NoSpacesAppend(q: seq<char>, rest: seq<char>)
    requires |q| == 4 && AllAlphabet(q)
    requires RemoveSpaces(rest) == rest
    ensures RemoveSpaces(q + rest) == q + rest
  {
    forall i | 0 <= i < |q + rest| ensures !IsSpace((q + rest)[i]) {
      if i >= 4 {
        assert (q + rest)[i] == RemoveSpaces(rest)[i - 4];
      }
    }
    NoSpacesFixed(q + rest);
  }

  /** `DecodeBase64(EncodeBase64(b)) == b`: decoding undoes encoding for every byte string. */
  lemma {:induction false} DecodeEncode(b: seq<byte>)
    ensures Decode(Encode(b)) == Some(b)
    decreases |b|
  {
    EncodeHasNoSpaces(b);
    DecodeGroupsEncode(b);
  }

  lemma DecodeOneByte(x: byte)
    ensures DecodeFinal(Encode([x])) == Some([x])
  {
    var s := Encode([x]);
    assert s == [CharOf(x / 4), CharOf((x % 4) * 16), '=', '='];
    assert !IsAlphabet(s[3]) && !IsAlphabet(s[..3][2]);
    assert s[..2] == [CharOf(x / 4), CharOf((x % 4) * 16)] && AllAlphabet(s[..2]);
    assert ((x % 4) * 16) / 16 == x % 4;
  }

  lemma DecodeTwoBytes(x: byte, y: byte)
    ensures DecodeFinal(Encode([x, y])) == Some([x, y])
  {
    var s := Encode([x, y]);
    var v1 := (x % 4) * 16 + y / 16;
    assert s == [CharOf(x / 4), CharOf(v1), CharOf((y % 16) * 4), '='];
    assert !IsAlphabet(s[3]);
    assert s[..3] == [CharOf(x / 4), CharOf(v1), CharOf((y % 16) * 4)] && AllAlphabet(s[..3]);
    assert v1 / 16 == x % 4 && v1 % 16 == y / 16;
    assert ((y % 16) * 4) / 4 == y % 16;
  }

  lemma {:induction false} DecodeGroupsEncode(b: seq<byte>)
    ensures DecodeGroups(Encode(b)) == Some(b)
    decreases |b|
  {
    if |b| == 1 {
      DecodeLastOne(b);
    } else if |b| == 2 {
      DecodeLastTwo(b);
    } else if |b| >= 3 {
      SplitThree(b);
      DecodeGroupsEncode(b[3..]);
      DecodeGroupsStep(b[0], b[1], b[2], b[3..]);
    }
  }

  lemma DecodeLastOne(b: seq<byte>)
    requires |b| == 1
    ensures DecodeGroups(Encode(b)) == Some(b)
  {
    assert b == [b[0]];
    DecodeOneByte(b[0]);
  }

  lemma DecodeLastTwo(b: seq<byte>)
    requires |b| == 2
    ensures DecodeGroups(Encode(b)) == Some(b)
  {
    assert b == [b[0], b[1]];
    DecodeTwoBytes(b[0], b[1]);
  }

  lemma SplitThree(b: seq<byte>)
    requires |b| >= 3
    ensures [b[0], b[1], b[2]] + b[3..] == b
  {
  }

  /** Three bytes in front of a tail that round-trips round-trip with it. */
  lemma DecodeGroupsStep(x: byte, y: byte, z: byte, tail: seq<byte>)
    requires DecodeGroups(Encode(tail)) == Some(tail)
    ensures DecodeGroups(Encode([x, y, z] + tail)) == Some([x, y, z] + tail)
  {
    var b, q := [x, y, z] + tail, EncodeTriple(x, y, z);
    assert b[0] == x && b[1] == y && b[2] == z && b[3..] == tail;
    assert Encode(b) == q + Encode(tail);
    QuadRoundTrip(x, y, z);
    DecodeGroupsCons(q, Encode(tail), tail);
  }

  /** A full group of four in front of decodable text decodes to its three bytes in front. */
  lemma DecodeGroupsCons(q: seq<char>, rest: seq<char>, tail: seq<byte>)
    requires |q| == 4 && AllAlphabet(q)
    requires DecodeGroups(rest) == Some(tail)
    ensures DecodeGroups(q + rest) == Some(DecodeQuad(q) + tail)
  {
    var t := q + rest;
    assert t[..4] == q && t[4..] == rest;
    if rest == [] {
      assert t == q && tail == [];
      assert DecodeQuad(q) + tail == DecodeQuad(q);
    }
  }

  predicate WellShaped(t: seq<char>) {
    |t| % 4 == 0 && (PaddedWith(t, 0) || PaddedWith(t, 1) || PaddedWith(t, 2))
  }

  lemma PaddedSplit(t: seq<char>, pad: nat)
    requires |t| >= 8 && pad <= 2
    ensures PaddedWith(t, pad) <==> AllAlphabet(t[..4]) && PaddedWith(t[4..], pad)
  {
    if AllAlphabet(t[..4]) && PaddedWith(t[4..], pad) {
      forall i | 0 <= i < |t| - pad ensures IsAlphabet(t[i]) {
        if i < 4 { assert t[i] == t[..4][i]; } else { assert t[i] == t[4..][i - 4]; }
      }
      forall i | |t| - pad <= i < |t| ensures t[i] == '=' {
        assert t[i] == t[4..][i - 4];
      }
    }
    if PaddedWith(t, pad) {
      assert forall i :: 0 <= i < 4 ==> t[..4][i] == t[i];
      assert forall i :: 0 <= i < |t| - 4 ==> t[4..][i] == t[i + 4];
    }
  }

  lemma FinalShape(q: seq<char>)
    requires |q| == 4
    ensures DecodeFinal(q).Some? <==> WellShaped(q)
  {
    assert AllAlphabet(q) <==> PaddedWith(q, 0);
    assert q[3] == '=' && AllAlphabet(q[..3]) <==> PaddedWith(q, 1) by {
      assert forall i :: 0 <= i < 3 ==> q[..3][i] == q[i];
    }
    assert q[2] == '=' && q[3] == '=' && AllAlphabet(q[..2]) <==> PaddedWith(q, 2) by {
      assert forall i :: 0 <= i < 2 ==> q[..2][i] == q[i];
    }
  }

  /** The decoder succeeds exactly on well-shaped, white-space-free text. */
  lemma {:induction false} DecodeGroupsShape(t: seq<char>)
    ensures DecodeGroups(t).Some? <==> WellShaped(t)
    decreases |t|
  {
    if |t| == 0 {
      assert PaddedWith(t, 0);
    } else if |t| == 4 {
      FinalShape(t);
    } else if |t| > 4 {
      DecodeGroupsShape(t[4..]);
      if |t| % 4 == 0 {
        PaddedSplit(t, 0);
        PaddedSplit(t, 1);
        PaddedSplit(t, 2);
      }
    }
  }

  /** `DecodeBase64` returns null exactly for text that is not valid base64. */
  lemma DecodeSucceedsIffValid(s: seq<char>)
    ensures Decode(s).Some? <==> IsValid(s)
  {
    DecodeGroupsShape(RemoveSpaces(s));
  }

  /** Encoded text holds alphabet characters and '=' only, and is non-empty for non-empty bytes. */
  lemma {:induction false} EncodeAlphabet(b: seq<byte>)
    ensures forall i :: 0 <= i < |Encode(b)| ==> IsAlphabet(Encode(b)[i]) || Encode(b)[i] == '='
    decreases |b|
  {
    if |b| >= 3 {
      EncodeAlphabet(b[3..]);
      var q := EncodeTriple(b[0], b[1], b[2]);
      assert Encode(b) == q + Encode(b[3..]);
    }
  }
}
