/**
 * The encrypted-value wire codec of src/EncryptedData.cs: the text
 * `<type>.<part1>|<part2>|<part3>`, each part standard base64, whose parts
 * mean IV, data and MAC in an order fixed by the scheme id.
 */
module EncryptedDataCodec {
  import opened Wrappers
  import opened Bytes
  import opened VwTypes
  import opened InternalExtensions

  /** One encrypted value: scheme, ciphertext, and the optional IV and MAC. */
  datatype EncryptedData = EncryptedData(
    encType: EncryptionType,
    data: seq<byte>,
    iv: Option<seq<byte>>,
    mac: Option<seq<byte>>)

  /** The schemes whose text carries an IV part (AES-CBC). */
  predicate HasIv(t: EncryptionType) {
    t == AesCbc256 || t == AesCbc128_HmacSha256 || t == AesCbc256_HmacSha256
  }

  /** The schemes whose text carries a MAC part. */
  predicate HasMac(t: EncryptionType) {
    t == AesCbc128_HmacSha256 || t == AesCbc256_HmacSha256 ||
    t == Rsa2048_OaepSha256_HmacSha256 || t == Rsa2048_OaepSha1_HmacSha256
  }

  // ---- Parsing ----

  /** The text cut at the first '.' and then at up to three '|'. */
  datatype Tokens = Tokens(typeText: seq<char>, part1: seq<char>, part2: seq<char>, part3: seq<char>)

  function Tokenize(s: seq<char>): Tokens {
    var (typeText, scan) := TakeSkipToken(s, '.');
    var (part1, scan1) := TakeSkipToken(scan, '|');
    var (part2, scan2) := TakeSkipToken(scan1, '|');
    var (part3, _) := TakeSkipToken(scan2, '|');
    Tokens(typeText, part1, part2, part3)
  }

  /** The part that holds the ciphertext: the second for AES schemes, the first for RSA schemes. */
  function DataPart(t: EncryptionType, tk: Tokens): seq<char> {
    if HasIv(t) then tk.part2 else tk.part1
  }

  /** The part that holds the IV; an absent part is the empty text. */
  function IvPart(t: EncryptionType, tk: Tokens): seq<char> {
    if HasIv(t) then tk.part1 else []
  }

  /** The part that holds the MAC; an absent part is the empty text. */
  function MacPart(t: EncryptionType, tk: Tokens): seq<char> {
    if t == AesCbc128_HmacSha256 || t == AesCbc256_HmacSha256 then tk.part3
    else if t == Rsa2048_OaepSha256_HmacSha256 || t == Rsa2048_OaepSha1_HmacSha256 then tk.part2
    else []
  }

  /** The local `tryConstruct`: fails only when the data part is not base64; a bad IV or MAC part becomes null. */
  function TryConstruct(t: EncryptionType, data: seq<char>, iv: seq<char>, mac: seq<char>): (r: Option<EncryptedData>)
    ensures r.Some? <==> DecodeBase64(data).Some?
    ensures r.Some? ==> r.value == EncryptedData(t, DecodeBase64(data).value, DecodeBase64(iv), DecodeBase64(mac))
  {
    var dataBytes := DecodeBase64(data);
    if dataBytes.None? then None
    else Some(EncryptedData(t, dataBytes.value, DecodeBase64(iv), DecodeBase64(mac)))
  }

  /** The `switch` of `TryParse`: which part is data, IV and MAC for a defined scheme. */
  function FromTokens(t: EncryptionType, tk: Tokens): (r: Option<EncryptedData>)
    requires IsDefinedEncryptionType(t)
    ensures r.Some? <==> DecodeBase64(DataPart(t, tk)).Some?
    ensures r.Some? ==> r.value == EncryptedData(t, DecodeBase64(DataPart(t, tk)).value,
      DecodeBase64(IvPart(t, tk)), DecodeBase64(MacPart(t, tk)))
  {
    if t == AesCbc256 then TryConstruct(t, tk.part2, tk.part1, [])
    else if t == AesCbc128_HmacSha256 || t == AesCbc256_HmacSha256 then TryConstruct(t, tk.part2, tk.part1, tk.part3)
    else if t == Rsa2048_OaepSha1 || t == Rsa2048_OaepSha256 then TryConstruct(t, tk.part1, [], [])
    else TryConstruct(t, tk.part1, [], tk.part2)
  }

  /**
   * `TryParse`: the value, or `None` where the source returns false. It fails
   * on blank text, on a head that is not an integer, and on an integer outside
   * the seven schemes; otherwise the scheme's layout decides.
   */
  function TryParse(s: seq<char>): (r: Option<EncryptedData>)
    ensures IsBlank(Some(s)) ==> r.None?
    ensures TryParseNumber(Tokenize(s).typeText).None? ==> r.None?
    ensures (TryParseNumber(Tokenize(s).typeText).Some? &&
      !IsDefinedEncryptionType(TryParseNumber(Tokenize(s).typeText).value as EncryptionType)) ==> r.None?
    ensures r.Some? ==> IsDefinedEncryptionType(r.value.encType)
    ensures r.Some? ==> TryParseNumber(Tokenize(s).typeText) == Some(r.value.encType as int32)
    ensures r.Some? ==> r == FromTokens(r.value.encType, Tokenize(s))
    ensures (!IsBlank(Some(s)) && TryParseNumber(Tokenize(s).typeText).Some? &&
      IsDefinedEncryptionType(TryParseNumber(Tokenize(s).typeText).value as EncryptionType)) ==>
      r == FromTokens(TryParseNumber(Tokenize(s).typeText).value as EncryptionType, Tokenize(s))
  {
    if IsBlank(Some(s)) then None
    else
      var tk := Tokenize(s);
      var typeNum := TryParseNumber(tk.typeText);
      if typeNum.None? then None
      else
        var t := typeNum.value as EncryptionType;
        if !IsDefinedEncryptionType(t) then None
        else FromTokens(t, tk)
  }

  /** `Parse`: exactly TryParse's value, and an exception exactly where TryParse fails. */
  function Parse(s: seq<char>): (r: Result<EncryptedData>)
    ensures r.Ok? <==> TryParse(s).Some?
    ensures r.Ok? ==> r.value == TryParse(s).value
    ensures r.Err? ==> r.error == ParseFailure
  {
    match TryParse(s)
    case Some(v) => Ok(v)
    case None => Err(ParseFailure)
  }

  // ---- Building ----

  /** `Append` of a nullable string appends nothing for null. */
  function Text(s: Option<string>): string {
    s.GetOr("")
  }

  /** The wire text of a value, or NotImplemented for a scheme outside the seven. */
  function WireFormat(v: EncryptedData): (r: Result<string>)
    ensures r.Ok? <==> IsDefinedEncryptionType(v.encType)
    ensures r.Err? ==> r.error == NotImplemented
  {
    var head := IntText(v.encType as int) + ".";
    var iv, data, mac := Text(EncodeBase64(v.iv)), Text(EncodeBase64(Some(v.data))), Text(EncodeBase64(v.mac));
    if v.encType == AesCbc256 then Ok(head + iv + "|" + data)
    else if v.encType == AesCbc128_HmacSha256 || v.encType == AesCbc256_HmacSha256 then Ok(head + iv + "|" + data + "|" + mac)
    else if v.encType == Rsa2048_OaepSha1 || v.encType == Rsa2048_OaepSha256 then Ok(head + data)
    else if v.encType == Rsa2048_OaepSha1_HmacSha256 || v.encType == Rsa2048_OaepSha256_HmacSha256 then Ok(head + data + "|" + mac)
    else Err(NotImplemented)
  }

  /** The `StringBuilder` that `BuildString` appends into. */
  class StringBuilder {
    var text: string

    constructor ()
      ensures text == ""
    {
      text := "";
    }

    /** `Append(string?)`: null appends nothing. */
    method Append(s: Option<string>)
      modifies this
      ensures text == old(text) + Text(s)
    {
      text := text + Text(s);
    }

    method AppendChar(c: char)
      modifies this
      ensures text == old(text) + [c]
    {
      text := text + [c];
    }

    method AppendInt(n: int)
      modifies this
      ensures text == old(text) + IntText(n)
    {
      text := text + IntText(n);
    }
  }

  /** `BuildString`: appends the scheme id, '.', and the scheme's parts separated by '|'. */
  method BuildString(v: EncryptedData) returns (r: Result<string>)
    ensures r == WireFormat(v)
  {
    var iv, data, mac := EncodeBase64(v.iv), EncodeBase64(Some(v.data)), EncodeBase64(v.mac);
    var builder := new StringBuilder();
    builder.AppendInt(v.encType as int);
    builder.AppendChar('.');
    ghost var head := builder.text;
    assert head == IntText(v.encType as int) + ".";
    if v.encType == AesCbc256 {
      builder.Append(iv);
      builder.AppendChar('|');
      builder.Append(data);
      assert builder.text == head + Text(iv) + "|" + Text(data);
    } else if v.encType == AesCbc128_HmacSha256 || v.encType == AesCbc256_HmacSha256 {
      builder.Append(iv);
      builder.AppendChar('|');
      builder.Append(data);
      builder.AppendChar('|');
      builder.Append(mac);
      assert builder.text == head + Text(iv) + "|" + Text(data) + "|" + Text(mac);
    } else if v.encType == Rsa2048_OaepSha1 || v.encType == Rsa2048_OaepSha256 {
      builder.Append(data);
      assert builder.text == head + Text(data);
    } else if v.encType == Rsa2048_OaepSha1_HmacSha256 || v.encType == Rsa2048_OaepSha256_HmacSha256 {
      builder.Append(data);
      builder.AppendChar('|');
      builder.Append(mac);
      assert builder.text == head + Text(data) + "|" + Text(mac);
    } else {
      return Err(NotImplemented);
    }
    return Ok(builder.text);
  }

  // ---- Round trip ----

  /** One encoded part: free of '|', and decoding to the bytes, or to no bytes for null. */
  lemma PartRoundTrip(o: Option<seq<byte>>)
    ensures '|' !in Text(EncodeBase64(o))
    ensures DecodeBase64(Text(EncodeBase64(o))) == Some(o.GetOr([]))
  {
  }

  /** The head of the text of a defined scheme: its one digit. */
  lemma HeadOfDefined(t: EncryptionType)
    requires IsDefinedEncryptionType(t)
    ensures '.' !in IntText(t as int)
    ensures TryParseNumber(IntText(t as int)) == Some(t as int32)
  {
    ParseNumberOfText(t as int32);
  }

  /** The head holds no '.', and no part holds a '|'. */
  lemma TokensSeparatorFree(s: seq<char>)
    ensures '.' !in Tokenize(s).typeText
    ensures '|' !in Tokenize(s).part1 && '|' !in Tokenize(s).part2 && '|' !in Tokenize(s).part3
  {
  }

  /** A text of '|'-free parts after a '.'-free head splits back into them. */
  lemma TokenizeOne(h: seq<char>, a: seq<char>)
    requires '.' !in h && '|' !in a
    ensures Tokenize(h + "." + a) == Tokens(h, a, [], [])
    ensures (h + "." + a)[|h|] == '.'
  {
    TakeSkipTokenFirst(h, '.', a);
  }

  lemma TokenizeTwo(h: seq<char>, a: seq<char>, b: seq<char>)
    requires '.' !in h && '|' !in a && '|' !in b
    ensures Tokenize(h + "." + a + "|" + b) == Tokens(h, a, b, [])
    ensures (h + "." + a + "|" + b)[|h|] == '.'
  {
    assert h + "." + a + "|" + b == h + ['.'] + (a + "|" + b);
    TakeSkipTokenFirst(h, '.', a + "|" + b);
    TakeSkipTokenFirst(a, '|', b);
  }

  lemma TokenizeThree(h: seq<char>, a: seq<char>, b: seq<char>, c: seq<char>)
    requires '.' !in h && '|' !in a && '|' !in b && '|' !in c
    ensures Tokenize(h + "." + a + "|" + b + "|" + c) == Tokens(h, a, b, c)
    ensures (h + "." + a + "|" + b + "|" + c)[|h|] == '.'
  {
    assert h + "." + a + "|" + b + "|" + c == h + ['.'] + (a + "|" + b + "|" + c);
    TakeSkipTokenFirst(h, '.', a + "|" + b + "|" + c);
    assert a + "|" + b + "|" + c == a + ['|'] + (b + "|" + c);
    TakeSkipTokenFirst(a, '|', b + "|" + c);
    TakeSkipTokenFirst(b, '|', c);
  }

  /** What `Parse` gives back for a value `BuildString` accepted: the scheme and data, the parts of the layout, and empty arrays elsewhere. */
  function Reparsed(v: EncryptedData): EncryptedData {
    EncryptedData(v.encType, v.data,
      Some(if HasIv(v.encType) then v.iv.GetOr([]) else []),
      Some(if HasMac(v.encType) then v.mac.GetOr([]) else []))
  }

  /** A text headed by a defined scheme's number is laid out by that scheme. */
  lemma TryParseHead(t: EncryptionType, s: seq<char>, dot: nat)
    requires IsDefinedEncryptionType(t)
    requires dot < |s| && s[dot] == '.' && Tokenize(s).typeText == IntText(t as int)
    ensures TryParse(s) == FromTokens(t, Tokenize(s))
  {
    HeadOfDefined(t);
    assert !IsWhiteSpace(s[dot]);
  }

  lemma RoundTripAes(v: EncryptedData)
    requires v.encType == AesCbc256
    ensures WireFormat(v).Ok? && TryParse(WireFormat(v).value) == Some(Reparsed(v))
  {
    var h := IntText(v.encType as int);
    var iv, data := Text(EncodeBase64(v.iv)), Text(EncodeBase64(Some(v.data)));
    PartRoundTrip(v.iv);
    PartRoundTrip(Some(v.data));
    HeadOfDefined(v.encType);
    TokenizeTwo(h, iv, data);
    var s := h + "." + iv + "|" + data;
    TryParseHead(v.encType, s, |h|);
    assert DecodeBase64([]) == Some([]);
  }

  lemma RoundTripAesMac(v: EncryptedData)
    requires v.encType == AesCbc128_HmacSha256 || v.encType == AesCbc256_HmacSha256
    ensures WireFormat(v).Ok? && TryParse(WireFormat(v).value) == Some(Reparsed(v))
  {
    var h := IntText(v.encType as int);
    var iv, data, mac := Text(EncodeBase64(v.iv)), Text(EncodeBase64(Some(v.data))), Text(EncodeBase64(v.mac));
    PartRoundTrip(v.iv);
    PartRoundTrip(Some(v.data));
    PartRoundTrip(v.mac);
    HeadOfDefined(v.encType);
    TokenizeThree(h, iv, data, mac);
    var s := h + "." + iv + "|" + data + "|" + mac;
    TryParseHead(v.encType, s, |h|);
  }

  lemma RoundTripRsa(v: EncryptedData)
    requires v.encType == Rsa2048_OaepSha1 || v.encType == Rsa2048_OaepSha256
    ensures WireFormat(v).Ok? && TryParse(WireFormat(v).value) == Some(Reparsed(v))
  {
    var h := IntText(v.encType as int);
    var data := Text(EncodeBase64(Some(v.data)));
    PartRoundTrip(Some(v.data));
    HeadOfDefined(v.encType);
    TokenizeOne(h, data);
    var s := h + "." + data;
    assert WireFormat(v) == Ok(s);
    TryParseHead(v.encType, s, |h|);
    assert DecodeBase64([]) == Some([]);
  }

  lemma WireRsaMac(v: EncryptedData)
    requires v.encType == Rsa2048_OaepSha1_HmacSha256 || v.encType == Rsa2048_OaepSha256_HmacSha256
    ensures WireFormat(v) == Ok(IntText(v.encType as int) + "." + Text(EncodeBase64(Some(v.data))) + "|" + Text(EncodeBase64(v.mac)))
  {
  }

  lemma ParseRsaMacText(t: EncryptionType, data: seq<char>, mac: seq<char>)
    requires t == Rsa2048_OaepSha1_HmacSha256 || t == Rsa2048_OaepSha256_HmacSha256
    requires '|' !in data && '|' !in mac
    ensures TryParse(IntText(t as int) + "." + data + "|" + mac) == FromTokens(t, Tokens(IntText(t as int), data, mac, []))
  {
    var h := IntText(t as int);
    HeadOfDefined(t);
    TokenizeTwo(h, data, mac);
    TryParseHead(t, h + "." + data + "|" + mac, |h|);
  }

  lemma RoundTripRsaMac(v: EncryptedData)
    requires v.encType == Rsa2048_OaepSha1_HmacSha256 || v.encType == Rsa2048_OaepSha256_HmacSha256
    ensures WireFormat(v).Ok? && TryParse(WireFormat(v).value) == Some(Reparsed(v))
  {
    var h := IntText(v.encType as int);
    var data, mac := Text(EncodeBase64(Some(v.data))), Text(EncodeBase64(v.mac));
    WireRsaMac(v);
    PartRoundTrip(Some(v.data));
    PartRoundTrip(v.mac);
    ParseRsaMacText(v.encType, data, mac);
    assert FromTokens(v.encType, Tokens(h, data, mac, [])) == TryConstruct(v.encType, data, [], mac);
  }

  /** Parsing the text `BuildString` produces gives the value back, with null IV and MAC as empty arrays and the parts outside the scheme's layout empty. */
  lemma ParseBuildRoundTrip(v: EncryptedData)
    requires IsDefinedEncryptionType(v.encType)
    ensures WireFormat(v).Ok?
    ensures TryParse(WireFormat(v).value) == Some(Reparsed(v))
  {
    var t := v.encType;
    if t == AesCbc256 {
      RoundTripAes(v);
    } else if t == AesCbc128_HmacSha256 || t == AesCbc256_HmacSha256 {
      RoundTripAesMac(v);
    } else if t == Rsa2048_OaepSha1 || t == Rsa2048_OaepSha256 {
      RoundTripRsa(v);
    } else {
      RoundTripRsaMac(v);
    }
  }

  /** Text after a third '|' is never looked at. */
  lemma TokenizeIgnoresRest(h: seq<char>, a: seq<char>, b: seq<char>, c: seq<char>, extra: seq<char>)
    requires '.' !in h && '|' !in a && '|' !in b && '|' !in c
    ensures Tokenize(h + ['.'] + (a + ['|'] + (b + ['|'] + (c + ['|'] + extra)))) == Tokens(h, a, b, c)
  {
    TakeSkipTokenFirst(h, '.', a + ['|'] + (b + ['|'] + (c + ['|'] + extra)));
    TakeSkipTokenFirst(a, '|', b + ['|'] + (c + ['|'] + extra));
    TakeSkipTokenFirst(b, '|', c + ['|'] + extra);
    TakeSkipTokenFirst(c, '|', extra);
  }

  /** A text whose type token is not a number, such as "abc", does not parse. */
  lemma NonNumericTypeFails(s: seq<char>)
    requires forall i :: 0 <= i < |Tokenize(s).typeText| ==> !IsDigit(Tokenize(s).typeText[i])
    ensures TryParse(s).None?
  {
  }

  /** A head that is not of the integer layout `int.TryParse` accepts makes the text fail to parse. */
  lemma HeadNotIntegerFails(s: seq<char>)
    requires forall a: nat, b: nat :: !NumberLayout(Tokenize(s).typeText, a, b)
    ensures TryParse(s).None?
  {
    NoLayoutNoNumber(Tokenize(s).typeText);
  }

  /** A head denoting an integer outside the ids 0 to 6 makes the text fail to parse. */
  lemma HeadOutOfRangeFails(s: seq<char>, a: nat, b: nat)
    requires NumberLayout(Tokenize(s).typeText, a, b)
    requires var n := LayoutValue(Tokenize(s).typeText, a, b); n < 0 || n > 6
    ensures TryParse(s).None?
  {
    LayoutParses(Tokenize(s).typeText, a, b);
  }

  /** A head denoting an id 0 to 6 hands the parts to that scheme's layout. */
  lemma HeadInRangeSelects(s: seq<char>, a: nat, b: nat)
    requires !IsBlank(Some(s))
    requires NumberLayout(Tokenize(s).typeText, a, b)
    requires 0 <= LayoutValue(Tokenize(s).typeText, a, b) <= 6
    ensures TryParse(s) == FromTokens(LayoutValue(Tokenize(s).typeText, a, b) as EncryptionType, Tokenize(s))
  {
    LayoutParses(Tokenize(s).typeText, a, b);
  }

  lemma AbcDoesNotParse()
    ensures TryParse("abc").None?
  {
    TakeSkipTokenFirst("abc", '.', []);
    assert "abc" == "abc" + [];
    NonNumericTypeFails("abc");
  }
}
