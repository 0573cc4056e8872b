/** Positional notation: the value of a digit string and the digits of a value. */
module Radix {

  /** The two radices of RFC 4648 base32: symbols carry 5 bits, bytes 8. */
  type Radix = b: nat | b == 32 || b == 256 witness 32

  predicate Digits(base: Radix, d: seq<int>) {
    forall i :: 0 <= i < |d| ==> 0 <= d[i] < base
  }

  function Shifted(base: Radix, v: nat): (r: nat) {
    if base == 32 then v * 32 else v * 256
  }

  function Rest(base: Radix, v: nat): (r: nat) {
    if base == 32 then v / 32 else v / 256
  }

  function Last(base: Radix, v: nat): (r: nat)
    ensures r < base
    ensures v == Shifted(base, Rest(base, v)) + r
  {
    if base == 32 then v % 32 else v % 256
  }

  function Power(base: Radix, n: nat): (p: nat)
    ensures p > 0
  {
    if n == 0 then 1 else Shifted(base, Power(base, n - 1))
  }

  /** The value of `d`, most significant digit first. */
  function Value(base: Radix, d: seq<int>): (v: nat)
    requires Digits(base, d)
    ensures v < Power(base, |d|)
  {
    if d == [] then 0 else Shifted(base, Value(base, d[..|d| - 1])) + d[|d| - 1]
  }

  /** The last `n` digits of `v`, most significant first. */
  function Expand(base: Radix, v: nat, n: nat): (d: seq<int>)
    ensures |d| == n && Digits(base, d)
  {
    if n == 0 then [] else Expand(base, Rest(base, v), n - 1) + [Last(base, v)]
  }

  lemma {:induction false} ExpandOfValue(base: Radix, d: seq<int>)
    requires Digits(base, d)
    ensures Expand(base, Value(base, d), |d|) == d
  {
    if d != [] {
      var front := d[..|d| - 1];
      ExpandOfValue(base, front);
      var v := Value(base, d);
      assert Rest(base, v) == Value(base, front) && Last(base, v) == d[|d| - 1];
    }
  }

  lemma {:induction false} ValueOfExpand(base: Radix, v: nat, n: nat)
    requires v < Power(base, n)
    ensures Value(base, Expand(base, v, n)) == v
  {
    if n > 0 {
      ValueOfExpand(base, Rest(base, v), n - 1);
      assert Expand(base, v, n)[..n - 1] == Expand(base, Rest(base, v), n - 1);
    }
  }
}

/** Base32 as the Python standard library decodes it (section 6 of RFC 4648):
    upper-case alphabet, padding required, no case folding. */
module Base32 {
  import opened Basics
  import opened Radix

  const PAD: Byte := 61

  /** The symbol for a 5-bit value: 'A'..'Z' then '2'..'7'. */
  function Symbol(v: int): (c: Byte)
    requires 0 <= v < 32
  {
    if v < 26 then 65 + v else 24 + v
  }

  predicate IsSymbol(c: Byte) {
    65 <= c <= 90 || 50 <= c <= 55
  }

  function SymbolValue(c: Byte): (v: int)
    requires IsSymbol(c)
    ensures 0 <= v < 32 && Symbol(v) == c
  {
    if c >= 65 then c - 65 else c - 24
  }

  function Symbols(values: seq<int>): (s: seq<Byte>)
    requires Digits(32, values)
  {
    seq(|values|, i requires 0 <= i < |values| => Symbol(values[i]))
  }

  predicate AllSymbols(s: seq<Byte>) {
    forall i :: 0 <= i < |s| ==> IsSymbol(s[i])
  }

  function SymbolValues(s: seq<Byte>): (values: seq<int>)
    requires AllSymbols(s)
    ensures |values| == |s| && Digits(32, values)
  {
    seq(|s|, i requires 0 <= i < |s| => SymbolValue(s[i]))
  }

  function AsBytes(d: seq<int>): (b: seq<Byte>)
    requires Digits(256, d)
    ensures b == d
  {
    seq(|d|, i requires 0 <= i < |d| => d[i])
  }

  // ---- Printing -----------------------------------------------------------

  /** Base32 of whole five-byte groups: eight symbols each, no padding. */
  function Encode(raw: seq<Byte>): (s: seq<Byte>)
    requires |raw| % 5 == 0
    ensures |s| * 5 == |raw| * 8
  {
    if raw == [] then []
    else
      Symbols(Expand(32, Value(256, raw[..5]), 8)) + Encode(raw[5..])
  }

  // ---- Parsing ------------------------------------------------------------

  /** Without the trailing padding. */
  function StripPadding(s: seq<Byte>): (t: seq<Byte>)
    ensures t <= s
    ensures t == [] || t[|t| - 1] != PAD
  {
    if s != [] && s[|s| - 1] == PAD then StripPadding(s[..|s| - 1]) else s
  }

  /** Whole eight-symbol groups: five bytes each. */
  function DecodeQuanta(s: seq<Byte>): (r: Option<seq<Byte>>)
    requires |s| % 8 == 0
    ensures r.Some? ==> |r.value| * 8 == |s| * 5
  {
    if s == [] then Some([])
    else if !AllSymbols(s[..8]) then None
    else
      var head := AsBytes(Expand(256, Value(32, SymbolValues(s[..8])), 5));
      match DecodeQuanta(s[8..])
      case None => None
      case Some(tail) => Some(head + tail)
  }

  /** The bytes a final group of `8 - pad` symbols contributes. */
  function DecodePartial(s: seq<Byte>, pad: nat): (r: seq<Byte>)
    requires AllSymbols(s) && pad in {1, 3, 4, 6}
    ensures 1 <= |r| <= 4
  {
    AsBytes(Expand(256, Value(32, SymbolValues(s)) * Power(32, pad), 5))[..(43 - 5 * pad) / 8]
  }

  function Decode(s: seq<Byte>): (r: Option<seq<Byte>>)
  {
    var body := StripPadding(s);
    var pad := |s| - |body|;
    if |s| % 8 != 0 || pad !in {0, 1, 3, 4, 6} then None
    else if pad == 0 then DecodeQuanta(body)
    else DecodePadded(body, pad)
  }

  /** Whole groups, and a final one that lacks `pad` symbols. */
  function DecodePadded(body: seq<Byte>, pad: nat): (r: Option<seq<Byte>>)
    requires pad in {1, 3, 4, 6} && (|body| + pad) % 8 == 0 && |body| + pad > 0
  {
    var whole, part := body[..|body| - (8 - pad)], body[|body| - (8 - pad)..];
    if !AllSymbols(part) then None
    else
      match DecodeQuanta(whole)
      case None => None
      case Some(bytes) => Some(bytes + DecodePartial(part, pad))
  }

  // ---- The two are inverse ------------------------------------------------

  lemma {:induction false} DecodeOfEncode(raw: seq<Byte>)
    requires |raw| % 5 == 0
    ensures AllSymbols(Encode(raw))
    ensures DecodeQuanta(Encode(raw)) == Some(raw)
  {
    if raw != [] {
      var head, v := raw[..5], Value(256, raw[..5]);
      GroupWidths();
      var values := Expand(32, v, 8);
      var s := Encode(raw);
      assert s[..8] == Symbols(values) && s[8..] == Encode(raw[5..]);
      assert SymbolValues(s[..8]) == values;
      ValueOfExpand(32, v, 8);
      ExpandOfValue(256, head);
      DecodeOfEncode(raw[5..]);
      assert raw == head + raw[5..];
      assert s == s[..8] + s[8..];
      assert AllSymbols(s[..8]);
    }
  }

  lemma {:induction false} EncodeOfDecode(s: seq<Byte>)
    requires |s| % 8 == 0 && DecodeQuanta(s).Some?
    ensures Encode(DecodeQuanta(s).value) == s
  {
    if s != [] {
      var values := SymbolValues(s[..8]);
      var v := Value(32, values);
      GroupWidths();
      var raw := DecodeQuanta(s).value;
      assert raw[..5] == Expand(256, v, 5) && raw[5..] == DecodeQuanta(s[8..]).value;
      ValueOfExpand(256, v, 5);
      ExpandOfValue(32, values);
      EncodeOfDecode(s[8..]);
      assert Symbols(values) == s[..8];
    }
  }

  /** Eight symbols and five bytes carry the same forty bits. */
  lemma GroupWidths()
    ensures Power(32, 8) == Power(256, 5)
  {
    assert Power(32, 1) == 32;
    assert Power(32, 2) == 1024;
    assert Power(32, 3) == 32768;
    assert Power(32, 4) == 1048576;
    assert Power(32, 5) == 33554432;
    assert Power(32, 6) == 1073741824;
    assert Power(32, 7) == 34359738368;
    assert Power(256, 1) == 256;
    assert Power(256, 2) == 65536;
    assert Power(256, 3) == 16777216;
    assert Power(256, 4) == 4294967296;
  }

  /** The alphabet of section 6 of RFC 4648, in the order of the values. */
  const ALPHABET := "ABCDEFGHIJKLMNOPQRSTUVWXYZ234567"

  lemma AlphabetIs(v: int)
    requires 0 <= v < 32
    ensures |ALPHABET| == 32 && Symbol(v) == ALPHABET[v] as int
  {
  }

  lemma SymbolIff(c: Byte)
    ensures IsSymbol(c) <==> exists v :: 0 <= v < 32 && ALPHABET[v] as int == c
  {
    if IsSymbol(c) {
      AlphabetIs(SymbolValue(c));
    }
  }

  /** The eight symbols of a group have the value of its five bytes. */
  lemma EncodedGroup(raw: seq<Byte>)
    requires |raw| == 5
    ensures var s := Encode(raw); AllSymbols(s) && |s| == 8 && Value(32, SymbolValues(s)) == Value(256, raw)
  {
    assert raw[..5] == raw && raw[5..] == [];
    var values := Expand(32, Value(256, raw), 8);
    assert Encode(raw) == Symbols(values);
    assert SymbolValues(Encode(raw)) == values;
    GroupWidths();
    ValueOfExpand(32, Value(256, raw), 8);
  }

  /** A padded text of `n` groups decodes to `n - 1` whole groups and a partial one. */
  lemma PaddedEndsInAPartialGroup(body: seq<Byte>, pad: nat, n: nat)
    requires pad in {1, 3, 4, 6} && |body| + pad == 8 * n && n > 0 && DecodePadded(body, pad).Some?
    ensures 5 * (n - 1) < |DecodePadded(body, pad).value| < 5 * n
  {
    var groups, part := body[..|body| - (8 - pad)], body[|body| - (8 - pad)..];
    assert |groups| == 8 * (n - 1);
    assert DecodePadded(body, pad).value == DecodeQuanta(groups).value + DecodePartial(part, pad);
  }

  /** Only an unpadded text can decode to seven whole groups. */
  lemma ThirtyFiveBytesAreUnpadded(s: seq<Byte>)
    requires Decode(s).Some? && |Decode(s).value| == 35
    ensures |s| == 56 && StripPadding(s) == s && DecodeQuanta(s) == Decode(s)
  {
    var body := StripPadding(s);
    if |body| < |s| {
      DecodesPadded(s, body, |s| - |body|);
      PaddedEndsInAPartialGroup(body, |s| - |body|, |s| / 8);
    }
    assert s == body;
  }

  lemma DecodesPadded(s: seq<Byte>, body: seq<Byte>, pad: nat)
    requires Decode(s).Some? && body == StripPadding(s) && pad == |s| - |body| && pad > 0
    ensures pad in {1, 3, 4, 6} && (|body| + pad) % 8 == 0 && Decode(s) == DecodePadded(body, pad)
  {
  }
}

/** Public keys in the nkey text form (libs/jetcore/jetcore/crypto.py): base32 of
    a prefix byte, the 32-byte key and a little-endian 16-bit checksum. The
    checksum algorithm is a parameter; every result holds for all of them. */
module Nkey {
  import opened Basics
  import Base32

  /** `nkeys.PREFIX_BYTE_USER`: type 20 in the upper five bits. */
  const PREFIX_BYTE_USER: Byte := 160

  datatype KeyError = NotBase32 | WrongLength | ChecksumMismatch | NotAUserKey

  type Checksum = seq<Byte> -> Word16

  function LittleEndian(w: Word16): (b: seq<Byte>) {
    [w % 256, w / 256]
  }

  /** The text form of a key. */
  function Print(crc16: Checksum, key: seq<Byte>): (text: seq<Byte>)
    requires |key| == 32
  {
    var body := [PREFIX_BYTE_USER] + key;
    Base32.Encode(body + LittleEndian(crc16(body)))
  }

  /** `_decode_nkey_public`, on the encoded bytes of its argument. */
  function DecodePublic(crc16: Checksum, text: seq<Byte>): (r: Result<seq<Byte>, KeyError>)
  {
    var padding := seq((8 - |text| % 8) % 8, _ => Base32.PAD);
    match Base32.Decode(text + padding)
    case None => Failure(NotBase32)
    case Some(raw) =>
      if |raw| != 35 then Failure(WrongLength)
      else
        var given := raw[33] as int + 256 * raw[34] as int;
        if given != crc16(raw[..33]) then Failure(ChecksumMismatch)
        else if raw[0] != PREFIX_BYTE_USER then Failure(NotAUserKey)
        else Success(raw[1..33])
  }

  /** The 35 bytes behind the text of `key`: the prefix of a user key, the key, and the
      checksum of both, low byte first. */
  predicate Lays(crc16: Checksum, raw: seq<Byte>, key: seq<Byte>) {
    && |raw| == 35 && raw[0] == 20 * 8 && raw[1..33] == key
    && crc16(raw[..33]) as int == raw[33] as int + 256 * raw[34] as int
  }


  lemma DecodeOfPrint(crc16: Checksum, key: seq<Byte>)
    requires |key| == 32
    ensures |Print(crc16, key)| == 56
    ensures DecodePublic(crc16, Print(crc16, key)) == Success(key)
    ensures Base32.Decode(Print(crc16, key)).Some? && Lays(crc16, Base32.Decode(Print(crc16, key)).value, key)
  {
    var body := [PREFIX_BYTE_USER] + key;
    var raw := body + LittleEndian(crc16(body));
    var text := Print(crc16, key);
    assert |raw| == 35;
    Base32.DecodeOfEncode(raw);
    assert Base32.IsSymbol(text[55]);
    assert Base32.Decode(text) == Some(raw);
    WholeGroupsNeedNoPadding(text);
    assert raw[..33] == body && raw[1..33] == key;
  }

  lemma WholeGroupsNeedNoPadding(text: seq<Byte>)
    requires |text| % 8 == 0
    ensures text + seq((8 - |text| % 8) % 8, _ => Base32.PAD) == text
  {
  }

  lemma UnpaddedText(text: seq<Byte>, padding: seq<Byte>)
    requires padding == seq((8 - |text| % 8) % 8, _ => Base32.PAD)
    requires Base32.StripPadding(text + padding) == text + padding
    ensures text + padding == text
  {
  }

  lemma AcceptedIsPrinted(crc16: Checksum, text: seq<Byte>, key: seq<Byte>)
    requires DecodePublic(crc16, text) == Success(key)
    ensures |key| == 32 && text == Print(crc16, key)
  {
    var padding := seq((8 - |text| % 8) % 8, _ => Base32.PAD);
    var raw := Base32.Decode(text + padding).value;
    Base32.ThirtyFiveBytesAreUnpadded(text + padding);
    UnpaddedText(text, padding);
    Base32.EncodeOfDecode(text);
    assert Base32.Encode(raw) == text;
    RawLayout(crc16, raw, key);
  }

  lemma RawLayout(crc16: Checksum, raw: seq<Byte>, key: seq<Byte>)
    requires |raw| == 35 && raw[0] == PREFIX_BYTE_USER && key == raw[1..33]
    requires raw[33] as int + 256 * raw[34] as int == crc16(raw[..33])
    ensures raw == [PREFIX_BYTE_USER] + key + LittleEndian(crc16([PREFIX_BYTE_USER] + key))
  {
    assert raw[..33] == [PREFIX_BYTE_USER] + key;
    ChecksumBytes(raw[33], raw[34]);
    assert raw == raw[..33] + [raw[33], raw[34]];
  }

  lemma ChecksumBytes(low: Byte, high: Byte)
    ensures LittleEndian(low as int + 256 * high as int) == [low, high]
  {
  }

  /** Why a text is refused, in the order of the checks; a text is padded to whole groups
      first. */
  lemma RefusedBecause(crc16: Checksum, text: seq<Byte>, padded: seq<Byte>)
    requires text <= padded && |padded| % 8 == 0 && |padded| < |text| + 8
    requires forall i :: |text| <= i < |padded| ==> padded[i] == Base32.PAD
    ensures match Base32.Decode(padded)
            case None => DecodePublic(crc16, text) == Failure(NotBase32)
            case Some(raw) =>
              if |raw| != 35 then DecodePublic(crc16, text) == Failure(WrongLength)
              else if crc16(raw[..33]) as int != raw[33] as int + 256 * raw[34] as int
              then DecodePublic(crc16, text) == Failure(ChecksumMismatch)
              else DecodePublic(crc16, text).Success? <==> raw[0] == 20 * 8
    ensures DecodePublic(crc16, text) == Failure(NotAUserKey) ==> Base32.Decode(padded).Some?
  {
    assert padded == text + seq((8 - |text| % 8) % 8, _ => Base32.PAD);
  }

  /** Decoding and printing are inverse: a text is accepted, with result `key`,
      exactly when it is the text form of `key`. */
  lemma AcceptsExactlyThePrintedForm(crc16: Checksum, text: seq<Byte>, key: seq<Byte>)
    ensures DecodePublic(crc16, text) == Success(key) <==> |key| == 32 && text == Print(crc16, key)
  {
    if DecodePublic(crc16, text) == Success(key) {
      AcceptedIsPrinted(crc16, text, key);
    }
    if |key| == 32 && text == Print(crc16, key) {
      DecodeOfPrint(crc16, key);
    }
  }

  /** No two texts denote one key. */
  lemma DecodeIsInjective(crc16: Checksum, a: seq<Byte>, b: seq<Byte>)
    requires DecodePublic(crc16, a).Success? && DecodePublic(crc16, a) == DecodePublic(crc16, b)
    ensures a == b && |a| == 56
  {
    var key := DecodePublic(crc16, a).value;
    AcceptsExactlyThePrintedForm(crc16, a, key);
    AcceptsExactlyThePrintedForm(crc16, b, key);
    DecodeOfPrint(crc16, key);
  }
}
