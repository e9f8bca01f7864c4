/**
 * Base16 (section 8 of RFC 4648) as the `hex` crate implements it: `decode` accepts upper- and
 * lower-case digits, rejects an odd length before looking at any digit, and otherwise reports
 * the first character that is not a hex digit; `encode` writes lower-case digits.
 */
module Hex {
  import opened Results
  import opened Primitives

  datatype HexError = OddLength | InvalidHexCharacter(c: byte, index: nat)

  predicate IsHexDigit(b: byte) {
    ('0' as int <= b <= '9' as int) || ('a' as int <= b <= 'f' as int) || ('A' as int <= b <= 'F' as int)
  }

  function DigitValue(b: byte): (v: nat)
    requires IsHexDigit(b)
    ensures v < 16
  {
    if b <= '9' as int then b - '0' as int
    else if b <= 'F' as int then b - 'A' as int + 10
    else b - 'a' as int + 10
  }

  /** The lower-case digit for a value below 16. */
  function Digit(v: nat): (b: byte)
    requires v < 16
    ensures IsHexDigit(b) && DigitValue(b) == v
  {
    if v < 10 then '0' as int + v else 'a' as int + v - 10
  }

  /** Decodes the digit pairs of `s` from position `i` on. */
  function DecodeFrom(s: seq<byte>, i: nat): (r: Result<seq<byte>, HexError>)
    requires |s| % 2 == 0 && i % 2 == 0 && i <= |s|
    ensures r.Ok? <==> forall k :: i <= k < |s| ==> IsHexDigit(s[k])
    ensures r.Ok? ==> 2 * |r.value| == |s| - i
    ensures r.Ok? ==> forall k :: 0 <= k < |r.value| ==>
      r.value[k] == 16 * DigitValue(s[i + 2 * k]) + DigitValue(s[i + 2 * k + 1])
    ensures r.Err? ==>
              && r.error.InvalidHexCharacter?
              && i <= r.error.index < |s|
              && s[r.error.index] == r.error.c
              && !IsHexDigit(r.error.c)
              && (forall k :: i <= k < r.error.index ==> IsHexDigit(s[k]))
    decreases |s| - i
  {
    if i == |s| then Ok([])
    else if !IsHexDigit(s[i]) then Err(InvalidHexCharacter(s[i], i))
    else if !IsHexDigit(s[i + 1]) then Err(InvalidHexCharacter(s[i + 1], i + 1))
    else
      match DecodeFrom(s, i + 2)
      case Err(e) => Err(e)
      case Ok(rest) => Ok([16 * DigitValue(s[i]) + DigitValue(s[i + 1])] + rest)
  }

  /** `hex::decode`. */
  function Decode(s: seq<byte>): (r: Result<seq<byte>, HexError>)
    ensures |s| % 2 != 0 <==> r == Err(OddLength)
    ensures r.Ok? <==> |s| % 2 == 0 && forall k :: 0 <= k < |s| ==> IsHexDigit(s[k])
    ensures r.Ok? ==> 2 * |r.value| == |s|
  {
    if |s| % 2 != 0 then Err(OddLength) else DecodeFrom(s, 0)
  }

  /** `hex::encode`: two lower-case digits per byte, high nibble first. */
  function Encode(b: seq<byte>): (r: seq<byte>)
    ensures |r| == 2 * |b|
  {
    if b == [] then [] else [Digit(b[0] / 16), Digit(b[0] % 16)] + Encode(b[1..])
  }

  /** Decoding undoes encoding. */
  lemma {:induction false} DecodeEncode(b: seq<byte>)
    ensures Decode(Encode(b)) == Ok(b)
  {
    var s := Encode(b);
    EncodeDigits(b);
    var r := DecodeFrom(s, 0);
    assert r.Ok?;
    assert |r.value| == |b|;
    forall k | 0 <= k < |b| ensures r.value[k] == b[k] {
      EncodeAt(b, k);
      assert r.value[k] == 16 * (b[k] / 16) + b[k] % 16;
    }
    assert r.value == b;
    assert |s| % 2 == 0;
  }

  lemma {:induction false} EncodeDigits(b: seq<byte>)
    ensures forall k :: 0 <= k < |Encode(b)| ==> IsHexDigit(Encode(b)[k])
  {
    if b != [] {
      EncodeDigits(b[1..]);
    }
  }

  lemma {:induction false} EncodeAt(b: seq<byte>, k: nat)
    requires k < |b|
    ensures Encode(b)[2 * k] == Digit(b[k] / 16) && Encode(b)[2 * k + 1] == Digit(b[k] % 16)
  {
    if k > 0 {
      EncodeAt(b[1..], k - 1);
    }
  }
}
