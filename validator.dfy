/**
 * Authentication of an inbound request (`validate_discord_signature`): the Ed25519 signature in
 * `X-Signature-Ed25519` must verify the timestamp in `X-Signature-Timestamp` followed by the text
 * body. The public key and the Ed25519 check itself (RFC 8032) are parameters.
 */
module Validator {
  import opened Results
  import opened Primitives
  import opened Wrappers
  import Ascii
  import Utf8
  import Hex

  datatype Header = Header(name: string, value: seq<byte>)

  /** `lambda_http::Body`. */
  datatype Body = Empty | Text(text: string) | Binary(bytes: seq<byte>)

  datatype AuthError =
    | MissingSignatureHeader
    | InvalidHex(cause: Hex.HexError)
      /** More than 64 decoded bytes: the source indexes past its signature array and panics. */
    | SignatureOverflow
    | MissingTimestampHeader
    | InvalidBodyType
    | VerificationFailed

  type PublicKey = seq<byte>

  /** Ed25519 verification of a message against a 64-byte signature under a public key. */
  type Verifier = (PublicKey, seq<byte>, seq<byte>) -> bool

  const SignatureHeader := "X-Signature-Ed25519"
  const TimestampHeader := "X-Signature-Timestamp"
  const SignatureLength := 64

  // ---------------------------------------------------------------- headers

  predicate NameMatches(h: Header, name: string) {
    Ascii.Lower(h.name) == Ascii.Lower(name)
  }

  /** Index of the first header from `i` on whose name equals `name` ignoring case, or |headers|. */
  function HeaderIndex(headers: seq<Header>, name: string, i: nat): (k: nat)
    requires i <= |headers|
    ensures i <= k <= |headers|
    ensures k < |headers| ==> NameMatches(headers[k], name)
    ensures forall j :: i <= j < k ==> !NameMatches(headers[j], name)
    decreases |headers| - i
  {
    if i == |headers| then i
    else if NameMatches(headers[i], name) then i
    else HeaderIndex(headers, name, i + 1)
  }

  /** `HeaderMap::get`: the first value stored under the name; names compare case-insensitively. */
  function GetHeader(headers: seq<Header>, name: string): (r: Option<seq<byte>>)
    ensures r.None? <==> forall j :: 0 <= j < |headers| ==> !NameMatches(headers[j], name)
    ensures r.Some? ==> exists k :: 0 <= k < |headers| && NameMatches(headers[k], name) && headers[k].value == r.value
  {
    var k := HeaderIndex(headers, name, 0);
    if k < |headers| then Some(headers[k].value) else None
  }

  /** The lookup sees only the lower-cased name. */
  lemma {:induction false} GetHeaderIgnoresCase(headers: seq<Header>, a: string, b: string)
    requires Ascii.Lower(a) == Ascii.Lower(b)
    ensures GetHeader(headers, a) == GetHeader(headers, b)
  {
    HeaderIndexIgnoresCase(headers, a, b, 0);
  }

  lemma {:induction false} HeaderIndexIgnoresCase(headers: seq<Header>, a: string, b: string, i: nat)
    requires Ascii.Lower(a) == Ascii.Lower(b) && i <= |headers|
    ensures HeaderIndex(headers, a, i) == HeaderIndex(headers, b, i)
    decreases |headers| - i
  {
    if i < |headers| && !NameMatches(headers[i], a) {
      HeaderIndexIgnoresCase(headers, a, b, i + 1);
    }
  }

  // ---------------------------------------------------------------- signature bytes

  /** The 64-byte signature array after copying `decoded` into a zeroed array. */
  function Padded(decoded: seq<byte>): (sig: seq<byte>)
    requires |decoded| <= SignatureLength
    ensures |sig| == SignatureLength
    ensures sig[..|decoded|] == decoded
    ensures forall k :: |decoded| <= k < SignatureLength ==> sig[k] == 0
  {
    decoded + seq(SignatureLength - |decoded|, _ => 0)
  }

  /** Exactly 64 decoded bytes are the signature unchanged. */
  lemma PaddedFull(decoded: seq<byte>)
    requires |decoded| == SignatureLength
    ensures Padded(decoded) == decoded
  {
  }

  /**
   * The loop that copies the decoded bytes one by one into a zeroed 64-byte array; None where
   * the source's index runs past the array.
   */
  method CopySignature(decoded: seq<byte>) returns (sig: Option<seq<byte>>)
    ensures sig.Some? <==> |decoded| <= SignatureLength
    ensures sig.Some? ==> sig.value == Padded(decoded)
  {
    var arr := new byte[SignatureLength](_ => 0);
    var i := 0;
    while i < |decoded|
      invariant 0 <= i <= |decoded| && i <= SignatureLength
      invariant forall k :: 0 <= k < i ==> arr[k] == decoded[k]
      invariant forall k :: i <= k < SignatureLength ==> arr[k] == 0
    {
      if i == SignatureLength {
        return None;
      }
      arr[i] := decoded[i];
      i := i + 1;
    }
    assert arr[..] == Padded(decoded);
    return Some(arr[..]);
  }

  // ---------------------------------------------------------------- the check

  /** The signed content: the timestamp's bytes, then the body's UTF-8 bytes, with nothing between. */
  function SignedMessage(timestamp: seq<byte>, body: string): (m: seq<byte>)
    ensures |m| == |timestamp| + |Utf8.Encode(body)|
    ensures m[..|timestamp|] == timestamp && m[|timestamp|..] == Utf8.Encode(body)
  {
    timestamp + Utf8.Encode(body)
  }

  /** The signature header is present, is hex, and decodes to at most 64 bytes. */
  predicate UsableSignature(headers: seq<Header>) {
    && GetHeader(headers, SignatureHeader).Some?
    && Hex.Decode(GetHeader(headers, SignatureHeader).value).Ok?
    && |Hex.Decode(GetHeader(headers, SignatureHeader).value).value| <= SignatureLength
  }

  function DecodedSignature(headers: seq<Header>): seq<byte>
    requires UsableSignature(headers)
  {
    Hex.Decode(GetHeader(headers, SignatureHeader).value).value
  }

  /**
   * The outcome of `validate_discord_signature`. The signature header is checked (present,
   * hex, at most 64 bytes) before the timestamp header is looked at, and both before the body;
   * the request is accepted exactly when the signature verifies the signed message.
   */
  function Verdict(key: PublicKey, verify: Verifier, headers: seq<Header>, body: Body): (r: Result<(), AuthError>)
    ensures GetHeader(headers, SignatureHeader).None? ==> r == Err(MissingSignatureHeader)
    ensures GetHeader(headers, SignatureHeader).Some? && Hex.Decode(GetHeader(headers, SignatureHeader).value).Err?
      ==> r == Err(InvalidHex(Hex.Decode(GetHeader(headers, SignatureHeader).value).error))
    ensures GetHeader(headers, SignatureHeader).Some? && Hex.Decode(GetHeader(headers, SignatureHeader).value).Ok?
      && |Hex.Decode(GetHeader(headers, SignatureHeader).value).value| > SignatureLength
      ==> r == Err(SignatureOverflow)
    ensures UsableSignature(headers) && GetHeader(headers, TimestampHeader).None? ==> r == Err(MissingTimestampHeader)
    ensures UsableSignature(headers) && GetHeader(headers, TimestampHeader).Some? && !body.Text?
      ==> r == Err(InvalidBodyType)
    ensures r.Ok? <==>
      && UsableSignature(headers)
      && GetHeader(headers, TimestampHeader).Some?
      && body.Text?
      && verify(key, SignedMessage(GetHeader(headers, TimestampHeader).value, body.text), Padded(DecodedSignature(headers)))
    ensures UsableSignature(headers) && GetHeader(headers, TimestampHeader).Some? && body.Text? && !r.Ok?
      ==> r == Err(VerificationFailed)
  {
    match GetHeader(headers, SignatureHeader)
    case None => Err(MissingSignatureHeader)
    case Some(signatureHex) =>
      match Hex.Decode(signatureHex)
      case Err(e) => Err(InvalidHex(e))
      case Ok(decoded) =>
        if |decoded| > SignatureLength then Err(SignatureOverflow)
        else
          match GetHeader(headers, TimestampHeader)
          case None => Err(MissingTimestampHeader)
          case Some(timestamp) =>
            match body
            case Text(text) =>
              if verify(key, SignedMessage(timestamp, text), Padded(decoded)) then Ok(()) else Err(VerificationFailed)
            case _ => Err(InvalidBodyType)
  }

  /** `validate_discord_signature`, with the byte-by-byte copy of the signature. */
  method ValidateDiscordSignature(key: PublicKey, verify: Verifier, headers: seq<Header>, body: Body)
    returns (r: Result<(), AuthError>)
    ensures r == Verdict(key, verify, headers, body)
  {
    var signatureHex := GetHeader(headers, SignatureHeader);
    if signatureHex.None? {
      return Err(MissingSignatureHeader);
    }
    var decoded := Hex.Decode(signatureHex.value);
    if decoded.Err? {
      return Err(InvalidHex(decoded.error));
    }
    var sig := CopySignature(decoded.value);
    if sig.None? {
      return Err(SignatureOverflow);
    }
    var timestamp := GetHeader(headers, TimestampHeader);
    if timestamp.None? {
      return Err(MissingTimestampHeader);
    }
    if !body.Text? {
      return Err(InvalidBodyType);
    }
    var content := timestamp.value + Utf8.Encode(body.text);
    if verify(key, content, sig.value) {
      r := Ok(());
    } else {
      r := Err(VerificationFailed);
    }
  }
}
