/** The backend's wallet authentication helpers: nonce generation, the
    challenge message, signature checking against an abstract address
    recovery, and JWT issue and verification over an abstract codec. */
module AuthWallet {
  import opened Wrappers
  import opened Strings

  newtype byte = x: int | 0 <= x < 256

  /** A character of the lower-case hex alphabet 0-9, a-f. */
  predicate IsHexDigit(c: char) {
    '0' <= c <= '9' || 'a' <= c <= 'f'
  }

  function HexDigit(n: int): (c: char)
    requires 0 <= n < 16
    ensures IsHexDigit(c)
  {
    if n < 10 then ('0' as int + n) as char else ('a' as int + n - 10) as char
  }

  function HexValue(c: char): (n: int)
    requires IsHexDigit(c)
    ensures 0 <= n < 16 && HexDigit(n) == c
  {
    if '0' <= c <= '9' then c as int - '0' as int else c as int - 'a' as int + 10
  }

  /** `bytes.hex()`: two lower-case digits per byte, high nibble first. */
  function Hex(bytes: seq<byte>): (s: string)
    ensures |s| == 2 * |bytes|
    ensures forall i :: 0 <= i < |s| ==> IsHexDigit(s[i])
  {
    if bytes == [] then ""
    else [HexDigit(bytes[0] as int / 16), HexDigit(bytes[0] as int % 16)] + Hex(bytes[1..])
  }

  /** The inverse of `Hex`, on strings of hex-digit pairs. */
  function Unhex(s: string): (bytes: seq<byte>)
    requires |s| % 2 == 0
    requires forall i :: 0 <= i < |s| ==> IsHexDigit(s[i])
    ensures |bytes| * 2 == |s|
  {
    if s == "" then []
    else [(HexValue(s[0]) * 16 + HexValue(s[1])) as byte] + Unhex(s[2..])
  }

  /** Hex encoding loses nothing: the bytes come back from the text. */
  lemma {:induction false} HexRoundTrip(bytes: seq<byte>)
    ensures Unhex(Hex(bytes)) == bytes
  {
    if bytes != [] {
      var b := bytes[0] as int;
      var s := Hex(bytes);
      assert s[2..] == Hex(bytes[1..]);
      HexRoundTrip(bytes[1..]);
      ByteRoundTrip(bytes[0]);
    }
  }

  lemma ByteRoundTrip(b: byte)
    ensures HexValue(HexDigit(b as int / 16)) * 16 + HexValue(HexDigit(b as int % 16)) == b as int
  {
  }

  /** Different byte strings give different nonces. */
  lemma HexInjective(a: seq<byte>, b: seq<byte>)
    requires Hex(a) == Hex(b)
    ensures a == b
  {
    HexRoundTrip(a);
    HexRoundTrip(b);
  }

  /** `generate_nonce`: `entropy` stands for `os.urandom(32)`. */
  function GenerateNonce(entropy: seq<byte>): (nonce: string)
    requires |entropy| == 32
    ensures |nonce| == 64
    ensures forall i :: 0 <= i < |nonce| ==> IsHexDigit(nonce[i])
    ensures Unhex(nonce) == entropy
  {
    HexRoundTrip(entropy);
    Hex(entropy)
  }

  const ChallengePrefix := "Sign this message to verify your wallet ownership. Nonce: "

  /** The text the wallet is expected to have signed. */
  function Challenge(nonce: string): (message: string)
    ensures |message| == |ChallengePrefix| + |nonce|
    ensures message[..|ChallengePrefix|] == ChallengePrefix
    ensures message[|ChallengePrefix|..] == nonce
  {
    ChallengePrefix + nonce
  }

  /** The nonce can be read back from the message, so distinct nonces give
      distinct challenges. */
  lemma ChallengeInjective(n1: string, n2: string)
    requires Challenge(n1) == Challenge(n2)
    ensures n1 == n2
  {
  }

  /** `recover(message, signature)` stands for `recover_message(encode_defunct(message), signature)`:
      the recovered address, or None when recovery raised. */
  type Recovery = (string, string) -> Option<string>

  /** `verify_signature`: any exception during recovery yields False; otherwise
      the addresses are compared lower-cased. */
  function VerifySignature(message: string, signature: string, address: string, recover: Recovery): (ok: bool)
    ensures ok <==> recover(message, signature).Some?
                    && EqualIgnoringCase(recover(message, signature).value, address)
  {
    match recover(message, signature)
    case None => false
    case Some(recovered) =>
      LowerEqualIff(recovered, address);
      Lower(recovered) == Lower(address)
  }

  /** The JWT claims. Tokens this module issues always carry both. */
  datatype Claims = Claims(address: Option<string>, exp: Option<int>)

  /** Token lifetime: one day, in seconds. */
  const TokenLifetime := 86400

  /** HS256 signing with the server secret, abstracted. */
  type Encoder = Claims -> string

  /** HS256 signature and format check with the server secret, abstracted:
      None is PyJWT's `InvalidTokenError` (bad signature, malformed token). */
  type Decoder = string -> Option<Claims>

  /** The codec's one law: what is encoded decodes to itself. */
  ghost predicate RoundTrips(encode: Encoder, decode: Decoder) {
    forall c :: decode(encode(c)) == Some(c)
  }

  /** `create_auth_token`. `now` is `utcnow()` in whole seconds (PyJWT stores
      `exp` as an integer timestamp). */
  function CreateAuthToken(address: string, now: int, encode: Encoder): (token: string)
    // Any decoder the signer round-trips with reads back the address and an expiry one day on.
    ensures forall decode: Decoder {:trigger RoundTrips(encode, decode)} :: RoundTrips(encode, decode) ==>
      decode(token) == Some(Claims(Some(address), Some(now + TokenLifetime)))
  {
    encode(Claims(Some(address), Some(now + TokenLifetime)))
  }

  /** The three ways `verify_auth_token` ends. */
  datatype TokenCheck =
    | Verified(address: string)
    | Rejected                   // returns None
    | MissingAddress             // `payload['address']` raises KeyError, not caught here

  /** `verify_auth_token`: an undecodable token, or one whose `exp` is not
      after the current time (`exp <= now` is expired), is rejected. */
  function VerifyAuthToken(token: string, now: int, decode: Decoder): (r: TokenCheck)
    ensures decode(token).None? ==> r == Rejected
    ensures r.Verified? ==> decode(token).Some? && decode(token).value.address == Some(r.address)
    ensures r.Verified? ==> decode(token).value.exp.None? || now < decode(token).value.exp.value
    ensures decode(token).Some? && decode(token).value.exp.Some? && decode(token).value.exp.value <= now ==>
      r == Rejected
    // A decodable, unexpired token yields its address, or raises when it has none.
    ensures decode(token).Some? && !(decode(token).value.exp.Some? && decode(token).value.exp.value <= now) ==>
      r == (match decode(token).value.address
            case Some(a) => Verified(a)
            case None => MissingAddress)
  {
    match decode(token)
    case None => Rejected
    case Some(claims) =>
      if claims.exp.Some? && claims.exp.value <= now then Rejected
      else
        match claims.address
        case None => MissingAddress
        case Some(a) => Verified(a)
  }

  /** Issue then verify: the address comes back while the token is younger
      than a day, and the token is rejected from then on. */
  lemma TokenRoundTrip(address: string, issuedAt: int, now: int, encode: Encoder, decode: Decoder)
    requires RoundTrips(encode, decode)
    ensures now < issuedAt + TokenLifetime ==>
      VerifyAuthToken(CreateAuthToken(address, issuedAt, encode), now, decode) == Verified(address)
    ensures now >= issuedAt + TokenLifetime ==>
      VerifyAuthToken(CreateAuthToken(address, issuedAt, encode), now, decode) == Rejected
  {
  }

  /** `verify_wallet_ownership`: `(True, token)` exactly when the signature
      over the challenge verifies, `(False, None)` otherwise. */
  function VerifyWalletOwnership(address: string, signature: string, nonce: string,
                                 recover: Recovery, now: int, encode: Encoder): (r: (bool, Option<string>))
    ensures r.0 <==> r.1.Some?
    ensures r.0 <==> recover(Challenge(nonce), signature).Some?
                     && EqualIgnoringCase(recover(Challenge(nonce), signature).value, address)
    ensures r.0 ==> r.1 == Some(encode(Claims(Some(address), Some(now + TokenLifetime))))
  {
    if VerifySignature(Challenge(nonce), signature, address, recover) then
      (true, Some(CreateAuthToken(address, now, encode)))
    else (false, None)
  }
}
