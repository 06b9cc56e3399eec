/** The backend's authentication routes: `/nonce`, `/verify`, and the
    `get_current_wallet` dependency that reads a bearer token. */
module AuthRoutes {
  import opened Wrappers
  import opened Strings
  import opened AuthWallet

  /** A route's outcome: a response body, an `HTTPException`, or an uncaught
      exception (answered by the framework with status 500). */
  datatype Reply<+T> = Ok(body: T) | HttpError(status: int, detail: string) | ServerError

  datatype NonceResponse = NonceResponse(nonce: string)

  datatype VerificationRequest = VerificationRequest(address: string, signature: string, nonce: string)

  datatype VerificationResponse = VerificationResponse(token: string, address: string)

  const InvalidSignatureDetail := "Invalid signature"
  const InvalidTokenDetail := "Invalid or expired token"
  const BearerPrefix := "Bearer "

  /** `GET /nonce`. */
  function GetNonce(entropy: seq<byte>): (r: NonceResponse)
    requires |entropy| == 32
    ensures |r.nonce| == 64
    ensures forall i :: 0 <= i < |r.nonce| ==> IsHexDigit(r.nonce[i])
    ensures Unhex(r.nonce) == entropy
  {
    NonceResponse(GenerateNonce(entropy))
  }

  /** `POST /verify`: 401 exactly when the ownership check fails; on success the
      issued token and the request's address as sent (not lower-cased, not the
      recovered one). */
  function VerifyWallet(request: VerificationRequest, recover: Recovery, now: int, encode: Encoder)
    : (r: Reply<VerificationResponse>)
    ensures r.Ok? || r == HttpError(401, InvalidSignatureDetail)
    ensures r.Ok? <==> VerifySignature(Challenge(request.nonce), request.signature, request.address, recover)
    ensures r.Ok? ==> r.body.address == request.address
    ensures r.Ok? ==> r.body.token == CreateAuthToken(request.address, now, encode)
  {
    var (isValid, token) := VerifyWalletOwnership(request.address, request.signature, request.nonce, recover, now, encode);
    if !isValid then HttpError(401, InvalidSignatureDetail)
    else Ok(VerificationResponse(token.value, request.address))
  }

  /** The dependency's token: the Authorization header (empty when absent)
      with every "Bearer " removed, wherever it occurs. */
  function ExtractToken(authorization: Option<string>): (token: string)
    ensures |token| <= |authorization.GetOr("")|
    ensures token != authorization.GetOr("") ==> Contains(authorization.GetOr(""), BearerPrefix)
    ensures authorization.None? ==> token == ""
    // Without an occurrence the header is the token.
    ensures !Contains(authorization.GetOr(""), BearerPrefix) ==> token == authorization.GetOr("")
    // The first occurrence is deleted, what precedes it kept, and the rest scanned the same way.
    ensures IndexOf(authorization.GetOr(""), BearerPrefix).Some? ==>
      var i := IndexOf(authorization.GetOr(""), BearerPrefix).value;
      token == authorization.GetOr("")[..i]
               + ReplaceAll(authorization.GetOr("")[i + |BearerPrefix|..], BearerPrefix, "")
  {
    ReplaceAllDeleteShrinks(authorization.GetOr(""), BearerPrefix);
    ExtractionAbsent(authorization.GetOr(""));
    ExtractionAtFirst(authorization.GetOr(""));
    ReplaceAll(authorization.GetOr(""), BearerPrefix, "")
  }

  /** A header without "Bearer " is kept as it is. */
  lemma ExtractionAbsent(header: string)
    ensures !Contains(header, BearerPrefix) ==> ReplaceAll(header, BearerPrefix, "") == header
  {
    if !Contains(header, BearerPrefix) {
      ReplaceAllAbsent(header, BearerPrefix, "");
    }
  }

  /** The first "Bearer " is deleted and the rest of the header scanned on. */
  lemma ExtractionAtFirst(header: string)
    ensures IndexOf(header, BearerPrefix).Some? ==>
      var i := IndexOf(header, BearerPrefix).value;
      ReplaceAll(header, BearerPrefix, "") == header[..i] + ReplaceAll(header[i + |BearerPrefix|..], BearerPrefix, "")
  {
    if IndexOf(header, BearerPrefix).Some? {
      ReplaceAllAtFirst(header, BearerPrefix, "", IndexOf(header, BearerPrefix).value);
    }
  }

  /** A repeated scheme prefix is removed twice, and an occurrence inside the
      header is removed too. */
  lemma ExtractTokenExamples()
    ensures ExtractToken(Some("Bearer Bearer t")) == "t"
    ensures ExtractToken(Some("xBearer y")) == "xy"
  {
    assert "Bearer Bearer t" == BearerPrefix + (BearerPrefix + "t");
    ReplaceAllLeading(BearerPrefix, BearerPrefix + "t", "");
    ReplaceAllLeading(BearerPrefix, "t", "");
    var h := "xBearer y";
    assert h[0] != BearerPrefix[0];
    ReplaceAllSkip(h, BearerPrefix, "");
    assert h[1..] == BearerPrefix + "y";
    ReplaceAllLeading(BearerPrefix, "y", "");
  }

  /** `get_current_wallet`: 401 when verification gives no address or an empty
      one (both are falsy); a token without an address claim raises. */
  function GetCurrentWallet(authorization: Option<string>, now: int, decode: Decoder): (r: Reply<string>)
    ensures r.Ok? ==> r.body != "" && VerifyAuthToken(ExtractToken(authorization), now, decode) == Verified(r.body)
    ensures r.ServerError? <==> VerifyAuthToken(ExtractToken(authorization), now, decode).MissingAddress?
    ensures r.HttpError? ==> r == HttpError(401, InvalidTokenDetail)
    ensures decode(ExtractToken(authorization)).None? ==> r == HttpError(401, InvalidTokenDetail)
    // A verified, non-empty address is returned as the current wallet.
    ensures VerifyAuthToken(ExtractToken(authorization), now, decode).Verified?
            && VerifyAuthToken(ExtractToken(authorization), now, decode).address != "" ==>
      r == Ok(VerifyAuthToken(ExtractToken(authorization), now, decode).address)
  {
    match VerifyAuthToken(ExtractToken(authorization), now, decode)
    case Verified(address) => if address != "" then Ok(address) else HttpError(401, InvalidTokenDetail)
    case Rejected => HttpError(401, InvalidTokenDetail)
    case MissingAddress => ServerError
  }

  /** A token that does not itself contain "Bearer " is read the same with or
      without the scheme prefix. */
  lemma BearerPrefixOptional(token: string)
    requires !Contains(token, BearerPrefix)
    ensures ExtractToken(Some(BearerPrefix + token)) == token
    ensures ExtractToken(Some(token)) == token
  {
    ReplaceAllLeading(BearerPrefix, token, "");
    ReplaceAllAbsent(token, BearerPrefix, "");
  }

  /** End to end: a token issued by `/verify` for a non-empty address, sent
      back as a bearer token within a day, identifies that address. */
  lemma IssuedTokenAccepted(address: string, issuedAt: int, now: int, encode: Encoder, decode: Decoder)
    requires RoundTrips(encode, decode)
    requires address != ""
    requires now < issuedAt + TokenLifetime
    requires !Contains(CreateAuthToken(address, issuedAt, encode), BearerPrefix)
    ensures GetCurrentWallet(Some(BearerPrefix + CreateAuthToken(address, issuedAt, encode)), now, decode) == Ok(address)
  {
    var token := CreateAuthToken(address, issuedAt, encode);
    BearerPrefixOptional(token);
    TokenRoundTrip(address, issuedAt, now, encode, decode);
  }

  /** After the day has passed the same header is refused with 401. */
  lemma ExpiredTokenRefused(address: string, issuedAt: int, now: int, encode: Encoder, decode: Decoder)
    requires RoundTrips(encode, decode)
    requires now >= issuedAt + TokenLifetime
    requires !Contains(CreateAuthToken(address, issuedAt, encode), BearerPrefix)
    ensures GetCurrentWallet(Some(BearerPrefix + CreateAuthToken(address, issuedAt, encode)), now, decode)
         == HttpError(401, InvalidTokenDetail)
  {
    var token := CreateAuthToken(address, issuedAt, encode);
    BearerPrefixOptional(token);
    TokenRoundTrip(address, issuedAt, now, encode, decode);
  }
}
