/**
 * `authorize` (Backblaze+Authorization.swift): HTTP Basic credentials
 * (section 2 of RFC 7617) sent to b2_authorize_account, and the session
 * fields written from the decoded reply.
 */
module Authorization {
  import opened Wrappers
  import opened Octets
  import opened Http
  import opened Backblaze
  import Base64
  import Utf8

  /** The user-pass string `"<accountId>:<applicationKey>"`. */
  function Credentials(accountId: string, applicationKey: string): (s: string)
    ensures |s| == |accountId| + 1 + |applicationKey|
    ensures s[..|accountId|] == accountId && s[|accountId|] == ':' && s[|accountId| + 1..] == applicationKey
  {
    accountId + ":" + applicationKey
  }

  /** The header value `"Basic " + base64(utf8(credentials))`. */
  function BasicAuthorization(accountId: string, applicationKey: string): (h: string)
    ensures |h| >= 6 && h[..6] == "Basic "
    ensures h[6..] == Base64.Encode(Utf8.Encode(Credentials(accountId, applicationKey)))
  {
    "Basic " + Base64.Encode(Utf8.Encode(Credentials(accountId, applicationKey)))
  }

  /** Splits a user-pass string at its first colon, as a server reading it does. */
  function SplitAtColon(s: string): Option<(string, string)> {
    if s == [] then None
    else if s[0] == ':' then Some(([], s[1..]))
    else match SplitAtColon(s[1..])
      case None => None
      case Some(parts) => Some(([s[0]] + parts.0, parts.1))
  }

  /** What a server makes of a Basic header: the user id and the password. */
  function ParseBasic(h: string): Option<(string, string)> {
    if |h| < 6 || h[..6] != "Basic " then None
    else match Base64.Decode(h[6..])
      case None => None
      case Some(bytes) =>
        match Utf8.Decode(bytes)
        case None => None
        case Some(text) => SplitAtColon(text)
  }

  lemma {:induction false} SplitCredentials(accountId: string, applicationKey: string)
    requires ':' !in accountId
    ensures SplitAtColon(Credentials(accountId, applicationKey)) == Some((accountId, applicationKey))
  {
    var s := Credentials(accountId, applicationKey);
    if accountId == [] {
      assert s[1..] == applicationKey;
    } else {
      assert s[1..] == Credentials(accountId[1..], applicationKey);
      SplitCredentials(accountId[1..], applicationKey);
      assert [accountId[0]] + accountId[1..] == accountId;
    }
  }

  /**
   * The header carries the credentials recoverably: for an account id without
   * a colon (RFC 7617 forbids one in a user id), reading the header back gives
   * exactly the id and the key.
   */
  lemma ParseBasicAuthorization(accountId: string, applicationKey: string)
    requires ':' !in accountId
    ensures ParseBasic(BasicAuthorization(accountId, applicationKey)) == Some((accountId, applicationKey))
  {
    var credentials := Credentials(accountId, applicationKey);
    Base64.DecodeEncode(Utf8.Encode(credentials));
    Utf8.DecodeEncode(credentials);
    SplitCredentials(accountId, applicationKey);
  }

  /** `RawAuthorizationResult`: the fields of the b2_authorize_account reply that are read. */
  datatype RawAuthorizationResult = RawAuthorizationResult(
    accountId: string,
    authorizationToken: string,
    apiUrl: string,
    downloadUrl: string,
    recommendedPartSize: int,
    absoluteMinimumPartSize: int)

  /**
   * `authorize()`: always sends the request, with the Basic header in the
   * session configuration, even when a token is already held. A failed
   * transfer fails with the completion rule's error and a reply that does not
   * decode with MalformedResponse, both before any field is written; a
   * decoded reply overwrites the five fields and resolves to true.
   */
  method Authorize(b2: Backblaze, parseUrl: string -> Option<Url>,
                   response: Response, decode: Bytes -> Option<RawAuthorizationResult>)
    returns (sent: Request, result: Result<bool, Error>)
    modifies b2
    ensures sent == Request(
      Get,
      Location(AuthUrl, Some("b2api/v1/b2_authorize_account"), None),
      map[],
      NoBody,
      map["Authorization" := BasicAuthorization(b2.accountId, b2.applicationKey)])
    ensures
      var raw := DecodeBody(Complete(response, MalformedResponse), decode, B2(MalformedResponse));
      && (raw.Failure? ==> result == Failure(raw.error) && unchanged(b2))
      && (raw.Success? ==>
            && result == Success(true)
            && b2.authorizationToken == Some(raw.value.authorizationToken)
            && b2.apiUrl == parseUrl(raw.value.apiUrl)
            && b2.downloadUrl == parseUrl(raw.value.downloadUrl)
            && b2.recommendedPartSize == Some(raw.value.recommendedPartSize)
            && b2.absoluteMinimumPartSize == Some(raw.value.absoluteMinimumPartSize))
    ensures result.Success? ==> b2.Valid()
    ensures old(b2.Valid()) ==> b2.Valid()
  {
    var credentials := Credentials(b2.accountId, b2.applicationKey);
    var authData := Utf8.Encode(credentials);
    var authStringBase64 := Base64.Encode(authData);
    var request := NewRequest(Location(AuthUrl, Some("b2api/v1/b2_authorize_account"), None));
    request := request.(verb := Get);
    request := request.(sessionHeaders := map["Authorization" := "Basic " + authStringBase64]);
    sent := request;
    var raw := DecodeBody(Complete(response, MalformedResponse), decode, B2(MalformedResponse));
    if raw.Failure? {
      return sent, Failure(raw.error);
    }
    b2.downloadUrl := parseUrl(raw.value.downloadUrl);
    b2.apiUrl := parseUrl(raw.value.apiUrl);
    b2.authorizationToken := Some(raw.value.authorizationToken);
    b2.recommendedPartSize := Some(raw.value.recommendedPartSize);
    b2.absoluteMinimumPartSize := Some(raw.value.absoluteMinimumPartSize);
    result := Success(true);
  }
}
