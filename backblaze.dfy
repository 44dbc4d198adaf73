/**
 * The session (Backblaze.swift) and the bucket (Bucket.swift) objects. They
 * refer to each other, so they share one module.
 *
 * Every remote operation is a method that, given the answer the transport
 * would give (`Response`) and the JSON decoder for the reply, returns the
 * request it issued (None when its guard fails and nothing is sent) and the
 * result the operation's future would resolve to.
 */
module Backblaze {
  import opened Wrappers
  import opened Octets
  import opened Http
  import opened Buckets
  import opened Responses
  import Digests
  import Utf8

  /** `authURL`: the fixed host of the authorization call. */
  const AuthUrl: Url := Url("https://api.backblazeb2.com")

  /**
   * `firstIndex(where: { $0.name == x })`: the position of the first name equal
   * to `x`, in list order.
   */
  function FirstIndexOf(names: seq<string>, x: string): (r: Option<nat>)
    ensures r.Some? ==> r.value < |names| && names[r.value] == x
    ensures r.Some? ==> forall j | 0 <= j < r.value :: names[j] != x
    ensures r.None? ==> forall j | 0 <= j < |names| :: names[j] != x
  {
    if names == [] then None
    else if names[0] == x then Some(0)
    else match FirstIndexOf(names[1..], x)
      case None => None
      case Some(i) => Some(i + 1)
  }

  /** The names of some payloads, in order. */
  function PayloadNames(payloads: seq<CreatePayload>): (names: seq<string>)
    ensures |names| == |payloads|
    ensures forall i | 0 <= i < |payloads| :: names[i] == payloads[i].bucketName
  {
    seq(|payloads|, i requires 0 <= i < |payloads| => payloads[i].bucketName)
  }

  /** The names of some buckets, in order. */
  function BucketNames(buckets: seq<Bucket>): (names: seq<string>)
    ensures |names| == |buckets|
    ensures forall i | 0 <= i < |buckets| :: names[i] == buckets[i].name
  {
    seq(|buckets|, i requires 0 <= i < |buckets| => buckets[i].name)
  }

  /** The JSON text `hideFile` builds by interpolation, without escaping. */
  function HideFileText(fileName: string, bucketId: string): string {
    "{\"fileName\":\"" + fileName + "\",\"bucketId\":\"" + bucketId + "\"}"
  }

  /** A session: two credentials fixed at construction, and what `authorize` learns. */
  class Backblaze {
    const accountId: string
    const applicationKey: string
    var authorizationToken: Option<string>
    var apiUrl: Option<Url>
    var downloadUrl: Option<Url>
    var recommendedPartSize: Option<int>
    var absoluteMinimumPartSize: Option<int>

    /**
     * The token and both part sizes are set together, and no base URL is known
     * without a token. (A URL can stay nil after authorizing: `URL(string:)`
     * may reject the text the service sent.) No operation depends on it: every
     * call checks the fields it needs itself. It is the invariant the
     * constructor establishes and `Authorization.Authorize` keeps.
     */
    ghost predicate Valid()
      reads this
    {
      && (authorizationToken.Some? <==> recommendedPartSize.Some?)
      && (authorizationToken.Some? <==> absoluteMinimumPartSize.Some?)
      && (authorizationToken.None? ==> apiUrl.None? && downloadUrl.None?)
    }

    /** The guard of the API calls: an API URL and a token. */
    predicate HasApiAccess()
      reads this
    {
      apiUrl.Some? && authorizationToken.Some?
    }

    /** The guard of `downloadFile`: a download URL and a token; the API URL is not needed. */
    predicate HasDownloadAccess()
      reads this
    {
      downloadUrl.Some? && authorizationToken.Some?
    }

    /** `init(id:key:)`: stores the credentials; everything else is nil. */
    constructor (id: string, key: string)
      ensures accountId == id && applicationKey == key
      ensures authorizationToken.None? && apiUrl.None? && downloadUrl.None?
      ensures recommendedPartSize.None? && absoluteMinimumPartSize.None?
      ensures Valid() && !HasApiAccess() && !HasDownloadAccess()
    {
      accountId := id;
      applicationKey := key;
      authorizationToken := None;
      apiUrl := None;
      downloadUrl := None;
      recommendedPartSize := None;
      absoluteMinimumPartSize := None;
    }

    /** An authenticated POST to `path` under the API URL, carrying `body`. */
    function ApiPost(path: string, body: Body): (r: Request)
      reads this
      requires HasApiAccess()
      ensures r.verb == Post && r.location == Location(apiUrl.value, Some(path), None)
      ensures r.headers == map["Authorization" := authorizationToken.value]
      ensures r.body == body && r.sessionHeaders == map[]
    {
      NewRequest(Location(apiUrl.value, Some(path), None))
        .(verb := Post)
        .AddValue(authorizationToken.value, "Authorization")
        .(body := body)
    }

    /**
     * `createBucket(named:)`: always asks for an `allPrivate` bucket of this
     * account; on success the bucket mirrors the decoded payload.
     */
    method CreateBucket(bucketName: string, response: Response, decode: Bytes -> Option<CreatePayload>)
      returns (sent: Option<Request>, result: Result<Bucket, Error>)
      ensures !HasApiAccess() ==> sent.None? && result == Failure(B2(Unauthenticated))
      ensures HasApiAccess() ==> sent.Some?
      ensures HasApiAccess() ==> sent.value.verb == Post
      ensures HasApiAccess() ==> sent.value.location == Location(apiUrl.value, Some("/b2api/v1/b2_create_bucket"), None)
      ensures HasApiAccess() ==> sent.value.headers == map["Authorization" := authorizationToken.value]
      ensures HasApiAccess() ==> sent.value.sessionHeaders == map[]
      ensures HasApiAccess() ==> sent.value.body == Json(map[
        "accountId" := JString(accountId),
        "bucketName" := JString(bucketName),
        "bucketType" := JString(RawValue(AllPrivate))])
      ensures HasApiAccess() ==>
        var payload := DecodeBody(Complete(response, MalformedResponse), decode, DecodingFailed);
        && (payload.Failure? ==> result == Failure(payload.error))
        && (payload.Success? ==> result.Success? && result.value.IsFrom(payload.value)
                                 && result.value.backblaze == this)
    {
      if apiUrl.None? || authorizationToken.None? {
        return None, Failure(B2(Unauthenticated));
      }
      var request := ApiPost("/b2api/v1/b2_create_bucket", Json(map[
        "accountId" := JString(accountId),
        "bucketName" := JString(bucketName),
        "bucketType" := JString("allPrivate")]));
      sent := Some(request);
      var payload := DecodeBody(Complete(response, MalformedResponse), decode, DecodingFailed);
      if payload.Failure? {
        return sent, Failure(payload.error);
      }
      var bucket := new Bucket.FromPayload(payload.value, this);
      result := Success(bucket);
    }

    /**
     * `listBuckets(bucketId:bucketName:)`: the optional filters are sent as
     * JSON `null` when absent; on success there is one bucket per decoded
     * payload, in the same order.
     */
    method ListBuckets(bucketId: Option<string>, bucketName: Option<string>,
                       response: Response, decode: Bytes -> Option<seq<CreatePayload>>)
      returns (sent: Option<Request>, result: Result<seq<Bucket>, Error>)
      ensures !HasApiAccess() ==> sent.None? && result == Failure(B2(Unauthenticated))
      ensures HasApiAccess() ==> sent.Some?
      ensures HasApiAccess() ==> sent.value.verb == Post
      ensures HasApiAccess() ==> sent.value.location == Location(apiUrl.value, Some("/b2api/v2/b2_list_buckets"), None)
      ensures HasApiAccess() ==> sent.value.headers == map["Authorization" := authorizationToken.value]
      ensures HasApiAccess() ==> sent.value.sessionHeaders == map[]
      ensures HasApiAccess() ==> sent.value.body == Json(map[
        "accountId" := JString(accountId),
        "bucketId" := OptionalString(bucketId),
        "bucketName" := OptionalString(bucketName)])
      ensures HasApiAccess() ==>
        var payloads := DecodeBody(Complete(response, MalformedResponse), decode, DecodingFailed);
        && (payloads.Failure? ==> result == Failure(payloads.error))
        && (payloads.Success? ==> result.Success? && |result.value| == |payloads.value|)
        && (payloads.Success? ==> forall k | 0 <= k < |payloads.value| ::
              result.value[k].IsFrom(payloads.value[k]) && result.value[k].backblaze == this)
    {
      if apiUrl.None? || authorizationToken.None? {
        return None, Failure(B2(Unauthenticated));
      }
      var request := ApiPost("/b2api/v2/b2_list_buckets", Json(map[
        "accountId" := JString(accountId),
        "bucketId" := OptionalString(bucketId),
        "bucketName" := OptionalString(bucketName)]));
      sent := Some(request);
      var decoded := DecodeBody(Complete(response, MalformedResponse), decode, DecodingFailed);
      if decoded.Failure? {
        return sent, Failure(decoded.error);
      }
      var payloads := decoded.value;
      var buckets: seq<Bucket> := [];
      var i := 0;
      while i < |payloads|
        invariant 0 <= i <= |payloads| && |buckets| == i
        invariant forall k | 0 <= k < i :: buckets[k].IsFrom(payloads[k]) && buckets[k].backblaze == this
      {
        var bucket := new Bucket.FromPayload(payloads[i], this);
        buckets := buckets + [bucket];
        i := i + 1;
      }
      result := Success(buckets);
    }

    /**
     * `bucket(named:)`: lists the buckets filtered by that name, then picks the
     * first, in list order, whose name is exactly the one searched for; none
     * when no listed bucket has it.
     */
    method BucketNamed(searchBucketName: string, response: Response, decode: Bytes -> Option<seq<CreatePayload>>)
      returns (sent: Option<Request>, result: Result<Option<Bucket>, Error>)
      ensures !HasApiAccess() ==> sent.None? && result == Failure(B2(Unauthenticated))
      ensures HasApiAccess() ==> sent.Some? && sent.value.verb == Post
      ensures HasApiAccess() ==> sent.value.location == Location(apiUrl.value, Some("/b2api/v2/b2_list_buckets"), None)
      ensures HasApiAccess() ==> sent.value.headers == map["Authorization" := authorizationToken.value]
      ensures HasApiAccess() ==> sent.value.sessionHeaders == map[]
      ensures HasApiAccess() ==> sent.value.body == Json(map[
        "accountId" := JString(accountId),
        "bucketId" := JNull,
        "bucketName" := JString(searchBucketName)])
      ensures HasApiAccess() ==>
        var payloads := DecodeBody(Complete(response, MalformedResponse), decode, DecodingFailed);
        && (payloads.Failure? ==> result == Failure(payloads.error))
        && (payloads.Success? ==> result.Success?)
        && (payloads.Success? ==>
              var found := FirstIndexOf(PayloadNames(payloads.value), searchBucketName);
              && (result.value.None? <==> found.None?)
              && (result.value.Some? ==> result.value.value.IsFrom(payloads.value[found.value]))
              && (result.value.Some? ==> result.value.value.backblaze == this))
    {
      var listed;
      sent, listed := ListBuckets(None, Some(searchBucketName), response, decode);
      match listed {
        case Failure(e) =>
          result := Failure(e);
        case Success(buckets) =>
          ghost var payloads := DecodeBody(Complete(response, MalformedResponse), decode, DecodingFailed).value;
          assert BucketNames(buckets) == PayloadNames(payloads);
          match FirstIndexOf(BucketNames(buckets), searchBucketName) {
            case Some(index) => result := Success(Some(buckets[index]));
            case None => result := Success(None);
          }
      }
    }

    /**
     * `downloadFile(withId:)`: a GET under the download URL with the query
     * `fileId=<id>`; the reply body is the result as it is.
     */
    method DownloadFile(fileId: string, response: Response)
      returns (sent: Option<Request>, result: Result<Bytes, Error>)
      ensures !HasDownloadAccess() ==> sent.None? && result == Failure(B2(Unauthenticated))
      ensures HasDownloadAccess() ==> sent == Some(Request(
        Get,
        Location(downloadUrl.value, Some("/b2api/v1/b2_download_file_by_id"), Some("fileId=" + fileId)),
        map["Authorization" := authorizationToken.value],
        NoBody,
        map[]))
      ensures HasDownloadAccess() ==> result == Complete(response, MalformedResponse)
    {
      if downloadUrl.None? || authorizationToken.None? {
        return None, Failure(B2(Unauthenticated));
      }
      var location := Location(downloadUrl.value, Some("/b2api/v1/b2_download_file_by_id"), None);
      location := location.(query := Some("fileId=" + fileId));
      var request := NewRequest(location);
      request := request.(verb := Get);
      request := request.AddValue(authorizationToken.value, "Authorization");
      sent := Some(request);
      result := Complete(response, MalformedResponse);
    }

    /** `hideFile(named:in:)`: the body is the UTF-8 of the interpolated JSON text. */
    method HideFile(fileName: string, bucket: Bucket, response: Response, decode: Bytes -> Option<HideFileResponse>)
      returns (sent: Option<Request>, result: Result<HideFileResponse, Error>)
      ensures !HasApiAccess() ==> sent.None? && result == Failure(B2(Unauthenticated))
      ensures HasApiAccess() ==> sent.Some?
      ensures HasApiAccess() ==> sent.value.location == Location(apiUrl.value, Some("/b2api/v1/b2_hide_file"), None)
      ensures HasApiAccess() ==> sent.value.verb == Post
      ensures HasApiAccess() ==> sent.value.headers == map["Authorization" := authorizationToken.value]
      ensures HasApiAccess() ==> sent.value.sessionHeaders == map[]
      ensures HasApiAccess() ==> sent.value.body == Data(Utf8.Encode(HideFileText(fileName, bucket.id)))
      ensures HasApiAccess() ==>
        result == DecodeBody(Complete(response, MalformedResponse), decode, DecodingFailed)
    {
      if apiUrl.None? || authorizationToken.None? {
        return None, Failure(B2(Unauthenticated));
      }
      var request := ApiPost("/b2api/v1/b2_hide_file", Data(Utf8.Encode(HideFileText(fileName, bucket.id))));
      sent := Some(request);
      result := DecodeBody(Complete(response, MalformedResponse), decode, DecodingFailed);
    }
  }

  /** A bucket: id and name fixed at construction, its type (`type` in Swift), and the session it was obtained from. */
  class Bucket {
    const id: string
    const name: string
    var bucketType: BucketType
    const backblaze: Backblaze

    /** The bucket's fields are those of `p`, field for field. */
    predicate IsFrom(p: CreatePayload)
      reads this
    {
      id == p.bucketId && name == p.bucketName && bucketType == p.bucketType
    }

    /** `init(id:name:type:b2:)` with a String type: the text goes through `interpret`. */
    constructor FromText(id: string, name: string, typeText: string, b2: Backblaze)
      ensures this.id == id && this.name == name && backblaze == b2
      ensures bucketType == Interpret(typeText)
    {
      this.id := id;
      this.name := name;
      this.bucketType := Interpret(typeText);
      this.backblaze := b2;
    }

    /** `init(id:name:type:b2:)` with a BucketType: stored unchanged. */
    constructor (id: string, name: string, bucketType: BucketType, b2: Backblaze)
      ensures this.id == id && this.name == name && this.bucketType == bucketType && backblaze == b2
    {
      this.id := id;
      this.name := name;
      this.bucketType := bucketType;
      this.backblaze := b2;
    }

    /** `init(_ payload:b2:)`: copies the payload field for field. */
    constructor FromPayload(payload: CreatePayload, b2: Backblaze)
      ensures IsFrom(payload) && backblaze == b2
    {
      this.id := payload.bucketId;
      this.name := payload.bucketName;
      this.bucketType := payload.bucketType;
      this.backblaze := b2;
    }

    /** `description`. */
    function Description(): (s: string)
      reads this
      ensures |s| > |name| + 5 + |id| && s[..|name|] == name
      ensures s[|name|..|name| + 5] == "(id: " && s[|name| + 5..|name| + 5 + |id|] == id
      ensures s == Describe(name, id, bucketType)
      ensures TypeOfDescription(s) == Some(bucketType)
    {
      DescriptionShowsType(name, id, bucketType);
      Describe(name, id, bucketType)
    }

    /**
     * `prepareUpload`: asks b2_get_upload_url, with the account token, for a
     * one-shot upload URL and token; a reply that does not decode is
     * MalformedResponse.
     */
    method PrepareUpload(response: Response, decode: Bytes -> Option<PreparedUploadInfo>)
      returns (sent: Option<Request>, info: Result<PreparedUploadInfo, Error>)
      ensures !backblaze.HasApiAccess() ==> sent.None? && info == Failure(B2(Unauthenticated))
      ensures backblaze.HasApiAccess() ==> sent == Some(Request(
        Post,
        Location(backblaze.apiUrl.value, Some("/b2api/v1/b2_get_upload_url"), None),
        map["Authorization" := backblaze.authorizationToken.value],
        Json(map["bucketId" := JString(id)]),
        map[]))
      ensures backblaze.HasApiAccess() ==>
        info == DecodeBody(Complete(response, MalformedResponse), decode, B2(MalformedResponse))
    {
      if backblaze.apiUrl.None? || backblaze.authorizationToken.None? {
        return None, Failure(B2(Unauthenticated));
      }
      var request := backblaze.ApiPost("/b2api/v1/b2_get_upload_url", Json(map["bucketId" := JString(id)]));
      sent := Some(request);
      info := DecodeBody(Complete(response, MalformedResponse), decode, B2(MalformedResponse));
    }

    /**
     * `upload(data:at:contentType:sha1:)`: prepare, then POST the bytes to the
     * upload URL with the upload token, the percent-encoded path, the content
     * type (default `b2/x-auto`) and the SHA-1 (the caller's text verbatim, or
     * the lowercase hex digest of the data).
     */
    method Upload(data: Bytes, path: string, contentType: Option<string>, sha1: Option<string>,
                  platform: Platform,
                  prepareResponse: Response, decodeInfo: Bytes -> Option<PreparedUploadInfo>,
                  uploadResponse: Response, decodeUpload: Bytes -> Option<UploadFileResponse>)
      returns (sent: seq<Request>, result: Result<UploadFileResponse, Error>)
      ensures !backblaze.HasApiAccess() ==> sent == [] && result == Failure(B2(Unauthenticated))
      ensures backblaze.HasApiAccess() ==> 1 <= |sent| <= 2
      ensures backblaze.HasApiAccess() ==>
        && sent[0].verb == Post
        && sent[0].location == Location(backblaze.apiUrl.value, Some("/b2api/v1/b2_get_upload_url"), None)
        && sent[0].headers == map["Authorization" := backblaze.authorizationToken.value]
        && sent[0].body == Json(map["bucketId" := JString(id)])
        && sent[0].sessionHeaders == map[]
      ensures backblaze.HasApiAccess() ==>
        var info := DecodeBody(Complete(prepareResponse, MalformedResponse), decodeInfo, B2(MalformedResponse));
        && (info.Failure? ==> |sent| == 1 && result == Failure(info.error))
        && (info.Success? && (platform.percentEncode(path).None? || platform.parseUrl(info.value.url).None?) ==>
              |sent| == 1 && result == Failure(B2(UrlEncodingFailed)))
        && (info.Success? && platform.percentEncode(path).Some? && platform.parseUrl(info.value.url).Some? ==>
              && |sent| == 2
              && sent[1].verb == Post
              && sent[1].location == Location(platform.parseUrl(info.value.url).value, None, None)
              && sent[1].headers == map[
                   "Authorization" := info.value.authToken,
                   "X-Bz-File-Name" := platform.percentEncode(path).value,
                   "Content-Type" := contentType.GetOr(AutoContentType),
                   "X-Bz-Content-Sha1" := if sha1.Some? then sha1.value else Digests.Sha1Hex(data, platform.sha1)]
              && sent[1].body == Data(data) && sent[1].sessionHeaders == map[]
              && result == DecodeBody(Complete(uploadResponse, UploadFailed), decodeUpload, DecodingFailed))
    {
      var prepared, info := PrepareUpload(prepareResponse, decodeInfo);
      if prepared.None? {
        return [], Failure(B2(Unauthenticated));
      }
      sent := [prepared.value];
      if info.Failure? {
        return sent, Failure(info.error);
      }
      var encodedFilename := platform.percentEncode(path);
      if encodedFilename.None? {
        return sent, Failure(B2(UrlEncodingFailed));
      }
      var url := platform.parseUrl(info.value.url);
      if url.None? {
        return sent, Failure(B2(UrlEncodingFailed));
      }
      var request := NewRequest(Location(url.value, None, None));
      request := request.(verb := Post);
      request := request.AddValue(info.value.authToken, "Authorization");
      request := request.AddValue(encodedFilename.value, "X-Bz-File-Name");
      var resolvedContentType := contentType.GetOr(AutoContentType);
      request := request.AddValue(resolvedContentType, "Content-Type");
      var resolvedSha1 := if sha1.Some? then sha1.value else Digests.Sha1Hex(data, platform.sha1);
      request := request.AddValue(resolvedSha1, "X-Bz-Content-Sha1");
      request := request.(body := Data(data));
      sent := sent + [request];
      result := DecodeBody(Complete(uploadResponse, UploadFailed), decodeUpload, DecodingFailed);
    }

    /**
     * `setType(bucketType:)`: throws Unauthenticated without an API URL and a
     * token; otherwise fires b2_update_bucket and discards the reply. The
     * bucket's own `bucketType` is not touched (the method modifies nothing).
     */
    method SetType(newType: BucketType) returns (sent: Result<Request, Error>)
      ensures !backblaze.HasApiAccess() ==> sent == Failure(B2(Unauthenticated))
      ensures backblaze.HasApiAccess() ==> sent == Success(Request(
        Post,
        Location(backblaze.apiUrl.value, Some("/b2api/v1/b2_update_bucket"), None),
        map["Authorization" := backblaze.authorizationToken.value],
        Json(map[
          "bucketId" := JString(id),
          "bucketType" := JString(RawValue(newType)),
          "accountId" := JString(backblaze.accountId)]),
        map[]))
    {
      if backblaze.apiUrl.None? || backblaze.authorizationToken.None? {
        return Failure(B2(Unauthenticated));
      }
      var request := backblaze.ApiPost("/b2api/v1/b2_update_bucket", Json(map[
        "bucketId" := JString(id),
        "bucketType" := JString(RawValue(newType)),
        "accountId" := JString(backblaze.accountId)]));
      sent := Success(request);
    }

    /**
     * `listFileNames(startFileName:maxFileCount:prefix:delimeter:)`: the body
     * holds only the parameters given.
     */
    method ListFileNames(startFileName: Option<string>, maxFileCount: Option<int>,
                         prefix: Option<string>, delimeter: Option<string>,
                         response: Response, decode: Bytes -> Option<seq<ListFileNamesResponse>>)
      returns (sent: Option<Request>, result: Result<seq<ListFileNamesResponse>, Error>)
      ensures !backblaze.HasApiAccess() ==> sent.None? && result == Failure(B2(Unauthenticated))
      ensures backblaze.HasApiAccess() ==> sent == Some(Request(
        Post,
        Location(backblaze.apiUrl.value, Some("/b2api/v1/b2_list_file_names"), None),
        map["Authorization" := backblaze.authorizationToken.value],
        Json(EncodeListFileNamesRequest(ListFileNamesRequest(startFileName, maxFileCount, prefix, delimeter))),
        map[]))
      ensures backblaze.HasApiAccess() ==>
        result == DecodeBody(Complete(response, MalformedResponse), decode, DecodingFailed)
    {
      if backblaze.apiUrl.None? || backblaze.authorizationToken.None? {
        return None, Failure(B2(Unauthenticated));
      }
      var body := EncodeListFileNamesRequest(ListFileNamesRequest(startFileName, maxFileCount, prefix, delimeter));
      var request := backblaze.ApiPost("/b2api/v1/b2_list_file_names", Json(body));
      sent := Some(request);
      result := DecodeBody(Complete(response, MalformedResponse), decode, DecodingFailed);
    }
  }
}
