/**
 * The value-level part of Bucket.swift: the bucket type and its lenient
 * parser, the payload a bucket is built from, the upload-preparation reply,
 * the list-file-names request body and the `description` text.
 */
module Buckets {
  import opened Wrappers
  import opened Http

  /** `Bucket.BucketType`, a String-backed enumeration. */
  datatype BucketType = AllPublic | AllPrivate | Share | Snapshot

  function RawValue(t: BucketType): string {
    match t
    case AllPublic => "allPublic"
    case AllPrivate => "allPrivate"
    case Share => "share"
    case Snapshot => "snapshot"
  }

  /** The synthesized `init?(rawValue:)`: the case spelled `s`, if there is one. */
  function Parse(s: string): (r: Option<BucketType>)
    ensures r.Some? ==> RawValue(r.value) == s
    ensures r.None? ==> forall t :: RawValue(t) != s
  {
    if s == "allPublic" then Some(AllPublic)
    else if s == "allPrivate" then Some(AllPrivate)
    else if s == "share" then Some(Share)
    else if s == "snapshot" then Some(Snapshot)
    else None
  }

  /** `BucketType.interpret(type:)`: the parsed case, or `allPublic` for anything unrecognised. */
  function Interpret(s: string): (t: BucketType)
    ensures Parse(s).Some? ==> t == Parse(s).value
    ensures Parse(s).None? ==> t == AllPublic
  {
    match Parse(s)
    case Some(t) => t
    case None => AllPublic
  }

  /** Printing a type and interpreting the text gives the type back. */
  lemma InterpretRawValue(t: BucketType)
    ensures Parse(RawValue(t)) == Some(t)
    ensures Interpret(RawValue(t)) == t
  {
    match t
    case AllPublic =>
    case AllPrivate =>
    case Share =>
    case Snapshot =>
  }

  /**
   * Interpretation yields `t` exactly for `t`'s raw value, and, when `t` is
   * `allPublic`, for every string that is no raw value at all.
   */
  lemma InterpretExact(s: string, t: BucketType)
    ensures Interpret(s) == t
        <==> s == RawValue(t) || (t == AllPublic && forall u: BucketType :: s != RawValue(u))
  {
    InterpretRawValue(t);
    if Parse(s).Some? {
      InterpretRawValue(Parse(s).value);
    } else {
      forall u: BucketType ensures s != RawValue(u) {
        InterpretRawValue(u);
      }
    }
  }

  /** `Bucket.CreatePayload`: one bucket as b2_create_bucket and b2_list_buckets return it. */
  datatype CreatePayload = CreatePayload(bucketId: string, bucketName: string, bucketType: BucketType)

  /** `PreparedUploadInfo`: the one-shot upload URL and its token (b2_get_upload_url). */
  datatype PreparedUploadInfo = PreparedUploadInfo(url: string, authToken: string)

  /** `BackblazeContentTypes.auto`: lets the service pick the content type. */
  const AutoContentType: string := "b2/x-auto"

  /** `ListFileNamesRequest`; the field name `delimeter` is the source's spelling. */
  datatype ListFileNamesRequest = ListFileNamesRequest(
    startFileName: Option<string>, maxFileCount: Option<int>, prefix: Option<string>, delimeter: Option<string>)

  /**
   * The JSON object the synthesized `Encodable` conformance writes: a key for
   * each field that is present, none for a field that is nil.
   */
  function EncodeListFileNamesRequest(r: ListFileNamesRequest): (m: map<string, JsonValue>)
    ensures m.Keys <= {"startFileName", "maxFileCount", "prefix", "delimeter"}
    ensures "startFileName" in m <==> r.startFileName.Some?
    ensures "maxFileCount" in m <==> r.maxFileCount.Some?
    ensures "prefix" in m <==> r.prefix.Some?
    ensures "delimeter" in m <==> r.delimeter.Some?
    ensures r.startFileName.Some? ==> m["startFileName"] == JString(r.startFileName.value)
    ensures r.maxFileCount.Some? ==> m["maxFileCount"] == JInt(r.maxFileCount.value)
    ensures r.prefix.Some? ==> m["prefix"] == JString(r.prefix.value)
    ensures r.delimeter.Some? ==> m["delimeter"] == JString(r.delimeter.value)
  {
    var m0: map<string, JsonValue> := map[];
    var m1 := if r.startFileName.Some? then m0["startFileName" := JString(r.startFileName.value)] else m0;
    var m2 := if r.maxFileCount.Some? then m1["maxFileCount" := JInt(r.maxFileCount.value)] else m1;
    var m3 := if r.prefix.Some? then m2["prefix" := JString(r.prefix.value)] else m2;
    if r.delimeter.Some? then m3["delimeter" := JString(r.delimeter.value)] else m3
  }

  /** `Bucket.description`: `"<name>(id: <id>, type: <raw type>)"`. */
  function Describe(name: string, id: string, t: BucketType): (s: string)
    ensures |s| == |name| + |id| + |RawValue(t)| + 14
    ensures s[..|name|] == name && s[|name|..|name| + 5] == "(id: "
    ensures s[|name| + 5..|name| + 5 + |id|] == id
    ensures s[|name| + 5 + |id|..|name| + 13 + |id|] == ", type: "
    ensures s[|name| + 13 + |id|..|s| - 1] == RawValue(t) && s[|s| - 1] == ')'
  {
    name + "(id: " + id + ", type: " + RawValue(t) + ")"
  }

  predicate EndsWith(s: string, suffix: string) {
    |suffix| <= |s| && s[|s| - |suffix|..] == suffix
  }

  /** Reads the bucket type back from the end of a description. */
  function TypeOfDescription(s: string): Option<BucketType> {
    if EndsWith(s, ": " + RawValue(AllPublic) + ")") then Some(AllPublic)
    else if EndsWith(s, ": " + RawValue(AllPrivate) + ")") then Some(AllPrivate)
    else if EndsWith(s, ": " + RawValue(Share) + ")") then Some(Share)
    else if EndsWith(s, ": " + RawValue(Snapshot) + ")") then Some(Snapshot)
    else None
  }

  /** The endings `": <raw>)"` of two different types: neither ends the other. */
  lemma TypeEndingsDiffer(t: BucketType, u: BucketType)
    requires t != u
    ensures !EndsWith(": " + RawValue(t) + ")", ": " + RawValue(u) + ")")
  {
    var tail, other := ": " + RawValue(t) + ")", ": " + RawValue(u) + ")";
    if |other| <= |tail| {
      match t
      case AllPublic => assert tail[|tail| - 3] == 'i';
      case AllPrivate => assert tail[|tail| - 3] == 't';
      case Share =>
      case Snapshot => assert tail[|tail| - 3] == 'o';
    }
  }

  /** A text ending in `tail` does not end in `other` when neither of the two ends the other. */
  lemma EndsWithNeither(prefix: string, tail: string, other: string)
    requires !EndsWith(tail, other) && !EndsWith(other, tail)
    ensures !EndsWith(prefix + tail, other)
  {
    var s := prefix + tail;
    if |other| <= |tail| {
      assert tail[|tail| - |other|..] == s[|s| - |other|..];
    } else if |other| <= |s| {
      assert s[|s| - |other|..][|other| - |tail|..] == tail;
    }
  }

  /** The description names the bucket first and shows its type recoverably, whatever the name and id. */
  lemma DescriptionShowsType(name: string, id: string, t: BucketType)
    ensures TypeOfDescription(Describe(name, id, t)) == Some(t)
  {
    var s := Describe(name, id, t);
    var prefix, tail := name + "(id: " + id + ", type", ": " + RawValue(t) + ")";
    assert s == prefix + tail;
    assert EndsWith(s, tail);
    forall u: BucketType | u != t
      ensures !EndsWith(s, ": " + RawValue(u) + ")")
    {
      TypeEndingsDiffer(t, u);
      TypeEndingsDiffer(u, t);
      EndsWithNeither(prefix, tail, ": " + RawValue(u) + ")");
    }
  }
}
