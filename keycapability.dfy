/**
 * KeyCapability.swift: a String-backed enumeration whose raw value is each
 * case's own name. Its only parser is the synthesized `init?(rawValue:)`,
 * which has no fallback case.
 */
module KeyCapability {
  import opened Wrappers

  datatype KeyCapability =
    | ListKeys | WriteKeys | DeleteKeys
    | ListBuckets | WriteBuckets | DeleteBuckets
    | ListFiles | ReadFiles | ShareFiles | WriteFiles | DeleteFiles

  /** Every case, in declaration order. */
  const AllCapabilities: seq<KeyCapability> := [
    ListKeys, WriteKeys, DeleteKeys,
    ListBuckets, WriteBuckets, DeleteBuckets,
    ListFiles, ReadFiles, ShareFiles, WriteFiles, DeleteFiles
  ]

  /** `rawValue`: the case name, as Swift spells it. */
  function RawValue(c: KeyCapability): string {
    match c
    case ListKeys => "listKeys"
    case WriteKeys => "writeKeys"
    case DeleteKeys => "deleteKeys"
    case ListBuckets => "listBuckets"
    case WriteBuckets => "writeBuckets"
    case DeleteBuckets => "deleteBuckets"
    case ListFiles => "listFiles"
    case ReadFiles => "readFiles"
    case ShareFiles => "shareFiles"
    case WriteFiles => "writeFiles"
    case DeleteFiles => "deleteFiles"
  }

  /** `init?(rawValue:)`: the case whose raw value is `s`, and None for any other string. */
  function Parse(s: string): (r: Option<KeyCapability>)
    ensures r.Some? ==> RawValue(r.value) == s
    ensures r.None? ==> forall c :: RawValue(c) != s
  {
    if s == "listKeys" then Some(ListKeys)
    else if s == "writeKeys" then Some(WriteKeys)
    else if s == "deleteKeys" then Some(DeleteKeys)
    else if s == "listBuckets" then Some(ListBuckets)
    else if s == "writeBuckets" then Some(WriteBuckets)
    else if s == "deleteBuckets" then Some(DeleteBuckets)
    else if s == "listFiles" then Some(ListFiles)
    else if s == "readFiles" then Some(ReadFiles)
    else if s == "shareFiles" then Some(ShareFiles)
    else if s == "writeFiles" then Some(WriteFiles)
    else if s == "deleteFiles" then Some(DeleteFiles)
    else None
  }

  /** There are exactly eleven cases, listed once each. */
  lemma ElevenCases(c: KeyCapability)
    ensures |AllCapabilities| == 11
    ensures c in AllCapabilities
    ensures forall i, j | 0 <= i < j < |AllCapabilities| :: AllCapabilities[i] != AllCapabilities[j]
  {
  }

  /** Printing then parsing gives the case back. */
  lemma ParseRawValue(c: KeyCapability)
    ensures Parse(RawValue(c)) == Some(c)
  {
    match c
    case ListKeys =>
    case WriteKeys =>
    case DeleteKeys =>
    case ListBuckets =>
    case WriteBuckets =>
    case DeleteBuckets =>
    case ListFiles =>
    case ReadFiles =>
    case ShareFiles =>
    case WriteFiles =>
    case DeleteFiles =>
  }

  /** Parsing succeeds exactly on raw values, and then yields the case printed. */
  lemma ParseExact(s: string, c: KeyCapability)
    ensures Parse(s) == Some(c) <==> s == RawValue(c)
  {
    ParseRawValue(c);
  }

  /** No two cases share a raw value. */
  lemma RawValuesDistinct(c: KeyCapability, d: KeyCapability)
    requires RawValue(c) == RawValue(d)
    ensures c == d
  {
    ParseRawValue(c);
    ParseRawValue(d);
  }

  /** An unrecognised string has no capability: unlike the bucket type, there is no default. */
  lemma ParseUnknown(s: string)
    ensures Parse(s).None? <==> forall c: KeyCapability :: s != RawValue(c)
  {
    if Parse(s).Some? {
      ParseExact(s, Parse(s).value);
    } else {
      forall c: KeyCapability ensures s != RawValue(c) {
        ParseRawValue(c);
      }
    }
  }
}
