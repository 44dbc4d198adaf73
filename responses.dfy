/**
 * The decoded reply shapes of InterfaceStructures.swift and
 * ResponseStructures.swift. They carry no logic; dates are kept as the
 * milliseconds since 1970 that the decoders read them from.
 */
module Responses {
  import opened Wrappers

  /** Reply of b2_hide_file. */
  datatype HideFileResponse = HideFileResponse(
    fileId: string, fileName: string, action: string, uploadTimestamp: int)

  /** Reply of b2_upload_file. */
  datatype UploadFileResponse = UploadFileResponse(
    fileId: string, fileName: string, accountId: string, bucketId: string,
    contentSha1: string, contentType: string, action: string, uploadTimestamp: int)

  /** One file or folder entry of b2_list_file_names. */
  datatype FileEntry = FileEntry(
    accountId: string, action: string, bucketId: string, contentLength: int,
    contentSha1: Option<string>, contentMd5: Option<string>, contentType: Option<string>,
    fileId: Option<string>, fileName: string, uploadTimestamp: int)

  /** One page of b2_list_file_names, with the cursor for the next page. */
  datatype ListFileNamesResponse = ListFileNamesResponse(files: seq<FileEntry>, nextFileName: Option<string>)
}
