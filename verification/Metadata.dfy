/** The rows of the metadata tables. */
module Metadata {
  import opened ByteStrings

  datatype Object = Object(
    bucket: ByteString,
    key: ByteString,
    size: int,
    contentType: ByteString,
    etag: ByteString,
    sha256: ByteString,
    lastModified: int,
    chunkCount: int,
    telegramType: ByteString,
    uploadStrategy: ByteString)

  datatype Chunk = Chunk(
    bucket: ByteString,
    key: ByteString,
    partNumber: int,
    offset: int,
    size: int,
    telegramType: ByteString,
    telegramFileID: int,
    telegramMessageID: int,
    telegramFileUniqueID: ByteString,
    sha256: ByteString)
}
