/** The values that pass between the store, its front ends and its clients. */
module Records {
  import opened StreamingHash
  import opened Paths

  datatype Option<+T> = None | Some(value: T)
  datatype Result<+T, +E> = Ok(value: T) | Err(error: E)

  type Id = string
  type u64 = n: int | 0 <= n < WORD64

  /** `layout` is where the storage directory is; the rest are the store's settings. */
  datatype Config = Config(hash: Hashing, maxFileSize: u64, uploadTtl: nat, layout: Layout)

  /** The buffer in which `finalize` re-reads a file. */
  const READ_BUFFER: nat := 64 * 1024

  datatype MetaRecord = MetaRecord(
    fileId: Id, fileName: string, contentType: string,
    sizeBytes: nat, checksum: string, uploadedAt: string, finalized: bool)

  datatype FileMetadata = FileMetadata(
    fileId: Id, fileName: string, contentType: string,
    sizeBytes: nat, checksum: string, uploadedAt: string)

  datatype NameFault = EmptyName | PathTraversal(name: string)

  datatype StorageError =
    | NotFound(id: Id)
    | Io
    | TooLarge(size: nat, limit: nat)
    | InvalidFileName(why: NameFault)

  datatype InFlight = InFlight(hasher: Hasher, createdAt: nat)

  /** What `create` writes. */
  function InitialRecord(id: Id, name: string, contentType: string): MetaRecord {
    MetaRecord(id, name, contentType, 0, "", "", false)
  }

  /** What `finalize` writes for an upload whose content is `bytes`. */
  function FinalRecord(hash: Hashing, id: Id, name: string, contentType: string, bytes: Bytes, now: string): MetaRecord
  {
    MetaRecord(id, name, contentType, |bytes|, Digest(hash, bytes), now, true)
  }

  function Public(m: MetaRecord): FileMetadata {
    FileMetadata(m.fileId, m.fileName, m.contentType, m.sizeBytes, m.checksum, m.uploadedAt)
  }

  /** The size `append` reports when it refuses: the 64-bit sum, or the largest 64-bit number
      when the sum does not fit. */
  function RefusedSize(current: nat, added: nat): nat {
    if current + added < WORD64 then current + added else WORD64 - 1
  }
}
