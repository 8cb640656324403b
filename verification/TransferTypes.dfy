/** Values and error codes shared by the transfer modules. */
module TransferTypes {
  type byte = x: int | 0 <= x < 256
  type u64 = x: int | 0 <= x < 0x1_0000_0000_0000_0000

  datatype ErrorCode =
    | InvalidPayload
    | UnexpectedPacket
    | UnsafePath
    | InvalidResumeState
    | InvalidResumeOffset
    | FileOpenFailed
    | FileWriteFailed
    | SizeMismatch
    | ChecksumMismatch
    | Cancelled
    | NetworkFailure
    | InternalError

  datatype FileInfo = FileInfo(relativePath: string, size: u64, sha256: string)

  datatype TransferManifest = TransferManifest(fileCount: u64, totalBytes: u64, directoryCount: u64)

  /** transfer_state.json: one record per (path, size, sha256) identity. */
  datatype ResumeRecord = ResumeRecord(relativePath: string, size: u64, sha256: string, offset: u64)
}
