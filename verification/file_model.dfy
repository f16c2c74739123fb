/** A row of the `file` table: one encrypted upload waiting for its recipient. */
module FileModel {

  datatype FileStatus = Active | Expired

  /** `createdAt` is in milliseconds since the epoch. */
  datatype FileRecord = FileRecord(
    id: string,
    name: string,
    size: string,
    key: string,
    status: FileStatus,
    recipientEmail: string,
    senderEmail: string,
    createdAt: int)
}
