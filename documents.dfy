/**
 * The shape of one row of the `documents` table, shared by the HTTP server,
 * the client-side document service and the upload panel.
 */
module Documents {
  import opened Wrappers

  /** A byte of file content. */
  type Byte = bv8

  /** Free-form key/value metadata. JSON values are abstracted to strings. */
  type Metadata = map<string, string>

  /**
   * A document row. `createdAt` is the database's creation timestamp
   * (milliseconds); `language` is absent when the writer did not set it.
   */
  datatype Document = Document(
    id: string,
    tenantId: string,
    uploadedBy: Option<string>,
    createdBy: Option<string>,
    updatedBy: Option<string>,
    filename: string,
    storagePath: string,
    fileSize: Option<nat>,
    mimeType: Option<string>,
    language: Option<string>,
    status: string,
    metadata: Metadata,
    isDeleted: bool,
    createdAt: nat)

  /** A file picked by the user: its name, size, declared type and bytes. */
  datatype File = File(name: string, size: nat, mimeType: string, content: seq<Byte>)

  /** JavaScript truthiness of an optional string: absent and "" are falsy. */
  predicate Truthy(s: Option<string>) {
    s.Some? && s.value != ""
  }
}
