# Tender dashboard: document ingestion model

This project models the document-ingestion core of a tender-management dashboard:

- the HTTP server's five document handlers over the `documents` table: upload a record, list a tenant's documents, get one, patch one, and soft-delete one;
- the client-side `uploadDocument` service. It writes the file to the `documents` storage bucket under `<tenant>/<fileId>.<ext>` and then inserts the row. When the insert fails it removes the object again (the compensating remove);
- the assistant panel. It generates a version-4 UUID as the demo tenant id, uploads a dropped file (storage object first, then the record request) and keeps a chat log.

The database and the object store become two classes, `Table.DocumentTable` and `Storage.Bucket`, whose methods update their state in place. Each records the requests it receives in ghost logs (the table its inserts and its updates, the bucket its uploads and removes), so a contract can say which calls were made. Clocks (`Date.now`), randomness (`Math.random`, `crypto.randomUUID`), database-generated ids and creation timestamps are parameters. Backend failures are boolean parameters.

Modules:

- `Wrappers`: `Option`, `Result`.
- `Documents`: the row shape, a picked file, and JavaScript truthiness of an optional string.
- `Strings`: the first-occurrence search used by the path parsers.
- `Table`: the table class, lookup by id, and update-by-id.
- `Storage`: the bucket class, with no-overwrite upload and remove.
- `Server`: the handlers, the server storage path, and list filtering and ordering.
- `DocumentService`: `uploadDocument`, its storage path and the file extension.
- `AgentSpace`: `generateTenantId`, `onDrop` and `handleSendMessage`.

Behaviour worth noting:

- `GET /documents/:id` filters on `is_deleted = false` (supabase/functions/server/index.tsx:123), so a soft-deleted document answers 404.
- Only upload and list check `tenant_id`. Get, patch and delete filter on the id alone, and patch has no status-transition guard.

## Model

| member | source | states |
|---|---|---|
| Table.Find | supabase/functions/server/index.tsx:122 | the index found holds the id and no earlier row does; none is found exactly when no row has the id |
| Table.Apply | supabase/functions/server/index.tsx:145-153 | an update sets each given column (metadata wholesale) and leaves every other column of the row as it was |
| Table.UpdateRows | supabase/functions/server/index.tsx:151-154 | updating by id keeps the table's length and every other row, and changes only the matching row |
| Table.DocumentTable.Insert | supabase/functions/server/index.tsx:50-66 | an insert appends exactly the given row; a backend failure or an id already in use leaves the table unchanged; ids stay unique |
| Table.DocumentTable.Update | supabase/functions/server/index.tsx:151-156 | `.update().eq("id").single()` answers the updated row when the id exists, and otherwise fails with the table unchanged; every update request is logged |
| Storage.Bucket.Upload | src/lib/documentService.ts:33-38 | with `upsert: false`, an upload to an existing path fails and the bucket keeps its old object; otherwise the object is added |
| Storage.Bucket.Remove | src/lib/documentService.ts:65 | a successful remove deletes exactly the listed paths; a failed one changes nothing |
| Server.DecimalString | supabase/functions/server/index.tsx:45-46 | a timestamp prints as a non-empty run of decimal digits without a leading zero |
| Server.DecimalRoundTrip | supabase/functions/server/index.tsx:46 | the printed timestamp reads back as the same number |
| Server.UploadPath | supabase/functions/server/index.tsx:45-46 | every upload path starts with `documents/<tenant_id>/`, for any tenant id |
| Server.UploadPathRoundTrip | supabase/functions/server/index.tsx:45-46 | when the tenant id holds no `/`, tenant, timestamp and file name read back from the path (with a `/` they do not: `a/5_c` with `b` at 1 and `a` with `c/1_b` at 5 give the same path) |
| Server.VisibleTo | supabase/functions/server/index.tsx:96-98 | exactly the rows of the tenant that are not soft-deleted are kept, each as often as in the table |
| Server.SortNewestFirst | supabase/functions/server/index.tsx:99 | the result is ordered by `created_at` descending and is a permutation of the input |
| Server.RequestedChanges | supabase/functions/server/index.tsx:145-148 | a patch never asks to change `is_deleted`; it sets `status` and `updated_by` exactly when the request's value is truthy, and never to an empty string |
| Server.PatchOnlyGivenFields | supabase/functions/server/index.tsx:143-148 | a patch changes only `status`, `metadata` and `updated_by`, each only when it is truthy (metadata whenever it is given) |
| Server.MetadataReplacedWholesale | supabase/functions/server/index.tsx:147 | two metadata patches in a row leave exactly the second map, with no merge |
| Server.MarkDeleted | supabase/functions/server/index.tsx:181 | a soft delete keeps the table's length and every column but `is_deleted`, and sets the flag on the matching row only |
| Server.DeleteIdempotent | supabase/functions/server/index.tsx:179-184 | after a soft delete the row is still found by id, and deleting again changes nothing |
| Server.DeleteHides | supabase/functions/server/index.tsx:181 | soft delete flips only the matching row's flag; that row leaves every listing and get, and every other visible row stays visible |
| Server.UploadDocument | supabase/functions/server/index.tsx:35-82 | 400 exactly when filename or tenant_id is missing or empty; 500 on insert failure with the table unchanged; otherwise one row is appended and returned, with status pending, empty metadata, not deleted, created_by = uploaded_by, language as given or `en`, and the derived storage path |
| Server.ListDocuments | supabase/functions/server/index.tsx:85-111 | 400 without tenant_id; 500 on query failure; otherwise exactly the tenant's rows that are not deleted, newest first |
| Server.GetDocument | supabase/functions/server/index.tsx:114-136 | 200 with the row exactly when a row with the id exists and is not soft-deleted; otherwise 404 |
| Server.PatchDocument | supabase/functions/server/index.tsx:139-171 | exactly one update request, with the truthy fields, is sent; a patch updates only the matching row with the requested changes and returns it; a missing id or a failure gives 500 with the table unchanged |
| Server.DeleteDocument | supabase/functions/server/index.tsx:174-199 | exactly one update request, setting `is_deleted`, is sent; a delete marks the matching row deleted and changes nothing else; repeating it succeeds; a missing id gives 500 |
| DocumentService.SplitDots | src/lib/documentService.ts:29 | `split('.')` gives at least one part, and no part contains a dot; there is one part exactly when the name has no dot |
| DocumentService.SplitJoin | src/lib/documentService.ts:29 | joining the parts with dots gives the name back |
| DocumentService.Extension | src/lib/documentService.ts:29 | the extension never contains a dot |
| DocumentService.ExtensionAfterLastDot | src/lib/documentService.ts:29 | the extension is the dot-free text after the last dot; a name without a dot is its own extension; the extension is empty exactly when the name is empty or ends with a dot |
| DocumentService.StoragePath | src/lib/documentService.ts:30 | the path lies under the tenant's folder `<tenant>/` |
| DocumentService.StoragePathRoundTrip | src/lib/documentService.ts:28-30 | when the tenant id holds no `/` and the file id no `.`, the tenant, the file id (which is also the record id) and the extension read back from `<tenant>/<fileId>.<ext>` |
| DocumentService.NewRecord | src/lib/documentService.ts:45-55 | the new record is pending, with empty metadata and not deleted; under the same conditions its storage path reads back as its own tenant, id and extension |
| DocumentService.UploadDocument | src/lib/documentService.ts:24-70 | the upload comes first and never overwrites. If it fails, nothing is inserted. If the insert fails, exactly one remove of the path follows and, when it succeeds, the bucket is as before. On success one object and one row are added, and the row (id = fileId, status pending, empty metadata, not deleted) is returned |
| AgentSpace.HexDigit | src/app/components/AIAgentSpace.tsx:12 | `v.toString(16)`: 0..9 print as `0`..`9` and 10..15 as `a`..`f` |
| AgentSpace.VariantNibble | src/app/components/AIAgentSpace.tsx:11 | masking r with 0x3 and setting 0x8 gives a value in 8..11 that keeps the low two bits of r |
| AgentSpace.Fill | src/app/components/AIAgentSpace.tsx:9-13 | the replacement keeps the template's length |
| AgentSpace.FillAt | src/app/components/AIAgentSpace.tsx:9-13 | each `x` becomes the hex digit of the draw it consumes, in left-to-right order; each `y` becomes that draw's variant digit; every other character is kept |
| AgentSpace.TemplateDraws | src/app/components/AIAgentSpace.tsx:9 | the template makes 31 random draws |
| AgentSpace.GenerateTenantId | src/app/components/AIAgentSpace.tsx:8-14 | the id is as long as the template (its full layout is TenantIdLayout) |
| AgentSpace.FillShape | src/app/components/AIAgentSpace.tsx:9-12 | filling keeps the non-`x`/`y` characters, turns every `x` into a hex digit and every `y` into 8, 9, a or b |
| AgentSpace.TenantIdLayout | src/app/components/AIAgentSpace.tsx:8-14 | the id has length 36, dashes at 8, 13, 18 and 23, `4` at 14, one of 8/9/a/b at 19, lowercase hex elsewhere, and no `/` |
| AgentSpace.TrimStart | src/app/components/AIAgentSpace.tsx:86 | the result is the suffix of the input left after dropping leading white space |
| AgentSpace.TrimEnd | src/app/components/AIAgentSpace.tsx:86 | the result is the prefix of the input left after dropping trailing white space |
| AgentSpace.Trim | src/app/components/AIAgentSpace.tsx:86 | trimming never lengthens the input, and a non-empty result starts and ends with a non-white-space character |
| AgentSpace.BlankIffAllWhitespace | src/app/components/AIAgentSpace.tsx:86 | an input trims to nothing exactly when all its characters are white space |
| AgentSpace.ErrorText | utils/supabase/client.tsx:54-57 | a failed upload always yields a non-empty error text |
| AgentSpace.AgentPanel.constructor | src/app/components/AIAgentSpace.tsx:16-26 | the panel starts with the generated tenant id, no file, no error, not processing, and the greeting alone in the chat |
| AgentSpace.AgentPanel.OnDrop | src/app/components/AIAgentSpace.tsx:28-72 | storage upload first, and the record request only after it succeeds. The chat grows by exactly two messages, user then assistant. The outcome decides the messages, the error and the document. The record's path names the stored object only when the two clocks agree |
| AgentSpace.AgentPanel.SendMessage | src/app/components/AIAgentSpace.tsx:84-89 | a blank input changes nothing; otherwise exactly one user message is appended and the input is cleared |

## Left out

- The health endpoint (supabase/functions/server/index.tsx:30-32), the logger and CORS setup, client creation and `Deno.serve`. These are transport plumbing with no document logic.
- The catch-all `500 Internal server error` answers for bodies that are not JSON or for thrown exceptions. The model takes requests already parsed.
- The `details` field of error bodies, which carries the database's own message.
- `updated_at`, which no handler writes.
- `created_at` is a parameter stamped by the database. Rows with equal `created_at` come back in an order the database does not fix. The model returns one such order and promises only descending order and the same rows.
- JSON values are abstracted. Metadata values are strings. `status`, `updated_by`, `filename` and `tenant_id` are strings or absent, so the truthiness of numbers or booleans in those fields is not modelled. `metadata` counts as given whenever it is present, as any JSON object is truthy.
- A patch with no truthy field is modelled as an update that leaves the row as it is and returns it. How the hosted database answers an empty update is not part of this model.
- `.single()` failing because several rows match cannot happen here: the table keeps ids unique.
- Storage error messages are reduced to their kind (`AlreadyExists`, `StorageUnavailable`). The `contentType` and `cacheControl` upload options are not stored.
- The client SDK functions other than the upload's `response.ok` check and its error text (utils/supabase/client.tsx:54-57) are not modelled, since they are `fetch` wrappers. The same holds for `getFileUrl` and `downloadFile`.
- `Math.random() * 16 | 0` is taken as its result, a nibble in 0..15.
- The tenant id is generated once per page load, at module level. The model generates it once, in the panel's constructor.
- The simulated assistant reply after 1.5 s in `handleSendMessage` (src/app/components/AIAgentSpace.tsx:91-94) is timing. The canned wording of the greeting, the analysis and the apology is reduced to the `Reply` tags.
- The JSX, the animations and the dropzone configuration are left out. `OnDrop` receives the list of accepted files directly.
- `isProcessing` is true only while the upload is in flight. The model runs `OnDrop` as one step, so only the final `false` is observable.
- Concurrent drops and interleaved React state updates are left out. Each method runs to completion.
- AgentSpace.AgentPanel.OnDrop: the error text stored on a storage failure is reduced to the storage error's kind, not the service's message string.
