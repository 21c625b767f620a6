# Upload form with file-metadata validation, in Dafny

This project models a small browser form. The form takes one document file and one image
file and checks each against a MIME-type allow-list and a 5 MiB size cap. It previews the
image through an object URL. On submit it hands both files on and resets itself.

- `wrappers.dfy` (module `Wrappers`) defines `Option` and `Result`.
- `schema.dfy` (module `Schema`) holds the two rule sets, document and image, as pure
  functions over a file's `mimeType` and `size`. `Issues` lists every failing check in
  the order the schema declares them: type, then size. `Validate` returns success or the
  first issue's message, which is what the form shows (`errors[0]`).
- `object_url.dfy` (module `ObjectUrl`) stands in for the browser's object-URL service.
  The n-th URL minted is `blob:` followed by n in decimal. It is proved never empty and
  never equal to an earlier one.
- `app.dfy` (module `App`) holds the form component as the class `UploadForm`.
  - The React state becomes fields: `docFile`, `imgFile`, `imgUrl` and the error map
    `error`.
  - Each handler becomes a method. State setters become assignments in program order.
  - The preview effect keyed on `imgFile` becomes the method `RunPreviewEffect`. It runs
    right after the image slot is assigned. The field `cleanup` holds the URL that the
    effect's cleanup closure will revoke.
  - The ghost sets `live` and `issued` track the object URLs that are not yet revoked
    and those ever minted.
- `scenarios.dfy` (module `Scenarios`) runs event sequences on a freshly mounted form.
  Each is proved from the handlers' contracts alone.

The error map is a `map<Field, string>`. The model represents `[field]: undefined` as an
absent key. The source keeps the key with the value `undefined`, but the form only ever
reads `!!error.x`, so nothing can tell the two apart. `!!error[field]` is "the key is
present with a non-empty message". The class invariant keeps every stored message
non-empty.

The missing-slot branch of the submit handler (src/App.tsx:61-66) runs only when the
handler is called directly. In the rendered form the button is disabled whenever a slot is
empty (src/App.tsx:132). `HandleSubmit` states this: when submit was enabled, it always
takes the success branch.

The MIME types are written as a family prefix plus a subtype. For example,
`ApplicationPrefix + "pdf"` is the string `application/pdf`. Written this way, the verifier
can see the `application/` and `image/` families.

An invalid selection does not clear its slot. The slot's setter runs only when validation
succeeds (src/App.tsx:46 and 54). So an invalid selection keeps the previously stored valid
file, as the code does, rather than leaving the slot empty. It still records the field's message, and that message
disables submit.

## Model

| member | source | states |
|---|---|---|
| Schema.Issues | src/utils/schema.ts:5-27 | the issue list is empty iff the type is allowed and the size is within the cap; it holds the type message iff the type is disallowed and the size message iff the size is over; "File is required" is never among them |
| Schema.Validate | src/utils/schema.ts:5-27 | accepts iff the type is in the rule set's allow-list and size <= cap; a rejection carries a non-empty message that is one of the file's issues |
| Schema.SizeLimitValue | src/utils/schema.ts:3 | the size cap is 5242880 bytes |
| Schema.DocumentAcceptance | src/utils/schema.ts:5-16 | a document is accepted iff its type is application/pdf, application/vnd.ms-excel or the word-processing document type, and its size is at most 5242880 |
| Schema.ImageAcceptance | src/utils/schema.ts:19-26 | an image is accepted iff its type is image/png, image/jpeg, image/jpg, image/svg+xml or image/gif, and its size is at most 5242880 |
| Schema.SizeBoundary | src/utils/schema.ts:15 | with an allowed type, 5242880 bytes is accepted and 5242881 bytes is rejected with the size message |
| Schema.TypeReportedFirst | src/utils/schema.ts:7-15 | a disallowed type is reported with the rule set's type message even when the size is over too; both issues are then listed, type first |
| Schema.OversizeMessage | src/utils/schema.ts:25 | an allowed type over the cap is rejected with "File size should not exceed 5MB" |
| Schema.NeverFileRequired | src/utils/schema.ts:17 | no file is ever rejected with "File is required" |
| Schema.DocumentTypesAreApplication | src/utils/schema.ts:8-12 | every document type begins with `application/` |
| Schema.ImageTypesAreImage | src/utils/schema.ts:22 | every image type begins with `image/` |
| Schema.AllowListsDisjoint | src/utils/schema.ts:5-27 | no MIME type is in both allow-lists, so no file passes both rule sets |
| Schema.Examples | src/utils/schema.ts:3-25 | a 10 MiB PDF is rejected with the size message; a 1 KiB PNG is accepted |
| ObjectUrl.Token | src/App.tsx:18 | a minted object URL is non-empty and starts with `blob:` |
| ObjectUrl.TokenInjective | src/App.tsx:18 | URLs minted at different counts differ |
| App.UploadForm.constructor | src/App.tsx:11-14 | the mounted form has both slots empty, imgUrl "", an empty error map and no live URL |
| App.UploadForm.AtMostOnePreview | src/App.tsx:16-23 | at most one object URL is live; imgUrl is live and non-empty exactly when an image is held |
| App.UploadForm.SubmitEnabledIff | src/App.tsx:131-133 | the predicate `SubmitDisabled` (with `Shows` for `!!error[field]`) transcribes the button's `disabled` expression; submit is enabled iff no field has a message (in the model's encoding, the error map has no keys) and both slots hold a file |
| App.UploadForm.ValidateFile | src/App.tsx:25-40 | returns whether the rules accept the file; on failure it sets the field to the first message, and on success it removes the field's message; the other field's entry is untouched |
| App.UploadForm.RunPreviewEffect | src/App.tsx:16-23 | the previous run's URL is revoked; a held image gets a freshly minted URL that becomes imgUrl and the only live URL; with no image nothing is live |
| App.UploadForm.HandleDocChange | src/App.tsx:42-48 | no file: nothing changes; valid: the slot takes the file and the field's message is cleared; invalid: the slot keeps its previous file, the field gets the message, and submit is disabled |
| App.UploadForm.HandleImgChange | src/App.tsx:50-56 | as for the document; a valid image also revokes the old preview URL and makes a fresh URL the only live one; invalid or empty selections leave the image, imgUrl and live URLs alone |
| App.UploadForm.HandleSubmit | src/App.tsx:58-74 | with a slot empty, the error map is replaced by a "required" message for exactly the empty slots and nothing else changes; with both held, exactly those two files are handed on and the form resets with no live URL; when submit was enabled, the success branch is always taken |
| Scenarios.OversizedPdf | src/App.tsx:42-48 | selecting a 10 MiB PDF leaves "File size should not exceed 5MB" on doc_upload and submit disabled |
| Scenarios.InvalidReselection | src/App.tsx:50-56 | after two valid files, an invalid image keeps the earlier image and preview but disables submit; a further valid image re-enables it with a new preview URL |
| Scenarios.SubmitEmpty | src/App.tsx:61-66 | submitting an empty form yields exactly the two "required" messages and submit stays disabled |
| Scenarios.SubmitBoth | src/App.tsx:69-73 | submitting two valid files hands on exactly those files and returns the form to its mounted state |

## Left out

- Rendering (JSX, CSS classes, labels, the `<img>` element) is UI output and is not modelled. Only the button's `disabled` expression is.
- React's hook machinery (batching, re-render scheduling) is not modelled. Setters are direct assignments, and the preview effect runs as one step right after the image slot is assigned. The brief moment when the old, already revoked URL is still in `imgUrl` before the effect runs is not represented.
- App.UploadForm.HandleImgChange: every valid selection counts as a change of `imgFile`, so the effect always re-runs. React compares by object identity, and each selection yields a new `File` object. Two equal metadata records are not treated as the same object.
- `URL.createObjectURL` and `URL.revokeObjectURL` are browser calls. They are modelled as a counter-based URL generator plus the ghost sets `live` and `issued`. Real blob-URL text (origin, UUID) is not modelled.
- The `console.log` on submit is output. `HandleSubmit` returns the pair of files it would log.
- The zod library's parser is not modelled. The schemas are restated as ordered checks on `mimeType` and `size`. The trailing `refine` always holds for a present file, so it adds no check.
- The `accept` attributes of the two inputs are advisory browser filters and are not modelled.
- File contents are not modelled. `name` is carried but never examined.
- Component unmount is not modelled. The cleanup that would revoke the last preview URL at unmount is therefore not represented.
