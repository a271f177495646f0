# Service-giver admin form: the form-to-wire pipeline

This project models the client-side logic of the service-giver admin
front-end. That logic decides what the create/edit form sends to the
back-end and how the list view resolves profile-photo URLs. The model covers:

- the multipart body built in `onSubmit`. Every property of the form
  data becomes zero or more text parts. `background_check` becomes `"1"`/`"0"`,
  and an array field `k` becomes repeated `k[]` parts. The selected profile
  photo and documents follow as file parts, under `profile_photo` and
  `documents[i]`;
- the two attachment selection handlers: one photo of at most 2 MiB, and
  documents of at most 5 MiB each, in the order chosen. Also the buttons that
  remove the photo or one document by position;
- the reset values of the edit form. Each of `hourly_rate`,
  `service_rating` and `years_of_experience` becomes `Number(x)` when x is
  truthy and `undefined` otherwise;
- the choice between update and create at submission, and the clearing of
  the selections after a successful submission outside edit mode;
- the list view's `photoUrl`: a fallback image, an `http…` value passed through,
  or the value joined to the API base URL.

Modules:

- `Js` (`js.dfy`) holds the JavaScript values the form handles and their
  truthiness and `String(...)` rendering.
- `FormRecord` (`form_record.dfy`) models a plain object as an ordered list of
  properties, with JavaScript lookup and assignment.
- `WireKeys` (`wire_keys.dfy`) gives the three shapes of part name (`k`,
  `k[]`, `k[i]`) and their text.
- `Multipart` (`multipart.dfy`) is the specification of the body and of
  `FormData.getAll`.
- `Attachments` (`attachments.dfy`) holds the selection filters.
- `EditPatch` (`edit_patch.dfy`) is the numeric reset patch.
- `ServiceGiverForm` (`service_giver_form.dfy`) is the component: a `Form`
  class holding the two selections as state. It has the handlers, and the
  builder as a method that appends entry by entry into a growing buffer and
  is proved equal to the `Multipart.Payload` specification.
- `ServiceGiversList` (`service_givers_list.dfy`) is the photo-URL
  expression.

A form record is `WellFormed` when its keys are distinct and contain no
bracket. `Object.entries` of an object always has distinct keys, and every
field name of the form's schema is bracket-free. The lemmas about the
payload assume this, and it is what makes a lookup by the written-out part
name (`GetAllByText`) agree with a lookup by structured key
(`Multipart.PayloadTextLookup`).

## Model

| member | source | states |
|---|---|---|
| FormRecord.Get | app/components/ServiceGiverForm.tsx:77-84 | property lookup finds the first property with that key; a missing key reads as undefined |
| FormRecord.GetProperty | app/components/ServiceGiverForm.tsx:97 | in an object with distinct keys, each entry of `Object.entries` is what a lookup of its key returns |
| FormRecord.Set | app/components/ServiceGiverForm.tsx:75-86 | assigning a property makes the key read the new value and leaves every other key's value alone; an existing key keeps its position and a new non-index key is added at the end |
| FormRecord.SetWellFormed | app/components/ServiceGiverForm.tsx:75-86 | assigning a bracket-free key keeps an object's keys distinct and bracket-free |
| EditPatch.PatchNumericFields | app/components/ServiceGiverForm.tsx:75-86 | the three numeric fields become `Number(x)` when truthy and undefined otherwise; every other property is unchanged; the original keys keep their order at the front, and the only keys added are numeric fields |
| EditPatch.PatchWellFormed | app/components/ServiceGiverForm.tsx:75-86 | the patched record is still a well-formed object |
| EditPatch.FalsyNumericBecomesUndefined | app/components/ServiceGiverForm.tsx:77-85 | 0, NaN, "", null and a missing value all become undefined, not `Number(0)` |
| WireKeys.NatToString | app/components/ServiceGiverForm.tsx:124 | the index text is a non-empty run of decimal digits with no leading zero |
| WireKeys.DecimalRoundTrip | app/components/ServiceGiverForm.tsx:124 | reading the index text back gives the index |
| WireKeys.KeyTextInjective | app/components/ServiceGiverForm.tsx:104-124 | for bracket-free names, `k`, `k[]` and `k[i]` never collide: equal texts mean equal keys |
| Multipart.FieldEntries | app/components/ServiceGiverForm.tsx:98-113 | a property contributes only text parts, only under `k` or `k[]`, and nothing when it is skipped |
| Multipart.TextEntries | app/components/ServiceGiverForm.tsx:97-115 | the field part of the body is text only and uses only the record's own keys, never an indexed name |
| Multipart.AttachmentEntries | app/components/ServiceGiverForm.tsx:117-126 | the attachment part holds only file parts: one for a selected photo, plus one per document |
| Multipart.GetAllByTextAgrees | app/components/ServiceGiverForm.tsx:104-124 | when all names are bracket-free, looking parts up by name text finds what looking up by key finds |
| Multipart.TextEntriesLookup | app/components/ServiceGiverForm.tsx:97-115 | in a well-formed record, the parts under `k` and `k[]` are exactly what the property k contributes |
| Multipart.FieldEntriesLookup | app/components/ServiceGiverForm.tsx:98-113 | what one property contributes under `k` and under `k[]`, case by case |
| Multipart.PayloadLookup | app/components/ServiceGiverForm.tsx:94-126 | in the whole body, the parts under a field's `k` and `k[]` come from that property alone |
| Multipart.PayloadNamesPlain | app/components/ServiceGiverForm.tsx:94-126 | every part name of the body of a well-formed record is bracket-free |
| Multipart.PayloadTextLookup | app/components/ServiceGiverForm.tsx:94-126 | `getAll` by the written-out name of any key returns exactly the parts under that key |
| Multipart.SkippedFieldNotSent | app/components/ServiceGiverForm.tsx:98-102 | an undefined, null or File property sends nothing under `k` or `k[]` |
| Multipart.AttachmentFieldsNotSentAsText | app/components/ServiceGiverForm.tsx:101-120 | whatever the record holds under `profile_photo`/`documents`, `profile_photo` carries only the selected photo and `documents`, `documents[]`, `profile_photo[]` carry nothing |
| Multipart.AttachmentKeyCarriesNoText | app/components/ServiceGiverForm.tsx:101 | the record's own `profile_photo`/`documents` values never produce a text part, under `k` or `k[]` |
| Multipart.AttachmentsUnderPlainKey | app/components/ServiceGiverForm.tsx:117-126 | under any non-indexed name the attachments hold only the selected photo, under `profile_photo` |
| Multipart.BackgroundCheckEncoding | app/components/ServiceGiverForm.tsx:104-106 | a present `background_check` sends exactly one part under its key, "1" if truthy and "0" otherwise, and nothing under `background_check[]` |
| Multipart.ArrayFieldEncoding | app/components/ServiceGiverForm.tsx:107-110 | an array field with n items sends exactly n `k[]` parts holding the items in order, and nothing under `k` |
| Multipart.ScalarFieldEncoding | app/components/ServiceGiverForm.tsx:111-113 | any other present property sends exactly one part under `k` holding `String(value)`, and nothing under `k[]` |
| Multipart.GetAllAt | app/components/ServiceGiverForm.tsx:123-125 | when only one position holds a key, `getAll` returns exactly that part |
| Multipart.DocumentEncoding | app/components/ServiceGiverForm.tsx:121-126 | `documents[i]` holds exactly the i-th selected document, and nothing when i is past the last one |
| Multipart.AttachmentsFollowFields | app/components/ServiceGiverForm.tsx:94-126 | text parts come first and file parts after them, and there are exactly as many file parts as selected attachments |
| Multipart.NoAttachmentsNoFiles | app/components/ServiceGiverForm.tsx:117-126 | with nothing selected the body holds only text parts: no `profile_photo` and no `documents[i]` |
| Attachments.SelectProfilePhoto | app/components/ServiceGiverForm.tsx:185-202 | the selection is the first chosen file when it is at most 2 MiB and empty otherwise (no file, or too large); never more than one photo |
| Attachments.AcceptDocuments | app/components/ServiceGiverForm.tsx:206-216 | an order-preserving subsequence of the chosen files that keeps every copy of each file of at most 5 MiB and none larger |
| Attachments.AcceptDocumentsUnique | app/components/ServiceGiverForm.tsx:206-216 | any order-preserving subsequence with those properties is exactly the accepted list |
| Attachments.RemoveAt | app/components/ServiceGiverForm.tsx:713-718 | drops exactly the element at idx, keeping the others in order; an out-of-range idx drops nothing |
| Attachments.RemoveAtKeepsAccepted | app/components/ServiceGiverForm.tsx:713-718 | removal adds no file, keeps every file within the limit, and shortens the list by one exactly when idx is in range |
| ServiceGiverForm.SubmitTarget | app/components/ServiceGiverForm.tsx:133 | an update is made exactly in edit mode with a truthy id, carrying that id; otherwise a create |
| ServiceGiverForm.Form.constructor | app/components/ServiceGiverForm.tsx:57-58 | both selections start empty |
| ServiceGiverForm.Form.OnProfilePhotoUpload | app/components/ServiceGiverForm.tsx:185-202 | the photo selection becomes the gated selection of the chosen files; the documents are untouched |
| ServiceGiverForm.Form.RemoveProfilePhoto | app/components/ServiceGiverForm.tsx:659 | clears the photo selection and leaves the documents |
| ServiceGiverForm.Form.OnDocumentsUpload | app/components/ServiceGiverForm.tsx:205-219 | the document selection is replaced by the accepted files; the photo is untouched |
| ServiceGiverForm.Form.RemoveDocument | app/components/ServiceGiverForm.tsx:713-718 | the document selection loses the idx-th entry; the selection stays within the limits |
| ServiceGiverForm.Form.FinishSubmission | app/components/ServiceGiverForm.tsx:168-173 | a successful submission outside edit mode clears both selections; a failure or any edit-mode submission keeps them |
| ServiceGiverForm.Form.BuildFormData | app/components/ServiceGiverForm.tsx:94-126 | the buffer built by the loops is exactly the specified body for the current selections; from a valid selection state every file it carries is at most 5 MiB and the `profile_photo` part at most 2 MiB |
| ServiceGiverForm.AppendField | app/components/ServiceGiverForm.tsx:97-115 | the callback appends exactly what the property contributes |
| ServiceGiverForm.AppendAttachments | app/components/ServiceGiverForm.tsx:117-126 | appends exactly the attachment parts |
| ServiceGiverForm.AttachmentFileOrigins | app/components/ServiceGiverForm.tsx:117-126 | every attachment part carries one of the selected files |
| ServiceGiverForm.PayloadFilesWithinLimits | app/components/ServiceGiverForm.tsx:117-126 | from selections within the limits, every file sent is at most 5 MiB and the `profile_photo` part at most 2 MiB |
| ServiceGiverForm.FalsyNumericFieldNotSent | app/components/ServiceGiverForm.tsx:75-113 | in edit mode, if the reset values are submitted unchanged and pass validation, a numeric field that was falsy in the record is not sent at all |
| ServiceGiverForm.TruthyNumericFieldSent | app/components/ServiceGiverForm.tsx:75-113 | in edit mode, if the reset values are submitted unchanged and pass validation, a truthy numeric field is sent once, as the text of `Number(x)` |
| ServiceGiversList.BaseUrl | app/components/ServiceGiversList.tsx:12 | the variable's value when set and non-empty, the empty string otherwise |
| ServiceGiversList.PhotoUrl | app/components/ServiceGiversList.tsx:13-17 | the fallback path for a null or empty photo, an `http…` value unchanged, otherwise base + "/" + value; never empty |
| ServiceGiversList.PhotoUrlEndsWithPhoto | app/components/ServiceGiversList.tsx:13-17 | a non-empty stored photo is always the tail of its URL |
| ServiceGiversList.HttpsPassesThrough | app/components/ServiceGiversList.tsx:14-15 | an `https…` value is returned unchanged, whatever the base |
| ServiceGiversList.UnsetBaseIsRootRelative | app/components/ServiceGiversList.tsx:12-16 | without a base URL every result is an `http…` URL or starts with "/", and a relative photo p becomes "/" + p |
| ServiceGiversList.PhotoUrlInjective | app/components/ServiceGiversList.tsx:12-17 | while the base does not start with "http", distinct non-empty photos resolve to distinct URLs (with an http base they can collide: see HttpBaseCollision) |
| ServiceGiversList.HttpBaseCollision | app/components/ServiceGiversList.tsx:12-16 | under the absolute base "http://h", the photos "http://h/a" and "a" resolve to the same URL, so injectivity fails for an http base |

## Left out

- The record normaliser in `app/(main)/edit-service/[id]/page.tsx` is not part of this model. It splits comma-separated strings and coerces `background_check` before the form receives a record.
- `Number(...)` string-to-float parsing and `String(number)` formatting are floating-point behaviour. They are parameters (`toNumber`, `numText`), so the model does not fix their results. Numbers are modelled with reals, so there is no `-0`.
- EditPatch.PatchNumericFields: the `if (initialData)` guard and the `reset(patchedData)` call are not modelled. The patch is modelled as a function of the record it is applied to.
- Network calls (`axios.post`, `updateServiceGiver`), toasts, `router.push`/`setTimeout` navigation and the `console.log` output of the body are I/O. ServiceGiverForm.SubmitTarget only chooses the request, and the outcome of the request is the `succeeded` parameter of ServiceGiverForm.Form.FinishSubmission.
- The `reset()` of the form values after a successful create belongs to the form library. Only the clearing of the two selections is modelled.
- Zod schema validation, including the email format, belongs to a foreign library. The model only assumes what `Object.entries` guarantees and the field names satisfy: distinct, bracket-free keys.
- Widget limits (`maxFileSize`, `accept`, the "Max files: 5" text) are library configuration and display text. The handlers do not enforce them.
- The React Query hook, the provider tree and the list view's loading, error and empty states are framework plumbing.
- Concurrency: the async success/failure flow and double submission are event handling, not data logic.
- ServiceGiversList.PhotoUrl: a stored `profile_photo` that is truthy but not a string is not modelled; `startsWith` would throw on it. The photo is `None` for null or undefined, or a string.
- Multipart.Part: a file part records the File, not the filename that `FormData` attaches to it.
- ServiceGiverForm.Form.RemoveDocument: the idx comes from rendering the current list, so it is always in range in the component. The model accepts any integer and states what an out-of-range index does.
- ServiceGiverForm.FalsyNumericFieldNotSent: feeds the reset values straight into the body. User edits and schema validation between `reset` and `onSubmit` are not modelled. An undefined `hourly_rate` (a required field) fails validation, so no body is built at all.
- ServiceGiverForm.TruthyNumericFieldSent: feeds the reset values straight into the body. User edits and schema validation between `reset` and `onSubmit` are not modelled. A truthy value whose `Number(x)` is NaN fails the schema's number check, so no body is built at all.
- FormRecord.Set: JavaScript objects list array-index keys ("0", "1", …) before all other keys. The model always adds a new key at the end. That matches what the form does, because it writes only its own field names, none of which is an index key.
