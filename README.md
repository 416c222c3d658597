# Bill Generator console — a Dafny model

Bill Generator is a browser console for bills. A user lists the bills stored on a billing
server, filters them by date (and, in the earlier version, by a search text), and adds, edits
and deletes them. Each bill carries scanned invoices, typed *sales* or *voucher*, which the
server stores as base64 bodies. The console also has a small calculator page. Two versions of
the console are in the repository: the current one under `src/` and an earlier one under
`backup/`. This project models the logic of both.

What is modelled, file by file:

- `mime_prefix.dfy` (module `MimePrefix`): `getMimePrefix`, which picks a data-URI head by
  sniffing the first characters of a base64 body, and the `data:`-url normalisation the current
  dashboard applies to stored bodies.
- `bill_model.dfy` (module `BillModel`): the bill and invoice records, the server's raw records,
  a server answer, the trimmed save body and its completeness check, and the list operations
  both dashboards use: replace by id, remove by id, find by id and the date-range test.
- `text.dfy` and `common.dfy`: the JavaScript string and array operations the components use.
  The string operations are `trim`, `split(c)[0]`, `split(c)[1]`, `split(".").pop()`,
  `toLowerCase` (for ASCII letters only; see Left out) and `includes`. The array operations are `filter`,
  element assignment `xs[i] = x`, removal by index through `filter((_, i) => i !== index)`,
  the spread append `[...xs, x]` and `find`.
- `dashboard.dfy` (module `Dashboard`, class `Page`): the current dashboard. It covers loading,
  the date filter, Add and Edit through the edit dialog, save with the merge into the list,
  view documents and delete.
- `edit_bill_dialog.dfy` (`EditBillDialog.Dialog`): the edit dialog. It covers normalising the
  bill's invoices on open, the field edits, upload, delete and delete-all of invoices,
  validation with per-field messages, and cancel.
- `invoice_section.dfy` (`InvoiceSection.Section`): the invoice panel inside the edit dialog. It
  covers the type buttons, the file picker, the de-duplicated file list, and the single and
  bulk deletes against the server.
- `upload_dialog.dfy` (`UploadDialog.Dialog`): the current upload dialog. It covers rows of
  invoice name and file, previews, delete and delete-all (which report persisted invoices to
  the caller), save and view.
- `backup_dashboard.dfy` (`BackupDashboard.Page`): the earlier dashboard. It covers inline row
  editing, per-bill upload buffers, save, cancel (which removes an unsaved new row), delete,
  and the date and search filter.
- `backup_upload_dialog.dfy` (`BackupUploadDialog.Dialog`): the earlier upload dialog.
- `view_document.dfy` (`ViewDocument`): the current document viewer. It covers the selection,
  the preview branch by file extension, and the decoding of a Word document from base64 into
  bytes.
- `backup_view_document.dfy` (`BackupViewDocument`): the earlier viewer. It shows only files
  whose data URI is a pdf, png or jpeg.
- `calculator.dfy` (`Calculator.Page`): the calculator page. The expression evaluator is a
  parameter.

Components whose state changes in place are classes. Each one has a field per state variable,
and each handler is a method whose `ensures` gives the whole new state. Everything outside the
program is a parameter of the method that uses it:

- a server answer is a `Response`;
- the confirmation pop-up's choice is a boolean;
- a browser object URL, a `FileReader` result and `atob` are functions;
- a date's day number is a function from the date text;
- the calculator's evaluator is a function.

## Model

| member | source | states |
|---|---|---|
| MimePrefix.GetMimePrefix | src/utils/getMimePrefix.ts:1-11 | A non-string or empty argument gives the octet-stream head. A body starting with `JVBER`, `iVBOR`, `/9j/` or `UEsDB` gives the pdf, png, jpeg or docx head. Any other body gives octet-stream. Every head starts with `data:` and ends with `;base64,`, with its only comma at the end. |
| MimePrefix.DataUriPrefix | src/utils/getMimePrefix.ts:3-11 | Each head starts with `data:`, ends with `;base64,`, and has no comma before the final one when its MIME type has none. |
| MimePrefix.SignaturesExclusive | src/utils/getMimePrefix.ts:6-9 | No body starts with two of the four signatures, so the order of the tests does not matter. |
| MimePrefix.PrefixDependsOnHead | src/utils/getMimePrefix.ts:6-11 | Two bodies with the same first five characters get the same head. |
| MimePrefix.ToDataUrl | src/pages/Dashboard.tsx:74-76 | The loaded url starts with `data:` and ends with the stored body. A body that is already a data URI is kept as it is. |
| MimePrefix.ToDataUrlIdempotent | src/pages/Dashboard.tsx:167 | Turning an already converted url into a data URI again, as a save does, changes nothing. |
| MimePrefix.DataUrlBody | src/pages/Dashboard.tsx:232 | `url.split(",")[1]` of a loaded url gives back exactly the stored comma-free body, or undefined when the body was already a data URI. |
| Text.SecondField | src/pages/Dashboard.tsx:232 | `split(c)[1]` is undefined exactly when `c` does not occur. Otherwise it is the text between the first and the second `c`. |
| Text.FileExtension | src/pages/Dashboard.tsx:126 | `.` plus the name's text after its last dot, which has no dot and ends the name. |
| Text.BlankIffTrimEmpty | src/components/EditBillDialog.tsx:115-119 | `!value.trim()` holds exactly when every character of the value is whitespace. |
| BillModel.CompleteIffNoBlankField | src/pages/Dashboard.tsx:131-147 | The trimmed save body passes the required-field check exactly when none of bill number, date, party name, amount and tax is blank. |
| BillModel.ReplaceById | src/pages/Dashboard.tsx:178 | Every bill with the id becomes the replacement. Every other bill stays at its position. A list without the id is unchanged. |
| BillModel.ReplaceByIdKeepsIds | src/pages/Dashboard.tsx:178 | Replacing with a bill of the same id keeps the id column, so distinct ids stay distinct. |
| BillModel.RemoveIdSpec | src/pages/Dashboard.tsx:259 | After the delete filter no bill has the id. Every other bill is kept in order. A list without the id is unchanged. |
| BillModel.FindById | src/pages/Dashboard.tsx:212-213 | `find` fails exactly when no bill has the id. Otherwise it gives the first listed bill with that id. |
| BillModel.AppendUnique | backup/pages/Dashboard.tsx:299-306 | Appending to a list with distinct ids keeps them distinct exactly when the new id is not listed. |
| BillModel.NextIdByLength | src/pages/Dashboard.tsx:340 | The Add id `bills.length + 1` is positive. It is new to the list only while no id exceeds the length; after a delete it may not be. |
| BillModel.FreshId | src/pages/Dashboard.tsx:339-340 | A positive id that no listed bill has. This is the corrected id for Add (see Findings). |
| Dashboard.DefaultName | src/pages/Dashboard.tsx:73 | A fallback invoice name has the form `Invoice-…pdf`. |
| Dashboard.LoadKind | src/pages/Dashboard.tsx:77 | The invoice type is sales exactly for code `S` and voucher otherwise. |
| Dashboard.ProcessBillsSpec | src/pages/Dashboard.tsx:70-88 | Loading throws exactly when some invoice has no file body. Otherwise it maps bills one to one and in order. Ids are positions 1, 2, …, so they are distinct. The date is `billDate`, else `date`. Each invoice is named, typed by its code, and has a data URI ending with its stored body. |
| Dashboard.BodyOf | src/pages/Dashboard.tsx:118 | The body sent for an invoice is the text between the first and the second comma of its url, or the whole url when it has no comma. |
| Dashboard.BodyOfDataUrl | src/pages/Dashboard.tsx:118 | The body sent on save is exactly the body that was loaded. |
| Dashboard.SavePayloadOfSpec | src/pages/Dashboard.tsx:117-147 | The save body has one item per invoice, in order. It is sent exactly when no required field is blank. |
| Dashboard.SavedBillSpec | src/pages/Dashboard.tsx:165-175 | A saved bill keeps its fields and id. Each invoice gets a data URI, a sales or voucher type, and a non-zero id: its own when it had one, else its position plus one. |
| Dashboard.MergeSaved | src/pages/Dashboard.tsx:177-179 | As written: a known id is replaced in place, and an unknown one is appended under id `length + 1`. |
| Dashboard.MergeSavedUnique | src/pages/Dashboard.tsx:177-179 | On distinct ids, the merge as written keeps them distinct exactly when the bill is listed or no listed bill holds `length + 1`. |
| Dashboard.AddAfterDeleteOverwrites | src/pages/Dashboard.tsx:177-179 | As written: after bill 1 of 1, 2, 3 is deleted, Add drafts id 3, and saving the draft replaces bill 3 (Findings). |
| Dashboard.FreshIdAfterLoad | src/pages/Dashboard.tsx:84 | Right after a load, the fresh id and `length + 1` agree. The two only differ once bills are deleted. |
| Dashboard.MergeSavedFresh | src/pages/Dashboard.tsx:177-179 | Corrected merge: a known id is replaced in place, and an unknown one is appended under a fresh id. |
| Dashboard.MergeSavedFreshUnique | src/pages/Dashboard.tsx:177-179 | The corrected merge keeps ids distinct. |
| Dashboard.MergeSavedFreshSpec | src/pages/Dashboard.tsx:164-180 | An edit keeps the id column. A new bill adds one row after the unchanged old ones. Saving a new bill twice adds it once. |
| Dashboard.AddThenSaveAppends | src/pages/Dashboard.tsx:338-349 | Corrected: a bill drafted under the fresh id is appended on save, every listed bill is kept, and ids stay distinct. |
| Dashboard.DeletePayloadOf | src/pages/Dashboard.tsx:227-245 | The delete body carries the bill's fields and, per invoice, its id, type code `S` exactly for sales and `V` otherwise, name, extension, the text between the url's first and second comma, and the bill number. |
| Dashboard.ViewDocuments | src/pages/Dashboard.tsx:190-198 | One document per invoice, in order, with its name, its url as a data URI, and its own type when sales or voucher, else sales. |
| Dashboard.FilteredBillsSpec | src/pages/Dashboard.tsx:270-275 | The table shows, in order, exactly the bills whose day is within the set bounds. With no bound it shows every bill. |
| Dashboard.Page.constructor | src/pages/Dashboard.tsx:47-59 | The page starts with no bills, no selection, the dialog in edit mode and closed, the viewer closed and empty, and no date bounds. |
| Dashboard.Page.Load | src/pages/Dashboard.tsx:63-99 | A fetch whose bills all map replaces the list by them, with distinct ids. A failed fetch, or an invoice without a file body, leaves the list. Every other field of the page stays. |
| Dashboard.Page.HandleEdit | src/pages/Dashboard.tsx:108-112 | Selects the bill and opens the dialog in edit mode. Every other field of the page stays. |
| Dashboard.Page.HandleAdd | src/pages/Dashboard.tsx:338-349 | As written: opens the dialog in add mode on a blank bill dated today under id `length + 1`, which is new while no id exceeds the length (see Findings). Every other field of the page stays. |
| Dashboard.Page.HandleCloseEditDialog | src/pages/Dashboard.tsx:481 | Closes the dialog. Every other field of the page stays. |
| Dashboard.Page.HandleSaveEditedBill | src/pages/Dashboard.tsx:115-185 | An incomplete bill sends nothing and changes nothing. A complete one sends its save body. On success the list becomes the merge as written; on failure it is unchanged. Ids stay distinct when the bill is listed or `length + 1` is free. Every other field of the page stays. |
| Dashboard.Page.MergeIntoList | src/pages/Dashboard.tsx:164-180 | The list becomes the merge as written, keeping ids distinct when the bill is listed or `length + 1` is free. Every other field of the page stays. |
| Dashboard.Page.HandleViewDocument | src/pages/Dashboard.tsx:188-208 | A bill without invoices gives the warning and nothing opens. Otherwise the viewer opens on the bill's documents. Every other field of the page stays. |
| Dashboard.Page.HandleDeleteBill | src/pages/Dashboard.tsx:211-267 | Nothing is sent unless the bill exists and the user confirms. Then its delete body is sent, and the bill is removed exactly when the server accepts. Distinct ids stay distinct. Every other field of the page stays. |
| Dashboard.Page.SetDates | src/pages/Dashboard.tsx:368-393 | Sets (or clears) the two date bounds. Every other field of the page stays. |
| Dashboard.Page.HandleCloseViewer | src/pages/Dashboard.tsx:489 | Closes the viewer and keeps its documents. Every other field of the page stays. |
| EditBillDialog.DefaultInvoiceName | src/components/EditBillDialog.tsx:42 | An unnamed invoice is shown as `Invoice-<billNo>.pdf`. |
| EditBillDialog.NormaliseSpec | src/components/EditBillDialog.tsx:39-47 | Opening keeps one invoice per invoice, with a name (defaulted), a type (sales by default) and a data URI ending with its url. The invoice id is dropped. |
| EditBillDialog.NormalisedNeverStored | src/components/EditBillDialog.tsx:41-47 | Since the ids are dropped, the invoice panel never finds a stored invoice to delete on the server, one by one or all of a type. |
| EditBillDialog.WithUpload | src/components/EditBillDialog.tsx:78-88 | An upload adds the invoice unless one with the same name and type is already there. |
| EditBillDialog.UploadKeepsUnique | src/components/EditBillDialog.tsx:78-88 | After an upload the invoice is present. Names stay unique per type. Uploading the same invoice twice adds it once. |
| EditBillDialog.DeleteSpec | src/components/EditBillDialog.tsx:96-102 | Delete removes every invoice of that type and name and keeps the others in order. It undoes an upload of a new invoice. |
| EditBillDialog.DeleteAllSpec | src/components/EditBillDialog.tsx:105-110 | Delete-all keeps exactly the invoices of the other type, in order. |
| EditBillDialog.Messages | src/components/EditBillDialog.tsx:115-119 | A message is present exactly for each field flagged blank, and it is that field's text. |
| EditBillDialog.ValidateSpec | src/components/EditBillDialog.tsx:112-128 | A field has an error exactly when it is blank. The dialog has no errors exactly when the dashboard's required-field check would pass. |
| EditBillDialog.Dialog.constructor | src/components/EditBillDialog.tsx:24-36 | Starts on the blank bill with no errors. |
| EditBillDialog.Dialog.OnOpenChange | src/components/EditBillDialog.tsx:39-62 | Opening with a bill loads it with normalised invoices. Otherwise the blank bill is loaded. |
| EditBillDialog.Dialog.HandleFieldChange | src/components/EditBillDialog.tsx:159-204 | Sets exactly the edited field, except that the bill number is read-only in edit mode and then nothing changes. Every other field, the id and the invoices stay. |
| EditBillDialog.Dialog.HandleUpload | src/components/EditBillDialog.tsx:66-92 | The invoices become the upload result. |
| EditBillDialog.Dialog.HandleDelete | src/components/EditBillDialog.tsx:96-102 | Without a file name nothing changes. Otherwise that invoice is removed. |
| EditBillDialog.Dialog.HandleDeleteAll | src/components/EditBillDialog.tsx:105-110 | Removes all invoices of the type. |
| EditBillDialog.Dialog.HandleSave | src/components/EditBillDialog.tsx:112-128 | With errors, they are shown and nothing is saved. Otherwise the edited bill is handed to the dashboard. |
| EditBillDialog.Dialog.HandleCancel | src/components/EditBillDialog.tsx:130-142 | Restores the bill given (or the blank bill). |
| InvoiceSection.KindName | src/components/InvoiceSetion.tsx:13-15 | The type names are `sales` and `voucher`, one per button. |
| InvoiceSection.KindCode | src/components/InvoiceSetion.tsx:86 | The server codes: `S` exactly for sales and `V` exactly for voucher. |
| InvoiceSection.DedupByNameSpec | src/components/InvoiceSetion.tsx:183-189 | The name filter keeps files in order, leaves no two with one name, and loses no name. |
| InvoiceSection.FirstOccurrenceKept | src/components/InvoiceSetion.tsx:183-189 | The first file with each name is the one kept. |
| InvoiceSection.DisplayFilesSpec | src/components/InvoiceSetion.tsx:170-189 | Nothing shows without a selected type. Otherwise the stored files of that type and then the uploads are shown, once per name. |
| InvoiceSection.FindStored | src/components/InvoiceSetion.tsx:79-81 | Finds the first stored invoice of the type with that name and an id, and fails only when none matches. |
| InvoiceSection.DeleteAllRefs | src/components/InvoiceSetion.tsx:121-132 | The bulk delete lists nothing exactly when no stored invoice of the type has an id. |
| InvoiceSection.Section.constructor | src/components/InvoiceSetion.tsx:37-41 | No type selected and no uploads. |
| InvoiceSection.Section.SetUploads | src/components/InvoiceSetion.tsx:64-67 | Sets one type's uploads and keeps the other's. |
| InvoiceSection.Section.HandleButtonClick | src/components/InvoiceSetion.tsx:47-49 | Selects the type and keeps the uploads. |
| InvoiceSection.Section.HandleFileChange | src/components/InvoiceSetion.tsx:55-73 | With a type and files, each file is reported up with its url and appended to that type's uploads. Otherwise nothing happens. |
| InvoiceSection.Section.HandleDeleteFile | src/components/InvoiceSetion.tsx:75-116 | A stored match is sent to the server, and the dashboard is told only when the server answers `1`. Otherwise the upload is dropped locally and reported. |
| InvoiceSection.Section.HandleDeleteAll | src/components/InvoiceSetion.tsx:118-161 | The stored invoices of the type with ids are sent, and the caller is told when there were none or the server confirmed. That type's uploads are cleared. |
| InvoiceSection.Section.HandleSave | src/components/InvoiceSetion.tsx:163-167 | Reports a save exactly when the selected type has uploads. |
| UploadDialog.SurvivingSpec | src/components/UploadDialog.tsx:78 | The deleted-id filter keeps, in order, exactly the entries not marked deleted, and all of them when nothing is marked. |
| UploadDialog.PersistedIdsMatchStored | src/components/UploadDialog.tsx:166-168 | The reported ids are the ids of the stored rows, position by position. |
| UploadDialog.PersistedIdsSpec | src/components/UploadDialog.tsx:166-168 | The ids reported for delete-all are, in order, one per stored row, exactly the non-zero ids of the rows, and none exactly when no row is stored. |
| UploadDialog.Dialog.constructor | src/components/UploadDialog.tsx:57-72 | Starts with no rows, previews, deleted ids or viewed files. |
| UploadDialog.Dialog.OnOpenChange | src/components/UploadDialog.tsx:75-114 | Opening shows one row and one preview per surviving entry, or one blank row. Closing clears the rows, the previews and the queued ids. The viewer's list stays either way. |
| UploadDialog.Dialog.HandleFileUpload | src/components/UploadDialog.tsx:117-140 | Fills the row's file and name (keeping a typed name) and sets its preview. |
| UploadDialog.Dialog.HandleAddInput | src/components/UploadDialog.tsx:143-146 | Appends a blank row and a blank preview. |
| UploadDialog.Dialog.HandleDeleteFile | src/components/UploadDialog.tsx:149-161 | A persisted row is reported up with its id and kept. Any other row is removed with its preview. |
| UploadDialog.Dialog.HandleDeleteAll | src/components/UploadDialog.tsx:164-184 | Reports the persisted ids when there are any and resets to one blank row. |
| UploadDialog.Dialog.HandleChange | src/components/UploadDialog.tsx:187-207 | A name edit sets the name. A file choice sets the file, its name, its extension and a missing name. Other rows stay. |
| UploadDialog.Dialog.HandleSave | src/components/UploadDialog.tsx:210-222 | Submits, in order, one entry per row with a file, queues no deleted ids, and closes. |
| UploadDialog.Dialog.HandleView | src/components/UploadDialog.tsx:280-288 | The eye button is live exactly when the row has a preview url, and then views that file alone. |
| UploadDialog.Dialog.HandleCloseView | src/components/UploadDialog.tsx:326 | Closes the viewer. |
| BackupDashboard.TypePrefix | backup/pages/Dashboard.tsx:62-64 | `.pdf` gives the pdf head, `.png` the png head, anything else the jpeg head. |
| BackupDashboard.DefaultName | backup/pages/Dashboard.tsx:61 | A fallback invoice name starts `Invoice-`. |
| BackupDashboard.ProcessBillsSpec | backup/pages/Dashboard.tsx:58-75 | Loading throws exactly when some invoice has no file body. Otherwise it maps bills one to one, keeping number, party, tax and amount. The id is the server's non-zero id, else the position plus one. The date is `billDate`, else `date`. Invoices get a data URI by file type and a non-zero id. |
| BackupDashboard.LoadedIdsDistinct | backup/pages/Dashboard.tsx:71 | Ids are distinct when all come from the server distinct, or when none does. A server id 2 next to an id-less second bill collides. |
| BackupDashboard.ItemOf | backup/pages/Dashboard.tsx:119-124 | The item keeps the file name. Its name is the file name up to its first dot (all of it without a dot). Its type is the extension. Its body is the url's text between the first and the second comma, undefined exactly when there is no comma. |
| BackupDashboard.ItemOfDataUrl | backup/pages/Dashboard.tsx:123 | The body read from a data URL is exactly the encoded body. |
| BackupDashboard.SubmittedRowsHaveFiles | backup/pages/Dashboard.tsx:113-130 | Every row the upload dialog submits has a file, so reading all of them is defined. |
| BackupDashboard.SavedBillSpec | backup/pages/Dashboard.tsx:162-178 | The saved bill keeps id and fields. Its invoices are exactly the uploaded items, numbered 1, 2, …; none are kept when nothing was uploaded. |
| BackupDashboard.MergeSaved | backup/pages/Dashboard.tsx:180-182 | A known id is replaced in place. Otherwise the bill is appended. |
| BackupDashboard.MergeSavedSpec | backup/pages/Dashboard.tsx:180-182 | The saved bill is in the list, the only one with its id. Distinct ids stay distinct, and the old rows are kept. |
| BackupDashboard.BillsAfterSaveUnique | backup/pages/Dashboard.tsx:161-183 | Whatever the server answers, a save keeps ids distinct. |
| BackupDashboard.SaveRequestSpec | backup/pages/Dashboard.tsx:105-146 | A request is sent exactly when the id is non-zero, every row has a file, and no required field is blank. It carries one item per row, in order. |
| BackupDashboard.DeletePayloadOf | backup/pages/Dashboard.tsx:230-244 | The delete body carries the bill's fields and one item per invoice. |
| BackupDashboard.DeleteSendsLoadedBody | backup/pages/Dashboard.tsx:234 | Deleting sends back exactly the stored body of a loaded invoice. |
| BackupDashboard.FilteredBillsSpec | backup/pages/Dashboard.tsx:267-285 | The table shows, in order, exactly the bills within the date bounds that match the search. With no bounds and no search it shows all. |
| BackupDashboard.CancelAfterAddLosesBill | backup/pages/Dashboard.tsx:539-542 | As written: with one bill of server id 2, Add uses id `length + 1` = 2, and Cancel removes both rows (Findings). |
| BackupDashboard.CancelAfterAddRestores | backup/pages/Dashboard.tsx:539-542 | Corrected: a row added under the fresh id and then cancelled leaves exactly the earlier list. |
| BackupDashboard.OverlaySpec | backup/pages/Dashboard.tsx:521-524 | The saved row takes each edited field when present and the bill's own otherwise. It keeps id and invoices. |
| BackupDashboard.Page.constructor | backup/pages/Dashboard.tsx:35-48 | Empty list, no filter, no row in edit, no upload buffers. |
| BackupDashboard.Page.UploadValue | backup/pages/Dashboard.tsx:618 | The upload dialog receives the current bill's buffered rows, or nothing. |
| BackupDashboard.Page.Load | backup/pages/Dashboard.tsx:51-86 | A fetch whose bills all map replaces the list by them. A failed fetch, or an invoice without a file body, leaves the list. Every other field of the page stays. |
| BackupDashboard.Page.HandleAdd | backup/pages/Dashboard.tsx:298-318 | As written: appends a blank row dated today under id `length + 1` and puts it in edit. Distinct ids stay distinct exactly when no bill already holds that id (see Findings). Every other field of the page stays. |
| BackupDashboard.Page.HandleEdit | backup/pages/Dashboard.tsx:558-566 | Puts the bill in edit with its fields as the draft. Every other field of the page stays. |
| BackupDashboard.Page.HandleCellChange | backup/pages/Dashboard.tsx:430-494 | Sets exactly the edited column in the draft. Every other field of the page stays. |
| BackupDashboard.Page.HandleUploadClick | backup/pages/Dashboard.tsx:504-506 | Opens the upload dialog for the bill. Every other field of the page stays. |
| BackupDashboard.Page.HandleFilesUploaded | backup/pages/Dashboard.tsx:94-102 | Stores the submitted rows under the current bill and closes the dialog. Every other field of the page stays. |
| BackupDashboard.Page.HandleSaveRow | backup/pages/Dashboard.tsx:520-528 | Sends the save request for the overlaid row, and the list becomes the save result. Ids stay distinct and the edit state is cleared. Every other field of the page stays. |
| BackupDashboard.Page.HandleCancel | backup/pages/Dashboard.tsx:539-545 | An unsaved new row is removed. Otherwise the list stays. The edit state is cleared. Every other field of the page stays. |
| BackupDashboard.Page.HandleDeleteBill | backup/pages/Dashboard.tsx:215-264 | Nothing is sent for a row in edit, an unknown id or a refusal. Otherwise the delete body is sent, and the bill is removed exactly when the server accepts. Distinct ids stay distinct. Every other field of the page stays. |
| BackupDashboard.Page.SetFilter | backup/pages/Dashboard.tsx:338-374 | Sets the date bounds and the search text. Every other field of the page stays. |
| BackupDashboard.Page.HandleCloseUpload | backup/pages/Dashboard.tsx:616 | Closes the upload dialog and keeps the collected files. Every other field of the page stays. |
| BackupUploadDialog.Dialog.constructor | backup/components/UploadDialog.tsx:26-28 | No rows, previews or viewed files. |
| BackupUploadDialog.Dialog.OnOpenChange | backup/components/UploadDialog.tsx:31-47 | Opening shows one row and preview per entry, or one blank row. Closing clears. |
| BackupUploadDialog.Dialog.HandleFileUpload | backup/components/UploadDialog.tsx:50-66 | The row becomes the chosen file and its name. Its preview is set. |
| BackupUploadDialog.Dialog.HandleAddInput | backup/components/UploadDialog.tsx:69-72 | Appends a blank row and preview. |
| BackupUploadDialog.Dialog.HandleDeleteFile | backup/components/UploadDialog.tsx:75-78 | Removes the row and its preview. |
| BackupUploadDialog.Dialog.HandleChange | backup/components/UploadDialog.tsx:80-89 | A name edit renames the row. A file choice replaces row and preview. |
| BackupUploadDialog.Dialog.HandleSave | backup/components/UploadDialog.tsx:91-97 | Submits, in order, exactly the rows with a name and a file, and only when there is one. Closes either way. |
| BackupUploadDialog.Dialog.HandleDeleteAll | backup/components/UploadDialog.tsx:117-120 | Resets to one blank row. |
| BackupUploadDialog.Dialog.HandleView | backup/components/UploadDialog.tsx:158 | Views, in order, the previews that have a url. |
| BackupUploadDialog.Dialog.HandleCloseView | backup/components/UploadDialog.tsx:194 | Closes the viewer. |
| ViewDocument.DefaultSelection | src/components/ViewDocumentdialog.tsx:32-38 | Selects the first document, and nothing exactly when there are none. |
| ViewDocument.DocxNotEmbeddable | src/components/ViewDocumentdialog.tsx:101-113 | A `.docx` name is never also embeddable. |
| ViewDocument.Classify | src/components/ViewDocumentdialog.tsx:101-126 | Embedded exactly for pdf, jpg, jpeg, png and gif. The Word container exactly for docx. Refused otherwise, ignoring case. |
| ViewDocument.ClassifyIgnoresCase | src/components/ViewDocumentdialog.tsx:101-113 | A name and its lower-cased form preview the same way. |
| ViewDocument.TypeLabel | src/components/ViewDocumentdialog.tsx:84 | `Sales` exactly for the sales type, else `Voucher`. |
| ViewDocument.Render | src/components/ViewDocumentdialog.tsx:64-131 | "No documents" exactly for none. A list only for several, highlighting the selected name. A preview pane exactly when something is selected. |
| ViewDocument.OpenShowsFirst | src/components/ViewDocumentdialog.tsx:32-38 | On opening, the first document is previewed and highlighted. |
| ViewDocument.Latin1BytesExact | src/components/ViewDocumentdialog.tsx:47-51 | An `atob` result converts to bytes without loss. |
| ViewDocument.ToByteArray | src/components/ViewDocumentdialog.tsx:48-51 | The loop fills a fresh array, byte `i` from character `i`. |
| ViewDocument.LoadDocx | src/components/ViewDocumentdialog.tsx:40-62 | Bytes are produced exactly for a `.docx` name whose body decodes. They are the decoded bytes of the text between the url's first and second comma. |
| BackupViewDocument.PreviewableFilesSpec | backup/components/ViewDocumentdialog.tsx:22-26 | Keeps, in order, exactly the files with a pdf, png or jpeg data URI. Filtering again changes nothing. |
| BackupViewDocument.DefaultSelection | backup/components/ViewDocumentdialog.tsx:30-36 | Selects the first previewable file, and nothing exactly when none is previewable. |
| BackupViewDocument.PaneOf | backup/components/ViewDocumentdialog.tsx:66-89 | A frame exactly for a pdf, a picture for the other selections, blank without one. |
| BackupViewDocument.Render | backup/components/ViewDocumentdialog.tsx:42-92 | "No documents" exactly when nothing is previewable. A list only for several, highlighting the selected name. |
| BackupViewDocument.OpenShowsFirstPreviewable | backup/components/ViewDocumentdialog.tsx:30-36 | On opening, the first previewable file is shown, in a frame exactly when it is a pdf. |
| BackupViewDocument.OctetStreamRefused | backup/components/ViewDocumentdialog.tsx:22-26 | A url under the octet-stream head is not previewable. |
| BackupViewDocument.DocxRefused | backup/components/ViewDocumentdialog.tsx:22-26 | A url under the docx head is not previewable. |
| BackupViewDocument.ImageHeadsShown | backup/components/ViewDocumentdialog.tsx:22-26 | Urls under the pdf, png and jpeg heads are previewable. |
| BackupViewDocument.SniffedPreviewable | backup/components/ViewDocumentdialog.tsx:22-26 | A stored body loaded by the current console is previewable here exactly when it has a pdf, png or jpeg signature. |
| BackupDashboard.LoadedInvoicePreviewable | backup/pages/Dashboard.tsx:62-64 | Every stored body this dashboard loads is previewable in its own viewer. A body recorded as `.docx` is put under the jpeg head. |
| Calculator.PressSpec | src/pages/Calculator.tsx:10-47 | `C` restores the start. `=` shows a finite value on both lines, and otherwise `Error` with display `0`. Other keys keep the result line. The display never becomes empty. |
| Calculator.BackspaceUndoesTyping | src/pages/Calculator.tsx:37-46 | Backspace right after typing one character restores the display. |
| Calculator.DisplayedStep | src/pages/Calculator.tsx:40-46 | One typed character takes the display from the one for the earlier keys to the one for all keys. |
| Calculator.TypingFromCleared | src/pages/Calculator.tsx:40-46 | Typing any run of digits, operators and points after `C` shows that text without redundant leading zeros, with a `0` before a leading point. |
| Calculator.Page.constructor | src/pages/Calculator.tsx:7-8 | Display `0`, empty result. |
| Calculator.Page.Clear | src/pages/Calculator.tsx:11-14 | Back to the start. |
| Calculator.Page.Equals | src/pages/Calculator.tsx:15-36 | The state becomes the evaluation outcome. |
| Calculator.Page.Backspace | src/pages/Calculator.tsx:37-39 | Drops the last character, or shows `0` for a single one. |
| Calculator.Page.Type | src/pages/Calculator.tsx:40-46 | A key replaces a lone `0` unless it is the point. Otherwise it is appended. |
| Calculator.Page.HandleButtonClick | src/pages/Calculator.tsx:10-47 | One press moves the page to `Press` of its state, so `PressSpec` and the typing lemmas apply. |

## Left out

- Network traffic is left out: URLs, headers, JSON parsing, the loading spinner and console logging. A request is modelled as the body the console would send, and an answer as a `Response` parameter.
- The confirmation pop-ups are a boolean parameter. The toasts and alert texts are not modelled beyond whether one is shown.
- Rendering with the MUI library is left out (layout, icons, tabs, date pickers), and so are logout, navigation and the login page.
- The date library is left out. A date is compared by a day-number function given as a parameter, and the row editor's date formatting is a function parameter too.
- `FileReader`, `URL.createObjectURL` and `atob` are function parameters, so their asynchrony is not modelled: a read completes within the handler.
- The calculator's evaluator is a parameter. It throws, gives a non-finite value, or gives the printed form of a finite value; the number-to-text conversion itself is not modelled.
- The docx renderer is not modelled beyond the bytes handed to it. The viewer's click-to-select handlers are plain assignments of the selection, and `Render` takes any selection. Effect scheduling is not modelled: in the earlier viewer, `previewableFiles` is a new array on every render, so its effect selects the first previewable file again after each render and a click does not stay selected; `BackupViewDocument.DefaultSelection` states only what that effect selects.
- Mutation through shared references is not modelled. The earlier upload dialog's `handleChange` writes into the row object before copying the array; the model treats it as a copy with one row replaced, which is what the component renders.
- Text.Lower: folds only the ASCII letters `A`–`Z`, while `toLowerCase` folds every cased letter. So `BackupDashboard.MatchesSearch` and `BackupDashboard.FilteredBillsSpec` state the search as case-insensitive for ASCII letters only.
- An invoice from the server without a file body makes both loaders throw; the model returns `None` from `Dashboard.ProcessBills` and `BackupDashboard.ProcessBills` and keeps the list, as the loaders' `catch` does. Other missing fields do not throw.
- JavaScript `undefined` urls are modelled as the empty string. A name or type missing from a server record is modelled the same way.
- UploadDialog.Dialog.HandleSave: `deletedIds` is never added to anywhere in the component, so the queued list is always empty; the model states that rather than a delete queue.
- BackupDashboard.ReadAll: states only that it reads one item per row. What each item is, is stated by `ItemOf` and `SaveRequestSpec`.
- EditBillDialog.Dialog.HandleSave: closing the dialog after a save belongs to the dashboard and is stated by `Dashboard.Page.HandleCloseEditDialog`.
- The invoice-options toggle button of the edit dialog only shows and hides the panel and is not modelled.
- The ids of the earlier dashboard come from the server when present. `BackupDashboard.LoadedIdsDistinct` states when they are distinct and gives a collision; the model does not repair that.
- The earlier dashboard's save replaces the bill's invoices with the newly read items, so a save with no new files drops the stored invoices (`BackupDashboard.SavedBillSpec`). This is modelled as written.

## Findings

| source | as written | input that shows it | evidently intended | confidence | as-written member | corrected member |
|---|---|---|---|---|---|---|
| src/pages/Dashboard.tsx:340 | Add drafts the new bill under id `bills.length + 1`; the save merge replaces any bill with that id | Bills 1, 2, 3 are loaded and bill 1 is deleted. Add drafts id 3, and saving it overwrites bill 3. | A new bill gets an id no listed bill has and is appended | not executed | Dashboard.AddAfterDeleteOverwrites | Dashboard.AddThenSaveAppends |
| backup/pages/Dashboard.tsx:299 | Add uses id `bills.length + 1`, and Cancel removes every row with that id | The server returns one bill with id 2. Add appends a row with id 2, and Cancel removes both rows. | Cancel removes only the unsaved row | not executed | BackupDashboard.CancelAfterAddLosesBill | BackupDashboard.CancelAfterAddRestores |

The pages model the code as written: `Dashboard.Page.HandleAdd` and `BackupDashboard.Page.HandleAdd` draw the id from `BillModel.NextIdByLength`, and `Dashboard.Page.HandleSaveEditedBill` merges with `Dashboard.MergeSaved`. Their contracts promise distinct ids only under the conditions the code needs. The corrected rule is `BillModel.FreshId`, with `Dashboard.MergeSavedFresh`; `Dashboard.MergeSavedFreshUnique`, `Dashboard.AddThenSaveAppends` and `BackupDashboard.CancelAfterAddRestores` prove the intended properties for it.
