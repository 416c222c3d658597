/**
 * The upload dialog of the current console (src/components/UploadDialog.tsx): a list of
 * invoice rows (`fileInputs`), the preview of each row (`uploadedFiles`) and the ids queued
 * for deletion (`deletedIds`). Rows with a truthy `invoiceId` are stored on the server; the
 * others exist only in the dialog.
 */
module UploadDialog {
  import opened Common
  import opened Text
  import opened BillModel
  import MimePrefix

  /** One row of `fileInputs`; an absent optional string is "". */
  datatype Row = Row(fileName: string, file: Option<File>, invoiceId: Option<int>,
                     invoiceName: string, invoiceFileName: string, invoiceFileType: string,
                     invoiceFile: string)

  /** The row `handleAddInput` and the reset paths create. */
  const BlankRow := Row("", None, None, "", "", "", "")

  /** One entry of `uploadedFiles`: what the row's View button shows. */
  datatype Preview = Preview(name: string, url: string, invoiceId: Option<int>)

  const BlankPreview := Preview("", "", None)

  /** One document the row's View button hands to the viewer. */
  datatype ViewFile = ViewFile(name: string, url: string)

  /** One element of the `value` prop: an invoice the parent already holds for the bill. */
  datatype Entry = Entry(fileName: string, file: Option<File>, url: string, invoiceId: Option<int>,
                         invoiceName: string, invoiceFileName: string, invoiceFileType: string,
                         invoiceFile: string)

  /** One element of the list `handleSave` hands to `onSubmit`. */
  datatype Submission = Submission(invoiceName: string, fileName: string, file: File)

  /** The two fields `handleChange` edits, and the values it may be given. */
  datatype Field = InvoiceNameField | FileField
  datatype Input = TextInput(text: string) | FileInput(chosen: File) | NullInput

  /** `!deletedIds.includes(f.invoiceId!)`: entries without an id are never excluded. */
  predicate NotDeleted(deletedIds: seq<int>, e: Entry) {
    e.invoiceId.None? || e.invoiceId.value !in deletedIds
  }

  /** The entries of `value` the opening effect keeps. */
  function Surviving(value: seq<Entry>, deletedIds: seq<int>): seq<Entry> {
    Filter(value, (e: Entry) => NotDeleted(deletedIds, e))
  }

  /** Opening keeps exactly the entries whose id is not queued for deletion, in their order. */
  lemma SurvivingSpec(value: seq<Entry>, deletedIds: seq<int>)
    ensures IsSubsequence(Surviving(value, deletedIds), value)
    ensures forall e :: e in Surviving(value, deletedIds) <==> e in value && NotDeleted(deletedIds, e)
    ensures deletedIds == [] ==> Surviving(value, deletedIds) == value
  {
    if deletedIds == [] {
      FilterKeepsAll(value, (e: Entry) => NotDeleted(deletedIds, e));
    }
  }

  /** The row the opening effect builds for an entry: the invoice name defaults to the file name. */
  function RowOf(e: Entry): Row {
    Row(e.fileName, e.file, e.invoiceId,
        if e.invoiceName != "" then e.invoiceName else e.fileName,
        e.invoiceFileName, e.invoiceFileType, e.invoiceFile)
  }

  /**
   * The preview the opening effect builds for an entry: its url, else an object url for its
   * file, else its stored base64 body behind getMimePrefix's prefix, else nothing.
   */
  function PreviewOf(e: Entry, objectUrl: File -> string): Preview {
    var url :=
      if e.url != "" then e.url
      else if e.file.Some? then objectUrl(e.file.value)
      else if e.invoiceFile != "" then MimePrefix.GetMimePrefix(Some(e.invoiceFile)) + e.invoiceFile
      else "";
    Preview(e.fileName, url, e.invoiceId)
  }

  /** A row is stored on the server when its `invoiceId` is truthy. */
  predicate IsPersisted(r: Row) {
    IsTruthyId(r.invoiceId)
  }

  /** The ids of the stored rows, in row order (`filter(f => f.invoiceId).map(f => f.invoiceId!)`). */
  function PersistedIds(rows: seq<Row>): seq<int>
    decreases |rows|
  {
    if rows == [] then []
    else (if IsPersisted(rows[0]) then [rows[0].invoiceId.value] else []) + PersistedIds(rows[1..])
  }

  /** The ids listed are those of the stored rows, position by position. */
  lemma {:induction false} PersistedIdsMatchStored(rows: seq<Row>)
    ensures |PersistedIds(rows)| == |Filter(rows, IsPersisted)|
    ensures forall k :: 0 <= k < |PersistedIds(rows)| ==>
              Filter(rows, IsPersisted)[k].invoiceId.Some? &&
              PersistedIds(rows)[k] == Filter(rows, IsPersisted)[k].invoiceId.value
    decreases |rows|
  {
    if rows != [] {
      PersistedIdsMatchStored(rows[1..]);
      var stored := Filter(rows, IsPersisted);
      if IsPersisted(rows[0]) {
        assert PersistedIds(rows) == [rows[0].invoiceId.value] + PersistedIds(rows[1..]);
        assert stored == [rows[0]] + Filter(rows[1..], IsPersisted);
      } else {
        assert PersistedIds(rows) == PersistedIds(rows[1..]);
        assert stored == Filter(rows[1..], IsPersisted);
      }
    }
  }

  /**
   * The delete-all request lists, in order, the id of each stored row, one per stored row and
   * nothing else, never a zero id, and is empty exactly when no row is stored.
   */
  lemma {:induction false} PersistedIdsSpec(rows: seq<Row>)
    ensures |PersistedIds(rows)| == |Filter(rows, IsPersisted)|
    ensures forall k :: 0 <= k < |PersistedIds(rows)| ==>
              Filter(rows, IsPersisted)[k].invoiceId.Some? &&
              PersistedIds(rows)[k] == Filter(rows, IsPersisted)[k].invoiceId.value
    ensures PersistedIds(rows) == [] <==> forall k :: 0 <= k < |rows| ==> !IsPersisted(rows[k])
    ensures forall x :: x in PersistedIds(rows) <==>
              exists k :: 0 <= k < |rows| && IsPersisted(rows[k]) && rows[k].invoiceId.value == x
    ensures forall x :: x in PersistedIds(rows) ==> x != 0
    decreases |rows|
  {
    PersistedIdsMatchStored(rows);
    if rows != [] {
      PersistedIdsSpec(rows[1..]);
      assert forall k :: 1 <= k < |rows| ==> rows[k] == rows[1..][k - 1];
      forall x | x in PersistedIds(rows[1..])
        ensures exists k :: 0 <= k < |rows| && IsPersisted(rows[k]) && rows[k].invoiceId.value == x
      {
        var j :| 0 <= j < |rows| - 1 && IsPersisted(rows[1..][j]) && rows[1..][j].invoiceId.value == x;
        assert rows[j + 1] == rows[1..][j];
      }
    }
  }

  /** The submission `handleSave` makes of a row holding a file: names fall back to the file's. */
  function SubmissionOf(r: Row): Submission
    requires r.file.Some?
  {
    var fileName := if r.fileName != "" then r.fileName else r.file.value.name;
    var invoiceName := if r.invoiceName != "" then r.invoiceName else fileName;
    Submission(invoiceName, fileName, r.file.value)
  }

  /** The rows `handleSave` submits: those holding a file. */
  predicate HasFile(r: Row) {
    r.file.Some?
  }

  class Dialog {
    var fileInputs: seq<Row>
    var uploadedFiles: seq<Preview>
    var deletedIds: seq<int>
    var viewFiles: seq<ViewFile>

    /**
     * The previews run alongside the rows, at most one short at the end (after a reset the
     * dialog shows one blank row and no preview), so a row's preview, when it has one, sits at
     * the row's own index. Nothing in the dialog ever queues an id for deletion.
     */
    ghost predicate Valid()
      reads this
    {
      |uploadedFiles| <= |fileInputs| <= |uploadedFiles| + 1 && deletedIds == []
    }

    constructor ()
      ensures Valid()
      ensures fileInputs == [] && uploadedFiles == [] && deletedIds == [] && viewFiles == []
    {
      fileInputs, uploadedFiles, deletedIds, viewFiles := [], [], [], [];
    }

    /** The effect that runs when `open` or `value` changes. */
    method OnOpenChange(open: bool, value: seq<Entry>, objectUrl: File -> string)
      requires Valid()
      modifies this
      ensures Valid()
      ensures viewFiles == old(viewFiles)
      ensures open && value != [] ==>
                var kept := Surviving(value, old(deletedIds));
                |fileInputs| == |kept| == |uploadedFiles| &&
                (forall k :: 0 <= k < |kept| ==> fileInputs[k] == RowOf(kept[k])) &&
                (forall k :: 0 <= k < |kept| ==> uploadedFiles[k] == PreviewOf(kept[k], objectUrl)) &&
                deletedIds == old(deletedIds)
      ensures open && value == [] ==>
                fileInputs == [BlankRow] && uploadedFiles == [] && deletedIds == old(deletedIds)
      ensures !open ==> fileInputs == [] && uploadedFiles == [] && deletedIds == []
    {
      if open {
        if |value| > 0 {
          var kept := Surviving(value, deletedIds);
          SurvivingSpec(value, deletedIds);
          fileInputs := seq(|kept|, k requires 0 <= k < |kept| => RowOf(kept[k]));
          uploadedFiles := seq(|kept|, k requires 0 <= k < |kept| => PreviewOf(kept[k], objectUrl));
        } else {
          fileInputs := [BlankRow];
          uploadedFiles := [];
        }
      } else {
        fileInputs := [];
        uploadedFiles := [];
        deletedIds := [];
      }
    }

    /**
     * `handleFileUpload` once the reader has produced the data url `url`: the row takes the
     * file and its name, keeps a typed invoice name, and its preview shows the new file.
     */
    method HandleFileUpload(file: File, index: nat, url: string)
      requires Valid() && index < |fileInputs|
      modifies this
      ensures Valid()
      ensures viewFiles == old(viewFiles)
      ensures |fileInputs| == |old(fileInputs)|
      ensures fileInputs[index] ==
                old(fileInputs[index]).(fileName := file.name, file := Some(file),
                                        invoiceName := if old(fileInputs[index]).invoiceName != ""
                                                       then old(fileInputs[index]).invoiceName
                                                       else file.name)
      ensures forall k :: 0 <= k < |fileInputs| && k != index ==> fileInputs[k] == old(fileInputs[k])
      ensures uploadedFiles == Put(old(uploadedFiles), index, Preview(file.name, url, None))
      ensures deletedIds == old(deletedIds)
    {
      var row := fileInputs[index];
      var invoiceName := if row.invoiceName != "" then row.invoiceName else file.name;
      fileInputs := fileInputs[index := row.(fileName := file.name, invoiceName := invoiceName, file := Some(file))];
      uploadedFiles := Put(uploadedFiles, index, Preview(file.name, url, None));
    }

    /** `handleAddInput`: one blank row and one blank preview at the end; the rest unchanged. */
    method HandleAddInput()
      requires Valid()
      modifies this
      ensures Valid()
      ensures viewFiles == old(viewFiles)
      ensures fileInputs == old(fileInputs) + [BlankRow]
      ensures uploadedFiles == old(uploadedFiles) + [BlankPreview]
      ensures deletedIds == old(deletedIds)
    {
      fileInputs := fileInputs + [BlankRow];
      uploadedFiles := uploadedFiles + [BlankPreview];
    }

    /**
     * `handleDeleteFile`: a stored row is left in place and `(invoiceId, billId)` goes to the
     * parent's `onDeleteInvoice`; a local row is removed from both lists.
     */
    method HandleDeleteFile(index: nat, billId: string) returns (onDeleteInvoice: Option<(int, string)>)
      requires Valid() && index < |fileInputs|
      modifies this
      ensures Valid()
      ensures viewFiles == old(viewFiles)
      ensures IsPersisted(old(fileInputs[index])) ==>
                onDeleteInvoice == Some((old(fileInputs[index]).invoiceId.value, billId)) &&
                fileInputs == old(fileInputs) && uploadedFiles == old(uploadedFiles)
      ensures !IsPersisted(old(fileInputs[index])) ==>
                onDeleteInvoice.None? &&
                fileInputs == RemoveAt(old(fileInputs), index) &&
                uploadedFiles == RemoveAt(old(uploadedFiles), index)
      ensures deletedIds == old(deletedIds)
    {
      var row := fileInputs[index];
      if IsPersisted(row) {
        onDeleteInvoice := Some((row.invoiceId.value, billId));
      } else {
        onDeleteInvoice := None;
        fileInputs := RemoveAt(fileInputs, index);
        uploadedFiles := RemoveAt(uploadedFiles, index);
      }
    }

    /**
     * `handleDeleteAll`: the ids of the stored rows go to `onDeleteAllInvoices` when there are
     * any; either way the dialog resets at once to one blank row and no preview, without waiting
     * for the parent's outcome.
     */
    method HandleDeleteAll(billId: string) returns (onDeleteAllInvoices: Option<(seq<int>, string)>)
      requires Valid()
      modifies this
      ensures Valid()
      ensures viewFiles == old(viewFiles)
      ensures onDeleteAllInvoices.Some? <==> PersistedIds(old(fileInputs)) != []
      ensures onDeleteAllInvoices.Some? ==> onDeleteAllInvoices.value == (PersistedIds(old(fileInputs)), billId)
      ensures fileInputs == [BlankRow] && uploadedFiles == []
      ensures deletedIds == old(deletedIds)
    {
      var ids := PersistedIds(fileInputs);
      if |ids| == 0 {
        onDeleteAllInvoices := None;
      } else {
        onDeleteAllInvoices := Some((ids, billId));
      }
      fileInputs := [BlankRow];
      uploadedFiles := [];
    }

    /**
     * `handleChange`: an invoice-name edit changes only that row's invoice name; a chosen file
     * sets the row's file, file name and extension, and fills an empty invoice name. A value of
     * the wrong kind for the field changes nothing.
     */
    method HandleChange(index: nat, field: Field, value: Input)
      requires Valid() && index < |fileInputs|
      modifies this
      ensures Valid()
      ensures viewFiles == old(viewFiles)
      ensures |fileInputs| == |old(fileInputs)|
      ensures forall k :: 0 <= k < |fileInputs| && k != index ==> fileInputs[k] == old(fileInputs[k])
      ensures field == InvoiceNameField && value.TextInput? ==>
                fileInputs[index] == old(fileInputs[index]).(invoiceName := value.text)
      ensures field == FileField && value.FileInput? ==>
                var was := old(fileInputs[index]);
                fileInputs[index] ==
                  was.(file := Some(value.chosen), fileName := value.chosen.name,
                       invoiceFileType := FileExtension(value.chosen.name),
                       invoiceName := if was.invoiceName == "" then value.chosen.name else was.invoiceName)
      ensures !(field == InvoiceNameField && value.TextInput?) && !(field == FileField && value.FileInput?) ==>
                fileInputs == old(fileInputs)
      ensures uploadedFiles == old(uploadedFiles) && deletedIds == old(deletedIds)
    {
      var row := fileInputs[index];
      if field == InvoiceNameField && value.TextInput? {
        row := row.(invoiceName := value.text);
      } else if field == FileField && value.FileInput? {
        row := row.(file := Some(value.chosen), fileName := value.chosen.name,
                    invoiceFileType := FileExtension(value.chosen.name));
        if row.invoiceName == "" {
          row := row.(invoiceName := value.chosen.name);
        }
      }
      fileInputs := fileInputs[index := row];
    }

    /**
     * `handleSave`: what goes to `onSubmit` before the dialog asks to close (`close`): the rows
     * that hold a file, in order, each with its names falling back to the file's name, and the
     * queued ids.
     */
    method HandleSave() returns (files: seq<Submission>, queued: seq<int>, close: bool)
      requires Valid()
      ensures close
      ensures var withFile := Filter(fileInputs, HasFile);
              |files| == |withFile| &&
              forall k :: 0 <= k < |files| ==> withFile[k].file.Some? && files[k] == SubmissionOf(withFile[k])
      ensures queued == deletedIds == []
    {
      var withFile := Filter(fileInputs, HasFile);
      assert forall k :: 0 <= k < |withFile| ==> withFile[k] in withFile;
      files := seq(|withFile|, k requires 0 <= k < |withFile| => SubmissionOf(withFile[k]));
      queued := deletedIds;
      close := true;
    }

    /**
     * The View button of row `index`: enabled only when the row's preview has a url, it hands
     * that single preview to the viewer.
     */
    method HandleView(index: nat) returns (enabled: bool)
      requires Valid() && index < |fileInputs|
      modifies this
      ensures Valid()
      ensures enabled <==> index < |uploadedFiles| && uploadedFiles[index].url != ""
      ensures enabled ==> viewFiles == [ViewFile(uploadedFiles[index].name, uploadedFiles[index].url)]
      ensures !enabled ==> viewFiles == old(viewFiles)
      ensures fileInputs == old(fileInputs) && uploadedFiles == old(uploadedFiles) && deletedIds == old(deletedIds)
    {
      enabled := index < |uploadedFiles| && uploadedFiles[index].url != "";
      if enabled {
        viewFiles := [ViewFile(uploadedFiles[index].name, uploadedFiles[index].url)];
      }
    }

    /** Closing the viewer empties its list. */
    method HandleCloseView()
      requires Valid()
      modifies this
      ensures Valid()
      ensures viewFiles == [] && fileInputs == old(fileInputs) && uploadedFiles == old(uploadedFiles)
      ensures deletedIds == old(deletedIds)
    {
      viewFiles := [];
    }
  }
}
