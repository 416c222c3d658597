/**
 * The earlier upload dialog (backup/components/UploadDialog.tsx): rows of a display name and a
 * chosen file (`fileInputs`), the preview of each row (`uploadedFiles`) and the previews handed
 * to the document viewer (`viewFiles`). It knows nothing of stored invoices or of deletion on
 * the server.
 */
module BackupUploadDialog {
  import opened Common
  import opened BillModel

  /** One row of `fileInputs`. */
  datatype Row = Row(fileName: string, file: Option<File>)

  const BlankRow := Row("", None)

  /** One entry of `uploadedFiles`. */
  datatype Preview = Preview(name: string, url: string)

  const BlankPreview := Preview("", "")

  /** One element of the `value` prop; an absent url is "". */
  datatype Entry = Entry(fileName: string, file: Option<File>, url: string)

  /** The row the opening effect builds for an entry. */
  function RowOf(e: Entry): Row {
    Row(e.fileName, e.file)
  }

  /** The preview the opening effect builds: the entry's url, else an object url, else "". */
  function PreviewOf(e: Entry, objectUrl: File -> string): Preview {
    Preview(e.fileName, if e.url != "" then e.url else if e.file.Some? then objectUrl(e.file.value) else "")
  }

  /** The two fields `handleChange` edits, and the values it may be given. */
  datatype Field = FileNameField | FileField
  datatype Input = TextInput(text: string) | FileInput(chosen: File) | NullInput

  /** `f.fileName && f.file`: a row `handleSave` submits. */
  predicate IsSubmittable(r: Row) {
    r.fileName != "" && r.file.Some?
  }

  /** `f.url`: a preview the View button passes to the viewer. */
  predicate HasUrl(p: Preview) {
    p.url != ""
  }

  class Dialog {
    var fileInputs: seq<Row>
    var uploadedFiles: seq<Preview>
    var viewFiles: seq<Preview>

    /** The previews run alongside the rows, at most one short at the end. */
    ghost predicate Valid()
      reads this
    {
      |uploadedFiles| <= |fileInputs| <= |uploadedFiles| + 1
    }

    constructor ()
      ensures Valid()
      ensures fileInputs == [] && uploadedFiles == [] && viewFiles == []
    {
      fileInputs, uploadedFiles, viewFiles := [], [], [];
    }

    /**
     * The effect on `open` and `value`: opening with entries shows one row and one preview per
     * entry; opening without shows one blank row; closing empties both lists.
     */
    method OnOpenChange(open: bool, value: seq<Entry>, objectUrl: File -> string)
      requires Valid()
      modifies this
      ensures Valid()
      ensures open && value != [] ==>
                |fileInputs| == |value| == |uploadedFiles| &&
                (forall k :: 0 <= k < |value| ==> fileInputs[k] == RowOf(value[k])) &&
                (forall k :: 0 <= k < |value| ==> uploadedFiles[k] == PreviewOf(value[k], objectUrl))
      ensures open && value == [] ==> fileInputs == [BlankRow] && uploadedFiles == []
      ensures !open ==> fileInputs == [] && uploadedFiles == []
      ensures viewFiles == old(viewFiles)
    {
      if open {
        if |value| > 0 {
          fileInputs := seq(|value|, k requires 0 <= k < |value| => RowOf(value[k]));
          uploadedFiles := seq(|value|, k requires 0 <= k < |value| => PreviewOf(value[k], objectUrl));
        } else {
          fileInputs := [BlankRow];
          uploadedFiles := [];
        }
      } else {
        fileInputs := [];
        uploadedFiles := [];
      }
    }

    /**
     * `handleFileUpload` once the reader has produced the data url `url`: the row is replaced
     * by the file under its own name (a typed name is lost), and so is its preview.
     */
    method HandleFileUpload(file: File, index: nat, url: string)
      requires Valid() && index < |fileInputs|
      modifies this
      ensures Valid()
      ensures fileInputs == old(fileInputs)[index := Row(file.name, Some(file))]
      ensures uploadedFiles == Put(old(uploadedFiles), index, Preview(file.name, url))
      ensures viewFiles == old(viewFiles)
    {
      fileInputs := fileInputs[index := Row(file.name, Some(file))];
      uploadedFiles := Put(uploadedFiles, index, Preview(file.name, url));
    }

    /** `handleAddInput`: a blank row and a blank preview at the end. */
    method HandleAddInput()
      requires Valid()
      modifies this
      ensures Valid()
      ensures fileInputs == old(fileInputs) + [BlankRow]
      ensures uploadedFiles == old(uploadedFiles) + [BlankPreview]
      ensures viewFiles == old(viewFiles)
    {
      fileInputs := fileInputs + [BlankRow];
      uploadedFiles := uploadedFiles + [BlankPreview];
    }

    /** `handleDeleteFile`: the row and the preview at `index` are removed, whatever the row holds. */
    method HandleDeleteFile(index: nat)
      requires Valid()
      modifies this
      ensures Valid()
      ensures fileInputs == RemoveAt(old(fileInputs), index)
      ensures uploadedFiles == RemoveAt(old(uploadedFiles), index)
      ensures viewFiles == old(viewFiles)
    {
      fileInputs := RemoveAt(fileInputs, index);
      uploadedFiles := RemoveAt(uploadedFiles, index);
    }

    /**
     * `handleChange`: a text for the name field renames the row; a file for the file field is
     * the upload above, with `url` what the reader produces; anything else changes nothing.
     */
    method HandleChange(index: nat, field: Field, value: Input, url: string)
      requires Valid() && index < |fileInputs|
      modifies this
      ensures Valid()
      ensures field == FileNameField && value.TextInput? ==>
                fileInputs == old(fileInputs)[index := old(fileInputs[index]).(fileName := value.text)] &&
                uploadedFiles == old(uploadedFiles)
      ensures field == FileField && value.FileInput? ==>
                fileInputs == old(fileInputs)[index := Row(value.chosen.name, Some(value.chosen))] &&
                uploadedFiles == Put(old(uploadedFiles), index, Preview(value.chosen.name, url))
      ensures !(field == FileNameField && value.TextInput?) && !(field == FileField && value.FileInput?) ==>
                fileInputs == old(fileInputs) && uploadedFiles == old(uploadedFiles)
      ensures viewFiles == old(viewFiles)
    {
      if field == FileNameField && value.TextInput? {
        fileInputs := fileInputs[index := fileInputs[index].(fileName := value.text)];
      } else if field == FileField && value.FileInput? {
        HandleFileUpload(value.chosen, index, url);
      }
    }

    /**
     * `handleSave`: the rows with both a name and a file, in order, go to `onSubmit` when there
     * is at least one; with none, `onSubmit` is not called. Either way the dialog then asks to
     * close (`close`).
     */
    method HandleSave() returns (onSubmit: Option<seq<Row>>, close: bool)
      requires Valid()
      ensures close
      ensures onSubmit.Some? <==> exists k :: 0 <= k < |fileInputs| && IsSubmittable(fileInputs[k])
      ensures onSubmit.Some? ==>
                onSubmit.value == Filter(fileInputs, IsSubmittable) &&
                forall k :: 0 <= k < |onSubmit.value| ==>
                  onSubmit.value[k].fileName != "" && onSubmit.value[k].file.Some?
    {
      var valid := Filter(fileInputs, IsSubmittable);
      if |valid| > 0 {
        assert valid[0] in valid;
        assert forall k :: 0 <= k < |valid| ==> valid[k] in valid;
        onSubmit := Some(valid);
      } else {
        forall k | 0 <= k < |fileInputs|
          ensures !IsSubmittable(fileInputs[k])
        {
          assert fileInputs[k] in fileInputs;
        }
        onSubmit := None;
      }
      close := true;
    }

    /** The DELETE ALL button: one blank row and no preview. */
    method HandleDeleteAll()
      requires Valid()
      modifies this
      ensures Valid()
      ensures fileInputs == [BlankRow] && uploadedFiles == [] && viewFiles == old(viewFiles)
    {
      fileInputs := [BlankRow];
      uploadedFiles := [];
    }

    /** The View button: the viewer receives every preview that has a url, in order. */
    method HandleView()
      requires Valid()
      modifies this
      ensures Valid()
      ensures viewFiles == Filter(old(uploadedFiles), HasUrl)
      ensures fileInputs == old(fileInputs) && uploadedFiles == old(uploadedFiles)
    {
      viewFiles := Filter(uploadedFiles, HasUrl);
    }

    /** Closing the viewer empties its list. */
    method HandleCloseView()
      requires Valid()
      modifies this
      ensures Valid()
      ensures viewFiles == [] && fileInputs == old(fileInputs) && uploadedFiles == old(uploadedFiles)
    {
      viewFiles := [];
    }
  }
}
