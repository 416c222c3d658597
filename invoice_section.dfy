/**
 * The invoice section of the bill editor (src/components/InvoiceSetion.tsx). The user picks a
 * kind (sales or voucher); the section then lists the bill's stored invoices of that kind
 * followed by the files uploaded in this session, each name once, and offers upload, delete,
 * delete-all and save. Local uploads are kept per kind.
 */
module InvoiceSection {
  import opened Common
  import opened Text
  import opened BillModel

  /** The two invoice kinds the section switches between. */
  datatype Kind = SalesKind | VoucherKind

  /** The `type` tag of a kind, as stored on an invoice. */
  function KindName(k: Kind): (r: string)
    ensures r == Sales || r == Voucher
    ensures (r == Sales) <==> k == SalesKind
  {
    if k == SalesKind then Sales else Voucher
  }

  /** The one-letter `invoiceType` the server uses. */
  function KindCode(k: Kind): (r: string)
    ensures (r == "S") <==> k == SalesKind
    ensures (r == "V") <==> k == VoucherKind
  {
    match k
    case SalesKind => "S"
    case VoucherKind => assert "V"[0] != "S"[0]; "V"
  }

  /** A file uploaded in this session, with its object url. */
  datatype UploadedFile = UploadedFile(file: File, url: string)

  /** One entry of the displayed list. */
  datatype DisplayFile = DisplayFile(name: string, url: string)

  /** The reference to a stored invoice sent to the delete endpoints; `invoiceFile` may be absent. */
  datatype InvoiceRef = InvoiceRef(invoiceId: int, invoiceType: string, invoiceFileName: string,
                                   invoiceFileType: string, invoiceFile: Option<string>)

  /** The names in a list of display entries. */
  ghost function NameSet(fs: seq<DisplayFile>): set<string> {
    set f | f in fs :: f.name
  }

  /** No two entries share a name. */
  ghost predicate UniqueNames(fs: seq<DisplayFile>) {
    forall i, j :: 0 <= i < j < |fs| ==> fs[i].name != fs[j].name
  }

  /**
   * The `filter` with the `combinedFileNames` set: an entry is kept when its name has not been
   * seen, and its name is then added to the set.
   */
  function DedupByName(files: seq<DisplayFile>, seen: set<string>): seq<DisplayFile>
    decreases |files|
  {
    if files == [] then []
    else if files[0].name in seen then DedupByName(files[1..], seen)
    else [files[0]] + DedupByName(files[1..], seen + {files[0].name})
  }

  /**
   * The dedup keeps entries in their order, keeps no name twice and no name already seen, and
   * keeps every other name of the input.
   */
  lemma {:induction false} DedupByNameSpec(files: seq<DisplayFile>, seen: set<string>)
    ensures IsSubsequence(DedupByName(files, seen), files)
    ensures UniqueNames(DedupByName(files, seen))
    ensures NameSet(DedupByName(files, seen)) == NameSet(files) - seen
    decreases |files|
  {
    if files != [] {
      var rest := files[1..];
      assert files == [files[0]] + rest;
      if files[0].name in seen {
        DedupByNameSpec(rest, seen);
        assert NameSet(files) == NameSet(rest) + {files[0].name};
      } else {
        var seen' := seen + {files[0].name};
        DedupByNameSpec(rest, seen');
        var tail := DedupByName(rest, seen');
        var r := [files[0]] + tail;
        forall j | 0 <= j < |tail|
          ensures tail[j].name != files[0].name
        {
          assert tail[j] in tail;
          assert tail[j].name in NameSet(tail);
        }
        assert r[1..] == tail;
        assert NameSet(r) == NameSet(tail) + {files[0].name};
        assert NameSet(files) == NameSet(rest) + {files[0].name};
      }
    }
  }

  /** The entry at `k` is the first of `files` with its name. */
  predicate IsFirstWithName(files: seq<DisplayFile>, k: int)
    requires 0 <= k < |files|
  {
    forall j :: 0 <= j < k ==> files[j].name != files[k].name
  }

  /** First occurrence wins: the first entry with an unseen name is the one the dedup keeps. */
  lemma {:induction false} FirstOccurrenceKept(files: seq<DisplayFile>, seen: set<string>, k: int)
    requires 0 <= k < |files| && files[k].name !in seen && IsFirstWithName(files, k)
    ensures files[k] in DedupByName(files, seen)
    decreases |files|
  {
    if k > 0 {
      var rest := files[1..];
      assert rest[k - 1] == files[k];
      assert IsFirstWithName(rest, k - 1) by {
        forall j | 0 <= j < k - 1
          ensures rest[j].name != rest[k - 1].name
        {
          assert rest[j] == files[j + 1];
        }
      }
      if files[0].name in seen {
        FirstOccurrenceKept(rest, seen, k - 1);
      } else {
        assert files[0].name != files[k].name;
        FirstOccurrenceKept(rest, seen + {files[0].name}, k - 1);
      }
    }
  }

  /** The stored invoices of kind `k`, as display entries. */
  function ExistingOfKind(existing: seq<Invoice>, k: Kind): seq<DisplayFile> {
    var ofKind := Filter(existing, (inv: Invoice) => inv.kind == KindName(k));
    seq(|ofKind|, i requires 0 <= i < |ofKind| => DisplayFile(ofKind[i].name, ofKind[i].url))
  }

  /** The local uploads as display entries. */
  function UploadsShown(uploads: seq<UploadedFile>): seq<DisplayFile> {
    seq(|uploads|, i requires 0 <= i < |uploads| => DisplayFile(uploads[i].file.name, uploads[i].url))
  }

  /** `displayFiles`: nothing without a kind; otherwise stored-of-kind then uploads, first name wins. */
  function DisplayFiles(selected: Option<Kind>, existing: seq<Invoice>, uploads: seq<UploadedFile>): seq<DisplayFile> {
    if selected.None? then []
    else DedupByName(ExistingOfKind(existing, selected.value) + UploadsShown(uploads), {})
  }

  /**
   * With no kind selected nothing is shown. Otherwise the shown entries keep the order of the
   * stored invoices of the kind followed by the uploads, each name appears exactly once, and the
   * names shown are exactly the names among those two lists.
   */
  lemma DisplayFilesSpec(selected: Option<Kind>, existing: seq<Invoice>, uploads: seq<UploadedFile>)
    ensures selected.None? ==> DisplayFiles(selected, existing, uploads) == []
    ensures selected.Some? ==>
              var all := ExistingOfKind(existing, selected.value) + UploadsShown(uploads);
              var shown := DisplayFiles(selected, existing, uploads);
              IsSubsequence(shown, all) && UniqueNames(shown) && NameSet(shown) == NameSet(all)
  {
    if selected.Some? {
      DedupByNameSpec(ExistingOfKind(existing, selected.value) + UploadsShown(uploads), {});
    }
  }

  /** The stored invoice `handleDeleteFile` looks for: this name, this kind, a truthy id. */
  predicate IsStoredMatch(inv: Invoice, fileName: string, k: Kind) {
    inv.name == fileName && inv.kind == KindName(k) && IsTruthyId(inv.invoiceId)
  }

  /** `existingInvoices.find(...)`: the first stored match, if any. */
  function FindStored(existing: seq<Invoice>, fileName: string, k: Kind): (r: Option<Invoice>)
    ensures r.None? <==> forall i :: 0 <= i < |existing| ==> !IsStoredMatch(existing[i], fileName, k)
    ensures r.Some? ==>
              exists i :: 0 <= i < |existing| && existing[i] == r.value &&
                          IsStoredMatch(existing[i], fileName, k) &&
                          forall j :: 0 <= j < i ==> !IsStoredMatch(existing[j], fileName, k)
    decreases |existing|
  {
    if existing == [] then None
    else if IsStoredMatch(existing[0], fileName, k) then
      assert existing[0] == existing[0];
      Some(existing[0])
    else
      var r := FindStored(existing[1..], fileName, k);
      assert forall i :: 1 <= i < |existing| ==> existing[i] == existing[1..][i - 1];
      if r.Some? then
        var i :| 0 <= i < |existing| - 1 && existing[1..][i] == r.value &&
                 IsStoredMatch(existing[1..][i], fileName, k) &&
                 forall j :: 0 <= j < i ==> !IsStoredMatch(existing[1..][j], fileName, k);
        assert existing[i + 1] == r.value;
        r
      else r
  }

  /** The delete request for a stored invoice: its id, kind code, name, extension and base64 body. */
  function RefOf(inv: Invoice, k: Kind): InvoiceRef
    requires IsTruthyId(inv.invoiceId)
  {
    InvoiceRef(inv.invoiceId.value, KindCode(k), inv.name, FileExtension(inv.name), SecondField(inv.url, ','))
  }

  /** A stored invoice of kind `k` (`inv.type === selectedType && inv.invoiceId`). */
  predicate IsStoredOfKind(inv: Invoice, k: Kind) {
    inv.kind == KindName(k) && IsTruthyId(inv.invoiceId)
  }

  /** The body of the delete-all request: one reference per stored invoice of the kind, in order. */
  function DeleteAllRefs(existing: seq<Invoice>, k: Kind): (r: seq<InvoiceRef>)
    ensures r == [] <==> forall i :: 0 <= i < |existing| ==> !IsStoredOfKind(existing[i], k)
  {
    var stored := Filter(existing, (inv: Invoice) => IsStoredOfKind(inv, k));
    assert forall i :: 0 <= i < |stored| ==> stored[i] in stored;
    if stored != [] then assert stored[0] in stored; seq(|stored|, i requires 0 <= i < |stored| => RefOf(stored[i], k))
    else
      assert forall i :: 0 <= i < |existing| ==> existing[i] in existing;
      []
  }

  /** The server confirmed a deletion: the reply body is exactly "1", whatever the status. */
  predicate Confirmed(reply: Response) {
    reply.Answer? && reply.text == "1"
  }

  class Section {
    var selectedType: Option<Kind>
    var salesUploads: seq<UploadedFile>
    var voucherUploads: seq<UploadedFile>

    /** `uploadedFiles[k]`. */
    function Uploads(k: Kind): seq<UploadedFile>
      reads this
    {
      if k == SalesKind then salesUploads else voucherUploads
    }

    /** Initially no kind is selected and nothing is uploaded. */
    constructor ()
      ensures selectedType.None? && Uploads(SalesKind) == [] && Uploads(VoucherKind) == []
    {
      selectedType, salesUploads, voucherUploads := None, [], [];
    }

    /** Sets the local uploads of one kind; the other kind is left alone. */
    method SetUploads(k: Kind, files: seq<UploadedFile>)
      modifies this
      ensures Uploads(k) == files
      ensures forall other :: other != k ==> Uploads(other) == old(Uploads(other))
      ensures selectedType == old(selectedType)
    {
      if k == SalesKind {
        salesUploads := files;
      } else {
        voucherUploads := files;
      }
    }

    /** The Sales Invoice and Voucher buttons: select a kind; the uploads are kept. */
    method HandleButtonClick(k: Kind)
      modifies this
      ensures selectedType == Some(k)
      ensures forall other :: Uploads(other) == old(Uploads(other))
    {
      selectedType := Some(k);
    }

    /**
     * `handleFileChange` with the chosen files and their object urls: with a kind selected and
     * at least one file, each file goes to `onUpload` with the kind and its url and is appended
     * to that kind's uploads; the other kind is untouched. Without a kind nothing happens.
     */
    method HandleFileChange(files: seq<File>, urls: seq<string>) returns (onUpload: seq<(File, Kind, string)>)
      requires |urls| == |files|
      modifies this
      ensures selectedType == old(selectedType)
      ensures old(selectedType).None? || files == [] ==>
                onUpload == [] && forall k :: Uploads(k) == old(Uploads(k))
      ensures old(selectedType).Some? && files != [] ==>
                var k := old(selectedType).value;
                |onUpload| == |files| &&
                (forall i :: 0 <= i < |files| ==> onUpload[i] == (files[i], k, urls[i])) &&
                Uploads(k) == old(Uploads(k)) + seq(|files|, i requires 0 <= i < |files| => UploadedFile(files[i], urls[i])) &&
                forall other :: other != k ==> Uploads(other) == old(Uploads(other))
    {
      if selectedType.Some? && |files| > 0 {
        var k := selectedType.value;
        var newFiles := seq(|files|, i requires 0 <= i < |files| => UploadedFile(files[i], urls[i]));
        onUpload := seq(|files|, i requires 0 <= i < |files| => (files[i], k, urls[i]));
        SetUploads(k, Uploads(k) + newFiles);
      } else {
        onUpload := [];
      }
    }

    /**
     * `handleDeleteFile` with the server's `reply`. A stored invoice of the selected kind with
     * that name is deleted on the server and the parent's `onDelete` runs only on the reply "1";
     * the uploads stay as they are. A name with no stored match is a local upload: every upload
     * of the selected kind with that name is dropped and the parent is told. Without a selected
     * kind nothing happens.
     */
    method HandleDeleteFile(fileName: string, existing: seq<Invoice>, reply: Response)
      returns (request: Option<InvoiceRef>, onDelete: Option<(Kind, Option<string>)>)
      modifies this
      ensures selectedType == old(selectedType)
      ensures old(selectedType).None? ==>
                request.None? && onDelete.None? && forall k :: Uploads(k) == old(Uploads(k))
      ensures old(selectedType).Some? && FindStored(existing, fileName, old(selectedType).value).Some? ==>
                var k := old(selectedType).value;
                var inv := FindStored(existing, fileName, k).value;
                request == Some(RefOf(inv, k)) &&
                (onDelete.Some? <==> Confirmed(reply)) &&
                (onDelete.Some? ==> onDelete.value == (k, Some(fileName))) &&
                forall other :: Uploads(other) == old(Uploads(other))
      ensures old(selectedType).Some? && FindStored(existing, fileName, old(selectedType).value).None? ==>
                var k := old(selectedType).value;
                request.None? && onDelete == Some((k, Some(fileName))) &&
                Uploads(k) == Filter(old(Uploads(k)), (u: UploadedFile) => u.file.name != fileName) &&
                forall other :: other != k ==> Uploads(other) == old(Uploads(other))
    {
      request, onDelete := None, None;
      if selectedType.None? {
        return;
      }
      var k := selectedType.value;
      var found := FindStored(existing, fileName, k);
      if found.Some? {
        request := Some(RefOf(found.value, k));
        if Confirmed(reply) {
          onDelete := Some((k, Some(fileName)));
        }
      } else {
        SetUploads(k, Filter(Uploads(k), (u: UploadedFile) => u.file.name != fileName));
        onDelete := Some((k, Some(fileName)));
      }
    }

    /**
     * `handleDeleteAll` with the server's `reply`. With stored invoices of the selected kind a
     * delete-all request lists them, and the parent (`onDelete`, then `onDeleteAll`) is told
     * only on the reply "1"; with none, the parent is told at once. Either way, and whatever the
     * server says, the selected kind's uploads are emptied.
     */
    method HandleDeleteAll(existing: seq<Invoice>, reply: Response)
      returns (request: Option<seq<InvoiceRef>>, notified: Option<Kind>)
      modifies this
      ensures selectedType == old(selectedType)
      ensures old(selectedType).None? ==>
                request.None? && notified.None? && forall k :: Uploads(k) == old(Uploads(k))
      ensures old(selectedType).Some? ==>
                var k := old(selectedType).value;
                var refs := DeleteAllRefs(existing, k);
                (request.Some? <==> refs != []) &&
                (request.Some? ==> request.value == refs) &&
                (notified.Some? <==> refs == [] || Confirmed(reply)) &&
                (notified.Some? ==> notified.value == k) &&
                Uploads(k) == [] &&
                forall other :: other != k ==> Uploads(other) == old(Uploads(other))
    {
      request, notified := None, None;
      if selectedType.None? {
        return;
      }
      var k := selectedType.value;
      var refs := DeleteAllRefs(existing, k);
      if |refs| > 0 {
        request := Some(refs);
        if Confirmed(reply) {
          notified := Some(k);
        }
      } else {
        notified := Some(k);
      }
      SetUploads(k, []);
    }

    /** `handleSave`: `onSave` runs only with a kind selected that has at least one local upload. */
    method HandleSave() returns (onSave: bool)
      ensures onSave <==> selectedType.Some? && Uploads(selectedType.value) != []
    {
      onSave := selectedType.Some? && |Uploads(selectedType.value)| > 0;
    }
  }
}
