/**
 * The earlier bill dashboard (backup/pages/Dashboard.tsx): bills are edited in place in the
 * table, one row at a time, and the files of a bill are collected per bill id by the upload
 * dialog (`billFiles`) until the row is saved. The table is filtered by a date range and by a
 * case-insensitive search on the bill number and the party name.
 */
module BackupDashboard {
  import opened Common
  import opened Text
  import opened BillModel
  import opened MimePrefix
  import BackupUploadDialog
  import BackupViewDocument

  // ---------------------------------------------------------------- loading

  /** The data-URI head this dashboard picks from a recorded file type: pdf, png, else jpeg. */
  function TypePrefix(fileType: string): (r: string)
    ensures fileType == ".pdf" ==> r == PdfPrefix
    ensures fileType == ".png" ==> r == PngPrefix
    ensures fileType != ".pdf" && fileType != ".png" ==> r == JpegPrefix
    ensures "data:" <= r && r != [] && r[|r| - 1] == ',' && ',' !in r[..|r| - 1]
  {
    if fileType == ".pdf" then PdfPrefix else if fileType == ".png" then PngPrefix else JpegPrefix
  }

  /** The name an unnamed stored invoice is shown under (this dashboard adds no extension). */
  function DefaultName(billNo: string, index: nat, i: nat): (r: string)
    ensures "Invoice-" <= r && r != []
  {
    "Invoice-" + (if billNo != "" then billNo else NatToString(index + 1)) + "-" + NatToString(i + 1)
  }

  /**
   * The `i`-th invoice of the bill at `index`, as loaded: it needs the stored file body and
   * carries no sales/voucher tag.
   */
  function LoadInvoice(inv: RawInvoice, billNo: string, index: nat, i: nat): Invoice
    requires inv.invoiceFile.Some?
  {
    var body := inv.invoiceFile.value;
    Invoice(if inv.invoiceFileName != "" then inv.invoiceFileName
            else if inv.invoiceName != "" then inv.invoiceName
            else DefaultName(billNo, index, i),
            if "data:" <= body then body else TypePrefix(inv.invoiceFileType) + body,
            "",
            if IsTruthyId(inv.invoiceId) then inv.invoiceId else Some(i + 1))
  }

  /** The id a loaded bill gets: the server's `billId` when it has one, else its position plus one. */
  function LoadedId(raw: RawBill, index: nat): int {
    if IsTruthyId(raw.billId) then raw.billId.value else index + 1
  }

  /** The bill at `index`, as loaded. */
  function LoadBill(raw: RawBill, index: nat): Bill
    requires BillFilesPresent(raw)
  {
    var invs := raw.invoice.GetOr([]);
    Bill(LoadedId(raw, index), raw.billNo, raw.partyName,
         if raw.billDate != "" then raw.billDate else raw.date,
         raw.tax, raw.amount,
         seq(|invs|, i requires 0 <= i < |invs| => LoadInvoice(invs[i], raw.billNo, index, i)))
  }

  /**
   * `processedBills`: the server's list mapped one to one, or `None` when the mapping throws
   * because some invoice has no file body (the caller then keeps its list).
   */
  function ProcessBills(raw: seq<RawBill>): Option<seq<Bill>> {
    if FilesPresent(raw) then Some(seq(|raw|, k requires 0 <= k < |raw| => LoadBill(raw[k], k)))
    else None
  }

  /**
   * Loading fails exactly when some invoice has no file body. Otherwise it maps bills one to
   * one and in order; a bill keeps the server's id when it has one
   * and is otherwise numbered by position; its date is `billDate`, else `date`; each invoice is
   * named, has a non-zero id (its own, else its position plus one) and a data-URI url that ends
   * with the stored body, whose head follows the recorded file type.
   */
  lemma ProcessBillsSpec(raw: seq<RawBill>)
    ensures ProcessBills(raw).None? <==>
              exists k, i :: 0 <= k < |raw| && raw[k].invoice.Some? && 0 <= i < |raw[k].invoice.value| &&
                             raw[k].invoice.value[i].invoiceFile.None?
    ensures ProcessBills(raw).Some? ==> |ProcessBills(raw).value| == |raw|
    ensures ProcessBills(raw).Some? ==>
              forall k :: 0 <= k < |raw| ==>
                var b, r := ProcessBills(raw).value[k], raw[k];
                (IsTruthyId(r.billId) ==> b.id == r.billId.value) &&
                (!IsTruthyId(r.billId) ==> b.id == k + 1) &&
                b.id != 0 && b.billNo == r.billNo && b.partyName == r.partyName &&
                b.tax == r.tax && b.amount == r.amount &&
                (r.billDate != "" ==> b.date == r.billDate) && (r.billDate == "" ==> b.date == r.date) &&
                |b.invoices| == |r.invoice.GetOr([])|
    ensures ProcessBills(raw).Some? ==>
              forall k, i :: 0 <= k < |raw| && 0 <= i < |ProcessBills(raw).value[k].invoices| ==>
                var inv, src := ProcessBills(raw).value[k].invoices[i], raw[k].invoice.value[i];
                src.invoiceFile.Some? &&
                inv.name != "" && IsTruthyId(inv.invoiceId) &&
                (IsTruthyId(src.invoiceId) ==> inv.invoiceId == src.invoiceId) &&
                "data:" <= inv.url && EndsWith(inv.url, src.invoiceFile.value) &&
                (!("data:" <= src.invoiceFile.value) ==>
                   inv.url == TypePrefix(src.invoiceFileType) + src.invoiceFile.value)
  {
  }

  /**
   * Loaded ids are distinct when the server gives every bill a distinct id, and when it gives
   * none; a mixture may collide (`billId` 2 on the first bill, none on the second).
   */
  lemma LoadedIdsDistinct(raw: seq<RawBill>)
    requires ProcessBills(raw).Some?
    ensures (forall k :: 0 <= k < |raw| ==> IsTruthyId(raw[k].billId)) &&
            (forall k, l :: 0 <= k < l < |raw| ==> raw[k].billId != raw[l].billId) ==>
              UniqueIds(ProcessBills(raw).value)
    ensures (forall k :: 0 <= k < |raw| ==> !IsTruthyId(raw[k].billId)) ==> UniqueIds(ProcessBills(raw).value)
    ensures |raw| == 2 && raw[0].billId == Some(2) && raw[1].billId.None? ==> !UniqueIds(ProcessBills(raw).value)
  {
    if |raw| == 2 && raw[0].billId == Some(2) && raw[1].billId.None? {
      assert ProcessBills(raw).value[0].id == ProcessBills(raw).value[1].id;
    }
  }

  // ---------------------------------------------------------------- invoice bodies

  /**
   * One invoice as the save and delete bodies carry it: the name, the name before its first dot,
   * the extension after its last dot, and the base64 body (`None` when the url has no comma).
   */
  datatype Item = Item(invoiceFileName: string, invoiceName: string, invoiceFileType: string,
                       invoiceFile: Option<string>)

  /**
   * The item for a file named `fileName` whose content reads as the data url `url`: the name
   * itself, the part before its first dot (all of it when there is no dot), its extension, and
   * the url's text after its first comma (`None` when there is no comma).
   */
  function ItemOf(fileName: string, url: string): (r: Item)
    ensures r.invoiceFileName == fileName
    ensures r.invoiceFile.None? <==> ',' !in url
    ensures r.invoiceFile == SecondField(url, ',')
    ensures r.invoiceName <= fileName && '.' !in r.invoiceName
    ensures |r.invoiceName| < |fileName| ==> fileName[|r.invoiceName|] == '.'
    ensures r.invoiceFileType == FileExtension(fileName)
    ensures r.invoiceFileType != [] && r.invoiceFileType[0] == '.' && EndsWith(fileName, r.invoiceFileType[1..])
  {
    Item(fileName, FirstSegment(fileName, '.'), FileExtension(fileName), SecondField(url, ','))
  }

  /** A data URI whose body holds no comma gives back exactly that body. */
  lemma ItemOfDataUrl(fileName: string, mime: string, body: string)
    requires ',' !in mime && ',' !in body
    ensures ItemOf(fileName, DataUriPrefix(mime) + body).invoiceFile == Some(body)
  {
    AfterPrefixComma(DataUriPrefix(mime), body);
  }

  /** The item for one collected row holding a file: its trimmed name and the body `read` gives. */
  function ReadItem(row: BackupUploadDialog.Row, read: File -> string): Item
    requires row.file.Some?
  {
    ItemOf(row.fileName, read(row.file.value)).(invoiceFileName := Trim(row.fileName))
  }

  /** Every collected row holds a file; reading a row without one rejects the whole batch. */
  predicate AllHaveFiles(rows: seq<BackupUploadDialog.Row>) {
    forall k :: 0 <= k < |rows| ==> rows[k].file.Some?
  }

  /** The rows the upload dialog submits all hold a file, so reading them never rejects. */
  lemma SubmittedRowsHaveFiles(rows: seq<BackupUploadDialog.Row>)
    requires forall k :: 0 <= k < |rows| ==> BackupUploadDialog.IsSubmittable(rows[k])
    ensures AllHaveFiles(rows)
  {
  }

  /**
   * `Promise.all` over the collected rows: the bodies of the files, read one by one with `read`
   * (the reader's data url of a file), in the rows' order.
   */
  function ReadAll(rows: seq<BackupUploadDialog.Row>, read: File -> string): (r: seq<Item>)
    requires AllHaveFiles(rows)
    ensures |r| == |rows|
  {
    seq(|rows|, k requires 0 <= k < |rows| => ReadItem(rows[k], read))
  }

  // ---------------------------------------------------------------- saving

  /** The invoice the list keeps for the `index`-th saved item; an absent body reads "undefined". */
  function SavedInvoice(item: Item, index: nat): Invoice {
    Invoice(item.invoiceFileName, TypePrefix(item.invoiceFileType) + item.invoiceFile.GetOr("undefined"),
            "", Some(index + 1))
  }

  /** The bill the list keeps after a save: its invoices are exactly the items just sent. */
  function SavedBill(updated: Bill, items: seq<Item>): Bill {
    updated.(invoices := seq(|items|, i requires 0 <= i < |items| => SavedInvoice(items[i], i)))
  }

  /**
   * A saved bill keeps its fields and id, and has one invoice per item sent, in order, named by
   * the trimmed file name, numbered from 1, with a data URI holding the sent body. Its earlier
   * invoices are gone: a bill saved with no files collected ends up with no invoices.
   */
  lemma SavedBillSpec(updated: Bill, items: seq<Item>)
    ensures SavedBill(updated, items).id == updated.id && SavedBill(updated, items).billNo == updated.billNo
    ensures |SavedBill(updated, items).invoices| == |items|
    ensures items == [] ==> SavedBill(updated, items).invoices == []
    ensures forall i :: 0 <= i < |items| ==>
              var inv := SavedBill(updated, items).invoices[i];
              inv.name == items[i].invoiceFileName && inv.invoiceId == Some(i + 1) && "data:" <= inv.url &&
              (items[i].invoiceFile.Some? ==> EndsWith(inv.url, items[i].invoiceFile.value))
  {
  }

  /** The merge after a save: the bill replaces the one with its id, or is appended under its own id. */
  function MergeSaved(prev: seq<Bill>, saved: Bill): (r: seq<Bill>)
    ensures HasId(prev, saved.id) ==> r == ReplaceById(prev, saved.id, saved)
    ensures !HasId(prev, saved.id) ==> r == prev + [saved]
  {
    if HasId(prev, saved.id) then ReplaceById(prev, saved.id, saved) else prev + [saved]
  }

  /**
   * After the merge the saved bill is in the list and is the only bill with its id; ids stay
   * distinct; a listed id keeps the list's ids; a new id adds one row at the end.
   */
  lemma MergeSavedSpec(prev: seq<Bill>, saved: Bill)
    ensures saved in MergeSaved(prev, saved)
    ensures forall b :: b in MergeSaved(prev, saved) && b.id == saved.id ==> b == saved
    ensures UniqueIds(prev) ==> UniqueIds(MergeSaved(prev, saved))
    ensures HasId(prev, saved.id) ==> Ids(MergeSaved(prev, saved)) == Ids(prev)
    ensures !HasId(prev, saved.id) ==> MergeSaved(prev, saved)[..|prev|] == prev
  {
    var r := MergeSaved(prev, saved);
    if HasId(prev, saved.id) {
      ReplaceByIdKeepsIds(prev, saved.id, saved);
      var k :| 0 <= k < |prev| && prev[k].id == saved.id;
      assert r[k] == saved;
    } else {
      assert r[|prev|] == saved;
      assert r[..|prev|] == prev;
    }
  }

  /** The list after a save: the saved bill merged in when the request went out and succeeded. */
  function BillsAfterSave(prev: seq<Bill>, updated: Bill, request: Option<SavePayload<Item>>, response: Response): seq<Bill> {
    if request.Some? && Succeeded(response) then MergeSaved(prev, SavedBill(updated, request.value.invoice)) else prev
  }

  /** A save keeps the ids of the list distinct. */
  lemma BillsAfterSaveUnique(prev: seq<Bill>, updated: Bill, request: Option<SavePayload<Item>>, response: Response)
    requires UniqueIds(prev)
    ensures UniqueIds(BillsAfterSave(prev, updated, request, response))
  {
    if request.Some? && Succeeded(response) {
      MergeSavedSpec(prev, SavedBill(updated, request.value.invoice));
    }
  }

  /** The `/addBill` request for a bill, or `None` when it is not sent. */
  function SaveRequest(updated: Bill, rows: seq<BackupUploadDialog.Row>, read: File -> string): Option<SavePayload<Item>> {
    if updated.id == 0 then None
    else
      if !AllHaveFiles(rows) then None
      else if IsBlank(updated.billNo) || IsBlank(updated.date) || IsBlank(updated.partyName) ||
              IsBlank(updated.amount) || IsBlank(updated.tax) then None
      else Some(TrimmedPayload(updated, ReadAll(rows, read)))
  }

  /**
   * The request is sent exactly when the bill has a non-zero id, every collected row holds a
   * file and none of the five scalars is blank; it carries the trimmed scalars and one item per
   * collected file.
   */
  lemma SaveRequestSpec(updated: Bill, rows: seq<BackupUploadDialog.Row>, read: File -> string)
    ensures SaveRequest(updated, rows, read).Some? <==>
              updated.id != 0 && AllHaveFiles(rows) && IsComplete(TrimmedPayload(updated, ReadAll(rows, read)))
    ensures SaveRequest(updated, rows, read).Some? <==>
              updated.id != 0 && AllHaveFiles(rows) &&
              !IsBlank(updated.billNo) && !IsBlank(updated.date) && !IsBlank(updated.partyName) &&
              !IsBlank(updated.amount) && !IsBlank(updated.tax)
    ensures SaveRequest(updated, rows, read).Some? ==>
              SaveRequest(updated, rows, read).value == TrimmedPayload(updated, ReadAll(rows, read)) &&
              |SaveRequest(updated, rows, read).value.invoice| == |rows| &&
              forall k :: 0 <= k < |rows| ==> SaveRequest(updated, rows, read).value.invoice[k] == ReadItem(rows[k], read)
  {
    if AllHaveFiles(rows) {
      CompleteIffNoBlankField(updated, ReadAll(rows, read));
    }
  }

  // ---------------------------------------------------------------- deleting

  /** One invoice of the `/deleteBill` body: the untrimmed name and the body after the first comma. */
  function DeleteItemOf(inv: Invoice): Item {
    ItemOf(inv.name, inv.url)
  }

  /** The `/deleteBill` body: the bill's untrimmed scalars and one item per invoice. */
  function DeletePayloadOf(b: Bill): (p: SavePayload<Item>)
    ensures p.billNo == b.billNo && p.billDate == b.date && p.partyName == b.partyName
    ensures p.tax == b.tax && p.amount == b.amount && |p.invoice| == |b.invoices|
    ensures forall i :: 0 <= i < |b.invoices| ==> p.invoice[i] == DeleteItemOf(b.invoices[i])
  {
    SavePayload(b.billNo, b.date, b.partyName,
                seq(|b.invoices|, i requires 0 <= i < |b.invoices| => DeleteItemOf(b.invoices[i])),
                b.tax, b.amount)
  }

  /**
   * The delete body names the body that was loaded: a stored base64 body (no comma, not a data
   * URI) put behind the file type's head on loading is what the delete request sends back.
   */
  lemma DeleteSendsLoadedBody(inv: RawInvoice, billNo: string, index: nat, i: nat)
    requires inv.invoiceFile.Some? && ',' !in inv.invoiceFile.value && !("data:" <= inv.invoiceFile.value)
    ensures DeleteItemOf(LoadInvoice(inv, billNo, index, i)).invoiceFile == inv.invoiceFile
  {
    AfterPrefixComma(TypePrefix(inv.invoiceFileType), inv.invoiceFile.value);
  }

  /**
   * Every stored body this dashboard loads is previewable in its viewer: the file-type head
   * is a pdf, png or jpeg one, so a body recorded as `.docx` (or any other type) is put under the
   * jpeg head and offered as a picture.
   */
  lemma LoadedInvoicePreviewable(inv: RawInvoice, billNo: string, index: nat, i: nat)
    requires inv.invoiceFile.Some? && !("data:" <= inv.invoiceFile.value)
    ensures BackupViewDocument.IsPreviewable(BackupUploadDialog.Preview("", LoadInvoice(inv, billNo, index, i).url))
    ensures inv.invoiceFileType == ".docx" ==>
              LoadInvoice(inv, billNo, index, i).url == JpegPrefix + inv.invoiceFile.value
  {
    BackupViewDocument.ImageHeadsShown("", inv.invoiceFile.value);
  }

  // ---------------------------------------------------------------- filtering

  /** The search box: the query occurs, ignoring ASCII case, in the bill number or the party name. */
  predicate MatchesSearch(b: Bill, query: string) {
    Contains(Lower(b.billNo), Lower(query)) || Contains(Lower(b.partyName), Lower(query))
  }

  /** The filter's test for one bill, as a function value. */
  function KeepsRow(dayOf: string -> Option<int>, from: Option<int>, to: Option<int>, query: string): Bill -> bool {
    (b: Bill) => InRange(dayOf(b.date), from, to) && MatchesSearch(b, query)
  }

  /** `filteredBills`: the bills in the date range that match the search, in order. */
  function FilteredBills(bills: seq<Bill>, dayOf: string -> Option<int>, from: Option<int>, to: Option<int>, query: string): seq<Bill> {
    Filter(bills, KeepsRow(dayOf, from, to, query))
  }

  /**
   * The table shows, in order, exactly the bills in the date range that match the search; an
   * empty search matches every bill, so with no dates and no search it shows every bill.
   */
  lemma FilteredBillsSpec(bills: seq<Bill>, dayOf: string -> Option<int>, from: Option<int>, to: Option<int>, query: string)
    ensures IsSubsequence(FilteredBills(bills, dayOf, from, to, query), bills)
    ensures forall b :: b in FilteredBills(bills, dayOf, from, to, query) <==>
              b in bills && InRange(dayOf(b.date), from, to) && MatchesSearch(b, query)
    ensures from.None? && to.None? && query == "" ==> FilteredBills(bills, dayOf, from, to, query) == bills
  {
    if from.None? && to.None? && query == "" {
      forall i | 0 <= i < |bills|
        ensures KeepsRow(dayOf, from, to, query)(bills[i])
      {
        ContainsEmpty(Lower(bills[i].billNo));
      }
      FilterKeepsAll(bills, KeepsRow(dayOf, from, to, query));
    }
  }

  // ---------------------------------------------------------------- adding and cancelling

  /** The row the Add button appends: blank, dated `today`, with the id `id`. */
  function AddedRow(id: int, today: string): Bill {
    BlankBill.(id := id, date := today)
  }

  /**
   * Cancelling an added row, as written, removes every bill with the new row's id. The Add
   * button numbers the row one past the list's length, which a server id may already hold: with
   * one listed bill whose id is 2, the new row also gets id 2 and Cancel removes both.
   */
  lemma CancelAfterAddLosesBill(b: Bill, today: string)
    requires b.id == 2
    ensures NextIdByLength([b]) == b.id
    ensures RemoveId([b] + [AddedRow(NextIdByLength([b]), today)], NextIdByLength([b])) == []
  {
    var row := AddedRow(2, today);
    assert [row][1..] == [];
    assert RemoveId([row], 2) == [];
    assert ([b] + [row])[1..] == [row];
    assert RemoveId([b] + [row], 2) == [];
  }

  /** With a fresh id for the added row, cancelling it gives back the list exactly as it was. */
  lemma {:induction false} CancelAfterAddRestores(bills: seq<Bill>, today: string)
    ensures RemoveId(bills + [AddedRow(FreshId(bills), today)], FreshId(bills)) == bills
  {
    var id := FreshId(bills);
    var row := AddedRow(id, today);
    FilterAppend(bills, [row], (b: Bill) => b.id != id);
    RemoveIdSpec(bills, id);
    assert [row][1..] == [];
    assert RemoveId([row], id) == [];
  }

  // ---------------------------------------------------------------- the page

  /** The values typed into the row being edited; `None` is a field the draft does not set. */
  datatype Draft = Draft(billNo: Option<string>, partyName: Option<string>, date: Option<string>,
                         tax: Option<string>, amount: Option<string>)

  const EmptyDraft := Draft(None, None, None, None, None)

  /** `{ ...bill, ...editedBillData }`: the draft's fields over the row's. */
  function Overlay(b: Bill, d: Draft): Bill {
    b.(billNo := d.billNo.GetOr(b.billNo), partyName := d.partyName.GetOr(b.partyName),
       date := d.date.GetOr(b.date), tax := d.tax.GetOr(b.tax), amount := d.amount.GetOr(b.amount))
  }

  /**
   * The overlay keeps the row's id and invoices, takes each field the draft sets and keeps the
   * others; the empty draft leaves the row as it is.
   */
  lemma OverlaySpec(b: Bill, d: Draft)
    ensures Overlay(b, d).id == b.id && Overlay(b, d).invoices == b.invoices
    ensures d == EmptyDraft ==> Overlay(b, d) == b
    ensures d.billNo.Some? ==> Overlay(b, d).billNo == d.billNo.value
    ensures d.billNo.None? ==> Overlay(b, d).billNo == b.billNo
    ensures d.partyName.Some? ==> Overlay(b, d).partyName == d.partyName.value
    ensures d.partyName.None? ==> Overlay(b, d).partyName == b.partyName
    ensures d.date.Some? ==> Overlay(b, d).date == d.date.value
    ensures d.date.None? ==> Overlay(b, d).date == b.date
    ensures d.tax.Some? ==> Overlay(b, d).tax == d.tax.value
    ensures d.tax.None? ==> Overlay(b, d).tax == b.tax
    ensures d.amount.Some? ==> Overlay(b, d).amount == d.amount.value
    ensures d.amount.None? ==> Overlay(b, d).amount == b.amount
  {
  }

  /** The five cells of an edited row. */
  datatype Column = BillNoColumn | PartyNameColumn | DateColumn | AmountColumn | TaxColumn

  class Page {
    var bills: seq<Bill>
    var fromDate: Option<int>
    var toDate: Option<int>
    var searchQuery: string
    var editingBillId: Option<int>
    var editedBillData: Draft
    var openUpload: bool
    var billFiles: map<int, seq<BackupUploadDialog.Row>>
    var currentUploadBillId: Option<int>
    var isAddingNew: bool

    constructor ()
      ensures bills == [] && fromDate.None? && toDate.None? && searchQuery == ""
      ensures editingBillId.None? && editedBillData == EmptyDraft && !openUpload
      ensures billFiles == map[] && currentUploadBillId.None? && !isAddingNew
    {
      bills, fromDate, toDate, searchQuery := [], None, None, "";
      editingBillId, editedBillData, openUpload := None, EmptyDraft, false;
      billFiles, currentUploadBillId, isAddingNew := map[], None, false;
    }

    /** The rows the table shows. */
    function Shown(dayOf: string -> Option<int>): seq<Bill>
      reads this
    {
      FilteredBills(bills, dayOf, fromDate, toDate, searchQuery)
    }

    /** The files the upload dialog opens with: those collected for the chosen bill, if any. */
    function UploadValue(): (r: seq<BackupUploadDialog.Row>)
      reads this
      ensures currentUploadBillId.None? ==> r == []
      ensures currentUploadBillId.Some? && currentUploadBillId.value in billFiles ==>
                r == billFiles[currentUploadBillId.value]
    {
      if currentUploadBillId.Some? && currentUploadBillId.value in billFiles then billFiles[currentUploadBillId.value] else []
    }

    /**
     * The loading effect: the server's list when it could be read (`None` when the fetch
     * failed) and mapped without throwing; otherwise the list stays as it was.
     */
    method Load(raw: Option<seq<RawBill>>)
      modifies this
      ensures raw.Some? && ProcessBills(raw.value).Some? ==> bills == ProcessBills(raw.value).value
      ensures raw.None? || ProcessBills(raw.value).None? ==> bills == old(bills)
      ensures billFiles == old(billFiles)
      ensures editingBillId == old(editingBillId) && editedBillData == old(editedBillData) && isAddingNew == old(isAddingNew)
      ensures fromDate == old(fromDate) && toDate == old(toDate) && searchQuery == old(searchQuery)
      ensures openUpload == old(openUpload) && currentUploadBillId == old(currentUploadBillId)
    {
      if raw.Some? {
        var loaded := ProcessBills(raw.value);
        if loaded.Some? {
          bills := loaded.value;
        }
      }
    }

    /**
     * The Add button: a blank row dated `today` is appended numbered one past the list's
     * length, and is opened for editing as a new row. Ids stay distinct exactly when no listed
     * bill already holds that number, which a server id can.
     */
    method HandleAdd(today: string)
      modifies this
      ensures bills == old(bills) + [AddedRow(NextIdByLength(old(bills)), today)]
      ensures UniqueIds(old(bills)) ==> (UniqueIds(bills) <==> !HasId(old(bills), |old(bills)| + 1))
      ensures editingBillId == Some(NextIdByLength(old(bills))) && isAddingNew
      ensures editedBillData == Draft(Some(""), Some(""), Some(today), Some(""), Some(""))
      ensures billFiles == old(billFiles)
      ensures fromDate == old(fromDate) && toDate == old(toDate) && searchQuery == old(searchQuery)
      ensures openUpload == old(openUpload) && currentUploadBillId == old(currentUploadBillId)
    {
      var newId := NextIdByLength(bills);
      if UniqueIds(bills) {
        AppendUnique(bills, AddedRow(newId, today));
      }
      bills := bills + [AddedRow(newId, today)];
      editingBillId := Some(newId);
      editedBillData := Draft(Some(""), Some(""), Some(today), Some(""), Some(""));
      isAddingNew := true;
    }

    /** The Edit button: the row opens for editing, its date reformatted by `formatDate`. */
    method HandleEdit(bill: Bill, formatDate: string -> string)
      modifies this
      ensures editingBillId == Some(bill.id)
      ensures editedBillData == Draft(Some(bill.billNo), Some(bill.partyName), Some(formatDate(bill.date)),
                                      Some(bill.tax), Some(bill.amount))
      ensures bills == old(bills) && isAddingNew == old(isAddingNew) && billFiles == old(billFiles)
      ensures fromDate == old(fromDate) && toDate == old(toDate) && searchQuery == old(searchQuery)
      ensures openUpload == old(openUpload) && currentUploadBillId == old(currentUploadBillId)
    {
      editingBillId := Some(bill.id);
      editedBillData := Draft(Some(bill.billNo), Some(bill.partyName), Some(formatDate(bill.date)),
                              Some(bill.tax), Some(bill.amount));
    }

    /** Typing into a cell of the edited row sets that field of the draft and no other. */
    method HandleCellChange(column: Column, value: string)
      modifies this
      ensures column == BillNoColumn ==> editedBillData == old(editedBillData).(billNo := Some(value))
      ensures column == PartyNameColumn ==> editedBillData == old(editedBillData).(partyName := Some(value))
      ensures column == DateColumn ==> editedBillData == old(editedBillData).(date := Some(value))
      ensures column == AmountColumn ==> editedBillData == old(editedBillData).(amount := Some(value))
      ensures column == TaxColumn ==> editedBillData == old(editedBillData).(tax := Some(value))
      ensures bills == old(bills) && editingBillId == old(editingBillId) && billFiles == old(billFiles)
      ensures isAddingNew == old(isAddingNew)
      ensures fromDate == old(fromDate) && toDate == old(toDate) && searchQuery == old(searchQuery)
      ensures openUpload == old(openUpload) && currentUploadBillId == old(currentUploadBillId)
    {
      match column
      case BillNoColumn => editedBillData := editedBillData.(billNo := Some(value));
      case PartyNameColumn => editedBillData := editedBillData.(partyName := Some(value));
      case DateColumn => editedBillData := editedBillData.(date := Some(value));
      case AmountColumn => editedBillData := editedBillData.(amount := Some(value));
      case TaxColumn => editedBillData := editedBillData.(tax := Some(value));
    }

    /** The Upload button of a row: the upload dialog opens for that bill. */
    method HandleUploadClick(id: int)
      modifies this
      ensures currentUploadBillId == Some(id) && openUpload
      ensures bills == old(bills) && billFiles == old(billFiles)
      ensures editingBillId == old(editingBillId) && editedBillData == old(editedBillData) && isAddingNew == old(isAddingNew)
      ensures fromDate == old(fromDate) && toDate == old(toDate) && searchQuery == old(searchQuery)
    {
      currentUploadBillId, openUpload := Some(id), true;
    }

    /**
     * `handleFilesUploaded`: the submitted rows replace the files collected for the chosen bill
     * (no bill chosen: they are dropped), and the upload dialog closes.
     */
    method HandleFilesUploaded(files: seq<BackupUploadDialog.Row>)
      modifies this
      ensures currentUploadBillId.Some? ==> billFiles == old(billFiles)[currentUploadBillId.value := files]
      ensures currentUploadBillId.None? ==> billFiles == old(billFiles)
      ensures !openUpload && bills == old(bills) && currentUploadBillId == old(currentUploadBillId)
      ensures editingBillId == old(editingBillId) && editedBillData == old(editedBillData) && isAddingNew == old(isAddingNew)
      ensures fromDate == old(fromDate) && toDate == old(toDate) && searchQuery == old(searchQuery)
    {
      if currentUploadBillId.Some? {
        billFiles := billFiles[currentUploadBillId.value := files];
      }
      openUpload := false;
    }

    /**
     * The Save button of the edited row `bill`: the draft is laid over the row and
     * `handleSaveNewBill` runs on it, reading the collected files with `read`; when the request
     * is sent and the server answers with an ok status, the saved bill is merged into the list.
     * Whatever happens, editing ends.
     */
    method HandleSaveRow(bill: Bill, read: File -> string, response: Response)
      returns (request: Option<SavePayload<Item>>)
      modifies this
      ensures var updated := Overlay(bill, old(editedBillData));
              var rows := if updated.id in old(billFiles) then old(billFiles)[updated.id] else [];
              request == SaveRequest(updated, rows, read) &&
              bills == BillsAfterSave(old(bills), updated, request, response)
      ensures UniqueIds(old(bills)) ==> UniqueIds(bills)
      ensures editingBillId.None? && editedBillData == EmptyDraft && !isAddingNew
      ensures billFiles == old(billFiles)
      ensures fromDate == old(fromDate) && toDate == old(toDate) && searchQuery == old(searchQuery)
      ensures openUpload == old(openUpload) && currentUploadBillId == old(currentUploadBillId)
    {
      var updated := Overlay(bill, editedBillData);
      var rows := if updated.id in billFiles then billFiles[updated.id] else [];
      request := SaveRequest(updated, rows, read);
      if UniqueIds(bills) {
        BillsAfterSaveUnique(bills, updated, request, response);
      }
      bills := BillsAfterSave(bills, updated, request, response);
      editingBillId, editedBillData, isAddingNew := None, EmptyDraft, false;
    }

    /** The Cancel button: a row being added is removed again; editing ends. */
    method HandleCancel()
      modifies this
      ensures old(isAddingNew) && old(editingBillId).Some? ==> bills == RemoveId(old(bills), old(editingBillId).value)
      ensures !(old(isAddingNew) && old(editingBillId).Some?) ==> bills == old(bills)
      ensures UniqueIds(old(bills)) ==> UniqueIds(bills)
      ensures editingBillId.None? && editedBillData == EmptyDraft && !isAddingNew
      ensures billFiles == old(billFiles)
      ensures fromDate == old(fromDate) && toDate == old(toDate) && searchQuery == old(searchQuery)
      ensures openUpload == old(openUpload) && currentUploadBillId == old(currentUploadBillId)
    {
      if isAddingNew && editingBillId.Some? {
        RemoveIdSpec(bills, editingBillId.value);
        if UniqueIds(bills) {
          SubsequenceDistinct(RemoveId(bills, editingBillId.value), bills, (b: Bill) => b.id);
        }
        bills := RemoveId(bills, editingBillId.value);
      }
      editingBillId, editedBillData, isAddingNew := None, EmptyDraft, false;
    }

    /**
     * `handleDeleteBill` after the confirmation prompt: the button of the row being edited is
     * disabled; an unknown id or a declined prompt does nothing; otherwise the bill's payload is
     * sent and, only when the server answers with an ok status, every bill with that id leaves
     * the list.
     */
    method HandleDeleteBill(id: int, confirmed: bool, response: Response) returns (request: Option<SavePayload<Item>>)
      modifies this
      ensures old(editingBillId) == Some(id) || !HasId(old(bills), id) || !confirmed ==>
                request.None? && bills == old(bills)
      ensures old(editingBillId) != Some(id) && HasId(old(bills), id) && confirmed ==>
                request == Some(DeletePayloadOf(FindById(old(bills), id).value)) &&
                (Succeeded(response) ==> bills == RemoveId(old(bills), id)) &&
                (!Succeeded(response) ==> bills == old(bills))
      ensures UniqueIds(old(bills)) ==> UniqueIds(bills)
      ensures billFiles == old(billFiles)
      ensures editingBillId == old(editingBillId) && editedBillData == old(editedBillData) && isAddingNew == old(isAddingNew)
      ensures fromDate == old(fromDate) && toDate == old(toDate) && searchQuery == old(searchQuery)
      ensures openUpload == old(openUpload) && currentUploadBillId == old(currentUploadBillId)
    {
      var billToDelete := FindById(bills, id);
      if editingBillId == Some(id) || billToDelete.None? || !confirmed {
        return None;
      }
      request := Some(DeletePayloadOf(billToDelete.value));
      if Succeeded(response) {
        RemoveIdSpec(bills, id);
        if UniqueIds(bills) {
          SubsequenceDistinct(RemoveId(bills, id), bills, (b: Bill) => b.id);
        }
        bills := RemoveId(bills, id);
      }
    }

    /** The date pickers, the Clear button and the search box. */
    method SetFilter(from: Option<int>, to: Option<int>, query: string)
      modifies this
      ensures fromDate == from && toDate == to && searchQuery == query
      ensures bills == old(bills) && billFiles == old(billFiles)
      ensures editingBillId == old(editingBillId) && editedBillData == old(editedBillData) && isAddingNew == old(isAddingNew)
      ensures openUpload == old(openUpload) && currentUploadBillId == old(currentUploadBillId)
    {
      fromDate, toDate, searchQuery := from, to, query;
    }

    /** The upload dialog's `onClose`: it closes, and the files collected so far stay. */
    method HandleCloseUpload()
      modifies this
      ensures !openUpload && currentUploadBillId == old(currentUploadBillId)
      ensures bills == old(bills) && billFiles == old(billFiles)
      ensures editingBillId == old(editingBillId) && editedBillData == old(editedBillData) && isAddingNew == old(isAddingNew)
      ensures fromDate == old(fromDate) && toDate == old(toDate) && searchQuery == old(searchQuery)
    {
      openUpload := false;
    }
  }
}
