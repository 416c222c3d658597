/**
 * The bill dashboard of the current console (src/pages/Dashboard.tsx): the list of bills loaded
 * from the server, the bill open in the add/edit dialog, the documents open in the viewer and
 * the date range that filters the table. Saving posts the edited bill and merges it into the
 * list; deleting asks for confirmation, posts the bill and drops it from the list.
 */
module Dashboard {
  import opened Common
  import opened Text
  import opened BillModel
  import opened MimePrefix

  // ---------------------------------------------------------------- loading

  /** The name an unnamed stored invoice is shown under: `Invoice-{billNo or position}-{i + 1}.pdf`. */
  function DefaultName(billNo: string, index: nat, i: nat): (r: string)
    ensures "Invoice-" <= r && EndsWith(r, ".pdf")
  {
    var r := "Invoice-" + (if billNo != "" then billNo else NatToString(index + 1)) + "-" + NatToString(i + 1) + ".pdf";
    assert r[|r| - 4..] == ".pdf";
    r
  }

  /** The type tag of a stored invoice: "S" is a sales invoice and every other code a voucher. */
  function LoadKind(invoiceType: string): (r: string)
    ensures r == Sales <==> invoiceType == "S"
    ensures r == Sales || r == Voucher
  {
    if invoiceType == "S" then Sales else Voucher
  }

  /** The `i`-th invoice of the bill at `index`, as loaded; it needs the stored file body. */
  function LoadInvoice(inv: RawInvoice, billNo: string, index: nat, i: nat): Invoice
    requires inv.invoiceFile.Some?
  {
    Invoice(if inv.invoiceFileName != "" then inv.invoiceFileName else DefaultName(billNo, index, i),
            ToDataUrl(inv.invoiceFile.value), LoadKind(inv.invoiceType), inv.invoiceId)
  }

  /** The bill at `index`, as loaded: its position decides its id, whatever the server's id. */
  function LoadBill(raw: RawBill, index: nat): Bill
    requires BillFilesPresent(raw)
  {
    var invs := raw.invoice.GetOr([]);
    Bill(index + 1, raw.billNo, raw.partyName,
         if raw.billDate != "" then raw.billDate else raw.date,
         raw.tax, raw.amount,
         seq(|invs|, i requires 0 <= i < |invs| => LoadInvoice(invs[i], raw.billNo, index, i)))
  }

  /**
   * `processedBills`: the server's list mapped one to one, or `None` when the mapping throws
   * because some invoice has no file body (the caller then keeps its list).
   */
  function ProcessBills(raw: seq<RawBill>): Option<seq<Bill>> {
    if FilesPresent(raw) then Some(seq(|raw|, k requires 0 <= k < |raw| => LoadBill(raw[k], k)))
    else None
  }

  /**
   * Loading fails exactly when some invoice has no file body. Otherwise it maps bills one to one
   * and in order, numbering them 1, 2, ... (so their ids are distinct); a bill's date is its
   * `billDate`, else its `date`; its invoices are those of the server's array (none when there
   * is no array), each named, typed sales exactly for code "S" and otherwise voucher, with a
   * data-URI url that ends with the stored body.
   */
  lemma ProcessBillsSpec(raw: seq<RawBill>)
    ensures ProcessBills(raw).None? <==>
              exists k, i :: 0 <= k < |raw| && raw[k].invoice.Some? && 0 <= i < |raw[k].invoice.value| &&
                             raw[k].invoice.value[i].invoiceFile.None?
    ensures ProcessBills(raw).Some? ==> |ProcessBills(raw).value| == |raw|
    ensures ProcessBills(raw).Some? ==> UniqueIds(ProcessBills(raw).value)
    ensures ProcessBills(raw).Some? ==>
              forall k :: 0 <= k < |raw| ==>
                var b, r := ProcessBills(raw).value[k], raw[k];
                b.id == k + 1 && b.billNo == r.billNo && b.partyName == r.partyName &&
                b.tax == r.tax && b.amount == r.amount &&
                (r.billDate != "" ==> b.date == r.billDate) &&
                (r.billDate == "" ==> b.date == r.date) &&
                |b.invoices| == |r.invoice.GetOr([])|
    ensures ProcessBills(raw).Some? ==>
              forall k, i :: 0 <= k < |raw| && 0 <= i < |ProcessBills(raw).value[k].invoices| ==>
                var inv, src := ProcessBills(raw).value[k].invoices[i], raw[k].invoice.value[i];
                src.invoiceFile.Some? &&
                inv.name != "" && (src.invoiceFileName != "" ==> inv.name == src.invoiceFileName) &&
                (inv.kind == Sales <==> src.invoiceType == "S") && (inv.kind == Sales || inv.kind == Voucher) &&
                "data:" <= inv.url && EndsWith(inv.url, src.invoiceFile.value) &&
                ("data:" <= src.invoiceFile.value ==> inv.url == src.invoiceFile.value) &&
                inv.invoiceId == src.invoiceId
  {
  }

  // ---------------------------------------------------------------- saving

  /** One invoice of the `/addBill` body. */
  datatype SaveItem = SaveItem(billNo: string, invoiceType: string, invoiceFileName: string,
                               invoiceFileType: string, invoiceFile: string)

  /** `url.includes(",") ? url.split(",")[1] : url`: the base64 body of an invoice url. */
  function BodyOf(url: string): (r: string)
    ensures ',' !in url ==> r == url
    ensures ',' in url ==> ',' !in r && Some(r) == SecondField(url, ',')
  {
    ContainsChar(url, ',');
    if Contains(url, [',']) then SecondField(url, ',').value else url
  }

  /**
   * The body the dashboard posts for an invoice is the body it loaded: a base64 body turned
   * into a data URI on loading comes back out unchanged when saving.
   */
  lemma BodyOfDataUrl(body: string)
    requires ',' !in body
    ensures BodyOf(ToDataUrl(body)) == body
  {
    DataUrlBody(body);
  }

  /** The invoice type code of a type tag: "S" for sales, "V" for anything else. */
  function KindCode(kind: string): string {
    if kind == Sales then "S" else "V"
  }

  /** One invoice of the save body: trimmed names, the extension after the last dot, the body. */
  function SaveItemOf(billNo: string, inv: Invoice): SaveItem {
    SaveItem(Trim(billNo), KindCode(inv.kind), Trim(inv.name), FileExtension(inv.name), BodyOf(inv.url))
  }

  /** The `/addBill` body for a bill: trimmed scalars and one item per invoice, in order. */
  function SavePayloadOf(b: Bill): SavePayload<SaveItem> {
    TrimmedPayload(b, seq(|b.invoices|, i requires 0 <= i < |b.invoices| => SaveItemOf(b.billNo, b.invoices[i])))
  }

  /**
   * The save body has one item per invoice, in order, and is sent exactly when none of the
   * bill number, date, party name, amount and tax is blank.
   */
  lemma SavePayloadOfSpec(b: Bill)
    ensures |SavePayloadOf(b).invoice| == |b.invoices|
    ensures forall i :: 0 <= i < |b.invoices| ==> SavePayloadOf(b).invoice[i] == SaveItemOf(b.billNo, b.invoices[i])
    ensures IsComplete(SavePayloadOf(b)) <==>
              !IsBlank(b.billNo) && !IsBlank(b.date) && !IsBlank(b.partyName) &&
              !IsBlank(b.amount) && !IsBlank(b.tax)
  {
    CompleteIffNoBlankField(b, SavePayloadOf(b).invoice);
  }

  /** The invoice as the list keeps it after a save: a data URI, a known type, and an id. */
  function SavedInvoice(inv: Invoice, index: nat): Invoice {
    Invoice(inv.name, ToDataUrl(inv.url),
            if inv.kind == Sales || inv.kind == Voucher then inv.kind else Sales,
            Some(if IsTruthyId(inv.invoiceId) then inv.invoiceId.value else index + 1))
  }

  /** The bill as the list keeps it after a save. */
  function SavedBill(b: Bill): Bill {
    b.(invoices := seq(|b.invoices|, i requires 0 <= i < |b.invoices| => SavedInvoice(b.invoices[i], i)))
  }

  /**
   * A saved bill keeps its fields and id; its invoices keep names and order, and each has a
   * data-URI url, a sales or voucher type (an unknown type becoming sales) and a non-zero id: its
   * own when it had one, else its position plus one.
   */
  lemma SavedBillSpec(b: Bill)
    ensures SavedBill(b).id == b.id && |SavedBill(b).invoices| == |b.invoices|
    ensures forall i :: 0 <= i < |b.invoices| ==>
              var s, inv := SavedBill(b).invoices[i], b.invoices[i];
              s.name == inv.name && "data:" <= s.url && EndsWith(s.url, inv.url) &&
              (s.kind == Sales || s.kind == Voucher) &&
              (inv.kind == Sales || inv.kind == Voucher ==> s.kind == inv.kind) &&
              IsTruthyId(s.invoiceId) &&
              (IsTruthyId(inv.invoiceId) ==> s.invoiceId == inv.invoiceId) &&
              (!IsTruthyId(inv.invoiceId) ==> s.invoiceId == Some(i + 1))
  {
  }

  /**
   * The merge after a successful save, as written: the bill replaces the one with its id, or
   * is appended numbered one past the list's length.
   */
  function MergeSaved(prev: seq<Bill>, b: Bill): (r: seq<Bill>)
    ensures HasId(prev, b.id) ==> r == ReplaceById(prev, b.id, SavedBill(b))
    ensures !HasId(prev, b.id) ==> r == prev + [SavedBill(b).(id := |prev| + 1)]
  {
    if HasId(prev, b.id) then ReplaceById(prev, b.id, SavedBill(b))
    else prev + [SavedBill(b).(id := |prev| + 1)]
  }

  /**
   * On a list with distinct ids, the merge as written keeps them distinct exactly when the bill
   * replaces a listed one or no listed bill already holds the id one past the length.
   */
  lemma MergeSavedUnique(prev: seq<Bill>, b: Bill)
    requires UniqueIds(prev)
    ensures UniqueIds(MergeSaved(prev, b)) <==> HasId(prev, b.id) || !HasId(prev, |prev| + 1)
  {
    if HasId(prev, b.id) {
      ReplaceByIdKeepsIds(prev, b.id, SavedBill(b));
    } else {
      AppendUnique(prev, SavedBill(b).(id := |prev| + 1));
    }
  }

  /**
   * Adding after a delete reuses an id: from bills 1, 2, 3, deleting bill 1 leaves ids 2 and 3,
   * the Add button proposes id 3, and saving the new bill overwrites bill 3 in the list instead
   * of adding a row.
   */
  lemma AddAfterDeleteOverwrites(b1: Bill, b2: Bill, b3: Bill, draft: Bill)
    requires b1.id == 1 && b2.id == 2 && b3.id == 3 && b3.billNo != "new"
    requires draft == BlankBill.(id := NextIdByLength(RemoveId([b1, b2, b3], 1)), billNo := "new")
    ensures RemoveId([b1, b2, b3], 1) == [b2, b3]
    ensures draft.id == b3.id
    ensures MergeSaved([b2, b3], draft) == [b2, SavedBill(draft)]
    ensures b3 !in MergeSaved([b2, b3], draft)
  {
    assert [b3][1..] == [];
    assert RemoveId([b3], 1) == [b3];
    assert [b2, b3][1..] == [b3];
    assert RemoveId([b2, b3], 1) == [b2, b3];
    assert [b1, b2, b3][1..] == [b2, b3];
    assert RemoveId([b1, b2, b3], 1) == [b2, b3];
    var r := MergeSaved([b2, b3], draft);
    assert [b2, b3][1].id == draft.id;
    assert r == [b2, SavedBill(draft)];
    assert SavedBill(draft).billNo == "new";
  }

  /** The largest id of a run numbered `offset + 1`, `offset + 2`, ... is its last number. */
  lemma {:induction false} MaxIdNumbered(bills: seq<Bill>, offset: nat)
    requires forall k :: 0 <= k < |bills| ==> bills[k].id == offset + k + 1
    ensures bills != [] ==> MaxId(bills) == offset + |bills|
    decreases |bills|
  {
    if bills != [] {
      MaxIdNumbered(bills[1..], offset + 1);
    }
  }

  /**
   * On a list as loaded (numbered 1, 2, ...) the fresh id is the one the Add button and the
   * merge use, one past the length: the two rules differ only after a delete.
   */
  lemma FreshIdAfterLoad(raw: seq<RawBill>)
    requires ProcessBills(raw).Some?
    ensures FreshId(ProcessBills(raw).value) == NextIdByLength(ProcessBills(raw).value) == |raw| + 1
  {
    MaxIdNumbered(ProcessBills(raw).value, 0);
  }

  /** The merge after a save with the fresh-id rule: an appended bill gets an unused id. */
  function MergeSavedFresh(prev: seq<Bill>, b: Bill): (r: seq<Bill>)
    ensures HasId(prev, b.id) ==> r == ReplaceById(prev, b.id, SavedBill(b))
    ensures !HasId(prev, b.id) ==> r == prev + [SavedBill(b).(id := FreshId(prev))]
  {
    if HasId(prev, b.id) then ReplaceById(prev, b.id, SavedBill(b))
    else prev + [SavedBill(b).(id := FreshId(prev))]
  }

  /** With fresh ids, saving keeps the ids of the list distinct. */
  lemma MergeSavedFreshUnique(prev: seq<Bill>, b: Bill)
    requires UniqueIds(prev)
    ensures UniqueIds(MergeSavedFresh(prev, b))
  {
    if HasId(prev, b.id) {
      ReplaceByIdKeepsIds(prev, b.id, SavedBill(b));
    }
  }

  /**
   * Saving a listed bill replaces it in place and keeps every id; saving a new bill adds
   * exactly one row at the end and keeps the others; and saving a bill drafted with a fresh id
   * twice has the effect of saving it once.
   */
  lemma MergeSavedFreshSpec(prev: seq<Bill>, b: Bill)
    ensures HasId(prev, b.id) ==> Ids(MergeSavedFresh(prev, b)) == Ids(prev)
    ensures !HasId(prev, b.id) ==>
              |MergeSavedFresh(prev, b)| == |prev| + 1 && MergeSavedFresh(prev, b)[..|prev|] == prev
    ensures b.id == FreshId(prev) ==>
              MergeSavedFresh(MergeSavedFresh(prev, b), b) == MergeSavedFresh(prev, b)
  {
    var r := MergeSavedFresh(prev, b);
    if HasId(prev, b.id) {
      ReplaceByIdKeepsIds(prev, b.id, SavedBill(b));
      ReplaceTwice(prev, b.id, SavedBill(b));
    } else {
      assert r[..|prev|] == prev;
      assert r[|prev|].id == FreshId(prev);
      if b.id == FreshId(prev) {
        assert HasId(r, b.id) by {
          assert r[|prev|].id == b.id;
        }
        ReplaceLast(prev, SavedBill(b).(id := FreshId(prev)));
      }
    }
  }

  /**
   * A bill drafted under the fresh id (as the Add button does) is appended when saved: every
   * listed bill stays where it was, so the overwrite above cannot happen. From bills 2 and 3 the
   * draft gets id 4.
   */
  lemma AddThenSaveAppends(prev: seq<Bill>, draft: Bill)
    requires draft.id == FreshId(prev)
    ensures MergeSavedFresh(prev, draft) == prev + [SavedBill(draft)]
    ensures forall b :: b in prev ==> b in MergeSavedFresh(prev, draft)
    ensures UniqueIds(prev) ==> UniqueIds(MergeSavedFresh(prev, draft))
    ensures |prev| == 2 && prev[0].id == 2 && prev[1].id == 3 ==> draft.id == 4
  {
    assert SavedBill(draft).(id := FreshId(prev)) == SavedBill(draft);
    if UniqueIds(prev) {
      MergeSavedFreshUnique(prev, draft);
    }
    if |prev| == 2 && prev[0].id == 2 && prev[1].id == 3 {
      assert prev[1..][1..] == [];
      assert MaxId(prev[1..]) == 3;
    }
  }

  /** Replacing the same id with the same bill twice is replacing it once. */
  lemma ReplaceTwice(bills: seq<Bill>, id: int, replacement: Bill)
    requires replacement.id == id && HasId(bills, id)
    ensures HasId(ReplaceById(bills, id, replacement), id)
    ensures ReplaceById(ReplaceById(bills, id, replacement), id, replacement) == ReplaceById(bills, id, replacement)
  {
    var k :| 0 <= k < |bills| && bills[k].id == id;
    assert ReplaceById(bills, id, replacement)[k].id == id;
  }

  /** With distinct ids, replacing the id of the last bill by that bill again changes nothing. */
  lemma ReplaceLast(prev: seq<Bill>, last: Bill)
    requires !HasId(prev, last.id)
    ensures ReplaceById(prev + [last], last.id, last) == prev + [last]
  {
  }

  // ---------------------------------------------------------------- deleting and viewing

  /** One invoice of the `/deleteBill` body; the body is absent when the url has no comma. */
  datatype DeleteItem = DeleteItem(invoiceId: Option<int>, invoiceType: string, invoiceFileName: string,
                                   invoiceFileType: string, invoiceFile: Option<string>, billNo: string)

  /** The `/deleteBill` body: the bill's own (untrimmed) fields and one item per invoice. */
  function DeletePayloadOf(b: Bill): (p: SavePayload<DeleteItem>)
    ensures p.billNo == b.billNo && p.billDate == b.date && p.partyName == b.partyName
    ensures p.tax == b.tax && p.amount == b.amount && |p.invoice| == |b.invoices|
    ensures forall i :: 0 <= i < |b.invoices| ==>
              var item, inv := p.invoice[i], b.invoices[i];
              item.invoiceId == inv.invoiceId &&
              (item.invoiceType == "S" <==> inv.kind == Sales) &&
              (item.invoiceType == "S" || item.invoiceType == "V") &&
              item.invoiceFileName == inv.name &&
              item.invoiceFileType == FileExtension(inv.name) &&
              item.invoiceFile == SecondField(inv.url, ',') &&
              item.billNo == b.billNo
  {
    var items := seq(|b.invoices|, i requires 0 <= i < |b.invoices| =>
                   var inv := b.invoices[i];
                   DeleteItem(inv.invoiceId, KindCode(inv.kind), inv.name, FileExtension(inv.name),
                              SecondField(inv.url, ','), b.billNo));
    SavePayload(b.billNo, b.date, b.partyName, items, b.tax, b.amount)
  }

  /**
   * The documents the viewer receives for a bill, one per invoice and in order: the invoice's
   * name, its url as a data URI, and its type when sales or voucher, else sales.
   */
  function ViewDocuments(b: Bill): (r: seq<Document>)
    ensures |r| == |b.invoices|
    ensures forall i :: 0 <= i < |r| ==>
              var doc, inv := r[i], b.invoices[i];
              doc.name == inv.name && doc.url == ToDataUrl(inv.url) &&
              "data:" <= doc.url && EndsWith(doc.url, inv.url) &&
              (doc.kind == Sales || doc.kind == Voucher) &&
              (inv.kind == Sales || inv.kind == Voucher ==> doc.kind == inv.kind)
  {
    seq(|b.invoices|, i requires 0 <= i < |b.invoices| =>
      var inv := b.invoices[i];
      Document(inv.name, ToDataUrl(inv.url), if inv.kind == Sales || inv.kind == Voucher then inv.kind else Sales))
  }

  // ---------------------------------------------------------------- filtering

  /** The filter's test for one bill, as a function value. */
  function KeepsDate(dayOf: string -> Option<int>, from: Option<int>, to: Option<int>): Bill -> bool {
    (b: Bill) => InRange(dayOf(b.date), from, to)
  }

  /** `filteredBills`: the bills whose date lies in the range, in order. */
  function FilteredBills(bills: seq<Bill>, dayOf: string -> Option<int>, from: Option<int>, to: Option<int>): seq<Bill> {
    Filter(bills, KeepsDate(dayOf, from, to))
  }

  /**
   * The table shows, in order, exactly the bills on or after the start day (when set) and on or
   * before the end day (when set); with neither set it shows every bill.
   */
  lemma FilteredBillsSpec(bills: seq<Bill>, dayOf: string -> Option<int>, from: Option<int>, to: Option<int>)
    ensures IsSubsequence(FilteredBills(bills, dayOf, from, to), bills)
    ensures forall b :: b in FilteredBills(bills, dayOf, from, to) <==> b in bills && InRange(dayOf(b.date), from, to)
    ensures from.None? && to.None? ==> FilteredBills(bills, dayOf, from, to) == bills
  {
    if from.None? && to.None? {
      forall i | 0 <= i < |bills|
        ensures KeepsDate(dayOf, from, to)(bills[i])
      {
        assert InRange(dayOf(bills[i].date), from, to);
      }
      FilterKeepsAll(bills, KeepsDate(dayOf, from, to));
    }
  }

  // ---------------------------------------------------------------- the page

  class Page {
    var bills: seq<Bill>
    var selectedBill: Option<Bill>
    var addMode: bool
    var editDialogOpen: bool
    var viewDocumentFiles: seq<Document>
    var viewDocumentOpen: bool
    var fromDate: Option<int>
    var toDate: Option<int>

    constructor ()
      ensures bills == [] && selectedBill.None? && !addMode && !editDialogOpen && !viewDocumentOpen
      ensures viewDocumentFiles == [] && fromDate.None? && toDate.None?
    {
      bills, selectedBill, addMode, editDialogOpen := [], None, false, false;
      viewDocumentFiles, viewDocumentOpen, fromDate, toDate := [], false, None, None;
    }

    /** The rows the table shows. */
    function Shown(dayOf: string -> Option<int>): seq<Bill>
      reads this
    {
      FilteredBills(bills, dayOf, fromDate, toDate)
    }

    /**
     * The loading effect: the server's list when it could be read (`None` when the fetch
     * failed) and mapped without throwing, and then its ids are distinct; otherwise the list
     * stays as it was.
     */
    method Load(raw: Option<seq<RawBill>>)
      modifies this
      ensures raw.Some? && ProcessBills(raw.value).Some? ==>
                bills == ProcessBills(raw.value).value && UniqueIds(bills)
      ensures raw.None? || ProcessBills(raw.value).None? ==> bills == old(bills)
      ensures selectedBill == old(selectedBill) && addMode == old(addMode) && editDialogOpen == old(editDialogOpen)
      ensures viewDocumentFiles == old(viewDocumentFiles) && viewDocumentOpen == old(viewDocumentOpen)
      ensures fromDate == old(fromDate) && toDate == old(toDate)
    {
      if raw.Some? {
        var loaded := ProcessBills(raw.value);
        if loaded.Some? {
          ProcessBillsSpec(raw.value);
          bills := loaded.value;
        }
      }
    }

    /** `handleEdit`: the dialog opens in edit mode on the bill. */
    method HandleEdit(bill: Bill)
      modifies this
      ensures selectedBill == Some(bill) && !addMode && editDialogOpen
      ensures bills == old(bills)
      ensures viewDocumentFiles == old(viewDocumentFiles) && viewDocumentOpen == old(viewDocumentOpen)
      ensures fromDate == old(fromDate) && toDate == old(toDate)
    {
      selectedBill, addMode, editDialogOpen := Some(bill), false, true;
    }

    /**
     * The Add button: the dialog opens in add mode on a blank bill dated `today`, numbered one
     * past the list's length; that id is new to the list while no id exceeds the length.
     */
    method HandleAdd(today: string)
      modifies this
      ensures selectedBill == Some(BlankBill.(id := NextIdByLength(bills), date := today))
      ensures (forall k :: 0 <= k < |bills| ==> bills[k].id <= |bills|) ==> !HasId(bills, selectedBill.value.id)
      ensures addMode && editDialogOpen && bills == old(bills)
      ensures viewDocumentFiles == old(viewDocumentFiles) && viewDocumentOpen == old(viewDocumentOpen)
      ensures fromDate == old(fromDate) && toDate == old(toDate)
    {
      selectedBill := Some(BlankBill.(id := NextIdByLength(bills), date := today));
      addMode, editDialogOpen := true, true;
    }

    /** The dialog's `onClose`. */
    method HandleCloseEditDialog()
      modifies this
      ensures !editDialogOpen && bills == old(bills) && selectedBill == old(selectedBill) && addMode == old(addMode)
      ensures viewDocumentFiles == old(viewDocumentFiles) && viewDocumentOpen == old(viewDocumentOpen)
      ensures fromDate == old(fromDate) && toDate == old(toDate)
    {
      editDialogOpen := false;
    }

    /**
     * `handleSaveEditedBill` with the server's `response`: an incomplete bill is dropped before
     * any request; otherwise its payload is posted and, only when the server answers with an ok
     * status, the bill is merged into the list.
     */
    method HandleSaveEditedBill(updated: Bill, response: Response) returns (request: Option<SavePayload<SaveItem>>)
      modifies this
      ensures !IsComplete(SavePayloadOf(updated)) ==> request.None? && bills == old(bills)
      ensures IsComplete(SavePayloadOf(updated)) ==> request == Some(SavePayloadOf(updated))
      ensures IsComplete(SavePayloadOf(updated)) && Succeeded(response) ==>
                bills == MergeSaved(old(bills), updated)
      ensures !Succeeded(response) ==> bills == old(bills)
      ensures UniqueIds(old(bills)) && (HasId(old(bills), updated.id) || !HasId(old(bills), |old(bills)| + 1)) ==>
                UniqueIds(bills)
      ensures selectedBill == old(selectedBill) && addMode == old(addMode) && editDialogOpen == old(editDialogOpen)
      ensures viewDocumentFiles == old(viewDocumentFiles) && viewDocumentOpen == old(viewDocumentOpen)
      ensures fromDate == old(fromDate) && toDate == old(toDate)
    {
      var payload := SavePayloadOf(updated);
      request := None;
      if IsComplete(payload) {
        request := Some(payload);
        if Succeeded(response) {
          MergeIntoList(updated);
        }
      }
    }

    /**
     * The state update of a successful save (`setBills` with the merge): the list becomes the
     * merge as written, which keeps ids distinct when the bill is listed or one past the length
     * is free; nothing else changes.
     */
    method MergeIntoList(updated: Bill)
      modifies this
      ensures bills == MergeSaved(old(bills), updated)
      ensures UniqueIds(old(bills)) && (HasId(old(bills), updated.id) || !HasId(old(bills), |old(bills)| + 1)) ==>
                UniqueIds(bills)
      ensures selectedBill == old(selectedBill) && addMode == old(addMode) && editDialogOpen == old(editDialogOpen)
      ensures viewDocumentFiles == old(viewDocumentFiles) && viewDocumentOpen == old(viewDocumentOpen)
      ensures fromDate == old(fromDate) && toDate == old(toDate)
    {
      if UniqueIds(bills) {
        MergeSavedUnique(bills, updated);
      }
      bills := MergeSaved(bills, updated);
    }

    /**
     * `handleViewDocument`: a bill with invoices opens the viewer on its documents; a bill
     * without shows a warning and changes nothing.
     */
    method HandleViewDocument(bill: Bill) returns (warning: bool)
      modifies this
      ensures warning <==> bill.invoices == []
      ensures !warning ==> viewDocumentFiles == ViewDocuments(bill) && viewDocumentOpen
      ensures warning ==> viewDocumentFiles == old(viewDocumentFiles) && viewDocumentOpen == old(viewDocumentOpen)
      ensures bills == old(bills) && selectedBill == old(selectedBill)
      ensures addMode == old(addMode) && editDialogOpen == old(editDialogOpen)
      ensures fromDate == old(fromDate) && toDate == old(toDate)
    {
      if |bill.invoices| > 0 {
        viewDocumentFiles := ViewDocuments(bill);
        viewDocumentOpen := true;
        warning := false;
      } else {
        warning := true;
      }
    }

    /**
     * `handleDeleteBill` after the confirmation prompt (`confirmed`) and with the server's
     * `response`: an unknown id does nothing; a declined prompt does nothing; otherwise the
     * bill's payload is sent and, only when the server answers with an ok status, every bill
     * with that id leaves the list, the others staying in order.
     */
    method HandleDeleteBill(id: int, confirmed: bool, response: Response) returns (request: Option<SavePayload<DeleteItem>>)
      modifies this
      ensures !HasId(old(bills), id) || !confirmed ==> request.None? && bills == old(bills)
      ensures HasId(old(bills), id) && confirmed ==>
                request == Some(DeletePayloadOf(FindById(old(bills), id).value)) &&
                (Succeeded(response) ==> bills == RemoveId(old(bills), id)) &&
                (!Succeeded(response) ==> bills == old(bills))
      ensures UniqueIds(old(bills)) ==> UniqueIds(bills)
      ensures selectedBill == old(selectedBill) && addMode == old(addMode) && editDialogOpen == old(editDialogOpen)
      ensures viewDocumentFiles == old(viewDocumentFiles) && viewDocumentOpen == old(viewDocumentOpen)
      ensures fromDate == old(fromDate) && toDate == old(toDate)
    {
      var billToDelete := FindById(bills, id);
      if billToDelete.None? || !confirmed {
        return None;
      }
      request := Some(DeletePayloadOf(billToDelete.value));
      if Succeeded(response) {
        RemoveIdSpec(bills, id);
        if UniqueIds(bills) {
          SubsequenceDistinct(RemoveId(bills, id), bills, (b: Bill) => b.id);
        }
        bills := RemoveId(bills, id);
      }
    }

    /** The date pickers and the Clear button. */
    method SetDates(from: Option<int>, to: Option<int>)
      modifies this
      ensures fromDate == from && toDate == to && bills == old(bills)
      ensures selectedBill == old(selectedBill) && addMode == old(addMode) && editDialogOpen == old(editDialogOpen)
      ensures viewDocumentFiles == old(viewDocumentFiles) && viewDocumentOpen == old(viewDocumentOpen)
    {
      fromDate, toDate := from, to;
    }

    /** The viewer's `onClose`: the viewer closes and keeps its documents. */
    method HandleCloseViewer()
      modifies this
      ensures !viewDocumentOpen && viewDocumentFiles == old(viewDocumentFiles)
      ensures bills == old(bills) && selectedBill == old(selectedBill)
      ensures addMode == old(addMode) && editDialogOpen == old(editDialogOpen)
      ensures fromDate == old(fromDate) && toDate == old(toDate)
    {
      viewDocumentOpen := false;
    }
  }
}
