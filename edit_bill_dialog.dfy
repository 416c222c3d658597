/**
 * The add/edit bill dialog of the current console (src/components/EditBillDialog.tsx): the bill
 * being edited (`editedBill`) with its invoices, and the validation messages (`errors`). The
 * invoice section inside it reports uploads and deletions back through `handleUpload`,
 * `handleDelete` and `handleDeleteAll`.
 */
module EditBillDialog {
  import opened Common
  import opened Text
  import opened BillModel
  import MimePrefix
  import InvoiceSection

  /** The name an invoice without one is given on opening. */
  function DefaultInvoiceName(billNo: string): (r: string)
    ensures "Invoice-" <= r && EndsWith(r, ".pdf")
  {
    var r := "Invoice-" + billNo + ".pdf";
    assert r[|r| - 4..] == ".pdf";
    r
  }

  /**
   * The opening normalisation of one invoice: the name defaults to the bill's default name, the
   * type to "sales", the url becomes a data URI; only these three fields are kept.
   */
  function NormaliseInvoice(inv: Invoice, billNo: string): Invoice {
    Invoice(if inv.name != "" then inv.name else DefaultInvoiceName(billNo),
            MimePrefix.ToDataUrl(inv.url),
            if inv.kind != "" then inv.kind else Sales,
            None)
  }

  /** The invoices of a bill as the dialog holds them after opening. */
  function Normalise(b: Bill): seq<Invoice> {
    seq(|b.invoices|, i requires 0 <= i < |b.invoices| => NormaliseInvoice(b.invoices[i], b.billNo))
  }

  /**
   * Normalisation maps the invoices one to one and in order; every result has a name, a type
   * and a data URI, keeps a name, type or data URI it already had, and carries no id.
   */
  lemma NormaliseSpec(b: Bill)
    ensures |Normalise(b)| == |b.invoices|
    ensures forall i :: 0 <= i < |b.invoices| ==>
              var inv, n := b.invoices[i], Normalise(b)[i];
              n.name != "" && n.kind != "" && "data:" <= n.url && EndsWith(n.url, inv.url) &&
              n.invoiceId.None? &&
              (inv.name != "" ==> n.name == inv.name) &&
              (inv.name == "" ==> n.name == "Invoice-" + b.billNo + ".pdf") &&
              (inv.kind != "" ==> n.kind == inv.kind) &&
              (inv.kind == "" ==> n.kind == Sales) &&
              ("data:" <= inv.url ==> n.url == inv.url)
  {
  }

  /**
   * Because the normalisation drops `invoiceId`, the invoice section inside this dialog never
   * finds a stored invoice to delete on the server: every deletion takes the local path.
   */
  lemma {:induction false} NormalisedNeverStored(b: Bill, fileName: string, k: InvoiceSection.Kind)
    ensures InvoiceSection.FindStored(Normalise(b), fileName, k).None?
    ensures InvoiceSection.DeleteAllRefs(Normalise(b), k) == []
  {
    var n := Normalise(b);
    assert forall i :: 0 <= i < |n| ==> n[i].invoiceId.None?;
  }

  /** `some(f => f.name === name && f.type === kind)`. */
  predicate HasInvoice(invoices: seq<Invoice>, name: string, kind: string) {
    exists i :: 0 <= i < |invoices| && invoices[i].name == name && invoices[i].kind == kind
  }

  /** No two invoices share both name and type. */
  predicate UniqueNameKind(invoices: seq<Invoice>) {
    forall i, j :: 0 <= i < j < |invoices| ==>
      invoices[i].name != invoices[j].name || invoices[i].kind != invoices[j].kind
  }

  /** The invoice list after `handleUpload` of `inv`: unchanged when its name and type are taken. */
  function WithUpload(invoices: seq<Invoice>, inv: Invoice): (r: seq<Invoice>)
    ensures HasInvoice(invoices, inv.name, inv.kind) ==> r == invoices
    ensures !HasInvoice(invoices, inv.name, inv.kind) ==> r == invoices + [inv]
  {
    if HasInvoice(invoices, inv.name, inv.kind) then invoices else invoices + [inv]
  }

  /** The invoice list after `handleDelete`: every invoice with this name and type removed. */
  function WithoutInvoice(invoices: seq<Invoice>, kind: string, name: string): seq<Invoice> {
    Filter(invoices, (f: Invoice) => f.name != name || f.kind != kind)
  }

  /** The invoice list after `handleDeleteAll`: every invoice of this type removed. */
  function WithoutKind(invoices: seq<Invoice>, kind: string): seq<Invoice> {
    Filter(invoices, (f: Invoice) => f.kind != kind)
  }

  /** An upload keeps name-and-type pairs unique, and a second identical upload changes nothing. */
  lemma UploadKeepsUnique(invoices: seq<Invoice>, inv: Invoice)
    ensures UniqueNameKind(invoices) ==> UniqueNameKind(WithUpload(invoices, inv))
    ensures HasInvoice(WithUpload(invoices, inv), inv.name, inv.kind)
    ensures WithUpload(WithUpload(invoices, inv), inv) == WithUpload(invoices, inv)
  {
    var r := WithUpload(invoices, inv);
    if !HasInvoice(invoices, inv.name, inv.kind) {
      assert r[|invoices|] == inv;
    }
  }

  /**
   * Deleting removes exactly the invoices with that name and type and keeps the others in
   * order; deleting right after a fresh upload of the same name and type gives the list back.
   */
  lemma {:induction false} DeleteSpec(invoices: seq<Invoice>, inv: Invoice)
    ensures !HasInvoice(WithoutInvoice(invoices, inv.kind, inv.name), inv.name, inv.kind)
    ensures IsSubsequence(WithoutInvoice(invoices, inv.kind, inv.name), invoices)
    ensures forall f :: f in invoices && (f.name != inv.name || f.kind != inv.kind) ==>
              f in WithoutInvoice(invoices, inv.kind, inv.name)
    ensures !HasInvoice(invoices, inv.name, inv.kind) ==>
              WithoutInvoice(WithUpload(invoices, inv), inv.kind, inv.name) == invoices
  {
    var p := (f: Invoice) => f.name != inv.name || f.kind != inv.kind;
    var r := WithoutInvoice(invoices, inv.kind, inv.name);
    forall i | 0 <= i < |r|
      ensures r[i].name != inv.name || r[i].kind != inv.kind
    {
      assert r[i] in r;
    }
    if !HasInvoice(invoices, inv.name, inv.kind) {
      FilterAppend(invoices, [inv], p);
      FilterKeepsAll(invoices, p);
      assert Filter([inv], p) == [];
    }
  }

  /** Deleting a type leaves no invoice of it and keeps every invoice of another type, in order. */
  lemma DeleteAllSpec(invoices: seq<Invoice>, kind: string)
    ensures forall f :: f in WithoutKind(invoices, kind) <==> f in invoices && f.kind != kind
    ensures IsSubsequence(WithoutKind(invoices, kind), invoices)
    ensures UniqueNameKind(invoices) ==> UniqueNameKind(WithoutKind(invoices, kind))
  {
    var r := WithoutKind(invoices, kind);
    var key := (f: Invoice) => (f.name, f.kind);
    if UniqueNameKind(invoices) {
      assert DistinctKeys(invoices, key);
      SubsequenceDistinct(r, invoices, key);
    }
  }

  /** The five text fields of the form; they also key the validation messages. */
  datatype BillField = BillNoField | PartyNameField | DateField | TaxField | AmountField

  /** The text a field holds. */
  function FieldValue(b: Bill, f: BillField): string {
    match f
    case BillNoField => b.billNo
    case PartyNameField => b.partyName
    case DateField => b.date
    case TaxField => b.tax
    case AmountField => b.amount
  }

  /** The message shown under a missing field. */
  function Message(f: BillField): string {
    match f
    case BillNoField => "Bill No is required."
    case PartyNameField => "Party Name is required."
    case DateField => "Date is required."
    case TaxField => "Tax is required."
    case AmountField => "Amount is required."
  }

  /**
   * `newErrors` filled key by key: each field whose check failed gets its message, in the order
   * bill number, party name, date, tax, amount, and no other key is set.
   */
  function Messages(billNo: bool, partyName: bool, date: bool, tax: bool, amount: bool): (errors: map<BillField, string>)
    ensures BillNoField in errors <==> billNo
    ensures PartyNameField in errors <==> partyName
    ensures DateField in errors <==> date
    ensures TaxField in errors <==> tax
    ensures AmountField in errors <==> amount
    ensures forall f :: f in errors ==> errors[f] == Message(f)
  {
    var e1: map<BillField, string> := if billNo then map[BillNoField := Message(BillNoField)] else map[];
    var e2 := if partyName then e1[PartyNameField := Message(PartyNameField)] else e1;
    var e3 := if date then e2[DateField := Message(DateField)] else e2;
    var e4 := if tax then e3[TaxField := Message(TaxField)] else e3;
    if amount then e4[AmountField := Message(AmountField)] else e4
  }

  /** The messages `handleSave` records for a bill: one for each field that is blank after trimming. */
  function Validate(b: Bill): map<BillField, string> {
    Messages(IsBlank(b.billNo), IsBlank(b.partyName), IsBlank(b.date), IsBlank(b.tax), IsBlank(b.amount))
  }

  /**
   * A field carries a message exactly when it is blank, and the save goes ahead (no message)
   * exactly when the trimmed bill passes the completeness check the dashboard applies (the
   * check ignores the items, so an empty item list stands for any).
   */
  lemma ValidateSpec(b: Bill)
    ensures forall f :: f in Validate(b) <==> IsBlank(FieldValue(b, f))
    ensures forall f :: f in Validate(b) ==> Validate(b)[f] == Message(f)
    ensures Validate(b) == map[] <==> IsComplete(TrimmedPayload<int>(b, []))
  {
    var e := Validate(b);
    forall f
      ensures f in e <==> IsBlank(FieldValue(b, f))
    {
      match f
      case BillNoField =>
      case PartyNameField =>
      case DateField =>
      case TaxField =>
      case AmountField =>
    }
    CompleteIffNoBlankField<int>(b, []);
    if e != map[] {
      var f :| f in e;
    }
  }

  class Dialog {
    var editedBill: Bill
    var errors: map<BillField, string>

    constructor ()
      ensures editedBill == BlankBill && errors == map[]
    {
      editedBill, errors := BlankBill, map[];
    }

    /**
     * The effect on `open` and `bill`: an open dialog with a bill edits a copy of it with its
     * invoices normalised; otherwise the blank bill. The messages are kept.
     */
    method OnOpenChange(open: bool, bill: Option<Bill>)
      modifies this
      ensures open && bill.Some? ==> editedBill == bill.value.(invoices := Normalise(bill.value))
      ensures !(open && bill.Some?) ==> editedBill == BlankBill
      ensures errors == old(errors)
    {
      if open && bill.Some? {
        editedBill := bill.value.(invoices := Normalise(bill.value));
      } else {
        editedBill := BlankBill;
      }
    }

    /**
     * Typing into one of the five text fields replaces that field only. The bill number is
     * read-only when the dialog edits an existing bill (`editMode`, the `mode === "edit"` prop),
     * so typing there changes nothing.
     */
    method HandleFieldChange(field: BillField, value: string, editMode: bool)
      modifies this
      ensures editMode && field == BillNoField ==> editedBill == old(editedBill)
      ensures !(editMode && field == BillNoField) ==> FieldValue(editedBill, field) == value
      ensures forall f :: f != field ==> FieldValue(editedBill, f) == FieldValue(old(editedBill), f)
      ensures editedBill.id == old(editedBill).id && editedBill.invoices == old(editedBill).invoices
      ensures errors == old(errors)
    {
      match field
      case BillNoField =>
        if !editMode {
          editedBill := editedBill.(billNo := value);
        }
      case PartyNameField => editedBill := editedBill.(partyName := value);
      case DateField => editedBill := editedBill.(date := value);
      case TaxField => editedBill := editedBill.(tax := value);
      case AmountField => editedBill := editedBill.(amount := value);
    }

    /**
     * `handleUpload` once the reader has produced `fileUrl`: the file is appended as an invoice
     * of the given kind unless one with its name and kind is already there.
     */
    method HandleUpload(file: File, kind: InvoiceSection.Kind, fileUrl: string)
      modifies this
      ensures editedBill ==
                old(editedBill).(invoices := WithUpload(old(editedBill).invoices,
                                                        Invoice(file.name, fileUrl, InvoiceSection.KindName(kind), None)))
      ensures errors == old(errors)
    {
      var newFile := Invoice(file.name, fileUrl, InvoiceSection.KindName(kind), None);
      editedBill := editedBill.(invoices := WithUpload(editedBill.invoices, newFile));
    }

    /** `handleDelete`: without a name nothing changes; otherwise that name of that kind goes. */
    method HandleDelete(kind: InvoiceSection.Kind, fileName: Option<string>)
      modifies this
      ensures fileName.None? || fileName == Some("") ==> editedBill == old(editedBill)
      ensures fileName.Some? && fileName.value != "" ==>
                editedBill ==
                  old(editedBill).(invoices := WithoutInvoice(old(editedBill).invoices,
                                                              InvoiceSection.KindName(kind), fileName.value))
      ensures errors == old(errors)
    {
      if fileName.None? || fileName.value == "" {
        return;
      }
      editedBill := editedBill.(invoices := WithoutInvoice(editedBill.invoices, InvoiceSection.KindName(kind), fileName.value));
    }

    /** `handleDeleteAll`: every invoice of the kind goes. */
    method HandleDeleteAll(kind: InvoiceSection.Kind)
      modifies this
      ensures editedBill ==
                old(editedBill).(invoices := WithoutKind(old(editedBill).invoices, InvoiceSection.KindName(kind)))
      ensures errors == old(errors)
    {
      editedBill := editedBill.(invoices := WithoutKind(editedBill.invoices, InvoiceSection.KindName(kind)));
    }

    /**
     * `handleSave`: with a blank required field the messages are replaced and nothing is
     * saved; otherwise the bill as edited (untrimmed) goes to `onSave` and the messages are left
     * as they were.
     */
    method HandleSave() returns (onSave: Option<Bill>)
      modifies this
      ensures editedBill == old(editedBill)
      ensures Validate(editedBill) != map[] ==> onSave.None? && errors == Validate(editedBill)
      ensures Validate(editedBill) == map[] ==> onSave == Some(editedBill) && errors == old(errors)
    {
      var newErrors := Validate(editedBill);
      if newErrors != map[] {
        errors := newErrors;
        onSave := None;
      } else {
        onSave := Some(editedBill);
      }
    }

    /** `handleCancel`: back to the bill as given (not normalised), or the blank bill. */
    method HandleCancel(bill: Option<Bill>)
      modifies this
      ensures editedBill == bill.GetOr(BlankBill)
      ensures errors == old(errors)
    {
      editedBill := bill.GetOr(BlankBill);
    }
  }
}
