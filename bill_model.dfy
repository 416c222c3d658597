/**
 * The records the console passes around: the `Bill` shape of backup/types/bill.ts with its
 * `invoices` entries, the raw rows the `/Bills` endpoint returns, the save payload, and the
 * outcome of an HTTP call.
 */
module BillModel {
  import opened Common
  import opened Text

  const Sales := "sales"
  const Voucher := "voucher"

  /** A file chosen in a browser file input; `bytes` stands for its opaque content. */
  datatype File = File(name: string, bytes: seq<bv8>)

  /**
   * One entry of a bill's `invoices` list. `kind` is the `type` tag ("sales"/"voucher") the
   * current console attaches ("" when absent); `invoiceId` is the server-assigned id.
   */
  datatype Invoice = Invoice(name: string, url: string, kind: string, invoiceId: Option<int>)

  /** A bill as the console holds it. An absent `tax` or `amount` is the empty string. */
  datatype Bill = Bill(id: int, billNo: string, partyName: string, date: string,
                       tax: string, amount: string, invoices: seq<Invoice>)

  /** The all-empty bill the edit dialog falls back to. */
  const BlankBill := Bill(0, "", "", "", "", "", [])

  /** JavaScript truthiness of an optional numeric id: present and not zero. */
  predicate IsTruthyId(id: Option<int>) {
    id.Some? && id.value != 0
  }

  /**
   * One invoice as the `/Bills` endpoint returns it; missing strings are "", except the file
   * body, whose absence (`None`) makes both dashboards' loaders throw.
   */
  datatype RawInvoice = RawInvoice(invoiceId: Option<int>, invoiceName: string,
                                   invoiceFileName: string, invoiceFileType: string,
                                   invoiceFile: Option<string>, invoiceType: string)

  /** One bill as the `/Bills` endpoint returns it; `invoice` is `None` when it is not an array. */
  datatype RawBill = RawBill(billId: Option<int>, billNo: string, partyName: string,
                             billDate: string, date: string, tax: string, amount: string,
                             invoice: Option<seq<RawInvoice>>)

  /** Every invoice of the bill's invoice array carries a file body. */
  predicate BillFilesPresent(r: RawBill) {
    r.invoice.Some? ==> forall i :: 0 <= i < |r.invoice.value| ==> r.invoice.value[i].invoiceFile.Some?
  }

  /** Every invoice of every bill carries a file body, so loading does not throw. */
  predicate FilesPresent(raw: seq<RawBill>) {
    forall k :: 0 <= k < |raw| ==> BillFilesPresent(raw[k])
  }

  /** A document handed to a viewer: its name, its (data) url and its invoice type. */
  datatype Document = Document(name: string, url: string, kind: string)

  /** The outcome of a `fetch`: it threw, or the server answered with a status and a body. */
  datatype Response = NetworkFailure | Answer(ok: bool, text: string)

  /** The body posted to `/addBill`; the item type differs between the two dashboards. */
  datatype SavePayload<Item> = SavePayload(billNo: string, billDate: string, partyName: string,
                                           invoice: seq<Item>, tax: string, amount: string)

  /** The scalar part of the save payload: every field of the bill trimmed. */
  function TrimmedPayload<Item>(b: Bill, items: seq<Item>): SavePayload<Item> {
    SavePayload(Trim(b.billNo), Trim(b.date), Trim(b.partyName), items, Trim(b.tax), Trim(b.amount))
  }

  /** The client-side check before `/addBill`: none of the five scalars may be empty. */
  predicate IsComplete<Item>(p: SavePayload<Item>) {
    p.billNo != [] && p.billDate != [] && p.partyName != [] && p.amount != [] && p.tax != []
  }

  /**
   * The trimmed payload passes the check exactly when each of the five fields of the bill
   * holds a character that is not whitespace.
   */
  lemma CompleteIffNoBlankField<Item>(b: Bill, items: seq<Item>)
    ensures IsComplete(TrimmedPayload(b, items)) <==>
              !IsBlank(b.billNo) && !IsBlank(b.date) && !IsBlank(b.partyName) &&
              !IsBlank(b.amount) && !IsBlank(b.tax)
  {
    BlankIffTrimEmpty(b.billNo);
    BlankIffTrimEmpty(b.date);
    BlankIffTrimEmpty(b.partyName);
    BlankIffTrimEmpty(b.amount);
    BlankIffTrimEmpty(b.tax);
  }

  /** The ids of a bill list, in order. */
  function Ids(bills: seq<Bill>): (r: seq<int>)
    ensures |r| == |bills|
    ensures forall k :: 0 <= k < |bills| ==> r[k] == bills[k].id
  {
    seq(|bills|, k requires 0 <= k < |bills| => bills[k].id)
  }

  /** No two bills of the list share an id. */
  predicate UniqueIds(bills: seq<Bill>) {
    forall i, j :: 0 <= i < j < |bills| ==> bills[i].id != bills[j].id
  }

  /** `bills.some(b => b.id === id)`. */
  predicate HasId(bills: seq<Bill>, id: int) {
    exists k :: 0 <= k < |bills| && bills[k].id == id
  }

  /**
   * `bills.map(b => b.id === id ? replacement : b)`: every bill with that id becomes
   * `replacement`, and every other bill stays where it was.
   */
  function ReplaceById(bills: seq<Bill>, id: int, replacement: Bill): (r: seq<Bill>)
    ensures |r| == |bills|
    ensures forall k :: 0 <= k < |bills| && bills[k].id == id ==> r[k] == replacement
    ensures forall k :: 0 <= k < |bills| && bills[k].id != id ==> r[k] == bills[k]
    ensures !HasId(bills, id) ==> r == bills
  {
    seq(|bills|, k requires 0 <= k < |bills| => if bills[k].id == id then replacement else bills[k])
  }

  /** A replacement that keeps the id keeps the list's ids, and so keeps them distinct. */
  lemma ReplaceByIdKeepsIds(bills: seq<Bill>, id: int, replacement: Bill)
    requires replacement.id == id
    ensures Ids(ReplaceById(bills, id, replacement)) == Ids(bills)
    ensures UniqueIds(bills) ==> UniqueIds(ReplaceById(bills, id, replacement))
  {
  }

  /** Appending a bill to a list with distinct ids keeps them distinct exactly when its id is new. */
  lemma AppendUnique(bills: seq<Bill>, b: Bill)
    requires UniqueIds(bills)
    ensures UniqueIds(bills + [b]) <==> !HasId(bills, b.id)
  {
    var r := bills + [b];
    if HasId(bills, b.id) {
      var k :| 0 <= k < |bills| && bills[k].id == b.id;
      assert r[k].id == r[|bills|].id;
    } else {
      forall i, j | 0 <= i < j < |r|
        ensures r[i].id != r[j].id
      {
        if j == |bills| {
          assert r[i] == bills[i];
        }
      }
    }
  }

  /** `bills.filter(b => b.id !== id)`. */
  function RemoveId(bills: seq<Bill>, id: int): seq<Bill> {
    Filter(bills, (b: Bill) => b.id != id)
  }

  /**
   * Removing an id leaves no bill with it, keeps every other bill in order, and removes nothing
   * from a list that does not hold the id.
   */
  lemma {:induction false} RemoveIdSpec(bills: seq<Bill>, id: int)
    ensures !HasId(RemoveId(bills, id), id)
    ensures IsSubsequence(RemoveId(bills, id), bills)
    ensures forall b :: b in bills && b.id != id ==> b in RemoveId(bills, id)
    ensures !HasId(bills, id) ==> RemoveId(bills, id) == bills
  {
    var r := RemoveId(bills, id);
    forall k | 0 <= k < |r|
      ensures r[k].id != id
    {
      assert r[k] in r;
    }
    if !HasId(bills, id) {
      FilterKeepsAll(bills, (b: Bill) => b.id != id);
    }
  }

  /** `bills.find(b => b.id === id)`: the first bill with that id, if any. */
  function FindById(bills: seq<Bill>, id: int): (r: Option<Bill>)
    ensures r.None? <==> !HasId(bills, id)
    ensures r.Some? ==> r.value in bills && r.value.id == id
    ensures r.Some? ==> exists k :: 0 <= k < |bills| && bills[k] == r.value && forall j :: 0 <= j < k ==> bills[j].id != id
    decreases |bills|
  {
    if bills == [] then None
    else if bills[0].id == id then Some(bills[0])
    else
      var r := FindById(bills[1..], id);
      assert forall k :: 1 <= k < |bills| ==> bills[k] == bills[1..][k - 1];
      assert HasId(bills[1..], id) ==> HasId(bills, id);
      if r.Some? then
        var k :| 0 <= k < |bills| - 1 && bills[1..][k] == r.value && forall j :: 0 <= j < k ==> bills[1..][j].id != id;
        assert bills[k + 1] == r.value;
        assert forall j :: 0 <= j < k + 1 ==> bills[j].id != id;
        r
      else r
  }

  /**
   * The id both dashboards give a new bill: one past the list's length. It is positive, and it
   * is new to the list only while no id exceeds the list's length (as right after a load that
   * numbered the bills 1, 2, ...); a deletion can break that.
   */
  function NextIdByLength(bills: seq<Bill>): (r: int)
    ensures r > 0
    ensures (forall k :: 0 <= k < |bills| ==> bills[k].id <= |bills|) ==> !HasId(bills, r)
  {
    |bills| + 1
  }

  /** The largest id in the list, 0 for an empty list. */
  function MaxId(bills: seq<Bill>): (r: int)
    ensures r >= 0
    ensures forall k :: 0 <= k < |bills| ==> bills[k].id <= r
    decreases |bills|
  {
    if bills == [] then 0
    else
      var rest := MaxId(bills[1..]);
      assert forall k :: 1 <= k < |bills| ==> bills[k] == bills[1..][k - 1];
      if bills[0].id > rest then bills[0].id else rest
  }

  /** An id no bill of the list has: one past the largest. */
  function FreshId(bills: seq<Bill>): (r: int)
    ensures r > 0 && !HasId(bills, r)
  {
    MaxId(bills) + 1
  }

  /**
   * The date filter for one bill. `day` is the bill's date as a day number, `None` when it does
   * not parse; an unparsable date fails every bound that is set.
   */
  predicate InRange(day: Option<int>, from: Option<int>, to: Option<int>) {
    (from.None? || (day.Some? && day.value >= from.value)) &&
    (to.None? || (day.Some? && day.value <= to.value))
  }

  /** The server accepted the request: it answered with an ok status. */
  predicate Succeeded(response: Response) {
    response.Answer? && response.ok
  }
}
