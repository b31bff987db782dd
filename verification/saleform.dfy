/** The form that records a new sale (components/AddSaleModal.tsx): its
    fields, the checks `handleSubmit` makes, the record it builds, and the
    idle / submitting / success cycle. The unit price is in cents. */
module SaleForm {
  import opened Seqs
  import opened Text
  import opened Sales

  datatype Fields = Fields(
    category: string,
    product: string,
    region: string,
    unitsSold: int,
    priceCents: int,
    customerName: string,
    date: int)

  datatype Status = Idle | Submitting | Success

  /** The modal's state: the fields, the error line (empty when there is
      none), the status, and the record shown on the success view. */
  datatype Modal = Modal(fields: Fields, error: string, status: Status, lastAddedSale: Option<SaleData>)

  const MissingFieldsError := "يرجى ملء جميع الحقول المطلوبة."
  const InvalidNumbersError := "يجب أن تكون الوحدات المباعة والسعر أرقامًا موجبة."
  const SubmitFailedError := "فشل إضافة البيانات. يرجى المحاولة مرة أخرى."

  /** The fields on opening and after a reset: empty texts, one unit at
      100.00, dated today. */
  function InitialFields(today: int): Fields
  {
    Fields("", "", "", 1, 10000, "", today)
  }

  function InitialModal(today: int): Modal
  {
    Modal(InitialFields(today), "", Idle, None)
  }

  /** `resetForm`: back to the opening state, whatever was there. */
  function ResetForm(m: Modal, today: int): (r: Modal)
    ensures r.status == Idle && r.error == "" && r.lastAddedSale == None
    ensures r.fields.unitsSold == 1 && r.fields.priceCents == 10000 && r.fields.date == today
    ensures r.fields.category == r.fields.product == r.fields.region == r.fields.customerName == ""
  {
    InitialModal(today)
  }

  /** A required field is missing: category or region unselected, or product
      or customer name blank once trimmed. */
  predicate MissingField(f: Fields)
  {
    f.category == "" || Trim(f.product) == "" || f.region == "" || Trim(f.customerName) == ""
  }

  /** No positive unit count, or a negative price. */
  predicate InvalidNumbers(f: Fields)
  {
    f.unitsSold <= 0 || f.priceCents < 0
  }

  /** The record `handleSubmit` builds: product and customer name trimmed,
      the other fields as entered, and revenue units times price. The
      customer id (`cust_<time>_<random>`) is given. */
  function Draft(f: Fields, customerId: string): (d: SaleData)
    ensures d.revenue == f.unitsSold * f.priceCents
    ensures d.product == Trim(f.product) && d.customer.name == Trim(f.customerName)
    ensures d.category == f.category && d.region == f.region
    ensures d.date == f.date && d.unitsSold == f.unitsSold && d.customer.id == customerId
  {
    SaleData(
      f.date, Trim(f.product), f.category, f.region,
      f.unitsSold * f.priceCents, f.unitsSold, Customer(customerId, Trim(f.customerName)))
  }

  /** What a press on the submit button leads to: a rejection with the
      modal to show, or a pending request with the record to add. */
  datatype SubmitResult =
    | Rejected(modal: Modal)
    | Pending(modal: Modal, draft: SaleData)

  /** `handleSubmit`: the required fields are checked first, then the
      numbers; a rejection sets only the error line. */
  function HandleSubmit(m: Modal, customerId: string): (r: SubmitResult)
    ensures r.Rejected? <==> MissingField(m.fields) || InvalidNumbers(m.fields)
    ensures r.Rejected? ==> r.modal == m.(error := if MissingField(m.fields) then MissingFieldsError else InvalidNumbersError)
    ensures r.Pending? ==>
      && r.modal == m.(error := "", status := Submitting)
      && r.draft == Draft(m.fields, customerId)
  {
    if MissingField(m.fields) then Rejected(m.(error := MissingFieldsError))
    else if InvalidNumbers(m.fields) then Rejected(m.(error := InvalidNumbersError))
    else Pending(m.(error := "", status := Submitting), Draft(m.fields, customerId))
  }

  /** The end of the simulated request: the record, given the id
      `sale_<time>`, is handed to `onAddSale`. If that call returns, the
      modal shows the success view; if it throws, it goes back to idle with
      an error. `added` says which happened. */
  function Complete(m: Modal, draft: SaleData, added: bool): (r: Modal)
    ensures r.fields == m.fields
    ensures r.status == Success <==> added
    ensures added ==> r.lastAddedSale == Some(draft) && r.error == m.error
    ensures !added ==> r.status == Idle && r.error == SubmitFailedError && r.lastAddedSale == m.lastAddedSale
  {
    if added then m.(status := Success, lastAddedSale := Some(draft))
    else m.(status := Idle, error := SubmitFailedError)
  }

  /** The whole cycle from an idle form: a rejection keeps the status and
      every field; an acceptance goes through `Submitting` and ends on the
      success view showing the record, or back at idle with an error and the
      fields as they were. */
  lemma SubmitCycle(m: Modal, customerId: string, added: bool)
    requires m.status == Idle
    ensures var r := HandleSubmit(m, customerId);
      && r.modal.fields == m.fields
      && (r.Rejected? ==> r.modal.status == Idle && r.modal.error != "")
      && (r.Pending? ==>
            r.modal.status == Submitting &&
            (var done := Complete(r.modal, r.draft, added);
              && done.fields == m.fields
              && (added ==> done.status == Success && done.lastAddedSale == Some(Draft(m.fields, customerId)))
              && (!added ==> done.status == Idle && done.error == SubmitFailedError)))
  {
  }

  /** The record passed to `onAddSale`. */
  function SaleToAdd(draft: SaleData, saleId: string): (s: Sale)
    ensures s.id == saleId
    ensures s.date == draft.date && s.product == draft.product && s.revenue == draft.revenue
    ensures s.category == draft.category && s.region == draft.region
    ensures s.unitsSold == draft.unitsSold && s.customer == draft.customer
  {
    draft.WithId(saleId)
  }

  /** What every accepted record satisfies. */
  predicate WellFormedDraft(d: SaleData)
  {
    && d.category != "" && d.region != ""
    && d.product != "" && IsTrimmed(d.product)
    && d.customer.name != "" && IsTrimmed(d.customer.name)
    && d.unitsSold >= 1 && d.revenue >= 0
    && d.revenue % d.unitsSold == 0
  }

  /** An accepted submission yields a well-formed record whose price can be
      read back from the revenue. */
  lemma AcceptedDraftWellFormed(m: Modal, customerId: string)
    requires HandleSubmit(m, customerId).Pending?
    ensures var d := HandleSubmit(m, customerId).draft;
      WellFormedDraft(d) && d.revenue / d.unitsSold == m.fields.priceCents
  {
    var f := m.fields;
    DivMulRoundTrip(f.priceCents, f.unitsSold);
  }

  /** Units times a price, divided by the units, is the price again. */
  lemma DivMulRoundTrip(p: int, u: int)
    requires u >= 1
    ensures (u * p) / u == p && (u * p) % u == 0
    ensures p >= 0 ==> u * p >= 0
  {
    var q, r := (u * p) / u, (u * p) % u;
    assert u * p == u * q + r && 0 <= r < u;
    MultipleSign(u, p - q);
  }

  /** A non-zero multiple of a positive `u` is at least `u` away from zero. */
  lemma MultipleSign(u: int, k: int)
    requires u >= 1
    ensures k >= 1 ==> u * k >= u
    ensures k <= -1 ==> u * k <= -u
  {
    if k >= 1 {
      assert u * k == u + u * (k - 1);
    } else if k <= -1 {
      assert u * k == -u + u * (k + 1);
    }
  }

  /** A submission that is accepted once is accepted again after trimming the
      texts, and builds the same record: trimming is what the form does. */
  lemma SubmitTrimmedFields(m: Modal, customerId: string)
    requires HandleSubmit(m, customerId).Pending?
    ensures var f := m.fields;
      var m' := m.(fields := f.(product := Trim(f.product), customerName := Trim(f.customerName)));
      HandleSubmit(m', customerId).Pending? && HandleSubmit(m', customerId).draft == HandleSubmit(m, customerId).draft
  {
    TrimIdempotent(m.fields.product);
    TrimIdempotent(m.fields.customerName);
  }

  /** A form just opened or reset cannot be submitted: its required fields
      are empty. */
  lemma ResetFormRejected(m: Modal, today: int, customerId: string)
    ensures HandleSubmit(ResetForm(m, today), customerId) == Rejected(InitialModal(today).(error := MissingFieldsError))
  {
  }
}
