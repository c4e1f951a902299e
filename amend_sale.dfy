/** The sale amendment handler of src/routes/amendSale.ts: a structure
    check, then a date check, then an upsert into the sale index and an audit
    event appended to the event log. */
module AmendSale {
  import opened Wrappers
  import opened EventLog
  import opened SaleIndex
  import opened TaxPosition
  import opened Ledger

  /** A JSON value as it arrives in the request body. */
  datatype JsonValue = Absent | Null | Bool(b: bool) | Number(n: real) | Text(s: string) | Compound

  /** The five fields the handler reads from `req.body`. */
  datatype AmendRequest = AmendRequest(
    date: Option<string>,
    invoiceId: Option<string>,
    itemId: Option<string>,
    cost: JsonValue,
    taxRate: JsonValue)

  datatype AmendResult = Ok | StructureError | DateError {
    function Message(): string {
      match this
      case Ok => ""
      case StructureError => "Invalid amendment structure"
      case DateError => "Invalid date format"
    }
  }

  /** A string field passes `!field` when it is present and not empty. */
  predicate Present(field: Option<string>) {
    field.Some? && field.value != ""
  }

  /** The structure check: three non-empty strings and two numbers. */
  predicate WellStructured(req: AmendRequest) {
    && Present(req.date)
    && Present(req.invoiceId)
    && Present(req.itemId)
    && req.cost.Number?
    && req.taxRate.Number?
  }

  /** What a request that passes both checks asks for. */
  datatype Amendment = Amendment(date: Timestamp, invoiceId: string, itemId: string, cost: real, taxRate: real)

  function AmendmentOf(req: AmendRequest, date: Timestamp): Amendment
    requires WellStructured(req)
  {
    Amendment(date, req.invoiceId.value, req.itemId.value, req.cost.n, req.taxRate.n)
  }

  /** The new state of the sale index entry. */
  function ItemOf(a: Amendment): SaleItem {
    SaleItem(a.itemId, a.cost, a.taxRate, a.date)
  }

  /** The audit record, carrying the same five fields. */
  function AuditEvent(a: Amendment): Event {
    SalesAmendment(a.date, a.invoiceId, a.itemId, a.cost, a.taxRate)
  }

  /** The two writes of a successful amendment, on the stores' contents. */
  function Apply(sales: Sales, log: seq<Event>, a: Amendment): (Sales, seq<Event>) {
    (Upsert(sales, a.invoiceId, ItemOf(a)), InsertByDate(log, AuditEvent(a)))
  }

  /** A successful amendment sets exactly one index entry, adds exactly one
      audit event to the log, keeps the log sorted, and leaves the tax
      position unchanged at every cutoff. */
  lemma ApplyEffect(sales: Sales, log: seq<Event>, a: Amendment)
    ensures var (sales', log') := Apply(sales, log, a);
      && Lookup(sales', a.invoiceId, a.itemId) == Some(SaleItem(a.itemId, a.cost, a.taxRate, a.date))
      && (forall i, id :: (i, id) != (a.invoiceId, a.itemId) ==> Lookup(sales', i, id) == Lookup(sales, i, id))
      && |log'| == |log| + 1
      && multiset(log') == multiset(log) + multiset{SalesAmendment(a.date, a.invoiceId, a.itemId, a.cost, a.taxRate)}
      && (SortedByDate(log) ==> SortedByDate(log'))
      && (forall c :: TaxPositionAt(log', c) == TaxPositionAt(log, c))
  {
    var (sales', log') := Apply(sales, log, a);
    InsertPermutes(log, AuditEvent(a));
    if SortedByDate(log) {
      InsertSorted(log, AuditEvent(a));
    }
    forall c ensures TaxPositionAt(log', c) == TaxPositionAt(log, c) {
      AmendmentKeepsTaxPosition(log, AuditEvent(a), c);
    }
  }

  /** Repeating an identical amendment leaves the sale index as one
      application does, but logs a second audit event. */
  lemma ApplyTwice(sales: Sales, log: seq<Event>, a: Amendment)
    ensures var (sales1, log1) := Apply(sales, log, a);
      var (sales2, log2) := Apply(sales1, log1, a);
      && sales2 == sales1
      && |log2| == |log| + 2
      && multiset(log2) == multiset(log) + multiset{AuditEvent(a), AuditEvent(a)}
  {
    UpsertIdempotent(sales, a.invoiceId, ItemOf(a));
    InsertPermutes(log, AuditEvent(a));
    InsertPermutes(InsertByDate(log, AuditEvent(a)), AuditEvent(a));
  }

  /** The PATCH handler without its HTTP plumbing. The structure check comes
      first, then the date check; only a request passing both touches the
      stores, and whether it passes does not depend on what the stores
      hold, so an invoice never sold can be amended. */
  method PatchSale(st: Stores, req: AmendRequest, parse: string -> Option<Timestamp>) returns (r: AmendResult)
    requires st.Valid()
    modifies st.eventStore, st.saleStore
    ensures st.Valid()
    ensures r == StructureError <==> !WellStructured(req)
    ensures r == DateError <==> WellStructured(req) && parse(req.date.value).None?
    ensures r != Ok ==>
      st.saleStore.sales == old(st.saleStore.sales) && st.eventStore.events == old(st.eventStore.events)
    ensures r == Ok ==>
      (st.saleStore.sales, st.eventStore.events) ==
      Apply(old(st.saleStore.sales), old(st.eventStore.events), AmendmentOf(req, parse(req.date.value).value))
  {
    if !Present(req.date) || !Present(req.invoiceId) || !Present(req.itemId) || !req.cost.Number? || !req.taxRate.Number? {
      return StructureError;
    }
    var amendmentDate := parse(req.date.value);
    if amendmentDate.None? {
      return DateError;
    }
    var date, invoiceId, itemId, cost, taxRate :=
      amendmentDate.value, req.invoiceId.value, req.itemId.value, req.cost.n, req.taxRate.n;
    st.saleStore.AmendSale(invoiceId, SaleItem(itemId, cost, taxRate, date));
    var amendmentEvent := SalesAmendment(date, invoiceId, itemId, cost, taxRate);
    st.eventStore.AddEvent(amendmentEvent);
    r := Ok;
  }
}
