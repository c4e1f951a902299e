/** The tax position query of src/routes/taxPosition.ts: tax owed on the
    sales in the event log up to a date, less the tax paid up to that date,
    rounded as `Math.round` rounds. Amounts are exact rationals. */
module TaxPosition {
  import opened Wrappers
  import opened EventLog

  /** `Math.round`: the nearest integer, halves rounded towards +infinity. */
  function JsRound(x: real): (r: int)
    ensures r as real - 0.5 <= x < r as real + 0.5
  {
    (x + 0.5).Floor
  }

  /** Tax owed on the lines of one sale: the sum of `cost * taxRate`. */
  function ItemsTax(items: seq<LineItem>): real {
    if items == [] then 0.0
    else ItemsTax(items[..|items| - 1]) + items[|items| - 1].cost * items[|items| - 1].taxRate
  }

  /** What one event adds to the tax owed: only `SALES` events count. */
  function Owed(e: Event): (r: real)
    ensures !e.Sale? ==> r == 0.0
  {
    match e
    case Sale(_, _, items) => ItemsTax(items)
    case TaxPayment(_, _) => 0.0
    case SalesAmendment(_, _, _, _, _) => 0.0
  }

  /** What one event adds to the tax paid: only `TAX_PAYMENT` events count. */
  function Paid(e: Event): (r: real)
    ensures !e.TaxPayment? ==> r == 0.0
  {
    match e
    case Sale(_, _, _) => 0.0
    case TaxPayment(_, amount) => amount
    case SalesAmendment(_, _, _, _, _) => 0.0
  }

  function TotalOwed(events: seq<Event>): real {
    if events == [] then 0.0 else TotalOwed(events[..|events| - 1]) + Owed(events[|events| - 1])
  }

  function TotalPaid(events: seq<Event>): real {
    if events == [] then 0.0 else TotalPaid(events[..|events| - 1]) + Paid(events[|events| - 1])
  }

  /** One step of the running totals of the tax position query. */
  lemma TotalsStep(events: seq<Event>, i: nat)
    requires i < |events|
    ensures TotalOwed(events[..i + 1]) == TotalOwed(events[..i]) + Owed(events[i])
    ensures TotalPaid(events[..i + 1]) == TotalPaid(events[..i]) + Paid(events[i])
  {
    assert events[..i + 1][..i] == events[..i];
  }

  lemma ItemsTaxStep(items: seq<LineItem>, j: nat)
    requires j < |items|
    ensures ItemsTax(items[..j + 1]) == ItemsTax(items[..j]) + items[j].cost * items[j].taxRate
  {
    assert items[..j + 1][..j] == items[..j];
  }

  /** Tax owed minus tax paid over the events up to the cutoff, unrounded. */
  function Balance(log: seq<Event>, cutoff: Timestamp): real {
    var upTo := EventsUpTo(log, cutoff);
    TotalOwed(upTo) - TotalPaid(upTo)
  }

  /** The tax position the query reports for a parsed cutoff. */
  function TaxPositionAt(log: seq<Event>, cutoff: Timestamp): (r: int)
    ensures r as real - 0.5 <= Balance(log, cutoff) < r as real + 0.5
  {
    JsRound(Balance(log, cutoff))
  }

  /** Ties go up: x.5 rounds to x + 1, also for negative x. */
  lemma RoundHalfUp(n: int)
    ensures JsRound(n as real + 0.5) == n + 1
    ensures JsRound(n as real - 0.5) == n
    ensures JsRound(n as real) == n
  {
  }

  /** Both sums are additive over concatenation. */
  lemma {:induction false} TotalsAppend(a: seq<Event>, b: seq<Event>)
    ensures TotalOwed(a + b) == TotalOwed(a) + TotalOwed(b)
    ensures TotalPaid(a + b) == TotalPaid(a) + TotalPaid(b)
  {
    if b == [] {
      assert a + b == a;
    } else {
      var init, last := b[..|b| - 1], b[|b| - 1];
      TotalsAppend(a, init);
      assert (a + b)[..|a + b| - 1] == a + init;
      assert (a + b)[|a + b| - 1] == last;
    }
  }

  /** The effect of `addEvent(e)` on the balance at any cutoff: exactly what
      `e` owes less what it pays, if it is dated at or before the cutoff. */
  lemma {:induction false} InsertBalance(log: seq<Event>, e: Event, cutoff: Timestamp)
    ensures Balance(InsertByDate(log, e), cutoff) ==
      Balance(log, cutoff) + (if e.date <= cutoff then Owed(e) - Paid(e) else 0.0)
    decreases |log|
  {
    if log == [] || log[|log| - 1].date <= e.date {
      assert InsertByDate(log, e) == log + [e];
      assert (log + [e])[..|log|] == log;
      var upTo := EventsUpTo(log, cutoff);
      assert EventsUpTo(log + [e], cutoff) == upTo + (if e.date <= cutoff then [e] else []);
      TotalsAppend(upTo, if e.date <= cutoff then [e] else []);
      assert TotalOwed([e]) == Owed(e) && TotalPaid([e]) == Paid(e);
    } else {
      var init, last := log[..|log| - 1], log[|log| - 1];
      var ins := InsertByDate(init, e);
      assert InsertByDate(log, e) == ins + [last];
      InsertBalance(init, e, cutoff);
      var tail := if last.date <= cutoff then [last] else [];
      assert (ins + [last])[..|ins|] == ins;
      assert EventsUpTo(ins + [last], cutoff) == EventsUpTo(ins, cutoff) + tail;
      assert EventsUpTo(log, cutoff) == EventsUpTo(init, cutoff) + tail;
      TotalsAppend(EventsUpTo(ins, cutoff), tail);
      TotalsAppend(EventsUpTo(init, cutoff), tail);
    }
  }

  /** An amendment event changes the tax position at no cutoff. */
  lemma AmendmentKeepsTaxPosition(log: seq<Event>, e: Event, cutoff: Timestamp)
    requires e.SalesAmendment?
    ensures TaxPositionAt(InsertByDate(log, e), cutoff) == TaxPositionAt(log, cutoff)
  {
    InsertBalance(log, e, cutoff);
  }

  /** A cutoff before every event, and in particular an empty log, gives 0. */
  lemma NothingBeforeCutoff(log: seq<Event>, cutoff: Timestamp)
    requires forall ev :: ev in log ==> ev.date > cutoff
    ensures TaxPositionAt(log, cutoff) == 0
  {
    UpToNone(log, cutoff);
  }

  /** `req.query.date` as Express delivers it. */
  datatype QueryValue = Missing | Text(s: string) | NonString

  datatype QueryError = MissingOrInvalidDate | InvalidDateFormat {
    function Message(): string {
      match this
      case MissingOrInvalidDate => "Missing or invalid date parameter"
      case InvalidDateFormat => "Invalid date format"
    }
  }

  /** The GET handler without its HTTP plumbing: the two guards, then the
      two running totals over the events up to the query date, then the
      rounding. It only reads the event log. */
  method GetTaxPosition(store: EventStore, date: QueryValue, parse: string -> Option<Timestamp>)
    returns (r: Result<int, QueryError>)
    ensures !date.Text? || date.s == "" ==> r == Failure(MissingOrInvalidDate)
    ensures date.Text? && date.s != "" && parse(date.s).None? ==> r == Failure(InvalidDateFormat)
    ensures date.Text? && date.s != "" && parse(date.s).Some? ==>
      r == Success(TaxPositionAt(store.events, parse(date.s).value))
  {
    if !date.Text? || date.s == "" {
      return Failure(MissingOrInvalidDate);
    }
    var queryDate := parse(date.s);
    if queryDate.None? {
      return Failure(InvalidDateFormat);
    }
    var events := store.GetEventsUpTo(queryDate.value);
    var totalTaxFromSales := 0.0;
    var totalTaxPayments := 0.0;
    var i := 0;
    while i < |events|
      invariant 0 <= i <= |events|
      invariant totalTaxFromSales == TotalOwed(events[..i])
      invariant totalTaxPayments == TotalPaid(events[..i])
    {
      TotalsStep(events, i);
      match events[i] {
        case Sale(_, _, items) =>
          var j := 0;
          while j < |items|
            invariant 0 <= j <= |items|
            invariant totalTaxFromSales == TotalOwed(events[..i]) + ItemsTax(items[..j])
          {
            ItemsTaxStep(items, j);
            totalTaxFromSales := totalTaxFromSales + items[j].cost * items[j].taxRate;
            j := j + 1;
          }
          assert items[..j] == items;
        case TaxPayment(_, amount) =>
          totalTaxPayments := totalTaxPayments + amount;
        case SalesAmendment(_, _, _, _, _) =>
      }
      i := i + 1;
    }
    assert events[..i] == events;
    var taxPosition := totalTaxFromSales - totalTaxPayments;
    r := Success(JsRound(taxPosition));
  }
}
