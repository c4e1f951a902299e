/** The situations of __tests__/taxPosition.test.ts and
    __tests__/amendSale.test.ts, replayed on the model. Dates are the
    millisecond timestamps of midnight UTC. */
module Scenarios {
  import opened Wrappers
  import opened EventLog
  import opened SaleIndex
  import opened TaxPosition
  import opened AmendSale
  import opened Ledger

  const Jan1: Timestamp := 1704067200000
  const Jan2: Timestamp := Jan1 + 86400000
  const Jan3: Timestamp := Jan2 + 86400000
  const Jan5: Timestamp := Jan3 + 2 * 86400000

  /** The date parser the tests rely on, restricted to the dates they use. */
  function TestDates(s: string): Option<Timestamp> {
    if s == "2024-01-01" then Some(Jan1)
    else if s == "2024-01-02" then Some(Jan2)
    else if s == "2024-01-03" then Some(Jan3)
    else if s == "2024-01-05" then Some(Jan5)
    else None
  }

  function TestSale(): Event {
    Sale(Jan1, "INV001", [LineItem("item1", 100.0, 0.2), LineItem("item2", 200.0, 0.1)])
  }

  /** Sale tax 100 * 0.2 + 200 * 0.1 = 40; a payment of 50 gives -10, one of
      30 gives 10; nothing logged gives 0. */
  lemma TaxPositionExamples()
    ensures TaxPositionAt([], Jan1) == 0
    ensures TaxPositionAt(InsertByDate([], TestSale()), Jan2) == 40
    ensures TaxPositionAt(InsertByDate(InsertByDate([], TestSale()), TaxPayment(Jan2, 50.0)), Jan3) == -10
    ensures TaxPositionAt(InsertByDate(InsertByDate([], TestSale()), TaxPayment(Jan2, 30.0)), Jan3) == 10
  {
    var log1 := InsertByDate([], TestSale());
    assert log1 == [TestSale()];
    assert ItemsTax(TestSale().items) == 40.0 by {
      var items := TestSale().items;
      assert items[..1] == [items[0]];
      assert items[..1][..0] == [];
    }
    assert Balance(log1, Jan2) == 40.0 by {
      assert EventsUpTo(log1, Jan2) == log1;
      assert log1[..0] == [];
    }
    InsertBalance(log1, TaxPayment(Jan2, 50.0), Jan3);
    InsertBalance(log1, TaxPayment(Jan2, 30.0), Jan3);
    UpToAll(log1, Jan3);
    assert EventsUpTo(log1, Jan3) == EventsUpTo(log1, Jan2);
  }

  /** The guards of the tax position query, and a query on the empty log. */
  method QueryGuardExamples() {
    var store := new EventStore();
    var r := GetTaxPosition(store, Missing, TestDates);
    assert r == Failure(MissingOrInvalidDate);
    r := GetTaxPosition(store, QueryValue.Text("invalid-date"), TestDates);
    assert r == Failure(InvalidDateFormat);
    r := GetTaxPosition(store, QueryValue.Text("2024-01-01"), TestDates);
    NothingBeforeCutoff([], Jan1);
    assert r == Success(0);
  }

  /** A sale, then a payment, each followed by a query. */
  method QueryExamples() {
    var store := new EventStore();
    TaxPositionExamples();
    store.AddEvent(TestSale());
    assert store.events == InsertByDate([], TestSale());
    assert TestDates("2024-01-02") == Some(Jan2);
    var r := GetTaxPosition(store, QueryValue.Text("2024-01-02"), TestDates);
    assert r == Success(40);
    store.AddEvent(TaxPayment(Jan2, 50.0));
    assert TestDates("2024-01-03") == Some(Jan3);
    r := GetTaxPosition(store, QueryValue.Text("2024-01-03"), TestDates);
    assert r == Success(-10);
  }

  /** The amendment tests: an amendment for an invoice never sold is
      accepted and indexed, a bad cost is a structure error, a bad date a
      date error. */
  method AmendExamples() {
    var st := new Stores();
    var a := PatchSale(st, AmendRequest(Some("2024-01-05"), Some("INV004"), Some("item4"), Number(200.0), Number(0.15)), TestDates);
    assert a == Ok;
    assert Lookup(st.saleStore.sales, "INV004", "item4") == Some(SaleItem("item4", 200.0, 0.15, Jan5));
    a := PatchSale(st, AmendRequest(None, Some("INV001"), Some("item1"), JsonValue.Text("invalid-cost"), Number(0.2)), TestDates);
    assert a == StructureError;
    a := PatchSale(st, AmendRequest(Some("invalid-date"), Some("INV001"), Some("item1"), Number(150.0), Number(0.2)), TestDates);
    assert a == DateError;
  }
}
