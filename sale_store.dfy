/** The sale index of src/models/SaleStore.ts: a map from invoice id to a map
    from item id to the current state of that line item. Both levels are
    JavaScript `Map`s, so iteration follows first-insertion order and every
    write is last-write-wins. */
module SaleIndex {
  import opened Wrappers
  import opened JsMap
  import EventLog

  /** `SaleItem`: the current cost, tax rate and effective date of one line. */
  datatype SaleItem = SaleItem(itemId: string, cost: real, taxRate: real, date: EventLog.Timestamp)

  type Invoice = OrderedMap<SaleItem>
  type Sales = OrderedMap<Invoice>

  /** Both levels are valid maps, and every item is stored under its own id. */
  ghost predicate WellFormed(s: Sales) {
    && JsMap.Valid(s)
    && forall inv :: inv in s.values ==> InvoiceValid(s.values[inv])
  }

  ghost predicate InvoiceValid(invoice: Invoice) {
    && JsMap.Valid(invoice)
    && forall id :: id in invoice.values ==> invoice.values[id].itemId == id
  }

  /** `sales.get(inv)?.get(id)`. */
  function Lookup(s: Sales, inv: string, id: string): Option<SaleItem> {
    if inv in s.values && id in s.values[inv].values then Some(s.values[inv].values[id]) else None
  }

  /** The invoice map for `inv`, or a fresh empty one. */
  function InvoiceOf(s: Sales, inv: string): Invoice {
    if inv in s.values then s.values[inv] else Empty()
  }

  /** `if (!sales.has(inv)) sales.set(inv, new Map())`. */
  function EnsureInvoice(s: Sales, inv: string): (r: Sales)
    ensures inv in r.values
    ensures forall i, id :: Lookup(r, i, id) == Lookup(s, i, id)
    ensures WellFormed(s) ==> WellFormed(r)
  {
    if inv in s.values then s else Put(s, inv, Empty())
  }

  /** The effect of `amendSale(inv, item)`: the entry for
      `(inv, item.itemId)` becomes exactly `item`, and no other entry
      changes. */
  function Upsert(s: Sales, inv: string, item: SaleItem): (r: Sales)
    ensures Lookup(r, inv, item.itemId) == Some(item)
    ensures forall i, id :: (i, id) != (inv, item.itemId) ==> Lookup(r, i, id) == Lookup(s, i, id)
    ensures WellFormed(s) ==> WellFormed(r)
  {
    Put(s, inv, Put(InvoiceOf(s, inv), item.itemId, item))
  }

  /** `amendSale(inv, it)` for each `it` of `items`, in order. */
  function AmendEach(s: Sales, inv: string, items: seq<SaleItem>): (r: Sales)
    ensures WellFormed(s) ==> WellFormed(r)
  {
    if items == [] then s
    else Upsert(AmendEach(s, inv, items[..|items| - 1]), inv, items[|items| - 1])
  }

  /** One step of the loop of `addSale`. */
  lemma AmendEachStep(start: Sales, inv: string, items: seq<SaleItem>, s: Sales, i: nat)
    requires i < |items| && s == AmendEach(start, inv, items[..i]) && inv in s.values
    ensures var r := Put(s, inv, Put(s.values[inv], items[i].itemId, items[i]));
      r == AmendEach(start, inv, items[..i + 1]) && inv in r.values
  {
    assert items[..i + 1][..i] == items[..i];
    assert InvoiceOf(s, inv) == s.values[inv];
  }

  /** The flattened items of the invoices `ks`, in order. */
  function Flatten(s: Sales, ks: seq<string>): seq<SaleItem>
    requires forall k :: k in ks ==> k in s.values && JsMap.Valid(s.values[k])
  {
    if ks == [] then []
    else Flatten(s, ks[..|ks| - 1]) + Values(s.values[ks[|ks| - 1]])
  }

  /** `getAllSales()`: every item of every invoice, in map iteration order. */
  function AllSales(s: Sales): seq<SaleItem>
    requires WellFormed(s)
  {
    Flatten(s, s.keys)
  }

  /** The (invoice, item) keys of the invoices `ks`, in iteration order. */
  function KeysIn(s: Sales, ks: seq<string>): seq<(string, string)>
    requires forall k :: k in ks ==> k in s.values
  {
    if ks == [] then []
    else
      var k := ks[|ks| - 1];
      var ids := s.values[k].keys;
      KeysIn(s, ks[..|ks| - 1]) + seq(|ids|, j requires 0 <= j < |ids| => (k, ids[j]))
  }

  /** The key of each position of `AllSales`. */
  function KeySequence(s: Sales): seq<(string, string)>
    requires WellFormed(s)
  {
    KeysIn(s, s.keys)
  }

  /** `item => item.date <= cutoff` applied as a filter, in order. */
  function ItemsUpTo(items: seq<SaleItem>, cutoff: EventLog.Timestamp): (r: seq<SaleItem>)
    ensures |r| <= |items|
  {
    if items == [] then []
    else ItemsUpTo(items[..|items| - 1], cutoff) + (if items[|items| - 1].date <= cutoff then [items[|items| - 1]] else [])
  }

  /** The filter keeps exactly the items dated at or before the cutoff. */
  lemma {:induction false} ItemsUpToMembers(items: seq<SaleItem>, cutoff: EventLog.Timestamp)
    ensures forall it :: it in ItemsUpTo(items, cutoff) <==> it in items && it.date <= cutoff
  {
    if items != [] {
      var init, last := items[..|items| - 1], items[|items| - 1];
      ItemsUpToMembers(init, cutoff);
      assert items == init + [last];
    }
  }

  /** One step of the outer loop of `getAllSales` and `getSalesUpTo`. */
  lemma FlattenStep(s: Sales, i: nat)
    requires WellFormed(s) && i < |s.keys|
    ensures s.keys[i] in s.values && JsMap.Valid(s.values[s.keys[i]])
    ensures Flatten(s, s.keys[..i + 1]) == Flatten(s, s.keys[..i]) + Values(s.values[s.keys[i]])
  {
    var k := s.keys[i];
    assert k in s.keys;
    assert InvoiceValid(s.values[k]);
    var pre := s.keys[..i + 1];
    assert pre[..|pre| - 1] == s.keys[..i] && pre[|pre| - 1] == k;
  }

  /** One step of the inner loop of `getSalesUpTo`. */
  lemma ItemsUpToStep(done: seq<SaleItem>, values: map<string, SaleItem>, ks: seq<string>, j: nat, cutoff: EventLog.Timestamp)
    requires j < |ks| && forall k :: k in ks ==> k in values
    ensures var item := values[ks[j]];
      ItemsUpTo(done + ValuesAt(values, ks[..j + 1]), cutoff) ==
      ItemsUpTo(done + ValuesAt(values, ks[..j]), cutoff) + (if item.date <= cutoff then [item] else [])
  {
    var seen, item := done + ValuesAt(values, ks[..j]), values[ks[j]];
    assert ks[..j + 1][..j] == ks[..j];
    assert ValuesAt(values, ks[..j + 1]) == ValuesAt(values, ks[..j]) + [item];
    var all := seen + [item];
    assert done + ValuesAt(values, ks[..j + 1]) == all;
    assert all[..|all| - 1] == seen && all[|all| - 1] == item;
  }

  /** Amending twice with the same item leaves the index as amending once. */
  lemma UpsertIdempotent(s: Sales, inv: string, item: SaleItem)
    ensures Upsert(Upsert(s, inv, item), inv, item) == Upsert(s, inv, item)
  {
    var x := Put(InvoiceOf(s, inv), item.itemId, item);
    PutPut(InvoiceOf(s, inv), item.itemId, item, item);
    PutPut(s, inv, x, x);
  }

  /** Position p of `AllSales` holds the item stored under the key at
      position p of `KeySequence`. */
  lemma {:induction false} FlattenAt(s: Sales, ks: seq<string>)
    requires forall k :: k in ks ==> k in s.values && JsMap.Valid(s.values[k])
    ensures |Flatten(s, ks)| == |KeysIn(s, ks)|
    ensures forall p :: 0 <= p < |KeysIn(s, ks)| ==>
      var key := KeysIn(s, ks)[p];
      key.0 in s.values && key.1 in s.values[key.0].values && Flatten(s, ks)[p] == s.values[key.0].values[key.1]
  {
    if ks != [] {
      var init, k := ks[..|ks| - 1], ks[|ks| - 1];
      FlattenAt(s, init);
      var ids := s.values[k].keys;
      var block := seq(|ids|, j requires 0 <= j < |ids| => (k, ids[j]));
      assert KeysIn(s, ks) == KeysIn(s, init) + block;
      assert Flatten(s, ks) == Flatten(s, init) + Values(s.values[k]);
      var n := |KeysIn(s, init)|;
      forall p | n <= p < |KeysIn(s, ks)|
        ensures var key := KeysIn(s, ks)[p];
          key.0 in s.values && key.1 in s.values[key.0].values && Flatten(s, ks)[p] == s.values[key.0].values[key.1]
      {
        assert KeysIn(s, ks)[p] == block[p - n];
        assert Flatten(s, ks)[p] == Values(s.values[k])[p - n];
        assert ids[p - n] in ids;
      }
    }
  }

  /** Every position of `AllSales` corresponds to one stored item. */
  lemma AllSalesAt(s: Sales)
    requires WellFormed(s)
    ensures |AllSales(s)| == |KeySequence(s)|
    ensures forall p :: 0 <= p < |KeySequence(s)| ==>
      Lookup(s, KeySequence(s)[p].0, KeySequence(s)[p].1) == Some(AllSales(s)[p])
  {
    FlattenAt(s, s.keys);
  }

  /** The keys in `KeysIn(s, ks)` are exactly those of the invoices `ks`. */
  lemma {:induction false} KeysInMembers(s: Sales, ks: seq<string>)
    requires forall k :: k in ks ==> k in s.values && JsMap.Valid(s.values[k])
    ensures forall inv, id :: (inv, id) in KeysIn(s, ks) <==> inv in ks && id in s.values[inv].values
  {
    if ks != [] {
      var init, k := ks[..|ks| - 1], ks[|ks| - 1];
      KeysInMembers(s, init);
      var ids := s.values[k].keys;
      var block := seq(|ids|, j requires 0 <= j < |ids| => (k, ids[j]));
      assert KeysIn(s, ks) == KeysIn(s, init) + block;
      forall inv, id
        ensures (inv, id) in KeysIn(s, ks) <==> inv in ks && id in s.values[inv].values
      {
        if inv == k && id in s.values[k].values {
          var j := IndexOf(ids, id);
          assert block[j] == (inv, id);
        }
        assert inv in ks <==> inv in init || inv == k;
      }
    }
  }

  /** A key is listed by `KeySequence` exactly when it is stored. */
  lemma KeySequenceMembers(s: Sales)
    requires WellFormed(s)
    ensures forall inv, id :: (inv, id) in KeySequence(s) <==> Lookup(s, inv, id).Some?
  {
    KeysInMembers(s, s.keys);
  }

  lemma DistinctConcat<T>(a: seq<T>, b: seq<T>)
    requires Distinct(a) && Distinct(b)
    requires forall x :: x in a ==> x !in b
    ensures Distinct(a + b)
  {
    forall i, j | 0 <= i < j < |a + b| ensures (a + b)[i] != (a + b)[j] {
      if i < |a| && j >= |a| {
        assert (a + b)[i] in a;
        assert (a + b)[j] == b[j - |a|];
      }
    }
  }

  lemma {:induction false} KeysInDistinct(s: Sales, ks: seq<string>)
    requires forall k :: k in ks ==> k in s.values && JsMap.Valid(s.values[k])
    requires Distinct(ks)
    ensures Distinct(KeysIn(s, ks))
  {
    if ks != [] {
      var init, k := ks[..|ks| - 1], ks[|ks| - 1];
      KeysInDistinct(s, init);
      KeysInMembers(s, init);
      var ids := s.values[k].keys;
      var block := seq(|ids|, j requires 0 <= j < |ids| => (k, ids[j]));
      assert KeysIn(s, ks) == KeysIn(s, init) + block;
      assert k !in init;
      forall x | x in KeysIn(s, init) ensures x !in block {
        assert x.0 in init;
      }
      DistinctConcat(KeysIn(s, init), block);
    }
  }

  /** The index holds at most one item per (invoice, item) key. */
  lemma KeySequenceDistinct(s: Sales)
    requires WellFormed(s)
    ensures Distinct(KeySequence(s))
  {
    KeysInDistinct(s, s.keys);
  }

  /** `KeysIn` depends only on the key order of each invoice. */
  lemma {:induction false} KeysInFrame(s: Sales, t: Sales, ks: seq<string>)
    requires forall k :: k in ks ==> k in s.values && k in t.values && s.values[k].keys == t.values[k].keys
    ensures KeysIn(s, ks) == KeysIn(t, ks)
  {
    if ks != [] {
      KeysInFrame(s, t, ks[..|ks| - 1]);
    }
  }

  /** `Flatten` depends only on the invoices it visits. */
  lemma {:induction false} FlattenFrame(s: Sales, t: Sales, ks: seq<string>)
    requires forall k :: k in ks ==> k in s.values && JsMap.Valid(s.values[k])
    requires forall k :: k in ks ==> k in t.values && t.values[k] == s.values[k]
    ensures Flatten(s, ks) == Flatten(t, ks)
  {
    if ks != [] {
      FlattenFrame(s, t, ks[..|ks| - 1]);
    }
  }

  /** Overwriting a stored key keeps every key's iteration position. */
  lemma UpsertKeepsOrder(s: Sales, inv: string, item: SaleItem)
    requires WellFormed(s) && Lookup(s, inv, item.itemId).Some?
    ensures Upsert(s, inv, item).keys == s.keys
    ensures KeySequence(Upsert(s, inv, item)) == KeySequence(s)
  {
    var r := Upsert(s, inv, item);
    var x := Put(s.values[inv], item.itemId, item);
    assert r == Put(s, inv, x);
    assert x.keys == s.values[inv].keys;
    assert r.keys == s.keys;
    forall k | k in s.keys ensures k in s.values && k in r.values && r.values[k].keys == s.values[k].keys {
      if k != inv {
        assert r.values[k] == s.values[k];
      }
    }
    KeysInFrame(r, s, s.keys);
  }

  lemma DistinctCardinality<T>(s: seq<T>)
    requires Distinct(s)
    ensures |set x | x in s| == |s|
  {
    if s != [] {
      var init, last := s[..|s| - 1], s[|s| - 1];
      DistinctCardinality(init);
      assert (set x | x in s) == (set x | x in init) + {last};
      assert last !in init;
    }
  }

  /** `getAllSales().length` grows by one exactly when the amended key was
      not stored before, and is unchanged otherwise. */
  lemma UpsertCount(s: Sales, inv: string, item: SaleItem)
    requires WellFormed(s)
    ensures |AllSales(Upsert(s, inv, item))| ==
      |AllSales(s)| + (if Lookup(s, inv, item.itemId).None? then 1 else 0)
  {
    var r := Upsert(s, inv, item);
    AllSalesAt(s);
    AllSalesAt(r);
    if Lookup(s, inv, item.itemId).Some? {
      UpsertKeepsOrder(s, inv, item);
    } else {
      UpsertNewKey(s, inv, item);
    }
  }

  /** A duplicate-free sequence whose elements are those of another plus one
      new element is one longer. */
  lemma DistinctGrows<T>(a: seq<T>, b: seq<T>, y: T)
    requires Distinct(a) && Distinct(b) && y !in a
    requires forall x :: x in b <==> x in a || x == y
    ensures |b| == |a| + 1
  {
    DistinctCardinality(a);
    DistinctCardinality(b);
    var before, after := set x | x in a, set x | x in b;
    assert after == before + {y};
  }

  /** A new key adds exactly one entry to `KeySequence`. */
  lemma UpsertNewKey(s: Sales, inv: string, item: SaleItem)
    requires WellFormed(s) && Lookup(s, inv, item.itemId).None?
    ensures |KeySequence(Upsert(s, inv, item))| == |KeySequence(s)| + 1
  {
    var r := Upsert(s, inv, item);
    var key := (inv, item.itemId);
    KeySequenceMembers(s);
    KeySequenceMembers(r);
    KeySequenceDistinct(s);
    KeySequenceDistinct(r);
    var a, b := KeySequence(s), KeySequence(r);
    forall x ensures x in b <==> x in a || x == key {
      assert x in b <==> Lookup(r, x.0, x.1).Some?;
      assert x in a <==> Lookup(s, x.0, x.1).Some?;
    }
    DistinctGrows(a, b, key);
  }

  /** `addSale` with a non-empty list is `amendSale` for each item: the
      first amendment creates the invoice just as `addSale` does. */
  lemma {:induction false} AmendEachEnsured(s: Sales, inv: string, items: seq<SaleItem>)
    requires items != []
    ensures AmendEach(EnsureInvoice(s, inv), inv, items) == AmendEach(s, inv, items)
  {
    var init, last := items[..|items| - 1], items[|items| - 1];
    if init == [] {
      if inv !in s.values {
        PutPut(s, inv, Empty(), Put(InvoiceOf(s, inv), last.itemId, last));
      }
    } else {
      AmendEachEnsured(s, inv, init);
    }
  }

  /** `addSale` with an empty list creates the invoice but no sale. */
  lemma EnsureInvoiceNoSales(s: Sales, inv: string)
    requires WellFormed(s)
    ensures AllSales(EnsureInvoice(s, inv)) == AllSales(s)
  {
    if inv !in s.values {
      var r := EnsureInvoice(s, inv);
      PutAbsent(s, inv, Empty());
      FlattenFrame(s, r, s.keys);
      assert r.keys == s.keys + [inv];
      assert r.keys[..|r.keys| - 1] == s.keys;
    }
  }

  /** With duplicate item ids in one `addSale`, the last occurrence wins. */
  lemma {:induction false} AmendEachLastWins(s: Sales, inv: string, items: seq<SaleItem>)
    ensures forall j :: 0 <= j < |items| && (forall j' :: j < j' < |items| ==> items[j'].itemId != items[j].itemId) ==>
      Lookup(AmendEach(s, inv, items), inv, items[j].itemId) == Some(items[j])
  {
    if items != [] {
      var init, last := items[..|items| - 1], items[|items| - 1];
      AmendEachLastWins(s, inv, init);
      var before := AmendEach(s, inv, init);
      assert AmendEach(s, inv, items) == Upsert(before, inv, last);
      forall j | 0 <= j < |items| && (forall j' :: j < j' < |items| ==> items[j'].itemId != items[j].itemId)
        ensures Lookup(AmendEach(s, inv, items), inv, items[j].itemId) == Some(items[j])
      {
        if j < |init| {
          assert init[j] == items[j];
          assert forall j' :: j < j' < |init| ==> init[j'] == items[j'];
          assert last.itemId != items[j].itemId;
        }
      }
    }
  }

  /** An item id absent from the list of one `addSale` keeps its previous
      entry, and other invoices are untouched. */
  lemma {:induction false} AmendEachUntouched(s: Sales, inv: string, items: seq<SaleItem>)
    ensures forall id :: (forall j :: 0 <= j < |items| ==> items[j].itemId != id) ==>
      Lookup(AmendEach(s, inv, items), inv, id) == Lookup(s, inv, id)
    ensures forall i, id :: i != inv ==> Lookup(AmendEach(s, inv, items), i, id) == Lookup(s, i, id)
  {
    if items != [] {
      var init, last := items[..|items| - 1], items[|items| - 1];
      AmendEachUntouched(s, inv, init);
      assert AmendEach(s, inv, items) == Upsert(AmendEach(s, inv, init), inv, last);
      forall id | forall j :: 0 <= j < |items| ==> items[j].itemId != id
        ensures Lookup(AmendEach(s, inv, items), inv, id) == Lookup(s, inv, id)
      {
        assert forall j :: 0 <= j < |init| ==> init[j] == items[j];
        assert last.itemId != id;
      }
    }
  }

  /** The store itself; `sales` is private and changed only by `AddSale`
      and `AmendSale`. */
  class SaleStore {
    var sales: Sales

    ghost predicate Valid()
      reads this
    {
      WellFormed(sales)
    }

    constructor ()
      ensures Valid() && sales == Empty()
    {
      sales := Empty();
    }

    /** `addSale(inv, items)`: create the invoice if absent, then `set` each
        item under its id, in order. */
    method AddSale(invoiceId: string, items: seq<SaleItem>)
      requires Valid()
      modifies this
      ensures Valid()
      ensures sales == AmendEach(EnsureInvoice(old(sales), invoiceId), invoiceId, items)
    {
      var s := sales;
      if invoiceId !in s.values {
        s := Put(s, invoiceId, Empty());
      }
      ghost var start := s;
      var i := 0;
      while i < |items|
        invariant 0 <= i <= |items|
        invariant s == AmendEach(start, invoiceId, items[..i])
        invariant invoiceId in s.values
      {
        AmendEachStep(start, invoiceId, items, s, i);
        var invoice := s.values[invoiceId];
        s := Put(s, invoiceId, Put(invoice, items[i].itemId, items[i]));
        i := i + 1;
      }
      assert items[..i] == items;
      sales := s;
    }

    /** `amendSale(inv, item)`: an upsert; the invoice is created if absent. */
    method AmendSale(invoiceId: string, item: SaleItem)
      requires Valid()
      modifies this
      ensures Valid()
      ensures sales == Upsert(old(sales), invoiceId, item)
    {
      if invoiceId !in sales.values {
        sales := Put(sales, invoiceId, Empty());
        PutPut(old(sales), invoiceId, Empty(), Put(Empty(), item.itemId, item));
      }
      var invoice := sales.values[invoiceId];
      sales := Put(sales, invoiceId, Put(invoice, item.itemId, item));
    }

    /** `getAllSales()`: the nested `forEach` over invoices and their items. */
    method GetAllSales() returns (r: seq<SaleItem>)
      requires Valid()
      ensures r == AllSales(sales)
    {
      r := [];
      var i := 0;
      while i < |sales.keys|
        invariant 0 <= i <= |sales.keys|
        invariant r == Flatten(sales, sales.keys[..i])
      {
        var invoice := sales.values[sales.keys[i]];
        var j := 0;
        while j < |invoice.keys|
          invariant 0 <= j <= |invoice.keys|
          invariant r == Flatten(sales, sales.keys[..i]) + ValuesAt(invoice.values, invoice.keys[..j])
        {
          assert invoice.keys[..j + 1][..j] == invoice.keys[..j];
          r := r + [invoice.values[invoice.keys[j]]];
          j := j + 1;
        }
        assert invoice.keys[..j] == invoice.keys;
        assert sales.keys[..i + 1][..i] == sales.keys[..i];
        i := i + 1;
      }
      assert sales.keys[..i] == sales.keys;
    }

    /** `getSalesUpTo(cutoff)`: the same traversal, keeping the items dated
        at or before the cutoff. */
    method GetSalesUpTo(cutoff: EventLog.Timestamp) returns (r: seq<SaleItem>)
      requires Valid()
      ensures r == ItemsUpTo(AllSales(sales), cutoff)
    {
      var s := sales;
      r := [];
      var i := 0;
      while i < |s.keys|
        invariant 0 <= i <= |s.keys|
        invariant r == ItemsUpTo(Flatten(s, s.keys[..i]), cutoff)
      {
        FlattenStep(s, i);
        var invoice := s.values[s.keys[i]];
        ghost var done := Flatten(s, s.keys[..i]);
        var j := 0;
        assert done + ValuesAt(invoice.values, invoice.keys[..j]) == done;
        while j < |invoice.keys|
          invariant 0 <= j <= |invoice.keys|
          invariant r == ItemsUpTo(done + ValuesAt(invoice.values, invoice.keys[..j]), cutoff)
        {
          var item := invoice.values[invoice.keys[j]];
          ItemsUpToStep(done, invoice.values, invoice.keys, j, cutoff);
          if item.date <= cutoff {
            r := r + [item];
          }
          j := j + 1;
        }
        assert invoice.keys[..j] == invoice.keys;
        i := i + 1;
      }
      assert s.keys[..i] == s.keys;
    }
  }
}
