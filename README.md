# Novabook tax service: the ledger core in Dafny

This project models the in-memory ledger of the novabook tax service and
proves properties of that model. The ledger has four parts:

- **The event log** (`EventLog`, src/models/EventStore.ts). It is a class holding
  a sequence of `SALES`, `TAX_PAYMENT` and `SALES_AMENDMENT` events.
  - `AddEvent` pushes the new event and then runs the insertion pass that a
    stable sort by date performs on an already sorted array.
  - The model proves that `AddEvent` keeps the log sorted, that the result is
    a permutation of the old log plus the new event, and where the event
    lands. Equal dates keep their arrival order.
  - `getEventsUpTo` is an inclusive, order-preserving filter.
- **The sale index** (`SaleIndex`, src/models/SaleStore.ts). It is a class
  holding a map from invoice id to a map from item id to the item's current
  state.
  - Both levels are ECMAScript `Map`s. Module `JsMap` models them as a finite
    map plus the keys' first-insertion order, because `forEach` visits
    entries in that order.
  - `AddSale` and `AmendSale` are in-place upserts. `GetAllSales` and
    `GetSalesUpTo` are the nested `forEach` traversals.
- **The tax position query** (`TaxPosition`, src/routes/taxPosition.ts:39-84,
  without the HTTP layer). It has the two date guards, then the two running
  totals over the events up to the cutoff, then `Math.round`.
- **The amendment handler** (`AmendSale`, src/routes/amendSale.ts:44-93,
  without the HTTP layer). It runs over both stores together (`Ledger.Stores`,
  which replaces the singletons of src/models/index.ts). The result is
  `Ok`, `StructureError` or `DateError`.

Module `Scenarios` replays the repository's tax-position and amendment tests
on the model.

Modelling choices:
- Dates are integer timestamps (milliseconds). Date parsing (`new Date(s)`
  followed by `getTime()`) is a parameter `parse: string -> Option<Timestamp>`,
  where `None` stands for `NaN`. The stores hold the parsed timestamp where
  the source holds the string and re-parses it on every comparison. Parsing
  is deterministic, so the two orders agree.
- Costs, tax rates and payment amounts are exact `real`s. `Math.round` is
  `JsRound(x) = Floor(x + 1/2)`, so ties go towards +infinity (`RoundHalfUp`):
  2.5 rounds to 3 and -2.5 rounds to -2.
- The tax position rounds the difference between tax owed and tax paid
  (src/routes/taxPosition.ts:74-78), not each sum on its own.
- `getAllEvents` returns the internal array itself
  (src/models/EventStore.ts:48). In a value model the caller's copy and the
  store's log cannot be told apart.

## Model

| member | source | states |
|---|---|---|
| EventLog.InsertByDate | src/models/EventStore.ts:35-41 | the log after `addEvent` is one event longer |
| EventLog.InsertPermutes | src/models/EventStore.ts:36-40 | the new log is a permutation of the old log plus the new event |
| EventLog.InsertSorted | src/models/EventStore.ts:38-40 | inserting into a sorted log gives a sorted log |
| EventLog.InsertPlacement | src/models/EventStore.ts:36-40 | in a sorted log the new event lands right after all events dated at or before it and in front of all later ones |
| EventLog.InsertAt | src/models/EventStore.ts:38-40 | the stopping point of the insertion pass fixes the result: `log[..k] + [e] + log[k..]` |
| EventLog.InsertStable | src/models/EventStore.ts:36-40 | per date, the events keep arrival order, with the new event last among those of its date |
| EventLog.SwapStep | src/models/EventStore.ts:38-40 | one swap of the sort moves the new event one place to the front and leaves every other event in its place |
| EventLog.EventStore.AddEvent | src/models/EventStore.ts:35-41 | the new log is `InsertByDate` of the old one, stays sorted, grows by one, and is a permutation of the old log plus the event |
| EventLog.EventsUpTo | src/models/EventStore.ts:43-45 | the filter result is no longer than the log; which events it keeps is `UpToMembers` |
| EventLog.UpToMembers | src/models/EventStore.ts:44 | an event is returned exactly when it is in the log and dated at or before the cutoff |
| EventLog.UpToAll | src/models/EventStore.ts:44 | a log dated entirely at or before the cutoff passes the filter whole |
| EventLog.UpToNone | src/models/EventStore.ts:44 | a log dated entirely after the cutoff gives the empty sequence |
| EventLog.UpToIsPrefix | src/models/EventStore.ts:43-45 | on a sorted log the result is a prefix, and everything after that prefix is dated after the cutoff |
| EventLog.UpToSorted | src/models/EventStore.ts:43-45 | filtering a sorted log gives a sorted prefix of it |
| EventLog.OnDate | src/models/EventStore.ts:38-40 | the events of one date are no more than the log holds |
| EventLog.OnDateMembers | src/models/EventStore.ts:38-40 | `OnDate` keeps exactly the events of that date |
| EventLog.EventStore.GetEventsUpTo | src/models/EventStore.ts:43-45 | membership iff the event is in the log with date at or before the cutoff; empty on an empty log; on a valid store the result is sorted, a prefix of the log, and every later event is dated after the cutoff |
| EventLog.EventStore.GetAllEvents | src/models/EventStore.ts:47-49 | returns the whole current log, which is sorted |
| JsMap.Empty | src/models/SaleStore.ts:10 | `new Map()` is a valid map with no keys |
| JsMap.Put | src/models/SaleStore.ts:18 | after `set(k, v)`, `get(k)` is `v`, every other key is unchanged, and validity is kept |
| JsMap.PutPresent | src/models/SaleStore.ts:27 | `set` on a present key keeps the key order and replaces the value at that key's position |
| JsMap.PutAbsent | src/models/SaleStore.ts:14 | `set` on a new key appends the key and its value at the end of the iteration |
| JsMap.PutPut | src/models/SaleStore.ts:27 | a second `set` on the same key supersedes the first entirely |
| JsMap.ValuesAt | src/models/SaleStore.ts:45-47 | `forEach` visits the value of each key in key order |
| JsMap.IndexOf | src/models/SaleStore.ts:27 | the position of a key is its first occurrence in the key order |
| JsMap.Get | src/models/SaleStore.ts:16 | definition: `m.get(k)`, with `undefined` as `None` |
| JsMap.Values | src/models/SaleStore.ts:45-47 | definition: the values `forEach` visits, in key order |
| SaleIndex.EnsureInvoice | src/models/SaleStore.ts:13-15 | creating the invoice if absent adds the key and changes no item lookup |
| SaleIndex.Lookup | src/models/SaleStore.ts:26-27 | definition: the item stored under (invoice, item id), if any |
| SaleIndex.Upsert | src/models/SaleStore.ts:22-28 | after `amendSale(inv, item)` the entry `(inv, item.itemId)` is exactly `item` with no field merging; every other entry is unchanged; well-formedness is kept |
| SaleIndex.UpsertIdempotent | src/models/SaleStore.ts:22-28 | amending twice with the same item gives the state of amending once |
| SaleIndex.UpsertKeepsOrder | src/models/SaleStore.ts:22-28 | overwriting a stored key keeps the invoice order and every key's iteration position |
| SaleIndex.UpsertCount | src/models/SaleStore.ts:22-28 | `getAllSales().length` grows by one exactly when the key was absent and is unchanged otherwise |
| SaleIndex.UpsertNewKey | src/models/SaleStore.ts:22-28 | a new key adds exactly one entry to the key sequence |
| SaleIndex.AmendEach | src/models/SaleStore.ts:17-19 | amending item by item keeps the index well-formed |
| SaleIndex.AmendEachStep | src/models/SaleStore.ts:17-19 | one pass of `addSale`'s loop is one `amendSale` |
| SaleIndex.AmendEachEnsured | src/models/SaleStore.ts:12-20 | with a non-empty item list, `addSale` equals `amendSale` for each item in order |
| SaleIndex.EnsureInvoiceNoSales | src/models/SaleStore.ts:12-20 | `addSale` with an empty list adds an invoice but no sale |
| SaleIndex.AmendEachLastWins | src/models/SaleStore.ts:17-19 | with duplicate item ids in one `addSale`, the last occurrence is what is stored |
| SaleIndex.AmendEachUntouched | src/models/SaleStore.ts:12-20 | item ids not in the list keep their entries, and other invoices are untouched |
| SaleIndex.SaleStore.AddSale | src/models/SaleStore.ts:12-20 | the new index is the invoice created if absent, then each item upserted in order; well-formedness is kept |
| SaleIndex.SaleStore.AmendSale | src/models/SaleStore.ts:22-28 | the new index is `Upsert` of the old one; well-formedness is kept |
| SaleIndex.SaleStore.GetAllSales | src/models/SaleStore.ts:42-50 | the nested traversal returns `AllSales`, the items in map iteration order |
| SaleIndex.AllSales | src/models/SaleStore.ts:42-50 | definition: every item of every invoice, in map iteration order |
| SaleIndex.SaleStore.GetSalesUpTo | src/models/SaleStore.ts:30-40 | the nested traversal returns `getAllSales()` filtered to dates at or before the cutoff, in the same order |
| SaleIndex.ItemsUpTo | src/models/SaleStore.ts:34 | the filter result is no longer than its input; which items it keeps is `ItemsUpToMembers` |
| SaleIndex.ItemsUpToMembers | src/models/SaleStore.ts:34 | an item is kept exactly when it is dated at or before the cutoff |
| SaleIndex.ItemsUpToStep | src/models/SaleStore.ts:33-37 | one pass of the inner loop of `getSalesUpTo` |
| SaleIndex.FlattenStep | src/models/SaleStore.ts:32-38 | one pass of the outer loop of the traversals |
| SaleIndex.FlattenAt | src/models/SaleStore.ts:42-50 | position p of the traversal holds the item stored under the p-th key |
| SaleIndex.AllSalesAt | src/models/SaleStore.ts:42-50 | every position of `getAllSales()` is the lookup of its key |
| SaleIndex.KeysInMembers | src/models/SaleStore.ts:42-50 | the key sequence of some invoices lists exactly their stored keys |
| SaleIndex.KeySequenceMembers | src/models/SaleStore.ts:42-50 | a key is listed by the traversal exactly when it is stored |
| SaleIndex.KeysInDistinct | src/models/SaleStore.ts:42-50 | distinct invoices give a duplicate-free key sequence |
| SaleIndex.KeySequenceDistinct | src/models/SaleStore.ts:42-50 | `getAllSales()` holds at most one item per (invoice, item) key |
| SaleIndex.KeysInFrame | src/models/SaleStore.ts:42-50 | the key sequence depends only on each visited invoice's key order |
| SaleIndex.FlattenFrame | src/models/SaleStore.ts:42-50 | the traversal depends only on the invoices it visits |
| TaxPosition.JsRound | src/routes/taxPosition.ts:78 | `Math.round(x)` is the integer r with r - 1/2 <= x < r + 1/2 |
| TaxPosition.RoundHalfUp | src/routes/taxPosition.ts:78 | ties round towards +infinity, for negative values too |
| TaxPosition.Owed | src/routes/taxPosition.ts:61-65 | only a `SALES` event owes tax; the others owe 0 |
| TaxPosition.Paid | src/routes/taxPosition.ts:66-69 | only a `TAX_PAYMENT` event pays tax; the others pay 0 |
| TaxPosition.Balance | src/routes/taxPosition.ts:55-74 | definition: tax owed minus tax paid over the events up to the cutoff, unrounded |
| TaxPosition.TaxPositionAt | src/routes/taxPosition.ts:55-78 | the reported position is the nearest integer to the balance, ties upwards |
| TaxPosition.TotalsAppend | src/routes/taxPosition.ts:60-70 | both running totals add up over concatenation |
| TaxPosition.TotalsStep | src/routes/taxPosition.ts:60-70 | one pass of the outer loop adds what that event owes and what it pays |
| TaxPosition.ItemsTaxStep | src/routes/taxPosition.ts:63-65 | one pass of the inner loop adds `cost * taxRate` |
| TaxPosition.InsertBalance | src/routes/taxPosition.ts:55-74 | after `addEvent(e)` the unrounded position changes by exactly what `e` owes less what it pays, when `e` is dated at or before the cutoff, and not at all otherwise |
| TaxPosition.AmendmentKeepsTaxPosition | src/routes/taxPosition.ts:61-69 | adding a `SALES_AMENDMENT` event changes the tax position at no cutoff |
| TaxPosition.NothingBeforeCutoff | src/routes/taxPosition.ts:55-78 | a log with nothing dated at or before the cutoff, including the empty log, gives 0 |
| TaxPosition.GetTaxPosition | src/routes/taxPosition.ts:42-78 | a missing, non-string or empty date gives "Missing or invalid date parameter"; an unparseable one gives "Invalid date format"; otherwise the result is the rounded owed-minus-paid over the events up to the cutoff; the store is only read |
| AmendSale.ApplyEffect | src/routes/amendSale.ts:67-85 | a successful amendment sets exactly one index entry to {itemId, cost, taxRate, date}, adds exactly one `SALES_AMENDMENT` event with the same five fields, keeps the log sorted, and leaves the tax position unchanged at every cutoff |
| AmendSale.Present | src/routes/amendSale.ts:49-51 | definition: a string field passes `!field` when present and non-empty |
| AmendSale.WellStructured | src/routes/amendSale.ts:48-54 | definition: the structure check, three non-empty strings and two numbers |
| AmendSale.Apply | src/routes/amendSale.ts:67-85 | definition: the upsert into the sale index, then the audit event added to the log; its properties are `ApplyEffect` and `ApplyTwice` |
| AmendSale.ApplyTwice | src/routes/amendSale.ts:67-85 | repeating an identical amendment leaves the index as one application does but adds a second audit event |
| AmendSale.PatchSale | src/routes/amendSale.ts:44-88 | `StructureError` exactly when a field fails the structure check, which comes first; `DateError` exactly when the structure passes and the date does not parse; no store changes on either error; on success both stores hold the result of `Apply`, for any invoice, sold or not |
| Scenarios.TaxPositionExamples | __tests__/taxPosition.test.ts:30-110 | the empty log gives 0; the sale 100 at 0.2 plus 200 at 0.1 gives 40; with a payment of 50 it gives -10; with a payment of 30 it gives 10 |
| Scenarios.QueryGuardExamples | __tests__/taxPosition.test.ts:16-36 | definition: a test replay asserting the two guard errors and 0 on the empty log |
| Scenarios.QueryExamples | __tests__/taxPosition.test.ts:38-76 | definition: a test replay asserting 40 after the sale and -10 after the payment of 50, through `AddEvent` and `GetTaxPosition` |
| Scenarios.AmendExamples | __tests__/amendSale.test.ts:26-90 | definition: a test replay asserting that an unsold invoice is amended and indexed, a bad cost gives `StructureError` and a bad date `DateError` |
| Ledger.Stores.constructor | src/models/index.ts:4-5 | both stores start empty and valid |
| EventLog.EventStore.constructor | src/models/EventStore.ts:33 | the log starts empty |
| SaleIndex.SaleStore.constructor | src/models/SaleStore.ts:10 | the index starts empty and well-formed |

## Left out

- HTTP plumbing: Express routing, status codes, JSON bodies and the 202 reply.
  The handlers return result values instead. `QueryError.Message` and
  `AmendResult.Message` carry the error texts.
- Logging and the 500 paths. They are reached only through exceptions, which
  the tests provoke by mocking.
- src/routes/transactions.ts is not part of this model. It pushes ingested
  events into a separate `events` array from `../models/database`
  (src/routes/transactions.ts:2, :19, :24) and never
  calls `eventStore.addEvent` or `saleStore.addSale`, so no modelled store is
  filled by ingestion.
- JavaScript's Date parsing is a parameter, and both stores hold parsed
  timestamps. The model therefore cannot hold a date string that does not
  parse. In the source such a string can be stored: `addEvent` then sorts with
  a comparator that yields `NaN`, `getEventsUpTo` never returns that event,
  and `getSalesUpTo` (src/models/SaleStore.ts:34) silently drops that sale
  item, since `addSale` does not check item dates.
- IEEE-754 doubles: `cost * taxRate` and the sums are exact rationals in the
  model, so float rounding errors before `Math.round` are not modelled.
- EventLog.EventStore.AddEvent: the source sorts with a general stable sort.
  The model runs the insertion pass that such a sort performs on a sorted log
  plus one new element: adjacent swaps on the `events` field.
- SaleIndex.SaleStore.AddSale: the source mutates the invoice `Map` it
  fetched from the index. The model rebuilds the index value on a local copy
  and stores it at the end, so aliasing of that inner map is not modelled.
- The aliasing of the array that `getAllEvents` returns is not modelled.
  Neither is the `as any` cast in src/routes/amendSale.ts:85.
- Stored dates are parsed timestamps, not the original date strings. An audit
  event therefore does not keep the exact string the client sent.
- AmendSale.PatchSale: date, invoiceId and itemId are modelled as optional
  strings. A non-string JSON value in those fields, which `!x` treats by
  truthiness, is not modelled.
- TaxPosition.GetTaxPosition: an array or object query value is a single
  `NonString` case. Express's query parsing itself is not modelled.
