/** The two process-wide stores, which src/models/index.ts creates as module
    singletons, gathered into one explicitly constructed object. */
module Ledger {
  import JsMap
  import EventLog
  import SaleIndex

  class Stores {
    const eventStore: EventLog.EventStore
    const saleStore: SaleIndex.SaleStore

    ghost predicate Valid()
      reads eventStore, saleStore
    {
      eventStore.Valid() && saleStore.Valid()
    }

    constructor ()
      ensures Valid() && fresh(eventStore) && fresh(saleStore)
      ensures eventStore.events == [] && saleStore.sales == JsMap.Empty()
    {
      eventStore := new EventLog.EventStore();
      saleStore := new SaleIndex.SaleStore();
    }
  }
}
