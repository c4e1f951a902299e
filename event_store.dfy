/** The event log of src/models/EventStore.ts: the three kinds of transaction
    event, and a store that keeps them ordered by date. Dates are timestamps
    (milliseconds, as `Date.prototype.getTime` gives them). */
module EventLog {

  type Timestamp = int

  /** One line of a sale: `{ itemId, cost, taxRate }`. */
  datatype LineItem = LineItem(itemId: string, cost: real, taxRate: real)

  /** `TransactionEvent`, tagged `SALES`, `TAX_PAYMENT` or `SALES_AMENDMENT`. */
  datatype Event =
    | Sale(date: Timestamp, invoiceId: string, items: seq<LineItem>)
    | TaxPayment(date: Timestamp, amount: real)
    | SalesAmendment(date: Timestamp, invoiceId: string, itemId: string, cost: real, taxRate: real)

  ghost predicate SortedByDate(log: seq<Event>) {
    forall i, j :: 0 <= i < j < |log| ==> log[i].date <= log[j].date
  }

  /** The log after `push(e)` and a stable sort by date, for a log that was
      already sorted: `e` moves in front of every event dated strictly later
      and stays behind every event dated the same or earlier. */
  function InsertByDate(log: seq<Event>, e: Event): (r: seq<Event>)
    ensures |r| == |log| + 1
    decreases |log|
  {
    if log == [] || log[|log| - 1].date <= e.date then log + [e]
    else InsertByDate(log[..|log| - 1], e) + [log[|log| - 1]]
  }

  /** The insertion only rearranges: the result holds the old events and `e`. */
  lemma {:induction false} InsertPermutes(log: seq<Event>, e: Event)
    ensures multiset(InsertByDate(log, e)) == multiset(log) + multiset{e}
    decreases |log|
  {
    if log != [] && log[|log| - 1].date > e.date {
      var init, last := log[..|log| - 1], log[|log| - 1];
      InsertPermutes(init, e);
      assert log == init + [last];
    }
  }

  /** `events.filter(ev => ev.date <= cutoff)`: the events dated at or before
      the cutoff, in log order. */
  function EventsUpTo(log: seq<Event>, cutoff: Timestamp): (r: seq<Event>)
    ensures |r| <= |log|
  {
    if log == [] then []
    else EventsUpTo(log[..|log| - 1], cutoff) + (if log[|log| - 1].date <= cutoff then [log[|log| - 1]] else [])
  }

  /** The filter keeps exactly the events dated at or before the cutoff. */
  lemma {:induction false} UpToMembers(log: seq<Event>, cutoff: Timestamp)
    ensures forall ev :: ev in EventsUpTo(log, cutoff) <==> ev in log && ev.date <= cutoff
  {
    if log != [] {
      var init, last := log[..|log| - 1], log[|log| - 1];
      UpToMembers(init, cutoff);
      assert log == init + [last];
    }
  }

  /** The events of one date, in log order. */
  function OnDate(log: seq<Event>, d: Timestamp): (r: seq<Event>)
    ensures |r| <= |log|
  {
    if log == [] then []
    else OnDate(log[..|log| - 1], d) + (if log[|log| - 1].date == d then [log[|log| - 1]] else [])
  }

  /** `OnDate` keeps exactly the events of that date. */
  lemma {:induction false} OnDateMembers(log: seq<Event>, d: Timestamp)
    ensures forall ev :: ev in OnDate(log, d) <==> ev in log && ev.date == d
  {
    if log != [] {
      var init, last := log[..|log| - 1], log[|log| - 1];
      OnDateMembers(init, d);
      assert log == init + [last];
    }
  }

  /** Where the insertion pass stops decides the result: `e` goes at the
      first position from which every event is dated strictly later. */
  lemma {:induction false} InsertAt(log: seq<Event>, e: Event, k: nat)
    requires k <= |log|
    requires k == 0 || log[k - 1].date <= e.date
    requires forall j :: k <= j < |log| ==> log[j].date > e.date
    ensures InsertByDate(log, e) == log[..k] + [e] + log[k..]
    decreases |log|
  {
    if k < |log| {
      var init, last := log[..|log| - 1], log[|log| - 1];
      assert last.date > e.date;
      assert InsertByDate(log, e) == InsertByDate(init, e) + [last];
      assert forall j :: k <= j < |init| ==> init[j].date > e.date by {
        forall j | k <= j < |init| ensures init[j].date > e.date {
          assert init[j] == log[j];
        }
      }
      InsertAt(init, e, k);
      var front, back := log[..k], init[k..];
      assert init[..k] == front;
      assert log[k..] == back + [last];
      assert InsertByDate(log, e) == (front + [e] + back) + [last];
    } else {
      assert log[..k] == log;
      assert log[k..] == [];
    }
  }

  /** A log dated entirely at or before the cutoff passes the filter whole. */
  lemma {:induction false} UpToAll(log: seq<Event>, cutoff: Timestamp)
    requires forall i :: 0 <= i < |log| ==> log[i].date <= cutoff
    ensures EventsUpTo(log, cutoff) == log
  {
    if log != [] {
      var init, last := log[..|log| - 1], log[|log| - 1];
      UpToAll(init, cutoff);
      assert log == init + [last];
    }
  }

  /** A log dated entirely after the cutoff contributes nothing. */
  lemma {:induction false} UpToNone(log: seq<Event>, cutoff: Timestamp)
    requires forall ev :: ev in log ==> ev.date > cutoff
    ensures EventsUpTo(log, cutoff) == []
  {
    if log != [] {
      var init, last := log[..|log| - 1], log[|log| - 1];
      assert forall ev :: ev in init ==> ev in log;
      UpToNone(init, cutoff);
    }
  }

  /** In a sorted log the events up to a cutoff are a prefix, and every
      event after that prefix is dated after the cutoff. */
  lemma {:induction false} UpToIsPrefix(log: seq<Event>, cutoff: Timestamp)
    requires SortedByDate(log)
    ensures EventsUpTo(log, cutoff) == log[..|EventsUpTo(log, cutoff)|]
    ensures forall i :: |EventsUpTo(log, cutoff)| <= i < |log| ==> log[i].date > cutoff
  {
    if log != [] {
      var init, last := log[..|log| - 1], log[|log| - 1];
      if last.date <= cutoff {
        assert forall i :: 0 <= i < |log| ==> log[i].date <= cutoff by {
          forall i | 0 <= i < |log| ensures log[i].date <= cutoff {
            assert log[i].date <= log[|log| - 1].date;
          }
        }
        UpToAll(log, cutoff);
      } else {
        assert SortedByDate(init);
        UpToIsPrefix(init, cutoff);
        var r := EventsUpTo(init, cutoff);
        assert EventsUpTo(log, cutoff) == r;
        assert r == log[..|r|] by {
          assert init[..|r|] == log[..|r|];
        }
      }
    }
  }

  /** Filtering a sorted log keeps it sorted: the result is a prefix, and
      the rest of the log is dated after the cutoff. */
  lemma UpToSorted(log: seq<Event>, cutoff: Timestamp)
    ensures SortedByDate(log) ==>
      && SortedByDate(EventsUpTo(log, cutoff))
      && EventsUpTo(log, cutoff) == log[..|EventsUpTo(log, cutoff)|]
      && forall i :: |EventsUpTo(log, cutoff)| <= i < |log| ==> log[i].date > cutoff
  {
    if SortedByDate(log) {
      UpToIsPrefix(log, cutoff);
    }
  }

  /** Placement of a new event in a sorted log: after exactly the events
      dated at or before it, in front of all later ones. */
  lemma InsertPlacement(log: seq<Event>, e: Event)
    requires SortedByDate(log)
    ensures var k := |EventsUpTo(log, e.date)|;
      && InsertByDate(log, e) == log[..k] + [e] + log[k..]
      && (forall i :: 0 <= i < k ==> log[i].date <= e.date)
      && (forall i :: k <= i < |log| ==> log[i].date > e.date)
  {
    var r := EventsUpTo(log, e.date);
    var k := |r|;
    UpToIsPrefix(log, e.date);
    UpToMembers(log, e.date);
    forall i | 0 <= i < k ensures log[i].date <= e.date {
      assert log[i] == r[i];
      assert r[i] in r;
    }
    InsertAt(log, e, k);
  }

  /** Inserting into a sorted log keeps it sorted. */
  lemma InsertSorted(log: seq<Event>, e: Event)
    requires SortedByDate(log)
    ensures SortedByDate(InsertByDate(log, e))
  {
    InsertPlacement(log, e);
  }

  /** Stability: among the events of any one date, the insertion keeps
      arrival order, the new event last. */
  lemma {:induction false} InsertStable(log: seq<Event>, e: Event, d: Timestamp)
    ensures OnDate(InsertByDate(log, e), d) == OnDate(log, d) + OnDate([e], d)
    decreases |log|
  {
    if log == [] || log[|log| - 1].date <= e.date {
      assert (log + [e])[..|log|] == log;
    } else {
      var init, last := log[..|log| - 1], log[|log| - 1];
      var r := InsertByDate(init, e);
      InsertStable(init, e, d);
      assert (r + [last])[..|r|] == r;
      assert last.date != e.date;
    }
  }

  /** One step of the insertion pass: swapping the new event with the one in
      front of it moves it one place towards the front. */
  lemma SwapStep(log: seq<Event>, e: Event, i: nat)
    requires 0 < i <= |log|
    ensures var s := log[..i] + [e] + log[i..];
      && s[i] == e && s[i - 1] == log[i - 1]
      && s[i - 1 := e][i := log[i - 1]] == log[..i - 1] + [e] + log[i - 1..]
  {
    var s := log[..i] + [e] + log[i..];
    var t := log[..i - 1] + [e] + log[i - 1..];
    assert |s| == |t|;
    forall j | 0 <= j < |s| ensures s[i - 1 := e][i := log[i - 1]][j] == t[j] {
      if j < i - 1 {
        assert s[j] == log[j] == t[j];
      } else if j > i {
        assert s[j] == log[j - 1] == t[j];
      }
    }
  }

  /** The store itself. The log is private to the class and changed only by
      `AddEvent`, so it is always sorted. */
  class EventStore {
    var events: seq<Event>

    ghost predicate Valid()
      reads this
    {
      SortedByDate(events)
    }

    constructor ()
      ensures Valid() && events == []
    {
      events := [];
    }

    /** `addEvent`: push, then sort by date. On a sorted log the stable sort
        moves only the new event, left past the events dated after it, which
        is the loop below. */
    method AddEvent(e: Event)
      requires Valid()
      modifies this
      ensures Valid()
      ensures events == InsertByDate(old(events), e)
      ensures |events| == |old(events)| + 1
      ensures multiset(events) == multiset(old(events)) + multiset{e}
    {
      ghost var before := events;
      events := events + [e];
      var i := |events| - 1;
      while i > 0 && events[i - 1].date > events[i].date
        invariant 0 <= i <= |before|
        invariant events == before[..i] + [e] + before[i..]
        invariant forall j :: i <= j < |before| ==> before[j].date > e.date
      {
        SwapStep(before, e, i);
        var front, moved := events[i - 1], events[i];
        events := events[i - 1 := moved][i := front];
        i := i - 1;
      }
      assert events == InsertByDate(before, e) by {
        if i > 0 {
          SwapStep(before, e, i);
        }
        InsertAt(before, e, i);
      }
      InsertSorted(before, e);
      InsertPermutes(before, e);
    }

    /** `getEventsUpTo(cutoff)`: inclusive of the cutoff, in log order. */
    function GetEventsUpTo(cutoff: Timestamp): (r: seq<Event>)
      reads this
      ensures forall ev :: ev in r <==> ev in events && ev.date <= cutoff
      ensures |r| <= |events|
      ensures events == [] ==> r == []
      ensures Valid() ==> SortedByDate(r) && r == events[..|r|]
      ensures Valid() ==> forall i :: |r| <= i < |events| ==> events[i].date > cutoff
    {
      UpToSorted(events, cutoff);
      UpToMembers(events, cutoff);
      EventsUpTo(events, cutoff)
    }

    /** `getAllEvents()`: the whole log, oldest first. */
    function GetAllEvents(): (r: seq<Event>)
      reads this
      ensures r == events
      ensures Valid() ==> SortedByDate(r)
    {
      events
    }
  }
}
