/**
 Events, their identity, and the order of a KI's history.
 Models src/wbcz/models.py, Event.to_dict / from_dict / event_id, and the two read-only
 queries of src/wbcz/event_store.py, EventStore.events and history_order_ambiguous.
 */
module Events {
  import opened Common

  datatype Operation = SALE | RETURN

  /** An aware datetime: an instant and the offset it was written in. */
  datatype Moment = Moment(utcMicros: int, offsetMinutes: int)

  /** A Decimal of whole cents: its sign (zero has one too), its cents, and the exponent it was written with. */
  datatype Amount = Amount(negative: bool, cents: nat, exponent: int)

  /** The amount with two decimals, as text. */
  datatype AmountText = AmountText(negative: bool, cents: nat)

  datatype Event = Event(
    kiz: string, taskNumber: string, sticker: string, operation: Operation, occurredAt: Option<Moment>,
    receiptNumber: Option<string>, fiscalDriveNumber: Option<string>, amount: Amount, currency: string,
    legalEntitySale: Option<bool>)

  /** to_dict, the canonical content: instants in UTC, amounts with two decimals. */
  datatype Payload = Payload(
    kiz: string, taskNumber: string, sticker: string, operation: Operation, occurredAt: Option<int>,
    receiptNumber: Option<string>, fiscalDriveNumber: Option<string>, amount: AmountText, currency: string,
    legalEntitySale: Option<bool>)

  type EventId = int

  /** SHA-256 of the canonical JSON, read as a number; hex digests of one length sort like numbers. */
  type DigestFunction = Payload -> EventId

  ghost predicate Injective(digest: DigestFunction) {
    forall p, q :: digest(p) == digest(q) ==> p == q
  }

  function ToDict(e: Event): Payload {
    Payload(e.kiz, e.taskNumber, e.sticker, e.operation,
            if e.occurredAt.Some? then Some(e.occurredAt.value.utcMicros) else None,
            e.receiptNumber, e.fiscalDriveNumber, AmountText(e.amount.negative, e.amount.cents),
            e.currency, e.legalEntitySale)
  }

  function FromDict(p: Payload): Event {
    Event(p.kiz, p.taskNumber, p.sticker, p.operation,
          if p.occurredAt.Some? then Some(Moment(p.occurredAt.value, 0)) else None,
          p.receiptNumber, p.fiscalDriveNumber, Amount(p.amount.negative, p.amount.cents, -2),
          p.currency, p.legalEntitySale)
  }

  function IdOf(digest: DigestFunction, e: Event): EventId {
    digest(ToDict(e))
  }

  /** The same moment, whatever the offset it was written in. */
  ghost predicate SameInstant(a: Option<Moment>, b: Option<Moment>) {
    if a.Some? && b.Some? then a.value.utcMicros == b.value.utcMicros else a.None? && b.None?
  }

  /** Everything of an event but its date and its amount. */
  function Rest(e: Event): Event {
    e.(occurredAt := None, amount := Amount(false, 0, 0))
  }

  /** Two events are one row of the store exactly when they differ at most in how date and amount were written. */
  lemma SameIdIffSameUpToNotation(digest: DigestFunction, a: Event, b: Event)
    requires Injective(digest)
    ensures IdOf(digest, a) == IdOf(digest, b) <==>
              SameInstant(a.occurredAt, b.occurredAt) && Rest(a) == Rest(b)
              && a.amount.negative == b.amount.negative && a.amount.cents == b.amount.cents
    ensures IdOf(digest, FromDict(ToDict(a))) == IdOf(digest, a) && ToDict(a).kiz == a.kiz
    ensures var read := FromDict(ToDict(a));
            SameInstant(read.occurredAt, a.occurredAt) && Rest(read) == Rest(a)
            && read.amount.negative == a.amount.negative && read.amount.cents == a.amount.cents
  {
    if IdOf(digest, a) == IdOf(digest, b) {
      assert ToDict(a) == ToDict(b);
    }
  }

  // ---------- The history of one KI ----------

  type Table = map<EventId, Payload>

  function KiIds(events: Table, kiz: string): set<EventId> {
    set id | id in events && events[id].kiz == kiz
  }

  /** ORDER BY occurred_at IS NULL, occurred_at, event_id. */
  predicate SortsBefore(events: Table, a: EventId, b: EventId)
    requires a in events && b in events
  {
    var x, y := events[a].occurredAt, events[b].occurredAt;
    if x.Some? && y.Some? then x.value < y.value || (x.value == y.value && a < b)
    else if x.None? && y.None? then a < b
    else x.Some?
  }

  /** The only chronological fact: both dates are known and one is earlier. */
  ghost predicate Earlier(events: Table, a: EventId, b: EventId)
    requires a in events && b in events
  {
    events[a].occurredAt.Some? && events[b].occurredAt.Some? && events[a].occurredAt.value < events[b].occurredAt.value
  }

  ghost predicate Lists(list: seq<EventId>, ids: set<EventId>) {
    (forall i :: 0 <= i < |list| ==> list[i] in ids)
    && (forall id :: id in ids ==> id in list)
    && (forall i, j :: 0 <= i < j < |list| ==> list[i] != list[j])
  }

  ghost predicate Sorted(events: Table, list: seq<EventId>)
    requires forall i :: 0 <= i < |list| ==> list[i] in events
  {
    forall i, j :: 0 <= i < j < |list| ==> SortsBefore(events, list[i], list[j])
  }

  /** A chronological order of the ids: nothing later is put before something earlier. */
  ghost predicate Chronological(events: Table, ids: set<EventId>, list: seq<EventId>)
    requires ids <= events.Keys
  {
    Lists(list, ids) && forall i, j :: 0 <= i < j < |list| ==> !Earlier(events, list[j], list[i])
  }

  ghost predicate Least(events: Table, ids: set<EventId>, m: EventId)
    requires ids <= events.Keys
  {
    m in ids && forall id :: id in ids && id != m ==> SortsBefore(events, m, id)
  }

  lemma HasElement(ids: set<EventId>)
    ensures ids != {} <==> exists x :: x in ids
  {
    if forall x :: x !in ids {
      assert ids == {};
    }
  }

  lemma {:induction false} LeastExists(events: Table, ids: set<EventId>)
    requires ids <= events.Keys && ids != {}
    ensures exists m :: Least(events, ids, m)
    decreases |ids|
  {
    HasElement(ids);
    var x :| x in ids;
    if ids == {x} {
      assert Least(events, ids, x);
    } else {
      LeastExists(events, ids - {x});
      var m :| Least(events, ids - {x}, m);
      if SortsBefore(events, x, m) {
        forall id | id in ids && id != x ensures SortsBefore(events, x, id) {
          assert id == m || SortsBefore(events, m, id);
        }
        assert Least(events, ids, x);
      } else {
        assert Least(events, ids, m);
      }
    }
  }

  /** events(kiz): the rows in display order. */
  ghost function Listing(events: Table, ids: set<EventId>): (list: seq<EventId>)
    requires ids <= events.Keys
    ensures Lists(list, ids) && Sorted(events, list)
    decreases |ids|
  {
    if ids == {} then []
    else
      LeastExists(events, ids);
      var m :| Least(events, ids, m);
      [m] + Listing(events, ids - {m})
  }

  lemma {:induction false} ListLength(list: seq<EventId>, ids: set<EventId>)
    requires Lists(list, ids)
    ensures |list| == |ids|
    decreases |list|
  {
    HasElement(ids);
    if list != [] {
      var rest := list[1..];
      assert forall id :: id in ids - {list[0]} ==> id in rest;
      ListLength(rest, ids - {list[0]});
    }
  }

  /** Dated events in the order of their dates, then the undated ones; among equals the ids ascend. */
  ghost predicate InDisplayOrder(events: Table, list: seq<EventId>)
    requires forall i :: 0 <= i < |list| ==> list[i] in events
  {
    forall i, j :: 0 <= i < j < |list| ==>
      var x, y := events[list[i]].occurredAt, events[list[j]].occurredAt;
      && (y.Some? ==> x.Some? && x.value <= y.value)
      && (x == y ==> list[i] < list[j])
  }

  /** The display order is the only listing in that order. */
  lemma ListingIffDisplayOrder(events: Table, ids: set<EventId>, list: seq<EventId>)
    requires ids <= events.Keys && Lists(list, ids)
    ensures list == Listing(events, ids) <==> InDisplayOrder(events, list)
  {
    hide Listing, Lists;
    ListedOnce(list, ids);
    SortedIffInDisplayOrder(events, list);
    if Sorted(events, list) {
      OneSortedList(events, ids, list, Listing(events, ids));
    }
  }

  lemma ListedOnce(list: seq<EventId>, ids: set<EventId>)
    requires Lists(list, ids)
    ensures forall i :: 0 <= i < |list| ==> list[i] in ids
    ensures forall i, j :: 0 <= i < j < |list| ==> list[i] != list[j]
  {
  }

  lemma SortedIffInDisplayOrder(events: Table, list: seq<EventId>)
    requires forall i :: 0 <= i < |list| ==> list[i] in events
    requires forall i, j :: 0 <= i < j < |list| ==> list[i] != list[j]
    ensures Sorted(events, list) <==> InDisplayOrder(events, list)
  {
    if InDisplayOrder(events, list) {
      forall i, j | 0 <= i < j < |list| ensures SortsBefore(events, list[i], list[j]) {
        assert list[i] != list[j];
      }
    }
    if Sorted(events, list) {
      forall i, j | 0 <= i < j < |list|
        ensures var x, y := events[list[i]].occurredAt, events[list[j]].occurredAt;
                && (y.Some? ==> x.Some? && x.value <= y.value) && (x == y ==> list[i] < list[j])
      {
        assert SortsBefore(events, list[i], list[j]);
      }
    }
  }

  lemma {:induction false} OneSortedList(events: Table, ids: set<EventId>, a: seq<EventId>, b: seq<EventId>)
    requires ids <= events.Keys && Lists(a, ids) && Lists(b, ids) && Sorted(events, a) && Sorted(events, b)
    ensures a == b
    decreases |ids|
  {
    ListLength(a, ids);
    ListLength(b, ids);
    if a != [] {
      HeadIsLeast(events, ids, a);
      HeadIsLeast(events, ids, b);
      assert a[0] == b[0];
      TailLists(ids, a);
      TailLists(ids, b);
      OneSortedList(events, ids - {a[0]}, a[1..], b[1..]);
    }
  }

  lemma HeadIsLeast(events: Table, ids: set<EventId>, list: seq<EventId>)
    requires ids <= events.Keys && Lists(list, ids) && Sorted(events, list) && list != []
    ensures Least(events, ids, list[0])
  {
    forall id | id in ids && id != list[0] ensures SortsBefore(events, list[0], id) {
      var k :| 0 <= k < |list| && list[k] == id;
    }
  }

  lemma TailLists(ids: set<EventId>, list: seq<EventId>)
    requires Lists(list, ids) && list != []
    ensures Lists(list[1..], ids - {list[0]})
  {
    var rest := list[1..];
    forall id | id in ids - {list[0]} ensures id in rest {
      var k :| 0 <= k < |list| && list[k] == id;
      assert rest[k - 1] == id;
    }
  }

  // ---------- Ambiguity ----------

  function Dates(events: Table, ids: set<EventId>): set<Option<int>>
    requires ids <= events.Keys
  {
    set id | id in ids :: events[id].occurredAt
  }

  /** history_order_ambiguous: two rows or more, and a date missing or repeated. */
  function HistoryOrderAmbiguous(events: Table, kiz: string): bool {
    var ids := KiIds(events, kiz);
    |ids| >= 2 && (None in Dates(events, ids) || |Dates(events, ids)| != |ids|)
  }

  lemma {:induction false} DistinctDates(events: Table, ids: set<EventId>)
    requires ids <= events.Keys
    ensures |Dates(events, ids)| <= |ids|
    ensures |Dates(events, ids)| == |ids| <==>
              forall a, b :: a in ids && b in ids && a != b ==> events[a].occurredAt != events[b].occurredAt
    decreases |ids|
  {
    HasElement(ids);
    if ids != {} {
      var x :| x in ids;
      var rest := ids - {x};
      DistinctDates(events, rest);
      assert Dates(events, ids) == Dates(events, rest) + {events[x].occurredAt};
      if events[x].occurredAt in Dates(events, rest) {
        var y :| y in rest && events[y].occurredAt == events[x].occurredAt;
        assert Dates(events, ids) == Dates(events, rest);
      } else {
        forall b | b in rest ensures events[b].occurredAt != events[x].occurredAt {
          assert events[b].occurredAt in Dates(events, rest);
        }
      }
    }
  }

  /** With all dates known and distinct, a chronological order is sorted by them. */
  lemma {:induction false} OneStrictOrder(events: Table, ids: set<EventId>, a: seq<EventId>, b: seq<EventId>)
    requires ids <= events.Keys
    requires forall x, y :: x in ids && y in ids && x != y ==> Earlier(events, x, y) || Earlier(events, y, x)
    requires Chronological(events, ids, a) && Chronological(events, ids, b)
    ensures a == b
    decreases |ids|
  {
    ListLength(a, ids);
    ListLength(b, ids);
    if ids != {} {
      var rest := ids - {a[0]};
      assert a[0] == b[0];
      TailIsChronological(events, ids, a);
      TailIsChronological(events, ids, b);
      OneStrictOrder(events, rest, a[1..], b[1..]);
    }
  }

  lemma TailIsChronological(events: Table, ids: set<EventId>, list: seq<EventId>)
    requires ids <= events.Keys && Chronological(events, ids, list) && list != []
    ensures Chronological(events, ids - {list[0]}, list[1..])
  {
    TailLists(ids, list);
  }

  function Swap(list: seq<EventId>, i: nat): seq<EventId>
    requires i + 1 < |list|
  {
    list[i := list[i + 1]][i + 1 := list[i]]
  }

  /** Neighbours that chronology does not order can be exchanged. */
  lemma SwapStaysChronological(events: Table, ids: set<EventId>, list: seq<EventId>, i: nat)
    requires ids <= events.Keys && Chronological(events, ids, list)
    requires i + 1 < |list| && !Earlier(events, list[i], list[i + 1])
    ensures Chronological(events, ids, Swap(list, i)) && Swap(list, i) != list
  {
    hide Earlier;
    var other := Swap(list, i);
    forall id | id in ids ensures id in other {
      var k :| 0 <= k < |list| && list[k] == id;
      assert other[if k == i then i + 1 else if k == i + 1 then i else k] == id;
    }
  }

  lemma UnorderedNeighbours(events: Table, ids: set<EventId>, list: seq<EventId>) returns (i: nat)
    requires ids <= events.Keys && list == Listing(events, ids) && |ids| >= 2
    requires None in Dates(events, ids) || |Dates(events, ids)| != |ids|
    ensures i + 1 < |list| && !Earlier(events, list[i], list[i + 1])
  {
    hide Listing;
    ListLength(list, ids);
    if None in Dates(events, ids) {
      UndatedComesLast(events, ids, list);
      i := |list| - 2;
    } else {
      DistinctDates(events, ids);
      var a, b :| a in ids && b in ids && a != b && events[a].occurredAt == events[b].occurredAt;
      i := TiedNeighbours(events, ids, list, a, b);
    }
  }

  lemma UndatedComesLast(events: Table, ids: set<EventId>, list: seq<EventId>)
    requires ids <= events.Keys && Lists(list, ids) && Sorted(events, list) && None in Dates(events, ids)
    ensures list != [] && events[list[|list| - 1]].occurredAt == None
  {
    var x :| x in ids && events[x].occurredAt == None;
    var k :| 0 <= k < |list| && list[k] == x;
    if k < |list| - 1 {
      assert SortsBefore(events, list[k], list[|list| - 1]);
    }
  }

  lemma TiedNeighbours(events: Table, ids: set<EventId>, list: seq<EventId>, a: EventId, b: EventId) returns (i: nat)
    requires ids <= events.Keys && Lists(list, ids) && Sorted(events, list)
    requires a in ids && b in ids && a != b && events[a].occurredAt == events[b].occurredAt
    ensures i + 1 < |list| && !Earlier(events, list[i], list[i + 1])
  {
    var p :| 0 <= p < |list| && list[p] == a;
    var q :| 0 <= q < |list| && list[q] == b;
    i := if p < q then p else q;
    var j := if p < q then q else p;
    assert SortsBefore(events, list[i], list[i + 1]);
    assert i + 1 == j || SortsBefore(events, list[i + 1], list[j]);
  }

  lemma ListingIsChronological(events: Table, ids: set<EventId>)
    requires ids <= events.Keys
    ensures Chronological(events, ids, Listing(events, ids))
  {
    var list := Listing(events, ids);
    forall i, j | 0 <= i < j < |list| ensures !Earlier(events, list[j], list[i]) {
      assert SortsBefore(events, list[i], list[j]);
    }
  }

  /**
   The history is unambiguous exactly when its events have one and only one chronological
   order; then that order is the one events(kiz) shows.
   */
  lemma UnambiguousIffOneOrder(events: Table, kiz: string)
    ensures var ids := KiIds(events, kiz);
            !HistoryOrderAmbiguous(events, kiz) <==>
              forall list :: Chronological(events, ids, list) ==> list == Listing(events, ids)
    ensures Chronological(events, KiIds(events, kiz), Listing(events, KiIds(events, kiz)))
  {
    var ids := KiIds(events, kiz);
    var shown := Listing(events, ids);
    ListingIsChronological(events, ids);
    if HistoryOrderAmbiguous(events, kiz) {
      var i := UnorderedNeighbours(events, ids, shown);
      SwapStaysChronological(events, ids, shown, i);
    } else {
      forall list | Chronological(events, ids, list) ensures list == shown {
        UnambiguousOrder(events, ids, list);
      }
    }
  }

  lemma OnlyMember(ids: set<EventId>, x: EventId)
    requires x in ids && |ids| < 2
    ensures ids == {x}
  {
    assert |ids - {x}| == 0;
  }

  lemma UnambiguousOrder(events: Table, ids: set<EventId>, list: seq<EventId>)
    requires ids <= events.Keys && Chronological(events, ids, list)
    requires |ids| < 2 || (None !in Dates(events, ids) && |Dates(events, ids)| == |ids|)
    ensures list == Listing(events, ids)
  {
    var shown := Listing(events, ids);
    ListingIsChronological(events, ids);
    ListLength(list, ids);
    ListLength(shown, ids);
    if |ids| < 2 {
      if list != [] {
        assert list[0] in ids && shown[0] in ids;
        OnlyMember(ids, list[0]);
        OnlyMember(ids, shown[0]);
      }
    } else {
      DistinctDates(events, ids);
      forall x, y | x in ids && y in ids && x != y ensures Earlier(events, x, y) || Earlier(events, y, x) {
        assert events[x].occurredAt in Dates(events, ids) && events[y].occurredAt in Dates(events, ids);
      }
      OneStrictOrder(events, ids, list, shown);
    }
  }
}
