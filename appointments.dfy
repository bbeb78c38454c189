/**
 * The appointment store (`server/models/Appointment.js`): the queries are filters and
 * orderings over the `appointments` table joined with `clients` and `services`; `create`,
 * `updateStatus` and `delete` change the table, modelled by the class `AppointmentTable`.
 */
module Appointments {
  import opened Wrappers
  import opened Tables
  import Seqs
  import Slots

  /** `ORDER BY a.appointment_date, a.appointment_time` (ascending). */
  predicate EarlierOrSame(a: Appointment, b: Appointment) {
    a.date < b.date || (a.date == b.date && a.time <= b.time)
  }

  /** `ORDER BY a.appointment_date DESC, a.appointment_time DESC`. */
  predicate LaterOrSame(a: Appointment, b: Appointment) {
    a.date > b.date || (a.date == b.date && a.time >= b.time)
  }

  /** `ORDER BY a.appointment_time ASC`. */
  predicate NotLaterInDay(a: Appointment, b: Appointment) {
    a.time <= b.time
  }

  lemma OrdersAreTotal()
    ensures Seqs.TotalPreorder(EarlierOrSame)
    ensures Seqs.TotalPreorder(LaterOrSame)
    ensures Seqs.TotalPreorder(NotLaterInDay)
  {
  }

  // ---------------------------------------------------------------- phone spellings

  predicate StartsWithPlus(s: string) {
    |s| > 0 && s[0] == '+'
  }

  /**
   * `findByPhone`'s `normalizedPhone` and `phoneWithoutPlus`: the phone with and without
   * one leading `+`. The phone itself is always one of the two.
   */
  function PhoneSpellings(phone: string): (r: (string, string))
    ensures r.0 == "+" + r.1
    ensures phone == r.0 || phone == r.1
    ensures StartsWithPlus(phone) ==> r.0 == phone
    ensures !StartsWithPlus(phone) ==> r.1 == phone
  {
    if StartsWithPlus(phone) then (phone, phone[1..]) else ("+" + phone, phone)
  }

  /**
   * A number written with or without its `+` gives the same pair of spellings, the first
   * with exactly one leading `+` and the second with none.
   */
  lemma PhoneSpellingsIgnorePlus(p: string)
    requires !StartsWithPlus(p)
    ensures PhoneSpellings("+" + p) == PhoneSpellings(p)
    ensures !StartsWithPlus(PhoneSpellings(p).1) && PhoneSpellings(p).0[1..] == PhoneSpellings(p).1
  {
    assert ("+" + p)[1..] == p;
  }

  // ---------------------------------------------------------------- queries

  /** `client_id` names a client whose phone is one of the two spellings. */
  predicate ClientHasPhone(clients: seq<Client>, clientId: int, spellings: (string, string)) {
    exists i | 0 <= i < |clients| ::
      clients[i].id == clientId && (clients[i].phone == spellings.0 || clients[i].phone == spellings.1)
  }

  /** The WHERE clause and joins of `findByPhone`. */
  predicate ListedForPhone(a: Appointment, clients: seq<Client>, services: seq<Service>, spellings: (string, string), shopId: int) {
    && ClientHasPhone(clients, a.clientId, spellings)
    && ServiceExists(services, a.serviceId)
    && IsActive(a.status)
    && a.shopId == shopId
  }

  /**
   * `findByPhone`: the pending and confirmed appointments of the barbershop whose client
   * has the phone with or without `+`, earliest first.
   */
  function FindByPhone(appts: seq<Appointment>, clients: seq<Client>, services: seq<Service>, phone: string, shopId: int): (r: seq<Appointment>)
    ensures forall a :: a in r <==> a in appts && ListedForPhone(a, clients, services, PhoneSpellings(phone), shopId)
    ensures forall a :: a in r ==> IsActive(a.status) && a.shopId == shopId
    ensures multiset(r) == multiset(Seqs.Filter(appts, a => ListedForPhone(a, clients, services, PhoneSpellings(phone), shopId)))
    ensures Seqs.Sorted(r, EarlierOrSame)
  {
    var spellings := PhoneSpellings(phone);
    var matched := Seqs.Filter(appts, a => ListedForPhone(a, clients, services, spellings, shopId));
    OrdersAreTotal();
    Seqs.SortSorted(matched, EarlierOrSame);
    var r := Seqs.Sort(matched, EarlierOrSame);
    assert forall a :: a in r <==> a in matched by {
      forall a ensures a in r <==> a in matched {
        Seqs.SortMembers(matched, EarlierOrSame, a);
      }
    }
    r
  }

  /** The WHERE clause of `findOccupiedSlots`: same date, same `HH:MM`, same barbershop, still active. */
  predicate HoldsSlot(a: Appointment, services: seq<Service>, date: int, minutes: int, shopId: int) {
    && a.date == date
    && a.time / 60 == minutes
    && a.shopId == shopId
    && IsActive(a.status)
    && ServiceExists(services, a.serviceId)
  }

  /**
   * `findOccupiedSlots(date, time, barbershopId)`: whether a pending or confirmed
   * appointment of the barbershop starts in the same minute `minutes` on `date`. It
   * compares start times only; the service durations play no part.
   */
  function FindOccupiedSlots(appts: seq<Appointment>, services: seq<Service>, date: int, minutes: int, shopId: int): (found: bool)
    ensures found <==> exists i | 0 <= i < |appts| :: HoldsSlot(appts[i], services, date, minutes, shopId)
  {
    if appts == [] then false
    else if HoldsSlot(appts[0], services, date, minutes, shopId) then true
    else
      var found := FindOccupiedSlots(appts[1..], services, date, minutes, shopId);
      assert found ==> exists i | 0 <= i < |appts| :: HoldsSlot(appts[i], services, date, minutes, shopId) by {
        if found {
          var i :| 0 <= i < |appts[1..]| && HoldsSlot(appts[1..][i], services, date, minutes, shopId);
          assert appts[1..][i] == appts[i + 1];
        }
      }
      assert !found ==> forall i | 0 <= i < |appts| :: !HoldsSlot(appts[i], services, date, minutes, shopId) by {
        if !found {
          forall i | 0 <= i < |appts| ensures !HoldsSlot(appts[i], services, date, minutes, shopId) {
            if i > 0 {
              assert appts[i] == appts[1..][i - 1];
            }
          }
        }
      }
      found
  }

  /**
   * A slot is taken only by a booking that starts in the very same minute: a pending
   * 60-minute booking at 10:00 does not make 10:30 occupied, although the two windows
   * overlap, and a booking stored as 10:30:45 does occupy 10:30.
   */
  lemma ExactMinuteOnly()
    ensures var services := [Service(1, 1, "Corte", None, 60, 15.0, true)];
            var tenOClock := Appointment(1, 1, 1, 1, None, 20000, 36000, Pending, None);
            !FindOccupiedSlots([tenOClock], services, 20000, 630, 1)
    ensures var services := [Service(1, 1, "Corte", None, 60, 15.0, true)];
            var withSeconds := Appointment(1, 1, 1, 1, None, 20000, 37845, Pending, None);
            FindOccupiedSlots([withSeconds], services, 20000, 630, 1)
  {
    var services := [Service(1, 1, "Corte", None, 60, 15.0, true)];
    assert ServiceExists(services, 1) by { assert services[0].id == 1; }
    var withSeconds := Appointment(1, 1, 1, 1, None, 20000, 37845, Pending, None);
    assert HoldsSlot([withSeconds][0], services, 20000, 630, 1);
  }

  /** The WHERE clause of `findByIdClient`: no barbershop and no join. */
  predicate HeldByClient(a: Appointment, clientId: int) {
    a.clientId == clientId && IsActive(a.status)
  }

  /**
   * `findByIdClient`: every pending or confirmed appointment of the client, in table
   * order, whatever barbershop it belongs to.
   */
  function FindByIdClient(appts: seq<Appointment>, clientId: int): (r: seq<Appointment>)
    ensures forall a :: a in r <==> a in appts && a.clientId == clientId && IsActive(a.status)
    ensures |r| <= |appts|
  {
    Seqs.Filter(appts, a => HeldByClient(a, clientId))
  }

  /** The WHERE clause and join of `getOccupiedSlotsByDate`; the barber filter applies only to a truthy id. */
  predicate OccupiesDay(a: Appointment, services: seq<Service>, date: int, shopId: int, barberId: Option<int>) {
    && a.date == date
    && a.shopId == shopId
    && IsActive(a.status)
    && ServiceExists(services, a.serviceId)
    && (IdOrNull(barberId).Some? ==> a.barberId == barberId)
  }

  /** The occupied interval of a booking: its `HH:MM` start and its service's duration. */
  function Occupied(a: Appointment, services: seq<Service>): Slots.Interval
    requires ServiceExists(services, a.serviceId)
  {
    Slots.Interval(a.time / 60, ServiceDuration(services, a.serviceId))
  }

  /**
   * `getOccupiedSlotsByDate`: the intervals held on `date` by the barbershop's pending and
   * confirmed appointments (of one barber when `barberId` is given), earliest first.
   */
  function GetOccupiedSlotsByDate(appts: seq<Appointment>, services: seq<Service>, date: int, shopId: int, barberId: Option<int>)
    : (r: seq<Slots.Interval>)
    ensures |r| == |Seqs.Filter(appts, a => OccupiesDay(a, services, date, shopId, barberId))|
    ensures forall i | 0 <= i < |r| :: exists a | a in appts ::
      OccupiesDay(a, services, date, shopId, barberId) && r[i] == Occupied(a, services)
    ensures forall i, j | 0 <= i < j < |r| :: r[i].start <= r[j].start
    ensures exists rows: seq<Appointment> | multiset(rows) == multiset(Seqs.Filter(appts, a => OccupiesDay(a, services, date, shopId, barberId))) ::
      && |rows| == |r|
      && forall i | 0 <= i < |r| :: OccupiesDay(rows[i], services, date, shopId, barberId) && r[i] == Occupied(rows[i], services)
  {
    var matched := Seqs.Filter(appts, a => OccupiesDay(a, services, date, shopId, barberId));
    var sorted := Seqs.Sort(matched, NotLaterInDay);
    SortedDay(matched, services, date, shopId, barberId);
    IntervalsAscending(sorted, services);
    var r := IntervalsOf(sorted, services);
    assert multiset(sorted) == multiset(matched);
    assert forall i | 0 <= i < |r| :: OccupiesDay(sorted[i], services, date, shopId, barberId) && r[i] == Occupied(sorted[i], services);
    r
  }

  /** The occupied intervals of some rows, in their order. */
  function IntervalsOf(rows: seq<Appointment>, services: seq<Service>): (r: seq<Slots.Interval>)
    requires forall i | 0 <= i < |rows| :: ServiceExists(services, rows[i].serviceId)
    ensures |r| == |rows|
    ensures forall i | 0 <= i < |rows| :: r[i] == Occupied(rows[i], services)
  {
    seq(|rows|, i requires 0 <= i < |rows| => Occupied(rows[i], services))
  }

  /** Sorting the day's rows by time keeps exactly those rows, in time order. */
  lemma SortedDay(matched: seq<Appointment>, services: seq<Service>, date: int, shopId: int, barberId: Option<int>)
    requires forall a | a in matched :: OccupiesDay(a, services, date, shopId, barberId)
    ensures forall i | 0 <= i < |Seqs.Sort(matched, NotLaterInDay)| ::
      Seqs.Sort(matched, NotLaterInDay)[i] in matched
    ensures forall i | 0 <= i < |Seqs.Sort(matched, NotLaterInDay)| ::
      OccupiesDay(Seqs.Sort(matched, NotLaterInDay)[i], services, date, shopId, barberId)
    ensures Seqs.Sorted(Seqs.Sort(matched, NotLaterInDay), NotLaterInDay)
  {
    var sorted := Seqs.Sort(matched, NotLaterInDay);
    OrdersAreTotal();
    Seqs.SortSorted(matched, NotLaterInDay);
    forall i | 0 <= i < |sorted| ensures sorted[i] in matched {
      Seqs.SortMembers(matched, NotLaterInDay, sorted[i]);
    }
  }

  /** Rows in time order give intervals in start order: `HH:MM` keeps the order of the `TIME`. */
  lemma IntervalsAscending(rows: seq<Appointment>, services: seq<Service>)
    requires forall i | 0 <= i < |rows| :: ServiceExists(services, rows[i].serviceId)
    requires Seqs.Sorted(rows, NotLaterInDay)
    ensures forall i, j | 0 <= i < j < |rows| :: IntervalsOf(rows, services)[i].start <= IntervalsOf(rows, services)[j].start
  {
    forall i, j | 0 <= i < j < |rows| ensures IntervalsOf(rows, services)[i].start <= IntervalsOf(rows, services)[j].start {
      assert NotLaterInDay(rows[i], rows[j]);
      DivMonotone(rows[i].time, rows[j].time);
    }
  }

  lemma DivMonotone(x: int, y: int)
    requires x <= y
    ensures x / 60 <= y / 60
  {
  }

  // ---------------------------------------------------------------- findAll

  /**
   * The optional parts of `findAll`'s `filters`. A value that is absent or falsy (an
   * empty date, a `NaN` or 0 limit or offset) is `None` or is ignored.
   */
  datatype Filters = Filters(date: Option<int>, status: Option<Status>, limit: Option<int>, offset: Option<int>)

  /** The WHERE clause and joins of `findAll`: the barbershop always, date and status only if given. */
  predicate Listed(a: Appointment, clients: seq<Client>, services: seq<Service>, shopId: int, date: Option<int>, status: Option<Status>) {
    && a.shopId == shopId
    && (date.Some? ==> a.date == date.value)
    && (status.Some? ==> a.status == status.value)
    && ClientExists(clients, a.clientId)
    && ServiceExists(services, a.serviceId)
  }

  /** `findAll` before `LIMIT`: every listed appointment, latest first. */
  function Listing(appts: seq<Appointment>, clients: seq<Client>, services: seq<Service>, shopId: int, date: Option<int>, status: Option<Status>)
    : (r: seq<Appointment>)
    ensures forall a :: a in r <==> a in appts && Listed(a, clients, services, shopId, date, status)
    ensures Seqs.Sorted(r, LaterOrSame)
  {
    var matched := Seqs.Filter(appts, a => Listed(a, clients, services, shopId, date, status));
    OrdersAreTotal();
    Seqs.SortSorted(matched, LaterOrSame);
    var ordered := Seqs.Sort(matched, LaterOrSame);
    assert forall a :: a in ordered <==> a in matched by {
      forall a ensures a in ordered <==> a in matched {
        Seqs.SortMembers(matched, LaterOrSame, a);
      }
    }
    ordered
  }

  /** `filters.limit` is truthy, so `LIMIT` is added. */
  predicate HasLimit(filters: Filters) {
    filters.limit.Some? && filters.limit.value != 0
  }

  /** The `OFFSET` in effect: only together with a limit, and only when truthy. */
  function OffsetOf(filters: Filters): int {
    if HasLimit(filters) && filters.offset.Some? then filters.offset.value else 0
  }

  /**
   * `findAll`: the barbershop's appointments that pass the given filters, latest first,
   * cut to the page `OFFSET offset LIMIT limit` when a limit is given. `None` when the
   * database refuses a negative `LIMIT` or `OFFSET`.
   */
  function FindAll(appts: seq<Appointment>, clients: seq<Client>, services: seq<Service>, shopId: int, filters: Filters)
    : (r: Option<seq<Appointment>>)
    ensures r.None? <==> HasLimit(filters) && (filters.limit.value < 0 || OffsetOf(filters) < 0)
    ensures r.Some? ==> forall a :: a in r.value ==> a in appts && Listed(a, clients, services, shopId, filters.date, filters.status)
    ensures r.Some? ==> Seqs.Sorted(r.value, LaterOrSame)
    ensures r.Some? && HasLimit(filters) ==> |r.value| <= filters.limit.value
    ensures r.Some? && !HasLimit(filters) ==>
      forall a :: a in r.value <==> a in appts && Listed(a, clients, services, shopId, filters.date, filters.status)
  {
    var ordered := Listing(appts, clients, services, shopId, filters.date, filters.status);
    if !HasLimit(filters) then Some(ordered)
    else if filters.limit.value < 0 || OffsetOf(filters) < 0 then None
    else
      SortedSlice(ordered, LaterOrSame, OffsetOf(filters), filters.limit.value);
      Some(Page(ordered, OffsetOf(filters), filters.limit.value))
  }

  /** `OFFSET offset LIMIT limit` over an ordered result. */
  function Page<T>(s: seq<T>, offset: nat, limit: nat): (r: seq<T>)
    ensures |r| <= limit
    ensures forall x :: x in r ==> x in s
    ensures offset <= |s| ==> r == s[offset..][..if limit <= |s| - offset then limit else |s| - offset]
    ensures offset >= |s| ==> r == []
  {
    var from := if offset <= |s| then offset else |s|;
    var to := if limit <= |s| - from then from + limit else |s|;
    s[from..to]
  }

  lemma SortedSlice<T>(s: seq<T>, le: (T, T) -> bool, offset: nat, limit: nat)
    requires Seqs.Sorted(s, le)
    ensures Seqs.Sorted(Page(s, offset, limit), le)
  {
    var from := if offset <= |s| then offset else |s|;
    var to := if limit <= |s| - from then from + limit else |s|;
    forall i, j | 0 <= i < j < to - from ensures le(s[from..to][i], s[from..to][j]) {
      assert le(s[from + i], s[from + j]);
    }
  }

  // ---------------------------------------------------------------- the table

  /** `WHERE idappointments = ? AND barbershop_id = ?`: the scoping of `updateStatus` and `delete`. */
  predicate IsRow(a: Appointment, id: int, shopId: int) {
    a.id == id && a.shopId == shopId
  }

  predicate HasRow(rows: seq<Appointment>, id: int, shopId: int) {
    exists k | 0 <= k < |rows| :: IsRow(rows[k], id, shopId)
  }

  /** The table after `UPDATE appointments SET status = ? WHERE ...`. */
  function StatusSet(rows: seq<Appointment>, id: int, shopId: int, status: Status): (r: seq<Appointment>)
    ensures |r| == |rows|
    ensures forall i | 0 <= i < |rows| :: r[i].id == rows[i].id
  {
    seq(|rows|, i requires 0 <= i < |rows| => if IsRow(rows[i], id, shopId) then rows[i].(status := status) else rows[i])
  }

  /**
   * The update changes the status of the matching row and nothing else: rows of other
   * barbershops and every other column are as they were.
   */
  lemma StatusSetTouchesOnlyTheRow(rows: seq<Appointment>, id: int, shopId: int, status: Status, i: int)
    requires 0 <= i < |rows|
    ensures IsRow(rows[i], id, shopId) ==> StatusSet(rows, id, shopId, status)[i].status == status
    ensures StatusSet(rows, id, shopId, status)[i].(status := rows[i].status) == rows[i]
    ensures !IsRow(rows[i], id, shopId) ==> StatusSet(rows, id, shopId, status)[i] == rows[i]
  {
  }

  /** The rows that survive a delete of `id` in `shopId`. */
  function Survives(id: int, shopId: int): Appointment -> bool {
    a => !IsRow(a, id, shopId)
  }

  /** The table after `DELETE FROM appointments WHERE ...`. */
  function Deleted(rows: seq<Appointment>, id: int, shopId: int): (r: seq<Appointment>)
    ensures forall a :: a in r <==> a in rows && !IsRow(a, id, shopId)
  {
    Seqs.Filter(rows, Survives(id, shopId))
  }

  /** With primary keys, the delete removes exactly the matching row, or nothing when there is none. */
  lemma DeletedRemovesOneRow(rows: seq<Appointment>, next: int, id: int, shopId: int)
    requires KeysFresh(rows, AppointmentKey, next)
    ensures HasRow(rows, id, shopId) ==> exists k | 0 <= k < |rows| ::
      IsRow(rows[k], id, shopId) && Deleted(rows, id, shopId) == rows[..k] + rows[k + 1..]
    ensures !HasRow(rows, id, shopId) ==> Deleted(rows, id, shopId) == rows
    ensures KeysFresh(Deleted(rows, id, shopId), AppointmentKey, next)
  {
    var keep := Survives(id, shopId);
    if HasRow(rows, id, shopId) {
      var k :| 0 <= k < |rows| && IsRow(rows[k], id, shopId);
      forall i | 0 <= i < |rows| && i != k ensures keep(rows[i]) {
        if rows[i].id == id {
          KeyPicksOneRow(rows, AppointmentKey, next, i, k);
        }
      }
      Seqs.FilterDropsOne(rows, keep, k);
      KeysFreshSplice(rows, AppointmentKey, next, k);
    } else {
      Seqs.FilterKeepsAll(rows, keep);
    }
  }

  /** The `appointments` table. Its rows change by `create`, `updateStatus` and `delete`. */
  class AppointmentTable {
    var rows: seq<Appointment>
    /** The AUTO_INCREMENT counter: the id the next insert gets. */
    var nextId: int

    ghost predicate Valid()
      reads this
    {
      KeysFresh(rows, AppointmentKey, nextId)
    }

    constructor ()
      ensures Valid() && rows == [] && nextId == 1
    {
      rows := [];
      nextId := 1;
    }

    /**
     * `create`: inserts one `pending` row with a fresh id and returns that id. A falsy
     * barber id and empty notes are stored as null.
     */
    method Create(clientId: int, serviceId: int, shopId: int, barberId: Option<int>, date: int, time: int, notes: Option<string>)
      returns (id: int)
      requires Valid()
      modifies this
      ensures Valid()
      ensures id == old(nextId) && nextId == id + 1
      ensures forall a | a in old(rows) :: a.id != id
      ensures rows == old(rows) + [Appointment(id, clientId, serviceId, shopId, IdOrNull(barberId), date, time, Pending, OrNull(notes))]
    {
      id := nextId;
      var row := Appointment(id, clientId, serviceId, shopId, IdOrNull(barberId), date, time, Pending, OrNull(notes));
      KeysFreshAppend(rows, AppointmentKey, nextId, row);
      rows := rows + [row];
      nextId := nextId + 1;
    }

    /**
     * `updateStatus`: sets the status of the row with that id in that barbershop and
     * reports whether there was one.
     */
    method UpdateStatus(id: int, status: Status, shopId: int) returns (updated: bool)
      requires Valid()
      modifies this
      ensures Valid() && nextId == old(nextId)
      ensures updated <==> HasRow(old(rows), id, shopId)
      ensures rows == StatusSet(old(rows), id, shopId, status)
    {
      updated := HasRow(rows, id, shopId);
      KeysFreshSameKeys(rows, StatusSet(rows, id, shopId, status), AppointmentKey, nextId);
      rows := StatusSet(rows, id, shopId, status);
    }

    /**
     * `delete`: removes the row with that id in that barbershop, and nothing else, and
     * reports whether there was one. The row is gone, not marked `cancelled`.
     */
    method Delete(id: int, shopId: int) returns (deleted: bool)
      requires Valid()
      modifies this
      ensures Valid() && nextId == old(nextId)
      ensures deleted <==> HasRow(old(rows), id, shopId)
      ensures rows == Deleted(old(rows), id, shopId)
      ensures deleted ==> |rows| == |old(rows)| - 1
      ensures !deleted ==> rows == old(rows)
    {
      deleted := HasRow(rows, id, shopId);
      DeletedRemovesOneRow(rows, nextId, id, shopId);
      rows := Deleted(rows, id, shopId);
    }
  }
}
