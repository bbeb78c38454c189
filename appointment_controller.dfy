/**
 * The booking side of `server/controllers/AppointmentController.js`: the exact-time
 * conflict check `isSlotAvailable`, the commit `create` (find or create the client, then
 * insert the appointment) and the page arithmetic of `getAll`. The slot generator of the
 * same file is the module `Slots`.
 */
module AppointmentController {
  import opened Wrappers
  import opened Tables
  import Text
  import Appointments
  import Clients

  /**
   * `isSlotAvailable(date, time, barbershopId)`: the slot is free exactly when no pending
   * or confirmed appointment of the barbershop starts in the same minute of that date.
   */
  function IsSlotAvailable(appts: seq<Appointment>, services: seq<Service>, date: int, minutes: int, shopId: int): (free: bool)
    ensures free <==> forall a | a in appts ::
      !(a.date == date && a.time / 60 == minutes && a.shopId == shopId && IsActive(a.status) && ServiceExists(services, a.serviceId))
  {
    var taken := Appointments.FindOccupiedSlots(appts, services, date, minutes, shopId);
    assert taken <==> exists a | a in appts :: Appointments.HoldsSlot(a, services, date, minutes, shopId) by {
      if taken {
        var i :| 0 <= i < |appts| && Appointments.HoldsSlot(appts[i], services, date, minutes, shopId);
        assert appts[i] in appts;
      }
    }
    !taken
  }

  /** Once a booking for an existing service is inserted, its own minute is no longer available. */
  lemma BookedSlotIsTaken(appts: seq<Appointment>, services: seq<Service>, row: Appointment, minutes: int)
    requires ServiceExists(services, row.serviceId) && row.status == Pending && row.time == minutes * 60
    ensures !IsSlotAvailable(appts + [row], services, row.date, minutes, row.shopId)
  {
    assert row in appts + [row];
  }

  /**
   * `isSlotAvailable` compares start minutes, not intervals: a pending 60-minute booking
   * at 10:00 leaves 10:30 available on the same day.
   */
  lemma OverlapIsNotAConflict()
    ensures var services := [Service(1, 1, "Corte", None, 60, 15.0, true)];
            IsSlotAvailable([Appointment(1, 1, 1, 1, None, 20000, 600 * 60, Pending, None)], services, 20000, 630, 1)
  {
  }

  /**
   * `create`: the client with this phone in the barbershop gets the new name and email,
   * or a new client is inserted; then exactly one `pending` appointment is inserted for
   * that client, at `minutes * 60` seconds. Nothing checks that the slot is still free.
   */
  method Create(
    clients: Clients.ClientTable, appts: Appointments.AppointmentTable,
    clientName: string, clientPhone: string, clientEmail: Option<string>,
    serviceId: int, date: int, minutes: int, notes: Option<string>, shopId: int, barberId: Option<int>)
    returns (id: int)
    requires clients.Valid() && appts.Valid()
    modifies clients, appts
    ensures clients.Valid() && appts.Valid()
    ensures var found := Clients.FindByPhone(old(clients.rows), clientPhone, shopId);
      && (found.Some? ==> clients.rows == Clients.Updated(old(clients.rows), found.value.id, clientName, clientEmail)
                          && clients.nextId == old(clients.nextId))
      && (found.None? ==> clients.rows == old(clients.rows) + [Client(old(clients.nextId), shopId, clientName, clientPhone, OrNull(clientEmail))]
                          && clients.nextId == old(clients.nextId) + 1)
    ensures var found := Clients.FindByPhone(old(clients.rows), clientPhone, shopId);
      var clientId := if found.Some? then found.value.id else old(clients.nextId);
      && id == old(appts.nextId)
      && appts.rows == old(appts.rows) + [Appointment(id, clientId, serviceId, shopId, IdOrNull(barberId), date, minutes * 60, Pending, OrNull(notes))]
  {
    var client := Clients.FindByPhone(clients.rows, clientPhone, shopId);
    var clientId;
    if client.Some? {
      clientId := client.value.id;
      clients.Update(clientId, clientName, clientEmail);
    } else {
      clientId := clients.Create(shopId, clientName, clientPhone, clientEmail);
    }
    id := appts.Create(clientId, serviceId, shopId, barberId, date, minutes * 60, notes);
  }

  // ---------------------------------------------------------------- getAll

  /** JavaScript truthiness of a query-string value: only the empty string is falsy. */
  predicate Truthy(s: string) {
    s != ""
  }

  /**
   * The `filters` that `getAll` hands to `findAll`. `page` is the number `page - 1` sees
   * (1 when the parameter is absent, `None` for `NaN`); `limit` is the raw parameter,
   * `None` when absent, in which case the default 20 applies.
   */
  function GetAllFilters(date: Option<int>, status: Option<Status>, page: Option<int>, limit: Option<string>): (f: Appointments.Filters)
    ensures f.date == date && f.status == status
    ensures limit.None? ==> f.limit == Some(20) && f.offset == (if page.Some? then Some((page.value - 1) * 20) else None)
    ensures limit.Some? && !Truthy(limit.value) ==> f.limit.None? && f.offset.None?
    ensures limit.Some? && Truthy(limit.value) ==> f.limit == Text.ParseInt(limit.value)
  {
    var parsed := if limit.None? then Some(20) else Text.ParseInt(limit.value);
    if limit.Some? && !Truthy(limit.value) then Appointments.Filters(date, status, None, None)
    else
      var offset := if page.Some? && parsed.Some? then Some((page.value - 1) * parsed.value) else None;
      Appointments.Filters(date, status, parsed, offset)
  }

  /** `getAll`: `findAll` with the filters above, in the admin's barbershop. */
  function GetAll(appts: seq<Appointment>, clients: seq<Client>, services: seq<Service>, shopId: int,
                  date: Option<int>, status: Option<Status>, page: Option<int>, limit: Option<string>)
    : (r: Option<seq<Appointment>>)
    ensures r.Some? ==> forall a :: a in r.value ==> a in appts && a.shopId == shopId
  {
    Appointments.FindAll(appts, clients, services, shopId, GetAllFilters(date, status, page, limit))
  }

  /** The rows that come before page `p` of size `n`. */
  function Skip(p: int, n: nat): nat
    requires p >= 1
  {
    NonNegativeProduct(p - 1, n);
    (p - 1) * n
  }

  /**
   * Page `p` of size `n` (`?page=p&limit=n`) is the slice `[(p - 1) * n, p * n)` of the
   * full listing, latest first.
   */
  lemma PageIsSlice(appts: seq<Appointment>, clients: seq<Client>, services: seq<Service>, shopId: int,
                    date: Option<int>, status: Option<Status>, p: int, n: nat)
    requires p >= 1 && n >= 1
    ensures GetAll(appts, clients, services, shopId, date, status, Some(p), Some(Text.Numeral(n)))
         == Some(Appointments.Page(Appointments.Listing(appts, clients, services, shopId, date, status), Skip(p, n), n))
  {
    Text.ParseIntNumeral(n);
    var f := GetAllFilters(date, status, Some(p), Some(Text.Numeral(n)));
    assert f == Appointments.Filters(date, status, Some(n), Some(Skip(p, n)));
    assert Appointments.OffsetOf(f) == Skip(p, n);
  }

  /** With no `limit` parameter, page `p` is the slice `[(p - 1) * 20, p * 20)`. */
  lemma DefaultPageSize(appts: seq<Appointment>, clients: seq<Client>, services: seq<Service>, shopId: int,
                        date: Option<int>, status: Option<Status>, p: int)
    requires p >= 1
    ensures GetAll(appts, clients, services, shopId, date, status, Some(p), None)
         == Some(Appointments.Page(Appointments.Listing(appts, clients, services, shopId, date, status), (p - 1) * 20, 20))
  {
    var f := GetAllFilters(date, status, Some(p), None);
    assert f == Appointments.Filters(date, status, Some(20), Some((p - 1) * 20));
  }

  lemma NonNegativeProduct(a: int, b: int)
    requires a >= 0 && b >= 0
    ensures a * b >= 0
  {
  }

  /** An empty `limit` parameter turns paging off: the whole listing comes back. */
  lemma EmptyLimitListsAll(appts: seq<Appointment>, clients: seq<Client>, services: seq<Service>, shopId: int,
                           date: Option<int>, status: Option<Status>, page: Option<int>)
    ensures GetAll(appts, clients, services, shopId, date, status, page, Some(""))
            == Some(Appointments.Listing(appts, clients, services, shopId, date, status))
  {
  }
}
