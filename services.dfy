/**
 * The service store (`server/models/Service.js`): listings ordered by name, the two
 * appointment counts that guard deactivation and deletion, and `create`, `update`,
 * `deactivate` and `delete`, which change the `services` table (the class
 * `ServiceTable`). A deactivated service keeps its row; a deleted one loses it.
 */
module Services {
  import opened Wrappers
  import opened Tables
  import Seqs
  import Text

  /**
   * `ORDER BY name` under a case-insensitive collation: the names are compared letter by
   * letter once lower-cased, so "barba" comes before "Corte".
   */
  predicate NameOrder(a: Service, b: Service) {
    Text.AtMost(Text.ToLower(a.name), Text.ToLower(b.name))
  }

  /** Letter case does not decide the order: "barba" comes before "Corte", which plain code points would reverse. */
  lemma NameOrderIgnoresCase(a: Service, b: Service)
    requires a.name == "barba" && b.name == "Corte"
    ensures NameOrder(a, b) && !NameOrder(b, a)
    ensures !Text.AtMost(a.name, b.name)
  {
    assert Text.ToLower(a.name)[0] == 'b';
    assert Text.ToLower(b.name)[0] == 'c';
  }

  lemma NameOrderTotal()
    ensures Seqs.TotalPreorder(NameOrder)
  {
    forall a: Service, b: Service ensures NameOrder(a, b) || NameOrder(b, a) {
      Text.AtMostTotal(Text.ToLower(a.name), Text.ToLower(b.name));
    }
    forall a: Service, b: Service, c: Service | NameOrder(a, b) && NameOrder(b, c) ensures NameOrder(a, c) {
      Text.AtMostTransitive(Text.ToLower(a.name), Text.ToLower(b.name), Text.ToLower(c.name));
    }
  }

  /** The WHERE clause of `findAll`: the barbershop, and `is_active = 1` unless inactive ones are wanted. */
  predicate Listed(s: Service, shopId: int, includeInactive: bool) {
    s.shopId == shopId && (includeInactive || s.isActive)
  }

  /** The rows that pass `keep`, ordered by name. */
  function ByName(services: seq<Service>, keep: Service -> bool): (r: seq<Service>)
    ensures forall s :: s in r <==> s in services && keep(s)
    ensures multiset(r) == multiset(Seqs.Filter(services, keep))
    ensures Seqs.Sorted(r, NameOrder)
  {
    var matched := Seqs.Filter(services, keep);
    NameOrderTotal();
    Seqs.SortSorted(matched, NameOrder);
    var r := Seqs.Sort(matched, NameOrder);
    assert forall s :: s in r <==> s in matched by {
      forall s ensures s in r <==> s in matched {
        Seqs.SortMembers(matched, NameOrder, s);
      }
    }
    r
  }

  /**
   * `findAll(barbershopId, includeInactive)`: the barbershop's services, only the active
   * ones unless `includeInactive`, ordered by name.
   */
  function FindAll(services: seq<Service>, shopId: int, includeInactive: bool): (r: seq<Service>)
    ensures forall s :: s in r <==> s in services && s.shopId == shopId && (includeInactive || s.isActive)
    ensures Seqs.Sorted(r, NameOrder)
  {
    ByName(services, s => Listed(s, shopId, includeInactive))
  }

  /** `findActiveByBarbershopId`: the barbershop's active services, ordered by name. */
  function FindActiveByBarbershopId(services: seq<Service>, shopId: int): (r: seq<Service>)
    ensures forall s :: s in r <==> s in services && s.isActive && s.shopId == shopId
    ensures Seqs.Sorted(r, NameOrder)
  {
    ByName(services, (s: Service) => s.isActive && s.shopId == shopId)
  }

  /** `COUNT(*)` of the rows that pass `p`. */
  function Count(appts: seq<Appointment>, p: Appointment -> bool): (n: nat)
    ensures n > 0 <==> exists a | a in appts :: p(a)
  {
    var matched := Seqs.Filter(appts, p);
    assert |matched| > 0 ==> matched[0] in matched;
    |matched|
  }

  /** `hasPendingAppointments`: a pending or confirmed appointment of the barbershop uses the service. */
  function HasPendingAppointments(appts: seq<Appointment>, id: int, shopId: int): (r: bool)
    ensures r <==> exists a | a in appts :: a.serviceId == id && a.shopId == shopId && IsActive(a.status)
  {
    Count(appts, (a: Appointment) => a.serviceId == id && a.shopId == shopId && IsActive(a.status)) > 0
  }

  /** `hasAnyAppointments`: an appointment of the barbershop in any status uses the service. */
  function HasAnyAppointments(appts: seq<Appointment>, id: int, shopId: int): (r: bool)
    ensures r <==> exists a | a in appts :: a.serviceId == id && a.shopId == shopId
  {
    Count(appts, (a: Appointment) => a.serviceId == id && a.shopId == shopId) > 0
  }

  /** The deletion guard is the stricter one: a service with pending bookings has bookings. */
  lemma PendingIsSomeAppointment(appts: seq<Appointment>, id: int, shopId: int)
    ensures HasPendingAppointments(appts, id, shopId) ==> HasAnyAppointments(appts, id, shopId)
    ensures (exists a | a in appts :: a.serviceId == id && a.shopId == shopId && a.status == Completed) ==>
      HasAnyAppointments(appts, id, shopId)
  {
  }

  // ---------------------------------------------------------------- the table

  /** `WHERE idservices = ? AND barbershop_id = ?`: the scoping of `update`, `deactivate` and `delete`. */
  predicate IsRow(s: Service, id: int, shopId: int) {
    s.id == id && s.shopId == shopId
  }

  predicate HasRow(rows: seq<Service>, id: int, shopId: int) {
    exists k | 0 <= k < |rows| :: IsRow(rows[k], id, shopId)
  }

  /** The columns `update` writes: an empty description becomes null, an absent `is_active` becomes 1. */
  function Edited(s: Service, name: string, description: Option<string>, duration: int, price: real, isActive: Option<bool>): (r: Service)
    ensures r.id == s.id && r.shopId == s.shopId
    ensures r.name == name && r.duration == duration && r.price == price
    ensures r.description.None? <==> description.None? || description == Some("")
    ensures description.Some? && description.value != "" ==> r.description == description
    ensures r.isActive == (isActive.None? || isActive.value)
  {
    s.(name := name, description := OrNull(description), duration := duration, price := price,
       isActive := if isActive.Some? then isActive.value else true)
  }

  /** The table after `UPDATE services SET name = ?, ..., is_active = ? WHERE ...`. */
  function Updated(rows: seq<Service>, id: int, shopId: int, name: string, description: Option<string>, duration: int, price: real, isActive: Option<bool>)
    : (r: seq<Service>)
    ensures |r| == |rows|
    ensures forall i | 0 <= i < |rows| :: r[i].id == rows[i].id
    ensures forall i | 0 <= i < |rows| && !IsRow(rows[i], id, shopId) :: r[i] == rows[i]
  {
    seq(|rows|, i requires 0 <= i < |rows| =>
      if IsRow(rows[i], id, shopId) then Edited(rows[i], name, description, duration, price, isActive) else rows[i])
  }

  /** The table after `UPDATE services SET is_active = 0 WHERE ...`. */
  function Deactivated(rows: seq<Service>, id: int, shopId: int): (r: seq<Service>)
    ensures |r| == |rows|
    ensures forall i | 0 <= i < |rows| :: r[i].id == rows[i].id
  {
    seq(|rows|, i requires 0 <= i < |rows| => if IsRow(rows[i], id, shopId) then rows[i].(isActive := false) else rows[i])
  }

  /**
   * Deactivation is a soft delete: the row stays, only its active flag is cleared, and
   * the services of other barbershops are untouched. Afterwards it is no longer listed
   * as active.
   */
  lemma DeactivatedKeepsTheRow(rows: seq<Service>, id: int, shopId: int, i: int)
    requires 0 <= i < |rows|
    ensures Deactivated(rows, id, shopId)[i].(isActive := rows[i].isActive) == rows[i]
    ensures IsRow(rows[i], id, shopId) ==> !Deactivated(rows, id, shopId)[i].isActive
    ensures !IsRow(rows[i], id, shopId) ==> Deactivated(rows, id, shopId)[i] == rows[i]
    ensures IsRow(rows[i], id, shopId) ==> Deactivated(rows, id, shopId)[i] !in FindActiveByBarbershopId(Deactivated(rows, id, shopId), shopId)
  {
  }

  /** The rows that survive a delete of `id` in `shopId`. */
  function Survives(id: int, shopId: int): Service -> bool {
    s => !IsRow(s, id, shopId)
  }

  /** The table after `DELETE FROM services WHERE ...`. */
  function Deleted(rows: seq<Service>, id: int, shopId: int): (r: seq<Service>)
    ensures forall s :: s in r <==> s in rows && !IsRow(s, id, shopId)
  {
    Seqs.Filter(rows, Survives(id, shopId))
  }

  /** With primary keys, the delete removes exactly the matching row, or nothing when there is none. */
  lemma DeletedRemovesOneRow(rows: seq<Service>, next: int, id: int, shopId: int)
    requires KeysFresh(rows, ServiceKey, next)
    ensures HasRow(rows, id, shopId) ==> exists k | 0 <= k < |rows| ::
      IsRow(rows[k], id, shopId) && Deleted(rows, id, shopId) == rows[..k] + rows[k + 1..]
    ensures !HasRow(rows, id, shopId) ==> Deleted(rows, id, shopId) == rows
    ensures KeysFresh(Deleted(rows, id, shopId), ServiceKey, next)
  {
    var keep := Survives(id, shopId);
    if HasRow(rows, id, shopId) {
      var k :| 0 <= k < |rows| && IsRow(rows[k], id, shopId);
      forall i | 0 <= i < |rows| && i != k ensures keep(rows[i]) {
        if rows[i].id == id {
          KeyPicksOneRow(rows, ServiceKey, next, i, k);
        }
      }
      Seqs.FilterDropsOne(rows, keep, k);
      KeysFreshSplice(rows, ServiceKey, next, k);
    } else {
      Seqs.FilterKeepsAll(rows, keep);
    }
  }

  /** The `services` table. */
  class ServiceTable {
    var rows: seq<Service>
    /** The AUTO_INCREMENT counter: the id the next insert gets. */
    var nextId: int

    ghost predicate Valid()
      reads this
    {
      KeysFresh(rows, ServiceKey, nextId)
    }

    constructor ()
      ensures Valid() && rows == [] && nextId == 1
    {
      rows := [];
      nextId := 1;
    }

    /**
     * `create`: inserts one active service with a fresh id and returns that id; an
     * absent or empty description is stored as null.
     */
    method Create(shopId: int, name: string, description: Option<string>, duration: int, price: real) returns (id: int)
      requires Valid()
      modifies this
      ensures Valid()
      ensures id == old(nextId) && nextId == id + 1
      ensures forall s | s in old(rows) :: s.id != id
      ensures rows == old(rows) + [Service(id, shopId, name, OrNull(description), duration, price, true)]
    {
      id := nextId;
      var row := Service(id, shopId, name, OrNull(description), duration, price, true);
      KeysFreshAppend(rows, ServiceKey, nextId, row);
      rows := rows + [row];
      nextId := nextId + 1;
    }

    /** `update`: rewrites the columns of the row with that id in that barbershop and reports whether there was one. */
    method Update(id: int, shopId: int, name: string, description: Option<string>, duration: int, price: real, isActive: Option<bool>)
      returns (updated: bool)
      requires Valid()
      modifies this
      ensures Valid() && nextId == old(nextId)
      ensures updated <==> HasRow(old(rows), id, shopId)
      ensures rows == Updated(old(rows), id, shopId, name, description, duration, price, isActive)
    {
      updated := HasRow(rows, id, shopId);
      KeysFreshSameKeys(rows, Updated(rows, id, shopId, name, description, duration, price, isActive), ServiceKey, nextId);
      rows := Updated(rows, id, shopId, name, description, duration, price, isActive);
    }

    /** `deactivate`: clears the active flag of the row with that id in that barbershop and reports whether there was one. */
    method Deactivate(id: int, shopId: int) returns (deactivated: bool)
      requires Valid()
      modifies this
      ensures Valid() && nextId == old(nextId)
      ensures deactivated <==> HasRow(old(rows), id, shopId)
      ensures rows == Deactivated(old(rows), id, shopId)
    {
      deactivated := HasRow(rows, id, shopId);
      KeysFreshSameKeys(rows, Deactivated(rows, id, shopId), ServiceKey, nextId);
      rows := Deactivated(rows, id, shopId);
    }

    /** `delete`: removes the row with that id in that barbershop and reports whether there was one. */
    method Delete(id: int, shopId: int) returns (deleted: bool)
      requires Valid()
      modifies this
      ensures Valid() && nextId == old(nextId)
      ensures deleted <==> HasRow(old(rows), id, shopId)
      ensures rows == Deleted(old(rows), id, shopId)
      ensures deleted ==> |rows| == |old(rows)| - 1
      ensures !deleted ==> rows == old(rows)
    {
      deleted := HasRow(rows, id, shopId);
      DeletedRemovesOneRow(rows, nextId, id, shopId);
      rows := Deleted(rows, id, shopId);
    }
  }
}
