/**
 * The guard-then-mutate rules of `server/controllers/ServiceController.js`. Deactivation
 * is refused while the service has pending or confirmed bookings; permanent deletion is
 * refused while it has any booking at all. Request validation is an input.
 */
module ServiceController {
  import opened Wrappers
  import opened Tables
  import Services
  import Appointments

  /** The HTTP answers: 200, 201 with the new id, 400 and 404. */
  datatype Outcome = Ok | Created(id: int) | BadRequest | NotFound

  /**
   * `create`: a valid request inserts one active service in the admin's own barbershop
   * and answers 201 with its id; an invalid one answers 400 and changes nothing.
   */
  method Create(services: Services.ServiceTable, adminShopId: int, valid: bool,
                name: string, description: Option<string>, duration: int, price: real)
    returns (outcome: Outcome)
    requires services.Valid()
    modifies services
    ensures services.Valid()
    ensures !valid ==> outcome == BadRequest && services.rows == old(services.rows) && services.nextId == old(services.nextId)
    ensures valid ==> outcome == Created(old(services.nextId))
    ensures valid ==>
      services.rows == old(services.rows) + [Service(old(services.nextId), adminShopId, name, OrNull(description), duration, price, true)]
  {
    if !valid {
      return BadRequest;
    }
    var id := services.Create(adminShopId, name, description, duration, price);
    outcome := Created(id);
  }

  /**
   * `update`: a valid request rewrites the service of the admin's barbershop, passing
   * `is_active` through as given, and answers 200, or 404 when there is no such service.
   */
  method Update(services: Services.ServiceTable, adminShopId: int, valid: bool, id: int,
                name: string, description: Option<string>, duration: int, price: real, isActive: Option<bool>)
    returns (outcome: Outcome)
    requires services.Valid()
    modifies services
    ensures services.Valid() && services.nextId == old(services.nextId)
    ensures !valid ==> outcome == BadRequest && services.rows == old(services.rows)
    ensures valid ==> services.rows == Services.Updated(old(services.rows), id, adminShopId, name, description, duration, price, isActive)
    ensures valid ==> (outcome == Ok <==> Services.HasRow(old(services.rows), id, adminShopId))
    ensures valid ==> (outcome == NotFound <==> !Services.HasRow(old(services.rows), id, adminShopId))
  {
    if !valid {
      return BadRequest;
    }
    var updated := services.Update(id, adminShopId, name, description, duration, price, isActive);
    outcome := if updated then Ok else NotFound;
  }

  /**
   * `deactivate`: 400 and no change while a pending or confirmed booking of the
   * barbershop uses the service; otherwise the service loses its active flag (200), or
   * 404 when the barbershop has no such service.
   */
  method Deactivate(services: Services.ServiceTable, appts: Appointments.AppointmentTable, id: int, adminShopId: int)
    returns (outcome: Outcome)
    requires services.Valid()
    modifies services
    ensures services.Valid() && services.nextId == old(services.nextId)
    ensures outcome == BadRequest <==> Services.HasPendingAppointments(appts.rows, id, adminShopId)
    ensures outcome == BadRequest ==> services.rows == old(services.rows)
    ensures outcome != BadRequest ==> services.rows == Services.Deactivated(old(services.rows), id, adminShopId)
    ensures outcome == NotFound <==>
      !Services.HasPendingAppointments(appts.rows, id, adminShopId) && !Services.HasRow(old(services.rows), id, adminShopId)
    ensures outcome == Ok <==>
      !Services.HasPendingAppointments(appts.rows, id, adminShopId) && Services.HasRow(old(services.rows), id, adminShopId)
  {
    if Services.HasPendingAppointments(appts.rows, id, adminShopId) {
      return BadRequest;
    }
    var deactivated := services.Deactivate(id, adminShopId);
    outcome := if deactivated then Ok else NotFound;
  }

  /**
   * `delete`: 400 and no change while any booking of the barbershop, in any status, uses
   * the service; otherwise the row is removed (200), or 404 when there is no such service.
   */
  method Delete(services: Services.ServiceTable, appts: Appointments.AppointmentTable, id: int, adminShopId: int)
    returns (outcome: Outcome)
    requires services.Valid()
    modifies services
    ensures services.Valid() && services.nextId == old(services.nextId)
    ensures outcome == BadRequest <==> Services.HasAnyAppointments(appts.rows, id, adminShopId)
    ensures outcome == BadRequest ==> services.rows == old(services.rows)
    ensures outcome != BadRequest ==> services.rows == Services.Deleted(old(services.rows), id, adminShopId)
    ensures outcome == NotFound <==>
      !Services.HasAnyAppointments(appts.rows, id, adminShopId) && !Services.HasRow(old(services.rows), id, adminShopId)
    ensures outcome == NotFound ==> services.rows == old(services.rows)
    ensures outcome == Ok <==>
      !Services.HasAnyAppointments(appts.rows, id, adminShopId) && Services.HasRow(old(services.rows), id, adminShopId)
    ensures outcome == Ok ==> |services.rows| == |old(services.rows)| - 1
  {
    if Services.HasAnyAppointments(appts.rows, id, adminShopId) {
      return BadRequest;
    }
    var deleted := services.Delete(id, adminShopId);
    outcome := if deleted then Ok else NotFound;
  }

  /**
   * The two guards side by side: a service whose only bookings are completed or
   * cancelled can be deactivated but not deleted, and whatever can be deleted can be
   * deactivated.
   */
  lemma DeleteGuardIsStricter(appts: seq<Appointment>, id: int, shopId: int)
    ensures !Services.HasAnyAppointments(appts, id, shopId) ==> !Services.HasPendingAppointments(appts, id, shopId)
    ensures var past := [Appointment(1, 1, id, shopId, None, 0, 0, Completed, None)];
      !Services.HasPendingAppointments(past, id, shopId) && Services.HasAnyAppointments(past, id, shopId)
  {
    Services.PendingIsSomeAppointment(appts, id, shopId);
    var past := [Appointment(1, 1, id, shopId, None, 0, 0, Completed, None)];
    assert past[0] in past;
  }
}
