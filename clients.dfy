/**
 * The client store (`server/models/Client.js`): a lookup by phone within one barbershop,
 * and `create` and `update`, which change the `clients` table (the class `ClientTable`).
 */
module Clients {
  import opened Wrappers
  import opened Tables

  /** `WHERE phone = ? AND barbershop_id = ?`: the exact phone, in one barbershop. */
  predicate HasPhone(c: Client, phone: string, shopId: int) {
    c.phone == phone && c.shopId == shopId
  }

  /**
   * `findByPhone`: a client of the barbershop with exactly this phone, or null. `LIMIT 1`
   * without `ORDER BY` leaves the choice among several to the database; the model takes
   * the first in table order.
   */
  function FindByPhone(clients: seq<Client>, phone: string, shopId: int): (r: Option<Client>)
    ensures r.Some? ==> r.value in clients && HasPhone(r.value, phone, shopId)
    ensures r.None? <==> forall c | c in clients :: !HasPhone(c, phone, shopId)
  {
    if clients == [] then None
    else if HasPhone(clients[0], phone, shopId) then Some(clients[0])
    else
      var r := FindByPhone(clients[1..], phone, shopId);
      assert forall c | c in clients && c != clients[0] :: c in clients[1..];
      r
  }

  /** The table after `UPDATE clients SET name = ?, email = ? WHERE idclients = ?`. */
  function Updated(rows: seq<Client>, id: int, name: string, email: Option<string>): (r: seq<Client>)
    ensures |r| == |rows|
    ensures forall i | 0 <= i < |rows| :: r[i].id == rows[i].id
  {
    seq(|rows|, i requires 0 <= i < |rows| =>
      if rows[i].id == id then rows[i].(name := name, email := OrNull(email)) else rows[i])
  }

  /**
   * `update` is keyed by the id alone: it renames the client with that id whatever its
   * barbershop, stores an absent or empty email as null, and never changes the phone,
   * the barbershop or any other client.
   */
  lemma UpdatedChangesNameAndEmail(rows: seq<Client>, id: int, name: string, email: Option<string>, i: int)
    requires 0 <= i < |rows|
    ensures var after := Updated(rows, id, name, email)[i];
      && after.id == rows[i].id && after.phone == rows[i].phone && after.shopId == rows[i].shopId
      && (rows[i].id == id ==> after.name == name && (after.email.None? <==> email.None? || email == Some("")))
      && (rows[i].id != id ==> after == rows[i])
  {
  }

  /** The `clients` table. Its rows change by `create` and `update`. */
  class ClientTable {
    var rows: seq<Client>
    /** The AUTO_INCREMENT counter: the id the next insert gets. */
    var nextId: int

    ghost predicate Valid()
      reads this
    {
      KeysFresh(rows, ClientKey, nextId)
    }

    constructor ()
      ensures Valid() && rows == [] && nextId == 1
    {
      rows := [];
      nextId := 1;
    }

    /** `create`: inserts one client with a fresh id and returns that id; an absent or empty email is stored as null. */
    method Create(shopId: int, name: string, phone: string, email: Option<string>) returns (id: int)
      requires Valid()
      modifies this
      ensures Valid()
      ensures id == old(nextId) && nextId == id + 1
      ensures forall c | c in old(rows) :: c.id != id
      ensures rows == old(rows) + [Client(id, shopId, name, phone, OrNull(email))]
    {
      id := nextId;
      var row := Client(id, shopId, name, phone, OrNull(email));
      KeysFreshAppend(rows, ClientKey, nextId, row);
      rows := rows + [row];
      nextId := nextId + 1;
    }

    /** `update`: overwrites the name and email of the client with that id. */
    method Update(id: int, name: string, email: Option<string>)
      requires Valid()
      modifies this
      ensures Valid() && nextId == old(nextId)
      ensures rows == Updated(old(rows), id, name, email)
    {
      KeysFreshSameKeys(rows, Updated(rows, id, name, email), ClientKey, nextId);
      rows := Updated(rows, id, name, email);
    }
  }
}
