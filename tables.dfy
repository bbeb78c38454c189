/**
 * The rows of the three tables the booking engine reads and writes (`appointments`,
 * `clients`, `services`), and the facts about them that every query and every
 * controller shares: the status that still holds a slot, the inner joins on primary
 * keys, JavaScript's `x || null` on an optional column, and primary keys handed out by
 * AUTO_INCREMENT.
 */
module Tables {
  import opened Wrappers

  /** `appointments.status`. A new row is `pending` (the column default). */
  datatype Status = Pending | Confirmed | Completed | Cancelled | NotAvailable

  /** `status IN ('pending', 'confirmed')`: the appointment still holds its slot. */
  predicate IsActive(s: Status) {
    s == Pending || s == Confirmed
  }

  /**
   * A row of `appointments`. `date` is a day number and `time` is the `TIME` column in
   * seconds since midnight, so its `HH:MM` (`TIME_FORMAT(time, '%H:%i')`) is `time / 60`.
   */
  datatype Appointment = Appointment(
    id: int,
    clientId: int,
    serviceId: int,
    shopId: int,
    barberId: Option<int>,
    date: int,
    time: int,
    status: Status,
    notes: Option<string>)

  /** A row of `clients`. */
  datatype Client = Client(id: int, shopId: int, name: string, phone: string, email: Option<string>)

  /** A row of `services`. `duration` is in minutes. */
  datatype Service = Service(
    id: int,
    shopId: int,
    name: string,
    description: Option<string>,
    duration: int,
    price: real,
    isActive: bool)

  /** `s || null` for an optional string column: the empty string is falsy and is stored as null. */
  function OrNull(s: Option<string>): (r: Option<string>)
    ensures r.Some? <==> s.Some? && s.value != ""
    ensures r.Some? ==> r == s
  {
    if s.Some? && s.value != "" then s else None
  }

  /** `n || null` for an optional id column: 0 is falsy and is stored as null. */
  function IdOrNull(n: Option<int>): (r: Option<int>)
    ensures r.Some? <==> n.Some? && n.value != 0
    ensures r.Some? ==> r == n
  {
    if n.Some? && n.value != 0 then n else None
  }

  /** The inner join `JOIN clients c ON a.client_id = c.idclients` finds a partner row. */
  predicate ClientExists(clients: seq<Client>, id: int) {
    exists i | 0 <= i < |clients| :: clients[i].id == id
  }

  /** The inner join `JOIN services s ON a.service_id = s.idservices` finds a partner row. */
  predicate ServiceExists(services: seq<Service>, id: int) {
    exists i | 0 <= i < |services| :: services[i].id == id
  }

  /** `s.duration` of the joined service row (the first one; ids are primary keys). */
  function ServiceDuration(services: seq<Service>, id: int): (d: int)
    requires ServiceExists(services, id)
    ensures exists i | 0 <= i < |services| :: services[i].id == id && services[i].duration == d
  {
    if services[0].id == id then services[0].duration
    else
      assert ServiceExists(services[1..], id) by {
        var i :| 0 <= i < |services| && services[i].id == id;
        assert services[1..][i - 1] == services[i];
      }
      ServiceDuration(services[1..], id)
  }

  /** The primary key columns. */
  function AppointmentKey(a: Appointment): int { a.id }
  function ClientKey(c: Client): int { c.id }
  function ServiceKey(s: Service): int { s.id }

  /**
   * Primary keys handed out by AUTO_INCREMENT: positive, distinct, and below the next
   * key the table will hand out.
   */
  predicate KeysFresh<T>(rows: seq<T>, key: T -> int, next: int) {
    && 0 < next
    && (forall i | 0 <= i < |rows| :: 0 < key(rows[i]) < next)
    && (forall i, j | 0 <= i < j < |rows| :: key(rows[i]) != key(rows[j]))
  }

  /** With distinct keys, a key picks out at most one row. */
  lemma KeyPicksOneRow<T>(rows: seq<T>, key: T -> int, next: int, i: int, j: int)
    requires KeysFresh(rows, key, next)
    requires 0 <= i < |rows| && 0 <= j < |rows| && key(rows[i]) == key(rows[j])
    ensures i == j
  {
  }

  /** An insert with the next key keeps the keys fresh once the counter moves on. */
  lemma KeysFreshAppend<T>(rows: seq<T>, key: T -> int, next: int, row: T)
    requires KeysFresh(rows, key, next) && key(row) == next
    ensures KeysFresh(rows + [row], key, next + 1)
  {
    var r := rows + [row];
    forall i | 0 <= i < |r| ensures 0 < key(r[i]) < next + 1 {
      if i < |rows| {
        assert r[i] == rows[i];
      }
    }
    forall i, j | 0 <= i < j < |r| ensures key(r[i]) != key(r[j]) {
      if j < |rows| {
        assert r[i] == rows[i] && r[j] == rows[j];
      } else {
        assert r[i] == rows[i];
      }
    }
  }

  /** Removing one row keeps the keys fresh. */
  lemma KeysFreshSplice<T>(rows: seq<T>, key: T -> int, next: int, k: int)
    requires KeysFresh(rows, key, next) && 0 <= k < |rows|
    ensures KeysFresh(rows[..k] + rows[k + 1..], key, next)
  {
    var r := rows[..k] + rows[k + 1..];
    assert forall i | 0 <= i < |r| :: r[i] == rows[if i < k then i else i + 1];
  }

  /** Changing rows without changing their keys keeps the keys fresh. */
  lemma KeysFreshSameKeys<T>(rows: seq<T>, rows': seq<T>, key: T -> int, next: int)
    requires KeysFresh(rows, key, next) && |rows'| == |rows|
    requires forall i | 0 <= i < |rows| :: key(rows'[i]) == key(rows[i])
    ensures KeysFresh(rows', key, next)
  {
  }
}
