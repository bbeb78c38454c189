/**
 * The inbound side of `server/controllers/WhatsAppController.js`: the router
 * `processIncomingMessage`, which hands a message to the booking dialog while one is
 * active and otherwise reacts to the keywords "mi turno", "cancelar" and "reservar", and
 * the cancellation assistant `cancelMyAppointment`, which deletes the appointment the
 * customer names by its position in their list.
 *
 * The barbershop of the bot number, the phone that `BotNumberService` holds, and the
 * answer of `checkExistingAppointment` are inputs of a turn; the tables are read as
 * sequences of rows, and outbound messages are tags.
 */
module WhatsApp {
  import opened Wrappers
  import opened Tables
  import Text
  import Appointments
  import Services
  import Conversation

  // ---------------------------------------------------------------- cancelMyAppointment

  /** What `/cancelar\s*(\d)?/i` makes of a message: no match, a match without a digit, or `digit - 1`. */
  datatype CancelRequest = NoKeyword | NoNumber | Number(index: int)

  /**
   * The first "cancelar" in any letter case, the white space after it, and then one digit
   * if there is one: a second digit is never read.
   */
  function ParseCancel(message: string): (r: CancelRequest)
    ensures r.NoKeyword? <==> !Text.Contains(Text.ToLower(message), "cancelar")
    ensures r.Number? ==> -1 <= r.index <= 8
  {
    match Text.IndexOf(Text.ToLower(message), "cancelar")
    case None => NoKeyword
    case Some(k) =>
      var rest := Text.TrimStart(message[k + 8..]);
      if |rest| > 0 && Text.IsDigit(rest[0]) then Number(Text.DigitValue(rest[0]) - 1) else NoNumber
  }

  /** The request names a position of the list. */
  predicate Picks(request: CancelRequest, listed: seq<Appointment>) {
    request.Number? && 0 <= request.index < |listed|
  }

  datatype CancelReply =
    | FormatError | NoActiveToCancel | ChooseFrom(appointments: seq<Appointment>)
    | CancelFailed | Removed(appointment: Appointment)

  /**
   * `cancelMyAppointment`: no "cancelar" is a format error; an empty list of active
   * appointments is reported; a missing or out-of-range number re-sends the list; a
   * number in range deletes that appointment of the list (the row is removed, not marked
   * cancelled). Nothing is deleted in the other cases.
   */
  method CancelMyAppointment(appts: Appointments.AppointmentTable, clients: seq<Client>, services: seq<Service>,
                             phone: string, message: string, shopId: int)
    returns (reply: CancelReply)
    requires appts.Valid()
    modifies appts
    ensures appts.Valid() && appts.nextId == old(appts.nextId)
    ensures var request := ParseCancel(message);
      var listed := Appointments.FindByPhone(old(appts.rows), clients, services, phone, shopId);
      && (request.NoKeyword? ==> reply == FormatError)
      && (!request.NoKeyword? && listed == [] ==> reply == NoActiveToCancel)
      && (!request.NoKeyword? && listed != [] && !Picks(request, listed) ==> reply == ChooseFrom(listed))
      && (!Picks(request, listed) ==> appts.rows == old(appts.rows))
    ensures var request := ParseCancel(message);
      var listed := Appointments.FindByPhone(old(appts.rows), clients, services, phone, shopId);
      Picks(request, listed) ==>
        && reply == Removed(listed[request.index])
        && appts.rows == Appointments.Deleted(old(appts.rows), listed[request.index].id, shopId)
        && listed[request.index] in old(appts.rows)
        && listed[request.index] !in appts.rows
        && |appts.rows| == |old(appts.rows)| - 1
  {
    var request := ParseCancel(message);
    if request.NoKeyword? {
      return FormatError;
    }
    var listed := Appointments.FindByPhone(appts.rows, clients, services, phone, shopId);
    if |listed| == 0 {
      return NoActiveToCancel;
    }
    if request.NoNumber? || request.index < 0 || request.index >= |listed| {
      return ChooseFrom(listed);
    }
    assert Picks(request, listed);
    var selected := listed[request.index];
    assert selected in appts.rows && Appointments.IsRow(selected, selected.id, shopId);
    var deleted := appts.Delete(selected.id, shopId);
    reply := if deleted then Removed(selected) else CancelFailed;
  }

  /**
   * A message that starts with "cancelar" in any case, then exactly one space, is read from its
   * tenth character on.
   */
  lemma ParseCancelLeading(message: string)
    requires |message| >= 10 && Text.ToLower(message)[..8] == "cancelar" && message[8] == ' ' && !Text.IsSpace(message[9])
    ensures var c := message[9];
      ParseCancel(message) == if Text.IsDigit(c) then Number(Text.DigitValue(c) - 1) else NoNumber
  {
    assert Text.IndexOf(Text.ToLower(message), "cancelar") == Some(0);
    var tail := message[8..];
    assert tail[1..] == message[9..];
    assert Text.TrimStart(tail) == Text.TrimStart(message[9..]);
    assert Text.TrimStart(message[9..]) == message[9..];
  }

  /** "cancelar 12" reads only the "1" and picks the first appointment. */
  lemma CancelTwelvePicksFirst()
    ensures ParseCancel("cancelar 12") == Number(0)
  {
    var m := "cancelar 12";
    forall i | 0 <= i < 8 ensures Text.ToLower(m)[i] == "cancelar"[i] {
    }
    ParseCancelLeading(m);
  }

  /** "CANCELAR 0" reads as position -1, which never picks an appointment. */
  lemma CancelZeroPicksNothing(listed: seq<Appointment>)
    ensures ParseCancel("CANCELAR 0") == Number(-1)
    ensures !Picks(ParseCancel("CANCELAR 0"), listed)
  {
    var m := "CANCELAR 0";
    forall i | 0 <= i < 8 ensures Text.ToLower(m)[i] == "cancelar"[i] {
    }
    ParseCancelLeading(m);
  }

  // ---------------------------------------------------------------- processIncomingMessage

  /** A webhook message: the sender and the text body, absent for a message without text. */
  datatype Incoming = Incoming(from: string, text: Option<string>)

  /** `messageText.toLowerCase().trim()`. */
  function Normalized(body: string): string {
    Text.Trim(Text.ToLower(body))
  }

  /** `text.includes(keyword) || text === keyword`. */
  predicate Mentions(text: string, keyword: string) {
    Text.Contains(text, keyword) || text == keyword
  }

  /** The keyword branches, in the order the router tests them. */
  datatype Intent = MyAppointment | Cancel | Reserve | Greeting

  function IntentOf(text: string): Intent {
    if Mentions(text, "mi turno") then MyAppointment
    else if Mentions(text, "cancelar") then Cancel
    else if Mentions(text, "reservar") then Reserve
    else Greeting
  }

  /** `findAppointmentByClientId(phone)`: some client of any barbershop has this phone. */
  function KnownClient(clients: seq<Client>, phone: string): (b: bool)
    ensures b <==> exists i | 0 <= i < |clients| :: clients[i].phone == phone
  {
    exists c | c in clients :: c.phone == phone
  }

  /** What the router sends. */
  datatype Routed =
    | Unreadable
    | Dialog(response: Conversation.Response)
    | UnknownBarbershop
    | MyAppointments(appointments: seq<Appointment>)
    | NothingActive
    | CancelList(appointments: seq<Appointment>)
    | AlreadyPending
    | ReservationStarted(services: seq<Service>)
    | Welcome

  datatype RouteOutcome = RouteOutcome(routed: Routed, effect: Conversation.Effect)

  /**
   * The keyword branch `intent` for a sender outside a dialog. `listed` is what
   * `Appointment.findByPhone` gives for the sender in the barbershop, `offered` what
   * `Service.findActiveByBarbershopId` gives, and `blocked` says that the client is known
   * and `checkExistingAppointment` reports a pending appointment.
   */
  function Route(intent: Intent, listed: seq<Appointment>, offered: seq<Service>, blocked: bool): RouteOutcome {
    match intent
    case MyAppointment => RouteOutcome(MyAppointments(listed), Conversation.Keep)
    case Cancel =>
      if |listed| == 0 then RouteOutcome(NothingActive, Conversation.Keep)
      else RouteOutcome(CancelList(listed),
                        Conversation.Put(Conversation.AwaitingCancelSelection, Conversation.NoData.(appointments := Some(listed))))
    case Reserve =>
      if blocked then RouteOutcome(AlreadyPending, Conversation.Keep)
      else RouteOutcome(ReservationStarted(offered), Conversation.Put(Conversation.SelectService, Conversation.NoData))
    case Greeting => RouteOutcome(Welcome, Conversation.Keep)
  }

  /** The sender has a dialog entry that has not expired. */
  predicate InDialog(conversations: map<string, Conversation.ConvState>, phone: string, now: int) {
    phone in conversations && !Conversation.Expired(conversations[phone], now)
  }

  /**
   * `processIncomingMessage`. A message without text fails before anything happens. An
   * active dialog gets the raw text and no keyword is looked at; otherwise the barbershop
   * of the bot number is looked up (failing when there is none) and the lower-cased,
   * trimmed text is routed by keyword.
   */
  method ProcessIncomingMessage(manager: Conversation.ConversationManager, message: Incoming, now: int,
                                inputs: Conversation.Reads, shopId: Option<int>,
                                appts: seq<Appointment>, clients: seq<Client>, services: seq<Service>,
                                clientPhone: string, hasPending: bool)
    returns (routed: Routed)
    requires manager.Valid() && Conversation.SlotsTerminate(inputs)
    modifies manager
    ensures manager.Valid()
    ensures message.text.None? ==> routed == Unreadable && manager.conversations == old(manager.conversations)
    ensures message.text.Some? && InDialog(old(manager.conversations), message.from, now) ==>
      var out := Conversation.Respond(Some(old(manager.conversations)[message.from]), message.text.value, now, inputs);
      && routed == Dialog(out.response)
      && manager.conversations == Conversation.Apply(old(manager.conversations), message.from, out.effect, now)
    ensures message.text.Some? && !InDialog(old(manager.conversations), message.from, now) && shopId.None? ==>
      routed == UnknownBarbershop && manager.conversations == old(manager.conversations)
    ensures message.text.Some? && !InDialog(old(manager.conversations), message.from, now) && shopId.Some? ==>
      var r := Route(IntentOf(Normalized(message.text.value)),
                     Appointments.FindByPhone(appts, clients, services, message.from, shopId.value),
                     Services.FindActiveByBarbershopId(services, shopId.value),
                     KnownClient(clients, clientPhone) && hasPending);
      && routed == r.routed
      && manager.conversations == Conversation.Apply(old(manager.conversations), message.from, r.effect, now)
  {
    if message.text.None? {
      return Unreadable;
    }
    var body := message.text.value;
    var text := Normalized(body);
    var state := manager.GetConversationState(message.from);
    if state.Some? && !manager.IsConversationExpired(message.from, now) {
      var response := manager.ProcessUserResponse(message.from, body, now, inputs);
      return Dialog(response);
    }
    if shopId.None? {
      return UnknownBarbershop;
    }
    var shop := shopId.value;
    var listed := Appointments.FindByPhone(appts, clients, services, message.from, shop);
    var offered := Services.FindActiveByBarbershopId(services, shop);
    var blocked := KnownClient(clients, clientPhone) && hasPending;
    routed := RouteByKeyword(manager, IntentOf(text), message.from, now, listed, offered, blocked);
  }

  /**
   * The keyword half of `processIncomingMessage`, for a sender outside a dialog: the
   * branch `intent` is the first keyword the text mentions (`IntentOf`). The "cancelar"
   * branch stores the list under the sender's phone; "reservar" starts a reservation.
   */
  method RouteByKeyword(manager: Conversation.ConversationManager, intent: Intent, from: string, now: int,
                        listed: seq<Appointment>, offered: seq<Service>, blocked: bool)
    returns (routed: Routed)
    requires manager.Valid()
    modifies manager
    ensures manager.Valid()
    ensures var r := Route(intent, listed, offered, blocked);
      && routed == r.routed
      && manager.conversations == Conversation.Apply(old(manager.conversations), from, r.effect, now)
  {
    match intent
    case MyAppointment =>
      routed := MyAppointments(listed);
    case Cancel =>
      if |listed| == 0 {
        return NothingActive;
      }
      var data := Conversation.NoData.(appointments := Some(listed));
      assert Conversation.WellFormed(Conversation.ConvState(Conversation.AwaitingCancelSelection, data, now));
      manager.SetConversationState(from, Conversation.AwaitingCancelSelection, data, now);
      routed := CancelList(listed);
    case Reserve =>
      if blocked {
        return AlreadyPending;
      }
      manager.StartReservation(from, now);
      routed := ReservationStarted(offered);
    case Greeting =>
      routed := Welcome;
  }

  // ---------------------------------------------------------------- properties

  /** `text === keyword` adds nothing to `includes`: the keywords match as substrings. */
  lemma MentionsIsContains(text: string, keyword: string)
    ensures Mentions(text, keyword) <==> Text.Contains(text, keyword)
  {
    if text == keyword {
      assert Text.OccursAt(text, keyword, 0);
    }
  }

  /**
   * Keyword priority: "mi turno" wins over everything, "cancelar" over "reservar", and a
   * text with none of them gets the welcome message.
   */
  lemma KeywordPriority(text: string)
    ensures Text.Contains(text, "mi turno") ==> IntentOf(text) == MyAppointment
    ensures !Text.Contains(text, "mi turno") && Text.Contains(text, "cancelar") ==> IntentOf(text) == Cancel
    ensures !Text.Contains(text, "mi turno") && !Text.Contains(text, "cancelar") && Text.Contains(text, "reservar")
            ==> IntentOf(text) == Reserve
    ensures !Text.Contains(text, "mi turno") && !Text.Contains(text, "cancelar") && !Text.Contains(text, "reservar")
            ==> IntentOf(text) == Greeting
  {
    MentionsIsContains(text, "mi turno");
    MentionsIsContains(text, "cancelar");
    MentionsIsContains(text, "reservar");
  }

  /** "Quiero cancelar mi turno" asks for the appointment list, not for a cancellation. */
  lemma MyAppointmentBeatsCancel()
    ensures IntentOf(Normalized("Quiero cancelar mi turno")) == MyAppointment
  {
    var m := "Quiero cancelar mi turno";
    var lower := Text.ToLower(m);
    forall i | 16 <= i < 24 ensures lower[i] == "mi turno"[i - 16] {
    }
    assert lower[16..24] == "mi turno";
    assert !Text.IsSpace(lower[0]) && !Text.IsSpace(lower[23]);
    assert Text.TrimStart(lower) == lower;
    assert Text.TrimEnd(lower) == lower;
    assert Text.OccursAt(lower, "mi turno", 16);
  }

  /**
   * The cancellation list the router stores is a step the dialog does not know: within
   * the five minutes every message, "CANCELAR 1" included, reaches the dialog, which
   * drops the entry with a restart and deletes nothing.
   */
  lemma CancelSelectionDeadEnds(listed: seq<Appointment>, t: int, now: int, message: string, inputs: Conversation.Reads)
    requires t <= now <= t + Conversation.ExpiryMs && Conversation.SlotsTerminate(inputs)
    ensures var entry := Conversation.ConvState(Conversation.AwaitingCancelSelection, Conversation.NoData.(appointments := Some(listed)), t);
      && InDialog(map["p" := entry], "p", now)
      && Conversation.Respond(Some(entry), message, now, inputs) == Conversation.Abort(Conversation.StepError)
  {
  }

  /**
   * Outside a dialog, "reservar" starts a fresh dialog exactly when the client is not
   * blocked by a pending appointment; "cancelar" stores the list exactly when it is not
   * empty; every stored entry is one the dialog can hold.
   */
  lemma RouteEffects(intent: Intent, listed: seq<Appointment>, offered: seq<Service>, blocked: bool)
    ensures var r := Route(intent, listed, offered, blocked);
      && (intent == Reserve ==> (r.effect == Conversation.Put(Conversation.SelectService, Conversation.NoData) <==> !blocked))
      && (intent == Cancel ==> (r.effect.Put? <==> |listed| > 0))
      && (r.effect.Put? ==> Conversation.WellFormed(Conversation.ConvState(r.effect.step, r.effect.data, 0)))
      && (intent == MyAppointment || intent == Greeting ==> r.effect == Conversation.Keep)
  {
  }
}
