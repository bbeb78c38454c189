/**
 * The WhatsApp booking dialog of `server/utils/conversationManager.js`. A map from the
 * customer's phone number to `{step, data, timestamp}` carries a booking through
 * select_service, select_date, select_time, confirm_name, confirm_phone and
 * final_confirmation; a dialog left alone for more than five minutes has expired.
 *
 * What each step does with a message is a pure function (`ServiceTurn` ... `FinalTurn`,
 * dispatched by `Respond`) returning the reply and an `Effect` on the caller's entry: kept
 * as it is (re-prompt), replaced by the next step (stamped with the current time) or
 * removed. The class `ConversationManager` holds the map, and its handler methods are
 * proved to do exactly what those functions say.
 *
 * The manager's own storage inputs (the active services, the business configuration, the
 * service duration, the occupied intervals of the day) and the outcome of its booking
 * write are inputs of a turn (`Reads`); the clock is the parameter `now`.
 */
module Conversation {
  import opened Wrappers
  import Text
  import Calendar
  import Clock
  import Slots
  import opened Tables

  /** Five minutes in milliseconds: the inactivity after which a dialog has expired. */
  const ExpiryMs: int := 5 * 60 * 1000

  const Tomorrow: string := "ma\U{F1}ana"
  const DayAfterTomorrow: string := "pasado ma\U{F1}ana"

  // ---------------------------------------------------------------- state

  /** The dialog steps, plus the cancellation step the WhatsApp router stores. */
  datatype Step =
    | SelectService | SelectDate | SelectTime | ConfirmName | ConfirmPhone | FinalConfirmation
    | AwaitingCancelSelection

  /** What the dialog has collected; an absent field is `None`. */
  datatype Data = Data(
    service: Option<Service>,
    date: Option<Calendar.JsDate>,
    time: Option<string>,
    name: Option<string>,
    phone: Option<string>,
    appointments: Option<seq<Appointment>>)

  /** The empty object `{}`. */
  const NoData: Data := Data(None, None, None, None, None, None)

  /** One entry of the map; `timestamp` is the time of the last write, in milliseconds. */
  datatype ConvState = ConvState(step: Step, data: Data, timestamp: int)

  /** How far along the dialog a step is. */
  function Rank(step: Step): nat {
    match step
    case SelectService => 0
    case SelectDate => 1
    case SelectTime => 2
    case ConfirmName => 3
    case ConfirmPhone => 4
    case FinalConfirmation => 5
    case AwaitingCancelSelection => 0
  }

  /** The step a successful answer leads to. */
  function Next(step: Step): Step {
    match step
    case SelectService => SelectDate
    case SelectDate => SelectTime
    case SelectTime => ConfirmName
    case ConfirmName => ConfirmPhone
    case ConfirmPhone => FinalConfirmation
    case FinalConfirmation => FinalConfirmation
    case AwaitingCancelSelection => AwaitingCancelSelection
  }

  /**
   * The entries the manager and the router ever write: a dialog step holds exactly the
   * answers of the steps before it, and the cancellation step holds only the list.
   */
  predicate WellFormed(st: ConvState) {
    var d := st.data;
    if st.step == AwaitingCancelSelection then
      d.appointments.Some? && d == NoData.(appointments := d.appointments)
    else
      && d.appointments.None?
      && (d.service.Some? <==> Rank(st.step) >= 1)
      && (d.date.Some? <==> Rank(st.step) >= 2)
      && (d.time.Some? <==> Rank(st.step) >= 3)
      && (d.name.Some? <==> Rank(st.step) >= 4)
      && (d.phone.Some? <==> Rank(st.step) >= 5)
  }

  /** `now - timestamp > fiveMinutes`. */
  predicate Expired(st: ConvState, now: int) {
    now - st.timestamp > ExpiryMs
  }

  /** Every answer collected in `a` is still in `b`. */
  predicate Extends(a: Data, b: Data) {
    && (a.service.Some? ==> b.service == a.service)
    && (a.date.Some? ==> b.date == a.date)
    && (a.time.Some? ==> b.time == a.time)
    && (a.name.Some? ==> b.name == a.name)
    && (a.phone.Some? ==> b.phone == a.phone)
    && (a.appointments.Some? ==> b.appointments == a.appointments)
  }

  // ---------------------------------------------------------------- inputs and replies

  /** The `business_config` row: opening and closing time and the gap between slots, in minutes. */
  datatype Config = Config(openTime: int, closeTime: int, slotDuration: int)

  /** `SELECT * FROM business_config LIMIT 1`: the query fails, finds no row, or finds one. */
  datatype ConfigRead = ConfigFailed | ConfigMissing | ConfigFound(config: Config)

  /**
   * The manager's storage inputs during one turn, and whether its booking write succeeds:
   * the active services ordered by name (`None` when the query fails), the configuration,
   * the duration of the chosen service (`None` when the query fails or finds no active
   * service), the occupied intervals of the chosen day (`None` when the query fails).
   */
  datatype Reads = Reads(
    services: Option<seq<Service>>,
    config: ConfigRead,
    serviceDuration: Option<int>,
    occupied: Option<seq<Slots.Interval>>,
    booked: bool)

  /** The slot loop ends for these inputs (it would run forever otherwise). */
  predicate SlotsTerminate(r: Reads) {
    r.config.ConfigFound? && r.serviceDuration.Some? ==>
      Slots.Terminates(r.config.config.openTime, r.config.config.closeTime, r.config.config.slotDuration, r.serviceDuration.value)
  }

  /** The `action` field of a response; there is no third action. */
  datatype Action = SendMessage | Restart

  /** The message of a response, as a tag with the values the text shows. */
  datatype Reply =
    | ConversationExpired | StepError
    | ServicesError | ServiceMenu(services: seq<Service>) | ServiceChosen(service: Service)
    | InvalidDate | WeekendDate | DateChosen(date: Calendar.JsDate)
    | InvalidTimeFormat | OutsideHours(config: Config) | SlotTaken(time: string, suggestions: seq<string>)
    | TimeCheckError | TimeChosen(time: string)
    | NameTooShort | NameChosen(name: string)
    | InvalidPhone | Summary(shown: Data)
    | Booked(booking: Data) | BookingError | BookingDeclined

  datatype Response = Response(action: Action, reply: Reply)

  /** What a turn does to the caller's entry. */
  datatype Effect = Keep | Put(step: Step, data: Data) | Clear

  datatype Outcome = Outcome(effect: Effect, response: Response)

  function Reprompt(reply: Reply): Outcome {
    Outcome(Keep, Response(SendMessage, reply))
  }

  function Advance(step: Step, data: Data, reply: Reply): Outcome {
    Outcome(Put(step, data), Response(SendMessage, reply))
  }

  function Abort(reply: Reply): Outcome {
    Outcome(Clear, Response(Restart, reply))
  }

  /** The map after a turn whose effect on `phone`'s entry is `effect`. */
  function Apply(conversations: map<string, ConvState>, phone: string, effect: Effect, now: int): map<string, ConvState> {
    match effect
    case Keep => conversations
    case Put(step, data) => conversations[phone := ConvState(step, data, now)]
    case Clear => conversations - {phone}
  }

  // ---------------------------------------------------------------- the steps

  /** `handleServiceSelection`: `parseInt(message)` picks a service, counting from 1. */
  function ServiceTurn(data: Data, message: string, services: Option<seq<Service>>): Outcome {
    if services.None? then Abort(ServicesError)
    else
      var n := Text.ParseInt(message);
      if n.Some? && 1 <= n.value <= |services.value| then
        var chosen := services.value[n.value - 1];
        Advance(SelectDate, data.(service := Some(chosen)), ServiceChosen(chosen))
      else Reprompt(ServiceMenu(services.value))
  }

  /** `new Date(t)`: a time value beyond TimeClip's range is the Invalid Date. */
  function FromTime(t: int): Calendar.JsDate {
    if -Calendar.MaxTime <= t <= Calendar.MaxTime then Calendar.At(t) else Calendar.Invalid
  }

  /** `parseInt(parts[1]) - 1`: NaN stays NaN. */
  function MinusOne(n: Option<int>): Option<int> {
    if n.None? then None else Some(n.value - 1)
  }

  /**
   * The date a message names (`selectedDate`), or `None` when it names none: tomorrow at
   * this time for any text containing "mañana", otherwise `new Date(year, month - 1, day)`
   * of the three parts of a `D/M/Y` text.
   */
  function ChosenDate(message: string, now: int): (r: Option<Calendar.JsDate>)
    ensures r.None? <==> !Text.Contains(Text.ToLower(message), Tomorrow) && Text.Occurrences(message, '/') != 2
    ensures Text.Contains(Text.ToLower(message), Tomorrow) ==> r == Some(FromTime(now + Calendar.DayMs))
    ensures !Text.Contains(Text.ToLower(message), Tomorrow) && r.Some? && r.value.At? ==> r.value.ms % Calendar.DayMs == 0
  {
    var lower := Text.ToLower(message);
    Text.SplitCount(message, '/');
    MentionsTomorrow(lower);
    if Text.Contains(lower, Tomorrow) then Some(FromTime(now + Calendar.DayMs))
    else if Text.Contains(lower, DayAfterTomorrow) then Some(FromTime(now + 2 * Calendar.DayMs))
    else
      var parts := Text.Split(message, '/');
      if |parts| == 3 then
        Some(Calendar.MakeDate(Text.ParseInt(parts[2]), MinusOne(Text.ParseInt(parts[1])), Text.ParseInt(parts[0])))
      else None
  }

  /** Every text that mentions "pasado mañana" also mentions "mañana". */
  lemma MentionsTomorrow(s: string)
    ensures Text.Contains(s, DayAfterTomorrow) ==> Text.Contains(s, Tomorrow)
  {
    if Text.Contains(s, DayAfterTomorrow) {
      assert DayAfterTomorrow == "pasado " + Tomorrow;
      Text.ContainsSuffix(s, "pasado ", Tomorrow);
    }
  }

  /** `selectedDate < today`: false for the Invalid Date, whose time value is NaN. */
  predicate Before(d: Calendar.JsDate, now: int) {
    d.At? && d.ms < now
  }

  /** `getDay()` is 0 or 6: never for the Invalid Date, whose `getDay()` is NaN. */
  predicate OnWeekend(d: Calendar.JsDate) {
    d.At? && Calendar.IsWeekend(Calendar.DayOf(d.ms))
  }

  /** `handleDateSelection`. */
  function DateTurn(data: Data, message: string, now: int): Outcome {
    var chosen := ChosenDate(message, now);
    if chosen.None? || Before(chosen.value, now) then Reprompt(InvalidDate)
    else if OnWeekend(chosen.value) then Reprompt(WeekendDate)
    else Advance(SelectTime, data.(date := chosen), DateChosen(chosen.value))
  }

  /** `availableSlots.some(slot => slot.time === message)`. */
  predicate Offered(slots: seq<int>, message: string) {
    exists i | 0 <= i < |slots| :: Clock.Format(slots[i]) == message
  }

  /** `availableSlots.slice(0, 5)`, each written `HH:mm`. */
  function Suggestions(slots: seq<int>): (r: seq<string>)
    ensures |r| == if |slots| < 5 then |slots| else 5
    ensures forall i | 0 <= i < |r| :: r[i] == Clock.Format(slots[i])
  {
    var n := if |slots| < 5 then |slots| else 5;
    seq(n, i requires 0 <= i < n => Clock.Format(slots[i]))
  }

  /**
   * `handleTimeSelection`. The configuration query runs first; the time pattern, the
   * opening hours and the generated slots are checked in that order. With the Invalid
   * Date the hour comparisons are all false, and `toISOString` then throws.
   */
  function TimeTurn(data: Data, message: string, inputs: Reads): Outcome
    requires data.service.Some? && data.date.Some?
    requires SlotsTerminate(inputs)
  {
    if inputs.config.ConfigFailed? then Abort(TimeCheckError)
    else if !Clock.MatchesTimePattern(message) then Reprompt(InvalidTimeFormat)
    else if inputs.config.ConfigMissing? then Abort(TimeCheckError)
    else
      var c := inputs.config.config;
      var m := Clock.Minutes(message);
      var date := data.date.value;
      if date.At? && (m < c.openTime || m > c.closeTime) then Reprompt(OutsideHours(c))
      else if date.Invalid? || inputs.serviceDuration.None? || inputs.occupied.None? then Abort(TimeCheckError)
      else
        var slots := Slots.AvailableSlots(c.openTime, c.closeTime, c.slotDuration, inputs.serviceDuration.value, inputs.occupied.value);
        if Offered(slots, message) then Advance(ConfirmName, data.(time := Some(message)), TimeChosen(message))
        else Reprompt(SlotTaken(message, Suggestions(slots)))
  }

  /** `handleNameConfirmation`: at least three characters. */
  function NameTurn(data: Data, message: string): Outcome {
    if Text.Utf16Length(message) < 3 then Reprompt(NameTooShort)
    else Advance(ConfirmPhone, data.(name := Some(message)), NameChosen(message))
  }

  /** A character of the class `[\d\s-()]`. */
  predicate PhoneChar(c: char) {
    Text.IsDigit(c) || Text.IsSpace(c) || c == '-' || c == '(' || c == ')'
  }

  /** The text after an optional leading `+`. */
  function Unsigned(s: string): string {
    if |s| > 0 && s[0] == '+' then s[1..] else s
  }

  /** `^[+]?[\d\s-()]+$`: an optional `+`, then at least one digit, space, dash or parenthesis. */
  function MatchesPhonePattern(s: string): (b: bool)
    ensures b <==>
      && |s| >= 1 && (s[0] == '+' ==> |s| >= 2)
      && forall i | 0 <= i < |s| :: PhoneChar(s[i]) || (i == 0 && s[i] == '+')
  {
    var u := Unsigned(s);
    assert forall i | 0 <= i < |u| :: u[i] == s[i + |s| - |u|];
    |u| > 0 && forall i | 0 <= i < |Unsigned(s)| :: PhoneChar(Unsigned(s)[i])
  }

  /**
   * `handlePhoneConfirmation`. The summary is built from the entry read before the
   * update, so it shows the data without the phone just given.
   */
  function PhoneTurn(data: Data, message: string): Outcome {
    if !MatchesPhonePattern(message) then Reprompt(InvalidPhone)
    else Advance(FinalConfirmation, data.(phone := Some(message)), Summary(data))
  }

  /** `message.toLowerCase()` is "si" or "sí". */
  predicate IsYes(message: string) {
    var l := Text.ToLower(message);
    l == "si" || l == "s\U{ED}"
  }

  /** `handleFinalConfirmation`: every answer ends the dialog. */
  function FinalTurn(data: Data, message: string, booked: bool): Outcome {
    if IsYes(message) then
      if booked then Outcome(Clear, Response(SendMessage, Booked(data))) else Abort(BookingError)
    else Outcome(Clear, Response(SendMessage, BookingDeclined))
  }

  /** `processUserResponse` on the caller's entry (`None` when there is none). */
  function Respond(entry: Option<ConvState>, message: string, now: int, inputs: Reads): Outcome
    requires entry.Some? ==> WellFormed(entry.value)
    requires SlotsTerminate(inputs)
  {
    if entry.None? || Expired(entry.value, now) then Abort(ConversationExpired)
    else
      var data := entry.value.data;
      match entry.value.step
      case SelectService => ServiceTurn(data, message, inputs.services)
      case SelectDate => DateTurn(data, message, now)
      case SelectTime => TimeTurn(data, message, inputs)
      case ConfirmName => NameTurn(data, message)
      case ConfirmPhone => PhoneTurn(data, message)
      case FinalConfirmation => FinalTurn(data, message, inputs.booked)
      case AwaitingCancelSelection => Abort(StepError)
  }

  // ---------------------------------------------------------------- the manager

  class ConversationManager {
    /** `this.conversations`: phone number to dialog state. */
    var conversations: map<string, ConvState>

    ghost predicate Valid()
      reads this
    {
      forall p | p in conversations :: WellFormed(conversations[p])
    }

    constructor ()
      ensures Valid() && conversations == map[]
    {
      conversations := map[];
    }

    /** `getConversationState`: the entry, or null. */
    function GetConversationState(phone: string): (r: Option<ConvState>)
      reads this
      ensures r.Some? <==> phone in conversations
      ensures r.Some? ==> r.value == conversations[phone]
    {
      if phone in conversations then Some(conversations[phone]) else None
    }

    /** `setConversationState`: replaces the whole entry and stamps it with the current time. */
    method SetConversationState(phone: string, step: Step, data: Data, now: int)
      modifies this
      ensures conversations == old(conversations)[phone := ConvState(step, data, now)]
      ensures old(Valid()) && WellFormed(ConvState(step, data, now)) ==> Valid()
    {
      conversations := conversations[phone := ConvState(step, data, now)];
    }

    /** `clearConversation`: removes the entry, if any. */
    method ClearConversation(phone: string)
      modifies this
      ensures conversations == old(conversations) - {phone}
      ensures GetConversationState(phone).None?
    {
      conversations := conversations - {phone};
    }

    /** `isConversationExpired`: no entry, or more than five minutes since its last write. */
    function IsConversationExpired(phone: string, now: int): (expired: bool)
      reads this
      ensures expired <==> phone !in conversations || now - conversations[phone].timestamp > 5 * 60 * 1000
    {
      match GetConversationState(phone)
      case None => true
      case Some(st) => Expired(st, now)
    }

    /** `startReservation`: a fresh dialog at select_service, whatever was there before. */
    method StartReservation(phone: string, now: int)
      requires Valid()
      modifies this
      ensures Valid()
      ensures conversations == old(conversations)[phone := ConvState(SelectService, NoData, now)]
    {
      SetConversationState(phone, SelectService, NoData, now);
    }

    /** `processUserResponse`: expiry first, then the handler of the entry's step. */
    method ProcessUserResponse(phone: string, message: string, now: int, inputs: Reads) returns (response: Response)
      requires Valid() && SlotsTerminate(inputs)
      modifies this
      ensures Valid()
      ensures var out := Respond(old(GetConversationState(phone)), message, now, inputs);
        response == out.response && conversations == Apply(old(conversations), phone, out.effect, now)
    {
      var state := GetConversationState(phone);
      if state.None? || IsConversationExpired(phone, now) {
        ClearConversation(phone);
        return Response(Restart, ConversationExpired);
      }
      match state.value.step
      case SelectService =>
        response := HandleServiceSelection(phone, message, now, inputs.services);
      case SelectDate =>
        response := HandleDateSelection(phone, message, now);
      case SelectTime =>
        response := HandleTimeSelection(phone, message, now, inputs);
      case ConfirmName =>
        response := HandleNameConfirmation(phone, message, now);
      case ConfirmPhone =>
        response := HandlePhoneConfirmation(phone, message, now);
      case FinalConfirmation =>
        response := HandleFinalConfirmation(phone, message, inputs.booked);
      case AwaitingCancelSelection =>
        ClearConversation(phone);
        response := Response(Restart, StepError);
    }

    method HandleServiceSelection(phone: string, message: string, now: int, services: Option<seq<Service>>)
      returns (response: Response)
      requires Valid() && phone in conversations && conversations[phone].step == SelectService
      modifies this
      ensures Valid()
      ensures var out := ServiceTurn(old(conversations[phone].data), message, services);
        response == out.response && conversations == Apply(old(conversations), phone, out.effect, now)
    {
      var state := conversations[phone];
      assert WellFormed(state);
      if services.None? {
        ClearConversation(phone);
        return Response(Restart, ServicesError);
      }
      var selected := Text.ParseInt(message);
      if selected.Some? && 1 <= selected.value <= |services.value| {
        var service := services.value[selected.value - 1];
        var data := state.data.(service := Some(service));
        assert WellFormed(ConvState(SelectDate, data, now));
        SetConversationState(phone, SelectDate, data, now);
        response := Response(SendMessage, ServiceChosen(service));
      } else {
        response := Response(SendMessage, ServiceMenu(services.value));
      }
    }

    method HandleDateSelection(phone: string, message: string, now: int) returns (response: Response)
      requires Valid() && phone in conversations && conversations[phone].step == SelectDate
      modifies this
      ensures Valid()
      ensures var out := DateTurn(old(conversations[phone].data), message, now);
        response == out.response && conversations == Apply(old(conversations), phone, out.effect, now)
    {
      var state := conversations[phone];
      var selected := ChosenDate(message, now);
      if selected.None? || Before(selected.value, now) {
        return Response(SendMessage, InvalidDate);
      }
      if OnWeekend(selected.value) {
        return Response(SendMessage, WeekendDate);
      }
      SetConversationState(phone, SelectTime, state.data.(date := selected), now);
      response := Response(SendMessage, DateChosen(selected.value));
    }

    method HandleTimeSelection(phone: string, message: string, now: int, inputs: Reads) returns (response: Response)
      requires Valid() && phone in conversations && conversations[phone].step == SelectTime
      requires SlotsTerminate(inputs)
      modifies this
      ensures Valid()
      ensures var out := TimeTurn(old(conversations[phone].data), message, inputs);
        response == out.response && conversations == Apply(old(conversations), phone, out.effect, now)
    {
      var state := conversations[phone];
      if inputs.config.ConfigFailed? {
        ClearConversation(phone);
        return Response(Restart, TimeCheckError);
      }
      if !Clock.MatchesTimePattern(message) {
        return Response(SendMessage, InvalidTimeFormat);
      }
      if inputs.config.ConfigMissing? {
        ClearConversation(phone);
        return Response(Restart, TimeCheckError);
      }
      var config := inputs.config.config;
      var minutes := Clock.Minutes(message);
      var date := state.data.date.value;
      if date.At? && (minutes < config.openTime || minutes > config.closeTime) {
        return Response(SendMessage, OutsideHours(config));
      }
      if date.Invalid? || inputs.serviceDuration.None? || inputs.occupied.None? {
        ClearConversation(phone);
        return Response(Restart, TimeCheckError);
      }
      var slots := Slots.GenerateAvailableSlots(config.openTime, config.closeTime, config.slotDuration,
                                                inputs.serviceDuration.value, inputs.occupied.value);
      if !Offered(slots, message) {
        return Response(SendMessage, SlotTaken(message, Suggestions(slots)));
      }
      SetConversationState(phone, ConfirmName, state.data.(time := Some(message)), now);
      response := Response(SendMessage, TimeChosen(message));
    }

    method HandleNameConfirmation(phone: string, message: string, now: int) returns (response: Response)
      requires Valid() && phone in conversations && conversations[phone].step == ConfirmName
      modifies this
      ensures Valid()
      ensures var out := NameTurn(old(conversations[phone].data), message);
        response == out.response && conversations == Apply(old(conversations), phone, out.effect, now)
    {
      if Text.Utf16Length(message) < 3 {
        return Response(SendMessage, NameTooShort);
      }
      var state := conversations[phone];
      SetConversationState(phone, ConfirmPhone, state.data.(name := Some(message)), now);
      response := Response(SendMessage, NameChosen(message));
    }

    method HandlePhoneConfirmation(phone: string, message: string, now: int) returns (response: Response)
      requires Valid() && phone in conversations && conversations[phone].step == ConfirmPhone
      modifies this
      ensures Valid()
      ensures var out := PhoneTurn(old(conversations[phone].data), message);
        response == out.response && conversations == Apply(old(conversations), phone, out.effect, now)
    {
      if !MatchesPhonePattern(message) {
        return Response(SendMessage, InvalidPhone);
      }
      var state := conversations[phone];
      SetConversationState(phone, FinalConfirmation, state.data.(phone := Some(message)), now);
      response := Response(SendMessage, Summary(state.data));
    }

    method HandleFinalConfirmation(phone: string, message: string, booked: bool) returns (response: Response)
      requires Valid() && phone in conversations && conversations[phone].step == FinalConfirmation
      modifies this
      ensures Valid()
      ensures response == FinalTurn(old(conversations[phone].data), message, booked).response
      ensures conversations == old(conversations) - {phone}
    {
      var state := conversations[phone];
      if IsYes(message) {
        if booked {
          ClearConversation(phone);
          response := Response(SendMessage, Booked(state.data));
        } else {
          ClearConversation(phone);
          response := Response(Restart, BookingError);
        }
      } else {
        ClearConversation(phone);
        response := Response(SendMessage, BookingDeclined);
      }
    }
  }

  // ---------------------------------------------------------------- properties

  /** At exactly five minutes a dialog is still alive; one millisecond later it has expired. */
  lemma ExpiryBoundary(st: ConvState)
    ensures !Expired(st, st.timestamp + 300000)
    ensures Expired(st, st.timestamp + 300001)
  {
  }

  /**
   * A turn only ever writes well-formed entries, so the handlers always find the answers
   * of the earlier steps; an entry that is written moves exactly one step forward and
   * keeps every earlier answer.
   */
  lemma {:induction false} RespondAdvancesOneStep(entry: Option<ConvState>, message: string, now: int, inputs: Reads)
    requires entry.Some? ==> WellFormed(entry.value)
    requires SlotsTerminate(inputs)
    ensures var out := Respond(entry, message, now, inputs);
      out.effect.Put? ==>
        && entry.Some? && !Expired(entry.value, now)
        && entry.value.step != FinalConfirmation && entry.value.step != AwaitingCancelSelection
        && out.effect.step == Next(entry.value.step)
        && Rank(out.effect.step) == Rank(entry.value.step) + 1
        && Extends(entry.value.data, out.effect.data)
        && WellFormed(ConvState(out.effect.step, out.effect.data, now))
  {
  }

  /**
   * A re-prompt leaves the entry untouched, timestamp included, and a restart always
   * removes it.
   */
  lemma RestartClears(entry: Option<ConvState>, message: string, now: int, inputs: Reads)
    requires entry.Some? ==> WellFormed(entry.value)
    requires SlotsTerminate(inputs)
    ensures var out := Respond(entry, message, now, inputs);
      && (out.response.action == Restart ==> out.effect == Clear)
      && (out.effect == Keep ==> out.response.action == SendMessage && entry.Some? && !Expired(entry.value, now))
  {
  }

  /** No entry, an expired entry, or the router's cancellation step: cleared, with a restart. */
  lemma UnusableEntryRestarts(entry: Option<ConvState>, message: string, now: int, inputs: Reads)
    requires entry.Some? ==> WellFormed(entry.value)
    requires SlotsTerminate(inputs)
    requires entry.None? || Expired(entry.value, now) || entry.value.step == AwaitingCancelSelection
    ensures Respond(entry, message, now, inputs).effect == Clear
    ensures Respond(entry, message, now, inputs).response.action == Restart
  {
  }

  /**
   * Service selection accepts exactly the numbers 1 to the number of services and
   * records that service; anything else re-sends the list.
   */
  lemma ServiceChoice(data: Data, message: string, services: seq<Service>)
    ensures var out := ServiceTurn(data, message, Some(services));
      var n := Text.ParseInt(message);
      && (out.effect.Put? <==> n.Some? && 1 <= n.value <= |services|)
      && (out.effect.Put? ==> out.effect.data == data.(service := Some(services[n.value - 1])))
      && (!out.effect.Put? ==> out == Reprompt(ServiceMenu(services)))
  {
  }

  /**
   * The number the user types, counting from 1, picks the `k`-th service of the list the
   * step reads (the list its re-prompt shows).
   */
  lemma ServiceNumeral(data: Data, services: seq<Service>, k: nat)
    requires k < |services|
    ensures ServiceTurn(data, Text.Numeral(k + 1), Some(services)).effect
         == Put(SelectDate, data.(service := Some(services[k])))
  {
    var typed := Text.Numeral(k + 1);
    Text.ParseIntNumeral(k + 1);
    ServiceChoice(data, typed, services);
  }

  /**
   * "pasado mañana" contains "mañana", so it resolves to tomorrow like "mañana" itself:
   * the branch for the day after tomorrow is never taken.
   */
  lemma DayAfterTomorrowIsTomorrow(message: string, now: int)
    requires Text.Contains(Text.ToLower(message), DayAfterTomorrow)
    ensures ChosenDate(message, now) == Some(FromTime(now + Calendar.DayMs))
  {
    MentionsTomorrow(Text.ToLower(message));
  }

  /**
   * A written date is midnight, and a date before `now` is refused: the day's own date is
   * accepted only at the very millisecond of midnight.
   */
  lemma TodayIsRefused(data: Data, message: string, now: int)
    requires ChosenDate(message, now) == Some(Calendar.At(Calendar.DayOf(now) * Calendar.DayMs))
    requires now % Calendar.DayMs != 0
    ensures DateTurn(data, message, now) == Reprompt(InvalidDate)
  {
  }

  /** An accepted date is the Invalid Date, or a weekday no earlier than now. */
  lemma AcceptedDate(data: Data, message: string, now: int)
    ensures var out := DateTurn(data, message, now);
      out.effect.Put? ==>
        && out.effect.data == data.(date := ChosenDate(message, now))
        && var d := ChosenDate(message, now).value;
           d.Invalid? || (d.ms >= now && !Calendar.IsWeekend(Calendar.DayOf(d.ms)))
  {
  }

  /**
   * "a/b/c" names the Invalid Date, which passes both date checks; at the next step any
   * well-written time then ends the dialog with a restart.
   */
  lemma InvalidDateDeadEnds(data: Data, now: int, time: string, inputs: Reads)
    requires data.service.Some?
    requires Clock.MatchesTimePattern(time) && inputs.config.ConfigFound? && SlotsTerminate(inputs)
    ensures DateTurn(data, "a/b/c", now) == Advance(SelectTime, data.(date := Some(Calendar.Invalid)), DateChosen(Calendar.Invalid))
    ensures TimeTurn(data.(date := Some(Calendar.Invalid)), time, inputs) == Abort(TimeCheckError)
  {
    LettersNameNoDate(now);
  }

  lemma LettersNameNoDate(now: int)
    ensures ChosenDate("a/b/c", now) == Some(Calendar.Invalid)
  {
    NoTomorrowInABC();
    SplitABC();
    NoYearInC();
    var parts := Text.Split("a/b/c", '/');
    Calendar.MakeDateNaN(Text.ParseInt(parts[2]), MinusOne(Text.ParseInt(parts[1])), Text.ParseInt(parts[0]));
  }

  lemma NoTomorrowInABC()
    ensures !Text.Contains(Text.ToLower("a/b/c"), Tomorrow)
    ensures !Text.Contains(Text.ToLower("a/b/c"), DayAfterTomorrow)
  {
    assert |Text.ToLower("a/b/c")| == 5;
  }

  lemma NoYearInC()
    ensures Text.ParseInt("c") == None
  {
    assert Text.TrimStart("c") == "c";
    assert Text.DigitPrefix("c", 10) == [];
  }

  lemma SplitABC()
    ensures Text.Split("a/b/c", '/') == ["a", "b", "c"]
  {
    assert Text.Split("", '/') == [""];
    assert "c"[1..] == "";
    assert ['c'] + "" == "c";
    assert [""][1..] == [];
    assert Text.Split("c", '/') == ["c"];
    assert "/c"[1..] == "c";
    assert Text.Split("/c", '/') == ["", "c"];
    assert "b/c"[1..] == "/c";
    assert ['b'] + "" == "b";
    assert ["", "c"][1..] == ["c"];
    assert Text.Split("b/c", '/') == ["b", "c"];
    assert "/b/c"[1..] == "b/c";
    assert Text.Split("/b/c", '/') == ["", "b", "c"];
    assert "a/b/c"[1..] == "/b/c";
    assert ['a'] + "" == "a";
    assert ["", "b", "c"][1..] == ["b", "c"];
  }

  /**
   * An accepted time is the `HH:mm` text of a generated slot: within opening hours, its
   * whole service window before closing, overlapping no occupied interval.
   */
  lemma AcceptedTimeIsFreeSlot(data: Data, message: string, inputs: Reads)
    requires data.service.Some? && data.date.Some? && SlotsTerminate(inputs)
    ensures var out := TimeTurn(data, message, inputs);
      out.effect.Put? ==>
        && out.effect.data == data.(time := Some(message))
        && inputs.config.ConfigFound? && inputs.serviceDuration.Some? && inputs.occupied.Some?
        && data.date.value.At?
        && var c := inputs.config.config;
           var sd := inputs.serviceDuration.value;
           exists s ::
             && Clock.Format(s) == message
             && c.openTime <= s && s + sd <= c.closeTime
             && !Slots.IsOccupied(s, s + sd, inputs.occupied.value)
  {
    var out := TimeTurn(data, message, inputs);
    if out.effect.Put? {
      var c := inputs.config.config;
      var sd := inputs.serviceDuration.value;
      var slots := Slots.AvailableSlots(c.openTime, c.closeTime, c.slotDuration, sd, inputs.occupied.value);
      var i :| 0 <= i < |slots| && Clock.Format(slots[i]) == message;
      Slots.AvailableSlotsInHoursAndAscending(c.openTime, c.closeTime, c.slotDuration, sd, inputs.occupied.value);
      assert slots[i] in slots;
      if sd + c.slotDuration > 0 {
        Slots.AvailableSlotsExactly(c.openTime, c.closeTime, c.slotDuration, sd, inputs.occupied.value, slots[i]);
      }
    }
  }

  /**
   * Slots are written with two-digit hours, so a time typed with one ("9:00") matches the
   * pattern but is never accepted.
   */
  lemma ShortTimeNeverAccepted(data: Data, message: string, inputs: Reads)
    requires data.service.Some? && data.date.Some? && SlotsTerminate(inputs)
    requires |message| == 4
    ensures !TimeTurn(data, message, inputs).effect.Put?
  {
  }

  /** "9:00" in particular. */
  lemma NineOClockNeverAccepted(data: Data, inputs: Reads)
    requires data.service.Some? && data.date.Some? && SlotsTerminate(inputs)
    ensures Clock.MatchesTimePattern("9:00")
    ensures !TimeTurn(data, "9:00", inputs).effect.Put?
  {
    ShortTimeNeverAccepted(data, "9:00", inputs);
  }

  /** A name of fewer than three characters or a phone off the pattern is asked for again. */
  lemma NameAndPhoneChecks(data: Data, message: string)
    ensures NameTurn(data, message).effect.Put? <==> Text.Utf16Length(message) >= 3
    ensures |message| >= 3 ==> NameTurn(data, message).effect.Put?
    ensures !NameTurn(data, message).effect.Put? ==> NameTurn(data, message) == Reprompt(NameTooShort)
    ensures PhoneTurn(data, message).effect.Put? <==> MatchesPhonePattern(message)
    ensures !PhoneTurn(data, message).effect.Put? ==> PhoneTurn(data, message) == Reprompt(InvalidPhone)
  {
  }

  /** The length is counted in UTF-16 units: an emoji and one letter make a name of three. */
  lemma EmojiNameLength(data: Data)
    ensures NameTurn(data, "\U{1F600}a").effect.Put?
    ensures NameTurn(data, "\U{1F600}").effect == Keep
  {
    assert Text.Utf16Length("\U{1F600}a") == 2 + Text.Utf16Length("a");
  }

  /** The phone pattern accepts an international number with spaces, parentheses and a dash, and parentheses alone. */
  lemma PhonePatternAccepts()
    ensures MatchesPhonePattern("+57 (300) 123-4567")
    ensures MatchesPhonePattern("(((")
  {
    var m := "+57 (300) 123-4567";
    assert Unsigned(m) == m[1..];
    forall i | 1 <= i < |m| ensures PhoneChar(m[i]) {
    }
    var parens := "(((";
    forall i | 0 <= i < |parens| ensures PhoneChar(parens[i]) {
    }
  }

  /** The phone pattern refuses a leading `+` alone, a second `+` and a letter. */
  lemma PhonePatternRefuses()
    ensures !MatchesPhonePattern("+")
    ensures !MatchesPhonePattern("++57")
    ensures !MatchesPhonePattern("57a")
  {
    assert !MatchesPhonePattern("++57") by {
      assert Unsigned("++57") == "+57" && !PhoneChar("+57"[0]);
    }
    assert Unsigned("57a") == "57a" && !PhoneChar("57a"[2]);
  }

  /**
   * The summary shown after the phone step is built from the entry before the update:
   * in a well-formed dialog it has no phone.
   */
  lemma SummaryLacksPhone(data: Data, message: string, t: int)
    requires WellFormed(ConvState(ConfirmPhone, data, t)) && MatchesPhonePattern(message)
    ensures PhoneTurn(data, message).response.reply == Summary(data)
    ensures PhoneTurn(data, message).response.reply.shown.phone.None?
    ensures PhoneTurn(data, message).effect.data.phone == Some(message)
  {
  }

  /**
   * The final step always removes the entry; it books only on "si" or "sí" in any case,
   * and what it books holds every answer of the dialog.
   */
  lemma FinalAlwaysClears(data: Data, message: string, booked: bool, t: int)
    requires WellFormed(ConvState(FinalConfirmation, data, t))
    ensures FinalTurn(data, message, booked).effect == Clear
    ensures FinalTurn(data, message, booked).response.reply.Booked? <==> IsYes(message) && booked
    ensures FinalTurn(data, message, booked).response.reply.Booked? ==>
      var b := FinalTurn(data, message, booked).response.reply.booking;
      b.service.Some? && b.date.Some? && b.time.Some? && b.name.Some? && b.phone.Some?
    ensures IsYes("S\U{CD}") && IsYes("Si") && !IsYes("s\U{ED} ")
  {
  }
}
