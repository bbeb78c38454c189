# Sistema de turnos: the booking engine in Dafny

This project models the server-side booking engine of a barbershop appointment system.
Customers book over WhatsApp and administrators work through an HTTP API. The engine has
five parts, and each has its own Dafny module:

- **The slot generator** (`Slots`). `generateAvailableSlots` walks the business day from
  opening to closing. It offers every start whose service window ends by closing time and
  does not strictly overlap a booked interval. The source holds two identical copies, and
  both are this one model. Its cursor advances twice per round, once by the service
  duration in the loop test and once by the slot duration. Successive candidates are
  therefore `serviceDuration + slotDuration` minutes apart.
- **The WhatsApp booking dialog** (`Conversation`). This is `ConversationManager`, a map
  from the customer's phone to `{step, data, timestamp}`. The dialog runs through
  select_service, select_date, select_time, confirm_name, confirm_phone and
  final_confirmation, and it expires after five minutes without a write.
  - What each step does with a message is a pure function that returns the reply and its
    effect on the entry: keep it, replace it with the next step, or remove it.
  - The class `ConversationManager` holds the map. Its methods are proved to do exactly
    what those functions say.
- **The inbound router and the cancellation assistant** (`WhatsApp`).
  - `processIncomingMessage` gives a message to an active dialog. Otherwise it routes on
    the keywords "mi turno", "cancelar" and "reservar", in that priority.
  - `cancelMyAppointment` deletes the appointment that the customer names by its position
    in their list.
- **The stores** (`Appointments`, `Clients`, `Services`, over the rows of `Tables`). Each
  SQL query is a function over a sequence of rows. Each table is a class whose `rows`
  field the inserting, updating and deleting methods reassign. Its invariant is that ids
  are unique and below the AUTO_INCREMENT counter.
- **The controllers** (`AppointmentController`, `ServiceController`).
  - The appointment controller covers the exact-minute availability check, booking with
    find-or-create of the client, and the pagination arithmetic of the admin listing.
  - The service controller covers the guards in front of deactivation (no pending or
    confirmed booking) and deletion (no booking at all).

Representations:

- Times of day are minutes since midnight in the dialog and the slot generator. Stored
  appointment times are seconds since midnight.
- Calendar dates are day numbers.
- JavaScript `Date` values are milliseconds since the epoch, or the Invalid Date
  (`Calendar`).
- The clock is a parameter `now`.
- Outbound messages are tags that carry the values the text would show.

Three modules are shared helpers:

- `Text`: lower-casing, trimming, substring search, `split`, and `parseInt`.
- `Clock`: the `HH:mm` pattern and format.
- `Seqs`: filtering, and the insertion sort that models `ORDER BY`.

Because of the double advance described above, a 09:00–18:00 day with a 30-minute
service and 30-minute slots offers nine starts, one hour apart, and no start at half
past the hour (`Slots.NineToSixExample`).

## Model

| member | source | states |
|---|---|---|
| Slots.GenerateAvailableSlots | server/utils/conversationManager.js:364-399 | the loop returns exactly the recursive reference function `AvailableSlots` of free starts; the loop must terminate (service plus slot duration positive, or not even one window fits) |
| Slots.IsOccupiedExactly | server/controllers/AppointmentController.js:176-178 | a window counts as occupied exactly when some booked interval strictly overlaps it; touching at an endpoint is not overlap |
| Slots.FreeFromSound | server/controllers/AppointmentController.js:170-185 | every offered start lies on the grid `start + k·(serviceDuration + slotDuration)`, its window ends by closing time, and it overlaps no booking |
| Slots.FreeFromComplete | server/controllers/AppointmentController.js:170-185 | every grid start whose window fits and is free is offered |
| Slots.AvailableSlotsExactly | server/controllers/AppointmentController.js:160-191 | both directions at once: `s` is offered if and only if it is on the grid from opening time, fits before closing and overlaps no booking |
| Slots.ScanIsFreeFrom | server/utils/conversationManager.js:377-396 | the loop's accumulate-and-advance form equals the recursive definition of the free starts |
| Slots.FreeFromAscending | server/controllers/AppointmentController.js:170-188 | the free starts are no earlier than the first candidate and lie at least `serviceDuration + slotDuration` apart |
| Slots.AvailableSlotsInHoursAndAscending | server/controllers/AppointmentController.js:170-188 | every offered start satisfies `open ≤ s` and `s + serviceDuration ≤ close`; the list ascends strictly with that spacing |
| Slots.NoSlotsWhenServiceTooLong | server/controllers/AppointmentController.js:172 | a service longer than the business day leaves the loop at once (it terminates) with no slot |
| Slots.FreeFromNoBookings | server/controllers/AppointmentController.js:170-188 | with no bookings the free starts are exactly the candidates that fit, in order |
| Slots.NoBookingsClosedForm | server/controllers/AppointmentController.js:170-188 | with no bookings the day offers `(close − open − serviceDuration) / (serviceDuration + slotDuration) + 1` evenly spaced starts |
| Slots.NineToSixExample | server/controllers/AppointmentController.js:172-187 | 09:00–18:00 with 30/30 and no bookings gives nine slots, 09:00, 10:00, …, 17:00 |
| Clock.Format | server/utils/conversationManager.js:390 | a start is written as five characters `HH:mm` |
| Clock.MatchesTimePattern | server/utils/conversationManager.js:185-191 | the pattern holds exactly for one or two hour digits making at most 23, a colon, and two minute digits whose first is at most 5 |
| Clock.Minutes | server/utils/conversationManager.js:185-193 | a time matching `^([0-1]?[0-9]\|2[0-3]):[0-5][0-9]$` reads as a minute of the day |
| Clock.FormatThenRead | server/utils/conversationManager.js:185-225 | a formatted slot time always matches the time pattern and reads back as the same minute (modulo a day) |
| Clock.ReadThenFormat | server/utils/conversationManager.js:185-225 | a five-character time that matches the pattern is its own `HH:mm` formatting |
| Calendar.MakeDate | server/utils/conversationManager.js:134-140 | a valid `new Date(y, m − 1, d)` has all three parts readable and falls on a midnight within TimeClip's range |
| Calendar.MakeDateNextDay | server/utils/conversationManager.js:134-140 | day `d + 1` is one day of milliseconds after day `d`, across month ends too |
| Calendar.MakeDateNaN | server/utils/conversationManager.js:134-140 | `new Date(y, m − 1, d)` with a part that `parseInt` cannot read is the Invalid Date |
| Calendar.MonthOverflow | server/utils/conversationManager.js:134-140 | month index 12 rolls over into January of the next year, as `new Date` does |
| Calendar.FifteenthOfSeptember2024IsSunday | server/utils/conversationManager.js:138-157 | `new Date(2024, 8, 15)` is 15 September 2024 at midnight UTC, and that day is a Sunday, so it counts as a weekend date |
| Text.ToLower | server/controllers/WhatsAppController.js:232 | lower-casing keeps the length and maps every character on its own, position by position |
| Text.ToLowerNoCapitals | server/controllers/WhatsAppController.js:232 | no ASCII capital and no Latin-1 capital is left after lower-casing |
| Text.ToLowerIdempotent | server/controllers/WhatsAppController.js:232 | lower-casing an already lower-cased text changes nothing |
| Text.TrimStart | server/controllers/WhatsAppController.js:232 | leading white space is removed and the rest is a suffix that starts with non-space |
| Text.TrimEnd | server/controllers/WhatsAppController.js:232 | trailing white space is removed and the rest is a prefix that ends with non-space |
| Text.IndexOf | server/controllers/WhatsAppController.js:112-123 | the first position where the text occurs, or none exactly when it does not occur anywhere |
| Text.Split | server/utils/conversationManager.js:134-140 | `split('/')` gives at least one part and no part holds the separator |
| Text.SplitCount | server/utils/conversationManager.js:134-140 | the number of parts is one more than the number of separators |
| Text.SplitJoin | server/utils/conversationManager.js:134-140 | joining the parts with the separator gives back the text |
| Text.DigitPrefix | server/utils/conversationManager.js:88-89 | `parseInt` reads the longest run of digits at the start and stops at the first non-digit |
| Text.ParseInt | server/utils/conversationManager.js:88-89 | a number is read only when the text, once leading blanks are trimmed, opens with a digit or a sign, and a negative number only after a minus sign |
| Text.ParseIntLeadingDigit | server/utils/conversationManager.js:136-138 | text whose first non-blank character is a digit, not opening `0x`, always reads as a number of at least zero |
| Text.Utf16Length | server/utils/conversationManager.js:245 | `length` counts UTF-16 units: between one and two per character, and exactly one per character when none lies beyond U+FFFF |
| Text.ParseIntDecimal | server/utils/conversationManager.js:88-89 | a text that starts with a decimal digit and is not `0x…` parses as the value of its leading digits |
| Text.ParseIntDigits | server/utils/conversationManager.js:88-89 | a text made only of digits parses as its decimal value |
| Text.ParseIntNumeral | server/utils/conversationManager.js:88-89 | the decimal numeral of `n` parses back to `n` |
| Seqs.Sort | server/models/Appointment.js:155 | `ORDER BY` returns a permutation of the matched rows |
| Seqs.SortSorted | server/models/Appointment.js:155 | under a total preorder, `ORDER BY` returns the rows in order |
| Tables.OrNull | server/models/Client.js:18 | `x \|\| null` for text: an absent or empty text is stored as null, and anything else is stored unchanged |
| Tables.IdOrNull | server/models/Appointment.js:97 | `barber_id \|\| null`: an absent or zero barber id is stored as null |
| Appointments.OrdersAreTotal | server/models/Appointment.js:45 | the three row orders used (date then time, ascending; the same, descending; time within a day) are total preorders |
| Appointments.PhoneSpellings | server/models/Appointment.js:133-134 | the first spelling is `+` followed by the second; a phone opening with `+` is the first, any other is the second |
| Appointments.PhoneSpellingsIgnorePlus | server/models/Appointment.js:133-134 | for a phone `p` without a leading `+`, `p` and `"+" + p` give the same pair, and the second spelling carries no `+` |
| Appointments.FindByPhone | server/models/Appointment.js:131-159 | exactly the pending or confirmed appointments of the barbershop whose client has either spelling of the phone and whose service exists, each once, in ascending date and time |
| Appointments.FindOccupiedSlots | server/models/Appointment.js:120-127 | true exactly when a pending or confirmed appointment of the barbershop on that date, with an existing service, starts at the same `HH:MM` |
| Appointments.ExactMinuteOnly | server/models/Appointment.js:123 | a booking at 10:00 for 60 minutes does not occupy 10:30, and seconds are ignored (a booking at 10:30:45 occupies 10:30) |
| Appointments.FindByIdClient | server/models/Appointment.js:171-178 | exactly the client's pending or confirmed appointments, with no barbershop filter |
| Appointments.GetOccupiedSlotsByDate | server/models/Appointment.js:190-216 | the intervals `[time, time + duration)` of a reordering of exactly the pending or confirmed appointments of that day and barbershop (and barber when one is given), one per appointment, ascending by start |
| Appointments.SortedDay | server/models/Appointment.js:190-216 | ordering the matched rows by time keeps every row matched and makes them ascending |
| Appointments.IntervalsAscending | server/models/Appointment.js:190-216 | rows in time order give intervals with ascending starts |
| Appointments.Listing | server/models/Appointment.js:4-46 | exactly the rows of the barbershop that pass the date and status filters (each only when given), latest first |
| Appointments.FindAll | server/models/Appointment.js:4-58 | the listing cut to `LIMIT`/`OFFSET`; the offset applies only with a truthy limit; a negative limit or offset is refused; every row is of the barbershop and passes the filters, latest first, at most `limit` of them |
| Appointments.Page | server/models/Appointment.js:47-54 | `OFFSET o LIMIT n` is the slice of at most `n` rows starting at `o`, empty past the end |
| Appointments.StatusSet | server/models/Appointment.js:102-109 | the table keeps its length and its ids |
| Appointments.StatusSetTouchesOnlyTheRow | server/models/Appointment.js:102-109 | only the row with that id in that barbershop gets the new status; its other columns and every other row are unchanged |
| Appointments.Deleted | server/models/Appointment.js:111-118 | the rows left are exactly those that are not the row with that id in that barbershop |
| Appointments.DeletedRemovesOneRow | server/models/Appointment.js:111-118 | with unique ids, the delete removes exactly the one matching row, or nothing when none matches, and keeps ids unique |
| Appointments.AppointmentTable.Create | server/models/Appointment.js:92-100 | appends one `pending` row under a fresh id and returns that id; barber and notes default to null |
| Appointments.AppointmentTable.UpdateStatus | server/models/Appointment.js:102-109 | returns true exactly when a row with that id and barbershop existed; the table becomes `StatusSet` of the old one |
| Appointments.AppointmentTable.Delete | server/models/Appointment.js:111-118 | returns true exactly when a row with that id and barbershop existed; that row alone is removed, and nothing changes otherwise |
| Clients.FindByPhone | server/models/Client.js:4-11 | a client of that barbershop with exactly that phone, or none exactly when no client matches |
| Clients.Updated | server/models/Client.js:23-30 | the table keeps its length and its ids |
| Clients.UpdatedChangesNameAndEmail | server/models/Client.js:23-30 | keyed by id alone: that client gets the new name and the email (null when absent or empty); phone, barbershop and every other client are unchanged |
| Clients.ClientTable.Create | server/models/Client.js:13-21 | appends one client under a fresh id and returns it; an absent or empty email is null |
| Clients.ClientTable.Update | server/models/Client.js:23-30 | the table becomes `Updated` of the old one, with ids still unique |
| Services.NameOrderTotal | server/models/Service.js:9 | ordering by name, ignoring letter case, is a total preorder |
| Services.NameOrderIgnoresCase | server/models/Service.js:9 | "barba" comes before "Corte", which a code-point order would reverse |
| Services.ByName | server/models/Service.js:80-87 | exactly the kept services, each as often as in the table, ordered by name ignoring letter case |
| Services.FindAll | server/models/Service.js:4-13 | exactly the services of the barbershop, only active ones unless inactive ones are asked for, ordered by name ignoring letter case |
| Services.FindActiveByBarbershopId | server/models/Service.js:80-87 | exactly the active services of the barbershop, ordered by name ignoring letter case |
| Services.HasPendingAppointments | server/models/Service.js:62-69 | true exactly when a pending or confirmed appointment of the barbershop uses the service |
| Services.HasAnyAppointments | server/models/Service.js:71-78 | true exactly when any appointment of the barbershop, in any status, uses the service |
| Services.PendingIsSomeAppointment | server/models/Service.js:62-78 | a pending booking is a booking; a completed one counts only for `hasAnyAppointments` |
| Services.Edited | server/models/Service.js:34-42 | the row gets the new name, duration and price; an absent or empty description becomes null and any other is stored as given; `is_active` becomes 1 when it is not given |
| Services.Updated | server/models/Service.js:34-42 | only the row with that id in that barbershop changes, and ids are kept |
| Services.Deactivated | server/models/Service.js:44-51 | the table keeps its length and its ids |
| Services.DeactivatedKeepsTheRow | server/models/Service.js:44-51 | only `is_active` of the matching row changes, to false, so it leaves the active listing; every other row is unchanged |
| Services.Deleted | server/models/Service.js:53-60 | the rows left are exactly those that are not the row with that id in that barbershop |
| Services.DeletedRemovesOneRow | server/models/Service.js:53-60 | with unique ids, the delete removes exactly the one matching row, or nothing |
| Services.ServiceTable.Create | server/models/Service.js:24-32 | appends one active service under a fresh id and returns it; an empty description is null |
| Services.ServiceTable.Update | server/models/Service.js:34-42 | returns true exactly when a row with that id and barbershop existed; the table becomes `Updated` of the old one |
| Services.ServiceTable.Deactivate | server/models/Service.js:44-51 | returns true exactly when such a row existed; the table becomes `Deactivated` of the old one |
| Services.ServiceTable.Delete | server/models/Service.js:53-60 | returns true exactly when such a row existed; that row alone is removed |
| ServiceController.Create | server/controllers/ServiceController.js:27-52 | an invalid request is 400 and changes nothing; a valid one inserts an active service in the admin's own barbershop and answers 201 with its id |
| ServiceController.Update | server/controllers/ServiceController.js:54-74 | an invalid request is 400 and changes nothing; a valid one passes `is_active` through and answers 200 when the row existed, 404 otherwise |
| ServiceController.Deactivate | server/controllers/ServiceController.js:76-97 | 400 with no change exactly when a pending or confirmed booking uses the service; otherwise it deactivates and answers 200, or 404 when there was no such service |
| ServiceController.Delete | server/controllers/ServiceController.js:99-120 | 400 with no change exactly when any booking uses the service; otherwise it deletes the row and answers 200, or 404 with no change |
| ServiceController.DeleteGuardIsStricter | server/controllers/ServiceController.js:80-108 | whatever may be deleted may be deactivated; a service with only a completed booking may be deactivated but not deleted |
| AppointmentController.IsSlotAvailable | server/controllers/AppointmentController.js:65-69 | free exactly when no pending or confirmed appointment of the barbershop on that date starts at the same `HH:MM` |
| AppointmentController.BookedSlotIsTaken | server/controllers/AppointmentController.js:65-69 | after a booking is inserted, its own minute is no longer available |
| AppointmentController.OverlapIsNotAConflict | server/controllers/AppointmentController.js:65-69 | a 60-minute booking at 10:00 leaves 10:30 available: the check compares start times, not windows |
| AppointmentController.Create | server/controllers/AppointmentController.js:71-97 | a client found by phone in the barbershop gets the new name and email, otherwise a client is inserted; then exactly one pending appointment is inserted for that client, with no availability check |
| AppointmentController.GetAllFilters | server/controllers/AppointmentController.js:11-18 | the filters pass date and status through; the limit defaults to 20; an empty limit disables paging; otherwise limit is `parseInt(limit)` and offset is `(page − 1) × limit` |
| AppointmentController.GetAll | server/controllers/AppointmentController.js:10-27 | every row returned belongs to the admin's barbershop |
| AppointmentController.PageIsSlice | server/controllers/AppointmentController.js:11-18 | `?page=p&limit=n` returns the slice `[(p − 1)·n, p·n)` of the full listing, latest first |
| AppointmentController.DefaultPageSize | server/controllers/AppointmentController.js:11-18 | with no limit, page `p` is the slice `[(p − 1)·20, p·20)` |
| AppointmentController.EmptyLimitListsAll | server/controllers/AppointmentController.js:15-18 | an empty `limit` turns paging off and the whole listing comes back |
| Conversation.ConversationManager.GetConversationState | server/utils/conversationManager.js:10-12 | the entry for the phone, or none exactly when there is none |
| Conversation.ConversationManager.SetConversationState | server/utils/conversationManager.js:14-19 | replaces the whole entry and stamps it with `now`; nothing else changes |
| Conversation.ConversationManager.ClearConversation | server/utils/conversationManager.js:21-23 | removes the entry, after which the get returns none |
| Conversation.ConversationManager.IsConversationExpired | server/utils/conversationManager.js:26-32 | true exactly when there is no entry or more than 300000 ms passed since its last write |
| Conversation.ConversationManager.StartReservation | server/utils/conversationManager.js:35-40 | the entry becomes select_service with empty data, whatever was there before |
| Conversation.ConversationManager.ProcessUserResponse | server/utils/conversationManager.js:43-74 | the response and the new map are exactly what `Respond` prescribes for the old entry: a missing or expired entry, or an unknown step, is cleared with a restart; otherwise the step's handler runs |
| Conversation.ConversationManager.HandleServiceSelection | server/utils/conversationManager.js:77-118 | the map changes exactly as `ServiceTurn` prescribes, with the same reply |
| Conversation.ConversationManager.HandleDateSelection | server/utils/conversationManager.js:121-168 | the map changes exactly as `DateTurn` prescribes, with the same reply |
| Conversation.ConversationManager.HandleTimeSelection | server/utils/conversationManager.js:171-241 | the map changes exactly as `TimeTurn` prescribes, with the same reply |
| Conversation.ConversationManager.HandleNameConfirmation | server/utils/conversationManager.js:244-262 | the map changes exactly as `NameTurn` prescribes, with the same reply; the name's length is counted in UTF-16 units |
| Conversation.ConversationManager.HandlePhoneConfirmation | server/utils/conversationManager.js:265-286 | the map changes exactly as `PhoneTurn` prescribes, with the same reply |
| Conversation.ConversationManager.HandleFinalConfirmation | server/utils/conversationManager.js:289-315 | the reply is that of `FinalTurn`, and the entry is removed on every answer |
| Conversation.Suggestions | server/utils/conversationManager.js:215-225 | at most the first five slots are suggested, each written `HH:mm` |
| Conversation.ExpiryBoundary | server/utils/conversationManager.js:26-32 | at exactly five minutes a dialog is alive; one millisecond later it has expired |
| Conversation.RespondAdvancesOneStep | server/utils/conversationManager.js:43-315 | a turn that writes the entry comes from a live, non-final step, moves exactly one step forward, keeps every earlier answer and writes a well-formed entry |
| Conversation.RestartClears | server/utils/conversationManager.js:43-315 | a restart always removes the entry; a re-prompt leaves a live entry as it was, timestamp included |
| Conversation.UnusableEntryRestarts | server/utils/conversationManager.js:46-49 | no entry, an expired one, or the router's awaiting_cancel_selection step is cleared with a restart |
| Conversation.ServiceChoice | server/utils/conversationManager.js:84-112 | accepted exactly when `parseInt(message)` is between 1 and the number of services; that service is recorded and the other answers kept; anything else re-sends the list unchanged |
| Conversation.ServiceNumeral | server/utils/conversationManager.js:88-104 | typing the position `k + 1` chooses the `k`-th service of the list the step reads (the list its re-prompt shows) |
| Conversation.DayAfterTomorrowIsTomorrow | server/utils/conversationManager.js:128-131 | "pasado mañana" resolves to tomorrow, so the branch for the day after is never reached |
| Conversation.TodayIsRefused | server/utils/conversationManager.js:134-148 | a written date is midnight, so today's own date is refused at any time after midnight |
| Conversation.AcceptedDate | server/utils/conversationManager.js:143-162 | an accepted date is recorded and is the Invalid Date or a weekday no earlier than now |
| Conversation.InvalidDateDeadEnds | server/utils/conversationManager.js:134-162 | "a/b/c" passes both date checks as the Invalid Date, and then every well-written time ends the dialog with a restart |
| Conversation.ChosenDate | server/utils/conversationManager.js:128-141 | no date exactly when the lower-cased text lacks "mañana" and the text does not hold exactly two slashes; "mañana" always means the same time tomorrow; a typed date is a midnight |
| Conversation.MentionsTomorrow | server/utils/conversationManager.js:128-131 | a text with "pasado mañana" contains "mañana", so the day-after-tomorrow branch is never reached |
| Conversation.MatchesPhonePattern | server/utils/conversationManager.js:265-266 | the pattern holds exactly for a non-empty text of digits, white space, dashes and parentheses, with at most one leading `+` that is not the whole text |
| Conversation.EmojiNameLength | server/utils/conversationManager.js:244-245 | an emoji and one letter count as three units and pass the check; an emoji alone counts as two and is refused |
| Conversation.LettersNameNoDate | server/utils/conversationManager.js:134-140 | "a/b/c" names the Invalid Date |
| Conversation.AcceptedTimeIsFreeSlot | server/utils/conversationManager.js:185-230 | an accepted time is recorded and is the `HH:mm` of a start within opening hours whose window ends by closing and overlaps no booking |
| Conversation.ShortTimeNeverAccepted | server/utils/conversationManager.js:185-225 | a four-character time (one-digit hour) is never accepted, since slots are written with two |
| Conversation.NineOClockNeverAccepted | server/utils/conversationManager.js:185-225 | "9:00" matches the time pattern but is never accepted |
| Conversation.NameAndPhoneChecks | server/utils/conversationManager.js:244-286 | a name is accepted exactly when it is at least three UTF-16 units long (so always from three characters on) and a phone exactly when it matches `^[+]?[\d\s-()]+$`; otherwise the same prompt comes back with the entry unchanged |
| Conversation.PhonePatternAccepts | server/utils/conversationManager.js:266 | the phone pattern accepts "+57 (300) 123-4567" and also "(((" |
| Conversation.PhonePatternRefuses | server/utils/conversationManager.js:266 | the phone pattern refuses "+", "++57" and "57a" |
| Conversation.SummaryLacksPhone | server/utils/conversationManager.js:274-284 | the summary is built from the entry before the update, so it never shows the phone just given, while the stored entry has it |
| Conversation.FinalAlwaysClears | server/utils/conversationManager.js:289-315 | every answer removes the entry; the booking happens only on "si" or "sí" in any letter case, and it holds every answer of the dialog |
| WhatsApp.ParseCancel | server/controllers/WhatsAppController.js:112-125 | no request exactly when the text has no "cancelar" in any case; otherwise the position is one digit minus one, between −1 and 8 |
| WhatsApp.ParseCancelLeading | server/controllers/WhatsAppController.js:112-125 | after a leading "cancelar " only the next character is read: a digit `d` names position `d − 1`, anything else names none |
| WhatsApp.CancelTwelvePicksFirst | server/controllers/WhatsAppController.js:112-125 | "cancelar 12" reads only the 1 and picks the first appointment |
| WhatsApp.CancelZeroPicksNothing | server/controllers/WhatsAppController.js:125-155 | "CANCELAR 0" names position −1, which never picks an appointment |
| WhatsApp.CancelMyAppointment | server/controllers/WhatsAppController.js:107-195 | no keyword is a format error; an empty list is reported; a missing or out-of-range position re-sends the list; in all these cases nothing is deleted; a position in range hard-deletes exactly that listed row, scoped to the barbershop |
| WhatsApp.ProcessIncomingMessage | server/controllers/WhatsAppController.js:224-328 | a message without text changes nothing; a live dialog gets the raw text and no keyword is read; an unknown bot number changes nothing; otherwise the lower-cased, trimmed text is routed by keyword |
| WhatsApp.KnownClient | server/models/Appointment.js:181-188 | true exactly when some client, of any barbershop, has exactly this phone |
| WhatsApp.RouteByKeyword | server/controllers/WhatsAppController.js:262-326 | the reply and the map change are exactly those of `Route` for the chosen keyword |
| WhatsApp.MentionsIsContains | server/controllers/WhatsAppController.js:262-302 | `includes(k) \|\| text === k` is the same as `includes(k)` |
| WhatsApp.KeywordPriority | server/controllers/WhatsAppController.js:262-326 | "mi turno" beats "cancelar", which beats "reservar"; text with none gets the welcome |
| WhatsApp.MyAppointmentBeatsCancel | server/controllers/WhatsAppController.js:262-265 | "Quiero cancelar mi turno" lists the appointments and cancels nothing |
| WhatsApp.CancelSelectionDeadEnds | server/controllers/WhatsAppController.js:235-300 | the awaiting_cancel_selection entry counts as a live dialog, so the next message goes to the dialog, which drops it with a restart and deletes nothing |
| WhatsApp.RouteEffects | server/controllers/WhatsAppController.js:262-326 | "reservar" starts a fresh dialog exactly when the client is not blocked; "cancelar" stores the list exactly when it is not empty; every stored entry is well formed; the other keywords change nothing |

## Left out

- Transport: the webhook endpoints, `sendWhatsAppMessage`, the confirmation, cancellation and
  reminder senders, and every route file. An outbound message is a tag that carries the
  values its text shows; the Spanish wording and the WhatsApp API call are not modelled.
- Time zones and date libraries: local time is taken as UTC. `moment` parsing, and
  `toLocaleDateString`, `toLocaleTimeString` and `toISOString` formatting, are not
  modelled. Dates are day numbers or milliseconds since the epoch.
- Database failures of the model methods (a rejected `pool.execute`) and the catch blocks
  that answer 500 are not modelled. The one exception is the dialog, whose storage reads
  may fail (`Conversation.Reads`).
- The dialog's own storage: its `getDatabase` queries and `createAppointment` are not part
  of this model. The active services, the configuration, the service duration, the
  occupied intervals and whether the booking write succeeds are inputs of a turn. As
  written, the dialog reads every active service and every pending or confirmed booking
  of the date across all barbershops (`server/utils/conversationManager.js:82`, `:338`).
  So the first menu, which `sendReservationStart` builds from the barbershop's own
  services, may differ from the list the typed number indexes. The occupied intervals of
  `Conversation.AcceptedTimeIsFreeSlot` are then the bookings of every barbershop that
  day. These reads also cannot run as written: `getDatabase` is not exported
  (`server/database/init.js:117-121`), and its calls at
  `server/utils/conversationManager.js:78` and `:173` sit outside the `try`, so the
  handler throws rather than answering `ServicesError` or `TimeCheckError`. The model
  describes the evidently intended wiring, in which these reads succeed or fail into
  those replies.
- `getAvailableSlots` of the dialog and of the appointment controller: the queries that
  feed the slot generator are inputs, and the generator works on a list of intervals.
- WhatsApp.ProcessIncomingMessage: the barbershop of the bot number
  (`findBybotNumber`), the phone held by `BotNumberService` and the answer of
  `checkExistingAppointment` are inputs. The appointment and service lists are passed in
  as rows, rather than read at the point the router reads them. The conversation manager
  as written defines no `checkExistingAppointment`, so in the source a known client's
  "reservar" throws at `server/controllers/WhatsAppController.js:315` before any state is
  set; the model takes the evidently intended behaviour, in which a known client who is
  not blocked starts a dialog (`WhatsApp.RouteEffects`).
- The router's `call_cancel` branch: `processUserResponse` never answers with that action,
  so the branch is dead and the model has no such action.
- `sendWelcomeMessage`, `sendMyAppointment` and `sendReservationStart` are the tags
  `Welcome`, `MyAppointments` and `ReservationStarted`. Their own bot-number lookup is not
  modelled.
- `Service.findById`, `ServiceController.getAll`, `getAllAdmin` and `getById`, and the
  HTTP wrappers `AppointmentController.getAvailableSlots`, `updateStatus` and `delete`
  are not modelled beyond the store operations they call.
- Request validation (`validationResult`) is the input `valid` of the service controller.
- AppointmentController.Create: the `res` reference in its catch block is a failure path
  and is not modelled.
- Clients.FindByPhone: `LIMIT 1` without `ORDER BY` lets the database choose among
  several matches; the model takes the first in table order.
- Seqs.Sort: the order of rows with equal sort keys is left to the database; the
  insertion sort fixes one such order.
- Text.ToLower: only the ASCII capitals and the Latin-1 capitals U+00C0–U+00DE (except
  U+00D7) are lowered. JavaScript's `toLowerCase` also lowers other scripts (Greek,
  Cyrillic and so on), and turns U+0130 into two characters. The lowered text is only
  compared with "mañana", "pasado mañana", "mi turno", "cancelar", "reservar", "si" and
  "sí". Outside Latin-1, only U+0130 (to `i` plus a combining dot) and the Kelvin sign
  U+212A (to `k`) lower into one of those letters. No keyword holds a `k`. The `i` from
  U+0130 is always followed by the combining dot, never by the space or end of text
  that follows `i` in "mi turno", "si" and "sí". So the model and JavaScript decide
  every match the same way.
- Services.ByName, Services.FindAll, Services.FindActiveByBarbershopId: `ORDER BY name`
  is modelled as a case-insensitive collation that compares lower-cased code points
  (`Services.NameOrder`). The database's default collation also treats accented and
  unaccented letters as equal and weighs letters by the Unicode collation algorithm;
  those refinements, and the order it picks among names it deems equal, are not
  modelled.
- Concurrent webhook deliveries: each turn is atomic.
- Prices are `real`; decimal rounding is not modelled.
