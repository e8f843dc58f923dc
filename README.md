# Coaching scheduler: slot rules on both sides of the REST boundary

This project is a Dafny model of a small coaching scheduler. Coaches publish
two-hour availability slots on a weekly calendar. Students book them. After a
session the coach records a satisfaction rating and notes. The model covers
four parts:

- **The calendar component** (`CalendarView.js`), in `calendar_rules.dfy`
  and `calendar_view.dfy`:
  - the fixed two-hour window of a new slot;
  - the overlap and 21:00 checks on a clicked date;
  - the slot query and how a listed slot becomes an event (title, colours,
    booked flag);
  - the booking, creation and details/feedback dialogs. Their state cells
    are the fields of class `Calendar`, and each click handler is a method
    on it.
- **The server's slot table** (`backend/app.py`), in `slot_store.dfy`:
  - the `Store` class holds the person table, the slot table (a `seq` of
    rows with the fields of `backend/models.py`) and the id sequence;
  - `add_slot`, `book_slot` and `add_feedback` are methods that change it;
  - `filter_overlapping_slots` and `get_slots` are a loop method and a
    formatting method, each proved against a pure specification function.
- **The booking details dialog** (`BookingDetailsDialog.js`), in
  `details_dialog.dfy`:
  - which person it names in each mode;
  - the first-name phone label;
  - the rating choices;
  - when Submit Feedback is shown and when it is enabled.
- **The dashboard** (`dashboard/index.js`), in `dashboard.dfy`:
  - the Coach View / Student View toggle and the reset of the selections;
  - the split of persons by role;
  - the calendar it renders, whose props it keeps equal to its own state.

`round_trip.dfy` follows a window the calendar accepts through the POST
body, the stored row and the listed entry, back to the event the calendar
draws.

Time is a count of seconds. A `Time.Stamp(date, time)` is a day number and
a second of that day. It stands for the `YYYY-MM-DDTHH:mm:ss` text the
server sends and for Python's `datetime.combine`. Ids are positive, as
database keys are, so the JavaScript and Python truthiness of an id means
"present". Each HTTP exchange is made explicit:

- a handler receives the outcome of its request (`HttpResult`) and the
  reply of the refetch that follows (`None` when that fetch fails);
- it returns the request it sends and the `alert` it raises (`Notice`).

## Model

| member | source | states |
|---|---|---|
| Time.DayStart | stepful-crud-app/src/dashboard/components/CalendarView.js:120 | midnight of the instant's day: at or before it, less than a day before it, a whole number of days |
| Time.StampOf | stepful-crud-app/src/dashboard/components/CalendarView.js:149-151 | the date and the time of day the client writes for an instant denote that instant, on that instant's own date |
| Time.StampOfInstant | backend/app.py:114-115 | a date and a time of day are recovered unchanged from the instant they denote |
| Time.InstantOnDate | stepful-crud-app/src/dashboard/components/CalendarView.js:149-151 | an instant's time of day, put on a date, gives back the instant iff the date is the instant's own date |
| Seqs.Filter | backend/app.py:33-34 | a comprehension keeps exactly the elements that pass, never adds one, and keeps no more copies than the input has |
| Seqs.FilterCounts | backend/app.py:33-34 | a comprehension keeps every copy of a value that passes and none of one that fails, so its contents are fixed by the input and the test |
| Seqs.FilterAppend | backend/app.py:33-34 | filtering a concatenation concatenates the filtered parts, so the input order is kept |
| SlotStore.Clash | backend/app.py:45-46 | the strict-overlap test on two slots' datetime ranges; slots on different dates never clash |
| SlotStore.ClashesWithAny | backend/app.py:45-49 | the `any(...)` over the booked slots; a slot on a date with no booked slot clashes with none |
| SlotStore.BookedFor | backend/app.py:25-31 | the booked-slot query returns exactly the booked rows of the coach or of the student; a missing coach id matches no row |
| SlotStore.Available | backend/app.py:34 | exactly the input slots nobody booked |
| SlotStore.KeptAvailable | backend/app.py:41-52 | exactly the available slots that clash with no booked slot |
| SlotStore.KeptAvailableSnoc | backend/app.py:41-52 | one more loop step appends the slot iff its `any(...)` test is false |
| SlotStore.OverlapFiltered | backend/app.py:33-54 | keeps every booked input slot, keeps an available one iff it clashes with no booked slot, adds nothing, and lists all booked slots before the available ones |
| SlotStore.Matches | backend/app.py:81-98 | with no filter every slot matches; with a student, a matching slot is that student's booking, or unbooked when a coach is also given |
| SlotStore.SlotsFor | backend/app.py:78-104 | every listed slot is a table row that matches the filters, with no extra copies; without a student every matching row is listed |
| SlotStore.NewRow | backend/app.py:62-67 | the inserted row carries the new id and the request's coach, date and times, is unbooked and has no rating or notes |
| SlotStore.Find | backend/app.py:132 | a primary-key lookup returns the index of the row with that id, or none when no row has it |
| SlotStore.WithFeedback | backend/app.py:143-147 | the row with the id gets the new rating and notes with its other fields unchanged; every other row is unchanged |
| SlotStore.FeedbackIdempotent | backend/app.py:141-148 | recording the same feedback twice leaves the table as recording it once |
| SlotStore.StudentOnlyListing | backend/app.py:81-98 | with only a student: exactly that student's bookings dated today or later |
| SlotStore.CoachOnlyListing | backend/app.py:85-86 | with only a coach: exactly that coach's slots, booked or not, past or not |
| SlotStore.CoachAndStudentListing | backend/app.py:85-104 | with both: the coach's slots from today on that the student booked, and the available ones that clash with no booked slot of the coach or the student |
| SlotStore.StudentListingNotPast | backend/app.py:97-98 | whenever a student is given, nothing dated before today is listed |
| SlotStore.UnfilteredListing | backend/app.py:78-100 | with no filter, the whole table is listed in table order |
| SlotStore.Store.constructor | backend/models.py:23-31 | the store starts with the given persons and an empty slot table |
| SlotStore.Store.ToJson | backend/app.py:107-124 | a listed entry carries the row's id, coach, student, rating and notes, its start and end stamps, the coach's name and phone from the person table, and, exactly when the row is booked, the booking student's name and phone |
| SlotStore.Store.AddSlot | backend/app.py:60-70 | 201 and exactly one new unbooked row with a fresh id and the request's coach, date and times, with no overlap or duration check; 500 and no change when the coach is not a person |
| SlotStore.Store.BookSlot | backend/app.py:130-137 | 400 iff the slot is missing or already booked; on success only that slot's `booked_by` changes, and it can no longer be booked; otherwise nothing changes |
| SlotStore.Store.AddFeedback | backend/app.py:141-148 | always 201; the table becomes `WithFeedback` of the old table, booked or not, an unknown id changing nothing |
| SlotStore.KeepUnclashed | backend/app.py:41-52 | the append loop keeps exactly the available slots that clash with no booked slot, in input order |
| SlotStore.Store.FilterOverlappingSlots | backend/app.py:20-54 | the loop returns exactly `OverlapFiltered` of the candidates against the booked-slot query |
| SlotStore.Store.Select | backend/app.py:78-104 | the query and the overlap filter select exactly `SlotsFor` of the table |
| SlotStore.Store.Format | backend/app.py:107-124 | one `ToJson` entry per row, in order |
| SlotStore.Store.GetSlots | backend/app.py:74-126 | the response formats exactly the rows the filters and the overlap filter select, one entry per row, in order |
| CalendarRules.AnyClash | stepful-crud-app/src/dashboard/components/CalendarView.js:112-116 | true iff some displayed event shares an instant with the window |
| CalendarRules.EndsAfterCutoff | stepful-crud-app/src/dashboard/components/CalendarView.js:120-121 | a window ending on its start's date is refused iff its end's time of day is after 21:00:00; one ending on a later date is always refused |
| CalendarRules.CheckNewSlot | stepful-crud-app/src/dashboard/components/CalendarView.js:105-126 | accepted iff a coach is selected, nothing clashes and the window ends by 21:00; the accepted window is `[t, t+2h]`; the rejections come in the order coach, overlap, cutoff |
| CalendarRules.TouchingIsNoClash | stepful-crud-app/src/dashboard/components/CalendarView.js:112-117 | a window that only touches displayed events at an endpoint passes the overlap test |
| CalendarRules.CutoffByStartTime | stepful-crud-app/src/dashboard/components/CalendarView.js:119-123 | a new window is refused by the cutoff iff it starts after 19:00:00 |
| CalendarRules.NinePmBoundary | stepful-crud-app/src/dashboard/components/CalendarView.js:120-123 | a click at 19:00 passes the cutoff and a click at 19:30 is refused, on any day |
| CalendarRules.AcceptedWithinDay | stepful-crud-app/src/dashboard/components/CalendarView.js:108-123 | an accepted window ends on the date it starts, at 21:00 at the latest |
| CalendarRules.QueryFor | stepful-crud-app/src/dashboard/components/CalendarView.js:42-50 | no request iff nobody is selected; `coach_id` is present iff a coach is selected and `student_id` iff a student is, each with that person's id |
| CalendarRules.Counterpart | stepful-crud-app/src/dashboard/components/CalendarView.js:58-60 | the person an event names: the student for a booked slot in coach mode, the coach in every other case |
| CalendarRules.Title | stepful-crud-app/src/dashboard/components/CalendarView.js:58-60 | a booked title starts "Booked Slot ("; an available title is "Available Slot (" with the coach's name; every title ends with ")" |
| CalendarRules.TitleNamesCounterpart | stepful-crud-app/src/dashboard/components/CalendarView.js:58-60 | the title tells booked from available, and names the student for a booked slot in coach mode and the coach otherwise |
| CalendarRules.ColoursShowBooking | stepful-crud-app/src/dashboard/components/CalendarView.js:63-64 | the background and the border colour each depend only on, and reveal, the booked flag |
| CalendarRules.EventOf | stepful-crud-app/src/dashboard/components/CalendarView.js:56-66 | the event is booked iff the slot has a student; its title is `Title` of the slot in the mode; it keeps the slot's id and its start and end instants |
| CalendarRules.Events | stepful-crud-app/src/dashboard/components/CalendarView.js:56-66 | one event per listed slot, in order |
| CalendarRules.EventsAfterFetch | stepful-crud-app/src/dashboard/components/CalendarView.js:42-69 | with nobody selected the events become empty; a failed fetch keeps them; a reply replaces them with its events |
| CalendarRules.Preload | stepful-crud-app/src/dashboard/components/CalendarView.js:89-92 | the draft takes the slot's rating unless it is missing or 0, and its notes, or the empty string |
| CalendarRules.CreateRequest | stepful-crud-app/src/dashboard/components/CalendarView.js:146-151 | the POST body keeps the coach and the start instant; its end denotes the window's end iff the window ends on its start's date |
| DetailsDialog.FirstWord | stepful-crud-app/src/dashboard/components/BookingDetailsDialog.js:50 | the phone label is the prefix of the name up to its first space |
| DetailsDialog.PhoneLabel | stepful-crud-app/src/dashboard/components/BookingDetailsDialog.js:50 | the label is the part of the counterpart's name before its first space, and empty when there is no name |
| DetailsDialog.Render | stepful-crud-app/src/dashboard/components/BookingDetailsDialog.js:24-109 | nothing iff the slot is null; the student's name and phone in coach mode and the coach's otherwise; the phone label is `PhoneLabel` of that name; the feedback inputs and Submit only in coach mode, Submit enabled iff a rating is set |
| DetailsDialog.CanSubmit | stepful-crud-app/src/dashboard/components/BookingDetailsDialog.js:99-103 | Submit Feedback can be clicked iff the dialog is open on a slot in coach mode with a rating set |
| DetailsDialog.RatingChoices | stepful-crud-app/src/dashboard/components/BookingDetailsDialog.js:73-77 | the choices are exactly 1 to 5, in increasing order |
| DetailsDialog.WithRating | stepful-crud-app/src/dashboard/components/BookingDetailsDialog.js:68-69 | choosing a rating sets it and keeps the notes |
| DetailsDialog.WithNotes | stepful-crud-app/src/dashboard/components/BookingDetailsDialog.js:88-89 | typing notes sets them and keeps the rating |
| DetailsDialog.ChosenRatingEnablesSubmit | stepful-crud-app/src/dashboard/components/BookingDetailsDialog.js:65-102 | any rating from the select enables Submit Feedback in coach mode |
| DetailsDialog.NameMatchesTitle | stepful-crud-app/src/dashboard/components/BookingDetailsDialog.js:26-29 | for a booked slot, the dialog names the person the calendar title names |
| CalendarView.Calendar.constructor | stepful-crud-app/src/dashboard/components/CalendarView.js:27-75 | every state cell starts empty or closed, and the mount effect's fetch fills the events |
| CalendarView.Calendar.FetchSlots | stepful-crud-app/src/dashboard/components/CalendarView.js:42-70 | sends `QueryFor` of the selection, and the events become `EventsAfterFetch` of it |
| CalendarView.Calendar.ReceiveProps | stepful-crud-app/src/dashboard/components/CalendarView.js:73-75 | new props refetch iff a selection changed; otherwise the events are kept and no request is sent |
| CalendarView.Calendar.HandleEventClick | stepful-crud-app/src/dashboard/components/CalendarView.js:81-99 | booked: details dialog in the mode's role, with the draft preloaded in coach mode; available in student mode: booking dialog, or "select a student" with nothing opened; available in coach mode: no change |
| CalendarView.Calendar.DateClick | stepful-crud-app/src/dashboard/components/CalendarView.js:105-126 | outside coach mode nothing happens; in coach mode the creation dialog opens on the window iff `CheckNewSlot` accepts it, and a refusal alerts and leaves the dialog as it was |
| CalendarView.Calendar.CloseBookingDialog | stepful-crud-app/src/dashboard/components/CalendarView.js:182 | the booking dialog becomes closed with no slot |
| CalendarView.Calendar.CloseCreationDialog | stepful-crud-app/src/dashboard/components/CalendarView.js:196 | the creation dialog becomes closed with no window |
| CalendarView.Calendar.CloseDetailsDialog | stepful-crud-app/src/dashboard/components/CalendarView.js:215 | the details dialog is hidden, keeping its slot and role |
| CalendarView.Calendar.ConfirmBooking | stepful-crud-app/src/dashboard/components/CalendarView.js:131-140 | PUTs the dialog's slot for the selected student; success closes the dialog and refetches; failure alerts and keeps it open |
| CalendarView.Calendar.ConfirmCreation | stepful-crud-app/src/dashboard/components/CalendarView.js:145-160 | POSTs `CreateRequest` for the selected coach; success closes the dialog and refetches; failure keeps it open with no alert |
| CalendarView.Calendar.SubmitFeedback | stepful-crud-app/src/dashboard/components/CalendarView.js:220-235 | only when Submit is enabled: POSTs the draft; success alerts, resets the draft, refetches and hides the dialog keeping its slot; failure alerts and changes nothing |
| CalendarView.Calendar.EditRating | stepful-crud-app/src/dashboard/components/BookingDetailsDialog.js:68-69 | the draft's rating becomes the choice and its notes are kept |
| CalendarView.Calendar.EditNotes | stepful-crud-app/src/dashboard/components/BookingDetailsDialog.js:88-89 | the draft's notes become the text and its rating is kept |
| Dashboard.WithRole | stepful-crud-app/src/dashboard/index.js:35-36 | exactly the fetched persons with that role, with no extra copies |
| Dashboard.RolesPartition | stepful-crud-app/src/dashboard/index.js:35-36 | nobody is both a student and a coach; every student and coach lands in their own list; any other role lands in neither |
| Dashboard.Page.constructor | stepful-crud-app/src/dashboard/index.js:20-28 | coach mode, nobody selected, no slot type, empty lists, an empty calendar |
| Dashboard.Page.ReceivePersons | stepful-crud-app/src/dashboard/index.js:32-39 | a reply sets the two role lists; a failed fetch leaves both as they were (empty after mounting) |
| Dashboard.Page.SelectorLists | stepful-crud-app/src/dashboard/index.js:74-75 | the student list goes to the selectors iff in student mode; the coach list always does |
| Dashboard.Page.HandleModeChange | stepful-crud-app/src/dashboard/index.js:41-53 | a null toggle or the current mode changes nothing; a new mode clears both selections and the slot type, so the calendar shows no events, and leaves the calendar's dialogs and draft alone |
| Dashboard.Page.SelectCoach | stepful-crud-app/src/dashboard/index.js:79-91 | the coach becomes the calendar's prop, and the calendar refetches iff the choice changed; its dialogs and draft are untouched |
| Dashboard.Page.SelectStudent | stepful-crud-app/src/dashboard/index.js:77-91 | the student becomes the calendar's prop, and the calendar refetches iff the choice changed; its dialogs and draft are untouched |
| Dashboard.CoachModeQueriesByCoach | stepful-crud-app/src/dashboard/index.js:74 | in coach mode no slot query carries a student id |
| RoundTrip.AcceptedWindowIsStored | backend/app.py:60-67 | an accepted window is stored as an unbooked row of the coach that starts and ends at the window's instants |
| RoundTrip.AcceptedWindowIsDrawn | backend/app.py:112-115 | listed back, that row is drawn as an available event at exactly the clicked window |
| RoundTrip.MidnightWindowIsNotKept | stepful-crud-app/src/dashboard/components/CalendarView.js:149-151 | every two-hour window that crosses midnight would be stored ending before it starts, and the cutoff refuses every such window |

## Left out

- Rendering is not modelled: React, MUI, FullCalendar, the dialog markup
  and the `hh:mm A` display formats. The calendar's visible range
  (09:00-21:00, no weekends) is left out too, because clicks are taken as
  given instants.
- The `loading` spinner and overlapping fetches are not modelled. Each
  request completes at once, in the order the handlers issue it, so the
  race where the last of several `fetchSlots` replies wins is not covered.
- axios, the URLs, Flask routing and CORS, and SQLAlchemy sessions are
  plumbing. Each endpoint is a method on the in-memory `Store`, and each
  client request is a returned value.
- `get_persons` is not modelled beyond the `Person` record it sends. It
  only lists the person table.
- `backend/seed.py`, `backend/config.py`, `src/App.js`, `src/index.js`,
  `src/context/index.js` and `PersonSelectors.js` are not part of this
  model: they hold bootstrap data, routing and dropdown rendering.
- Time zones, daylight saving, milliseconds and the wall clock are not
  modelled:
  - time is whole seconds of local time;
  - "today" is a parameter;
  - dayjs keeps the milliseconds of a click in its 21:00 comparison,
    which the model drops.
- Request fields the server cannot parse are not modelled (a missing key,
  a malformed date, a non-integer id). The model only builds well-typed
  requests.
- The database's ordering of query results is not modelled: the table is
  listed in insertion order. The id sequence advancing on a failed insert
  is not modelled either.
- `SlotStore.Store.BookSlot` and `SlotStore.Store.AddSlot` return 500 and
  change nothing when the student or coach is not a person. This is the
  database's foreign-key check (`backend/models.py` lines 25 and 29) made
  explicit; `app.py` itself has no such branch.
- `CalendarView.Calendar.ConfirmCreation`: a failed create only logs to the
  console and shows no alert. The model follows `CalendarView.js` lines
  157-159 on this point.
- `CalendarView.Calendar.SubmitFeedback` covers every draft. When
  `DetailsDialog.CanSubmit` is false, which is when the button is disabled,
  it sends nothing and changes nothing.
- The dashboard's `slotType` cell is only ever reset, when the mode changes.
  `setSlotType` is handed to `PersonSelectors`, which never calls it, so no
  user action sets a slot type and no operation models one.
- The alert text "Slot must end before 9:00 PM" is not what the cutoff test
  does: a slot ending exactly at 21:00 is accepted (see
  `CalendarRules.NinePmBoundary`).
