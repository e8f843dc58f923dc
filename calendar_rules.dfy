/** The pure rules inside the calendar component
    (stepful-crud-app/src/dashboard/components/CalendarView.js): the fixed
    two-hour window of a new slot, the overlap test against the displayed
    events, the 21:00 cutoff, the slot query, and how a listed slot becomes a
    calendar event. */
module CalendarRules {
  import opened Time
  import opened Records

  /** Every slot created from the calendar lasts two hours. */
  const SLOT_LENGTH: int := 2 * HOUR
  /** No slot may end after 21:00:00 of the day it starts on. */
  const LATEST_END: int := 21 * HOUR

  /** A candidate slot `{start, end}` held by the creation dialog. */
  datatype Window = Window(start: int, end: int)

  /** A calendar event built from a listed slot; `slot` and `isBooked` are its
      extendedProps. */
  datatype Event = Event(
    id: Id,
    title: string,
    start: int,
    end: int,
    backgroundColor: string,
    borderColor: string,
    slot: SlotJson,
    isBooked: bool)

  /** The messages the component shows with `alert`. */
  datatype Notice =
    | SelectStudentFirst   // "Select a student first."
    | SelectCoachFirst     // "Please select a coach first."
    | Overlapping          // "Overlapping with existing slot"
    | EndsAfterNinePm      // "Slot must end before 9:00 PM"
    | BookingFailed        // "Failed to book slot."
    | FeedbackSubmitted    // "Feedback submitted!"
    | FeedbackFailed       // "Failed to submit feedback."

  /** The `feedback` state cell `{rating, notes}`; a rating of None stands for
      the empty string the cell starts with. */
  datatype Draft = Draft(rating: Option<int>, notes: string)

  /** The feedback draft after a reset: `{rating: "", notes: ""}`. */
  const EMPTY_DRAFT: Draft := Draft(None, "")

  /** What a date click decides: open the creation dialog on a window, or
      refuse with a notice. */
  datatype Verdict = Accept(window: Window) | Reject(notice: Notice)

  /** The window a click at instant `t` proposes: `t` to two hours later. */
  function NewWindow(t: int): Window
  {
    Window(t, t + SLOT_LENGTH)
  }

  /** `startTime < eventEnd && endTime > eventStart`: the half-open intervals
      share an instant. */
  predicate Clashes(w: Window, e: Event)
  {
    w.start < e.end && w.end > e.start
  }

  /** `events.some(...)` with the clash test. */
  function AnyClash(events: seq<Event>, w: Window): (r: bool)
    ensures r <==> exists e :: e in events && Clashes(w, e)
  {
    if events == [] then false
    else Clashes(w, events[0]) || AnyClash(events[1..], w)
  }

  /** `dayjs(endTime).isAfter(dayjs(startTime).hour(21).minute(0).second(0))`. */
  predicate EndsAfterCutoff(w: Window)
    ensures DateOf(w.end) == DateOf(w.start) ==> (EndsAfterCutoff(w) <==> TimeOf(w.end) > LATEST_END)
    ensures DateOf(w.end) > DateOf(w.start) ==> EndsAfterCutoff(w)
  {
    w.end > DayStart(w.start) + LATEST_END
  }

  /** handleDateClick's checks, in their order: a coach must be selected, the
      window must not clash with a displayed event, and it must not end after
      21:00 on its start's day. */
  function CheckNewSlot(coachSelected: bool, events: seq<Event>, t: int): (r: Verdict)
    ensures r.Accept? <==>
      coachSelected && !AnyClash(events, NewWindow(t)) && !EndsAfterCutoff(NewWindow(t))
    ensures r.Accept? ==> r.window.start == t && r.window.end == t + 2 * HOUR
    ensures !coachSelected ==> r == Reject(SelectCoachFirst)
    ensures coachSelected && AnyClash(events, NewWindow(t)) ==> r == Reject(Overlapping)
    ensures coachSelected && !AnyClash(events, NewWindow(t)) && EndsAfterCutoff(NewWindow(t)) ==>
      r == Reject(EndsAfterNinePm)
  {
    if !coachSelected then Reject(SelectCoachFirst)
    else if AnyClash(events, NewWindow(t)) then Reject(Overlapping)
    else if EndsAfterCutoff(NewWindow(t)) then Reject(EndsAfterNinePm)
    else Accept(NewWindow(t))
  }

  /** A window that only touches the displayed events at an endpoint passes
      the overlap test. */
  lemma {:induction false} TouchingIsNoClash(events: seq<Event>, w: Window)
    requires forall i :: 0 <= i < |events| ==> events[i].end <= w.start || events[i].start >= w.end
    ensures !AnyClash(events, w)
  {
    if events != [] {
      TouchingIsNoClash(events[1..], w);
    }
  }

  /** The cutoff check refuses a fresh window exactly when it starts after
      19:00:00. */
  lemma CutoffByStartTime(t: int)
    ensures EndsAfterCutoff(NewWindow(t)) <==> TimeOf(t) > 19 * HOUR
  {
  }

  /** On any day, a click at 19:00 ends at 21:00 and passes the cutoff; a click
      at 19:30 ends at 21:30 and is refused. */
  lemma NinePmBoundary(date: int)
    ensures !EndsAfterCutoff(NewWindow(Instant(Stamp(date, 19 * HOUR))))
    ensures EndsAfterCutoff(NewWindow(Instant(Stamp(date, 19 * HOUR + 30 * 60))))
  {
    StampOfInstant(Stamp(date, 19 * HOUR));
    StampOfInstant(Stamp(date, 19 * HOUR + 30 * 60));
    CutoffByStartTime(Instant(Stamp(date, 19 * HOUR)));
    CutoffByStartTime(Instant(Stamp(date, 19 * HOUR + 30 * 60)));
  }

  /** An accepted window ends on the date it starts, at 21:00 at the latest. */
  lemma AcceptedWithinDay(coachSelected: bool, events: seq<Event>, t: int)
    requires CheckNewSlot(coachSelected, events, t).Accept?
    ensures var w := CheckNewSlot(coachSelected, events, t).window;
      DateOf(w.end) == DateOf(w.start) && TimeOf(w.end) <= LATEST_END
  {
    var w := NewWindow(t);
    DivModUnique(w.end, DateOf(t), TimeOf(t) + SLOT_LENGTH);
  }

  /** A window the creation dialog may hold: two hours long and ending by
      21:00 on its start's day. */
  predicate Admissible(w: Window)
  {
    w.end == w.start + SLOT_LENGTH && !EndsAfterCutoff(w)
  }

  /** The GET /slots query fetchSlots sends: none at all when nobody is
      selected, otherwise `coach_id` exactly when a coach is selected and
      `student_id` exactly when a student is. */
  function QueryFor(coach: Option<Person>, student: Option<Person>): (r: Option<SlotQuery>)
    ensures r.None? <==> coach.None? && student.None?
    ensures r.Some? ==> (r.value.coachId.Some? <==> coach.Some?) && (r.value.studentId.Some? <==> student.Some?)
    ensures r.Some? && coach.Some? ==> r.value.coachId.value == coach.value.id
    ensures r.Some? && student.Some? ==> r.value.studentId.value == student.value.id
  {
    if coach.None? && student.None? then None
    else Some(SlotQuery(
      if coach.Some? then Some(coach.value.id) else None,
      if student.Some? then Some(student.value.id) else None))
  }

  /** The person an event is about: for a booked slot the student in coach
      mode and the coach otherwise; for an available slot the coach. */
  function Counterpart(s: SlotJson, mode: Mode): (r: Option<string>)
    ensures s.studentId.None? || mode == Student ==> r == Some(s.coachName)
    ensures s.studentId.Some? && mode == Coach ==> r == s.studentName
  {
    if s.studentId.Some? && mode == Coach then s.studentName else Some(s.coachName)
  }

  /** How a JavaScript template literal writes a possibly-null name. */
  function Shown(name: Option<string>): string
  {
    if name.Some? then name.value else "null"
  }

  const BOOKED_PREFIX: string := "Booked Slot ("
  const AVAILABLE_PREFIX: string := "Available Slot ("

  /** The event title: "Booked Slot (<name>)" or "Available Slot (<coach>)". */
  function Title(s: SlotJson, mode: Mode): (r: string)
    ensures s.studentId.Some? ==> BOOKED_PREFIX <= r
    ensures s.studentId.None? ==> r == AVAILABLE_PREFIX + s.coachName + ")"
    ensures |r| > 0 && r[|r| - 1] == ')'
  {
    (if s.studentId.Some? then BOOKED_PREFIX else AVAILABLE_PREFIX) + Shown(Counterpart(s, mode)) + ")"
  }

  /** Reads a title back as (booked?, name); None when it is neither form. */
  function ParseTitle(title: string): Option<(bool, string)>
  {
    if |title| > |BOOKED_PREFIX| && title[..|BOOKED_PREFIX|] == BOOKED_PREFIX && title[|title| - 1] == ')' then
      Some((true, title[|BOOKED_PREFIX|..|title| - 1]))
    else if |title| > |AVAILABLE_PREFIX| && title[..|AVAILABLE_PREFIX|] == AVAILABLE_PREFIX && title[|title| - 1] == ')' then
      Some((false, title[|AVAILABLE_PREFIX|..|title| - 1]))
    else None
  }

  /** A title says whether the slot is booked and names its counterpart:
      reading it back gives exactly those two. */
  lemma TitleNamesCounterpart(s: SlotJson, mode: Mode)
    ensures ParseTitle(Title(s, mode)) == Some((s.studentId.Some?, Shown(Counterpart(s, mode))))
  {
    var name := Shown(Counterpart(s, mode));
    var t := Title(s, mode);
    if s.studentId.Some? {
      assert t == BOOKED_PREFIX + name + ")";
      assert t[..|BOOKED_PREFIX|] == BOOKED_PREFIX;
      assert t[|BOOKED_PREFIX|..|t| - 1] == name;
    } else {
      assert t == AVAILABLE_PREFIX + name + ")";
      assert t[..|BOOKED_PREFIX|] != BOOKED_PREFIX by {
        assert t[0] == 'A';
      }
      assert t[..|AVAILABLE_PREFIX|] == AVAILABLE_PREFIX;
      assert t[|AVAILABLE_PREFIX|..|t| - 1] == name;
    }
  }

  /** The background colour of an event: blue when booked, green otherwise. */
  function BackgroundColor(booked: bool): string
  {
    if booked then "#2196F3" else "#4CAF50"
  }

  /** The border colour of an event: dark blue when booked, dark green otherwise. */
  function BorderColor(booked: bool): string
  {
    if booked then "#1976D2" else "#388E3C"
  }

  /** The colours tell booked and available events apart, and nothing else
      about them. */
  lemma ColoursShowBooking(a: bool, b: bool)
    ensures BackgroundColor(a) == BackgroundColor(b) <==> a == b
    ensures BorderColor(a) == BorderColor(b) <==> a == b
  {
    assert "#2196F3"[1] != "#4CAF50"[1];
    assert "#1976D2"[2] != "#388E3C"[2];
  }

  /** The event fetchSlots makes of one listed slot. */
  function EventOf(s: SlotJson, mode: Mode): (e: Event)
    ensures e.isBooked <==> s.studentId.Some?
    ensures e.id == s.id && e.slot == s
    ensures e.title == Title(s, mode)
    ensures e.start == Instant(s.start) && e.end == Instant(s.end)
    ensures WellFormed(e)
  {
    var booked := s.studentId.Some?;
    Event(s.id, Title(s, mode), Instant(s.start), Instant(s.end),
          BackgroundColor(booked), BorderColor(booked), s, booked)
  }

  /** `res.data.map(...)`: one event per listed slot, in order. */
  function Events(data: seq<SlotJson>, mode: Mode): (r: seq<Event>)
    ensures |r| == |data|
    ensures forall i :: 0 <= i < |data| ==> r[i] == EventOf(data[i], mode)
  {
    seq(|data|, i requires 0 <= i < |data| => EventOf(data[i], mode))
  }

  /** The events after a fetch that sent `query` and got `reply`: none when no
      query was sent, the reply's events when it came, and the previous events
      when the request failed. */
  function EventsAfterFetch(previous: seq<Event>, query: Option<SlotQuery>, reply: Option<seq<SlotJson>>, mode: Mode): (r: seq<Event>)
    ensures query.None? ==> r == []
    ensures query.Some? && reply.None? ==> r == previous
    ensures query.Some? && reply.Some? ==> |r| == |reply.value| && forall i :: 0 <= i < |r| ==> r[i] == EventOf(reply.value[i], mode)
  {
    if query.None? then []
    else if reply.Some? then Events(reply.value, mode)
    else previous
  }

  /** An event is well formed when its booked flag, colours and title are the
      ones its slot determines. */
  predicate WellFormed(e: Event)
  {
    && e.isBooked == e.slot.studentId.Some?
    && e.backgroundColor == BackgroundColor(e.isBooked)
    && e.borderColor == BorderColor(e.isBooked)
  }

  /** The feedback draft handleEventClick loads from a booked slot:
      `rating || ""` and `notes || ""`. */
  function Preload(s: SlotJson): (d: Draft)
    ensures d.rating.Some? <==> s.rating.Some? && s.rating.value != 0
    ensures d.rating.Some? ==> d.rating == s.rating
    ensures s.notes.Some? ==> d.notes == s.notes.value
    ensures s.notes.None? ==> d.notes == ""
  {
    Draft(
      if s.rating.Some? && s.rating.value != 0 then s.rating else None,
      if s.notes.Some? then s.notes.value else "")
  }

  /** The POST /slots/add body handleCreateSlot sends for a window:
      the start's date, the start's time and the end's time. */
  function CreateRequest(coachId: Id, w: Window): (r: AddSlotRequest)
    ensures r.coachId == coachId
    ensures Instant(Stamp(r.date, r.timeStart)) == w.start
    ensures Instant(Stamp(r.date, r.timeEnd)) == w.end <==> DateOf(w.end) == DateOf(w.start)
  {
    var start := StampOf(w.start);
    InstantOnDate(w.end, start.date);
    AddSlotRequest(coachId, start.date, start.time, StampOf(w.end).time)
  }
}
