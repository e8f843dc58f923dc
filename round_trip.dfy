/** How the client's two-hour window travels to the server and back: the
    body handleCreateSlot posts (CalendarView.js), the row add_slot stores
    and the entry get_slots lists (backend/app.py), and the event the
    calendar draws from it. */
module RoundTrip {
  import opened Time
  import opened Records
  import opened CalendarRules
  import opened SlotStore

  /** A window the calendar accepts is stored as a row that starts and ends
      at the window's own instants, belongs to the selected coach and is not
      booked. */
  lemma {:induction false} AcceptedWindowIsStored(coachSelected: bool, events: seq<Event>, t: int, coachId: Id, id: Id)
    requires CheckNewSlot(coachSelected, events, t).Accept?
    ensures var w := CheckNewSlot(coachSelected, events, t).window;
      var row := NewRow(id, CreateRequest(coachId, w));
      && Instant(StartStamp(row)) == w.start
      && Instant(EndStamp(row)) == w.end
      && row.coachId == coachId && !IsBooked(row)
  {
    AcceptedWithinDay(coachSelected, events, t);
  }

  /** Listed back and drawn, that row is an available event at exactly the
      window the coach clicked. */
  lemma {:induction false} AcceptedWindowIsDrawn(store: SlotStore.Store, coachSelected: bool, events: seq<Event>, t: int, coachId: Id, id: Id, mode: Mode)
    requires CheckNewSlot(coachSelected, events, t).Accept?
    requires coachId in store.persons
    ensures var w := CheckNewSlot(coachSelected, events, t).window;
      var e := EventOf(store.ToJson(NewRow(id, CreateRequest(coachId, w))), mode);
      e.start == w.start && e.end == w.end && !e.isBooked
  {
    AcceptedWindowIsStored(coachSelected, events, t, coachId, id);
  }

  /** The request keeps only the end's time of day, so any window that
      crossed midnight would be stored ending on its start's date, before it
      starts. The 21:00 cutoff refuses every such window before it is
      posted. */
  lemma MidnightWindowIsNotKept(t: int, coachId: Id, id: Id)
    requires DateOf(t + SLOT_LENGTH) != DateOf(t)
    ensures var w := NewWindow(t);
      var row := NewRow(id, CreateRequest(coachId, w));
      && EndsAfterCutoff(w)
      && Instant(EndStamp(row)) != w.end
      && Instant(EndStamp(row)) < Instant(StartStamp(row))
  {
    var w := NewWindow(t);
    DivModUnique(w.end, DateOf(t) + 1, TimeOf(t) + SLOT_LENGTH - DAY);
  }
}
