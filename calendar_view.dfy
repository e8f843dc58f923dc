/** The calendar component's state and handlers
    (stepful-crud-app/src/dashboard/components/CalendarView.js). Each
    `useState` cell is a field; the props `mode`, `selectedCoach` and
    `selectedStudent` are fields the parent sets through ReceiveProps. A call
    to the server is modelled by its outcome, passed in: `put`/`post` for a
    mutation, `reply` for the list the refetch gets (None when that request
    fails). Handlers return the request they send and the alert they show. */
module CalendarView {
  import opened Records
  import opened CalendarRules
  import DetailsDialog

  /** `bookingDialog`: the booking confirmation and the event it books. */
  datatype BookingDialog = BookingDialog(open: bool, slot: Option<Event>)
  /** `creatingSlot`: the creation dialog and the window it creates. */
  datatype CreationDialog = CreationDialog(open: bool, slot: Option<Window>)
  /** `viewDialog`: the booking details dialog, its event and the role it was
      opened with. */
  datatype ViewDialog = ViewDialog(open: bool, slot: Option<Event>, role: Option<Mode>)

  const BOOKING_CLOSED: BookingDialog := BookingDialog(false, None)
  const CREATION_CLOSED: CreationDialog := CreationDialog(false, None)

  class Calendar {
    var mode: Mode
    var selectedCoach: Option<Person>
    var selectedStudent: Option<Person>

    var events: seq<Event>
    var bookingDialog: BookingDialog
    var viewDialog: ViewDialog
    var creatingSlot: CreationDialog
    var feedback: Draft

    predicate NothingSelected()
      reads this
    {
      selectedCoach.None? && selectedStudent.None?
    }

    /** With nobody selected the calendar shows nothing; every event is the
        one its slot determines; the booking dialog only ever holds an
        available event, the details dialog a booked one, and the creation
        dialog an admissible window. */
    ghost predicate Valid()
      reads this
    {
      && (NothingSelected() ==> events == [])
      && StateValid()
    }

    /** Valid() but for the link between the selection and the events. */
    ghost predicate StateValid()
      reads this
    {
      && (forall e :: e in events ==> WellFormed(e))
      && (bookingDialog.open ==> bookingDialog.slot.Some?)
      && (bookingDialog.slot.Some? ==> !bookingDialog.slot.value.isBooked)
      && (creatingSlot.open ==> creatingSlot.slot.Some?)
      && (creatingSlot.slot.Some? ==> Admissible(creatingSlot.slot.value))
      && (viewDialog.open ==> viewDialog.slot.Some?)
      && (viewDialog.slot.Some? ==> viewDialog.slot.value.isBooked && viewDialog.role.Some?)
    }

    /** Mounting: every cell at its initial value, then the first fetch. */
    constructor (mode: Mode, coach: Option<Person>, student: Option<Person>, reply: Option<seq<SlotJson>>)
      ensures Valid()
      ensures this.mode == mode && selectedCoach == coach && selectedStudent == student
      ensures events == EventsAfterFetch([], QueryFor(coach, student), reply, mode)
      ensures bookingDialog == BOOKING_CLOSED && creatingSlot == CREATION_CLOSED
      ensures viewDialog == ViewDialog(false, None, None) && feedback == EMPTY_DRAFT
    {
      this.mode := mode;
      selectedCoach := coach;
      selectedStudent := student;
      events := [];
      bookingDialog := BOOKING_CLOSED;
      viewDialog := ViewDialog(false, None, None);
      creatingSlot := CREATION_CLOSED;
      feedback := EMPTY_DRAFT;
      new;
      var _ := FetchSlots(reply);
    }

    /** fetchSlots: with nobody selected the events become empty and no
        request is sent; otherwise GET /slots with the selection's ids, and
        the reply's slots become the events. */
    method FetchSlots(reply: Option<seq<SlotJson>>) returns (query: Option<SlotQuery>)
      requires StateValid()
      modifies this`events
      ensures Valid()
      ensures query == QueryFor(selectedCoach, selectedStudent)
      ensures events == EventsAfterFetch(old(events), query, reply, mode)
    {
      query := QueryFor(selectedCoach, selectedStudent);
      if query.None? {
        events := [];
        return;
      }
      if reply.Some? {
        events := Events(reply.value, mode);
      }
    }

    /** A render with new props: the effect keyed on the two selections
        refetches exactly when one of them changed. */
    method ReceiveProps(newMode: Mode, coach: Option<Person>, student: Option<Person>, reply: Option<seq<SlotJson>>)
      returns (query: Option<SlotQuery>)
      requires Valid()
      modifies this`mode, this`selectedCoach, this`selectedStudent, this`events
      ensures Valid()
      ensures mode == newMode && selectedCoach == coach && selectedStudent == student
      ensures coach == old(selectedCoach) && student == old(selectedStudent) ==>
        query.None? && events == old(events)
      ensures coach != old(selectedCoach) || student != old(selectedStudent) ==>
        query == QueryFor(coach, student) && events == EventsAfterFetch(old(events), query, reply, newMode)
    {
      var changed := coach != selectedCoach || student != selectedStudent;
      mode, selectedCoach, selectedStudent := newMode, coach, student;
      query := None;
      if changed {
        query := FetchSlots(reply);
      }
    }

    /** handleEventClick: a booked event opens the details dialog in the
        current mode's role (in coach mode after loading its rating and notes
        into the draft); an available event opens the booking dialog in
        student mode once a student is selected, and is ignored in coach
        mode. */
    method HandleEventClick(ev: Event) returns (notice: Option<Notice>)
      requires Valid() && ev in events
      modifies this`viewDialog, this`feedback, this`bookingDialog
      ensures Valid()
      ensures ev.isBooked ==>
        && viewDialog == ViewDialog(true, Some(ev), Some(mode))
        && feedback == (if mode == Coach then Preload(ev.slot) else old(feedback))
        && bookingDialog == old(bookingDialog) && notice.None?
      ensures !ev.isBooked && mode == Student && selectedStudent.Some? ==>
        && bookingDialog == BookingDialog(true, Some(ev))
        && viewDialog == old(viewDialog) && feedback == old(feedback) && notice.None?
      ensures !ev.isBooked && mode == Student && selectedStudent.None? ==>
        && notice == Some(SelectStudentFirst)
        && bookingDialog == old(bookingDialog) && viewDialog == old(viewDialog) && feedback == old(feedback)
      ensures !ev.isBooked && mode == Coach ==>
        && notice.None?
        && bookingDialog == old(bookingDialog) && viewDialog == old(viewDialog) && feedback == old(feedback)
    {
      notice := None;
      if ev.isBooked {
        match mode
        case Student =>
          viewDialog := ViewDialog(true, Some(ev), Some(Student));
        case Coach =>
          feedback := Preload(ev.slot);
          viewDialog := ViewDialog(true, Some(ev), Some(Coach));
      } else if mode == Student {
        if selectedStudent.None? {
          return Some(SelectStudentFirst);
        }
        bookingDialog := BookingDialog(true, Some(ev));
      }
    }

    /** A click on an empty cell: the calendar only binds handleDateClick in
        coach mode; there the window opens the creation dialog exactly when
        CheckNewSlot accepts it, and a refusal leaves the dialog as it was. */
    method DateClick(t: int) returns (notice: Option<Notice>)
      requires Valid()
      modifies this`creatingSlot
      ensures Valid()
      ensures mode != Coach ==> notice.None? && creatingSlot == old(creatingSlot)
      ensures mode == Coach && CheckNewSlot(selectedCoach.Some?, events, t).Accept? ==>
        creatingSlot == CreationDialog(true, Some(CheckNewSlot(selectedCoach.Some?, events, t).window))
        && notice.None?
      ensures mode == Coach && CheckNewSlot(selectedCoach.Some?, events, t).Reject? ==>
        creatingSlot == old(creatingSlot)
        && notice == Some(CheckNewSlot(selectedCoach.Some?, events, t).notice)
    {
      if mode != Coach {
        return None;
      }
      var verdict := CheckNewSlot(selectedCoach.Some?, events, t);
      match verdict
      case Reject(n) =>
        notice := Some(n);
      case Accept(w) =>
        creatingSlot := CreationDialog(true, Some(w));
        notice := None;
    }

    /** Cancel or backdrop click on the booking dialog. */
    method CloseBookingDialog()
      requires Valid()
      modifies this`bookingDialog
      ensures Valid() && bookingDialog == BOOKING_CLOSED
    {
      bookingDialog := BOOKING_CLOSED;
    }

    /** Cancel or backdrop click on the creation dialog. */
    method CloseCreationDialog()
      requires Valid()
      modifies this`creatingSlot
      ensures Valid() && creatingSlot == CREATION_CLOSED
    {
      creatingSlot := CREATION_CLOSED;
    }

    /** Close on the details dialog: hidden, its event and role kept; the
        feedback draft is left as it is. */
    method CloseDetailsDialog()
      requires Valid()
      modifies this`viewDialog
      ensures Valid() && viewDialog == old(viewDialog).(open := false)
    {
      viewDialog := viewDialog.(open := false);
    }

    /** handleBookSlot (Confirm in the booking dialog): PUT the booking; on
        success close the dialog and refetch, on failure alert and keep the
        dialog open. */
    method ConfirmBooking(put: HttpResult, reply: Option<seq<SlotJson>>)
      returns (request: BookRequest, query: Option<SlotQuery>, notice: Option<Notice>)
      requires Valid() && bookingDialog.open && selectedStudent.Some?
      modifies this`bookingDialog, this`events
      ensures Valid()
      ensures request == BookRequest(old(bookingDialog).slot.value.id, selectedStudent.value.id)
      ensures put.Succeeded() ==>
        && bookingDialog == BOOKING_CLOSED && notice.None?
        && query == QueryFor(selectedCoach, selectedStudent)
        && events == EventsAfterFetch(old(events), query, reply, mode)
      ensures !put.Succeeded() ==>
        && bookingDialog == old(bookingDialog) && notice == Some(BookingFailed)
        && query.None? && events == old(events)
    {
      request := BookRequest(bookingDialog.slot.value.id, selectedStudent.value.id);
      query, notice := None, None;
      if put.Succeeded() {
        bookingDialog := BOOKING_CLOSED;
        query := FetchSlots(reply);
      } else {
        notice := Some(BookingFailed);
      }
    }

    /** handleCreateSlot (Create in the creation dialog): POST the window's
        date and times for the selected coach; on success close the dialog
        and refetch; on failure the error is only logged and the dialog stays
        open. */
    method ConfirmCreation(post: HttpResult, reply: Option<seq<SlotJson>>)
      returns (request: AddSlotRequest, query: Option<SlotQuery>)
      requires Valid() && creatingSlot.open && selectedCoach.Some?
      modifies this`creatingSlot, this`events
      ensures Valid()
      ensures request == CreateRequest(selectedCoach.value.id, old(creatingSlot).slot.value)
      ensures post.Succeeded() ==>
        && creatingSlot == CREATION_CLOSED
        && query == QueryFor(selectedCoach, selectedStudent)
        && events == EventsAfterFetch(old(events), query, reply, mode)
      ensures !post.Succeeded() ==>
        creatingSlot == old(creatingSlot) && query.None? && events == old(events)
    {
      request := CreateRequest(selectedCoach.value.id, creatingSlot.slot.value);
      query := None;
      if post.Succeeded() {
        creatingSlot := CREATION_CLOSED;
        query := FetchSlots(reply);
      }
    }

    /** Submit Feedback in the details dialog: clickable only while the
        dialog is open in coach mode with a rating set. POST the draft; on
        success alert, reset the draft, refetch and hide the dialog keeping
        its event; on failure alert and change nothing. */
    method SubmitFeedback(post: HttpResult, reply: Option<seq<SlotJson>>)
      returns (request: Option<FeedbackRequest>, query: Option<SlotQuery>, notice: Option<Notice>)
      requires Valid()
      modifies this`feedback, this`viewDialog, this`events
      ensures Valid()
      ensures !old(DetailsDialog.CanSubmit(viewDialog.open, viewDialog.slot, mode, feedback)) ==>
        && request.None? && query.None? && notice.None?
        && feedback == old(feedback) && viewDialog == old(viewDialog) && events == old(events)
      ensures old(DetailsDialog.CanSubmit(viewDialog.open, viewDialog.slot, mode, feedback)) ==>
        && mode == Coach
        && request == Some(FeedbackRequest(old(viewDialog).slot.value.id, old(feedback).rating.value, old(feedback).notes))
      ensures old(DetailsDialog.CanSubmit(viewDialog.open, viewDialog.slot, mode, feedback)) && post.Succeeded() ==>
        && notice == Some(FeedbackSubmitted) && feedback == EMPTY_DRAFT
        && viewDialog == old(viewDialog).(open := false)
        && query == QueryFor(selectedCoach, selectedStudent)
        && events == EventsAfterFetch(old(events), query, reply, mode)
      ensures old(DetailsDialog.CanSubmit(viewDialog.open, viewDialog.slot, mode, feedback)) && !post.Succeeded() ==>
        && notice == Some(FeedbackFailed) && query.None?
        && feedback == old(feedback) && viewDialog == old(viewDialog) && events == old(events)
    {
      request, query, notice := None, None, None;
      if !DetailsDialog.CanSubmit(viewDialog.open, viewDialog.slot, mode, feedback) {
        return;
      }
      request := Some(FeedbackRequest(viewDialog.slot.value.id, feedback.rating.value, feedback.notes));
      if post.Succeeded() {
        notice := Some(FeedbackSubmitted);
        feedback := EMPTY_DRAFT;
        query := FetchSlots(reply);
        viewDialog := viewDialog.(open := false);
      } else {
        notice := Some(FeedbackFailed);
      }
    }

    /** A choice in the rating select: the rating changes, the notes do not. */
    method EditRating(rating: int)
      requires Valid() && rating in DetailsDialog.RatingChoices()
      modifies this`feedback
      ensures Valid() && feedback == DetailsDialog.WithRating(old(feedback), rating)
    {
      feedback := DetailsDialog.WithRating(feedback, rating);
    }

    /** Typing in the notes field: the notes change, the rating does not. */
    method EditNotes(notes: string)
      requires Valid()
      modifies this`feedback
      ensures Valid() && feedback == DetailsDialog.WithNotes(old(feedback), notes)
    {
      feedback := DetailsDialog.WithNotes(feedback, notes);
    }
  }
}
