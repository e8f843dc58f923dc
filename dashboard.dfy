/** The dashboard page (stepful-crud-app/src/dashboard/index.js): the Coach
    View / Student View toggle, the selected coach and student, the person
    lists split by role, and the calendar it renders with those as props. */
module Dashboard {
  import opened Records
  import opened Seqs
  import opened CalendarRules
  import opened CalendarView

  /** `res.data.filter((p) => p.role === role)`: the persons with that role,
      in the order they were fetched. */
  function WithRole(persons: seq<Person>, role: string): (r: seq<Person>)
    ensures forall p :: p in r <==> p in persons && p.role == role
    ensures multiset(r) <= multiset(persons)
  {
    Filter(persons, (p: Person) => p.role == role)
  }

  /** The split is a partition of the coaches and students: nobody is in both
      lists, and a person with any other role is in neither. */
  lemma RolesPartition(persons: seq<Person>, p: Person)
    requires p in persons
    ensures !(p in WithRole(persons, "student") && p in WithRole(persons, "coach"))
    ensures p.role != "student" && p.role != "coach" ==>
      p !in WithRole(persons, "student") && p !in WithRole(persons, "coach")
    ensures p.role == "student" ==> p in WithRole(persons, "student")
    ensures p.role == "coach" ==> p in WithRole(persons, "coach")
  {
  }

  class Page {
    var mode: Mode
    var selectedStudent: Option<Person>
    var selectedCoach: Option<Person>
    /** Only ever reset: its setter is handed to the selectors, which never
        call it. */
    var slotType: Option<string>
    var students: seq<Person>
    var coaches: seq<Person>
    /** The CalendarView the page renders. */
    const calendar: Calendar

    /** The calendar's props are the page's state, and in coach mode no
        student is selected (the student selector is not rendered). */
    ghost predicate Valid()
      reads this, calendar
    {
      && calendar.Valid()
      && calendar.mode == mode
      && calendar.selectedCoach == selectedCoach
      && calendar.selectedStudent == selectedStudent
      && (mode == Coach ==> selectedStudent.None?)
    }

    /** Mounting: coach mode, nobody selected, no slot type, empty lists, and
        a calendar that shows nothing. */
    constructor ()
      ensures Valid() && fresh(calendar)
      ensures mode == Coach && selectedStudent.None? && selectedCoach.None? && slotType.None?
      ensures students == [] && coaches == [] && calendar.events == []
    {
      mode := Coach;
      selectedStudent, selectedCoach, slotType := None, None, None;
      students, coaches := [], [];
      calendar := new Calendar(Coach, None, None, None);
    }

    /** The GET /persons reply (None when the request failed): on success the
        students and the coaches are split out of it; a failure is only
        logged and leaves both lists as they were. */
    method ReceivePersons(reply: Option<seq<Person>>)
      requires Valid()
      modifies this`students, this`coaches
      ensures Valid()
      ensures reply.Some? ==> students == WithRole(reply.value, "student") && coaches == WithRole(reply.value, "coach")
      ensures reply.None? ==> students == old(students) && coaches == old(coaches)
    {
      if reply.Some? {
        students := WithRole(reply.value, "student");
        coaches := WithRole(reply.value, "coach");
      }
    }

    /** The lists handed to the selectors: the students only in student mode
        (null otherwise), the coaches always. */
    function SelectorLists(): (r: (Option<seq<Person>>, seq<Person>))
      reads this
      ensures r.0.Some? <==> mode == Student
      ensures r.0.Some? ==> r.0.value == students
      ensures r.1 == coaches
    {
      (if mode == Student then Some(students) else None, coaches)
    }

    /** handleModeChange and the effect keyed on `mode`: a null toggle (or
        the current mode) changes nothing; a new mode clears both selections
        and the slot type, so the calendar shows no events. The calendar's
        dialogs and draft are untouched. */
    method HandleModeChange(newMode: Option<Mode>)
      requires Valid()
      modifies this`mode, this`selectedStudent, this`selectedCoach, this`slotType, calendar
      ensures Valid()
      ensures newMode.None? || newMode == Some(old(mode)) ==>
        && mode == old(mode) && selectedStudent == old(selectedStudent)
        && selectedCoach == old(selectedCoach) && slotType == old(slotType)
        && calendar.events == old(calendar.events)
      ensures newMode.Some? && newMode.value != old(mode) ==>
        && mode == newMode.value
        && selectedStudent.None? && selectedCoach.None? && slotType.None?
        && calendar.events == []
      ensures calendar.bookingDialog == old(calendar.bookingDialog)
      ensures calendar.creatingSlot == old(calendar.creatingSlot)
      ensures calendar.viewDialog == old(calendar.viewDialog)
      ensures calendar.feedback == old(calendar.feedback)
    {
      if newMode.None? || newMode.value == mode {
        return;
      }
      mode := newMode.value;
      // The render with the new mode: the selections have not changed yet.
      var _ := calendar.ReceiveProps(mode, selectedCoach, selectedStudent, None);
      // The effect on `mode` clears them; the calendar's effect then fetches
      // with nobody selected, which sends nothing.
      selectedStudent, selectedCoach, slotType := None, None, None;
      var _ := calendar.ReceiveProps(mode, None, None, None);
    }

    /** Choosing (or clearing) the coach in the coach selector; the calendar
        refetches with `reply` when the choice differs from the last one. */
    method SelectCoach(coach: Option<Person>, reply: Option<seq<SlotJson>>) returns (query: Option<SlotQuery>)
      requires Valid()
      modifies this`selectedCoach, calendar
      ensures Valid() && selectedCoach == coach
      ensures coach == old(selectedCoach) ==> query.None? && calendar.events == old(calendar.events)
      ensures coach != old(selectedCoach) ==>
        query == QueryFor(coach, selectedStudent)
        && calendar.events == EventsAfterFetch(old(calendar.events), query, reply, mode)
      ensures calendar.bookingDialog == old(calendar.bookingDialog)
      ensures calendar.creatingSlot == old(calendar.creatingSlot)
      ensures calendar.viewDialog == old(calendar.viewDialog)
      ensures calendar.feedback == old(calendar.feedback)
    {
      selectedCoach := coach;
      query := calendar.ReceiveProps(mode, coach, selectedStudent, reply);
    }

    /** Choosing (or clearing) the student; the student selector exists only
        in student mode. */
    method SelectStudent(student: Option<Person>, reply: Option<seq<SlotJson>>) returns (query: Option<SlotQuery>)
      requires Valid() && mode == Student
      modifies this`selectedStudent, calendar
      ensures Valid() && selectedStudent == student
      ensures student == old(selectedStudent) ==> query.None? && calendar.events == old(calendar.events)
      ensures student != old(selectedStudent) ==>
        query == QueryFor(selectedCoach, student)
        && calendar.events == EventsAfterFetch(old(calendar.events), query, reply, mode)
      ensures calendar.bookingDialog == old(calendar.bookingDialog)
      ensures calendar.creatingSlot == old(calendar.creatingSlot)
      ensures calendar.viewDialog == old(calendar.viewDialog)
      ensures calendar.feedback == old(calendar.feedback)
    {
      selectedStudent := student;
      query := calendar.ReceiveProps(mode, selectedCoach, student, reply);
    }

  }

  /** In coach mode every slot query names no student: the page never asks
      the server for a student's view while the coach view is shown. */
  lemma CoachModeQueriesByCoach(page: Page, coach: Option<Person>)
    requires page.Valid() && page.mode == Coach
    ensures QueryFor(coach, page.selectedStudent).Some? ==> QueryFor(coach, page.selectedStudent).value.studentId.None?
  {
  }
}
