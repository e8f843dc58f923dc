/** The records that cross the REST boundary between the scheduler's browser
    client and its Flask server, and the rows of the server's two tables
    (backend/models.py). */
module Records {
  import opened Time

  datatype Option<+T> = None | Some(value: T)

  /** Database primary keys start at 1, so a present id is always truthy in
      both Python and JavaScript. */
  type Id = i: int | i > 0 witness 1

  /** The acting viewpoint chosen with the Coach View / Student View toggle. */
  datatype Mode = Coach | Student

  /** A row of the `person` table. */
  datatype PersonRow = PersonRow(id: Id, name: string, phoneNumber: string, role: string)

  /** A row of the `slot` table: a coach's availability on one date from
      `timeStart` to `timeEnd`, optionally booked by a student and annotated
      with a rating and notes. */
  datatype Slot = Slot(
    id: Id,
    coachId: Id,
    date: int,
    timeStart: TimeOfDay,
    timeEnd: TimeOfDay,
    bookedBy: Option<Id>,
    rating: Option<int>,
    notes: Option<string>)

  /** A person as GET /persons lists it (the phone number is not sent). */
  datatype Person = Person(id: Id, name: string, role: string)

  /** A slot as GET /slots lists it. */
  datatype SlotJson = SlotJson(
    id: Id,
    start: Stamp,
    end: Stamp,
    coachId: Id,
    coachName: string,
    coachPhone: string,
    studentId: Option<Id>,
    studentName: Option<string>,
    studentPhone: Option<string>,
    rating: Option<int>,
    notes: Option<string>)

  /** The query string of GET /slots: `coach_id` and `student_id`, each optional. */
  datatype SlotQuery = SlotQuery(coachId: Option<Id>, studentId: Option<Id>)

  /** The body of POST /slots/add. */
  datatype AddSlotRequest = AddSlotRequest(coachId: Id, date: int, timeStart: TimeOfDay, timeEnd: TimeOfDay)

  /** PUT /slots/book/<slotId> with body {student_id}. */
  datatype BookRequest = BookRequest(slotId: Id, studentId: Id)

  /** POST /slots/feedback/<slotId> with body {rating, notes}. */
  datatype FeedbackRequest = FeedbackRequest(slotId: Id, rating: int, notes: string)

  /** What a mutating call came back with: an HTTP status, or no response at all. */
  datatype HttpResult = Response(status: int) | NetworkError
  {
    /** axios resolves its promise on a 2xx status and rejects otherwise. */
    predicate Succeeded()
    {
      Response? && 200 <= status < 300
    }
  }
}
