/** The Flask server's slot table and its four slot endpoints (backend/app.py).
    The table is held in memory; the database's primary-key lookups, its
    foreign keys and its id sequence are written out explicitly. */
module SlotStore {
  import opened Time
  import opened Records
  import opened Seqs

  /** `if slot.booked_by`: ids are positive, so the test is "someone booked it". */
  predicate IsBooked(s: Slot)
  {
    s.bookedBy.Some?
  }

  /** The stamp the slot starts at (`f"{slot.date}T{slot.time_start}"`). */
  function StartStamp(s: Slot): Stamp
  {
    Stamp(s.date, s.timeStart)
  }

  /** The stamp the slot ends at (`f"{slot.date}T{slot.time_end}"`). */
  function EndStamp(s: Slot): Stamp
  {
    Stamp(s.date, s.timeEnd)
  }

  /** `a_start < b_end and a_end > b_start` on the two slots' datetime ranges. */
  predicate Clash(a: Slot, b: Slot)
    ensures a.date != b.date ==> !Clash(a, b)
  {
    Instant(StartStamp(a)) < Instant(EndStamp(b)) && Instant(EndStamp(a)) > Instant(StartStamp(b))
  }

  /** The `any(...)` over the booked slots. */
  predicate ClashesWithAny(a: Slot, booked: seq<Slot>)
    ensures (forall i :: 0 <= i < |booked| ==> booked[i].date != a.date) ==> !ClashesWithAny(a, booked)
  {
    exists b :: b in booked && Clash(a, b)
  }

  /** The query at the head of filter_overlapping_slots: every booked slot of
      the coach, and every slot the student booked, on any date. A missing
      coach id compares as SQL NULL and matches nothing. */
  function BookedFor(table: seq<Slot>, coachId: Option<Id>, studentId: Option<Id>): (r: seq<Slot>)
    ensures forall s :: s in r <==>
      s in table && IsBooked(s) && (coachId == Some(s.coachId) || s.bookedBy == studentId)
  {
    Filter(table, s => IsBooked(s) && (coachId == Some(s.coachId) || s.bookedBy == studentId))
  }

  /** What filter_overlapping_slots returns for the slots `slots` when the
      booked-slot query gave `booked`: the booked input slots in input order,
      then the available input slots that clash with no booked slot, in input
      order. */
  function OverlapFiltered(slots: seq<Slot>, booked: seq<Slot>): (r: seq<Slot>)
    ensures forall s :: s in r <==> s in slots && (IsBooked(s) || !ClashesWithAny(s, booked))
    ensures multiset(r) <= multiset(slots)
    ensures forall i :: 0 <= i < |r| ==> (IsBooked(r[i]) <==> i < |Filter(slots, IsBooked)|)
  {
    Filter(slots, IsBooked) + KeptAvailable(Available(slots), booked)
  }

  /** The slots of `slots` nobody has booked (`not slot.booked_by`). */
  function Available(slots: seq<Slot>): (r: seq<Slot>)
    ensures forall s :: s in r <==> s in slots && !IsBooked(s)
    ensures multiset(r) <= multiset(slots)
  {
    Filter(slots, s => !IsBooked(s))
  }

  /** Extending the available slots by one extends what survives the clash
      test by that slot exactly when it clashes with no booked slot. */
  lemma KeptAvailableSnoc(available: seq<Slot>, a: Slot, booked: seq<Slot>)
    ensures KeptAvailable(available + [a], booked)
         == KeptAvailable(available, booked) + if ClashesWithAny(a, booked) then [] else [a]
  {
    FilterSnoc(available, a, a => !ClashesWithAny(a, booked));
  }

  /** The available slots of `available` that clash with no slot of `booked`. */
  function KeptAvailable(available: seq<Slot>, booked: seq<Slot>): (r: seq<Slot>)
    ensures forall a :: a in r <==> a in available && !ClashesWithAny(a, booked)
    ensures multiset(r) <= multiset(available)
  {
    Filter(available, a => !ClashesWithAny(a, booked))
  }

  /** The WHERE clause get_slots builds from its optional filters. */
  predicate Matches(s: Slot, coachId: Option<Id>, studentId: Option<Id>, today: int)
    ensures coachId.None? && studentId.None? ==> Matches(s, coachId, studentId, today)
    ensures Matches(s, coachId, studentId, today) && studentId.Some? ==>
      s.bookedBy == studentId || (coachId.Some? && s.bookedBy.None?)
  {
    && (studentId.Some? && coachId.None? ==> s.bookedBy == studentId)
    && (coachId.Some? ==> s.coachId == coachId.value)
    && (coachId.Some? && studentId.Some? ==> s.bookedBy.None? || s.bookedBy == studentId)
    && (studentId.Some? ==> s.date >= today)
  }

  /** The slots get_slots lists, in table order. */
  function SlotsFor(table: seq<Slot>, coachId: Option<Id>, studentId: Option<Id>, today: int): (r: seq<Slot>)
    ensures forall s :: s in r ==> s in table && Matches(s, coachId, studentId, today)
    ensures studentId.None? ==> forall s :: s in table && Matches(s, coachId, studentId, today) ==> s in r
    ensures multiset(r) <= multiset(table)
  {
    var selected := Filter(table, s => Matches(s, coachId, studentId, today));
    if studentId.Some? then OverlapFiltered(selected, BookedFor(table, coachId, studentId))
    else selected
  }

  /** The index of the row whose primary key is `id` (`Slot.query.get(id)`). */
  function Find(table: seq<Slot>, id: int): (r: Option<nat>)
    ensures r.Some? ==> r.value < |table| && table[r.value].id == id
    ensures r.None? ==> forall i :: 0 <= i < |table| ==> table[i].id != id
  {
    if table == [] then None
    else if table[0].id == id then Some(0)
    else match Find(table[1..], id)
      case None => None
      case Some(k) => Some(k + 1)
  }

  /** The slot with primary key `id` exists and nobody has booked it. */
  predicate Bookable(table: seq<Slot>, id: int)
  {
    exists i :: 0 <= i < |table| && table[i].id == id && table[i].bookedBy.None?
  }

  /** No two rows share a primary key. */
  predicate DistinctIds(table: seq<Slot>)
  {
    forall i, j :: 0 <= i < j < |table| ==> table[i].id != table[j].id
  }

  /** The row add_slot inserts: the request's coach, date and times, nobody
      booked, no feedback. */
  function NewRow(id: Id, req: AddSlotRequest): (r: Slot)
    ensures r.id == id && r.coachId == req.coachId
    ensures StartStamp(r) == Stamp(req.date, req.timeStart) && EndStamp(r) == Stamp(req.date, req.timeEnd)
    ensures !IsBooked(r) && r.rating.None? && r.notes.None?
  {
    Slot(id, req.coachId, req.date, req.timeStart, req.timeEnd, None, None, None)
  }

  /** The table after add_feedback(id) with the given rating and notes. */
  function WithFeedback(table: seq<Slot>, id: int, rating: Option<int>, notes: Option<string>): (r: seq<Slot>)
    ensures |r| == |table|
    ensures forall i :: 0 <= i < |table| && table[i].id != id ==> r[i] == table[i]
    ensures forall i :: 0 <= i < |table| && table[i].id == id ==>
      r[i].rating == rating && r[i].notes == notes && r[i].(rating := table[i].rating, notes := table[i].notes) == table[i]
  {
    seq(|table|, i requires 0 <= i < |table| =>
      if table[i].id == id then table[i].(rating := rating, notes := notes) else table[i])
  }

  /** Recording the same feedback twice leaves the table as recording it once. */
  lemma FeedbackIdempotent(table: seq<Slot>, id: int, rating: Option<int>, notes: Option<string>)
    ensures WithFeedback(WithFeedback(table, id, rating, notes), id, rating, notes)
         == WithFeedback(table, id, rating, notes)
  {
    var once := WithFeedback(table, id, rating, notes);
    var twice := WithFeedback(once, id, rating, notes);
    assert forall i :: 0 <= i < |once| ==> twice[i] == once[i];
  }

  /** Student-only listing: exactly the student's own bookings from today on. */
  lemma StudentOnlyListing(table: seq<Slot>, studentId: Id, today: int)
    ensures forall s :: s in SlotsFor(table, None, Some(studentId), today) <==>
      s in table && s.bookedBy == Some(studentId) && s.date >= today
  {
  }

  /** Coach-only listing: every slot of the coach, booked or not, past or not,
      and no other. */
  lemma CoachOnlyListing(table: seq<Slot>, coachId: Id, today: int)
    ensures forall s :: s in SlotsFor(table, Some(coachId), None, today) <==>
      s in table && s.coachId == coachId
  {
  }

  /** Coach and student listing: the coach's slots from today on that the
      student booked, and those still available that clash with no booked slot
      of the coach or of the student. */
  lemma CoachAndStudentListing(table: seq<Slot>, coachId: Id, studentId: Id, today: int)
    ensures forall s :: s in SlotsFor(table, Some(coachId), Some(studentId), today) <==>
      && s in table && s.coachId == coachId && s.date >= today
      && (s.bookedBy == Some(studentId)
          || (s.bookedBy.None? && !ClashesWithAny(s, BookedFor(table, Some(coachId), Some(studentId)))))
  {
  }

  /** Whenever a student is given, nothing dated before today is listed. */
  lemma StudentListingNotPast(table: seq<Slot>, coachId: Option<Id>, studentId: Id, today: int)
    ensures forall s :: s in SlotsFor(table, coachId, Some(studentId), today) ==> s.date >= today
  {
  }

  /** Without any filter the whole table is listed. */
  lemma UnfilteredListing(table: seq<Slot>, today: int)
    ensures SlotsFor(table, None, None, today) == table
  {
    FilterAll(table, s => Matches(s, None, None, today));
  }

  /** The loop of filter_overlapping_slots: appends, in order, each available
      slot whose `any(...)` clash test against the booked slots is false. */
  method KeepUnclashed(available: seq<Slot>, booked: seq<Slot>) returns (kept: seq<Slot>)
    ensures kept == KeptAvailable(available, booked)
  {
    kept := [];
    var k := 0;
    while k < |available|
      invariant k <= |available|
      invariant kept == KeptAvailable(available[..k], booked)
    {
      var a := available[k];
      var overlaps := ClashesWithAny(a, booked);
      if !overlaps {
        kept := kept + [a];
      }
      assert available[..k + 1] == available[..k] + [a];
      KeptAvailableSnoc(available[..k], a, booked);
      k := k + 1;
    }
    assert available[..k] == available;
  }

  /** The server's slot table. */
  class Store {
    /** The `person` table; no endpoint changes it. */
    const persons: map<Id, PersonRow>
    /** The `slot` table, in insertion order. */
    var slots: seq<Slot>
    /** The next value of the slot id sequence. */
    var nextId: Id

    /** The foreign keys of a slot row name existing persons. */
    predicate References(s: Slot)
    {
      s.coachId in persons && (s.bookedBy.Some? ==> s.bookedBy.value in persons)
    }

    ghost predicate Valid()
      reads this
    {
      && DistinctIds(slots)
      && (forall i :: 0 <= i < |slots| ==> slots[i].id < nextId && References(slots[i]))
    }

    constructor (persons: map<Id, PersonRow>)
      ensures Valid()
      ensures this.persons == persons && slots == []
    {
      this.persons := persons;
      slots := [];
      nextId := 1;
    }

    /** One entry of the get_slots response, with the coach's and the
        student's name and phone looked up (`Person.query.get`). */
    function ToJson(s: Slot): (j: SlotJson)
      requires References(s)
      ensures j.id == s.id && j.coachId == s.coachId && j.studentId == s.bookedBy
      ensures j.start == StartStamp(s) && j.end == EndStamp(s)
      ensures j.coachName == persons[s.coachId].name && j.coachPhone == persons[s.coachId].phoneNumber
      ensures j.studentName.Some? <==> IsBooked(s)
      ensures j.studentPhone.Some? <==> IsBooked(s)
      ensures s.bookedBy.Some? ==>
        j.studentName == Some(persons[s.bookedBy.value].name)
        && j.studentPhone == Some(persons[s.bookedBy.value].phoneNumber)
      ensures j.rating == s.rating && j.notes == s.notes
    {
      var coach := persons[s.coachId];
      SlotJson(
        s.id, StartStamp(s), EndStamp(s),
        s.coachId, coach.name, coach.phoneNumber,
        s.bookedBy,
        if s.bookedBy.Some? then Some(persons[s.bookedBy.value].name) else None,
        if s.bookedBy.Some? then Some(persons[s.bookedBy.value].phoneNumber) else None,
        s.rating, s.notes)
    }

    /** POST /slots/add: inserts one row with the request's coach, date and
        times, with no overlap or duration check. The insert fails (HTTP 500,
        nothing stored) when the coach is not a person. */
    method AddSlot(req: AddSlotRequest) returns (status: int)
      requires Valid()
      modifies this
      ensures Valid()
      ensures status == (if req.coachId in persons then 201 else 500)
      ensures status == 201 ==> slots == old(slots) + [NewRow(old(nextId), req)]
      ensures status == 201 ==> forall s :: s in old(slots) ==> s.id != old(nextId)
      ensures status != 201 ==> slots == old(slots) && nextId == old(nextId)
    {
      if req.coachId !in persons {
        return 500;
      }
      slots := slots + [NewRow(nextId, req)];
      nextId := nextId + 1;
      status := 201;
    }

    /** PUT /slots/book/<slotId>: books the slot for the student when it exists
        and nobody has booked it, changing only its `bookedBy`; otherwise 400
        and nothing changes. Storing a student that is not a person fails the
        commit (HTTP 500, nothing changes). */
    method BookSlot(slotId: int, studentId: Id) returns (status: int)
      requires Valid()
      modifies this`slots
      ensures Valid()
      ensures status == 200 <==> old(Bookable(slots, slotId)) && studentId in persons
      ensures status == 400 <==> !old(Bookable(slots, slotId))
      ensures status == 200 ==> |slots| == |old(slots)| && forall i :: 0 <= i < |slots| ==>
        slots[i] == if old(slots)[i].id == slotId then old(slots)[i].(bookedBy := Some(studentId)) else old(slots)[i]
      ensures status == 200 ==> !Bookable(slots, slotId)
      ensures status != 200 ==> slots == old(slots)
    {
      var found := Find(slots, slotId);
      if found.None? || slots[found.value].bookedBy.Some? {
        return 400;
      }
      if studentId !in persons {
        return 500;
      }
      var i := found.value;
      slots := slots[i := slots[i].(bookedBy := Some(studentId))];
      status := 200;
    }

    /** POST /slots/feedback/<slotId>: overwrites the rating and the notes of
        the slot, booked or not; an unknown id changes nothing. Always 201. */
    method AddFeedback(slotId: int, rating: Option<int>, notes: Option<string>) returns (status: int)
      requires Valid()
      modifies this`slots
      ensures Valid()
      ensures status == 201
      ensures slots == WithFeedback(old(slots), slotId, rating, notes)
    {
      var found := Find(slots, slotId);
      if found.Some? {
        var i := found.value;
        slots := slots[i := slots[i].(rating := rating, notes := notes)];
      }
      status := 201;
    }

    /** filter_overlapping_slots: asks the table for the booked slots of the
        coach or of the student, then keeps the booked candidates and those
        available candidates that clash with none of them. */
    method FilterOverlappingSlots(coachId: Option<Id>, studentId: Option<Id>, candidates: seq<Slot>)
      returns (r: seq<Slot>)
      ensures r == OverlapFiltered(candidates, BookedFor(slots, coachId, studentId))
    {
      var allBooked := BookedFor(slots, coachId, studentId);
      var bookedSlots := Filter(candidates, IsBooked);
      var availableSlots := Available(candidates);
      var kept := KeepUnclashed(availableSlots, allBooked);
      r := bookedSlots + kept;
    }

    /** GET /slots: selects by coach and/or student (a student also hides
        slots dated before `today`), runs the overlap filter whenever a student
        is given, and formats every remaining row. */
    method GetSlots(coachId: Option<Id>, studentId: Option<Id>, today: int) returns (r: seq<SlotJson>)
      requires Valid()
      ensures |r| == |SlotsFor(slots, coachId, studentId, today)|
      ensures forall i :: 0 <= i < |r| ==>
        SlotsFor(slots, coachId, studentId, today)[i] in slots
        && r[i] == ToJson(SlotsFor(slots, coachId, studentId, today)[i])
    {
      var rows := Select(coachId, studentId, today);
      RowsReferenced(rows);
      r := Format(rows);
    }

    /** The query get_slots builds and runs, then the overlap filter when a
        student is given. */
    method Select(coachId: Option<Id>, studentId: Option<Id>, today: int) returns (rows: seq<Slot>)
      ensures rows == SlotsFor(slots, coachId, studentId, today)
    {
      rows := Filter(slots, s => Matches(s, coachId, studentId, today));
      if studentId.Some? {
        rows := FilterOverlappingSlots(coachId, studentId, rows);
      }
    }

    /** Rows taken from a valid table name existing persons. */
    lemma RowsReferenced(rows: seq<Slot>)
      requires Valid()
      requires forall s :: s in rows ==> s in slots
      ensures forall i :: 0 <= i < |rows| ==> References(rows[i])
    {
      forall i | 0 <= i < |rows|
        ensures References(rows[i])
      {
        assert rows[i] in slots;
        var j :| 0 <= j < |slots| && slots[j] == rows[i];
      }
    }

    /** The formatting loop of get_slots: one entry per row, in order. */
    method Format(rows: seq<Slot>) returns (r: seq<SlotJson>)
      requires forall i :: 0 <= i < |rows| ==> References(rows[i])
      ensures |r| == |rows|
      ensures forall i :: 0 <= i < |rows| ==> r[i] == ToJson(rows[i])
    {
      r := [];
      var k := 0;
      while k < |rows|
        invariant k <= |rows|
        invariant |r| == k
        invariant forall i :: 0 <= i < k ==> r[i] == ToJson(rows[i])
      {
        r := r + [ToJson(rows[k])];
        k := k + 1;
      }
    }
  }
}
