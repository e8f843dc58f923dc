/** The booking details dialog
    (stepful-crud-app/src/dashboard/components/BookingDetailsDialog.js): what
    it shows for a booked event in each mode, when Submit Feedback is offered
    and enabled, and how its inputs edit the feedback draft. It holds no state
    of its own. */
module DetailsDialog {
  import opened Records
  import opened CalendarRules

  /** The Submit Feedback button: absent, greyed out, or clickable. */
  datatype SubmitButton = Hidden | Disabled | Enabled

  /** What the dialog renders for a slot. */
  datatype DetailsView = DetailsView(
    open: bool,
    personName: Option<string>,
    personPhone: Option<string>,
    phoneLabel: string,
    feedbackInputs: bool,
    submit: SubmitButton)

  /** `feedback.rating` is truthy: set, and not the number 0. */
  predicate RatingSet(d: Draft)
  {
    d.rating.Some? && d.rating.value != 0
  }

  /** The first space-separated word of a name (`name.split(" ")[0]`). */
  function FirstWord(name: string): (r: string)
    ensures |r| <= |name| && r == name[..|r|]
    ensures ' ' !in r
    ensures |r| == |name| || name[|r|] == ' '
  {
    if name == [] || name[0] == ' ' then ""
    else [name[0]] + FirstWord(name[1..])
  }

  /** The label above the phone number: the counterpart's first name; a
      missing name renders as nothing. */
  function PhoneLabel(name: Option<string>): (r: string)
    ensures name.None? ==> r == ""
    ensures name.Some? ==>
      r <= name.value && ' ' !in r && (|r| == |name.value| || name.value[|r|] == ' ')
  {
    if name.Some? then FirstWord(name.value) else ""
  }

  /** The dialog for `slot` in `mode` with the draft `draft`: nothing without
      a slot; otherwise it names the student in coach mode and the coach in
      any other mode, and offers the feedback inputs and Submit Feedback only
      in coach mode, Submit being enabled exactly when a rating is set. */
  function Render(open: bool, slot: Option<Event>, mode: Mode, draft: Draft): (v: Option<DetailsView>)
    ensures v.None? <==> slot.None?
    ensures v.Some? ==> v.value.open == open
    ensures v.Some? && mode == Coach ==>
      v.value.personName == slot.value.slot.studentName && v.value.personPhone == slot.value.slot.studentPhone
    ensures v.Some? && mode != Coach ==>
      v.value.personName == Some(slot.value.slot.coachName) && v.value.personPhone == Some(slot.value.slot.coachPhone)
    ensures v.Some? ==> v.value.phoneLabel == PhoneLabel(v.value.personName)
    ensures v.Some? ==> (v.value.feedbackInputs <==> mode == Coach)
    ensures v.Some? ==> (v.value.submit == Hidden <==> mode != Coach)
    ensures v.Some? ==> (v.value.submit == Enabled <==> mode == Coach && RatingSet(draft))
  {
    if slot.None? then None
    else
      var props := slot.value.slot;
      var isCoach := mode == Coach;
      var personName := if isCoach then props.studentName else Some(props.coachName);
      var personPhone := if isCoach then props.studentPhone else Some(props.coachPhone);
      Some(DetailsView(
        open, personName, personPhone, PhoneLabel(personName), isCoach,
        if !isCoach then Hidden else if RatingSet(draft) then Enabled else Disabled))
  }

  /** Submit Feedback can be clicked: the dialog is open on a slot and its
      button is enabled. */
  predicate CanSubmit(open: bool, slot: Option<Event>, mode: Mode, draft: Draft)
    ensures CanSubmit(open, slot, mode, draft) <==> open && slot.Some? && mode == Coach && RatingSet(draft)
  {
    var v := Render(open, slot, mode, draft);
    v.Some? && v.value.open && v.value.submit == Enabled
  }

  /** The ratings the select offers, in order. */
  function RatingChoices(): (r: seq<int>)
    ensures forall x :: x in r <==> 1 <= x <= 5
    ensures forall i :: 0 <= i < |r| - 1 ==> r[i] < r[i + 1]
  {
    [1, 2, 3, 4, 5]
  }

  /** Choosing a rating: `{...feedback, rating}`. */
  function WithRating(d: Draft, rating: int): (r: Draft)
    ensures r.notes == d.notes && r.rating == Some(rating)
  {
    d.(rating := Some(rating))
  }

  /** Typing notes: `{...feedback, notes}`. */
  function WithNotes(d: Draft, notes: string): (r: Draft)
    ensures r.rating == d.rating && r.notes == notes
  {
    d.(notes := notes)
  }

  /** Whatever rating is chosen from the select, Submit Feedback becomes
      enabled in coach mode. */
  lemma ChosenRatingEnablesSubmit(open: bool, slot: Event, d: Draft, rating: int)
    requires rating in RatingChoices()
    ensures Render(open, Some(slot), Coach, WithRating(d, rating)).value.submit == Enabled
  {
  }

  /** For a booked event the dialog names the person its calendar title
      names, as long as the mode has not changed since the events were
      fetched. */
  lemma {:induction false} NameMatchesTitle(s: SlotJson, mode: Mode)
    requires s.studentId.Some? && s.studentName.Some?
    ensures ParseTitle(EventOf(s, mode).title)
         == Some((true, Render(true, Some(EventOf(s, mode)), mode, EMPTY_DRAFT).value.personName.value))
  {
    TitleNamesCounterpart(s, mode);
  }
}
