/** Clock arithmetic shared by the browser client and the Flask server.
    An instant is a whole number of seconds of local time; a calendar date is
    a day number (day 0 starts at instant 0). */
module Time {

  const HOUR: int := 3600
  const DAY: int := 86400

  /** A time of day in seconds after midnight: what an "HH:mm:ss" field carries. */
  type TimeOfDay = t: int | 0 <= t < 86400

  /** A local date and time: what a "YYYY-MM-DDTHH:mm:ss" text carries, and what
      Python's datetime.combine(date, time) builds on the server. */
  datatype Stamp = Stamp(date: int, time: TimeOfDay)

  /** The calendar date holding instant t (dayjs "YYYY-MM-DD"). */
  function DateOf(t: int): int
  {
    t / 86400
  }

  /** The time of day of instant t (dayjs "HH:mm:ss"). */
  function TimeOf(t: int): TimeOfDay
  {
    t % 86400
  }

  /** Midnight of the day holding t. */
  function DayStart(t: int): (r: int)
    ensures r <= t < r + DAY
    ensures r == DateOf(t) * DAY
  {
    t - t % 86400
  }

  /** The instant a stamp names: `new Date("...T...")` on the client,
      datetime.combine on the server. */
  function Instant(s: Stamp): int
  {
    s.date * 86400 + s.time
  }

  /** How the client writes an instant as a date and a time of day. */
  function StampOf(t: int): (s: Stamp)
    ensures Instant(s) == t
    ensures s.date == DateOf(t)
  {
    Stamp(DateOf(t), TimeOf(t))
  }

  /** Reading a stamp and writing it out again gives the same stamp back:
      a date and a time of day name exactly one instant. */
  lemma StampOfInstant(s: Stamp)
    ensures StampOf(Instant(s)) == s
  {
    var t := Instant(s);
    DivModUnique(t, s.date, s.time);
  }

  /** The instant `t` seen on date `d` at time `h` of that day. */
  lemma DivModUnique(t: int, d: int, h: int)
    requires 0 <= h < DAY
    requires t == d * DAY + h
    ensures DateOf(t) == d && TimeOf(t) == h
  {
  }

  /** An instant written out on a given date reads back as itself only when the
      instant lies on that date. */
  lemma InstantOnDate(t: int, date: int)
    ensures Instant(Stamp(date, TimeOf(t))) == t <==> DateOf(t) == date
  {
  }
}
