/** The cron expression the scan is scheduled with, `0 9 * * *`: minute 0 of
    hour 9, every day of every month, whatever the weekday. */
module Schedule {
  import opened Digits

  datatype Field = Any | At(value: nat)

  datatype CronSpec = CronSpec(minute: Field, hour: Field, dayOfMonth: Field, month: Field, dayOfWeek: Field)

  /** A wall-clock minute as cron sees it. */
  datatype Moment = Moment(minute: int, hour: int, dayOfMonth: int, month: int, dayOfWeek: int)

  const CheckSchedule := CronSpec(At(0), At(9), Any, Any, Any)

  function FieldText(f: Field): string {
    match f
    case Any => "*"
    case At(v) => NatToDigits(v)
  }

  function CronText(c: CronSpec): string {
    FieldText(c.minute) + " " + FieldText(c.hour) + " " + FieldText(c.dayOfMonth)
      + " " + FieldText(c.month) + " " + FieldText(c.dayOfWeek)
  }

  predicate FieldMatches(f: Field, v: int) {
    f.Any? || f.value == v
  }

  predicate Fires(c: CronSpec, t: Moment) {
    && FieldMatches(c.minute, t.minute)
    && FieldMatches(c.hour, t.hour)
    && FieldMatches(c.dayOfMonth, t.dayOfMonth)
    && FieldMatches(c.month, t.month)
    && FieldMatches(c.dayOfWeek, t.dayOfWeek)
  }

  /** The minutes of a day, counted from midnight, at which `c` fires when the
      date fields match. */
  function FiringMinutes(c: CronSpec): set<int> {
    set m | 0 <= m < 24 * 60 && FieldMatches(c.minute, m % 60) && FieldMatches(c.hour, m / 60)
  }

  /** The schedule's text is the literal `0 9 * * *`. */
  lemma ScheduleText()
    ensures CronText(CheckSchedule) == "0 9 * * *"
  {
  }

  /** The scan fires at 09:00 on every day and at no other minute. */
  lemma FiresDailyAtNine(t: Moment)
    ensures Fires(CheckSchedule, t) <==> t.minute == 0 && t.hour == 9
  {
  }

  /** Exactly one minute of each day fires: 9 * 60 = 540 minutes after midnight. */
  lemma FiresOncePerDay()
    ensures FiringMinutes(CheckSchedule) == {540}
  {
    var fm := FiringMinutes(CheckSchedule);
    assert 540 in fm;
    forall m | m in fm ensures m == 540 {
      assert m % 60 == 0 && m / 60 == 9;
    }
  }
}
