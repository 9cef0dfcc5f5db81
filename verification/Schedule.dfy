/**
 The spaced-repetition ladder (internal/corpus/schedule.go). Times and durations are whole
 nanoseconds. The ladder is the part of a phrase block that an answer moves.
 */
module Schedule {
  const SECOND := 1_000_000_000
  const MINUTE := 60 * SECOND
  const HOUR := 60 * MINUTE
  const DAY := 24 * HOUR

  datatype State = New | Training | Automated

  datatype Ladder = Ladder(state: State, streak: int, due: int)

  datatype Schedule = Schedule(
    promoteStreak: int,
    trainingInterval: int,
    automatedInterval: int,
    automatedReviewInterval: int,
    failInterval: int)
  {
    predicate Valid() {
      promoteStreak >= 1 && trainingInterval > 0 && automatedInterval > 0 && automatedReviewInterval > 0
          && failInterval > 0
    }

    /** Unset fields take their defaults; a complete schedule is left alone. */
    function Normalize(): (r: Schedule)
      ensures r.Valid()
      ensures Valid() <==> r == this
    {
      var d := DefaultSchedule();
      Schedule(
        if promoteStreak < 1 then d.promoteStreak else promoteStreak,
        if trainingInterval <= 0 then d.trainingInterval else trainingInterval,
        if automatedInterval <= 0 then d.automatedInterval else automatedInterval,
        if automatedReviewInterval <= 0 then d.automatedReviewInterval else automatedReviewInterval,
        if failInterval <= 0 then d.failInterval else failInterval)
    }

    /** One attempt, as ApplyJudge moves the schedule columns. */
    function Advance(l: Ladder, pass: bool, now: int): Ladder {
      var s := Normalize();
      if !pass then Ladder(Training, 0, now + s.failInterval)
      else if l.state == Automated then l.(due := now + s.automatedReviewInterval)
      else if l.streak + 1 >= s.promoteStreak then Ladder(Automated, l.streak + 1, now + s.automatedInterval)
      else Ladder(Training, l.streak + 1, now + s.trainingInterval)
    }

    /** The schedule columns that ResetSchedule writes after an edit of the sentence. */
    function Restart(now: int): Ladder {
      Ladder(New, 0, now + Normalize().trainingInterval)
    }
  }

  function DefaultSchedule(): Schedule { Schedule(3, 24 * HOUR, 7 * DAY, 30 * DAY, HOUR) }

  /** What can happen to a block's ladder: a success (drill pass, hit, check-in), a fail, a reset. */
  datatype Event = Success(at: int) | Failure(at: int) | Reset(at: int)

  function Play(s: Schedule, start: Ladder, history: seq<Event>): Ladder {
    if history == [] then start
    else
      var n := |history| - 1;
      var l := Play(s, start, history[..n]);
      match history[n]
      case Success(at) => s.Advance(l, true, at)
      case Failure(at) => s.Advance(l, false, at)
      case Reset(at) => s.Restart(at)
  }

  /** Successes since the last failure or reset. */
  function Run(history: seq<Event>): nat {
    if history == [] || !history[|history| - 1].Success? then 0 else 1 + Run(history[..|history| - 1])
  }

  predicate Fresh(history: seq<Event>) {
    history == [] || history[|history| - 1].Reset?
  }

  /** The ladder after any history, read off the last event and the run that it ends. */
  function ClosedForm(s: Schedule, due: int, history: seq<Event>): Ladder {
    var run := Run(history);
    Ladder(
      if Fresh(history) then New else if run >= s.promoteStreak then Automated else Training,
      if run < s.promoteStreak then run else s.promoteStreak,
      if history == [] then due
      else match history[|history| - 1]
           case Failure(at) => at + s.failInterval
           case Reset(at) => at + s.trainingInterval
           case Success(at) =>
             at + if run < s.promoteStreak then s.trainingInterval
                  else if run == s.promoteStreak then s.automatedInterval
                  else s.automatedReviewInterval)
  }

  /**
   For every history of answers, hits, check-ins and resets of a block accepted as new: the streak is
   the current run capped at the promotion streak, the block is automated exactly when the run has
   reached it, new exactly when nothing has happened since creation or reset, and the due time follows
   from the last event and the length of the run alone.
   */
  lemma {:induction false} LadderOfHistory(s: Schedule, due: int, history: seq<Event>)
    ensures Play(s, Ladder(New, 0, due), history) == ClosedForm(s.Normalize(), due, history)
  {
    if history != [] {
      LadderOfHistory(s, due, history[..|history| - 1]);
    }
  }

  /** Every field of a schedule that is set stays; the others take 3 passes, 1 day, 7 days, 30 days and 1 hour. */
  lemma NormalizeMeans(s: Schedule)
    ensures var n, hour := s.Normalize(), 3600 * 1_000_000_000;
            && n.promoteStreak == (if s.promoteStreak >= 1 then s.promoteStreak else 3)
            && n.trainingInterval == (if s.trainingInterval > 0 then s.trainingInterval else 24 * hour)
            && n.automatedInterval == (if s.automatedInterval > 0 then s.automatedInterval else 7 * 24 * hour)
            && n.automatedReviewInterval ==
                (if s.automatedReviewInterval > 0 then s.automatedReviewInterval else 30 * 24 * hour)
            && n.failInterval == (if s.failInterval > 0 then s.failInterval else hour)
  {
  }
}
