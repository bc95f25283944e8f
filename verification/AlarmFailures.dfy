/** When a repeating alarm tries, what a report does to it, and when it tries again. */
module AlarmFailures {
  import opened Base
  import opened Alarms
  import opened AlarmRuns

  /** Two seconds after the first try, doubling to two minutes and eight seconds after the seventh. */
  lemma BackoffTable(attempt: nat)
    requires 1 <= attempt
    ensures BackoffMs(attempt)
            == if attempt == 1 then 2_000 else if attempt == 2 then 4_000 else if attempt == 3 then 8_000
               else if attempt == 4 then 16_000 else if attempt == 5 then 32_000 else if attempt == 6 then 64_000
               else 128_000
  {
    assert Doubled(2_000, 0) == 2_000;
    assert Doubled(2_000, 1) == 4_000;
    assert Doubled(2_000, 2) == 8_000;
    assert Doubled(2_000, 3) == 16_000;
    assert Doubled(2_000, 4) == 32_000;
    assert Doubled(2_000, 5) == 64_000;
    assert Doubled(2_000, 6) == 128_000;
  }

  /** A state some run of the alarm reaches in which it is stored and waits for a report. */
  ghost predicate Waiting(r: Repeat, first: nat, id: nat, events: seq<Event>) {
    var s := Exec(Start(r, first, id), events);
    s.alarm.Some? && s.alarm.value.attempt != 0 && s.firings != []
  }

  lemma LastAnswers(r: Repeat, first: nat, id: nat, events: seq<Event>)
    requires Waiting(r, first, id, events)
    ensures var s := Exec(Start(r, first, id), events);
            var a, f := s.alarm.value, s.firings[|s.firings| - 1];
            && Answers(a, f) && a.repeat == Some(r) && a.scheduledMs == f.scheduledMs && a.coversFromMs.Some?
            && Expected(r, first, s.successes) == Some(a.coversFromMs.value)
  {
    hide Exec, NextAfter, Nth, Partition, Anchored;
    ExecKeeps(r, first, id, events);
  }

  /** In every run, begins happen exactly when due: one that is early changes nothing, and one that is
      due starts one firing, the next attempt at the same occurrences or a first one, and sets the retry
      behind it by the backoff. */
  lemma BeginsWhenDue(r: Repeat, first: nat, id: nat, events: seq<Event>, now: u64)
    requires Exec(Start(r, first, id), events).alarm.Some?
    ensures var s := Exec(Start(r, first, id), events);
            var a, t := s.alarm.value, Step(s, BeginAt(now));
            && (now < a.atMs ==> t == s)
            && (a.atMs <= now ==>
                  && t.alarm.Some? && t.successes == s.successes
                  && |t.firings| == |s.firings| + 1 && t.firings[..|s.firings|] == s.firings
                  && var f := t.firings[|s.firings|];
                  && f.id == id && f.attempt == t.alarm.value.attempt == a.attempt + 1
                  && f.scheduledMs == t.alarm.value.scheduledMs
                  && t.alarm.value.atMs == Min(now + BackoffMs(f.attempt), U64_MAX)
                  && CoveredFrom(t.alarm.value) == CoveredFrom(a)
                  && (a.attempt != 0 ==> f.scheduledMs == a.scheduledMs))
  {
    hide Exec, NextAfter, Nth, Partition, Anchored, CatchUp, BackoffMs;
    ExecKeeps(r, first, id, events);
    var s := Exec(Start(r, first, id), events);
    assert s.firings + [] == s.firings;
  }

  /** In every run, a failure of the last firing leaves everything as it is, the retry time too, exactly
      when fewer than the most attempts were made and the next occurrence is later than the retry. */
  lemma FailureKeepsIff(r: Repeat, first: nat, id: nat, events: seq<Event>, now: u64)
    requires Waiting(r, first, id, events)
    ensures var s := Exec(Start(r, first, id), events);
            var a, f := s.alarm.value, s.firings[|s.firings| - 1];
            var next := NextAfter(r, f.scheduledMs);
            var t := Step(s, Report(|s.firings| - 1, false, now));
            && t.firings == s.firings && t.successes == s.successes
            && (t == s <==> f.attempt < MAX_ATTEMPTS && (next.None? || a.atMs < next.value))
            && (t.alarm.None? <==> MAX_ATTEMPTS <= f.attempt && next.None?)
  {
    hide Exec, NextAfter;
    LastAnswers(r, first, id, events);
    var s := Exec(Start(r, first, id), events);
    assert s.successes + [] == s.successes;
  }

  /** The alarm is due at a time and not before, and then makes a first attempt that covers from one
      occurrence. */
  predicate TriesAfresh(t: State, at: nat, from: nat, later: u64) {
    && t.alarm.Some? && t.alarm.value.atMs == at
    && var u := Step(t, BeginAt(later));
    if later < at then u == t
    else
      && |u.firings| == |t.firings| + 1 && u.firings[|t.firings|].attempt == 1
      && u.alarm.Some? && u.alarm.value.coversFromMs == Some(from)
  }

  lemma FreshTries(t: State, later: u64)
    requires t.alarm.Some? && t.alarm.value.attempt == 0 && t.alarm.value.repeat.Some? && t.alarm.value.coversFromMs.None?
    ensures TriesAfresh(t, t.alarm.value.atMs, t.alarm.value.scheduledMs, later)
  {
    hide CatchUp, BackoffMs;
    assert t.firings + [] == t.firings;
  }

  /** Otherwise, while there is a next occurrence, the alarm waits for it, or until now if that has
      passed, but not past its retry; and then it tries afresh from the same occurrence. */
  lemma FailureHandsOver(r: Repeat, first: nat, id: nat, events: seq<Event>, next: nat, now: u64, later: u64)
    requires Waiting(r, first, id, events)
    requires var s := Exec(Start(r, first, id), events);
             var f := s.firings[|s.firings| - 1];
             && NextAfter(r, f.scheduledMs) == Some(next)
             && (MAX_ATTEMPTS <= f.attempt || next <= s.alarm.value.atMs)
    ensures var s := Exec(Start(r, first, id), events);
            TriesAfresh(Step(s, Report(|s.firings| - 1, false, now)),
                        Max(next, Min(now, s.alarm.value.atMs)), CoveredFrom(s.alarm.value), later)
  {
    hide Exec, NextAfter, TriesAfresh;
    LastAnswers(r, first, id, events);
    var s := Exec(Start(r, first, id), events);
    FreshTries(Step(s, Report(|s.firings| - 1, false, now)), later);
  }

  /** A success of the last firing is taken, and the alarm moves to the next occurrence and is due
      then, or is gone when there is none. */
  lemma SuccessMovesOn(r: Repeat, first: nat, id: nat, events: seq<Event>, now: u64)
    requires Waiting(r, first, id, events)
    ensures var s := Exec(Start(r, first, id), events);
            var a, f := s.alarm.value, s.firings[|s.firings| - 1];
            var t := Step(s, Report(|s.firings| - 1, true, now));
            && t.firings == s.firings
            && t.successes == s.successes + [Success(CoveredFrom(a), f.scheduledMs, f.missed)]
            && match NextAfter(r, f.scheduledMs)
               case None => t.alarm.None?
               case Some(next) => t.alarm == Some(Alarm(next, next, 0, id, Some(r), None))
  {
    hide Exec, NextAfter;
    LastAnswers(r, first, id, events);
    IdStays(r, first, id, events);
  }

  lemma IdStays(r: Repeat, first: nat, id: nat, events: seq<Event>)
    requires Exec(Start(r, first, id), events).alarm.Some?
    ensures Exec(Start(r, first, id), events).alarm.value.id == id
  {
    hide Exec, NextAfter, Nth, Partition, Anchored;
    ExecKeeps(r, first, id, events);
  }
}
