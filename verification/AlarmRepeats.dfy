/** In which runs the firings of an alarm come in order and late reports change nothing. */
module AlarmRepeats {
  import opened Base
  import Calendar
  import Cron
  import opened Alarms
  import opened AlarmRuns

  /** No begin of the run starts over on a truncated occurrence that was given up. */
  predicate NeverRepeats(s: State, events: seq<Event>) {
    forall i | 0 <= i < |events| && events[i].BeginAt? :: !Repeats(Exec(s, events[..i]), events[i].now)
  }

  /** Reports of all firings but the last leave the state as it is. */
  ghost predicate LateReportsIgnored(s: State) {
    forall k: nat, ok, now: u64 :: k + 1 < |s.firings| ==> Step(s, Report(k, ok, now)) == s
  }

  lemma PrefixRun(s: State, events: seq<Event>)
    requires events != []
    ensures var n := |events| - 1;
            NeverRepeats(s, events) <==>
              NeverRepeats(s, events[..n])
              && (events[n].BeginAt? ==> !Repeats(Exec(s, events[..n]), events[n].now))
  {
    hide Exec, Repeats;
    var n := |events| - 1;
    assert forall i :: 0 <= i < n ==> events[..n][i] == events[i] && events[..n][..i] == events[..i];
  }

  /** Under any run, firings strictly increase in occurrence and attempt exactly when no begin of the
      run starts over on a truncated occurrence that was given up. */
  lemma {:induction false} FiringsIncreaseIff(r: Repeat, first: nat, id: nat, events: seq<Event>)
    ensures Increasing(Exec(Start(r, first, id), events).firings) <==> NeverRepeats(Start(r, first, id), events)
  {
    hide Inv, StepBegin, StepReport, Increasing, Repeats, NeverRepeats;
    var s0 := Start(r, first, id);
    if events == [] {
      StartsInOrder(s0);
    } else {
      var n := |events| - 1;
      var s := Exec(s0, events[..n]);
      FiringsIncreaseIff(r, first, id, events[..n]);
      ExecKeeps(r, first, id, events[..n]);
      PrefixRun(s0, events);
      if s.alarm.None? {
        NothingRepeats(s);
      } else {
        match events[n]
        case BeginAt(now) => BeginKeeps(r, first, id, s, now);
        case Report(k, ok, now) => ReportsAddNoFiring(s, k, ok, now);
      }
    }
  }

  lemma StartsInOrder(s: State)
    requires s.firings == []
    ensures Increasing(s.firings) && NeverRepeats(s, [])
  {
  }

  lemma NothingRepeats(s: State)
    requires s.alarm.None?
    ensures forall now: u64 :: !Repeats(s, now)
  {
  }

  lemma ReportsAddNoFiring(s: State, k: nat, ok: bool, now: u64)
    ensures Step(s, Report(k, ok, now)).firings == s.firings
  {
  }

  /** In order, the report of any firing but the last answers nothing. */
  lemma InOrderIgnoresLate(r: Repeat, first: nat, id: nat, s: State)
    requires Inv(r, first, id, s) && Increasing(s.firings)
    ensures LateReportsIgnored(s)
  {
    hide Partition, NextAfter, Nth, Anchored, Behind, Current;
    forall k: nat, ok, now: u64 | k + 1 < |s.firings| && s.alarm.Some?
      ensures Step(s, Report(k, ok, now)) == s
    {
      assert s.successes + [] == s.successes;
      assert Less(s.firings[k], s.firings[|s.firings| - 1]);
    }
  }

  /** Right after a repeating begin, the success of an earlier firing is taken for the new one's. */
  lemma RepeatTakesLate(r: Repeat, first: nat, id: nat, s: State, now: u64)
    requires Inv(r, first, id, s) && s.alarm.Some? && Repeats(s, now)
    ensures !LateReportsIgnored(StepBegin(s, now))
  {
    hide Partition, NextAfter, Nth, CatchUp, BackoffMs, SatLater;
    var a := s.alarm.value;
    var e := Expected(r, first, s.successes).value;
    var k :| 0 <= k < |s.firings| && s.firings[k].missed == MAX_WALK && e <= s.firings[k].scheduledMs;
    FirstTryLands(r, e, a.atMs, now, s.firings[k]);
    assert FirstTried(s.firings, k);
    var j :| 0 <= j <= k && s.firings[j].attempt == 1 && s.firings[j].scheduledMs == s.firings[k].scheduledMs;
    var t := StepBegin(s, now);
    assert t.firings[j] == s.firings[j] && Answers(t.alarm.value, t.firings[j]);
    var u := Step(t, Report(j, true, now));
    assert |u.successes| == |t.successes| + 1;
    assert j + 1 < |t.firings| && u != t;
  }

  /** Under any run, reports of all firings but the last change nothing at every point of the run
      exactly when no begin of the run starts over on a truncated occurrence that was given up. */
  lemma LateReportsIff(r: Repeat, first: nat, id: nat, events: seq<Event>)
    ensures (forall i | 0 <= i <= |events| :: LateReportsIgnored(Exec(Start(r, first, id), events[..i])))
       <==> NeverRepeats(Start(r, first, id), events)
  {
    hide Exec, Inv, LateReportsIgnored, Repeats, StepBegin, StepReport;
    var s0 := Start(r, first, id);
    if NeverRepeats(s0, events) {
      forall i | 0 <= i <= |events| ensures LateReportsIgnored(Exec(s0, events[..i])) {
        assert forall j :: 0 <= j < i ==> events[..i][j] == events[j] && events[..i][..j] == events[..j];
        FiringsIncreaseIff(r, first, id, events[..i]);
        ExecKeeps(r, first, id, events[..i]);
        InOrderIgnoresLate(r, first, id, Exec(s0, events[..i]));
      }
    } else {
      var i :| 0 <= i < |events| && events[i].BeginAt? && Repeats(Exec(s0, events[..i]), events[i].now);
      var s := Exec(s0, events[..i]);
      ExecKeeps(r, first, id, events[..i]);
      assert s.alarm.Some? by { HasAlarm(s, events[i].now); }
      RepeatTakesLate(r, first, id, s, events[i].now);
      ExecNext(s0, events, i);
      assert !LateReportsIgnored(Exec(s0, events[..i + 1]));
    }
  }

  lemma HasAlarm(s: State, now: u64)
    requires Repeats(s, now)
    ensures s.alarm.Some?
  {
  }

  lemma ExecNext(s: State, events: seq<Event>, i: nat)
    requires i < |events|
    ensures Exec(s, events[..i + 1]) == Step(Exec(s, events[..i]), events[i])
  {
    assert events[..i + 1][..i] == events[..i];
  }

  /** A fixed period never repeats: its catching up has no step limit. */
  lemma PeriodsNeverRepeat(r: Repeat, first: nat, id: nat, events: seq<Event>)
    requires r.Every?
    ensures NeverRepeats(Start(r, first, id), events)
  {
    hide Exec, Partition, NextAfter, Nth;
    forall i | 0 <= i < |events| && events[i].BeginAt?
      ensures !Repeats(Exec(Start(r, first, id), events[..i]), events[i].now)
    {
      ExecKeeps(r, first, id, events[..i]);
    }
  }

  // ----------------------------------------------------------------- a run that repeats

  function AllOf(low: nat, count: nat): Cron.Field {
    Cron.Field(seq(count, _ => true), low, true)
  }

  /** The schedule of five stars. */
  function EveryMinute(): Repeat {
    Cron(Some(Cron.Schedule(AllOf(0, 60), AllOf(0, 24), AllOf(1, 31), AllOf(1, 12), AllOf(0, 7))))
  }

  lemma NamesEveryMinute(t: int)
    ensures Cron.Names(EveryMinute().schedule.value, t)
  {
    hide Calendar.CivilFromDays, Calendar.DaysFromCivil;
    Calendar.CivilIsExact(t / 86_400);
  }

  lemma NextMinute(m: nat)
    ensures NextAfter(EveryMinute(), 60_000 * m) == Some(60_000 * (m + 1))
  {
    hide Cron.Names;
    NamesEveryMinute(60 * (m + 1));
    assert 60_000 * m / 1000 == 60 * m && Cron.SearchStart(60 * m) == 60 * (m + 1);
  }

  lemma {:induction false} NthMinute(n: nat)
    ensures Nth(EveryMinute(), 0, n) == Some(60_000 * n)
  {
    hide NextAfter, EveryMinute;
    if 0 < n {
      NthMinute(n - 1);
      NextMinute(n - 1);
    }
  }

  const LATE: u64 := 60_000 * 1_000_001

  /** Catching up a million and one minutes stops at the millionth. */
  lemma CatchUpStops()
    ensures CatchUp(EveryMinute(), 0, LATE) == Caught(60_000 * MAX_WALK, MAX_WALK)
  {
    hide NextAfter, EveryMinute, Walk, CatchUp, Nth;
    var r := EveryMinute();
    assert r.Cron? by { EveryMinuteIsCron(); }
    CatchUpLands(r, 0, LATE);
    NthMinute(MAX_WALK);
    CatchUpReaches(r, 0, LATE, MAX_WALK);
  }

  lemma EveryMinuteIsCron()
    ensures EveryMinute().Cron?
  {
  }

  /** An alarm for every minute, found a million and one minutes late: it fires, reports a failure,
      and begins again at once. */
  const REPEATING := [BeginAt(LATE), Report(0, false, LATE), BeginAt(LATE)]

  function Stopped(id: nat): Firing {
    Firing(id, 60_000 * MAX_WALK, 1, MAX_WALK)
  }

  function Waiting(id: nat): Alarm {
    Alarm(LATE + 2000, 60_000 * MAX_WALK, 1, id, Some(EveryMinute()), Some(0))
  }

  function HandedOver(id: nat): Alarm {
    Alarm(LATE, 0, 0, id, Some(EveryMinute()), None)
  }

  /** Begun from the first minute, whether for the first time or after the give-up. */
  lemma BeginStops(id: nat, a: Alarm)
    requires a == Repeating(EveryMinute(), 0, id) || a == HandedOver(id)
    ensures Begin(a, LATE) == (Waiting(id), Some(Stopped(id)))
  {
    hide NextAfter, EveryMinute, CatchUp;
    assert BackoffMs(1) == 2000 by { assert Doubled(2000, 0) == 2000; }
    CatchUpStops();
  }

  lemma FailureHandsOver(id: nat)
    ensures Complete(Waiting(id), Stopped(id), false, LATE) == (HandedOver(id), Keep)
  {
    hide NextAfter, EveryMinute;
    NextMinute(MAX_WALK);
  }

  lemma SuccessMovesOn(id: nat)
    ensures Complete(Waiting(id), Stopped(id), true, LATE).1 == Keep
  {
    hide NextAfter, EveryMinute;
    NextMinute(MAX_WALK);
  }

  /** The two firings of that run are equal, and the first one's late success settles the second. */
  lemma TruncatedFiringRepeats(id: nat)
    ensures var s := Exec(Start(EveryMinute(), 0, id), REPEATING);
            && s.firings == [Stopped(id), Stopped(id)]
            && !NeverRepeats(Start(EveryMinute(), 0, id), REPEATING)
            && Step(s, Report(0, true, LATE)).successes == [Success(0, 60_000 * MAX_WALK, MAX_WALK)]
            && Step(s, Report(0, true, LATE)) == Step(s, Report(1, true, LATE))
  {
    hide EveryMinute, Exec, NeverRepeats, Begin, Complete;
    var s0 := Start(EveryMinute(), 0, id);
    var f := Stopped(id);
    BeginStops(id, Repeating(EveryMinute(), 0, id));
    BeginStops(id, HandedOver(id));
    FailureHandsOver(id);
    SuccessMovesOn(id);
    var s1, s2 := State(Some(Waiting(id)), [f], []), State(Some(HandedOver(id)), [f], []);
    var s3 := State(Some(Waiting(id)), [f, f], []);
    assert Step(s0, BeginAt(LATE)) == s1 && Step(s1, Report(0, false, LATE)) == s2 && Step(s2, BeginAt(LATE)) == s3;
    RunOfThree(s0, s1, s2, s3);
    FiringsIncreaseIff(EveryMinute(), 0, id, REPEATING);
    assert !Less(s3.firings[0], s3.firings[1]);
  }

  lemma RunOfThree(s0: State, s1: State, s2: State, s3: State)
    requires Step(s0, BeginAt(LATE)) == s1 && Step(s1, Report(0, false, LATE)) == s2
    requires Step(s2, BeginAt(LATE)) == s3
    ensures Exec(s0, REPEATING) == s3
  {
    hide Step;
    assert REPEATING[..0] == [];
    ExecNext(s0, REPEATING, 0);
    ExecNext(s0, REPEATING, 1);
    ExecNext(s0, REPEATING, 2);
    assert REPEATING[..3] == REPEATING;
  }
}
