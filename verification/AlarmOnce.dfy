/** A one-shot alarm under any run of begins and reports. */
module AlarmOnce {
  import opened Base
  import opened Alarms
  import opened AlarmRuns

  function StartOnce(atMs: nat, id: nat): State {
    State(Some(Once(atMs, id)), [], [])
  }

  /** Every firing is for the one occurrence, numbered from 1, and at most one success is taken, which
      ends the alarm. */
  predicate OnceOk(atMs: nat, id: nat, s: State) {
    && (forall k :: 0 <= k < |s.firings| ==> s.firings[k] == Firing(id, atMs, k + 1, 0))
    && (s.successes == [] || (s.successes == [Success(atMs, atMs, 0)] && s.alarm.None? && s.firings != []))
    && (s.alarm.Some? ==>
          && s.alarm.value.repeat.None? && s.alarm.value.coversFromMs.None?
          && s.alarm.value.id == id && s.alarm.value.scheduledMs == atMs
          && s.alarm.value.attempt == |s.firings|)
  }

  lemma OnceStep(atMs: nat, id: nat, s: State, e: Event)
    requires OnceOk(atMs, id, s)
    ensures OnceOk(atMs, id, Step(s, e))
  {
    hide BackoffMs, SatLater;
    assert s.successes + [] == s.successes && s.firings + [] == s.firings;
  }

  /** In every run, a one-shot alarm fires for its one occurrence only, its attempts counted one by
      one, and runs to success at most once, after which it is gone. */
  lemma {:induction false} OnceRuns(atMs: nat, id: nat, events: seq<Event>)
    ensures OnceOk(atMs, id, Exec(StartOnce(atMs, id), events))
  {
    hide OnceOk, Step;
    if events == [] {
      OnceStarts(atMs, id);
    } else {
      var n := |events| - 1;
      OnceRuns(atMs, id, events[..n]);
      OnceStep(atMs, id, Exec(StartOnce(atMs, id), events[..n]), events[n]);
    }
  }

  lemma OnceStarts(atMs: nat, id: nat)
    ensures OnceOk(atMs, id, StartOnce(atMs, id))
  {
  }

  /** At any point of any run, a report ends the alarm exactly when it is the last firing's and tells
      of success or of the last attempt; every other report changes nothing. */
  lemma OnceSettlesIff(atMs: nat, id: nat, events: seq<Event>, k: nat, ok: bool, now: u64)
    requires Exec(StartOnce(atMs, id), events).alarm.Some?
    requires k < |Exec(StartOnce(atMs, id), events).firings|
    ensures var s := Exec(StartOnce(atMs, id), events);
            var t := Step(s, Report(k, ok, now));
            && (t.alarm.None? <==> k + 1 == |s.firings| && (ok || MAX_ATTEMPTS <= k + 1))
            && (t.alarm.Some? ==> t == s)
  {
    hide Exec, NextAfter;
    OnceRuns(atMs, id, events);
    var s := Exec(StartOnce(atMs, id), events);
    assert s.successes + [] == s.successes;
  }
}
