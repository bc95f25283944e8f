/** Durable alarms: when a firing begins, what it stands for, and what its report settles. Times are
    milliseconds since the epoch. */
module Alarms {
  import opened Base
  import Cron

  const BACKOFF_BASE_MS := 2_000
  const MAX_BACKOFF_SHIFT := 6
  const MAX_ATTEMPTS := 7
  const MAX_WALK := 1_000_000

  /** How a scheduled alarm comes round again: a cron text, read or unreadable, or a period. */
  datatype Repeat = Cron(schedule: Option<Cron.Schedule>) | Every(seconds: nat)

  datatype Alarm = Alarm(
    atMs: nat, scheduledMs: nat, attempt: nat, id: nat, repeat: Option<Repeat>, coversFromMs: Option<nat>)

  datatype Firing = Firing(id: nat, scheduledMs: nat, attempt: nat, missed: nat)

  datatype Settled = Keep | Remove

  /** An occurrence, and how many a walk passed over to reach it. */
  datatype Caught = Caught(latest: nat, skipped: nat)

  function Once(atMs: nat, id: nat): Alarm {
    Alarm(atMs, atMs, 0, id, None, None)
  }

  function Repeating(repeat: Repeat, firstMs: nat, id: nat): Alarm {
    Alarm(firstMs, firstMs, 0, id, Some(repeat), None)
  }

  // ---------------------------------------------------------------- schedules

  function Period(seconds: nat): (p: nat)
    ensures 0 < p
  {
    Max(seconds, 1) * 1000
  }

  /** `Repeat::next_after`. */
  function NextAfter(r: Repeat, afterMs: nat): Option<nat> {
    match r
    case Cron(None) => None
    case Cron(Some(s)) =>
      (match Cron.NextNamed(s, afterMs / 1000)
       case None => None
       case Some(secs) => Some(Max(secs, 0) * 1000))
    case Every(seconds) => if afterMs + Period(seconds) <= U64_MAX then Some(afterMs + Period(seconds)) else None
  }

  /** The cron walk: from one occurrence to the last at or before `now`, at most `budget` steps. */
  function Walk(r: Repeat, at: nat, now: nat, budget: nat): Caught
    decreases budget
  {
    if budget == 0 then Caught(at, 0)
    else
      match NextAfter(r, at)
      case Some(next) =>
        if next <= now then var rest := Walk(r, next, now, budget - 1); rest.(skipped := rest.skipped + 1)
        else Caught(at, 0)
      case None => Caught(at, 0)
  }

  function Times(a: nat, b: nat): nat {
    a * b
  }

  /** A fixed period is caught up by division. */
  function Jump(from: nat, now: nat, every: nat): Caught
    requires from < now && 0 < every
  {
    var steps := (now - from) / every;
    Caught(from + Times(steps, every), steps)
  }

  /** `Repeat::catch_up`. */
  function CatchUp(r: Repeat, from: nat, now: nat): Caught {
    if now <= from then Caught(from, 0)
    else
      match r
      case Every(seconds) => Jump(from, now, Period(seconds))
      case Cron(_) => Walk(r, from, now, MAX_WALK)
  }

  method CatchUpTo(r: Repeat, from: nat, now: nat) returns (latest: nat, skipped: nat)
    ensures Caught(latest, skipped) == CatchUp(r, from, now)
  {
    hide NextAfter, Times, Period;
    if now <= from {
      return from, 0;
    }
    if r.Every? {
      var every := Period(r.seconds);
      var steps := (now - from) / every;
      return from + Times(steps, every), steps;
    }
    latest, skipped := from, 0;
    while skipped < MAX_WALK
      invariant skipped <= MAX_WALK
      invariant var rest := Walk(r, latest, now, MAX_WALK - skipped);
                Walk(r, from, now, MAX_WALK) == rest.(skipped := skipped + rest.skipped)
    {
      var next := NextAfter(r, latest);
      if next.None? || now < next.value {
        return;
      }
      latest := next.value;
      skipped := skipped + 1;
    }
  }

  // ------------------------------------------------------------------- firings

  function Doubled(base: nat, times: nat): nat {
    if times == 0 then base else 2 * Doubled(base, times - 1)
  }

  /** `backoff_ms`. */
  function BackoffMs(attempt: nat): nat {
    Doubled(BACKOFF_BASE_MS, Min(if attempt == 0 then 0 else attempt - 1, MAX_BACKOFF_SHIFT))
  }

  /** What a begin makes of the occurrence and how many it stands for besides. */
  function Reach(a: Alarm, now: nat): (Alarm, nat) {
    if a.repeat.None? then (a, 0)
    else
      var from := if a.coversFromMs.Some? then a.coversFromMs.value else a.scheduledMs;
      if a.attempt == 0 then
        var caught := CatchUp(a.repeat.value, a.scheduledMs, now);
        (a.(scheduledMs := caught.latest, coversFromMs := Some(from)), caught.skipped)
      else if a.coversFromMs.Some? then (a, CatchUp(a.repeat.value, from, a.scheduledMs).skipped)
      else (a, 0)
  }

  function SatLater(now: nat, wait: nat): nat {
    Min(now + wait, U64_MAX)
  }

  /** `begin`. */
  function Begin(a: Alarm, now: nat): (Alarm, Option<Firing>) {
    if now < a.atMs then (a, None)
    else
      var (reached, missed) := Reach(a, now);
      var attempt := a.attempt + 1;
      (reached.(attempt := attempt, atMs := SatLater(now, BackoffMs(attempt))),
       Some(Firing(a.id, reached.scheduledMs, attempt, missed)))
  }

  /** The report is about the firing this alarm is waiting for. */
  predicate Answers(a: Alarm, f: Firing) {
    a.id == f.id && a.attempt == f.attempt && a.scheduledMs == f.scheduledMs
  }

  function NextOccurrence(a: Alarm, f: Firing): Option<nat> {
    if a.repeat.None? then None else NextAfter(a.repeat.value, f.scheduledMs)
  }

  function MoveOn(a: Alarm, next: nat): Alarm {
    a.(atMs := next, scheduledMs := next, attempt := 0, coversFromMs := None)
  }

  /** A given-up occurrence is handed to the next run: the alarm points back at what it covered. */
  function HandOver(a: Alarm, next: nat, now: nat): Alarm {
    a.(atMs := Max(next, Min(now, a.atMs)),
       scheduledMs := if a.coversFromMs.Some? then a.coversFromMs.value else a.scheduledMs,
       attempt := 0, coversFromMs := None)
  }

  /** `complete`. */
  function Complete(a: Alarm, f: Firing, ok: bool, now: nat): (Alarm, Settled) {
    if !Answers(a, f) then (a, Keep)
    else
      match NextOccurrence(a, f)
      case None =>
        if ok || MAX_ATTEMPTS <= f.attempt then (a, Remove) else (a, Keep)
      case Some(next) =>
        if ok then (MoveOn(a, next), Keep)
        else if MAX_ATTEMPTS <= f.attempt || next <= a.atMs then (HandOver(a, next, now), Keep)
        else (a, Keep)
  }

  /** An alarm as its owner updates it. */
  class Record {
    var alarm: Alarm

    constructor (a: Alarm)
      ensures alarm == a
    {
      alarm := a;
    }

    method BeginAt(now: nat) returns (firing: Option<Firing>)
      modifies this
      ensures (alarm, firing) == Begin(old(alarm), now)
    {
      hide CatchUp, BackoffMs, SatLater;
      if alarm.atMs > now {
        return None;
      }
      var missed := 0;
      if alarm.repeat.Some? {
        if alarm.attempt == 0 {
          var from := alarm.scheduledMs;
          var latest, skipped := CatchUpTo(alarm.repeat.value, from, now);
          alarm := alarm.(scheduledMs := latest,
                          coversFromMs := Some(if alarm.coversFromMs.Some? then alarm.coversFromMs.value else from));
          missed := skipped;
        } else if alarm.coversFromMs.Some? {
          var _, skipped := CatchUpTo(alarm.repeat.value, alarm.coversFromMs.value, alarm.scheduledMs);
          missed := skipped;
        }
      }
      alarm := alarm.(attempt := alarm.attempt + 1);
      alarm := alarm.(atMs := SatLater(now, BackoffMs(alarm.attempt)));
      return Some(Firing(alarm.id, alarm.scheduledMs, alarm.attempt, missed));
    }

    method CompleteWith(firing: Firing, ok: bool, now: nat) returns (settled: Settled)
      modifies this
      ensures (alarm, settled) == Complete(old(alarm), firing, ok, now)
    {
      if alarm.id != firing.id || alarm.attempt != firing.attempt || alarm.scheduledMs != firing.scheduledMs {
        return Keep;
      }
      var next := NextOccurrence(alarm, firing);
      if ok {
        if next.None? {
          return Remove;
        }
        alarm := MoveOn(alarm, next.value);
        return Keep;
      }
      if MAX_ATTEMPTS <= firing.attempt {
        if next.None? {
          return Remove;
        }
        alarm := HandOver(alarm, next.value, now);
        return Keep;
      }
      if next.Some? && next.value <= alarm.atMs {
        alarm := HandOver(alarm, next.value, now);
      }
      return Keep;
    }
  }
}
