/** A repeating alarm under any run of begins, reports, silence and give-ups. */
module AlarmRuns {
  import opened Base
  import Cron
  import CronTheorems
  import opened Alarms

  // --------------------------------------------------------------- occurrences

  /** The `n`-th occurrence after `from`. */
  function Nth(r: Repeat, from: nat, n: nat): Option<nat> {
    if n == 0 then Some(from)
    else
      match Nth(r, from, n - 1)
      case None => None
      case Some(x) => NextAfter(r, x)
  }

  /** The next occurrence is strictly later. */
  lemma NextIsLater(r: Repeat, after: nat)
    ensures NextAfter(r, after).Some? ==> after < NextAfter(r, after).value
  {
    if r.Cron? && r.schedule.Some? {
      CronTheorems.StartIsNextMinute(after / 1000);
    }
  }

  lemma {:induction false} NthRises(r: Repeat, from: nat, m: nat, n: nat)
    requires m <= n && Nth(r, from, n).Some?
    ensures Nth(r, from, m).Some? && Nth(r, from, m).value + (n - m) <= Nth(r, from, n).value
    decreases n
  {
    hide NextAfter;
    if m < n {
      NthRises(r, from, m, n - 1);
      NextIsLater(r, Nth(r, from, n - 1).value);
    }
  }

  /** Occurrences come in order of their index, and the one after the smaller is at most the larger. */
  lemma NthOrder(r: Repeat, from: nat, m: nat, n: nat)
    requires Nth(r, from, m).Some? && Nth(r, from, n).Some?
    ensures m < n <==> Nth(r, from, m).value < Nth(r, from, n).value
    ensures m == n <==> Nth(r, from, m) == Nth(r, from, n)
    ensures m < n ==> && NextAfter(r, Nth(r, from, m).value).Some?
                      && NextAfter(r, Nth(r, from, m).value).value <= Nth(r, from, n).value
  {
    hide NextAfter;
    if m < n {
      NthRises(r, from, m, n);
      NthRises(r, from, m + 1, n);
    } else {
      NthRises(r, from, n, m);
    }
  }

  lemma {:induction false} NthShift(r: Repeat, from: nat, n: nat)
    requires NextAfter(r, from).Some?
    ensures Nth(r, from, n + 1) == Nth(r, NextAfter(r, from).value, n)
  {
    hide NextAfter;
    if 0 < n {
      NthShift(r, from, n - 1);
    } else {
      assert Nth(r, from, 0) == Some(from);
    }
  }

  // ------------------------------------------------------------------ catching up

  /** A walk ends on the occurrence it counted to, and stops only when out of steps or up to date. */
  lemma {:induction false} WalkLands(r: Repeat, at: nat, now: nat, budget: nat)
    ensures var w := Walk(r, at, now, budget);
            && w.skipped <= budget
            && Nth(r, at, w.skipped) == Some(w.latest)
            && (w.skipped == budget || NextAfter(r, w.latest).None? || now < NextAfter(r, w.latest).value)
            && (at <= now ==> w.latest <= now)
    decreases budget
  {
    hide NextAfter;
    if 0 < budget && NextAfter(r, at).Some? && NextAfter(r, at).value <= now {
      var next := NextAfter(r, at).value;
      WalkLands(r, next, now, budget - 1);
      NthShift(r, at, Walk(r, next, now, budget - 1).skipped);
    }
  }

  lemma {:induction false} NthEvery(r: Repeat, from: nat, n: nat)
    requires r.Every? && from + Times(n, Period(r.seconds)) <= U64_MAX
    ensures Nth(r, from, n) == Some(from + Times(n, Period(r.seconds)))
  {
    hide Period;
    var p := Period(r.seconds);
    if 0 < n {
      assert Times(n, p) == Times(n - 1, p) + p by { assert n * p == (n - 1) * p + p; }
      NthEvery(r, from, n - 1);
    }
  }

  /** A fixed period jumps to the last occurrence at or before now. */
  lemma JumpLands(from: nat, now: nat, every: nat)
    requires from < now && 0 < every
    ensures var j := Jump(from, now, every);
            j.latest == from + Times(j.skipped, every) <= now < j.latest + every
  {
    var steps := (now - from) / every;
    assert steps * every <= now - from < steps * every + every;
  }

  /** Whatever the kind of schedule, catching up lands on the occurrence it counted to. */
  lemma CatchUpLands(r: Repeat, from: nat, now: u64)
    requires from <= now
    ensures var c := CatchUp(r, from, now);
            && Nth(r, from, c.skipped) == Some(c.latest) && c.latest <= now
            && (r.Cron? ==> c.skipped <= MAX_WALK)
            && ((r.Cron? && c.skipped == MAX_WALK)
                || NextAfter(r, c.latest).None? || now < NextAfter(r, c.latest).value)
  {
    hide Cron.NextNamed, Nth, Walk;
    if from == now {
      NextIsLater(r, from);
      assert Nth(r, from, 0) == Some(from) by { NthZero(r, from); }
    } else if r.Cron? {
      WalkLands(r, from, now, MAX_WALK);
    } else {
      JumpLands(from, now, Period(r.seconds));
      NthEvery(r, from, CatchUp(r, from, now).skipped);
    }
  }

  lemma NthZero(r: Repeat, from: nat)
    ensures Nth(r, from, 0) == Some(from)
  {
  }

  /** Catching up to `now` reaches every occurrence at or before it that the walk has steps for. */
  lemma CatchUpReaches(r: Repeat, from: nat, now: u64, m: nat)
    requires from <= now && Nth(r, from, m).Some? && Nth(r, from, m).value <= now
    requires r.Cron? ==> m <= MAX_WALK
    ensures m <= CatchUp(r, from, now).skipped
  {
    hide NextAfter, Walk, CatchUp;
    CatchUpLands(r, from, now);
    var c := CatchUp(r, from, now);
    if c.skipped < m {
      NthOrder(r, from, c.skipped, m);
    }
  }

  /** The closed form of a fixed period equals the step-by-step walk. */
  lemma JumpIsWalk(seconds: nat, from: nat, now: u64, budget: nat)
    requires from < now && CatchUp(Every(seconds), from, now).skipped < budget
    ensures CatchUp(Every(seconds), from, now) == Walk(Every(seconds), from, now, budget)
  {
    hide NextAfter, Walk, CatchUp;
    var r := Every(seconds);
    CatchUpLands(r, from, now);
    WalkLands(r, from, now, budget);
    var c, w := CatchUp(r, from, now), Walk(r, from, now, budget);
    NthOrder(r, from, c.skipped, w.skipped);
    NthOrder(r, from, w.skipped, c.skipped);
  }

  // ------------------------------------------------------------------------ runs

  /** A completed run of the handler: the occurrences from `from` through `to`. */
  datatype Success = Success(from: nat, upTo: nat, missed: nat)

  /** The stored alarm, every firing ever begun, and every success reported in time. */
  datatype State = State(alarm: Option<Alarm>, firings: seq<Firing>, successes: seq<Success>)

  /** A firing begins, or the `k`-th firing reports, however late. A firing that dies reports never. */
  datatype Event = BeginAt(now: u64) | Report(k: nat, ok: bool, now: u64)

  function CoveredFrom(a: Alarm): nat {
    if a.coversFromMs.Some? then a.coversFromMs.value else a.scheduledMs
  }

  function StepBegin(s: State, now: u64): State
    requires s.alarm.Some?
  {
    var (a, f) := Begin(s.alarm.value, now);
    s.(alarm := Some(a), firings := s.firings + if f.Some? then [f.value] else [])
  }

  function StepReport(s: State, k: nat, ok: bool, now: u64): State
    requires s.alarm.Some? && k < |s.firings|
  {
    var a, f := s.alarm.value, s.firings[k];
    var (after, settled) := Complete(a, f, ok, now);
    State(if settled.Remove? then None else Some(after), s.firings,
          s.successes + if ok && Answers(a, f) then [Success(CoveredFrom(a), a.scheduledMs, f.missed)] else [])
  }

  function Step(s: State, e: Event): State {
    if s.alarm.None? then s
    else
      match e
      case BeginAt(now) => StepBegin(s, now)
      case Report(k, ok, now) => if k < |s.firings| then StepReport(s, k, ok, now) else s
  }

  function Exec(s: State, events: seq<Event>): State {
    if events == [] then s else Step(Exec(s, events[..|events| - 1]), events[|events| - 1])
  }

  function Start(r: Repeat, first: nat, id: nat): State {
    State(Some(Repeating(r, first, id)), [], [])
  }

  // ------------------------------------------------------------------- invariant

  /** The occurrence the next success must start from. */
  function Expected(r: Repeat, first: nat, successes: seq<Success>): Option<nat> {
    if successes == [] then Some(first) else NextAfter(r, successes[|successes| - 1].upTo)
  }

  /** Successes cut the occurrences into consecutive intervals from the first, and each counts the
      occurrences of its interval before the one it ran for. */
  predicate Partition(r: Repeat, first: nat, successes: seq<Success>) {
    && (forall i :: 0 <= i < |successes| ==>
          Nth(r, successes[i].from, successes[i].missed) == Some(successes[i].upTo))
    && (0 < |successes| ==> successes[0].from == first)
    && (forall i, j | 0 <= i < |successes| && 0 <= j < |successes| && j == i + 1 ::
          NextAfter(r, successes[i].upTo) == Some(successes[j].from))
  }

  /** A firing that belongs to the interval starting at `e`. */
  predicate Current(r: Repeat, e: nat, f: Firing) {
    Nth(r, e, f.missed) == Some(f.scheduledMs) && (r.Cron? ==> f.missed <= MAX_WALK)
  }

  /** Between firings, nothing begun so far reaches the time the alarm is due. */
  predicate Behind(r: Repeat, e: nat, at: nat, f: Firing) {
    || f.scheduledMs < e
    || (&& Current(r, e, f)
        && NextAfter(r, f.scheduledMs).Some? && NextAfter(r, f.scheduledMs).value <= at)
  }

  predicate AlarmOk(r: Repeat, e: nat, id: nat, a: Alarm, firings: seq<Firing>) {
    && a.repeat == Some(r) && a.id == id
    && (forall k :: 0 <= k < |firings| ==> 1 <= firings[k].attempt && firings[k].id == id)
    && if a.attempt == 0 then
         && a.coversFromMs == None && a.scheduledMs == e && e <= a.atMs
         && (forall k :: 0 <= k < |firings| ==> Behind(r, e, a.atMs, firings[k]))
       else
         && a.coversFromMs == Some(e) && firings != [] && a.scheduledMs <= U64_MAX
         && (var last := firings[|firings| - 1];
             Answers(a, last) && Current(r, e, last))
         && (forall k :: 0 <= k < |firings| ==>
               firings[k].scheduledMs < e || (Current(r, e, firings[k]) && firings[k].scheduledMs <= a.scheduledMs))
  }

  predicate Less(f: Firing, g: Firing) {
    f.scheduledMs < g.scheduledMs || (f.scheduledMs == g.scheduledMs && f.attempt < g.attempt)
  }

  predicate Increasing(firings: seq<Firing>) {
    forall i, j | 0 <= i < j < |firings| :: Less(firings[i], firings[j])
  }

  /** Among the firings, one of the current interval whose walk ran out of steps. */
  predicate Truncated(r: Repeat, e: nat, firings: seq<Firing>) {
    r.Cron? && exists k :: 0 <= k < |firings| && firings[k].missed == MAX_WALK && e <= firings[k].scheduledMs
  }

  /** Every firing has a first try for the same occurrence, itself or an earlier one. */
  predicate Anchored(firings: seq<Firing>) {
    forall k | 0 <= k < |firings| :: FirstTried(firings, k)
  }

  predicate FirstTried(firings: seq<Firing>, k: nat)
    requires k < |firings|
  {
    exists j :: 0 <= j <= k && firings[j].attempt == 1 && firings[j].scheduledMs == firings[k].scheduledMs
  }

  predicate Inv(r: Repeat, first: nat, id: nat, s: State) {
    && Partition(r, first, s.successes)
    && Anchored(s.firings)
    && (s.alarm.Some? ==>
          && Expected(r, first, s.successes).Some?
          && AlarmOk(r, Expected(r, first, s.successes).value, id, s.alarm.value, s.firings))
  }

  // ------------------------------------------------------------------ each event

  /** A first try catches up past everything begun before, by at least one occurrence unless the
      walk ran out of steps. */
  lemma FirstTryLands(r: Repeat, e: nat, at: nat, now: u64, f: Firing)
    requires e <= at <= now && Behind(r, e, at, f)
    ensures var c := CatchUp(r, e, now);
            && Nth(r, e, c.skipped) == Some(c.latest) && (r.Cron? ==> c.skipped <= MAX_WALK)
            && e <= c.latest && f.scheduledMs <= c.latest
            && (r.Every? || f.missed < MAX_WALK || f.scheduledMs < e ==> f.scheduledMs < c.latest)
            && (r.Cron? && f.missed == MAX_WALK && e <= f.scheduledMs ==> f.scheduledMs == c.latest)
  {
    hide NextAfter, CatchUp;
    CatchUpLands(r, e, now);
    var c := CatchUp(r, e, now);
    NthRises(r, e, 0, c.skipped);
    if e <= f.scheduledMs {
      NextIsLater(r, f.scheduledMs);
      CatchUpReaches(r, e, now, f.missed);
      NthOrder(r, e, f.missed, c.skipped);
      if r.Every? || f.missed < MAX_WALK {
        CatchUpReaches(r, e, now, f.missed + 1);
      }
    }
  }

  lemma FirstTryKeeps(r: Repeat, e: nat, id: nat, a: Alarm, firings: seq<Firing>, now: u64)
    requires AlarmOk(r, e, id, a, firings) && a.attempt == 0 && a.atMs <= now
    ensures var (b, f) := Begin(a, now);
            && f.Some? && AlarmOk(r, e, id, b, firings + [f.value])
            && (Increasing(firings + [f.value]) <==> Increasing(firings) && !Truncated(r, e, firings))
            && (Anchored(firings) ==> Anchored(firings + [f.value]))
  {
    hide NextAfter, CatchUp, BackoffMs, SatLater, Nth, Increasing, Anchored;
    NthZero(r, e);
    CatchUpLands(r, e, now);
    NthRises(r, e, 0, CatchUp(r, e, now).skipped);
    forall k | 0 <= k < |firings|
      ensures firings[k].scheduledMs <= CatchUp(r, e, now).latest
      ensures !Truncated(r, e, firings) ==> firings[k].scheduledMs < CatchUp(r, e, now).latest
      ensures r.Cron? && firings[k].missed == MAX_WALK && e <= firings[k].scheduledMs ==>
                firings[k].scheduledMs == CatchUp(r, e, now).latest
    {
      FirstTryLands(r, e, a.atMs, now, firings[k]);
    }
    var f := Begin(a, now).1.value;
    if Truncated(r, e, firings) {
      var k :| 0 <= k < |firings| && firings[k].missed == MAX_WALK && e <= firings[k].scheduledMs;
      IncreasingAppend(firings, f, k);
    } else {
      IncreasingAppend(firings, f, 0);
    }
    AnchoredAppend(firings, f);
  }

  /** The appended firing keeps the order exactly when it comes after each. */
  lemma IncreasingAppend(firings: seq<Firing>, f: Firing, k: nat)
    ensures (forall i :: 0 <= i < |firings| ==> Less(firings[i], f)) ==>
              (Increasing(firings + [f]) <==> Increasing(firings))
    ensures k < |firings| && !Less(firings[k], f) ==> !Increasing(firings + [f])
  {
    var all := firings + [f];
    assert forall i :: 0 <= i < |firings| ==> all[i] == firings[i];
    assert all[|firings|] == f;
    if k < |firings| {
      assert all[k] == firings[k];
    }
  }

  lemma AnchoredAppend(firings: seq<Firing>, f: Firing)
    requires f.attempt == 1 || (firings != [] && firings[|firings| - 1].scheduledMs == f.scheduledMs)
    ensures Anchored(firings) ==> Anchored(firings + [f])
  {
    if Anchored(firings) {
      var all := firings + [f];
      forall k | 0 <= k < |all|
        ensures FirstTried(all, k)
      {
        if k < |firings| || f.attempt != 1 {
          var m := Min(k, |firings| - 1);
          assert FirstTried(firings, m);
          var j :| 0 <= j <= m && firings[j].attempt == 1 && firings[j].scheduledMs == firings[m].scheduledMs;
          assert all[j] == firings[j];
        } else {
          assert all[k] == f;
        }
      }
    }
  }

  /** Trying again covers exactly what the first try covered. */
  lemma RetryKeeps(r: Repeat, e: nat, id: nat, a: Alarm, firings: seq<Firing>, now: u64)
    requires AlarmOk(r, e, id, a, firings) && a.attempt != 0 && a.atMs <= now
    ensures var (b, f) := Begin(a, now);
            && f.Some? && AlarmOk(r, e, id, b, firings + [f.value])
            && (Increasing(firings + [f.value]) <==> Increasing(firings))
            && (Anchored(firings) ==> Anchored(firings + [f.value]))
  {
    hide NextAfter, CatchUp, BackoffMs, SatLater, Nth, Anchored;
    var last := firings[|firings| - 1];
    NthZero(r, e);
    NthRises(r, e, 0, last.missed);
    CatchUpLands(r, e, a.scheduledMs);
    CatchUpReaches(r, e, a.scheduledMs, last.missed);
    NthOrder(r, e, last.missed, CatchUp(r, e, a.scheduledMs).skipped);
    var f := Begin(a, now).1.value;
    forall k | 0 <= k < |firings| && Increasing(firings)
      ensures Less(firings[k], f)
    {
      assert k == |firings| - 1 || Less(firings[k], last);
    }
    if Increasing(firings) {
      IncreasingAppend(firings, f, 0);
    } else {
      IncreasingPrefix(firings, f);
    }
    AnchoredAppend(firings, f);
  }

  lemma IncreasingPrefix(firings: seq<Firing>, f: Firing)
    ensures Increasing(firings + [f]) ==> Increasing(firings)
  {
    var all := firings + [f];
    assert forall i :: 0 <= i < |firings| ==> all[i] == firings[i];
  }

  /** A due begin that starts over on an occurrence already given up: the interval it covers has a
      firing whose walk ran out of steps. */
  predicate Repeats(s: State, now: u64) {
    && s.alarm.Some? && s.alarm.value.repeat.Some? && s.alarm.value.attempt == 0 && s.alarm.value.atMs <= now
    && Truncated(s.alarm.value.repeat.value, s.alarm.value.scheduledMs, s.firings)
  }

  lemma BeginKeeps(r: Repeat, first: nat, id: nat, s: State, now: u64)
    requires Inv(r, first, id, s) && s.alarm.Some?
    ensures Inv(r, first, id, StepBegin(s, now))
    ensures Increasing(StepBegin(s, now).firings) <==> Increasing(s.firings) && !Repeats(s, now)
  {
    hide NextAfter, AlarmOk, Partition, Increasing, Begin, Anchored, Truncated;
    AlarmShape(r, Expected(r, first, s.successes).value, id, s.alarm.value, s.firings);
    var a := s.alarm.value;
    var e := Expected(r, first, s.successes).value;
    if now < a.atMs {
      NotDue(a, now);
      assert s.firings + [] == s.firings;
    } else {
      if a.attempt == 0 {
        FirstTryKeeps(r, e, id, a, s.firings, now);
      } else {
        RetryKeeps(r, e, id, a, s.firings, now);
      }
    }
  }

  lemma NotDue(a: Alarm, now: nat)
    requires now < a.atMs
    ensures Begin(a, now) == (a, None)
  {
  }

  /** The firing an alarm waits for stands for exactly the occurrences since the last success. */
  lemma AnsweredStands(r: Repeat, e: nat, id: nat, a: Alarm, firings: seq<Firing>, k: nat)
    requires AlarmOk(r, e, id, a, firings) && k < |firings| && Answers(a, firings[k])
    ensures a.attempt != 0 && CoveredFrom(a) == e
    ensures e <= a.scheduledMs && Nth(r, e, firings[k].missed) == Some(a.scheduledMs)
  {
    hide NextAfter;
    var last := firings[|firings| - 1];
    NthRises(r, e, 0, last.missed);
  }

  /** Nothing begun so far goes past the firing that reports, so all of it lies behind whatever
      comes next. */
  lemma AllBehindNext(r: Repeat, e: nat, id: nat, a: Alarm, firings: seq<Firing>, next: nat, at: nat, k: nat)
    requires AlarmOk(r, e, id, a, firings) && a.attempt != 0 && k < |firings|
    requires NextAfter(r, a.scheduledMs) == Some(next) && next <= at
    ensures firings[k].scheduledMs < next && Behind(r, e, at, firings[k])
    ensures Behind(r, next, at, firings[k])
    ensures e < next
  {
    hide NextAfter;
    var last, f := firings[|firings| - 1], firings[k];
    NextIsLater(r, a.scheduledMs);
    NthRises(r, e, 0, last.missed);
    if e <= f.scheduledMs && f.scheduledMs < a.scheduledMs {
      NthOrder(r, e, f.missed, last.missed);
    }
  }

  lemma ReportKeeps(r: Repeat, first: nat, id: nat, s: State, k: nat, ok: bool, now: u64)
    requires Inv(r, first, id, s) && s.alarm.Some? && k < |s.firings|
    ensures Inv(r, first, id, StepReport(s, k, ok, now))
  {
    hide NextAfter, AlarmOk, Anchored, Nth, Partition;
    var a, f := s.alarm.value, s.firings[k];
    var e := Expected(r, first, s.successes).value;
    if !Answers(a, f) {
      assert s.successes + [] == s.successes;
    } else {
      AnsweredStands(r, e, id, a, s.firings, k);
      assert a.repeat == Some(r) by { AlarmShape(r, e, id, a, s.firings); }
      var next := NextAfter(r, a.scheduledMs);
      if ok {
        SuccessAdded(r, first, s.successes, Success(e, a.scheduledMs, f.missed));
      } else {
        assert s.successes + [] == s.successes;
      }
      if next.Some? {
        SettledKeeps(r, e, id, a, s.firings, next.value, now);
      }
    }
  }

  lemma AlarmShape(r: Repeat, e: nat, id: nat, a: Alarm, firings: seq<Firing>)
    requires AlarmOk(r, e, id, a, firings)
    ensures a.repeat == Some(r) && (a.attempt == 0 ==> a.scheduledMs == e)
  {
  }

  lemma SuccessAdded(r: Repeat, first: nat, successes: seq<Success>, x: Success)
    requires Partition(r, first, successes) && Expected(r, first, successes) == Some(x.from)
    requires Nth(r, x.from, x.missed) == Some(x.upTo)
    ensures Partition(r, first, successes + [x])
    ensures Expected(r, first, successes + [x]) == NextAfter(r, x.upTo)
  {
    hide Nth, NextAfter;
  }

  /** Moving on and handing over both leave a good alarm. */
  lemma SettledKeeps(r: Repeat, e: nat, id: nat, a: Alarm, firings: seq<Firing>, next: nat, now: u64)
    requires AlarmOk(r, e, id, a, firings) && a.attempt != 0 && NextAfter(r, a.scheduledMs) == Some(next)
    ensures AlarmOk(r, next, id, MoveOn(a, next), firings)
    ensures AlarmOk(r, e, id, HandOver(a, next, now), firings)
  {
    hide NextAfter, Nth, Behind, Current;
    var at := HandOver(a, next, now).atMs;
    NextIsLater(r, a.scheduledMs);
    assert e < next by { AllBehindNext(r, e, id, a, firings, next, at, |firings| - 1); }
    forall k | 0 <= k < |firings|
      ensures Behind(r, next, next, firings[k]) && Behind(r, e, at, firings[k])
    {
      AllBehindNext(r, e, id, a, firings, next, next, k);
      AllBehindNext(r, e, id, a, firings, next, at, k);
    }
  }

  lemma {:induction false} ExecKeeps(r: Repeat, first: nat, id: nat, events: seq<Event>)
    ensures Inv(r, first, id, Exec(Start(r, first, id), events))
  {
    hide Inv, StepBegin, StepReport;
    if events == [] {
      StartOk(r, first, id);
    } else {
      var n := |events| - 1;
      var s := Exec(Start(r, first, id), events[..n]);
      ExecKeeps(r, first, id, events[..n]);
      if s.alarm.Some? {
        match events[n]
        case BeginAt(now) => BeginKeeps(r, first, id, s, now);
        case Report(k, ok, now) =>
          if k < |s.firings| {
            ReportKeeps(r, first, id, s, k, ok, now);
          }
      }
    }
  }

  lemma StartOk(r: Repeat, first: nat, id: nat)
    ensures Inv(r, first, id, Start(r, first, id))
  {
  }

  // -------------------------------------------------------------------- theorems

  /** Under any run, the successes partition the occurrences of the schedule into consecutive
      intervals from the first, with no gap and no overlap, and each success's `missed` is exactly
      the number of earlier occurrences in its interval. */
  lemma SuccessesPartitionOccurrences(r: Repeat, first: nat, id: nat, events: seq<Event>)
    ensures Partition(r, first, Exec(Start(r, first, id), events).successes)
  {
    hide Partition, Exec;
    ExecKeeps(r, first, id, events);
  }

  /** After a give-up, the next firing is for a later occurrence exactly when the given-up firing's
      walk had not run out of steps. Otherwise it repeats the same occurrence and attempt, and the
      two firings' reports cannot be told apart. */
  lemma HandedOverFiringMovesOn(r: Repeat, e: nat, id: nat, a: Alarm, firings: seq<Firing>, now: u64)
    requires AlarmOk(r, e, id, a, firings) && a.attempt == 0 && a.atMs <= now
    requires firings != [] && e <= firings[|firings| - 1].scheduledMs
    ensures var f := firings[|firings| - 1];
            var g := Begin(a, now).1;
            && g.Some? && g.value.attempt == 1
            && (r.Every? || f.missed < MAX_WALK <==> f.scheduledMs < g.value.scheduledMs)
            && (r.Cron? && f.missed == MAX_WALK ==> g.value.scheduledMs == f.scheduledMs)
  {
    hide NextAfter, CatchUp, Nth, BackoffMs, SatLater;
    FirstTryLands(r, e, a.atMs, now, firings[|firings| - 1]);
  }
}
