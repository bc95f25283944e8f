/** What a publisher achieves when left alone, and when it gives up among others. */
module ArchiveAlone {
  import opened Base
  import opened Archive
  import opened ArchiveTheorems
  import opened ArchiveProtocol
  import opened ArchivePublisher

  // --------------------------------------------------------------- giving up

  /** The conditional head write `p` is about to make is told to have been made. */
  predicate Accepted(s: System, p: nat, answer: Answer) {
    p in s.callers && s.callers[p].Heading? && s.callers[p].version == |s.store.heads| && answer.Told?
  }

  /** How many head writes the call of `p` has lost in a row. */
  function Lost(c: Config, actions: seq<Action>, p: nat): nat {
    if actions == [] then 0
    else
      var n := |actions| - 1;
      var s := Exec(c, Initial(), actions[..n]);
      match actions[n]
      case Call(q, _) => if q == p && p !in s.callers then 0 else Lost(c, actions[..n], p)
      case Run(q, answer) =>
        if q != p || p !in s.callers || !s.callers[p].Heading? then Lost(c, actions[..n], p)
        else if Accepted(s, p, answer) then 0
        else Lost(c, actions[..n], p) + 1
      case Break(q) => if q == p then 0 else Lost(c, actions[..n], p)
      case Lose(q) => if q == p then 0 else Lost(c, actions[..n], p)
  }

  /** The call goes on while fewer than eight writes were lost in a row, and reports contention exactly
      at the eighth. */
  predicate Persists(lost: nat, p: Publisher) {
    if p.Finished? then lost <= 8 && (p.result == Err(Contended) <==> lost == 8)
    else p.attempts == lost < 8
  }

  lemma TurnPersists(c: Config, s: System, p: nat, answer: Answer, lost: nat)
    requires p in s.callers && CallerOk(c, s.store, s.callers[p]) && Persists(lost, s.callers[p])
    ensures var next := Turn(c, s.store, s.callers[p], answer).1;
            Persists(if !s.callers[p].Heading? then lost else if Accepted(s, p, answer) then 0 else lost + 1, next)
  {
    hide Decide, Extend, PutSegment, Fits, Submitted, RefOf, SegmentOf;
    if s.callers[p].Heading? {
      HeadingHas(c, s.store, s.callers[p]);
    }
  }

  lemma HeadingHas(c: Config, s: Store, p: Publisher)
    requires p.Heading? && CallerOk(c, s, p)
    ensures p.batch != [] && p.records != []
  {
  }

  /** In every run, a publisher reports contention exactly when it has lost eight head writes in a row,
      and tries on until then. */
  lemma {:induction false} ContendedIff(c: Config, actions: seq<Action>, p: nat)
    requires ValidConfig(c) && p in Exec(c, Initial(), actions).callers
    ensures Persists(Lost(c, actions, p), Exec(c, Initial(), actions).callers[p])
  {
    hide Turn, Accepted, CallerOk, StoreOk, Callable;
    if actions != [] {
      var n := |actions| - 1;
      var s, a := Exec(c, Initial(), actions[..n]), actions[n];
      if p in s.callers {
        ContendedIff(c, actions[..n], p);
        ExecKeeps(c, actions[..n]);
        if a.Run? && a.p == p {
          TurnPersists(c, s, p, a.answer, Lost(c, actions[..n], p));
        }
      }
    }
  }

  // ------------------------------------------------------------------ alone

  /** Only `p` acts, and is answered truthfully. */
  function RunAlone(c: Config, s: System, p: nat, turns: nat): System {
    if turns == 0 then s else Step(c, RunAlone(c, s, p, turns - 1), Run(p, Told))
  }

  lemma {:induction false} ThenAlone(c: Config, s: System, p: nat, a: nat, b: nat)
    ensures RunAlone(c, RunAlone(c, s, p, a), p, b) == RunAlone(c, s, p, a + b)
  {
    hide Step;
    if b > 0 {
      ThenAlone(c, s, p, a, b - 1);
    }
  }

  lemma OneTurn(c: Config, s: System, p: nat)
    requires p in s.callers
    ensures var (store, next) := Turn(c, s.store, s.callers[p], Told);
            RunAlone(c, s, p, 1) == System(store, s.callers[p := next])
  {
    hide Turn;
    assert RunAlone(c, s, p, 0) == s;
  }

  lemma ThreeTurns(c: Config, s: System, p: nat, p1: Publisher, s2: Store, p2: Publisher, s3: Store, p3: Publisher)
    requires p in s.callers && Turn(c, s.store, s.callers[p], Told) == (s.store, p1)
    requires Turn(c, s.store, p1, Told) == (s2, p2) && Turn(c, s2, p2, Told) == (s3, p3)
    ensures RunAlone(c, s, p, 3) == System(s3, s.callers[p := p3])
  {
    hide Turn;
    var t1 := System(s.store, s.callers[p := p1]);
    var t2 := System(s2, s.callers[p := p2]);
    OneTurn(c, s, p);
    OneTurn(c, t1, p);
    OneTurn(c, t2, p);
    ThenAlone(c, s, p, 1, 1);
    ThenAlone(c, s, p, 2, 1);
    assert t1.callers[p := p2] == t2.callers && t2.callers[p := p3] == s.callers[p := p3];
  }

  /** One round of a publisher left alone. */
  lemma AloneRound(c: Config, s: System, p: nat, records: seq<Record>, attempts: nat)
    requires ValidConfig(c) && StoreOk(c, s.store) && Submitted(c, records) && records != [] && Unmistakable(c, records)
    requires p in s.callers && s.callers[p] == Loading(records, attempts)
    ensures match Decide(c, Current(c, s.store), records)
            case Covered(w) => RunAlone(c, s, p, 1) == s.(callers := s.callers[p := Finished(records, Ok(w))])
            case Refuse => RunAlone(c, s, p, 1) == s.(callers := s.callers[p := Finished(records, Err(Contiguity))])
            case Publish(_) =>
              var t, last := RunAlone(c, s, p, 3), records[|records| - 1].lsn;
              && PublishedAlone(c, s.store, t.store, records) && StoreOk(c, t.store)
              && Current(c, s.store).archived < Current(c, t.store).archived
              && t.callers == s.callers[p := if Current(c, t.store).archived == last then Finished(records, Ok(last))
                                             else Loading(records, 0)]
  {
    hide StoreOk, Submitted, Decide, PutSegment, Extend, Fits, Unmistakable, Contents, RunAlone;
    var h := Current(c, s.store);
    if Decide(c, h, records).Publish? {
      var batch := Decide(c, h, records).batch;
      PublishKeeps(c, s.store, records);
      NoCollision(c, s.store, records);
      var objects := PutSegment(c, s.store.objects, batch).value;
      var next := Extend(c, h, batch);
      var s2 := Store(objects, s.store.heads);
      var s3 := Store(objects, s.store.heads + [next]);
      ThreeTurns(c, s, p, Storing(records, attempts, |s.store.heads|, h, batch), s2,
                 Heading(records, attempts, |s.store.heads|, h, batch), s3, AfterPublished(records, next));
    } else {
      OneTurn(c, s, p);
    }
  }

  /** The publisher started with this store, and has got this far. */
  predicate Under(c: Config, start: Store, s: Store, records: seq<Record>, first: bool)
    requires records != []
  {
    if first then s == start
    else Progress(c, start, s, records) && Current(c, s).archived < records[|records| - 1].lsn
  }

  lemma {:induction false} AloneFinishes(c: Config, start: Store, s: System, p: nat, records: seq<Record>,
                                         attempts: nat, first: bool)
    returns (n: nat, result: Result<u64>)
    requires ValidConfig(c) && StoreOk(c, s.store) && Submitted(c, records) && records != [] && Unmistakable(c, records)
    requires p in s.callers && s.callers[p] == Loading(records, attempts) && Under(c, start, s.store, records, first)
    ensures var t := RunAlone(c, s, p, n);
            t.callers == s.callers[p := Finished(records, result)] && Outcome(c, start, t.store, records, result)
    decreases Max(0, records[|records| - 1].lsn - Current(c, s.store).archived)
  {
    hide StoreOk, Submitted, Decide, Unmistakable, Progress, Outcome, PublishedAlone, RunAlone;
    var d := Decide(c, Current(c, s.store), records);
    AloneRound(c, s, p, records, attempts);
    if d.Publish? {
      var t := RunAlone(c, s, p, 3);
      QuietRound(c, start, s.store, t.store, records, first);
      if Current(c, t.store).archived == records[|records| - 1].lsn {
        n, result := 3, Ok(records[|records| - 1].lsn);
      } else {
        var more;
        more, result := AloneFinishes(c, start, t, p, records, 0, false);
        n := 3 + more;
        ThenAlone(c, s, p, 3, more);
        assert t.callers[p := Finished(records, result)] == s.callers[p := Finished(records, result)];
      }
    } else {
      n := 1;
      result := if d.Covered? then Ok(d.archived) else Err(Contiguity);
      QuietRound(c, start, s.store, s.store, records, first);
    }
  }

  /** In every run, a new call left alone finishes: refused exactly when its first missing record does
      not follow the archive, and otherwise with all its records archived and nothing else. */
  lemma CallAlone(c: Config, actions: seq<Action>, p: nat, records: seq<Record>) returns (n: nat, result: Result<u64>)
    requires ValidConfig(c) && p !in Exec(c, Initial(), actions).callers
    requires Callable(c, records) && Submittable(records) && records != [] && Unmistakable(c, records)
    ensures var s := Exec(c, Initial(), actions);
            var t := RunAlone(c, Step(c, s, Call(p, records)), p, n);
            && t.callers == s.callers[p := Finished(records, result)]
            && Outcome(c, s.store, t.store, records, result)
  {
    hide StoreOk, Submittable, Callable, Unmistakable, Outcome, RunAlone;
    var s := Exec(c, Initial(), actions);
    InvStore(c, actions);
    var begun := Step(c, s, Call(p, records));
    n, result := AloneFinishes(c, s.store, begun, p, records, 0, true);
    assert begun.callers[p := Finished(records, result)] == s.callers[p := Finished(records, result)];
  }

  /** A head refuses a submission it does not cover exactly when the record right after its watermark is
      missing from it, does not link to the watermark, or is under an older epoch. */
  lemma RefuseIff(c: Config, h: Head, records: seq<Record>)
    requires Submitted(c, records) && records != [] && h.archived < U64_MAX
    ensures Decide(c, h, records).Refuse? <==>
            && h.archived < records[|records| - 1].lsn
            && !exists i :: 0 <= i < |records| && records[i].lsn == h.archived + 1
                            && records[i].committedLsn == h.archived && h.writerEpoch <= records[i].writerEpoch
  {
    hide Submittable, Remaining, Callable;
    var k := RemainingIsSuffix(c, records, h.archived + 1);
    forall i | 0 <= i < |records| ensures records[i].lsn == records[0].lsn + i {
      SubmittedRun(c, records, i);
    }
    if k < |records| {
      assert records[k..][0] == records[k];
    }
  }

  // ------------------------------------------------------------- segment sizes

  predicate SmallBatch(c: Config, p: Publisher) {
    p.Storing? || p.Heading? ==> |p.batch| <= c.maxRecords
  }

  predicate SmallSegments(c: Config, s: System) {
    && (forall k :: k in s.store.objects ==> |s.store.objects[k].records| <= c.maxRecords)
    && (forall p :: p in s.callers ==> SmallBatch(c, s.callers[p]))
  }

  lemma TurnKeepsSmall(c: Config, s: System, p: nat, answer: Answer)
    requires SmallSegments(c, s) && p in s.callers
    ensures var (store, next) := Turn(c, s.store, s.callers[p], answer);
            && SmallBatch(c, next)
            && forall k :: k in store.objects ==> |store.objects[k].records| <= c.maxRecords
  {
    hide Remaining, Extend;
    assert SmallBatch(c, s.callers[p]);
  }

  /** In every run, no stored segment holds more records than one publication may. */
  lemma {:induction false} SegmentsBounded(c: Config, actions: seq<Action>)
    ensures SmallSegments(c, Exec(c, Initial(), actions))
  {
    hide Turn, SmallBatch, Callable;
    if actions != [] {
      var n := |actions| - 1;
      var s, a := Exec(c, Initial(), actions[..n]), actions[n];
      SegmentsBounded(c, actions[..n]);
      if a.Run? && a.p in s.callers {
        TurnKeepsSmall(c, s, a.p, a.answer);
      }
      IdleIsSmall(c);
    }
  }

  lemma IdleIsSmall(c: Config)
    ensures forall records, e :: SmallBatch(c, Finished(records, e))
    ensures forall records :: SmallBatch(c, Begin(records))
  {
  }
}
