/** Safety of one WAL backend over every sequence of calls, answers, losses and recoveries. */
module WalTheorems {
  import opened Base
  import opened WalSpec

  // ------------------------------------------------------------ the invariant

  /** A send is either behind the cursor, or it is the write still pending at the cursor. */
  predicate SentOk(s: State, x: Sent) {
    && s.next.Some?
    && (x.position < s.next.value
        || (x.position == s.next.value && s.pending == Some(Pending(x.position, x.payload))))
  }

  /** A cached entry lies behind the cursor, except where a strict recovery has contradicted the
      write pending at the cursor, or the last LSN there is was acknowledged. */
  predicate CachedOk(s: State, k: u64) {
    && s.next.Some? && k in s.committed
    && (k < s.next.value
        || (&& k == s.next.value && s.pending.Some? && s.pending.value.position == k
            && (s.committed[k] != s.pending.value.payload || k == U64_MAX)))
  }

  ghost predicate Cursor(s: State) {
    && (s.next.None? ==> s.committed == map[] && s.pending.None? && s.sent == [])
    && (s.pending.Some? ==> s.next.Some? && s.pending.value.position <= s.next.value)
  }

  ghost predicate SendsOk(c: Config, s: State) {
    && (forall i :: 0 <= i < |s.sent| ==> SentOk(s, s.sent[i]))
    && (forall i :: 0 <= i < |s.sent| ==>
          c.ipc(s.sent[i].payload).Entry? && c.ipc(s.sent[i].payload).writerEpoch == s.sent[i].writerEpoch)
    && (forall i, j :: 0 <= i < |s.sent| && 0 <= j < |s.sent| && s.sent[i].position == s.sent[j].position
                       ==> s.sent[i].payload == s.sent[j].payload)
  }

  ghost predicate Inv(c: Config, s: State) {
    Cursor(s) && SendsOk(c, s) && forall k :: k in s.committed ==> CachedOk(s, k)
  }

  /** What no call undoes. */
  ghost predicate Onward(s: State, t: State) {
    && (s.next.Some? ==> t.next.Some? && s.next.value <= t.next.value)
    && s.sent <= t.sent
    && (s.poisoned ==> t.poisoned && t.sent == s.sent)
  }

  // ------------------------------------------------------------ recovered runs

  predicate Consecutive(entries: seq<Recovered>) {
    && (forall i :: 0 <= i < |entries| ==> entries[i].position == entries[0].position + i)
    && (forall i :: 0 <= i < |entries| ==> entries[i].position < U64_MAX)
  }

  predicate InRange(entries: seq<Recovered>, x: u64) {
    entries != [] && entries[0].position <= x <= entries[|entries| - 1].position
  }

  /** What decoding accepts is a gapless run that starts right after the caller's watermark. */
  lemma {:induction false} DecodedFrom(c: Config, records: seq<Record>, expected: u64, bound: Option<u64>)
    requires DecodeFrom(c, records, expected, bound).Answer?
    ensures var entries := DecodeFrom(c, records, expected, bound).value;
            && Consecutive(entries)
            && (entries != [] ==> entries[0].position == expected)
            && |entries| == |records|
            && forall i :: 0 <= i < |entries| ==>
                 entries[i] == Recovered(records[i].lsn, records[i].writerEpoch, records[i].payload)
    decreases |records|
  {
    if records != [] {
      DecodedFrom(c, records[1..], expected + 1, bound);
      var rest := DecodeFrom(c, records[1..], expected + 1, bound).value;
      var entries := DecodeFrom(c, records, expected, bound).value;
      assert entries == [entries[0]] + rest;
      forall i | 0 <= i < |entries| ensures entries[i].position == expected + i {
        if i > 0 {
          assert entries[i] == rest[i - 1];
        }
      }
    }
  }

  lemma Decoded(c: Config, after: u64, reply: Reply<seq<Record>>, bound: Option<u64>)
    requires Decode(c, after, reply, bound).Answer?
    ensures Consecutive(Decode(c, after, reply, bound).value)
    ensures Decode(c, after, reply, bound).value != [] ==>
              Decode(c, after, reply, bound).value[0].position == after + 1
  {
    DecodedFrom(c, reply.value, after + 1, bound);
  }

  lemma TailConsecutive(entries: seq<Recovered>)
    requires entries != [] && Consecutive(entries)
    ensures Consecutive(entries[1..])
    ensures forall x :: InRange(entries, x) <==> x == entries[0].position || InRange(entries[1..], x)
    ensures entries[1..] != [] ==> entries[1].position == entries[0].position + 1
  {
    var rest := entries[1..];
    forall i | 0 <= i < |rest| ensures rest[i].position == rest[0].position + i {
      assert rest[i] == entries[i + 1];
    }
  }

  // --------------------------------------------------------- strict application

  /** What the loop of `apply_recovery` leaves behind, whether it ran to the end or stopped. */
  ghost predicate Applied(s: State, entries: seq<Recovered>, t: State, go: bool) {
    && t.sent == s.sent && t.next == s.next && t.poisoned == s.poisoned && t.checkpointed == s.checkpointed
    && (forall k :: k in t.committed ==> k in s.committed || InRange(entries, k))
    && (forall k :: k in s.committed ==> k in t.committed)
    && (go ==> t.pending == s.pending || (t.pending == None && s.pending.Some? && InRange(entries, s.pending.value.position)))
    && (!go ==>
          && s.pending.Some? && t.pending == s.pending
          && var p := s.pending.value.position;
          && InRange(entries, p)
          && (forall k :: k in t.committed ==> k in s.committed || k <= p)
          && (p > s.checkpointed ==> p in t.committed && t.committed[p] != s.pending.value.payload)
          && (p <= s.checkpointed && p in t.committed ==> p in s.committed && t.committed[p] == s.committed[p]))
  }

  lemma {:induction false} AppliedEntries(s: State, entries: seq<Recovered>, knowledge: Knowledge)
    requires Consecutive(entries)
    ensures var (t, go) := ApplyEntries(s, entries, knowledge); Applied(s, entries, t, go)
    decreases |entries|
  {
    if entries != [] {
      TailConsecutive(entries);
      var (t, go) := ApplyOne(s, entries[0], knowledge);
      if go {
        AppliedEntries(t, entries[1..], knowledge);
        var (u, done) := ApplyEntries(t, entries[1..], knowledge);
        AppliedThen(s, entries, t, u, done);
      }
    }
  }

  lemma AppliedThen(s: State, entries: seq<Recovered>, t: State, u: State, done: bool)
    requires entries != [] && Consecutive(entries)
    requires exists k :: ApplyOne(s, entries[0], k) == (t, true)
    requires Applied(t, entries[1..], u, done)
    ensures Applied(s, entries, u, done)
  {
    TailConsecutive(entries);
  }

  lemma Advanced(s: State, entries: seq<Recovered>)
    requires Consecutive(entries)
    ensures var t := AdvanceNext(s, entries);
            && t == s.(next := t.next) && t.next.Some?
            && (s.next.Some? ==> s.next.value <= t.next.value)
            && (forall k :: k in s.committed ==> k < t.next.value || (k == U64_MAX && t.next.value == U64_MAX))
            && (forall x: u64 :: InRange(entries, x) ==> x < t.next.value)
  {
  }

  lemma StrictKeeps(c: Config, s: State, entries: seq<Recovered>, persisted: Option<Knowledge>)
    requires Inv(c, s) && Consecutive(entries)
    ensures Inv(c, ApplyRecovery(s, entries, persisted).0)
    ensures Onward(s, ApplyRecovery(s, entries, persisted).0)
    ensures ApplyRecovery(s, entries, persisted).1.None? ==> ApplyRecovery(s, entries, persisted).0.next.Some?
    ensures ApplyRecovery(s, entries, persisted).0.sent == s.sent
    ensures ApplyRecovery(s, entries, persisted).0.poisoned == s.poisoned
  {
    hide ApplyEntries, AdvanceNext;
    var knowledge := if persisted.Some? then persisted.value else s.knowledge;
    var (t, done) := ApplyEntries(s, entries, knowledge);
    AppliedEntries(s, entries, knowledge);
    if done {
      Advanced(t, entries);
      var u := AdvanceNext(t, entries);
      forall i | 0 <= i < |u.sent| ensures SentOk(u, u.sent[i]) {
        assert SentOk(s, s.sent[i]);
      }
      forall k | k in u.committed ensures CachedOk(u, k) {
        assert k in s.committed ==> CachedOk(s, k);
      }
    } else {
      forall i | 0 <= i < |t.sent| ensures SentOk(t, t.sent[i]) {
        assert SentOk(s, s.sent[i]);
      }
      forall k | k in t.committed ensures CachedOk(t, k) {
        assert k in s.committed ==> CachedOk(s, k);
      }
    }
  }

  // ------------------------------------------------- application on Lance's path

  ghost predicate AppliedForLance(s: State, entries: seq<Recovered>, t: State, go: bool) {
    && t.sent == s.sent && t.next == s.next && t.poisoned == s.poisoned && t.checkpointed == s.checkpointed
    && t.pending == s.pending
    && (forall k :: k in s.committed ==> k in t.committed && t.committed[k] == s.committed[k])
    && (forall k :: k in t.committed ==> k in s.committed || InRange(entries, k))
    && (!go ==> exists q :: q in s.committed && InRange(entries, q)
                            && forall k :: k in t.committed ==> k in s.committed || k < q)
  }

  lemma {:induction false} AppliedEntriesForLance(c: Config, s: State, entries: seq<Recovered>)
    requires Consecutive(entries)
    ensures var (t, go) := ApplyEntriesForLance(c, s, entries); AppliedForLance(s, entries, t, go)
    decreases |entries|
  {
    hide Consecutive;
    if entries != [] {
      TailConsecutive(entries);
      var (t, go) := ApplyOneForLance(c, s, entries[0]);
      if go {
        AppliedEntriesForLance(c, t, entries[1..]);
        var (u, done) := ApplyEntriesForLance(c, t, entries[1..]);
        AppliedForLanceThen(s, entries, t, u, done);
      } else {
        assert entries[0].position in s.committed && InRange(entries, entries[0].position);
      }
    }
  }

  lemma AppliedForLanceThen(s: State, entries: seq<Recovered>, t: State, u: State, done: bool)
    requires entries != [] && Consecutive(entries)
    requires exists c :: ApplyOneForLance(c, s, entries[0]) == (t, true)
    requires AppliedForLance(t, entries[1..], u, done)
    ensures AppliedForLance(s, entries, u, done)
  {
    TailConsecutive(entries);
    if !done {
      var q :| q in t.committed && InRange(entries[1..], q)
               && forall k :: k in u.committed ==> k in t.committed || k < q;
      assert q != entries[0].position;
      assert q in s.committed && InRange(entries, q);
    }
  }

  lemma ForLanceKeeps(c: Config, s: State, entries: seq<Recovered>)
    requires Inv(c, s) && Consecutive(entries)
    ensures Inv(c, ApplyForLance(c, s, entries).0)
    ensures Onward(s, ApplyForLance(c, s, entries).0)
    ensures ApplyForLance(c, s, entries).0.sent == s.sent
    ensures ApplyForLance(c, s, entries).0.pending == s.pending
    ensures ApplyForLance(c, s, entries).0.poisoned == s.poisoned
    ensures ApplyForLance(c, s, entries).1.None? ==>
              && ApplyForLance(c, s, entries).0.next.Some?
              && forall x: u64 :: InRange(entries, x) ==> x < ApplyForLance(c, s, entries).0.next.value
  {
    hide ApplyEntriesForLance, AdvanceNext;
    var (t, done) := ApplyEntriesForLance(c, s, entries);
    AppliedEntriesForLance(c, s, entries);
    if done {
      Advanced(t, entries);
      var u := AdvanceNext(t, entries);
      forall i | 0 <= i < |u.sent| ensures SentOk(u, u.sent[i]) {
        assert SentOk(s, s.sent[i]);
      }
      forall k | k in u.committed ensures CachedOk(u, k) {
        assert k in s.committed ==> CachedOk(s, k);
      }
    } else {
      var q :| q in s.committed && InRange(entries, q)
               && forall k :: k in t.committed ==> k in s.committed || k < q;
      assert CachedOk(s, q);
      forall i | 0 <= i < |t.sent| ensures SentOk(t, t.sent[i]) {
        assert SentOk(s, s.sent[i]);
      }
      forall k | k in t.committed ensures CachedOk(t, k) {
        assert k in s.committed ==> CachedOk(s, k);
      }
    }
  }

  // ------------------------------------------------------------------ appends

  lemma PoisonKeeps(c: Config, s: State, e: WalError)
    requires Inv(c, s)
    ensures Inv(c, Poison(s, e)) && Onward(s, Poison(s, e))
  {
    var t := Poison(s, e);
    assert forall i :: 0 <= i < |s.sent| ==> SentOk(s, s.sent[i]) ==> SentOk(t, s.sent[i]);
    assert forall k :: k in s.committed ==> CachedOk(s, k) ==> CachedOk(t, k);
  }

  lemma EnsureKeeps(c: Config, s: State, reply: Reply<seq<Record>>)
    requires Inv(c, s) && !s.poisoned
    ensures Inv(c, EnsurePosition(c, s, reply).0)
    ensures Onward(s, EnsurePosition(c, s, reply).0)
    ensures EnsurePosition(c, s, reply).0.sent == s.sent
    ensures EnsurePosition(c, s, reply).1.None? ==> !EnsurePosition(c, s, reply).0.poisoned
  {
    hide ApplyRecovery;
    if s.next.None? {
      match Decode(c, 0, reply, Some(c.writerEpoch)) {
        case Refused(e) => PoisonKeeps(c, s, e);
        case Answer(entries) =>
          Decoded(c, 0, reply, Some(c.writerEpoch));
          StrictKeeps(c, s, entries, None);
          FreshCursor(c, s, entries);
      }
    }
  }

  /** On a backend that has not placed its cursor yet, applying a recovery places it right after the
      recovered tail, so `ensure_position` overwrites it with the same value. */
  lemma FreshCursor(c: Config, s: State, entries: seq<Recovered>)
    requires Inv(c, s) && Consecutive(entries) && s.next.None?
    requires entries != [] ==> entries[0].position == 1
    ensures var (t, error) := ApplyRecovery(s, entries, None);
            error.None? ==> t.next == Some(if entries == [] then 1 else SatAdd(LastPosition(entries).value, 1))
  {
    hide ApplyEntries;
    var (t, done) := ApplyEntries(s, entries, s.knowledge);
    AppliedEntries(s, entries, s.knowledge);
    if done && entries == [] {
      assert forall k :: k in t.committed ==> false;
      assert t.committed == map[];
    }
  }

  lemma SendKeeps(c: Config, s: State, w: Write)
    requires Inv(c, s) && !s.poisoned && s.next.Some? && Sendable(s, w)
    requires c.ipc(w.payload).Entry? && c.ipc(w.payload).writerEpoch == w.writerEpoch
    ensures Inv(c, Send(s, w)) && Onward(s, Send(s, w))
  {
    var t := Send(s, w);
    forall i | 0 <= i < |t.sent| ensures SentOk(t, t.sent[i]) {
      if i < |s.sent| {
        assert SentOk(s, s.sent[i]);
      }
    }
    forall i, j | 0 <= i < |t.sent| && 0 <= j < |t.sent| && t.sent[i].position == t.sent[j].position
      ensures t.sent[i].payload == t.sent[j].payload
    {
      assert i < |s.sent| ==> SentOk(s, s.sent[i]);
      assert j < |s.sent| ==> SentOk(s, s.sent[j]);
    }
    forall k | k in t.committed ensures CachedOk(t, k) {
      assert CachedOk(s, k);
    }
  }

  lemma ReceiveKeeps(c: Config, s: State, w: Write, fence: bool, reply: Reply<Knowledge>)
    requires Inv(c, s) && !s.poisoned
    requires s.next == Some(w.position) && s.pending == Some(Pending(w.position, w.payload))
    ensures var (t, outcome) := Receive(c, s, w, fence, reply);
            && Inv(c, t) && Onward(s, t) && t.sent == s.sent
            && (outcome == Failed(LsnConflict) && !t.poisoned ==> t.next == s.next && t.pending == s.pending)
  {
    var (t, outcome) := Receive(c, s, w, fence, reply);
    PoisonKeeps(c, s, Fenced);
    PoisonKeeps(c, s, InvalidCommit);
    if reply.Answer? && !t.poisoned {
      forall i | 0 <= i < |t.sent| ensures SentOk(t, t.sent[i]) {
        assert SentOk(s, s.sent[i]);
      }
      forall k | k in t.committed ensures CachedOk(t, k) {
        assert k in s.committed ==> CachedOk(s, k);
      }
    }
  }

  lemma LockedKeeps(c: Config, s: State, w: Write, fence: bool, reply: Reply<Knowledge>)
    requires Inv(c, s) && !s.poisoned && s.next.Some?
    requires WriteError(c, w.payload, fence, w.writerEpoch).None?
    ensures var (t, outcome) := AppendLocked(c, s, w, fence, reply);
            && Inv(c, t) && Onward(s, t)
            && (outcome == Failed(LsnConflict) && !t.poisoned ==>
                  t.next == Some(w.position) && t.pending == Some(Pending(w.position, w.payload)))
  {
    hide Receive, SendsOk, CachedOk, Cursor;
    PoisonKeeps(c, s, LsnConflict);
    if Sendable(s, w) {
      SendKeeps(c, s, w);
      ReceiveKeeps(c, Send(s, w), w, fence, reply);
    }
  }

  lemma FenceKeeps(c: Config, s: State, w: Write, reply: Reply<seq<Record>>)
    requires Inv(c, s) && !s.poisoned
    requires s.next == Some(w.position) && s.pending == Some(Pending(w.position, w.payload))
    ensures Inv(c, RecoverFence(c, s, w, reply).0) && Onward(s, RecoverFence(c, s, w, reply).0)
  {
    hide ApplyForLance;
    match Decode(c, SatSub(w.position, 1), reply, None) {
      case Refused(e) => PoisonKeeps(c, s, e);
      case Answer(entries) =>
        Decoded(c, SatSub(w.position, 1), reply, None);
        PoisonKeeps(c, s, Fenced);
        ForLanceKeeps(c, s, entries);
        var (t, error) := ApplyForLance(c, s, entries);
        if error.Some? {
          PoisonKeeps(c, t, error.value);
        } else if entries != [] && entries[0].position == w.position {
          var u := t.(pending := None);
          assert InRange(entries, w.position);
          forall i | 0 <= i < |u.sent| ensures SentOk(u, u.sent[i]) {
            assert SentOk(s, s.sent[i]);
          }
          forall k | k in u.committed ensures CachedOk(u, k) {
            assert CachedOk(t, k);
          }
          assert Inv(c, u);
        }
    }
  }

  lemma AppendKeeps(c: Config, s: State, w: Write, fence: bool, reply: Reply<Knowledge>, slot: Option<Reply<seq<Record>>>)
    requires Inv(c, s) && !s.poisoned && s.next.Some?
    requires WriteError(c, w.payload, fence, w.writerEpoch).None?
    ensures Inv(c, Append(c, s, w, fence, reply, slot)) && Onward(s, Append(c, s, w, fence, reply, slot))
  {
    hide AppendLocked, RecoverFence;
    LockedKeeps(c, s, w, fence, reply);
    var (t, outcome) := AppendLocked(c, s, w, fence, reply);
    if slot.Some? && outcome == Failed(LsnConflict) && !t.poisoned {
      FenceKeeps(c, t, w, slot.value);
    }
  }

  // ------------------------------------------------------------------ the runs

  lemma StepKeeps(c: Config, s: State, op: Op)
    requires Inv(c, s)
    ensures Inv(c, Step(c, s, op)) && Onward(s, Step(c, s, op))
  {
    hide Decode, ApplyRecovery, ApplyForLance, Append, EnsurePosition, WriteError;
    match op {
      case Checkpointed(shard, position) =>
        var t := Step(c, s, op);
        forall i | 0 <= i < |t.sent| ensures SentOk(t, t.sent[i]) {
          assert SentOk(s, s.sent[i]);
        }
        forall k | k in t.committed ensures CachedOk(t, k) {
          assert CachedOk(s, k);
        }
      case AppendPayload(payload, fence, tail, reply) =>
        if !s.poisoned && WriteError(c, payload, fence, c.writerEpoch).None? {
          EnsureKeeps(c, s, tail);
          var (t, error) := EnsurePosition(c, s, tail);
          if error.None? {
            AppendKeeps(c, t, Write(c.writerEpoch, t.next.value, payload), fence, reply, None);
          }
        }
      case AppendAt(shard, w, fence, tail, reply, slot) =>
        if !s.poisoned && WriteError(c, w.payload, fence, w.writerEpoch).None? {
          EnsureKeeps(c, s, tail);
          var (t, error) := EnsurePosition(c, s, tail);
          if error.None? {
            AppendKeeps(c, t, w, fence, reply, Some(slot));
          }
        }
      case Recover(after, tail) => StrictStep(c, s, after, tail, None);
      case RecoverWithWatermark(after, k, tail) =>
        StrictStep(c, s, after, tail, Some(k));
        PoisonKeeps(c, s, RecoveryGap);
      case NextPosition(tail) => if !s.poisoned { EnsureKeeps(c, s, tail); }
      case ReadEntry(position, tail) => if position > 0 { StrictStep(c, s, position - 1, tail, None); }
      case ReadForLance(position, tail) => if position > 0 { LanceStep(c, s, position - 1, tail); }
      case NextForLance(after, tail) => LanceStep(c, s, after, tail);
    }
  }

  lemma StrictStep(c: Config, s: State, after: u64, tail: Reply<seq<Record>>, persisted: Option<Knowledge>)
    requires Inv(c, s)
    ensures var t := Strict(c, s, Decode(c, after, tail, Some(c.writerEpoch)), persisted); Inv(c, t) && Onward(s, t)
  {
    hide ApplyRecovery;
    match Decode(c, after, tail, Some(c.writerEpoch)) {
      case Refused(e) => PoisonKeeps(c, s, e);
      case Answer(entries) =>
        Decoded(c, after, tail, Some(c.writerEpoch));
        StrictKeeps(c, s, entries, persisted);
    }
  }

  lemma LanceStep(c: Config, s: State, after: u64, tail: Reply<seq<Record>>)
    requires Inv(c, s)
    ensures Decode(c, after, tail, None).Answer? ==>
              var t := ApplyForLance(c, s, Decode(c, after, tail, None).value).0; Inv(c, t) && Onward(s, t)
  {
    if Decode(c, after, tail, None).Answer? {
      Decoded(c, after, tail, None);
      ForLanceKeeps(c, s, Decode(c, after, tail, None).value);
    }
  }

  lemma {:induction false} ExecKeeps(c: Config, ops: seq<Op>)
    ensures Inv(c, Exec(c, ops))
  {
    if ops != [] {
      ExecKeeps(c, ops[..|ops| - 1]);
      StepKeeps(c, Exec(c, ops[..|ops| - 1]), ops[|ops| - 1]);
    }
  }

  lemma {:induction false} ExecOnward(c: Config, ops: seq<Op>, n: nat)
    requires n <= |ops|
    ensures Onward(Exec(c, ops[..n]), Exec(c, ops))
    decreases |ops| - n
  {
    hide Step;
    if n == |ops| {
      assert ops[..n] == ops;
    } else {
      assert ops[..n + 1][..n] == ops[..n];
      ExecKeeps(c, ops[..n]);
      StepKeeps(c, Exec(c, ops[..n]), ops[n]);
      ExecOnward(c, ops, n + 1);
    }
  }

  // --------------------------------------------------------------- the theorems

  /** Over any run, one backend never sends two different records at one LSN: whatever it sends again
      there has the same bytes and the same writer epoch. */
  lemma NoConflictingSends(c: Config, ops: seq<Op>, i: nat, j: nat)
    requires i < |Exec(c, ops).sent| && j < |Exec(c, ops).sent|
    requires Exec(c, ops).sent[i].position == Exec(c, ops).sent[j].position
    ensures Exec(c, ops).sent[i] == Exec(c, ops).sent[j]
  {
    ExecKeeps(c, ops);
  }

  /** The cursor never moves back, what was sent stays sent, and nothing is sent after poisoning. */
  lemma CursorOnlyAdvances(c: Config, ops: seq<Op>, n: nat)
    requires n <= |ops|
    ensures var before, after := Exec(c, ops[..n]), Exec(c, ops);
            && (before.next.Some? ==> after.next.Some? && before.next.value <= after.next.value)
            && before.sent <= after.sent
            && (before.poisoned ==> after.poisoned && after.sent == before.sent)
  {
    ExecOnward(c, ops, n);
  }

  /** Where the cache stands in any reachable state: behind the cursor, but for one position. */
  lemma CacheBehindCursor(c: Config, ops: seq<Op>, k: u64)
    requires k in Exec(c, ops).committed
    ensures var s := Exec(c, ops);
            && s.next.Some? && k <= s.next.value
            && (k == s.next.value ==> s.pending.Some? && s.pending.value.position == k
                                      && (k < U64_MAX ==> s.committed[k] != s.pending.value.payload))
  {
    ExecKeeps(c, ops);
    assert CachedOk(Exec(c, ops), k);
  }

  // ------------------------------------------- when the cache stays behind the cursor

  ghost predicate Below(s: State) {
    forall k :: k in s.committed ==> s.next.Some? && k < s.next.value
  }

  /** The entries a call applies strictly, when it gets that far. */
  ghost function StrictEntries(c: Config, s: State, op: Op): Option<seq<Recovered>> {
    var bound := Some(c.writerEpoch);
    if s.poisoned then None
    else
      match op
      case Recover(after, tail) => Covered(s, Decode(c, after, tail, bound))
      case ReadEntry(position, tail) =>
        if position == 0 || position in s.committed then None
        else Covered(s, Decode(c, position - 1, tail, bound))
      case RecoverWithWatermark(after, k, tail) =>
        var decoded := Decode(c, after, tail, bound);
        if k.stream == c.stream && k.writerEpoch <= c.writerEpoch && k.certificate.Some? && k.certificate.value != ""
           && decoded.Answer? && (k.committedLsn > after ==> LastPosition(decoded.value) == Some(k.committedLsn))
        then Some(decoded.value) else None
      case _ => None
  }

  /** Without a certificate of its own, a recovery applies only below what is known committed. */
  ghost function Covered(s: State, decoded: Reply<seq<Recovered>>): Option<seq<Recovered>> {
    if decoded.Answer? && (decoded.value != [] ==> LastPosition(decoded.value).value <= s.knowledge.committedLsn)
    then Some(decoded.value) else None
  }

  /** The recovered tail has other bytes at the position of the write pending at the cursor. */
  ghost predicate Contradicts(s: State, entries: seq<Recovered>) {
    && s.pending.Some? && s.next == Some(s.pending.value.position)
    && s.pending.value.position > s.checkpointed
    && exists i :: 0 <= i < |entries| && entries[i].position == s.pending.value.position
                   && entries[i].payload != s.pending.value.payload
  }

  /** The gateway acknowledges an append at the very last LSN. */
  ghost predicate AcksLast(c: Config, s: State, op: Op) {
    && (op.AppendPayload? || (op.AppendAt? && op.shard == c.shard)) && !s.poisoned
    && var (t, error) := EnsurePosition(c, s, op.tail);
    && error.None?
    && var w := if op.AppendAt? then op.write else Write(c.writerEpoch, t.next.value, op.payload);
    && WriteError(c, w.payload, op.fence, w.writerEpoch).None?
    && w.position == U64_MAX && Sendable(t, w) && Acks(c, w, op.reply)
  }

  lemma StrictBelow(c: Config, s: State, entries: seq<Recovered>, knowledge: Knowledge)
    requires Inv(c, s) && Below(s) && Consecutive(entries)
    ensures var (t, done) := ApplyEntries(s, entries, knowledge);
            Below(if done then AdvanceNext(t, entries) else t) <==> !Contradicts(s, entries)
  {
    hide ApplyEntries, AdvanceNext, SendsOk, CachedOk;
    var (t, done) := ApplyEntries(s, entries, knowledge);
    AppliedEntries(s, entries, knowledge);
    StopsExactly(s, entries, knowledge);
    if done {
      Advanced(t, entries);
    }
  }

  lemma {:induction false} StopsExactly(s: State, entries: seq<Recovered>, knowledge: Knowledge)
    requires Consecutive(entries)
    ensures !ApplyEntries(s, entries, knowledge).1 <==>
            s.pending.Some? && exists i :: 0 <= i < |entries| && entries[i].position == s.pending.value.position
                                           && entries[i].payload != s.pending.value.payload
    decreases |entries|
  {
    if entries != [] {
      TailConsecutive(entries);
      var rest := entries[1..];
      var (t, go) := ApplyOne(s, entries[0], knowledge);
      if go {
        StopsExactly(t, rest, knowledge);
        assert forall i :: 0 < i < |entries| ==> entries[i] == rest[i - 1];
        assert forall i :: 0 <= i < |rest| ==> rest[i] == entries[i + 1];
      }
    }
  }

  lemma LanceBelow(c: Config, s: State, entries: seq<Recovered>)
    requires Inv(c, s) && Below(s) && Consecutive(entries)
    ensures Below(ApplyForLance(c, s, entries).0)
  {
    hide ApplyEntriesForLance, AdvanceNext, SendsOk, CachedOk;
    var (t, done) := ApplyEntriesForLance(c, s, entries);
    AppliedEntriesForLance(c, s, entries);
    if done {
      Advanced(t, entries);
    }
  }

  lemma EnsureBelow(c: Config, s: State, reply: Reply<seq<Record>>)
    requires Inv(c, s) && Below(s) && !s.poisoned
    ensures Below(EnsurePosition(c, s, reply).0)
  {
    hide ApplyEntries, AdvanceNext;
    if s.next.None? {
      match Decode(c, 0, reply, Some(c.writerEpoch)) {
        case Refused(e) =>
        case Answer(entries) =>
          Decoded(c, 0, reply, Some(c.writerEpoch));
          FreshCursor(c, s, entries);
          StrictBelow(c, s, entries, s.knowledge);
      }
    }
  }

  lemma LockedBelow(c: Config, s: State, w: Write, fence: bool, reply: Reply<Knowledge>)
    requires Below(s) && s.next.Some?
    ensures Below(AppendLocked(c, s, w, fence, reply).0) <==> !(w.position == U64_MAX && Sendable(s, w) && Acks(c, w, reply))
    ensures w.position == U64_MAX && Sendable(s, w) && Acks(c, w, reply) ==>
              AppendLocked(c, s, w, fence, reply).1 == Failed(InvalidPosition)
  {
    var t := AppendLocked(c, s, w, fence, reply).0;
    if w.position == U64_MAX && Sendable(s, w) && Acks(c, w, reply) {
      assert w.position in t.committed;
    }
  }

  lemma FenceBelow(c: Config, s: State, w: Write, reply: Reply<seq<Record>>)
    requires Inv(c, s) && Below(s)
    ensures Below(RecoverFence(c, s, w, reply).0)
  {
    hide Inv, ApplyForLance, Decode;
    DecodedLance(c, s, SatSub(w.position, 1), reply);
  }

  lemma AppendBelow(c: Config, s: State, w: Write, fence: bool, reply: Reply<Knowledge>, slot: Option<Reply<seq<Record>>>)
    requires Inv(c, s) && Below(s) && !s.poisoned && s.next.Some?
    requires WriteError(c, w.payload, fence, w.writerEpoch).None?
    ensures Below(Append(c, s, w, fence, reply, slot)) <==> !(w.position == U64_MAX && Sendable(s, w) && Acks(c, w, reply))
  {
    hide Inv, Below, AppendLocked, RecoverFence, Sendable;
    LockedKeeps(c, s, w, fence, reply);
    LockedBelow(c, s, w, fence, reply);
    var (t, outcome) := AppendLocked(c, s, w, fence, reply);
    if slot.Some? && outcome == Failed(LsnConflict) && !t.poisoned {
      FenceBelow(c, t, w, slot.value);
    }
  }

  /** The exact condition: with the cache behind the cursor, a call leaves it there unless a strict
      recovery contradicts the write pending at the cursor, or the last LSN there is is acknowledged. */
  lemma CacheStaysBehind(c: Config, s: State, op: Op)
    requires Inv(c, s) && Below(s)
    ensures Below(Step(c, s, op)) <==>
            !(|| (StrictEntries(c, s, op).Some? && Contradicts(s, StrictEntries(c, s, op).value))
              || AcksLast(c, s, op))
  {
    hide Inv, Decode, EnsurePosition, Append, ApplyForLance, ApplyEntries, AdvanceNext, Contradicts, WriteError, Sendable;
    match op {
      case Recover(after, tail) => DecodedStrict(c, s, after, tail, None);
      case ReadEntry(position, tail) => if position > 0 { DecodedStrict(c, s, position - 1, tail, None); }
      case RecoverWithWatermark(after, k, tail) => DecodedStrict(c, s, after, tail, Some(k));
      case NextPosition(tail) => if !s.poisoned { EnsureBelow(c, s, tail); }
      case ReadForLance(position, tail) => if position > 0 { DecodedLance(c, s, position - 1, tail); }
      case NextForLance(after, tail) => DecodedLance(c, s, after, tail); FreshEmpty(c, s);
      case AppendPayload(payload, fence, tail, reply) =>
        if !s.poisoned {
          EnsureBelow(c, s, tail);
          EnsureKeeps(c, s, tail);
          var (t, error) := EnsurePosition(c, s, tail);
          if error.None? && WriteError(c, payload, fence, c.writerEpoch).None? {
            AppendBelow(c, t, Write(c.writerEpoch, t.next.value, payload), fence, reply, None);
          }
        }
      case AppendAt(shard, w, fence, tail, reply, slot) =>
        if !s.poisoned {
          EnsureBelow(c, s, tail);
          EnsureKeeps(c, s, tail);
          var (t, error) := EnsurePosition(c, s, tail);
          if error.None? && WriteError(c, w.payload, fence, w.writerEpoch).None? {
            AppendBelow(c, t, w, fence, reply, Some(slot));
          }
        }
      case Checkpointed(_, _) =>
    }
  }

  lemma FreshEmpty(c: Config, s: State)
    requires Inv(c, s)
    ensures s.next.None? ==> s.committed == map[]
  {
  }

  lemma DecodedStrict(c: Config, s: State, after: u64, tail: Reply<seq<Record>>, persisted: Option<Knowledge>)
    requires Inv(c, s) && Below(s)
    ensures var decoded := Decode(c, after, tail, Some(c.writerEpoch));
            decoded.Answer? ==>
              (Below(ApplyRecovery(s, decoded.value, persisted).0) <==>
               !(Contradicts(s, decoded.value) && (persisted.Some? || Covered(s, decoded).Some?)))
  {
    hide Decode, ApplyEntries, AdvanceNext, Contradicts, Inv;
    var decoded := Decode(c, after, tail, Some(c.writerEpoch));
    if decoded.Answer? {
      Decoded(c, after, tail, Some(c.writerEpoch));
      StrictBelow(c, s, decoded.value, if persisted.Some? then persisted.value else s.knowledge);
    }
  }

  lemma DecodedLance(c: Config, s: State, after: u64, tail: Reply<seq<Record>>)
    requires Inv(c, s) && Below(s)
    ensures Decode(c, after, tail, None).Answer? ==> Below(ApplyForLance(c, s, Decode(c, after, tail, None).value).0)
  {
    if Decode(c, after, tail, None).Answer? {
      Decoded(c, after, tail, None);
      LanceBelow(c, s, Decode(c, after, tail, None).value);
    }
  }

  const CONTRADICTED: Config := Config("s", "x", 1, (payload: Bytes) => Entry(1, false, true))
  const LOST: Op := AppendAt("x", Write(1, 1, [0]), false, Answer([]), Refused(Replica), Answer([]))
  const CERTIFIED: Op :=
    RecoverWithWatermark(0, Knowledge("s", 1, 1, Some("cert")), Answer([Record("s", 1, 1, 0, [1])]))

  /** The write at the first position is sent and its answer lost. */
  lemma LostStep()
    ensures var s := Step(CONTRADICTED, Initial(CONTRADICTED), LOST);
            && s.next == Some(1) && s.pending == Some(Pending(1, [0])) && s.committed == map[]
            && s.checkpointed == 0 && !s.poisoned
  {
    var c := CONTRADICTED;
    var s := Initial(c);
    assert DecodeFrom(c, [], 1, Some(1)) == Answer([]);
    assert EnsurePosition(c, s, Answer([])) == (AdvanceNext(s, []).(next := Some(1)), None);
  }

  lemma CertifiedDecodes()
    ensures Decode(CONTRADICTED, 0, CERTIFIED.tail, Some(1)) == Answer([Recovered(1, 1, [1])])
  {
    var c, records := CONTRADICTED, [Record("s", 1, 1, 0, [1])];
    assert records[1..] == [];
    assert RecordError(c, records[0], 1, Some(1)) == None;
    assert DecodeFrom(c, records[1..], 2, Some(1)) == Answer([]);
    assert [Recovered(1, 1, [1])] + [] == [Recovered(1, 1, [1])];
  }

  /** The certified recovery holds another payload there, and stops. */
  lemma CertifiedStep(s: State)
    requires s.next == Some(1) && s.pending == Some(Pending(1, [0])) && s.committed == map[]
    requires s.checkpointed == 0 && !s.poisoned
    ensures var t := Step(CONTRADICTED, s, CERTIFIED);
            t.next == Some(1) && t.committed == map[1 := [1]] && !t.poisoned
  {
    hide Decode;
    CertifiedDecodes();
    var entries := [Recovered(1, 1, [1])];
    assert s.pending.value.payload[0] != entries[0].payload[0];
    assert ApplyEntries(s, entries, CERTIFIED.persisted) == ApplyOne(s, entries[0], CERTIFIED.persisted);
  }

  /** And it does happen: a write whose answer was lost, contradicted by a certified recovery, leaves
      an entry cached at the cursor of a backend that is not poisoned. */
  lemma ContradictedRun() returns (c: Config, ops: seq<Op>)
    ensures !Below(Exec(c, ops)) && !Exec(c, ops).poisoned
    ensures Exec(c, ops).next == Some(1) && 1 in Exec(c, ops).committed
  {
    hide Step;
    c, ops := CONTRADICTED, [LOST, CERTIFIED];
    assert ops[..1] == [LOST] && [LOST][..0] == [];
    assert Exec(c, []) == Initial(c);
    assert Exec(c, [LOST]) == Step(c, Initial(c), LOST);
    LostStep();
    CertifiedStep(Exec(c, [LOST]));
    var t := Exec(c, ops);
    assert t == Step(c, Exec(c, [LOST]), CERTIFIED);
    assert 1 in t.committed && !(1 < t.next.value);
  }
}
