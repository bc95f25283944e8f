/** What each call of the WAL backend does to its state, field by field. */
module WalExact {
  import opened Base
  import opened WalSpec
  import opened WalTheorems
  import opened WalDecode
  import opened WalReturns

  // ---------------------------------------------------------- applying a tail

  /** The tail has an entry for `k`, above the checkpoint. */
  predicate Brings(s: State, entries: seq<Recovered>, k: u64) {
    s.checkpointed < k && InRange(entries, k)
  }

  function Brought(entries: seq<Recovered>, k: u64): Bytes
    requires Consecutive(entries) && InRange(entries, k)
  {
    entries[k - entries[0].position].payload
  }

  /** The cache with the tail laid over it. */
  ghost predicate Overlaid(s: State, entries: seq<Recovered>, committed: map<u64, Bytes>)
    requires Consecutive(entries)
  {
    && (forall k :: k in committed <==> k in s.committed || Brings(s, entries, k))
    && (forall k :: k in committed ==>
          committed[k] == if Brings(s, entries, k) then Brought(entries, k) else s.committed[k])
  }

  function TailOf(s: State, entries: seq<Recovered>): u64 {
    if entries == [] then s.recoveredTail else Max(s.recoveredTail, entries[|entries| - 1].position)
  }

  /** The state after a whole tail: only the cache, the knowledge and the recovered tail change, and a
      pending write the tail confirms is settled. */
  ghost predicate TookAll(s: State, entries: seq<Recovered>, knowledge: Knowledge, t: State)
    requires Consecutive(entries)
  {
    && Overlaid(s, entries, t.committed)
    && t == s.(committed := t.committed, recoveredTail := TailOf(s, entries),
               knowledge := if entries == [] then s.knowledge else knowledge,
               pending := if s.pending.Some? && InRange(entries, s.pending.value.position) then None else s.pending)
  }

  /** The tail has other bytes at the position of the pending write. */
  predicate Denies(s: State, entries: seq<Recovered>)
    requires Consecutive(entries)
  {
    && s.pending.Some? && InRange(entries, s.pending.value.position)
    && Brought(entries, s.pending.value.position) != s.pending.value.payload
  }

  lemma OverlaidThen(s: State, entries: seq<Recovered>, t: State, committed: map<u64, Bytes>)
    requires entries != [] && Consecutive(entries) && Consecutive(entries[1..])
    requires t.committed == Cache(s, entries[0]).committed && t.checkpointed == s.checkpointed
    requires Overlaid(t, entries[1..], committed)
    ensures Overlaid(s, entries, committed)
  {
    hide Consecutive, Brought, InRange, Cache;
    forall k: u64
      ensures k in committed <==> k in s.committed || Brings(s, entries, k)
      ensures k in committed ==> committed[k] == if Brings(s, entries, k) then Brought(entries, k) else s.committed[k]
    {
      OverlaidAt(s, entries, t, k);
    }
  }

  /** At one position, laying the first entry and then the others over the cache is laying all over it. */
  lemma OverlaidAt(s: State, entries: seq<Recovered>, t: State, k: u64)
    requires entries != [] && Consecutive(entries) && Consecutive(entries[1..])
    requires t.committed == Cache(s, entries[0]).committed && t.checkpointed == s.checkpointed
    ensures k in t.committed || Brings(t, entries[1..], k) <==> k in s.committed || Brings(s, entries, k)
    ensures Brings(t, entries[1..], k) ==> Brings(s, entries, k) && Brought(entries[1..], k) == Brought(entries, k)
    ensures k in t.committed && !Brings(t, entries[1..], k) ==>
              t.committed[k] == if Brings(s, entries, k) then Brought(entries, k) else s.committed[k]
  {
    hide Consecutive;
    TailConsecutive(entries);
    StartsRange(entries);
    if InRange(entries[1..], k) {
      SameBrought(entries, k);
    }
    assert Brought(entries, entries[0].position) == entries[0].payload;
  }

  lemma SameBrought(entries: seq<Recovered>, k: u64)
    requires entries != [] && Consecutive(entries) && Consecutive(entries[1..]) && InRange(entries[1..], k)
    ensures InRange(entries, k) && Brought(entries[1..], k) == Brought(entries, k)
  {
    TailConsecutive(entries);
    assert entries[1..][0].position == entries[0].position + 1;
  }

  lemma NothingOver(s: State)
    ensures Overlaid(s, [], s.committed)
  {
  }

  /** A strict recovery takes its whole tail exactly when that does not deny the pending write. */
  lemma {:induction false} TakesAllIff(s: State, entries: seq<Recovered>, knowledge: Knowledge)
    requires Consecutive(entries)
    ensures var (t, go) := ApplyEntries(s, entries, knowledge);
            (go <==> !Denies(s, entries)) && (go ==> TookAll(s, entries, knowledge, t))
    decreases |entries|
  {
    hide Consecutive, Overlaid, InRange;
    if entries == [] {
      assert Overlaid(s, entries, s.committed) by { NothingOver(s); }
      assert !InRange(entries, 0) && forall k :: !InRange(entries, k) by { NothingInRange(); }
    } else {
      TailConsecutive(entries);
      StartsRange(entries);
      var rest := entries[1..];
      var (t, go) := ApplyOne(s, entries[0], knowledge);
      assert Brought(entries, entries[0].position) == entries[0].payload;
      if go {
        TakesAllIff(t, rest, knowledge);
        if s.pending.Some? && InRange(rest, s.pending.value.position) {
          SameBrought(entries, s.pending.value.position);
        }
        if !Denies(t, rest) {
          OverlaidThen(s, entries, t, ApplyEntries(t, rest, knowledge).0.committed);
          LastOfRest(entries);
        }
      }
    }
  }

  lemma NothingInRange()
    ensures forall k :: !InRange([], k)
  {
  }

  lemma LastOfRest(entries: seq<Recovered>)
    requires entries != [] && Consecutive(entries)
    ensures entries[1..] == [] ==> entries[|entries| - 1] == entries[0]
    ensures entries[1..] != [] ==>
              entries[1..][|entries| - 2] == entries[|entries| - 1] && entries[0].position < entries[|entries| - 1].position
  {
  }

  /** The state after a whole tail read for Lance: the knowledge moves only past what was known. */
  ghost predicate TookAllForLance(c: Config, s: State, entries: seq<Recovered>, t: State)
    requires Consecutive(entries)
  {
    && Overlaid(s, entries, t.committed)
    && t == s.(committed := t.committed, recoveredTail := TailOf(s, entries), knowledge := KnownAfter(c, s, entries))
  }

  function KnownAfter(c: Config, s: State, entries: seq<Recovered>): Knowledge {
    if entries == [] || entries[|entries| - 1].position <= s.knowledge.committedLsn then s.knowledge
    else Knowledge(c.stream, entries[|entries| - 1].writerEpoch, entries[|entries| - 1].position, None)
  }

  /** The tail has other bytes than the cache at some position. */
  ghost predicate Disputes(s: State, entries: seq<Recovered>)
    requires Consecutive(entries)
  {
    exists k :: k in s.committed && InRange(entries, k) && Brought(entries, k) != s.committed[k]
  }

  /** A recovery for Lance takes its whole tail exactly when that agrees with the cache. */
  lemma {:induction false} TakesAllForLanceIff(c: Config, s: State, entries: seq<Recovered>)
    requires Consecutive(entries)
    ensures var (t, go) := ApplyEntriesForLance(c, s, entries);
            (go <==> !Disputes(s, entries)) && (go ==> TookAllForLance(c, s, entries, t))
    decreases |entries|
  {
    hide Consecutive, Overlaid, InRange;
    if entries == [] {
      assert Overlaid(s, entries, s.committed) by { NothingOver(s); }
      NothingInRange();
    } else {
      TailConsecutive(entries);
      StartsRange(entries);
      var rest := entries[1..];
      var (t, go) := ApplyOneForLance(c, s, entries[0]);
      assert Brought(entries, entries[0].position) == entries[0].payload;
      if go {
        TakesAllForLanceIff(c, t, rest);
        DisputesRest(s, t, entries);
        if !Disputes(t, rest) {
          OverlaidThen(s, entries, t, ApplyEntriesForLance(c, t, rest).0.committed);
          LastOfRest(entries);
        }
      }
    }
  }

  lemma DisputesRest(s: State, t: State, entries: seq<Recovered>)
    requires entries != [] && Consecutive(entries) && Consecutive(entries[1..])
    requires t.committed == Cache(s, entries[0]).committed
    requires entries[0].position in s.committed ==> s.committed[entries[0].position] == entries[0].payload
    ensures Disputes(s, entries) <==> Disputes(t, entries[1..])
  {
    hide Consecutive, InRange;
    TailConsecutive(entries);
    StartsRange(entries);
    var rest := entries[1..];
    assert Brought(entries, entries[0].position) == entries[0].payload;
    forall k: u64 | InRange(rest, k) ensures Brought(rest, k) == Brought(entries, k) {
      SameBrought(entries, k);
    }
  }

  // -------------------------------------------------------------- recovery calls

  /** A strict recovery of records that all fit: refused without a certificate that covers them, or
      short of the persisted watermark, or against the pending write; otherwise all of it is taken and
      returned, and the cursor is past it. */
  lemma RecoversIff(c: Config, s: State, op: Op, records: seq<Record>)
    requires (op.Recover? || op.RecoverWithWatermark?) && StrictAfter(c, s, op) == Some(op.after)
    requires op.tail == Answer(records) && op.after < U64_MAX && AllFit(c, records, op.after + 1, Some(c.writerEpoch))
    ensures var entries := AsRecovered(records);
            var knowledge := if op.RecoverWithWatermark? then op.persisted else s.knowledge;
            && Consecutive(entries)
            && if op.RecoverWithWatermark? && op.after < knowledge.committedLsn
                  && LastPosition(entries) != Some(knowledge.committedLsn) then
                 ErrorOf(Returns(c, s, op)) == Some(RecoveryGap) && Step(c, s, op) == s.(poisoned := true)
               else if op.Recover? && entries != [] && knowledge.committedLsn < op.after + |entries| then
                 ErrorOf(Returns(c, s, op)) == Some(CommitCertificateMissing) && Step(c, s, op) == s
               else if Denies(s, entries) then
                 ErrorOf(Returns(c, s, op)) == Some(LsnConflict) && !Step(c, s, op).poisoned
                 && Step(c, s, op).pending == s.pending && Step(c, s, op).next == s.next
               else
                 && Returns(c, s, op) == Entries(Answer(entries))
                 && TookAll(s, entries, knowledge, Step(c, s, op).(next := s.next))
  {
    hide Decode, AllFit, ApplyEntries, AdvanceNext, TookAll, Denies, AsRecovered;
    DecodeIff(c, op.after, records, Some(c.writerEpoch));
    Decoded(c, op.after, op.tail, Some(c.writerEpoch));
    var entries := AsRecovered(records);
    var knowledge := if op.RecoverWithWatermark? then op.persisted else s.knowledge;
    TakesAllIff(s, entries, knowledge);
    var t := ApplyEntries(s, entries, knowledge).0;
    AppliedEntries(s, entries, knowledge);
    Advanced(t, entries);
    LastIs(entries, op.after);
  }

  lemma LastIs(entries: seq<Recovered>, after: u64)
    requires Consecutive(entries) && (entries != [] ==> entries[0].position == after + 1)
    ensures entries != [] ==> LastPosition(entries) == Some(after + |entries|)
  {
  }

  /** A read for Lance of records that all fit: refused against the cache, and otherwise all of it is
      taken, whatever its writers. */
  lemma ReadsForLanceIff(c: Config, s: State, position: u64, records: seq<Record>)
    requires 0 < position && !s.poisoned && AllFit(c, records, position, None)
    ensures var op, entries := ReadForLance(position, Answer(records)), AsRecovered(records);
            && Consecutive(entries)
            && if Disputes(s, entries) then ErrorOf(Returns(c, s, op)) == Some(LsnConflict) && Step(c, s, op).next == s.next
               else ErrorOf(Returns(c, s, op)).None? && TookAllForLance(c, s, entries, Step(c, s, op).(next := s.next))
  {
    hide Decode, AllFit, ApplyEntriesForLance, AdvanceNext, TookAllForLance, Disputes, AsRecovered;
    DecodeIff(c, position - 1, records, None);
    Decoded(c, position - 1, Answer(records), None);
    var entries := AsRecovered(records);
    TakesAllForLanceIff(c, s, entries);
    var t := ApplyEntriesForLance(c, s, entries).0;
    AppliedEntriesForLance(c, s, entries);
    Advanced(t, entries);
  }

  /** A position probe that finds nothing after its hint places the cursor right there. */
  lemma ProbeFindsNothing(c: Config, s: State, after: u64)
    requires !s.poisoned && s.next.None? && after < U64_MAX
    ensures var op := NextForLance(after, Answer([]));
            && Returns(c, s, op) == Position(Answer(after + 1))
            && Step(c, s, op) == s.(next := Some(after + 1),
                                      recoveredTail := if s.recoveredTail < after then after else s.recoveredTail)
  {
  }

  // -------------------------------------------------------------------- appends

  /** A payload may be written exactly when it is readable, of the writer's own epoch, a fence where a
      fence is asked for and nowhere else, and the owner's where it is not. */
  lemma WritableIff(c: Config, payload: Bytes, fence: bool, epoch: u64)
    ensures WriteError(c, payload, fence, epoch).None? <==>
            && epoch != 0 && c.ipc(payload) != Corrupt
            && c.ipc(payload) in {Entry(epoch, true, true), Entry(epoch, true, false), Entry(epoch, false, true)}
            && c.ipc(payload).fence == fence
    ensures WriteError(c, payload, fence, epoch).Some? ==>
              WriteError(c, payload, fence, epoch).value
              == match c.ipc(payload)
                 case Corrupt => CorruptIpc
                 case Entry(e, sentinel, _) =>
                   if epoch == 0 || e != epoch then Fenced else if sentinel != fence then CorruptIpc else OwnerMismatch
  {
  }

  /** The write behind an append on a backend whose cursor is placed. */
  function WriteOf(c: Config, s: State, op: Op): Write
    requires (op.AppendPayload? || op.AppendAt?) && s.next.Some?
  {
    if op.AppendAt? then op.write else Write(c.writerEpoch, s.next.value, op.payload)
  }

  /** The append is one this backend considers. */
  ghost predicate Admitted(c: Config, s: State, op: Op) {
    && (op.AppendPayload? || (op.AppendAt? && op.shard == c.shard)) && !s.poisoned && s.next.Some?
    && var w := WriteOf(c, s, op);
    WriteError(c, w.payload, op.fence, w.writerEpoch).None?
  }

  /** No other write is pending. */
  predicate Clear(s: State, w: Write) {
    s.pending.None? || s.pending.value == Pending(w.position, w.payload)
  }

  /** The state with the write noted as pending and sent. */
  function Asked(s: State, w: Write): State {
    s.(pending := Some(Pending(w.position, w.payload)), sent := s.sent + [Sent(w.writerEpoch, w.position, w.payload)])
  }

  /** At the cursor and with no other write pending, a write is sent. The exact acknowledgement commits
      it, moves the cursor and settles it; any other poisons the backend. A refusal leaves it pending,
      and poisons the backend exactly when it says the writer is fenced. */
  lemma AppendAtCursor(c: Config, s: State, op: Op)
    requires Admitted(c, s, op) && WriteOf(c, s, op).position == s.next.value < U64_MAX
    requires Clear(s, WriteOf(c, s, op))
    ensures var w := WriteOf(c, s, op);
            match op.reply
            case Answer(k) =>
              if (k.stream, k.writerEpoch, k.committedLsn) == (c.stream, w.writerEpoch, w.position) then
                && Returns(c, s, op) == Appended(Committed(w.position))
                && Step(c, s, op)
                   == Asked(s, w).(pending := None, committed := s.committed[w.position := w.payload],
                                   next := Some(w.position + 1), knowledge := k,
                                   fencePosition := if op.fence then Some(w.position) else s.fencePosition)
              else Returns(c, s, op) == Appended(Failed(InvalidCommit)) && Step(c, s, op) == Asked(s, w).(poisoned := true)
            case Refused(e) =>
              e != LsnConflict || !op.fence || op.AppendPayload? ==>
                && Returns(c, s, op) == Appended(Failed(e))
                && Step(c, s, op) == Asked(s, w).(poisoned := e == Fenced)
  {
    hide RecoverFence, WriteError;
  }

  /** Anywhere else nothing is sent: what is cached already is confirmed, and anything else is a
      conflict that poisons the backend. */
  lemma AppendElsewhere(c: Config, s: State, op: Op)
    requires Admitted(c, s, op)
    requires WriteOf(c, s, op).position != s.next.value || !Clear(s, WriteOf(c, s, op))
    ensures var w := WriteOf(c, s, op);
            if w.position < s.next.value && w.position in s.committed && s.committed[w.position] == w.payload then
              Returns(c, s, op) == Appended(Committed(w.position)) && Step(c, s, op) == s
            else Returns(c, s, op) == Appended(Failed(LsnConflict)) && Step(c, s, op) == s.(poisoned := true)
  {
    hide RecoverFence, WriteError, Receive;
    var w := WriteOf(c, s, op);
    assert !Sendable(s, w);
    assert Poison(s, LsnConflict).poisoned;
  }

  /** A fence refused for a conflict looks at the slot: a newer writer there fences this one; records all
      of older writers, with one in the slot, prove it occupied, unless they dispute the cache; and
      nothing else does. */
  lemma FenceLooks(c: Config, s: State, op: Op, records: seq<Record>)
    requires Admitted(c, s, op) && op.AppendAt? && op.fence && op.reply == Refused(LsnConflict)
    requires 0 < op.write.position == s.next.value && Clear(s, op.write)
    requires op.slot == Answer(records) && AllFit(c, records, op.write.position, None)
    ensures var w, entries := op.write, AsRecovered(records);
            && Consecutive(entries)
            && if exists i :: 0 <= i < |records| && w.writerEpoch < records[i].writerEpoch then
                 Returns(c, s, op) == Appended(Failed(Fenced)) && Step(c, s, op) == Asked(s, w).(poisoned := true)
               else if records == [] || exists i :: 0 <= i < |records| && records[i].writerEpoch == w.writerEpoch then
                 Returns(c, s, op) == Appended(Failed(LsnConflict)) && Step(c, s, op) == Asked(s, w)
               else if Disputes(s, entries) then
                 Returns(c, s, op) == Appended(Failed(LsnConflict)) && Step(c, s, op).poisoned
               else
                 && Returns(c, s, op) == Appended(AlreadyExists)
                 && TookAllForLance(c, Asked(s, w).(pending := None), entries, Step(c, s, op).(next := s.next))
  {
    hide WriteError, RecoverFence, Disputes, TookAllForLance, AllFit, Decode, AsRecovered;
    var w := op.write;
    DecodeIff(c, w.position - 1, records, None);
    Decoded(c, w.position - 1, op.slot, None);
    SlotIs(c, Asked(s, w), w, records);
    DisputesSame(s, Asked(s, w), AsRecovered(records));
  }

  lemma DisputesSame(s: State, t: State, entries: seq<Recovered>)
    requires Consecutive(entries) && s.committed == t.committed
    ensures Disputes(s, entries) <==> Disputes(t, entries)
  {
  }

  lemma SlotIs(c: Config, s: State, w: Write, records: seq<Record>)
    requires 0 < w.position && !s.poisoned && AllFit(c, records, w.position, None)
    requires Decode(c, w.position - 1, Answer(records), None) == Answer(AsRecovered(records))
    ensures var entries := AsRecovered(records);
            var (t, outcome) := RecoverFence(c, s, w, Answer(records));
            && Consecutive(entries)
            && if exists i :: 0 <= i < |records| && w.writerEpoch < records[i].writerEpoch then
                 outcome == Failed(Fenced) && t == s.(poisoned := true)
               else if records == [] || exists i :: 0 <= i < |records| && records[i].writerEpoch == w.writerEpoch then
                 outcome == Failed(LsnConflict) && t == s
               else if Disputes(s, entries) then outcome == Failed(LsnConflict) && t.poisoned
               else outcome == AlreadyExists && TookAllForLance(c, s.(pending := None), entries, t.(next := s.next))
  {
    hide AllFit, Decode, ApplyEntriesForLance, AdvanceNext, Disputes, TookAllForLance, AsRecovered;
    Decoded(c, w.position - 1, Answer(records), None);
    var entries := AsRecovered(records);
    SameEpochs(records);
    TakenForLance(c, s, entries);
  }

  lemma SameEpochs(records: seq<Record>)
    ensures |AsRecovered(records)| == |records|
    ensures forall i :: 0 <= i < |records| ==> AsRecovered(records)[i].writerEpoch == records[i].writerEpoch
  {
  }

  /** A recovery for Lance, its cursor aside. */
  lemma TakenForLance(c: Config, s: State, entries: seq<Recovered>)
    requires Consecutive(entries)
    ensures var (t, error) := ApplyForLance(c, s, entries);
            && t.poisoned == s.poisoned && error == (if Disputes(s, entries) then Some(LsnConflict) else None)
            && (error.None? ==> TookAllForLance(c, s.(pending := None), entries, t.(next := s.next, pending := None)))
  {
    hide ApplyEntriesForLance, AdvanceNext, Disputes, Consecutive;
    TakesAllForLanceIff(c, s, entries);
    var t := ApplyEntriesForLance(c, s, entries).0;
    AppliedEntriesForLance(c, s, entries);
    Advanced(t, entries);
  }
}
