/** The backend as the object it is: cursors that each call updates in place under its lock.
    Every method is proved to do exactly what the state machine of `WalSpec` says, and to return what
    `WalReturns` says. */
module WalBackend {
  import opened Base
  import opened WalSpec
  import opened WalReturns

  method HighestKey(committed: map<u64, Bytes>) returns (top: Option<u64>)
    ensures top == Highest(committed)
  {
    top := None;
    var left := committed.Keys;
    while left != {}
      invariant left <= committed.Keys
      invariant top.None? <==> left == committed.Keys
      invariant top.Some? ==> top.value in committed
      invariant forall k :: k in committed && k !in left ==> top.Some? && k <= top.value
      decreases |left|
    {
      var k :| k in left;
      if top.None? || top.value < k {
        top := Some(k);
      }
      left := left - {k};
    }
  }

  /** `decode_recovery_records_with_epoch_bound`: every record is validated before any state moves. */
  method DecodeRecoveryRecords(c: Config, after: u64, records: seq<Record>, bound: Option<u64>)
    returns (decoded: Reply<seq<Recovered>>)
    ensures decoded == Decode(c, after, Answer(records), bound)
  {
    if after == U64_MAX {
      return Refused(InvalidPosition);
    }
    var expected: u64 := after + 1;
    var entries: seq<Recovered> := [];
    var i := 0;
    PrependNone(DecodeFrom(c, records, expected, bound));
    assert records[i..] == records;
    while i < |records|
      invariant 0 <= i <= |records|
      invariant Decode(c, after, Answer(records), bound) == Prepend(entries, DecodeFrom(c, records[i..], expected, bound))
    {
      var r := records[i];
      assert records[i..][0] == r && records[i..][1..] == records[i + 1..];
      var error := RecordError(c, r, expected, bound);
      if error.Some? {
        return Refused(error.value);
      }
      ghost var before := entries;
      entries := entries + [Recovered(r.lsn, r.writerEpoch, r.payload)];
      PrependOne(before, Recovered(r.lsn, r.writerEpoch, r.payload), DecodeFrom(c, records[i + 1..], expected + 1, bound));
      expected := expected + 1;
      i := i + 1;
    }
    assert entries + [] == entries;
    return Answer(entries);
  }

  ghost function Prepend(entries: seq<Recovered>, reply: Reply<seq<Recovered>>): Reply<seq<Recovered>> {
    match reply
    case Refused(e) => Refused(e)
    case Answer(rest) => Answer(entries + rest)
  }

  lemma PrependNone(reply: Reply<seq<Recovered>>)
    ensures Prepend([], reply) == reply
  {
    if reply.Answer? {
      assert [] + reply.value == reply.value;
    }
  }

  lemma PrependOne(entries: seq<Recovered>, e: Recovered, reply: Reply<seq<Recovered>>)
    ensures Prepend(entries, Prepend([e], reply)) == Prepend(entries + [e], reply)
  {
    if reply.Answer? {
      assert entries + ([e] + reply.value) == entries + [e] + reply.value;
    }
  }

  class BitrWalBackend {
    const config: Config
    var next: Option<u64>
    var pending: Option<Pending>
    var committed: map<u64, Bytes>
    var checkpointed: u64
    var knowledge: Knowledge
    var recoveredTail: u64
    var fencePosition: Option<u64>
    var poisoned: bool
    /** Every append handed to the quorum writer so far. */
    ghost var sent: seq<Sent>

    ghost function View(): State
      reads this
    {
      State(next, pending, committed, checkpointed, knowledge, recoveredTail, fencePosition, poisoned, sent)
    }

    constructor (c: Config)
      ensures config == c && View() == Initial(c)
    {
      config := c;
      next := None;
      pending := None;
      committed := map[];
      checkpointed := 0;
      knowledge := Knowledge(c.stream, c.writerEpoch, 0, None);
      recoveredTail := 0;
      fencePosition := None;
      poisoned := false;
      sent := [];
    }

    method PoisonIfStructural(e: WalError)
      modifies this
      ensures View() == Poison(old(View()), e)
    {
      if Structural(e) {
        poisoned := true;
      }
    }

    /** `advance_next_position`. */
    method AdvanceNextPosition(entries: seq<Recovered>)
      modifies this
      ensures View() == AdvanceNext(old(View()), entries)
    {
      var top := HighestKey(committed);
      var furthest := Later(next, Later(Past(LastPosition(entries)), Past(top)));
      next := if furthest.None? then Some(1) else furthest;
    }

    /** `apply_recovery`. */
    method ApplyRecovery(entries: seq<Recovered>, persisted: Option<Knowledge>) returns (error: Option<WalError>)
      modifies this
      ensures (View(), error) == WalSpec.ApplyRecovery(old(View()), entries, persisted)
    {
      if persisted.None? && entries != [] && knowledge.committedLsn < entries[|entries| - 1].position {
        return Some(CommitCertificateMissing);
      }
      var known := if persisted.Some? then persisted.value else knowledge;
      var i := 0;
      while i < |entries|
        invariant 0 <= i <= |entries|
        invariant ApplyEntries(old(View()), entries, known) == ApplyEntries(View(), entries[i..], known)
      {
        var e := entries[i];
        assert entries[i..][0] == e && entries[i..][1..] == entries[i + 1..];
        if e.position > checkpointed {
          committed := committed[e.position := e.payload];
        }
        knowledge := known;
        recoveredTail := if recoveredTail < e.position then e.position else recoveredTail;
        if pending.Some? && pending.value.position == e.position {
          if pending.value.payload == e.payload {
            pending := None;
          } else {
            return Some(LsnConflict);
          }
        }
        i := i + 1;
      }
      AdvanceNextPosition(entries);
      return None;
    }

    /** `apply_recovery_for_lance`. */
    method ApplyRecoveryForLance(entries: seq<Recovered>) returns (error: Option<WalError>)
      modifies this
      ensures (View(), error) == ApplyForLance(config, old(View()), entries)
    {
      var i := 0;
      while i < |entries|
        invariant 0 <= i <= |entries|
        invariant ApplyEntriesForLance(config, old(View()), entries) == ApplyEntriesForLance(config, View(), entries[i..])
      {
        var e := entries[i];
        assert entries[i..][0] == e && entries[i..][1..] == entries[i + 1..];
        if e.position in committed && committed[e.position] != e.payload {
          return Some(LsnConflict);
        }
        var known := if knowledge.committedLsn >= e.position then knowledge
                     else Knowledge(config.stream, e.writerEpoch, e.position, None);
        if e.position > checkpointed {
          committed := committed[e.position := e.payload];
        }
        knowledge := known;
        recoveredTail := if recoveredTail < e.position then e.position else recoveredTail;
        i := i + 1;
      }
      AdvanceNextPosition(entries);
      return None;
    }

    method Load(after: u64, reply: Reply<seq<Record>>, bound: Option<u64>) returns (decoded: Reply<seq<Recovered>>)
      ensures decoded == Decode(config, after, reply, bound)
    {
      match reply {
        case Refused(e) => decoded := Refused(e);
        case Answer(records) => decoded := DecodeRecoveryRecords(config, after, records, bound);
      }
    }

    /** `ensure_position`. */
    method EnsurePosition(tail: Reply<seq<Record>>) returns (error: Option<WalError>)
      modifies this
      ensures (View(), error) == WalSpec.EnsurePosition(config, old(View()), tail)
    {
      if next.Some? {
        return None;
      }
      var decoded := Load(0, tail, Some(config.writerEpoch));
      match decoded {
        case Refused(e) =>
          PoisonIfStructural(e);
          return Some(e);
        case Answer(entries) =>
          error := ApplyRecovery(entries, None);
          if error.None? {
            next := Some(if entries == [] then 1 else SatAdd(entries[|entries| - 1].position, 1));
          }
      }
    }

    /** `append_locked`, with the quorum writer's answer as `reply`. */
    method AppendLocked(w: Write, fence: bool, reply: Reply<Knowledge>) returns (outcome: Outcome)
      modifies this
      ensures (View(), outcome) == WalSpec.AppendLocked(config, old(View()), w, fence, reply)
    {
      var expected := if next.Some? then next.value else 1;
      if w.position != expected {
        if w.position < expected && next.Some? && w.position in committed && committed[w.position] == w.payload {
          return Committed(w.position);
        }
        PoisonIfStructural(LsnConflict);
        return Failed(LsnConflict);
      }
      if pending.Some? && (pending.value.position != w.position || pending.value.payload != w.payload) {
        PoisonIfStructural(LsnConflict);
        return Failed(LsnConflict);
      }
      pending := Some(Pending(w.position, w.payload));
      sent := sent + [Sent(w.writerEpoch, w.position, w.payload)];
      outcome := Receive(w, fence, reply);
    }

    /** The quorum writer's answer to a write that was sent. */
    method Receive(w: Write, fence: bool, reply: Reply<Knowledge>) returns (outcome: Outcome)
      modifies this
      ensures (View(), outcome) == WalSpec.Receive(config, old(View()), w, fence, reply)
    {
      match reply {
        case Refused(e) =>
          if e == Fenced {
            PoisonIfStructural(e);
          }
          return Failed(e);
        case Answer(k) =>
          if k.stream != config.stream || k.writerEpoch != w.writerEpoch || k.committedLsn != w.position {
            PoisonIfStructural(InvalidCommit);
            return Failed(InvalidCommit);
          }
          committed := committed[w.position := w.payload];
          if w.position == U64_MAX {
            return Failed(InvalidPosition);
          }
          next := Some(w.position + 1);
          pending := None;
          knowledge := k;
          if fence {
            fencePosition := Some(w.position);
          }
          return Committed(w.position);
      }
    }

    /** `recover_fence_position`. */
    method RecoverFencePosition(w: Write, slot: Reply<seq<Record>>) returns (outcome: Outcome)
      modifies this
      ensures (View(), outcome) == RecoverFence(config, old(View()), w, slot)
    {
      var decoded := Load(SatSub(w.position, 1), slot, None);
      match decoded {
        case Refused(e) =>
          PoisonIfStructural(e);
          return Failed(e);
        case Answer(entries) =>
          if exists i :: 0 <= i < |entries| && entries[i].writerEpoch > w.writerEpoch {
            PoisonIfStructural(Fenced);
            return Failed(Fenced);
          }
          if || entries == [] || entries[0].position != w.position
             || exists i :: 0 <= i < |entries| && entries[i].writerEpoch == w.writerEpoch {
            return Failed(LsnConflict);
          }
          var error := ApplyRecoveryForLance(entries);
          if error.Some? {
            PoisonIfStructural(error.value);
            return Failed(error.value);
          }
          pending := None;
          return AlreadyExists;
      }
    }

    /** `append_payload`, behind `append_batches`, `append_encoded` and `append_fence`. */
    method AppendPayload(payload: Bytes, fence: bool, tail: Reply<seq<Record>>, reply: Reply<Knowledge>)
      returns (outcome: Outcome)
      modifies this
      ensures View() == Step(config, old(View()), Op.AppendPayload(payload, fence, tail, reply))
      ensures Appended(outcome) == Returns(config, old(View()), Op.AppendPayload(payload, fence, tail, reply))
    {
      var refused := WriteError(config, payload, fence, config.writerEpoch);
      if refused.Some? {
        return Failed(refused.value);
      }
      if poisoned {
        return Failed(Poisoned);
      }
      var error := EnsurePosition(tail);
      if error.Some? {
        return Failed(error.value);
      }
      outcome := AppendLocked(Write(config.writerEpoch, next.value, payload), fence, reply);
    }

    /** `append_at_position`, behind Lance's `append` and `fence`. */
    method AppendAtPosition(shard: string, w: Write, fence: bool, tail: Reply<seq<Record>>, reply: Reply<Knowledge>,
                            slot: Reply<seq<Record>>) returns (outcome: Outcome)
      modifies this
      ensures View() == Step(config, old(View()), AppendAt(shard, w, fence, tail, reply, slot))
      ensures Appended(outcome) == Returns(config, old(View()), AppendAt(shard, w, fence, tail, reply, slot))
    {
      if shard != config.shard {
        return Failed(LsnConflict);
      }
      var refused := WriteError(config, w.payload, fence, w.writerEpoch);
      if refused.Some? {
        return Failed(refused.value);
      }
      if poisoned {
        return Failed(Poisoned);
      }
      var error := EnsurePosition(tail);
      if error.Some? {
        return Failed(error.value);
      }
      outcome := AppendLocked(w, fence, reply);
      if outcome == Failed(LsnConflict) && fence && !poisoned {
        outcome := RecoverFencePosition(w, slot);
      }
    }

    /** `recover`. */
    method Recover(after: u64, tail: Reply<seq<Record>>) returns (entries: Reply<seq<Recovered>>)
      modifies this
      ensures View() == Step(config, old(View()), Op.Recover(after, tail))
      ensures Entries(entries) == Returns(config, old(View()), Op.Recover(after, tail))
    {
      if poisoned {
        return Refused(Poisoned);
      }
      entries := Load(after, tail, Some(config.writerEpoch));
      match entries {
        case Refused(e) => PoisonIfStructural(e);
        case Answer(recovered) =>
          var error := ApplyRecovery(recovered, None);
          return OrError(error, recovered);
      }
    }

    /** `recover_with_watermark`. */
    method RecoverWithWatermark(after: u64, k: Knowledge, tail: Reply<seq<Record>>)
      returns (entries: Reply<seq<Recovered>>)
      modifies this
      ensures View() == Step(config, old(View()), Op.RecoverWithWatermark(after, k, tail))
      ensures Entries(entries) == Returns(config, old(View()), Op.RecoverWithWatermark(after, k, tail))
    {
      if k.stream != config.stream || k.writerEpoch > config.writerEpoch {
        return Refused(InvalidCommit);
      }
      if k.certificate.None? || k.certificate.value == "" {
        return Refused(CommitCertificateMissing);
      }
      if poisoned {
        return Refused(Poisoned);
      }
      entries := Load(after, tail, Some(config.writerEpoch));
      match entries {
        case Refused(e) => PoisonIfStructural(e);
        case Answer(recovered) =>
          if k.committedLsn > after && LastPosition(recovered) != Some(k.committedLsn) {
            PoisonIfStructural(RecoveryGap);
            return Refused(RecoveryGap);
          }
          var error := ApplyRecovery(recovered, Some(k));
          return OrError(error, recovered);
      }
    }

    /** `next_position`. */
    method NextPosition(tail: Reply<seq<Record>>) returns (position: Reply<u64>)
      modifies this
      ensures View() == Step(config, old(View()), Op.NextPosition(tail))
      ensures Returned.Position(position) == Returns(config, old(View()), Op.NextPosition(tail))
    {
      if poisoned {
        return Refused(Poisoned);
      }
      var error := EnsurePosition(tail);
      if error.Some? {
        return Refused(error.value);
      }
      return Answer(next.value);
    }

    /** `read_entry`. */
    method ReadEntry(position: u64, tail: Reply<seq<Record>>) returns (entry: Reply<Option<Recovered>>)
      modifies this
      ensures View() == Step(config, old(View()), Op.ReadEntry(position, tail))
      ensures Returned.Read(entry) == Returns(config, old(View()), Op.ReadEntry(position, tail))
    {
      if position == 0 {
        return Refused(InvalidPosition);
      }
      if poisoned {
        return Refused(Poisoned);
      }
      if position in committed {
        return CachedEntry(config, position, committed[position]);
      }
      var decoded := Load(position - 1, tail, Some(config.writerEpoch));
      match decoded {
        case Refused(e) =>
          PoisonIfStructural(e);
          return Refused(e);
        case Answer(recovered) =>
          var error := ApplyRecovery(recovered, None);
          return ReadOf(OrError(error, recovered), position);
      }
    }

    /** The second critical section of `read_entry_for_lance`, after its unlocked load. */
    method ReadAfterLoad(position: u64, tail: Reply<seq<Record>>) returns (entry: Reply<Option<Recovered>>)
      modifies this
      ensures View() == Step(config, old(View()), ReadForLance(position, tail))
      ensures Returned.Read(entry) == Returns(config, old(View()), ReadForLance(position, tail))
    {
      if position == 0 {
        return Refused(InvalidPosition);
      }
      var decoded := Load(position - 1, tail, None);
      if decoded.Refused? {
        return Refused(decoded.error);
      }
      if poisoned {
        return Refused(Poisoned);
      }
      var error := ApplyRecoveryForLance(decoded.value);
      return ReadOf(OrError(error, decoded.value), position);
    }

    /** The second critical section of `next_position_for_lance`, after its unlocked load. */
    method NextAfterLoad(after: u64, tail: Reply<seq<Record>>) returns (position: Reply<u64>)
      modifies this
      ensures View() == Step(config, old(View()), NextForLance(after, tail))
      ensures Returned.Position(position) == Returns(config, old(View()), NextForLance(after, tail))
    {
      var decoded := Load(after, tail, None);
      if decoded.Refused? {
        return Refused(decoded.error);
      }
      if poisoned {
        return Refused(Poisoned);
      }
      if next.Some? {
        return Answer(next.value);
      }
      if decoded.value == [] {
        var start: u64 := Max(SatAdd(after, 1), 1);
        recoveredTail := Max(recoveredTail, start - 1);
        next := Some(start);
        return Answer(start);
      }
      var error := ApplyRecoveryForLance(decoded.value);
      if error.Some? {
        return Refused(error.value);
      }
      return Answer(if next.Some? then next.value else 1);
    }

    /** `checkpointed`: drops covered entries, keeps the cursors. */
    method Checkpointed(shard: string, position: u64)
      modifies this
      ensures View() == Step(config, old(View()), Op.Checkpointed(shard, position))
    {
      if shard != config.shard {
        return;
      }
      checkpointed := Max(checkpointed, position);
      committed := map k | k in committed && k > checkpointed :: committed[k];
    }

    /** Any one call. */
    method Perform(op: Op)
      modifies this
      ensures View() == Step(config, old(View()), op)
    {
      hide Step, Returns;
      match op {
        case AppendPayload(payload, fence, tail, reply) => var _ := AppendPayload(payload, fence, tail, reply);
        case AppendAt(shard, w, fence, tail, reply, slot) =>
          var _ := AppendAtPosition(shard, w, fence, tail, reply, slot);
        case Recover(after, tail) => var _ := Recover(after, tail);
        case RecoverWithWatermark(after, k, tail) => var _ := RecoverWithWatermark(after, k, tail);
        case NextPosition(tail) => var _ := NextPosition(tail);
        case ReadEntry(position, tail) => var _ := ReadEntry(position, tail);
        case ReadForLance(position, tail) => var _ := ReadAfterLoad(position, tail);
        case NextForLance(after, tail) => var _ := NextAfterLoad(after, tail);
        case Checkpointed(shard, position) => Checkpointed(shard, position);
      }
    }

    /** What others do while a call has dropped the lock. */
    method PerformAll(ops: seq<Op>)
      modifies this
      ensures View() == ExecFrom(config, old(View()), ops)
    {
      hide Step;
      var i := 0;
      while i < |ops|
        invariant 0 <= i <= |ops|
        invariant View() == ExecFrom(config, old(View()), ops[..i])
      {
        assert ops[..i + 1][..i] == ops[..i];
        Perform(ops[i]);
        i := i + 1;
      }
      assert ops[..i] == ops;
    }

    /** `read_entry_for_lance`. */
    method ReadEntryForLance(position: u64, others: seq<Op>, tail: Reply<seq<Record>>)
      returns (entry: Reply<Option<Recovered>>)
      modifies this
      ensures (View(), entry) == ReadCall(config, old(View()), position, others, tail)
    {
      hide Step;
      if position == 0 {
        return Refused(InvalidPosition);
      }
      if poisoned {
        return Refused(Poisoned);
      }
      if position in committed {
        return CachedEntry(config, position, committed[position]);
      }
      PerformAll(others);
      entry := ReadAfterLoad(position, tail);
    }

    /** `next_position_for_lance`. */
    method NextPositionForLance(after: u64, others: seq<Op>, tail: Reply<seq<Record>>) returns (position: Reply<u64>)
      modifies this
      ensures (View(), position) == NextCall(config, old(View()), after, others, tail)
    {
      hide Step;
      if poisoned {
        return Refused(Poisoned);
      }
      if next.Some? {
        return Answer(next.value);
      }
      PerformAll(others);
      position := NextAfterLoad(after, tail);
    }

    /** The backend's `read`: the payload alone, and only of this shard. */
    method Read(shard: string, position: u64, others: seq<Op>, tail: Reply<seq<Record>>)
      returns (payload: Reply<Option<Bytes>>)
      modifies this
      ensures shard != config.shard ==> payload == Refused(LsnConflict) && View() == old(View())
      ensures shard == config.shard ==>
                var (s, reply) := ReadCall(config, old(View()), position, others, tail);
                && View() == s
                && payload == match reply
                              case Refused(e) => Refused(e)
                              case Answer(None) => Answer(None)
                              case Answer(Some(e)) => Answer(Some(e.payload))
    {
      hide ReadCall;
      if shard != config.shard {
        return Refused(LsnConflict);
      }
      var entry := ReadEntryForLance(position, others, tail);
      match entry {
        case Refused(e) => return Refused(e);
        case Answer(None) => return Answer(None);
        case Answer(Some(e)) => return Answer(Some(e.payload));
      }
    }

    /** The backend's `next_position`, of this shard only, from Lance's hint. */
    method NextPositionFrom(shard: string, hint: Option<u64>, others: seq<Op>, tail: Reply<seq<Record>>)
      returns (position: Reply<u64>)
      modifies this
      ensures shard != config.shard ==> position == Refused(LsnConflict) && View() == old(View())
      ensures shard == config.shard ==>
                (View(), position)
                == NextCall(config, old(View()), if hint.Some? then hint.value else 0, others, tail)
    {
      hide NextCall;
      if shard != config.shard {
        return Refused(LsnConflict);
      }
      position := NextPositionForLance(if hint.Some? then hint.value else 0, others, tail);
    }
  }
}
