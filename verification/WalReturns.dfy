/** What each call of the WAL backend returns to its caller, and what that tells the caller. */
module WalReturns {
  import opened Base
  import opened WalSpec
  import opened WalTheorems
  import opened WalDecode

  datatype Returned =
    | Appended(outcome: Outcome)
    | Entries(entries: Reply<seq<Recovered>>)
    | Position(position: Reply<u64>)
    | Read(entry: Reply<Option<Recovered>>)
    | Nothing

  predicate IsError(r: Returned) {
    match r
    case Appended(outcome) => outcome.Failed?
    case Entries(reply) => reply.Refused?
    case Position(reply) => reply.Refused?
    case Read(reply) => reply.Refused?
    case Nothing => false
  }

  /** The first recovered entry at a position. */
  function FindEntry(entries: seq<Recovered>, position: u64): Option<Recovered> {
    if entries == [] then None
    else if entries[0].position == position then Some(entries[0])
    else FindEntry(entries[1..], position)
  }

  /** A cached entry, decoded again for the reader. */
  function CachedEntry(c: Config, position: u64, payload: Bytes): Reply<Option<Recovered>> {
    match c.ipc(payload)
    case Corrupt => Refused(CorruptIpc)
    case Entry(epoch, _, _) => Answer(Some(Recovered(position, epoch, payload)))
  }

  function OrError<T>(error: Option<WalError>, value: T): Reply<T> {
    if error.Some? then Refused(error.value) else Answer(value)
  }

  ghost function StrictReturn(s: State, decoded: Reply<seq<Recovered>>, persisted: Option<Knowledge>): Reply<seq<Recovered>> {
    match decoded
    case Refused(e) => Refused(e)
    case Answer(entries) => OrError(ApplyRecovery(s, entries, persisted).1, entries)
  }

  function ReadOf(reply: Reply<seq<Recovered>>, position: u64): Reply<Option<Recovered>> {
    match reply
    case Refused(e) => Refused(e)
    case Answer(entries) => Answer(FindEntry(entries, position))
  }

  ghost function AppendReturn(c: Config, s: State, w: Write, fence: bool, reply: Reply<Knowledge>,
                              slot: Option<Reply<seq<Record>>>): Outcome
  {
    var (t, outcome) := AppendLocked(c, s, w, fence, reply);
    if slot.Some? && outcome == Failed(LsnConflict) && fence && !t.poisoned then
      RecoverFence(c, t, w, slot.value).1
    else outcome
  }

  ghost function AppendingReturn(c: Config, s: State, payload: Bytes, epoch: u64, at: Option<u64>, fence: bool,
                                 tail: Reply<seq<Record>>, reply: Reply<Knowledge>, slot: Option<Reply<seq<Record>>>)
    : Outcome
  {
    var refused := WriteError(c, payload, fence, epoch);
    if refused.Some? then Failed(refused.value)
    else if s.poisoned then Failed(Poisoned)
    else
      var (t, error) := EnsurePosition(c, s, tail);
      if error.Some? then Failed(error.value)
      else AppendReturn(c, t, Write(epoch, if at.Some? then at.value else t.next.value, payload), fence, reply, slot)
  }

  /** What the call returns from a state. */
  ghost function Returns(c: Config, s: State, op: Op): Returned {
    match op
    case Checkpointed(_, _) => Nothing
    case AppendPayload(payload, fence, tail, reply) =>
      Appended(AppendingReturn(c, s, payload, c.writerEpoch, None, fence, tail, reply, None))
    case AppendAt(shard, w, fence, tail, reply, slot) =>
      if shard != c.shard then Appended(Failed(LsnConflict))
      else Appended(AppendingReturn(c, s, w.payload, w.writerEpoch, Some(w.position), fence, tail, reply, Some(slot)))
    case Recover(after, tail) =>
      Entries(if s.poisoned then Refused(Poisoned)
              else StrictReturn(s, Decode(c, after, tail, Some(c.writerEpoch)), None))
    case RecoverWithWatermark(after, k, tail) =>
      if k.stream != c.stream || k.writerEpoch > c.writerEpoch then Entries(Refused(InvalidCommit))
      else if k.certificate.None? || k.certificate.value == "" then Entries(Refused(CommitCertificateMissing))
      else if s.poisoned then Entries(Refused(Poisoned))
      else
        var decoded := Decode(c, after, tail, Some(c.writerEpoch));
        if decoded.Answer? && k.committedLsn > after && LastPosition(decoded.value) != Some(k.committedLsn) then
          Entries(Refused(RecoveryGap))
        else Entries(StrictReturn(s, decoded, Some(k)))
    case NextPosition(tail) =>
      if s.poisoned then Position(Refused(Poisoned))
      else
        var (t, error) := EnsurePosition(c, s, tail);
        Position(if error.Some? then Refused(error.value) else Answer(t.next.value))
    case ReadEntry(position, tail) =>
      if position == 0 then Read(Refused(InvalidPosition))
      else if s.poisoned then Read(Refused(Poisoned))
      else if position in s.committed then Read(CachedEntry(c, position, s.committed[position]))
      else Read(ReadOf(StrictReturn(s, Decode(c, position - 1, tail, Some(c.writerEpoch)), None), position))
    case ReadForLance(position, tail) =>
      if position == 0 then Read(Refused(InvalidPosition))
      else
        (match Decode(c, position - 1, tail, None)
         case Refused(e) => Read(Refused(e))
         case Answer(entries) =>
           if s.poisoned then Read(Refused(Poisoned))
           else Read(ReadOf(OrError(ApplyForLance(c, s, entries).1, entries), position)))
    case NextForLance(after, tail) =>
      match Decode(c, after, tail, None)
      case Refused(e) => Position(Refused(e))
      case Answer(entries) =>
        if s.poisoned then Position(Refused(Poisoned))
        else if s.next.Some? then Position(Answer(s.next.value))
        else if entries == [] then Position(Answer(Max(SatAdd(after, 1), 1)))
        else
          var (t, error) := ApplyForLance(c, s, entries);
          Position(if error.Some? then Refused(error.value)
                   else Answer(if t.next.Some? then t.next.value else 1))
  }

  // ------------------------------------------------------------------ refusals

  /** A poisoned backend answers every call but a checkpoint with an error and changes nothing. */
  lemma PoisonedRefuses(c: Config, s: State, op: Op)
    requires s.poisoned && !op.Checkpointed?
    ensures IsError(Returns(c, s, op)) && Step(c, s, op) == s
  {
    hide Decode, ApplyRecovery, ApplyForLance, EnsurePosition, WriteError;
  }

  /** A call that poisons the backend returns an error. */
  lemma PoisoningFails(c: Config, s: State, op: Op)
    requires !s.poisoned && Step(c, s, op).poisoned
    ensures IsError(Returns(c, s, op))
  {
    hide Decode, WriteError, ApplyEntries, ApplyEntriesForLance, AdvanceNext, RecoverFence, Receive, Send;
    match op
    case AppendPayload(payload, fence, tail, reply) =>
      EnsureSpares(c, s, tail);
      var t := EnsurePosition(c, s, tail).0;
      if !WriteError(c, payload, fence, c.writerEpoch).Some? && EnsurePosition(c, s, tail).1.None? {
        LockedPoisonFails(c, t, Write(c.writerEpoch, t.next.value, payload), fence, reply, None);
      }
    case AppendAt(shard, w, fence, tail, reply, slot) =>
      EnsureSpares(c, s, tail);
      if !WriteError(c, w.payload, fence, w.writerEpoch).Some? && EnsurePosition(c, s, tail).1.None? {
        LockedPoisonFails(c, EnsurePosition(c, s, tail).0, w, fence, reply, Some(slot));
      }
    case NextPosition(tail) => EnsureSpares(c, s, tail);
    case Recover(after, tail) => StrictSpares(c, s, after, tail, None);
    case RecoverWithWatermark(after, k, tail) => StrictSpares(c, s, after, tail, Some(k));
    case ReadEntry(position, tail) => if position > 0 { StrictSpares(c, s, position - 1, tail, None); }
    case ReadForLance(position, tail) => if position > 0 { LanceSpares(c, s, position - 1, tail); }
    case NextForLance(after, tail) => LanceSpares(c, s, after, tail);
    case Checkpointed(_, _) =>
  }

  lemma StrictSpares(c: Config, s: State, after: u64, tail: Reply<seq<Record>>, persisted: Option<Knowledge>)
    requires !s.poisoned
    ensures match Decode(c, after, tail, Some(c.writerEpoch))
            case Refused(_) => true
            case Answer(entries) => !ApplyRecovery(s, entries, persisted).0.poisoned
  {
    hide Decode, ApplyEntries, AdvanceNext;
    if Decode(c, after, tail, Some(c.writerEpoch)).Answer? {
      Decoded(c, after, tail, Some(c.writerEpoch));
      var entries := Decode(c, after, tail, Some(c.writerEpoch)).value;
      var known := if persisted.Some? then persisted.value else s.knowledge;
      AppliedEntries(s, entries, known);
      Advanced(ApplyEntries(s, entries, known).0, entries);
    }
  }

  lemma EnsureSpares(c: Config, s: State, tail: Reply<seq<Record>>)
    requires !s.poisoned
    ensures EnsurePosition(c, s, tail).1.None? ==> !EnsurePosition(c, s, tail).0.poisoned
  {
    hide Decode, ApplyRecovery;
    StrictSpares(c, s, 0, tail, None);
  }

  lemma LanceSpares(c: Config, s: State, after: u64, tail: Reply<seq<Record>>)
    requires !s.poisoned
    ensures match Decode(c, after, tail, None)
            case Refused(_) => true
            case Answer(entries) => !ApplyForLance(c, s, entries).0.poisoned
  {
    hide Decode, ApplyEntriesForLance, AdvanceNext;
    if Decode(c, after, tail, None).Answer? {
      Decoded(c, after, tail, None);
      var entries := Decode(c, after, tail, None).value;
      AppliedEntriesForLance(c, s, entries);
      Advanced(ApplyEntriesForLance(c, s, entries).0, entries);
    }
  }

  lemma LockedPoisonFails(c: Config, s: State, w: Write, fence: bool, reply: Reply<Knowledge>,
                          slot: Option<Reply<seq<Record>>>)
    requires !s.poisoned && Append(c, s, w, fence, reply, slot).poisoned
    ensures AppendReturn(c, s, w, fence, reply, slot).Failed?
  {
    hide Decode, ApplyForLance;
    if slot.Some? {
      LanceSpares(c, AppendLocked(c, s, w, fence, reply).0.(poisoned := false), SatSub(w.position, 1), slot.value);
    }
  }

  // ------------------------------------------------------------------- appends

  /** The write behind an append, once the cursor is placed. */
  ghost predicate Writes(c: Config, s: State, op: Op, w: Write) {
    match op
    case AppendPayload(payload, _, tail, _) =>
      EnsurePosition(c, s, tail).1.None? && w == Write(c.writerEpoch, EnsurePosition(c, s, tail).0.next.value, payload)
    case AppendAt(_, write, _, _, _, _) => w == write
    case _ => false
  }

  /** What a caller knows after an append: a success is for its own position, and its payload is
      cached there, behind the cursor. It was sent by this very call, unless it was cached already. An
      occupied slot is reported to a fence only, and the cursor is past it. */
  lemma AppendMeans(c: Config, s: State, op: Op)
    requires Returns(c, s, op).Appended?
    ensures var t := Step(c, s, op);
            match Returns(c, s, op).outcome
            case Committed(p) =>
              && p in t.committed && t.next.Some? && p < t.next.value
              && (exists w :: Writes(c, s, op, w) && p == w.position && t.committed[p] == w.payload
                              && (t.sent == s.sent || t.sent == s.sent + [Sent(w.writerEpoch, p, w.payload)]))
            case AlreadyExists =>
              op.AppendAt? && op.fence && t.pending.None? && t.next.Some? && op.write.position < t.next.value
            case Failed(_) => true
  {
    hide Decode, WriteError, EnsurePosition, AppendLocked, RecoverFence;
    match op
    case AppendPayload(payload, fence, tail, reply) =>
      if !WriteError(c, payload, fence, c.writerEpoch).Some? && !s.poisoned && EnsurePosition(c, s, tail).1.None? {
        EnsureSends(c, s, tail);
        var t := EnsurePosition(c, s, tail).0;
        var w := Write(c.writerEpoch, t.next.value, payload);
        LockedMeans(c, t, w, fence, reply);
        assert Writes(c, s, op, w);
      }
    case AppendAt(shard, w, fence, tail, reply, slot) =>
      if !WriteError(c, w.payload, fence, w.writerEpoch).Some? && !s.poisoned && EnsurePosition(c, s, tail).1.None? {
        EnsureSends(c, s, tail);
        var t := EnsurePosition(c, s, tail).0;
        LockedMeans(c, t, w, fence, reply);
        FenceMeans(c, AppendLocked(c, t, w, fence, reply).0, w, slot);
        assert Writes(c, s, op, w);
      }
  }

  lemma EnsureSends(c: Config, s: State, tail: Reply<seq<Record>>)
    ensures EnsurePosition(c, s, tail).0.sent == s.sent
  {
    hide Decode, ApplyEntries, AdvanceNext;
    if s.next.None? && Decode(c, 0, tail, Some(c.writerEpoch)).Answer? {
      Decoded(c, 0, tail, Some(c.writerEpoch));
      var entries := Decode(c, 0, tail, Some(c.writerEpoch)).value;
      AppliedEntries(s, entries, s.knowledge);
      Advanced(ApplyEntries(s, entries, s.knowledge).0, entries);
    }
  }

  lemma LockedMeans(c: Config, s: State, w: Write, fence: bool, reply: Reply<Knowledge>)
    ensures var (t, outcome) := AppendLocked(c, s, w, fence, reply);
            && !outcome.AlreadyExists?
            && (outcome.Committed? ==>
                  && outcome.position == w.position && w.position in t.committed && t.committed[w.position] == w.payload
                  && t.next.Some? && w.position < t.next.value
                  && (t.sent == s.sent || t.sent == s.sent + [Sent(w.writerEpoch, w.position, w.payload)]))
  {
  }

  lemma FenceMeans(c: Config, s: State, w: Write, slot: Reply<seq<Record>>)
    ensures var (t, outcome) := RecoverFence(c, s, w, slot);
            && !outcome.Committed?
            && (outcome.AlreadyExists? ==> t.pending.None? && t.next.Some? && w.position < t.next.value)
  {
    hide Decode, ApplyEntriesForLance, AdvanceNext;
    if Decode(c, SatSub(w.position, 1), slot, None).Answer? {
      Decoded(c, SatSub(w.position, 1), slot, None);
      var entries := Decode(c, SatSub(w.position, 1), slot, None).value;
      Advanced(ApplyEntriesForLance(c, s, entries).0, entries);
      if entries != [] && entries[0].position == w.position {
        assert InRange(entries, w.position);
      }
    }
  }

  // ------------------------------------------------------------ recovered entries

  /** Every entry above the checkpoint is cached with its payload, and the cursor is past them all. */
  ghost predicate Holds(t: State, entries: seq<Recovered>) {
    && t.next.Some?
    && (forall i :: 0 <= i < |entries| ==> entries[i].position < t.next.value)
    && (forall i :: 0 <= i < |entries| ==> Caches(t, entries[i]))
  }

  predicate Caches(t: State, e: Recovered) {
    e.position > t.checkpointed ==> e.position in t.committed && t.committed[e.position] == e.payload
  }

  lemma {:induction false} AppliedCaches(s: State, entries: seq<Recovered>, knowledge: Knowledge)
    requires Consecutive(entries)
    ensures var (t, go) := ApplyEntries(s, entries, knowledge);
            && t.checkpointed == s.checkpointed
            && (go ==> forall i :: 0 <= i < |entries| ==> Caches(t, entries[i]))
            && (forall k :: k in s.committed && !InRange(entries, k) ==> k in t.committed && t.committed[k] == s.committed[k])
    decreases |entries|
  {
    hide Consecutive, InRange;
    if entries != [] {
      TailConsecutive(entries);
      StartsRange(entries);
      var (t, go) := ApplyOne(s, entries[0], knowledge);
      if go {
        AppliedCaches(t, entries[1..], knowledge);
        assert forall i :: 1 <= i < |entries| ==> entries[i] == entries[1..][i - 1];
      }
    }
  }

  lemma StartsRange(entries: seq<Recovered>)
    requires entries != [] && Consecutive(entries)
    ensures InRange(entries, entries[0].position) && !InRange(entries[1..], entries[0].position)
  {
    TailConsecutive(entries);
  }

  lemma {:induction false} AppliedCachesForLance(c: Config, s: State, entries: seq<Recovered>)
    requires Consecutive(entries)
    ensures var (t, go) := ApplyEntriesForLance(c, s, entries);
            && t.checkpointed == s.checkpointed
            && (go ==> forall i :: 0 <= i < |entries| ==> Caches(t, entries[i]))
            && (forall k :: k in s.committed ==> k in t.committed && t.committed[k] == s.committed[k])
    decreases |entries|
  {
    hide Consecutive, InRange;
    if entries != [] {
      TailConsecutive(entries);
      var (t, go) := ApplyOneForLance(c, s, entries[0]);
      if go {
        AppliedCachesForLance(c, t, entries[1..]);
        assert forall i :: 1 <= i < |entries| ==> entries[i] == entries[1..][i - 1];
      }
    }
  }

  lemma StrictHolds(c: Config, s: State, after: u64, tail: Reply<seq<Record>>, persisted: Option<Knowledge>)
    ensures var decoded := Decode(c, after, tail, Some(c.writerEpoch));
            var reply := StrictReturn(s, decoded, persisted);
            reply.Answer? ==>
              && decoded.Answer? && decoded.value == reply.value
              && Consecutive(reply.value) && (reply.value != [] ==> reply.value[0].position == after + 1)
              && Holds(Strict(c, s, decoded, persisted), reply.value)
              && Strict(c, s, decoded, persisted).checkpointed == s.checkpointed
  {
    hide Decode, ApplyEntries, AdvanceNext;
    if Decode(c, after, tail, Some(c.writerEpoch)).Answer? {
      Decoded(c, after, tail, Some(c.writerEpoch));
      var entries := Decode(c, after, tail, Some(c.writerEpoch)).value;
      var known := if persisted.Some? then persisted.value else s.knowledge;
      AppliedCaches(s, entries, known);
      var t := ApplyEntries(s, entries, known).0;
      Advanced(t, entries);
      forall i | 0 <= i < |entries| ensures InRange(entries, entries[i].position) { InsideRange(entries, i); }
      assert forall i :: 0 <= i < |entries| ==> Caches(t, entries[i]) ==> Caches(AdvanceNext(t, entries), entries[i]);
    }
  }

  lemma InsideRange(entries: seq<Recovered>, i: nat)
    requires Consecutive(entries) && i < |entries|
    ensures InRange(entries, entries[i].position)
  {
  }

  lemma LanceHolds(c: Config, s: State, after: u64, tail: Reply<seq<Record>>)
    requires Decode(c, after, tail, None).Answer?
    ensures var entries := Decode(c, after, tail, None).value;
            && Consecutive(entries) && (entries != [] ==> entries[0].position == after + 1)
            && (ApplyForLance(c, s, entries).1.None? ==>
                  && Holds(ApplyForLance(c, s, entries).0, entries)
                  && ApplyForLance(c, s, entries).0.checkpointed == s.checkpointed)
  {
    hide Decode, ApplyEntriesForLance, AdvanceNext;
    Decoded(c, after, tail, None);
    var entries := Decode(c, after, tail, None).value;
    AppliedCachesForLance(c, s, entries);
    var t := ApplyEntriesForLance(c, s, entries).0;
    Advanced(t, entries);
    forall i | 0 <= i < |entries| ensures InRange(entries, entries[i].position) { InsideRange(entries, i); }
    assert forall i :: 0 <= i < |entries| ==> Caches(t, entries[i]) ==> Caches(AdvanceNext(t, entries), entries[i]);
  }

  /** What a caller knows after a recovery: the entries run on from its watermark without a gap, each a
      fence or its own and none by a newer writer, and the backend holds them, its cursor past the
      last. With a persisted watermark they reach it. */
  lemma RecoverMeans(c: Config, s: State, op: Op)
    requires Returns(c, s, op).Entries? && Returns(c, s, op).entries.Answer?
    ensures var entries := Returns(c, s, op).entries.value;
            && Consecutive(entries) && (entries != [] ==> entries[0].position == op.after + 1)
            && Holds(Step(c, s, op), entries)
            && (forall i :: 0 <= i < |entries| ==>
                  entries[i].writerEpoch <= c.writerEpoch && Legible(c, entries[i].payload, entries[i].writerEpoch))
            && (op.RecoverWithWatermark? && op.persisted.committedLsn > op.after ==>
                  LastPosition(entries) == Some(op.persisted.committedLsn))
  {
    hide Decode, ApplyRecovery, Consecutive, Holds, Legible;
    StrictHolds(c, s, op.after, op.tail, if op.RecoverWithWatermark? then Some(op.persisted) else None);
    DecodedFit(c, op.after, op.tail, Some(c.writerEpoch));
  }

  lemma DecodedFit(c: Config, after: u64, tail: Reply<seq<Record>>, bound: Option<u64>)
    ensures var decoded := Decode(c, after, tail, bound);
            decoded.Answer? ==> forall i :: 0 <= i < |decoded.value| ==>
              && (bound.Some? ==> decoded.value[i].writerEpoch <= bound.value)
              && Legible(c, decoded.value[i].payload, decoded.value[i].writerEpoch)
  {
    hide Legible;
    if tail.Answer? {
      DecodeIff(c, after, tail.value, bound);
      var decoded := Decode(c, after, tail, bound);
      if decoded.Answer? {
        forall i | 0 <= i < |decoded.value|
          ensures (bound.Some? ==> decoded.value[i].writerEpoch <= bound.value)
                  && Legible(c, decoded.value[i].payload, decoded.value[i].writerEpoch)
        {
          assert Fits(c, tail.value[i], after + 1 + i, bound);
        }
      }
    }
  }

  /** The watermark from which a call recovers strictly, when it does. */
  function StrictAfter(c: Config, s: State, op: Op): Option<u64> {
    if s.poisoned then None
    else
      match op
      case Recover(after, _) => Some(after)
      case RecoverWithWatermark(after, k, _) =>
        if k.stream == c.stream && k.writerEpoch <= c.writerEpoch && k.certificate.Some? && k.certificate.value != ""
        then Some(after) else None
      case ReadEntry(position, _) => if position == 0 || position in s.committed then None else Some(position - 1)
      case NextPosition(_) => if s.next.Some? then None else Some(0)
      case AppendPayload(payload, fence, _, _) =>
        if s.next.Some? || WriteError(c, payload, fence, c.writerEpoch).Some? then None else Some(0)
      case AppendAt(shard, w, fence, _, _, _) =>
        if s.next.Some? || shard != c.shard || WriteError(c, w.payload, fence, w.writerEpoch).Some? then None else Some(0)
      case _ => None
  }

  function ErrorOf(r: Returned): Option<WalError> {
    match r
    case Appended(Failed(e)) => Some(e)
    case Entries(Refused(e)) => Some(e)
    case Position(Refused(e)) => Some(e)
    case Read(Refused(e)) => Some(e)
    case _ => None
  }

  /** A strict recovery is refused for the first record that does not fit, and nothing changes but
      that a structural fault poisons the backend. */
  lemma StrictFault(c: Config, s: State, op: Op, records: seq<Record>, k: nat)
    requires StrictAfter(c, s, op).Some? && op.tail == Answer(records)
    requires var after := StrictAfter(c, s, op).value;
             && after < U64_MAX && k < |records| && AllFit(c, records[..k], after + 1, Some(c.writerEpoch))
             && !Fits(c, records[k], after + 1 + k, Some(c.writerEpoch))
    ensures var fault := Fault(c, records[k], StrictAfter(c, s, op).value + 1 + k, Some(c.writerEpoch));
            && ErrorOf(Returns(c, s, op)) == Some(fault)
            && Step(c, s, op) == if Structural(fault) then s.(poisoned := true) else s
  {
    hide Decode, AllFit, Fits, Fault, ApplyRecovery, WriteError;
    FirstFault(c, StrictAfter(c, s, op).value, records, Some(c.writerEpoch), k);
  }

  /** So a deposed writer learns it: where that record is by a newer writer, the call is refused as
      fenced and the backend is poisoned. */
  lemma NewerWriterFences(c: Config, s: State, op: Op, records: seq<Record>, k: nat)
    requires StrictAfter(c, s, op).Some? && op.tail == Answer(records)
    requires var after := StrictAfter(c, s, op).value;
             && after < U64_MAX && k < |records| && AllFit(c, records[..k], after + 1, Some(c.writerEpoch))
             && records[k].stream == c.stream && records[k].lsn == after + 1 + k && records[k].committedLsn == after + k
             && c.writerEpoch < records[k].writerEpoch
    ensures ErrorOf(Returns(c, s, op)) == Some(Fenced) && Step(c, s, op) == s.(poisoned := true)
  {
    hide AllFit, Returns, Step, WriteError, Legible;
    StrictFault(c, s, op, records, k);
  }

  /** What a caller knows after asking for the next position: it is where the cursor stands. */
  lemma PositionMeans(c: Config, s: State, op: Op)
    requires Returns(c, s, op).Position? && Returns(c, s, op).position.Answer?
    ensures Step(c, s, op).next == Some(Returns(c, s, op).position.value)
  {
    hide Decode, EnsurePosition, ApplyEntriesForLance, AdvanceNext;
    if op.NextForLance? && Decode(c, op.after, op.tail, None).Answer? {
      var entries := Decode(c, op.after, op.tail, None).value;
      Decoded(c, op.after, op.tail, None);
      Advanced(ApplyEntriesForLance(c, s, entries).0, entries);
    }
  }

  lemma FoundFirst(entries: seq<Recovered>, position: u64)
    requires entries != [] ==> entries[0].position == position
    ensures FindEntry(entries, position) == if entries == [] then None else Some(entries[0])
  {
  }

  /** What a caller knows after reading a position: an entry is the one at that position, and the
      backend holds its payload there if it lies above the checkpoint; none means the gateway
      returned no records from that position on. */
  lemma ReadMeans(c: Config, s: State, op: Op)
    requires Returns(c, s, op).Read? && Returns(c, s, op).entry.Answer?
    ensures match Returns(c, s, op).entry.value
            case Some(e) =>
              && e.position == op.position
              && (op.position > s.checkpointed || (op.ReadEntry? && op.position in s.committed) ==>
                    op.position in Step(c, s, op).committed && Step(c, s, op).committed[op.position] == e.payload)
            case None => op.tail == Answer([])
  {
    hide Decode, ApplyRecovery, ApplyForLance, Consecutive;
    if op.ReadEntry? {
      if op.position !in s.committed {
        StrictHolds(c, s, op.position - 1, op.tail, None);
        var entries := StrictReturn(s, Decode(c, op.position - 1, op.tail, Some(c.writerEpoch)), None).value;
        FoundFirst(entries, op.position);
        assert entries != [] ==> Caches(Step(c, s, op), entries[0]);
        DecodedLength(c, op.position - 1, op.tail, Some(c.writerEpoch));
      }
    } else {
      LanceHolds(c, s, op.position - 1, op.tail);
      var entries := Decode(c, op.position - 1, op.tail, None).value;
      FoundFirst(entries, op.position);
      assert entries != [] ==> Caches(Step(c, s, op), entries[0]);
      DecodedLength(c, op.position - 1, op.tail, None);
    }
  }

  lemma DecodedLength(c: Config, after: u64, reply: Reply<seq<Record>>, bound: Option<u64>)
    requires Decode(c, after, reply, bound).Answer?
    ensures reply.Answer? && |Decode(c, after, reply, bound).value| == |reply.value|
  {
    DecodedFrom(c, reply.value, after + 1, bound);
  }

  // ------------------------------------------------------- calls that drop the lock

  /** Other calls, one after another. */
  ghost function ExecFrom(c: Config, s: State, ops: seq<Op>): State {
    if ops == [] then s else Step(c, ExecFrom(c, s, ops[..|ops| - 1]), ops[|ops| - 1])
  }

  /** The look `read_entry_for_lance` takes before it drops the lock to load: what it returns at once,
      if anything. */
  function LookForEntry(c: Config, s: State, position: u64): Option<Reply<Option<Recovered>>> {
    if position == 0 then Some(Refused(InvalidPosition))
    else if s.poisoned then Some(Refused(Poisoned))
    else if position in s.committed then Some(CachedEntry(c, position, s.committed[position]))
    else None
  }

  /** The look `next_position_for_lance` takes. */
  function LookForCursor(s: State): Option<Reply<u64>> {
    if s.poisoned then Some(Refused(Poisoned))
    else if s.next.Some? then Some(Answer(s.next.value))
    else None
  }

  /** `read_entry_for_lance`, with the calls that others complete while it loads. */
  ghost function ReadCall(c: Config, s: State, position: u64, others: seq<Op>, tail: Reply<seq<Record>>)
    : (State, Reply<Option<Recovered>>)
  {
    match LookForEntry(c, s, position)
    case Some(reply) => (s, reply)
    case None =>
      var t := ExecFrom(c, s, others);
      (Step(c, t, ReadForLance(position, tail)), Returns(c, t, ReadForLance(position, tail)).entry)
  }

  /** `next_position_for_lance`, likewise. */
  ghost function NextCall(c: Config, s: State, after: u64, others: seq<Op>, tail: Reply<seq<Record>>)
    : (State, Reply<u64>)
  {
    match LookForCursor(s)
    case Some(reply) => (s, reply)
    case None =>
      var t := ExecFrom(c, s, others);
      (Step(c, t, NextForLance(after, tail)), Returns(c, t, NextForLance(after, tail)).position)
  }

  lemma {:induction false} ExecFromKeeps(c: Config, s: State, ops: seq<Op>)
    requires Inv(c, s)
    ensures Inv(c, ExecFrom(c, s, ops)) && Onward(s, ExecFrom(c, s, ops))
  {
    hide Inv, Step;
    if ops != [] {
      var n := |ops| - 1;
      ExecFromKeeps(c, s, ops[..n]);
      StepKeeps(c, ExecFrom(c, s, ops[..n]), ops[n]);
    }
  }

  /** Whatever others do while it loads, a Lance read keeps what every call keeps; an entry it returns
      is the one at its position and, above the checkpoint, held when it returns; and none means the
      gateway returned no records from that position on. */
  lemma ReadCallMeans(c: Config, s: State, position: u64, others: seq<Op>, tail: Reply<seq<Record>>)
    ensures var (t, reply) := ReadCall(c, s, position, others, tail);
            && (Inv(c, s) ==> Inv(c, t) && Onward(s, t))
            && match reply
               case Answer(Some(e)) =>
                 && e.position == position
                 && (position > t.checkpointed ==> position in t.committed && t.committed[position] == e.payload)
               case Answer(None) => tail == Answer([])
               case Refused(_) => true
  {
    hide Inv, Step, Returns, Onward;
    if Inv(c, s) {
      ExecFromKeeps(c, s, others);
      OnwardSelf(s);
    }
    if LookForEntry(c, s, position).None? {
      var t, op := ExecFrom(c, s, others), ReadForLance(position, tail);
      if Inv(c, s) {
        StepKeeps(c, t, op);
        OnwardThen(s, t, Step(c, t, op));
      }
      ReturnsRead(c, t, position, tail);
      if Returns(c, t, op).entry.Answer? {
        ReadMeans(c, t, op);
        ReadKeepsCheckpoint(c, t, position, tail);
      }
    }
  }

  lemma ReturnsRead(c: Config, s: State, position: u64, tail: Reply<seq<Record>>)
    ensures Returns(c, s, ReadForLance(position, tail)).Read?
  {
    hide Decode, ApplyForLance;
  }

  lemma ReadKeepsCheckpoint(c: Config, s: State, position: u64, tail: Reply<seq<Record>>)
    ensures Step(c, s, ReadForLance(position, tail)).checkpointed == s.checkpointed
  {
    hide Decode, ApplyEntriesForLance, AdvanceNext;
    if position > 0 && Decode(c, position - 1, tail, None).Answer? {
      Decoded(c, position - 1, tail, None);
      var entries := Decode(c, position - 1, tail, None).value;
      AppliedCachesForLance(c, s, entries);
      Advanced(ApplyEntriesForLance(c, s, entries).0, entries);
    }
  }

  lemma OnwardSelf(s: State)
    ensures Onward(s, s)
  {
  }

  lemma OnwardThen(s: State, t: State, u: State)
    requires Onward(s, t) && Onward(t, u)
    ensures Onward(s, u)
  {
  }

  /** And a position probe keeps the same, and returns where the cursor stands when it returns. */
  lemma NextCallMeans(c: Config, s: State, after: u64, others: seq<Op>, tail: Reply<seq<Record>>)
    ensures var (t, reply) := NextCall(c, s, after, others, tail);
            && (Inv(c, s) ==> Inv(c, t) && Onward(s, t))
            && (reply.Answer? ==> t.next == Some(reply.value))
  {
    hide Inv, Step, Returns, Onward;
    if Inv(c, s) {
      ExecFromKeeps(c, s, others);
      OnwardSelf(s);
    }
    if LookForCursor(s).None? {
      var t, op := ExecFrom(c, s, others), NextForLance(after, tail);
      if Inv(c, s) {
        StepKeeps(c, t, op);
        OnwardThen(s, t, Step(c, t, op));
      }
      ReturnsPosition(c, t, after, tail);
      if Returns(c, t, op).position.Answer? {
        PositionMeans(c, t, op);
      }
    }
  }

  lemma ReturnsPosition(c: Config, s: State, after: u64, tail: Reply<seq<Record>>)
    ensures Returns(c, s, NextForLance(after, tail)).Position?
  {
    hide Decode, ApplyForLance;
  }
}
