/** The Bitr WAL backend as a state machine: what each call does to its cursors, and what it sends.

    Everything that comes from outside is a parameter of the call: the gateway's answer to an append,
    the records a recovery returned (which may lag, or be any records at all), and what a payload
    decodes to. */
module WalSpec {
  import opened Base

  type Bytes = seq<bv8>

  datatype WalError =
    | Fenced | Poisoned | LsnConflict | RecoveryGap | RecoveryStreamMismatch | CorruptIpc | OwnerMismatch
    | InvalidCommit | InvalidPosition | CommitCertificateMissing | Replica

  /** The errors that make the stream unsafe to advance. */
  predicate Structural(e: WalError) {
    e in {Fenced, Poisoned, LsnConflict, RecoveryGap, RecoveryStreamMismatch, CorruptIpc, OwnerMismatch, InvalidCommit}
  }

  /** What an IPC payload decodes to; `owned` is whether every batch carries this backend's owner. */
  datatype Ipc = Corrupt | Entry(writerEpoch: u64, fence: bool, owned: bool)

  datatype Record = Record(stream: string, writerEpoch: u64, lsn: u64, committedLsn: u64, payload: Bytes)

  datatype Recovered = Recovered(position: u64, writerEpoch: u64, payload: Bytes)

  datatype Knowledge = Knowledge(stream: string, writerEpoch: u64, committedLsn: u64, certificate: Option<string>)

  /** A result of the gateway: records of a recovery, or knowledge of a commit. */
  datatype Reply<+T> = Answer(value: T) | Refused(error: WalError)

  datatype Pending = Pending(position: u64, payload: Bytes)

  /** One append handed to the quorum writer. */
  datatype Sent = Sent(writerEpoch: u64, position: u64, payload: Bytes)

  datatype Config = Config(stream: string, shard: string, writerEpoch: u64, ipc: Bytes -> Ipc)

  datatype State = State(
    next: Option<u64>, pending: Option<Pending>, committed: map<u64, Bytes>, checkpointed: u64,
    knowledge: Knowledge, recoveredTail: u64, fencePosition: Option<u64>, poisoned: bool, sent: seq<Sent>)

  function Initial(c: Config): State {
    State(None, None, map[], 0, Knowledge(c.stream, c.writerEpoch, 0, None), 0, None, false, [])
  }

  function Poison(s: State, e: WalError): State {
    if Structural(e) then s.(poisoned := true) else s
  }

  // ------------------------------------------------------------ decoding

  /** Why a recovered record is not acceptable at LSN `expected`; `None` when it is. */
  function RecordError(c: Config, r: Record, expected: u64, bound: Option<u64>): Option<WalError> {
    if r.stream != c.stream then Some(RecoveryStreamMismatch)
    else if r.lsn != expected then Some(RecoveryGap)
    else if r.committedLsn != SatSub(expected, 1) then Some(RecoveryGap)
    else if bound.Some? && r.writerEpoch > bound.value then Some(Fenced)
    else
      match c.ipc(r.payload)
      case Corrupt => Some(CorruptIpc)
      case Entry(epoch, fence, owned) =>
        if epoch != r.writerEpoch then Some(CorruptIpc)
        else if !fence && !owned then Some(OwnerMismatch)
        else if expected == U64_MAX then Some(InvalidPosition)
        else None
  }

  /** `decode_recovery_records_with_epoch_bound` from LSN `expected` on. */
  function DecodeFrom(c: Config, records: seq<Record>, expected: u64, bound: Option<u64>): Reply<seq<Recovered>> {
    if records == [] then Answer([])
    else
      match RecordError(c, records[0], expected, bound)
      case Some(e) => Refused(e)
      case None =>
        match DecodeFrom(c, records[1..], expected + 1, bound)
        case Refused(e) => Refused(e)
        case Answer(rest) => Answer([Recovered(records[0].lsn, records[0].writerEpoch, records[0].payload)] + rest)
  }

  function Decode(c: Config, after: u64, reply: Reply<seq<Record>>, bound: Option<u64>): Reply<seq<Recovered>> {
    match reply
    case Refused(e) => Refused(e)
    case Answer(records) =>
      if after == U64_MAX then Refused(InvalidPosition) else DecodeFrom(c, records, after + 1, bound)
  }

  // ------------------------------------------------------- applying recoveries

  /** The largest cached position, if any. */
  ghost function Highest(committed: map<u64, Bytes>): (top: Option<u64>)
    ensures top.None? <==> committed == map[]
    ensures top.Some? ==> top.value in committed && forall k :: k in committed ==> k <= top.value
    decreases |committed|
  {
    if committed == map[] then None
    else
      var k :| k in committed;
      var rest := committed - {k};
      assert rest.Keys == committed.Keys - {k};
      assert |rest| == |rest.Keys| && |committed| == |committed.Keys|;
      assert forall j :: j in committed ==> j == k || j in rest;
      match Highest(rest)
      case None => Some(k)
      case Some(top) => if top < k then Some(k) else Some(top)
  }

  function Later(a: Option<u64>, b: Option<u64>): Option<u64> {
    if a.None? then b else if b.None? then a else if a.value < b.value then b else a
  }

  function Past(a: Option<u64>): Option<u64> {
    if a.None? then None else Some(SatAdd(a.value, 1))
  }

  function LastPosition(entries: seq<Recovered>): Option<u64> {
    if entries == [] then None else Some(entries[|entries| - 1].position)
  }

  /** `advance_next_position`: past the recovered tail and past the cache, never backwards. */
  ghost function AdvanceNext(s: State, entries: seq<Recovered>): State {
    var next := Later(s.next, Later(Past(LastPosition(entries)), Past(Highest(s.committed))));
    s.(next := if next.None? then Some(1) else next)
  }

  function Cache(s: State, e: Recovered): State {
    if e.position > s.checkpointed then s.(committed := s.committed[e.position := e.payload]) else s
  }

  /** One turn of the loop in `apply_recovery`, and whether it goes on. */
  function ApplyOne(s: State, e: Recovered, knowledge: Knowledge): (State, bool) {
    var cached := Cache(s, e).(knowledge := knowledge, recoveredTail := Max(s.recoveredTail, e.position));
    if s.pending.Some? && s.pending.value.position == e.position then
      if s.pending.value.payload == e.payload then (cached.(pending := None), true) else (cached, false)
    else (cached, true)
  }

  function ApplyEntries(s: State, entries: seq<Recovered>, knowledge: Knowledge): (State, bool)
    decreases |entries|
  {
    if entries == [] then (s, true)
    else
      var (t, go) := ApplyOne(s, entries[0], knowledge);
      if go then ApplyEntries(t, entries[1..], knowledge) else (t, false)
  }

  /** `apply_recovery`: strict, so it needs knowledge that covers the tail. */
  ghost function ApplyRecovery(s: State, entries: seq<Recovered>, persisted: Option<Knowledge>)
    : (State, Option<WalError>)
  {
    if persisted.None? && entries != [] && s.knowledge.committedLsn < LastPosition(entries).value then
      (s, Some(CommitCertificateMissing))
    else
      var knowledge := if persisted.Some? then persisted.value else s.knowledge;
      var (t, done) := ApplyEntries(s, entries, knowledge);
      if done then (AdvanceNext(t, entries), None) else (t, Some(LsnConflict))
  }

  /** One turn of the loop in `apply_recovery_for_lance`, and whether it goes on. */
  function ApplyOneForLance(c: Config, s: State, e: Recovered): (State, bool) {
    if e.position in s.committed && s.committed[e.position] != e.payload then (s, false)
    else
      var knowledge := if s.knowledge.committedLsn >= e.position then s.knowledge
                       else Knowledge(c.stream, e.writerEpoch, e.position, None);
      (Cache(s, e).(knowledge := knowledge, recoveredTail := Max(s.recoveredTail, e.position)), true)
  }

  function ApplyEntriesForLance(c: Config, s: State, entries: seq<Recovered>): (State, bool)
    decreases |entries|
  {
    if entries == [] then (s, true)
    else
      var (t, go) := ApplyOneForLance(c, s, entries[0]);
      if go then ApplyEntriesForLance(c, t, entries[1..]) else (t, false)
  }

  ghost function ApplyForLance(c: Config, s: State, entries: seq<Recovered>): (State, Option<WalError>) {
    var (t, done) := ApplyEntriesForLance(c, s, entries);
    if done then (AdvanceNext(t, entries), None) else (t, Some(LsnConflict))
  }

  // ------------------------------------------------------------------- appends

  datatype Write = Write(writerEpoch: u64, position: u64, payload: Bytes)

  datatype Outcome = Committed(position: u64) | AlreadyExists | Failed(error: WalError)

  /** The write is noted as pending and handed to the quorum writer. */
  function Send(s: State, w: Write): State {
    s.(pending := Some(Pending(w.position, w.payload)),
       sent := s.sent + [Sent(w.writerEpoch, w.position, w.payload)])
  }

  /** The acknowledgement is for exactly this stream, epoch and LSN. */
  predicate Acks(c: Config, w: Write, reply: Reply<Knowledge>) {
    reply.Answer? && reply.value.stream == c.stream && reply.value.writerEpoch == w.writerEpoch
    && reply.value.committedLsn == w.position
  }

  /** What the quorum writer's answer does to a write that was sent. */
  function Receive(c: Config, s: State, w: Write, fence: bool, reply: Reply<Knowledge>): (State, Outcome) {
    match reply
    case Refused(e) => (if e == Fenced then Poison(s, e) else s, Failed(e))
    case Answer(k) =>
      if !Acks(c, w, reply) then (Poison(s, InvalidCommit), Failed(InvalidCommit))
      else
        var t := s.(committed := s.committed[w.position := w.payload]);
        if w.position == U64_MAX then (t, Failed(InvalidPosition))
        else
          (t.(next := Some(w.position + 1), pending := None, knowledge := k,
              fencePosition := if fence then Some(w.position) else t.fencePosition),
           Committed(w.position))
  }

  /** Whether the write may be sent: it is at the cursor and no other write is pending. */
  predicate Sendable(s: State, w: Write) {
    && w.position == (if s.next.Some? then s.next.value else 1)
    && (s.pending.Some? ==> s.pending.value == Pending(w.position, w.payload))
  }

  /** `append_locked`: idempotency checks, then at most one append at the exact LSN. */
  function AppendLocked(c: Config, s: State, w: Write, fence: bool, reply: Reply<Knowledge>): (State, Outcome) {
    if Sendable(s, w) then Receive(c, Send(s, w), w, fence, reply)
    else if s.next.Some? && w.position < s.next.value
            && w.position in s.committed && s.committed[w.position] == w.payload then
      (s, Committed(w.position))
    else (Poison(s, LsnConflict), Failed(LsnConflict))
  }

  /** `ensure_position`. */
  ghost function EnsurePosition(c: Config, s: State, reply: Reply<seq<Record>>): (r: (State, Option<WalError>))
    ensures r.1.None? ==> r.0.next.Some?
  {
    if s.next.Some? then (s, None)
    else
      match Decode(c, 0, reply, Some(c.writerEpoch))
      case Refused(e) => (Poison(s, e), Some(e))
      case Answer(entries) =>
        var (t, error) := ApplyRecovery(s, entries, None);
        if error.Some? then (t, error)
        else (t.(next := Some(if entries == [] then 1 else SatAdd(LastPosition(entries).value, 1))), None)
  }

  /** `recover_fence_position`: an occupied slot counts only when an older writer provably owns it. */
  ghost function RecoverFence(c: Config, s: State, w: Write, reply: Reply<seq<Record>>): (State, Outcome) {
    match Decode(c, SatSub(w.position, 1), reply, None)
    case Refused(e) => (Poison(s, e), Failed(e))
    case Answer(entries) =>
      if exists i :: 0 <= i < |entries| && entries[i].writerEpoch > w.writerEpoch then
        (Poison(s, Fenced), Failed(Fenced))
      else if || entries == [] || entries[0].position != w.position
              || exists i :: 0 <= i < |entries| && entries[i].writerEpoch == w.writerEpoch then
        (s, Failed(LsnConflict))
      else
        var (t, error) := ApplyForLance(c, s, entries);
        if error.Some? then (Poison(t, error.value), Failed(error.value))
        else (t.(pending := None), AlreadyExists)
  }

  /** `decode_for_write`; `None` is acceptance. */
  function WriteError(c: Config, payload: Bytes, fence: bool, writerEpoch: u64): Option<WalError> {
    match c.ipc(payload)
    case Corrupt => Some(CorruptIpc)
    case Entry(epoch, sentinel, owned) =>
      if writerEpoch == 0 || epoch != writerEpoch then Some(Fenced)
      else if sentinel != fence then Some(CorruptIpc)
      else if !sentinel && !owned then Some(OwnerMismatch)
      else None
  }

  // ---------------------------------------------------------------- operations

  /** One call, or one critical section of a call that drops the lock while it loads. */
  datatype Op =
    | AppendPayload(payload: Bytes, fence: bool, tail: Reply<seq<Record>>, reply: Reply<Knowledge>)
    | AppendAt(shard: string, write: Write, fence: bool, tail: Reply<seq<Record>>, reply: Reply<Knowledge>,
               slot: Reply<seq<Record>>)
    | Recover(after: u64, tail: Reply<seq<Record>>)
    | RecoverWithWatermark(after: u64, persisted: Knowledge, tail: Reply<seq<Record>>)
    | NextPosition(tail: Reply<seq<Record>>)
    | ReadEntry(position: u64, tail: Reply<seq<Record>>)
    | ReadForLance(position: u64, tail: Reply<seq<Record>>)
    | NextForLance(after: u64, tail: Reply<seq<Record>>)
    | Checkpointed(shard: string, position: u64)

  /** A strict recovery applied to the state: its own errors poison, conflicts found while applying
      it do not. */
  ghost function Strict(c: Config, s: State, decoded: Reply<seq<Recovered>>, persisted: Option<Knowledge>): State {
    match decoded
    case Refused(e) => Poison(s, e)
    case Answer(entries) => ApplyRecovery(s, entries, persisted).0
  }

  ghost function Append(c: Config, s: State, w: Write, fence: bool, reply: Reply<Knowledge>,
                        slot: Option<Reply<seq<Record>>>): State
  {
    var (t, outcome) := AppendLocked(c, s, w, fence, reply);
    if slot.Some? && outcome == Failed(LsnConflict) && fence && !t.poisoned then
      RecoverFence(c, t, w, slot.value).0
    else t
  }

  ghost function Step(c: Config, s: State, op: Op): State {
    match op
    case Checkpointed(shard, position) =>
      if shard != c.shard then s
      else
        var covered := Max(s.checkpointed, position);
        s.(checkpointed := covered, committed := map k | k in s.committed && k > covered :: s.committed[k])
    case AppendPayload(payload, fence, tail, reply) =>
      if WriteError(c, payload, fence, c.writerEpoch).Some? || s.poisoned then s
      else
        var (t, error) := EnsurePosition(c, s, tail);
        if error.Some? then t
        else Append(c, t, Write(c.writerEpoch, t.next.value, payload), fence, reply, None)
    case AppendAt(shard, w, fence, tail, reply, slot) =>
      if shard != c.shard || WriteError(c, w.payload, fence, w.writerEpoch).Some? || s.poisoned then s
      else
        var (t, error) := EnsurePosition(c, s, tail);
        if error.Some? then t else Append(c, t, w, fence, reply, Some(slot))
    case Recover(after, tail) =>
      if s.poisoned then s else Strict(c, s, Decode(c, after, tail, Some(c.writerEpoch)), None)
    case RecoverWithWatermark(after, k, tail) =>
      if s.poisoned || k.stream != c.stream || k.writerEpoch > c.writerEpoch
         || k.certificate.None? || k.certificate.value == "" then s
      else
        var decoded := Decode(c, after, tail, Some(c.writerEpoch));
        if decoded.Answer? && k.committedLsn > after && LastPosition(decoded.value) != Some(k.committedLsn) then
          Poison(s, RecoveryGap)
        else Strict(c, s, decoded, Some(k))
    case NextPosition(tail) => if s.poisoned then s else EnsurePosition(c, s, tail).0
    case ReadEntry(position, tail) =>
      if position == 0 || s.poisoned || position in s.committed then s
      else Strict(c, s, Decode(c, position - 1, tail, Some(c.writerEpoch)), None)
    case ReadForLance(position, tail) =>
      if position == 0 || s.poisoned then s
      else
        (match Decode(c, position - 1, tail, None)
         case Refused(_) => s
         case Answer(entries) => ApplyForLance(c, s, entries).0)
    case NextForLance(after, tail) =>
      if s.poisoned || s.next.Some? then s
      else
        match Decode(c, after, tail, None)
        case Refused(_) => s
        case Answer(entries) =>
          if entries == [] then
            var next := Max(SatAdd(after, 1), 1);
            s.(recoveredTail := Max(s.recoveredTail, next - 1), next := Some(next))
          else ApplyForLance(c, s, entries).0
  }

  /** The state of one backend after any sequence of calls and answers. */
  ghost function Exec(c: Config, ops: seq<Op>): State {
    if ops == [] then Initial(c) else Step(c, Exec(c, ops[..|ops| - 1]), ops[|ops| - 1])
  }
}
