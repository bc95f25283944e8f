/** Coordinators racing on the one control head.

    The object is an atomic cell.  `history` lists every head that was ever written to it; the cell
    holds the last one, and its ETag is that head's index.  A coordinator is a small program that
    loads the cell, decides, and at most once per attempt issues a conditional put.  Its steps
    interleave with everyone else's at each load and each put, it can lose any response, and it can
    stop for ever between any two steps. */
module ControlProtocol {
  import opened Base
  import opened ControlTypes
  import opened ControlHead

  type Head = ControlTypes.ControlHead

  datatype Snapshot = Snapshot(head: Head, version: nat)

  /** Which store method wrote a head, and for which stream. */
  datatype Kind =
    | Created
    | Updated
    | Claimed(stream: string)
    | Advanced(stream: string)
    | Published(stream: string)
    | Completed(stream: string)

  datatype Written = Written(head: Head, kind: Kind)

  /** What `advance_pending_handoff` does when its own put loses: try once more on the new head. */
  datatype OnConflict =
    | Report
    | RebaseTo(descriptor: Descriptor, operation: string, observed: Descriptor)

  datatype Result = Ok(snapshot: Snapshot) | Err(error: Error)

  /** Where one coordinator's call stands: each state up to `Done` is about to load or to put. */
  datatype Local =
    | CallCreate(head: Head)
    | ReloadCreate(head: Head)
    | CallClaim(expected: Snapshot, descriptor: Descriptor)
    | CallAdvance(expected: Snapshot, descriptor: Descriptor)
    | CallPublish(expected: Snapshot, metadata: ControlMetadata, descriptor: Descriptor)
    | CallComplete(expected: Snapshot, stream: string, operationId: string)
    | UpdateInner(expected: Snapshot, next: Head, preserve: bool, kind: Kind, onConflict: OnConflict)
    | Put(next: Head, version: nat, kind: Kind, onConflict: OnConflict)
    | Reconcile(next: Head, onConflict: OnConflict)
    | RebaseLoad(descriptor: Descriptor, operation: string, observed: Descriptor)
    | Done(result: Result)

  datatype System = System(history: seq<Written>, procs: map<nat, Local>)

  // -------------------------------------------------------------- the programs

  function Cell(history: seq<Written>): Option<Snapshot> {
    if history == [] then None else Some(Snapshot(history[|history| - 1].head, |history| - 1))
  }

  /** An error leaves the call, except that a lost advance goes on to its one rebase. */
  function Leave(error: Error, onConflict: OnConflict): Local {
    if error == Precondition && onConflict.RebaseTo? then
      RebaseLoad(onConflict.descriptor, onConflict.operation, onConflict.observed)
    else Done(Err(error))
  }

  function Fail(error: Error): Local { Done(Err(error)) }

  /** A candidate built by `head_with_metadata` enters `update_exact`. */
  function Submit(env: Env, base: Snapshot, metadata: ControlMetadata, operation: string, kind: Kind,
                  onConflict: OnConflict): Local
  {
    match HeadWithMetadata(env, base.head, metadata, operation)
    case None => Fail(Invalid)
    case Some(next) => UpdateInner(base, next, false, kind, onConflict)
  }

  function WithClaim(m: ControlMetadata, d: Descriptor): ControlMetadata {
    m.(pending := m.pending[d.stream := d])
  }

  function StagePhaseId(env: Env, d: Descriptor): string {
    PhaseId(env, d.operationId, d.stream, d.stage.Suffix())
  }

  function AfterUpdateLoad(env: Env, l: Local, current: Snapshot): Local
    requires l.UpdateInner?
  {
    if l.preserve && !Agree(l.next.metadata.pending, current.head.metadata.pending) then
      Leave(PendingHandoffConflict, l.onConflict)
    else
      var next := if l.preserve then Preserve(env, l.next, current.head) else l.next;
      if next.operationId in current.head.completed then
        if ReceiptMatches(current.head.completed[next.operationId], next) then Done(Ok(current))
        else Leave(OperationConflict, l.onConflict)
      else
        match ExpectedError(l.expected.head, current.head)
        case Some(error) => Leave(error, l.onConflict)
        case None =>
          match TransitionError(current.head, next)
          case Some(error) => Leave(error, l.onConflict)
          case None =>
            match MergeReceipts(next, current.head)
            case None => Leave(OperationConflict, l.onConflict)
            case Some(merged) =>
              if Storable(env, merged) then Put(merged, l.expected.version, l.kind, l.onConflict)
              else Leave(Invalid, l.onConflict)
  }

  function AfterClaimLoad(env: Env, l: Local, current: Snapshot): Local
    requires l.CallClaim?
  {
    var d := l.descriptor;
    var m := current.head.metadata;
    var operation := PhaseId(env, d.operationId, d.stream, "claim");
    if !ValidDescriptor(d, d.stream) || d.stage != Prepared then Fail(Invalid)
    else if d.stream in m.pending then
      if ImmutableEq(m.pending[d.stream], d) then Done(Ok(current)) else Fail(PendingHandoffConflict)
    else if operation in current.head.completed then Fail(OperationConflict)
    else
      match ExpectedError(l.expected.head, current.head)
      case Some(error) => Fail(error)
      case None =>
        match HandoffError(env, m, d, false)
        case Some(error) => Fail(error)
        case None => Submit(env, current, WithClaim(m, d), operation, Claimed(d.stream), Report)
  }

  /** The answers of `advance_pending_handoff` to a stage the claim has already reached. */
  function AdvanceReplay(env: Env, d: Descriptor, existing: Descriptor, current: Snapshot): Local {
    var exact :=
      && d.archivedLsn == existing.archivedLsn
      && d.successor == existing.successor
      && (d.successorPlacement.None? || d.successorPlacement == existing.successorPlacement);
    var receipt := StagePhaseId(env, d) in current.head.completed;
    if d.stage.Rank() < existing.stage.Rank() && exact then
      if receipt then Done(Ok(current)) else Fail(Precondition)
    else if d.stage == existing.stage then
      if exact && receipt then Done(Ok(current)) else Fail(OperationConflict)
    else Fail(Precondition)
  }

  function AfterAdvanceLoad(env: Env, l: Local, current: Snapshot): Local
    requires l.CallAdvance?
  {
    var d := l.descriptor;
    var m := current.head.metadata;
    var operation := StagePhaseId(env, d);
    if !ValidDescriptor(d, d.stream) || d.stage == Prepared then Fail(Invalid)
    else if d.stream !in m.pending then
      if operation in current.head.completed then Done(Ok(current)) else Fail(Precondition)
    else
      var existing := m.pending[d.stream];
      if existing.operationId != d.operationId then Fail(PendingHandoffConflict)
      else if !ImmutableEq(existing, d) then Fail(OperationConflict)
      else if d.stage.Rank() <= existing.stage.Rank() then AdvanceReplay(env, d, existing, current)
      else
        match ExpectedError(l.expected.head, current.head)
        case Some(error) => Leave(error, RebaseTo(d, operation, existing))
        case None =>
          match HandoffError(env, m, d, true)
          case Some(error) => Fail(error)
          case None =>
            Submit(env, current, WithClaim(m, d), operation, Advanced(d.stream),
                   RebaseTo(d, operation, existing))
  }

  function AfterRebaseLoad(env: Env, l: Local, latest: Snapshot): Local
    requires l.RebaseLoad?
  {
    var d := l.descriptor;
    var m := latest.head.metadata;
    if d.stream !in m.pending then Fail(Precondition)
    else
      var claim := m.pending[d.stream];
      if claim.operationId != d.operationId then Fail(PendingHandoffConflict)
      else if claim == d && l.operation in latest.head.completed then Done(Ok(latest))
      else if claim != l.observed then
        if claim.stage.Rank() >= d.stage.Rank() then Fail(Precondition) else Fail(OperationConflict)
      else
        match HandoffError(env, m, d, true)
        case Some(error) => Fail(error)
        case None => Submit(env, latest, WithClaim(m, d), l.operation, Advanced(d.stream), Report)
  }

  function AfterPublishLoad(env: Env, l: Local, current: Snapshot): Local
    requires l.CallPublish?
  {
    var d := l.descriptor;
    var m := current.head.metadata;
    var operation := StagePhaseId(env, d);
    if !ValidDescriptor(d, d.stream) || d.stage != RoutePublished then Fail(Invalid)
    else if d.stream !in l.metadata.pending || l.metadata.pending[d.stream] != d then Fail(Precondition)
    else if d.stream !in m.pending then Fail(Precondition)
    else
      var existing := m.pending[d.stream];
      if existing.operationId != d.operationId then Fail(PendingHandoffConflict)
      else if existing == d && operation in current.head.completed then Done(Ok(current))
      else if || !ImmutableEq(existing, d) || d.stage.Rank() <= existing.stage.Rank()
              || existing.stage.Rank() < ArchiveVerified.Rank() then Fail(Precondition)
      else
        match ExpectedError(l.expected.head, current.head)
        case Some(error) => Fail(error)
        case None =>
          match HandoffError(env, l.metadata, d, true)
          case Some(error) => Fail(error)
          case None => Submit(env, current, l.metadata, operation, Published(d.stream), Report)
  }

  function AfterCompleteLoad(env: Env, l: Local, current: Snapshot): Local
    requires l.CallComplete?
  {
    var m := current.head.metadata;
    var operation := PhaseId(env, l.operationId, l.stream, "complete");
    if Blank(l.operationId) || Blank(l.stream) then Fail(Invalid)
    else if l.stream !in m.pending then
      if operation in current.head.completed then Done(Ok(current)) else Fail(Precondition)
    else
      var existing := m.pending[l.stream];
      if existing.operationId != l.operationId then Fail(PendingHandoffConflict)
      else if existing.stage != RoutePublished then Fail(Precondition)
      else
        match ExpectedError(l.expected.head, current.head)
        case Some(error) => Fail(error)
        case None =>
          match HandoffError(env, m, existing, true)
          case Some(error) => Fail(error)
          case None =>
            Submit(env, current, m.(pending := m.pending - {l.stream}), operation,
                   Completed(l.stream), Report)
  }

  function AfterReceiptLoad(l: Local, latest: Snapshot): Local
    requires l.Reconcile? || l.ReloadCreate?
  {
    var next := if l.Reconcile? then l.next else l.head;
    if next.operationId in latest.head.completed then
      if ReceiptMatches(latest.head.completed[next.operationId], next) then Done(Ok(latest))
      else if l.Reconcile? then Leave(Precondition, l.onConflict)
      else Fail(OperationConflict)
    else if l.Reconcile? then Leave(Precondition, l.onConflict)
    else Fail(AlreadyExists)
  }

  /** One load and the decision that follows it. */
  function AfterLoad(env: Env, l: Local, current: Snapshot): Local
    requires !l.CallCreate? && !l.Put? && !l.Done?
  {
    if !Storable(env, current.head) then Fail(Invalid)
    else
      match l
      case UpdateInner(_, _, _, _, _) => AfterUpdateLoad(env, l, current)
      case CallClaim(_, _) => AfterClaimLoad(env, l, current)
      case CallAdvance(_, _) => AfterAdvanceLoad(env, l, current)
      case RebaseLoad(_, _, _) => AfterRebaseLoad(env, l, current)
      case CallPublish(_, _, _) => AfterPublishLoad(env, l, current)
      case CallComplete(_, _, _) => AfterCompleteLoad(env, l, current)
      case Reconcile(_, _) => AfterReceiptLoad(l, current)
      case ReloadCreate(_) => AfterReceiptLoad(l, current)
  }

  /** A load that finds no object. */
  function AfterMissing(l: Local): Local
    requires !l.CallCreate? && !l.Put? && !l.Done?
  {
    match l
    case UpdateInner(_, _, _, _, onConflict) => Leave(Precondition, onConflict)
    case Reconcile(_, onConflict) => Leave(Precondition, onConflict)
    case _ => Fail(Precondition)
  }

  /** What the next load or put of `l` does to the cell, and where it leaves the coordinator. */
  function Turn(env: Env, history: seq<Written>, l: Local): (seq<Written>, Local) {
    match l
    case Done(_) => (history, l)
    case CallCreate(head) =>
      if !Storable(env, head) then (history, Fail(Invalid))
      else if history == [] then ([Written(head, Created)], Done(Ok(Snapshot(head, 0))))
      else (history, ReloadCreate(head))
    case Put(next, version, kind, onConflict) =>
      if version + 1 == |history| then
        (history + [Written(next, kind)], Done(Ok(Snapshot(next, |history|))))
      else (history, Reconcile(next, onConflict))
    case _ =>
      match Cell(history)
      case None => (history, AfterMissing(l))
      case Some(current) => (history, AfterLoad(env, l, current))
  }

  // ------------------------------------------------------------------ the runs

  datatype Action =
    | Begin(p: nat, call: Local)  // a caller starts a store method
    | Run(p: nat)                 // its next load or put happens
    | Lose(p: nat)                // its next load or put happens, but the answer never arrives
    | Break(p: nat)               // its next load or put fails without any effect

  predicate Authentic(history: seq<Written>, s: Snapshot) {
    s.version < |history| && history[s.version].head == s.head
  }

  /** The caller built `metadata` from the head it loaded and changed no other stream's claim. */
  predicate OthersKept(loaded: Claims, claims: Claims, stream: string) {
    claims - {stream} == loaded - {stream}
  }

  /** What callers owe: a snapshot they really loaded, and on publication the claims it held. */
  predicate Callable(history: seq<Written>, call: Local) {
    match call
    case CallCreate(_) => true
    case CallClaim(expected, _) => Authentic(history, expected)
    case CallAdvance(expected, _) => Authentic(history, expected)
    case CallComplete(expected, _, _) => Authentic(history, expected)
    case CallPublish(expected, metadata, d) =>
      && Authentic(history, expected)
      && OthersKept(expected.head.metadata.pending, metadata.pending, d.stream)
    case UpdateInner(expected, _, preserve, kind, onConflict) =>
      Authentic(history, expected) && preserve && kind == Updated && onConflict == Report
    case _ => false
  }

  function Step(env: Env, s: System, a: Action): System {
    match a
    case Begin(p, call) =>
      if Callable(s.history, call) && (p !in s.procs || s.procs[p].Done?) then
        s.(procs := s.procs[p := call])
      else s
    case Run(p) =>
      if p !in s.procs then s
      else var (history, l) := Turn(env, s.history, s.procs[p]); System(history, s.procs[p := l])
    case Lose(p) =>
      if p !in s.procs then s
      else System(Turn(env, s.history, s.procs[p]).0, s.procs[p := Fail(ObjectStore)])
    case Break(p) =>
      if p !in s.procs then s else s.(procs := s.procs[p := Fail(ObjectStore)])
  }

  const Init := System([], map[])

  /** The state after any sequence of actions, by any number of coordinators; an action that is
      not possible when its turn comes does nothing. */
  function Exec(env: Env, actions: seq<Action>): System {
    if actions == [] then Init
    else Step(env, Exec(env, actions[..|actions| - 1]), actions[|actions| - 1])
  }

  function Heads(env: Env, actions: seq<Action>): seq<Written> {
    Exec(env, actions).history
  }
}
