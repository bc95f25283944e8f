/** What the answer of a store call tells the coordinator that made it, in every interleaving. */
module ControlAnswers {
  import opened Base
  import opened ControlTypes
  import opened ControlHead
  import opened ControlProtocol
  import opened ControlInvariant

  /** The call coordinator `p` began last, if it ever began one. */
  function CallOf(env: Env, actions: seq<Action>, p: nat): Option<Local> {
    if actions == [] then None
    else
      var n := |actions| - 1;
      var s := Exec(env, actions[..n]);
      match actions[n]
      case Begin(q, call) =>
        if q == p && Callable(s.history, call) && (p !in s.procs || s.procs[p].Done?) then Some(call)
        else CallOf(env, actions[..n], p)
      case _ => CallOf(env, actions[..n], p)
  }

  /** The operation id under which the call's write is recorded. */
  function Key(env: Env, call: Local): string {
    match call
    case CallCreate(head) => head.operationId
    case CallClaim(_, d) => PhaseId(env, d.operationId, d.stream, "claim")
    case CallAdvance(_, d) => StagePhaseId(env, d)
    case CallPublish(_, _, d) => StagePhaseId(env, d)
    case CallComplete(_, stream, operationId) => PhaseId(env, operationId, stream, "complete")
    case UpdateInner(_, next, _, _, _) => next.operationId
    case _ => ""
  }

  /** The metadata the call writes on top of a head. */
  function Target(call: Local, h: Head): ControlMetadata {
    match call
    case CallClaim(_, d) => WithClaim(h.metadata, d)
    case CallAdvance(_, d) => WithClaim(h.metadata, d)
    case CallPublish(_, metadata, _) => metadata
    case CallComplete(_, stream, _) => h.metadata.(pending := h.metadata.pending - {stream})
    case _ => h.metadata
  }

  /** The receipt of this call's write on top of some head of the history. */
  ghost predicate OwnWrite(env: Env, history: seq<Written>, call: Local, r: Receipt) {
    match call
    case CallCreate(head) => r == OwnReceipt(head)
    case UpdateInner(_, next, _, _, _) => r.authorityEpoch == next.authorityEpoch && r.revision == next.revision
    case _ => exists i :: 0 <= i < |history| && OnTop(env, history[i].head, call, r)
  }

  ghost predicate OnTop(env: Env, h: Head, call: Local, r: Receipt) {
    && h.revision < U64_MAX
    && r == Receipt(h.authorityEpoch, h.revision + 1, env.metadataDigest(Target(call, h)))
  }

  /** The snapshot carries the receipt of this call's own write. */
  ghost predicate Receipted(env: Env, history: seq<Written>, call: Local, h: Head) {
    Key(env, call) in h.completed && OwnWrite(env, history, call, h.completed[Key(env, call)])
  }

  /** The snapshot shows that what the call asks for is already so. */
  predicate Already(env: Env, call: Local, h: Head) {
    match call
    case CallClaim(_, d) => d.stream in h.metadata.pending && ImmutableEq(h.metadata.pending[d.stream], d)
    case CallAdvance(_, d) =>
      && StagePhaseId(env, d) in h.completed
      && (d.stream in h.metadata.pending ==>
            && SameClaim(h.metadata.pending[d.stream], d)
            && d.stage.Rank() <= h.metadata.pending[d.stream].stage.Rank()
            && d.archivedLsn == h.metadata.pending[d.stream].archivedLsn
            && d.successor == h.metadata.pending[d.stream].successor)
    case CallPublish(_, _, d) =>
      && StagePhaseId(env, d) in h.completed
      && d.stream in h.metadata.pending && h.metadata.pending[d.stream] == d
    case CallComplete(_, stream, operationId) =>
      PhaseId(env, operationId, stream, "complete") in h.completed && stream !in h.metadata.pending
    case _ => false
  }

  /** The candidate of the call. */
  ghost predicate Candidate(env: Env, history: seq<Written>, call: Local, next: Head) {
    next.operationId == Key(env, call) && OwnWrite(env, history, call, OwnReceipt(next))
  }

  ghost predicate Conflict(env: Env, call: Local, c: OnConflict) {
    c == Report || (call.CallAdvance? && c.RebaseTo? && c.descriptor == call.descriptor && c.operation == Key(env, call))
  }

  /** Where a coordinator can stand in the course of its call, and what it may have answered. */
  ghost predicate Serves(env: Env, history: seq<Written>, call: Local, l: Local) {
    match l
    case UpdateInner(_, next, preserve, _, c) =>
      || (l == call && preserve && c == Report)
      || (!preserve && !call.UpdateInner? && Candidate(env, history, call, next) && Conflict(env, call, c))
    case Put(next, _, _, c) => Candidate(env, history, call, next) && Conflict(env, call, c)
    case Reconcile(next, c) => Candidate(env, history, call, next) && Conflict(env, call, c)
    case RebaseLoad(d, operation, _) =>
      call.CallAdvance? && d == call.descriptor && operation == Key(env, call)
    case ReloadCreate(head) => call == CallCreate(head)
    case Done(Err(_)) => true
    case Done(Ok(s)) =>
      Authentic(history, s) && (Receipted(env, history, call, s.head) || Already(env, call, s.head))
    case _ => l == call
  }

  ghost predicate AllServed(env: Env, actions: seq<Action>) {
    var s := Exec(env, actions);
    forall p :: p in s.procs ==>
      CallOf(env, actions, p).Some? && Serves(env, s.history, CallOf(env, actions, p).value, s.procs[p])
  }

  // ------------------------------------------------------------------ each turn

  lemma ServesLonger(env: Env, history: seq<Written>, longer: seq<Written>, call: Local, l: Local)
    requires Serves(env, history, call, l) && history <= longer
    ensures Serves(env, longer, call, l)
  {
    hide PhaseId, StagePhaseId, OnTop, Already;
    forall r: Receipt | OwnWrite(env, history, call, r) ensures OwnWrite(env, longer, call, r) {
      OwnLonger(env, history, longer, call, r);
    }
  }

  lemma OwnLonger(env: Env, history: seq<Written>, longer: seq<Written>, call: Local, r: Receipt)
    requires OwnWrite(env, history, call, r) && history <= longer
    ensures OwnWrite(env, longer, call, r)
  {
    hide OnTop;
    if !call.CallCreate? && !call.UpdateInner? {
      var i :| 0 <= i < |history| && OnTop(env, history[i].head, call, r);
      assert longer[i] == history[i];
    }
  }

  /** A candidate built on a head of the history is the call's own. */
  lemma SubmitServes(env: Env, history: seq<Written>, call: Local, base: Snapshot, kind: Kind, c: OnConflict)
    requires call.CallClaim? || call.CallAdvance? || call.CallPublish? || call.CallComplete?
    requires Authentic(history, base) && Conflict(env, call, c)
    ensures Serves(env, history, call, Submit(env, base, Target(call, base.head), Key(env, call), kind, c))
  {
    hide PhaseId, StagePhaseId, ValidHead, Already;
    var next := HeadWithMetadata(env, base.head, Target(call, base.head), Key(env, call));
    if next.Some? {
      assert OnTop(env, history[base.version].head, call, OwnReceipt(next.value));
    }
  }

  lemma ClaimServes(env: Env, history: seq<Written>, call: Local, current: Snapshot)
    requires call.CallClaim? && Authentic(history, current)
    ensures Serves(env, history, call, AfterClaimLoad(env, call, current))
  {
    hide ValidDescriptor, HandoffError, PhaseId, Submit, ImmutableEq, ExpectedError;
    SubmitServes(env, history, call, current, Claimed(call.descriptor.stream), Report);
  }

  lemma AdvanceServes(env: Env, history: seq<Written>, call: Local, current: Snapshot)
    requires call.CallAdvance? && Authentic(history, current)
    ensures Serves(env, history, call, AfterAdvanceLoad(env, call, current))
  {
    hide ValidDescriptor, HandoffError, StagePhaseId, Submit, SameClaim, ExpectedError;
    var d := call.descriptor;
    if d.stream in current.head.metadata.pending {
      var existing := current.head.metadata.pending[d.stream];
      SubmitServes(env, history, call, current, Advanced(d.stream), RebaseTo(d, StagePhaseId(env, d), existing));
    }
  }

  lemma PublishServes(env: Env, history: seq<Written>, call: Local, current: Snapshot)
    requires call.CallPublish? && Authentic(history, current)
    ensures Serves(env, history, call, AfterPublishLoad(env, call, current))
  {
    hide ValidDescriptor, HandoffError, StagePhaseId, Submit, ImmutableEq, ExpectedError;
    SubmitServes(env, history, call, current, Published(call.descriptor.stream), Report);
  }

  lemma CompleteServes(env: Env, history: seq<Written>, call: Local, current: Snapshot)
    requires call.CallComplete? && Authentic(history, current)
    ensures Serves(env, history, call, AfterCompleteLoad(env, call, current))
  {
    hide HandoffError, PhaseId, Submit, ExpectedError;
    SubmitServes(env, history, call, current, Completed(call.stream), Report);
  }

  lemma RebaseServes(env: Env, history: seq<Written>, call: Local, l: Local, latest: Snapshot)
    requires l.RebaseLoad? && Serves(env, history, call, l) && Authentic(history, latest)
    ensures Serves(env, history, call, AfterRebaseLoad(env, l, latest))
  {
    hide HandoffError, StagePhaseId, Submit;
    SubmitServes(env, history, call, latest, Advanced(call.descriptor.stream), Report);
  }

  lemma UpdateServes(env: Env, history: seq<Written>, call: Local, l: Local, current: Snapshot)
    requires l.UpdateInner? && Serves(env, history, call, l) && Authentic(history, current)
    ensures Serves(env, history, call, AfterUpdateLoad(env, l, current))
  {
    hide Storable, PhaseId, StagePhaseId, ExpectedError, TransitionError, Already;
  }

  lemma ReceiptServes(env: Env, history: seq<Written>, call: Local, l: Local, latest: Snapshot)
    requires (l.Reconcile? || l.ReloadCreate?) && Serves(env, history, call, l) && Authentic(history, latest)
    ensures Serves(env, history, call, AfterReceiptLoad(l, latest))
  {
    hide PhaseId, StagePhaseId, Already;
  }

  lemma LoadServes(env: Env, history: seq<Written>, call: Local, l: Local, current: Snapshot)
    requires !l.CallCreate? && !l.Put? && !l.Done? && Serves(env, history, call, l) && Authentic(history, current)
    ensures Serves(env, history, call, AfterLoad(env, l, current))
  {
    hide Storable, AfterUpdateLoad, AfterClaimLoad, AfterAdvanceLoad, AfterRebaseLoad, AfterPublishLoad,
         AfterCompleteLoad, AfterReceiptLoad, PhaseId, StagePhaseId, Already;
    match l {
      case UpdateInner(_, _, _, _, _) => UpdateServes(env, history, call, l, current);
      case CallClaim(_, _) => ClaimServes(env, history, call, current);
      case CallAdvance(_, _) => AdvanceServes(env, history, call, current);
      case RebaseLoad(_, _, _) => RebaseServes(env, history, call, l, current);
      case CallPublish(_, _, _) => PublishServes(env, history, call, current);
      case CallComplete(_, _, _) => CompleteServes(env, history, call, current);
      case Reconcile(_, _) => ReceiptServes(env, history, call, l, current);
      case ReloadCreate(_) => ReceiptServes(env, history, call, l, current);
    }
  }

  lemma PutServes(env: Env, history: seq<Written>, call: Local, l: Local)
    requires l.Put? && Serves(env, history, call, l) && Storable(env, l.next)
    ensures Serves(env, Turn(env, history, l).0, call, Turn(env, history, l).1)
  {
    hide ValidMetadata, ValidMarker, PhaseId, StagePhaseId, Already, OnTop, Blank, ByteLen;
    if l.version + 1 == |history| {
      var longer := history + [Written(l.next, l.kind)];
      OwnLonger(env, history, longer, call, OwnReceipt(l.next));
      assert longer[|history|].head == l.next;
    }
  }

  lemma CreateServes(env: Env, history: seq<Written>, call: Local, l: Local)
    requires l.CallCreate? && Serves(env, history, call, l)
    ensures Serves(env, Turn(env, history, l).0, call, Turn(env, history, l).1)
  {
    hide ValidMetadata, ValidMarker, PhaseId, StagePhaseId, Already, Blank, ByteLen;
  }

  lemma MissingServes(env: Env, history: seq<Written>, call: Local, l: Local)
    requires !l.CallCreate? && !l.Put? && !l.Done? && Serves(env, history, call, l)
    ensures Serves(env, history, call, AfterMissing(l))
  {
    hide PhaseId, StagePhaseId, Already, OnTop;
  }

  lemma TurnServes(env: Env, history: seq<Written>, call: Local, l: Local)
    requires Serves(env, history, call, l) && LocalOk(env, history, l)
    ensures Serves(env, Turn(env, history, l).0, call, Turn(env, history, l).1)
  {
    hide Storable, AfterLoad, AfterMissing, Serves, Commit, ClaimStep, ConflictOk, RebaseOk;
    if l.Put? {
      PutServes(env, history, call, l);
    } else if l.CallCreate? {
      CreateServes(env, history, call, l);
    } else if !l.Done? {
      MissingServes(env, history, call, l);
      if history != [] {
        LoadServes(env, history, call, l, Cell(history).value);
      }
    }
  }

  lemma BeginServes(env: Env, history: seq<Written>, call: Local)
    requires Callable(history, call)
    ensures Serves(env, history, call, call)
  {
    hide PhaseId, StagePhaseId;
  }

  lemma {:induction false} ExecServes(env: Env, actions: seq<Action>)
    ensures AllServed(env, actions)
  {
    hide Serves, LocalOk, HistoryOk, Turn, Callable;
    if actions != [] {
      var n := |actions| - 1;
      var before, a := actions[..n], actions[n];
      var s, t := Exec(env, before), Exec(env, actions);
      ExecServes(env, before);
      ExecKeeps(env, before);
      StepKeeps(env, s, a);
      forall p | p in t.procs
        ensures CallOf(env, actions, p).Some? && Serves(env, t.history, CallOf(env, actions, p).value, t.procs[p])
      {
        if p == a.p && (a.Run? || a.Lose? || a.Break?) {
          TurnServes(env, s.history, CallOf(env, before, p).value, s.procs[p]);
          FailServes(env, t.history, CallOf(env, before, p).value);
        } else if p == a.p && a.Begin? && t.procs[p] == a.call && Callable(s.history, a.call)
                  && (p !in s.procs || s.procs[p].Done?) {
          BeginServes(env, s.history, a.call);
        } else {
          ServesLonger(env, s.history, t.history, CallOf(env, before, p).value, s.procs[p]);
        }
      }
    }
  }

  lemma FailServes(env: Env, history: seq<Written>, call: Local)
    ensures forall e :: Serves(env, history, call, Fail(e))
  {
  }
}
