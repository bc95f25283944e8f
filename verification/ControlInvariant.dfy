/** What every committed write does to the head it replaces, in every interleaving. */
module ControlInvariant {
  import opened Base
  import opened ControlTypes
  import opened ControlHead
  import opened ControlProtocol

  /** The claim of `stream` moves forward and keeps everything it has fixed. */
  predicate Moved(env: Env, h: Head, next: Head, stream: string) {
    && stream in h.metadata.pending && stream in next.metadata.pending
    && var d := next.metadata.pending[stream];
    && d.stream == stream
    && ImmutableEq(h.metadata.pending[stream], d)
    && h.metadata.pending[stream].stage.Rank() < d.stage.Rank()
    && next.operationId == StagePhaseId(env, d)
  }

  /** The effect of one committed write on the claims, method by method. */
  ghost predicate ClaimStep(env: Env, h: Head, next: Head, kind: Kind) {
    match kind
    case Created => false
    case Updated => SubMap(h.metadata.pending, next.metadata.pending)
    case Claimed(s) =>
      && s !in h.metadata.pending && s in next.metadata.pending
      && var d := next.metadata.pending[s];
      && d.stream == s && d.stage == Prepared
      && HandoffError(env, h.metadata, d, false) == None
      && next.metadata == WithClaim(h.metadata, d)
      && next.operationId == PhaseId(env, d.operationId, s, "claim")
    case Advanced(s) =>
      && Moved(env, h, next, s)
      && HandoffError(env, h.metadata, next.metadata.pending[s], true) == None
      && next.metadata == WithClaim(h.metadata, next.metadata.pending[s])
    case Published(s) =>
      && Moved(env, h, next, s)
      && h.metadata.pending[s].stage == ArchiveVerified
      && next.metadata.pending[s].stage == RoutePublished
      && HandoffError(env, next.metadata, next.metadata.pending[s], true) == None
      && OthersKept(h.metadata.pending, next.metadata.pending, s)
    case Completed(s) =>
      && s in h.metadata.pending
      && h.metadata.pending[s].stage == RoutePublished
      && HandoffError(env, h.metadata, h.metadata.pending[s], true) == None
      && next.metadata == h.metadata.(pending := h.metadata.pending - {s})
      && next.operationId == PhaseId(env, h.metadata.pending[s].operationId, s, "complete")
  }

  /** One committed write: `w` replaces `h` in the cell. */
  ghost predicate Commit(env: Env, h: Head, w: Written) {
    && ClaimStep(env, h, w.head, w.kind)
    && TransitionError(h, w.head) == None
    && w.head.operationId !in h.completed
    && SubMap(h.completed, w.head.completed)
    && (w.kind != Updated ==>
          && w.head.completed == h.completed[w.head.operationId := OwnReceipt(w.head)]
          && w.head.sourceMarker == h.sourceMarker)
  }

  ghost predicate HistoryOk(env: Env, history: seq<Written>) {
    && (forall i :: 0 <= i < |history| ==> Storable(env, history[i].head))
    && (forall i :: 0 < i < |history| ==> Commit(env, history[i - 1].head, history[i]))
  }

  ghost predicate RebaseOk(env: Env, d: Descriptor, operation: string, observed: Descriptor) {
    && ValidDescriptor(d, d.stream)
    && ImmutableEq(observed, d)
    && observed.stage.Rank() < d.stage.Rank()
    && operation == StagePhaseId(env, d)
  }

  /** A rebase kept in reserve is for the very claim the candidate moves. */
  ghost predicate ConflictOk(env: Env, base: Head, next: Head, kind: Kind, c: OnConflict) {
    c.RebaseTo? ==>
      && RebaseOk(env, c.descriptor, c.operation, c.observed)
      && kind == Advanced(c.descriptor.stream)
      && next.operationId == c.operation
      && next.metadata == WithClaim(base.metadata, c.descriptor)
      && c.descriptor.stream in base.metadata.pending
      && base.metadata.pending[c.descriptor.stream] == c.observed
  }

  /** What a coordinator between two steps may rely on. */
  ghost predicate LocalOk(env: Env, history: seq<Written>, l: Local) {
    match l
    case UpdateInner(expected, next, preserve, kind, onConflict) =>
      && Authentic(history, expected)
      && ConflictOk(env, expected.head, next, kind, onConflict)
      && if preserve then kind == Updated else
           && ClaimStep(env, expected.head, next, kind)
           && next.completed == map[next.operationId := OwnReceipt(next)]
           && next.sourceMarker == expected.head.sourceMarker
           && next.metadataDigest == env.metadataDigest(next.metadata)
    case Put(next, version, kind, onConflict) =>
      && version < |history|
      && Storable(env, next)
      && Commit(env, history[version].head, Written(next, kind))
      && ConflictOk(env, history[version].head, next, kind, onConflict)
    case Reconcile(next, onConflict) =>
      onConflict.RebaseTo? ==> RebaseOk(env, onConflict.descriptor, onConflict.operation, onConflict.observed)
    case RebaseLoad(d, operation, observed) => RebaseOk(env, d, operation, observed)
    case Done(result) => result.Ok? ==> Authentic(history, result.snapshot)
    case ReloadCreate(_) => true
    case _ => Callable(history, l)
  }

  ghost predicate Inv(env: Env, s: System) {
    && HistoryOk(env, s.history)
    && (forall p :: p in s.procs ==> LocalOk(env, s.history, s.procs[p]))
  }

  // ------------------------------------------------------------ one decision

  lemma MergedReceipts(next: Head, current: Head)
    requires MergeReceipts(next, current).Some?
    requires next.operationId !in current.completed
    ensures SubMap(current.completed, MergeReceipts(next, current).value.completed)
  {
  }

  lemma UpdateDecision(env: Env, history: seq<Written>, l: Local, current: Snapshot)
    requires l.UpdateInner? && LocalOk(env, history, l)
    requires Authentic(history, current)
    ensures LocalOk(env, history, AfterUpdateLoad(env, l, current))
  {
    hide Storable, ValidDescriptor, HandoffError, PhaseId, Moved, RebaseOk;
    var r := AfterUpdateLoad(env, l, current);
    if r.Put? {
      var next := if l.preserve then Preserve(env, l.next, current.head) else l.next;
      MergedReceipts(next, current.head);
      assert current.head == l.expected.head;
      assert r.next == next.(completed := r.next.completed);
      if !l.preserve {
        SameStep(env, current.head, next, r.next, l.kind);
        assert r.next.completed == current.head.completed[next.operationId := OwnReceipt(next)];
      }
      assert TransitionError(current.head, r.next) == TransitionError(current.head, next);
    }
  }

  lemma SameStep(env: Env, h: Head, next: Head, merged: Head, kind: Kind)
    requires ClaimStep(env, h, next, kind)
    requires merged.metadata == next.metadata && merged.operationId == next.operationId
    ensures ClaimStep(env, h, merged, kind)
  {
    hide ValidHead, ValidDescriptor, HandoffError, PhaseId;
  }

  lemma SubmitDecision(env: Env, history: seq<Written>, base: Snapshot, metadata: ControlMetadata,
                       operation: string, kind: Kind, onConflict: OnConflict)
    requires Authentic(history, base)
    requires forall h: Head | h.metadata == metadata && h.operationId == operation ::
               ClaimStep(env, base.head, h, kind) && ConflictOk(env, base.head, h, kind, onConflict)
    ensures LocalOk(env, history, Submit(env, base, metadata, operation, kind, onConflict))
  {
    hide ValidHead, ValidDescriptor, HandoffError, PhaseId;
  }

  lemma ClaimDecision(env: Env, history: seq<Written>, l: Local, current: Snapshot)
    requires l.CallClaim? && Authentic(history, current)
    ensures LocalOk(env, history, AfterClaimLoad(env, l, current))
  {
    hide ValidHead, ValidDescriptor, HandoffError, PhaseId;
    var d := l.descriptor;
    var m := current.head.metadata;
    var operation := PhaseId(env, d.operationId, d.stream, "claim");
    if d.stream !in m.pending && d.stage == Prepared && HandoffError(env, m, d, false) == None {
      SubmitDecision(env, history, current, WithClaim(m, d), operation, Claimed(d.stream), Report);
    }
  }

  lemma MoveIntent(env: Env, h: Head, d: Descriptor, next: Head)
    requires d.stream in h.metadata.pending
    requires RebaseOk(env, d, StagePhaseId(env, d), h.metadata.pending[d.stream])
    requires HandoffError(env, h.metadata, d, true) == None
    requires next.metadata == WithClaim(h.metadata, d) && next.operationId == StagePhaseId(env, d)
    ensures ClaimStep(env, h, next, Advanced(d.stream))
  {
    hide ValidHead, ValidDescriptor, HandoffError, PhaseId;
  }

  lemma AdvanceSubmit(env: Env, history: seq<Written>, base: Snapshot, d: Descriptor, onConflict: OnConflict)
    requires Authentic(history, base)
    requires d.stream in base.head.metadata.pending
    requires RebaseOk(env, d, StagePhaseId(env, d), base.head.metadata.pending[d.stream])
    requires HandoffError(env, base.head.metadata, d, true) == None
    requires onConflict.RebaseTo? ==>
               onConflict == RebaseTo(d, StagePhaseId(env, d), base.head.metadata.pending[d.stream])
    ensures LocalOk(env, history,
                    Submit(env, base, WithClaim(base.head.metadata, d), StagePhaseId(env, d),
                           Advanced(d.stream), onConflict))
  {
    hide ValidHead, ValidDescriptor, HandoffError, PhaseId;
    forall h: Head | h.metadata == WithClaim(base.head.metadata, d) && h.operationId == StagePhaseId(env, d)
      ensures ClaimStep(env, base.head, h, Advanced(d.stream))
      ensures ConflictOk(env, base.head, h, Advanced(d.stream), onConflict)
    {
      MoveIntent(env, base.head, d, h);
    }
    SubmitDecision(env, history, base, WithClaim(base.head.metadata, d), StagePhaseId(env, d),
                   Advanced(d.stream), onConflict);
  }

  lemma AdvanceDecision(env: Env, history: seq<Written>, l: Local, current: Snapshot)
    requires l.CallAdvance? && Authentic(history, current)
    ensures LocalOk(env, history, AfterAdvanceLoad(env, l, current))
  {
    hide ValidHead, ValidDescriptor, HandoffError, PhaseId;
    var d := l.descriptor;
    var m := current.head.metadata;
    if d.stream in m.pending {
      var existing := m.pending[d.stream];
      if ValidDescriptor(d, d.stream) && ImmutableEq(existing, d) && existing.stage.Rank() < d.stage.Rank() {
        assert RebaseOk(env, d, StagePhaseId(env, d), existing);
        if HandoffError(env, m, d, true) == None {
          AdvanceSubmit(env, history, current, d, RebaseTo(d, StagePhaseId(env, d), existing));
        }
      }
    }
  }

  lemma RebaseDecision(env: Env, history: seq<Written>, l: Local, latest: Snapshot)
    requires l.RebaseLoad? && LocalOk(env, history, l) && Authentic(history, latest)
    ensures LocalOk(env, history, AfterRebaseLoad(env, l, latest))
  {
    hide ValidHead, ValidDescriptor, HandoffError, PhaseId;
    var d := l.descriptor;
    var m := latest.head.metadata;
    if d.stream in m.pending && m.pending[d.stream] == l.observed && HandoffError(env, m, d, true) == None {
      AdvanceSubmit(env, history, latest, d, Report);
    }
  }

  lemma PublishDecision(env: Env, history: seq<Written>, l: Local, current: Snapshot)
    requires l.CallPublish? && LocalOk(env, history, l) && Authentic(history, current)
    ensures LocalOk(env, history, AfterPublishLoad(env, l, current))
  {
    hide ValidHead, ValidDescriptor, HandoffError, PhaseId;
    var r := AfterPublishLoad(env, l, current);
    if r.UpdateInner? {
      assert current.head == l.expected.head;
      var d := l.descriptor;
      assert r.next.metadata == l.metadata;
      assert Moved(env, current.head, r.next, d.stream);
    }
  }

  lemma CompleteDecision(env: Env, history: seq<Written>, l: Local, current: Snapshot)
    requires l.CallComplete? && Authentic(history, current)
    ensures LocalOk(env, history, AfterCompleteLoad(env, l, current))
  {
    hide ValidHead, ValidDescriptor, HandoffError, PhaseId;
  }

  lemma LoadDecision(env: Env, history: seq<Written>, l: Local, current: Snapshot)
    requires !l.CallCreate? && !l.Put? && !l.Done?
    requires LocalOk(env, history, l) && Authentic(history, current)
    ensures LocalOk(env, history, AfterLoad(env, l, current))
  {
    hide ValidHead, ValidDescriptor, HandoffError, PhaseId;
    match l {
      case UpdateInner(_, _, _, _, _) => UpdateDecision(env, history, l, current);
      case CallClaim(_, _) => ClaimDecision(env, history, l, current);
      case CallAdvance(_, _) => AdvanceDecision(env, history, l, current);
      case RebaseLoad(_, _, _) => RebaseDecision(env, history, l, current);
      case CallPublish(_, _, _) => PublishDecision(env, history, l, current);
      case CallComplete(_, _, _) => CompleteDecision(env, history, l, current);
      case Reconcile(_, _) =>
      case ReloadCreate(_) =>
    }
  }

  // ---------------------------------------------------------------- the runs

  lemma LocalGrows(env: Env, history: seq<Written>, longer: seq<Written>, l: Local)
    requires LocalOk(env, history, l)
    requires history <= longer
    ensures LocalOk(env, longer, l)
  {
    hide ValidHead, ValidDescriptor, HandoffError, PhaseId;
  }

  lemma TurnKeeps(env: Env, history: seq<Written>, l: Local)
    requires HistoryOk(env, history) && LocalOk(env, history, l)
    ensures history <= Turn(env, history, l).0
    ensures HistoryOk(env, Turn(env, history, l).0)
    ensures LocalOk(env, Turn(env, history, l).0, Turn(env, history, l).1)
  {
    hide ValidHead, ValidDescriptor, HandoffError, PhaseId;
    if !l.CallCreate? && !l.Put? && !l.Done? && history != [] {
      LoadDecision(env, history, l, Cell(history).value);
    }
  }

  lemma StepKeeps(env: Env, s: System, a: Action)
    requires Inv(env, s)
    ensures Inv(env, Step(env, s, a))
    ensures s.history <= Step(env, s, a).history
  {
    hide ValidHead, ValidDescriptor, HandoffError, PhaseId;
    var t := Step(env, s, a);
    if a.p in s.procs {
      TurnKeeps(env, s.history, s.procs[a.p]);
    }
    forall p | p in t.procs ensures LocalOk(env, t.history, t.procs[p]) {
      if p in s.procs {
        LocalGrows(env, s.history, t.history, s.procs[p]);
      }
    }
  }

  lemma {:induction false} ExecKeeps(env: Env, actions: seq<Action>)
    ensures Inv(env, Exec(env, actions))
  {
    if actions != [] {
      ExecKeeps(env, actions[..|actions| - 1]);
      StepKeeps(env, Exec(env, actions[..|actions| - 1]), actions[|actions| - 1]);
    }
  }

  /** Nothing already written is ever unwritten: a run extends the heads of each of its prefixes. */
  lemma {:induction false} HeadsGrow(env: Env, actions: seq<Action>, n: nat)
    requires n <= |actions|
    ensures Heads(env, actions[..n]) <= Heads(env, actions)
    decreases |actions| - n
  {
    if n == |actions| {
      assert actions[..n] == actions;
    } else {
      assert actions[..n + 1][..n] == actions[..n];
      ExecKeeps(env, actions[..n]);
      StepKeeps(env, Exec(env, actions[..n]), actions[n]);
      HeadsGrow(env, actions, n + 1);
    }
  }
}
