/** What each call answers and writes when nobody else acts: in the fields of the head it finds. */
module ControlAlone {
  import opened Base
  import opened ControlTypes
  import opened ControlHead
  import opened ControlProtocol
  import opened ControlInvariant
  import opened ControlRebase

  /** The head that follows `h` with this metadata and one more receipt. */
  function Successor(env: Env, h: Head, metadata: ControlMetadata, key: string): Head {
    var digest := env.metadataDigest(metadata);
    var revision := SatAdd(h.revision, 1);
    ControlTypes.ControlHead(CONTROL_HEAD_VERSION, h.authorityEpoch, revision, key,
                             h.completed[key := Receipt(h.authorityEpoch, revision, digest)], h.sourceMarker, digest, metadata)
  }

  /** The head has room for a write of this metadata under this key. */
  ghost predicate CanFollow(env: Env, h: Head, metadata: ControlMetadata, key: string) {
    && h.revision < U64_MAX && key !in h.completed && |h.completed| < MAX_COMPLETED_OPERATIONS
    && !Blank(key) && ByteLen(key) <= MAX_OPERATION_ID_BYTES
    && ValidMetadata(env, metadata) && !Blank(env.metadataDigest(metadata))
    && (h.authorityEpoch == U64_MAX ==>
          h.sourceMarker.authorityEpoch == U64_MAX && h.sourceMarker.revision == h.revision
          && h.sourceMarker.digest == h.metadataDigest)
    && env.headBytes(Successor(env, h, metadata, key)) <= MAX_CONTROL_HEAD_BYTES
  }

  lemma SuccessorStorable(env: Env, h: Head, metadata: ControlMetadata, key: string)
    requires Storable(env, h) && CanFollow(env, h, metadata, key)
    ensures Storable(env, Successor(env, h, metadata, key))
    ensures HeadWithMetadata(env, h, metadata, key).Some?
  {
    hide ValidMetadata, ValidMarker, Blank, ByteLen, ValidReceipts;
    var r := Successor(env, h, metadata, key);
    OneMoreReceipt(h, r);
    FirstReceipt(NewHead(env, h.authorityEpoch, h.revision + 1, key, h.sourceMarker, metadata));
  }

  lemma MergedIsSuccessor(env: Env, h: Head, metadata: ControlMetadata, key: string)
    requires CanFollow(env, h, metadata, key) && HeadWithMetadata(env, h, metadata, key).Some?
    ensures var next := HeadWithMetadata(env, h, metadata, key).value;
            && next.operationId == key && MergeReceipts(next, h) == Some(Successor(env, h, metadata, key))
            && TransitionError(h, next) == None
  {
    hide ValidHead, ValidMetadata, Blank, ByteLen;
    var next := HeadWithMetadata(env, h, metadata, key).value;
    assert (next.completed + h.completed)[key := OwnReceipt(next)] == h.completed[key := OwnReceipt(next)];
  }

  /** A candidate on the current head goes through in two turns. */
  lemma SubmitCommits(env: Env, history: seq<Written>, h: Head, metadata: ControlMetadata, key: string, kind: Kind, c: OnConflict)
    requires history != [] && history[|history| - 1].head == h && Storable(env, h) && CanFollow(env, h, metadata, key)
    ensures var l := Submit(env, Snapshot(h, |history| - 1), metadata, key, kind, c);
            var next := Successor(env, h, metadata, key);
            && Turn(env, history, l) == (history, Put(next, |history| - 1, kind, c))
            && Turn(env, history, Put(next, |history| - 1, kind, c))
               == (history + [Written(next, kind)], Done(Ok(Snapshot(next, |history|))))
  {
    hide ValidHead, CanFollow, MergeReceipts, TransitionError, Successor;
    SuccessorStorable(env, h, metadata, key);
    MergedIsSuccessor(env, h, metadata, key);
    assert key !in h.completed by { FreshKey(env, h, metadata, key); }
  }

  lemma FreshKey(env: Env, h: Head, metadata: ControlMetadata, key: string)
    requires CanFollow(env, h, metadata, key)
    ensures key !in h.completed
  {
    hide ValidMetadata, Blank, ByteLen, Successor;
  }

  lemma OneTurn(env: Env, s: System, p: nat)
    requires p in s.procs
    ensures var (h, l) := Turn(env, s.history, s.procs[p]); RunAlone(env, s, p, 1) == System(h, s.procs[p := l])
  {
    hide Turn;
    assert RunAlone(env, s, p, 0) == s;
  }

  lemma ThreeTurns(env: Env, s: System, p: nat, l1: Local, l2: Local, h3: seq<Written>, l3: Local)
    requires p in s.procs && Turn(env, s.history, s.procs[p]) == (s.history, l1)
    requires Turn(env, s.history, l1) == (s.history, l2) && Turn(env, s.history, l2) == (h3, l3)
    ensures RunAlone(env, s, p, 3) == System(h3, s.procs[p := l3])
  {
    hide Turn;
    AloneIsTurns(env, s, p, 3);
    assert Turns(env, s.history, s.procs[p], 1) == (s.history, l1);
    assert Turns(env, s.history, s.procs[p], 2) == (s.history, l2);
    assert Turns(env, s.history, s.procs[p], 3) == (h3, l3);
  }

  /** Coordinator `p` is about to make this call on the head `h`. */
  ghost predicate Calls(env: Env, s: System, p: nat, call: Local, h: Head) {
    p in s.procs && s.procs[p] == call && s.history != [] && s.history[|s.history| - 1].head == h && Storable(env, h)
  }

  /** The call ends at once with this answer and writes nothing. */
  ghost predicate AnswersAtOnce(env: Env, s: System, p: nat, answer: Local) {
    RunAlone(env, s, p, 1) == System(s.history, s.procs[p := answer])
  }

  /** The call ends with its write on top of the head. */
  ghost predicate Commits(env: Env, s: System, p: nat, next: Head, kind: Kind) {
    RunAlone(env, s, p, 3)
    == System(s.history + [Written(next, kind)], s.procs[p := Done(Ok(Snapshot(next, |s.history|)))])
  }

  lemma AtOnce(env: Env, s: System, p: nat, call: Local, h: Head, answer: Local)
    requires Calls(env, s, p, call, h) && !call.CallCreate? && !call.Put? && !call.Done?
    requires AfterLoad(env, call, Snapshot(h, |s.history| - 1)) == answer
    ensures AnswersAtOnce(env, s, p, answer)
  {
    hide AfterLoad, Storable, RunAlone;
    OneTurn(env, s, p);
  }

  lemma CommitsIn(env: Env, s: System, p: nat, call: Local, h: Head, metadata: ControlMetadata, key: string, kind: Kind,
                  c: OnConflict)
    requires Calls(env, s, p, call, h) && !call.CallCreate? && !call.Put? && !call.Done? && CanFollow(env, h, metadata, key)
    requires AfterLoad(env, call, Snapshot(h, |s.history| - 1))
             == Submit(env, Snapshot(h, |s.history| - 1), metadata, key, kind, c)
    ensures Commits(env, s, p, Successor(env, h, metadata, key), kind)
  {
    hide AfterLoad, Storable, RunAlone, CanFollow, Submit, Successor;
    var l1 := Submit(env, Snapshot(h, |s.history| - 1), metadata, key, kind, c);
    SubmitCommits(env, s.history, h, metadata, key, kind, c);
    var next := Successor(env, h, metadata, key);
    LoadTurn(env, s.history, call, h);
    ThreeTurns(env, s, p, l1, Put(next, |s.history| - 1, kind, c), s.history + [Written(next, kind)],
               Done(Ok(Snapshot(next, |s.history|))));
  }

  lemma LoadTurn(env: Env, history: seq<Written>, call: Local, h: Head)
    requires history != [] && history[|history| - 1].head == h && !call.CallCreate? && !call.Put? && !call.Done?
    ensures Turn(env, history, call) == (history, AfterLoad(env, call, Snapshot(h, |history| - 1)))
  {
    hide AfterLoad;
  }

  // ------------------------------------------------------------------------ claiming

  /** A claim on a stream that carries one: the same claim, with no successor chosen yet, is confirmed;
      any other, of another operation above all, is a conflict. Nothing is written either way. */
  lemma ClaimOnClaimed(env: Env, s: System, p: nat, expected: Snapshot, d: Descriptor, h: Head)
    requires Calls(env, s, p, CallClaim(expected, d), h)
    requires ValidDescriptor(d, d.stream) && d.stage == Prepared && d.stream in h.metadata.pending
    ensures var existing := h.metadata.pending[d.stream];
            if SameClaim(existing, d) && existing.successor.None? && existing.successorPlacement.None? then
              AnswersAtOnce(env, s, p, Done(Ok(Snapshot(h, |s.history| - 1))))
            else AnswersAtOnce(env, s, p, Fail(PendingHandoffConflict))
    ensures h.metadata.pending[d.stream].operationId != d.operationId ==>
              AnswersAtOnce(env, s, p, Fail(PendingHandoffConflict))
  {
    hide AnswersAtOnce, Storable, SameIncarnations, HandoffError, PhaseId;
    var call := CallClaim(expected, d);
    AtOnce(env, s, p, call, h, AfterLoad(env, call, Snapshot(h, |s.history| - 1)));
  }

  /** A claim on a free stream commits when the caller's head is the current one, the handoff fits it
      and there is room; and writes exactly the one claim. */
  lemma ClaimCommits(env: Env, s: System, p: nat, expected: Snapshot, d: Descriptor, h: Head)
    requires Calls(env, s, p, CallClaim(expected, d), h)
    requires ValidDescriptor(d, d.stream) && d.stage == Prepared && d.stream !in h.metadata.pending
    requires expected.head == h && HandoffError(env, h.metadata, d, false) == None
    requires CanFollow(env, h, WithClaim(h.metadata, d), PhaseId(env, d.operationId, d.stream, "claim"))
    ensures Commits(env, s, p, Successor(env, h, h.metadata.(pending := h.metadata.pending[d.stream := d]),
                                         PhaseId(env, d.operationId, d.stream, "claim")), Claimed(d.stream))
  {
    hide Commits, Storable, ValidDescriptor, HandoffError, PhaseId, CanFollow, Submit, Successor;
    var key := PhaseId(env, d.operationId, d.stream, "claim");
    FreshKey(env, h, WithClaim(h.metadata, d), key);
    CommitsIn(env, s, p, CallClaim(expected, d), h, WithClaim(h.metadata, d), key, Claimed(d.stream), Report);
  }

  /** Why a claim on a free stream is refused, first reason first. */
  lemma ClaimRefused(env: Env, s: System, p: nat, expected: Snapshot, d: Descriptor, h: Head)
    requires Calls(env, s, p, CallClaim(expected, d), h)
    ensures !ValidDescriptor(d, d.stream) || d.stage != Prepared ==> AnswersAtOnce(env, s, p, Fail(Invalid))
    ensures ValidDescriptor(d, d.stream) && d.stage == Prepared && d.stream !in h.metadata.pending ==>
              if PhaseId(env, d.operationId, d.stream, "claim") in h.completed then
                AnswersAtOnce(env, s, p, Fail(OperationConflict))
              else if expected.head.sourceMarker != h.sourceMarker then AnswersAtOnce(env, s, p, Fail(SourceMarkerMismatch))
              else if expected.head != h then AnswersAtOnce(env, s, p, Fail(Precondition))
              else HandoffError(env, h.metadata, d, false).Some? ==>
                     AnswersAtOnce(env, s, p, Fail(HandoffError(env, h.metadata, d, false).value))
  {
    hide AnswersAtOnce, Storable, ValidDescriptor, HandoffError, PhaseId, Submit, ImmutableEq;
    var call := CallClaim(expected, d);
    AtOnce(env, s, p, call, h, AfterLoad(env, call, Snapshot(h, |s.history| - 1)));
  }

  // ------------------------------------------------------------------------ advancing

  /** An advance of the stream's own claim to a later stage commits when the caller's head is the
      current one, the handoff fits it and there is room; and changes exactly the one claim. */
  lemma AdvanceCommits(env: Env, s: System, p: nat, expected: Snapshot, d: Descriptor, h: Head)
    requires Calls(env, s, p, CallAdvance(expected, d), h)
    requires ValidDescriptor(d, d.stream) && d.stream in h.metadata.pending && expected.head == h
    requires ImmutableEq(h.metadata.pending[d.stream], d) && h.metadata.pending[d.stream].stage.Rank() < d.stage.Rank()
    requires HandoffError(env, h.metadata, d, true) == None
    requires CanFollow(env, h, WithClaim(h.metadata, d), StagePhaseId(env, d))
    ensures Commits(env, s, p, Successor(env, h, h.metadata.(pending := h.metadata.pending[d.stream := d]),
                                         StagePhaseId(env, d)), Advanced(d.stream))
  {
    hide Commits, Storable, ValidDescriptor, HandoffError, StagePhaseId, CanFollow, Submit, Successor;
    CommitsIn(env, s, p, CallAdvance(expected, d), h, WithClaim(h.metadata, d), StagePhaseId(env, d), Advanced(d.stream),
              RebaseTo(d, StagePhaseId(env, d), h.metadata.pending[d.stream]));
  }

  /** How an advance is answered when the stream's claim is gone, another's, or already as far. */
  lemma AdvanceAnswered(env: Env, s: System, p: nat, expected: Snapshot, d: Descriptor, h: Head)
    requires Calls(env, s, p, CallAdvance(expected, d), h)
    ensures !ValidDescriptor(d, d.stream) || d.stage == Prepared ==> AnswersAtOnce(env, s, p, Fail(Invalid))
    ensures ValidDescriptor(d, d.stream) && d.stage != Prepared ==>
              var here := Done(Ok(Snapshot(h, |s.history| - 1)));
              var receipt := StagePhaseId(env, d) in h.completed;
              if d.stream !in h.metadata.pending then AnswersAtOnce(env, s, p, if receipt then here else Fail(Precondition))
              else
                var claim := h.metadata.pending[d.stream];
                if claim.operationId != d.operationId then AnswersAtOnce(env, s, p, Fail(PendingHandoffConflict))
                else if !ImmutableEq(claim, d) then AnswersAtOnce(env, s, p, Fail(OperationConflict))
                else if claim.stage.Rank() < d.stage.Rank() then
                  && (expected.head.sourceMarker != h.sourceMarker ==> AnswersAtOnce(env, s, p, Fail(SourceMarkerMismatch)))
                  && (expected.head == h && HandoffError(env, h.metadata, d, true).Some? ==>
                        AnswersAtOnce(env, s, p, Fail(HandoffError(env, h.metadata, d, true).value)))
                else
                  var same := d.archivedLsn == claim.archivedLsn && d.successor == claim.successor
                              && (d.successorPlacement.None? || d.successorPlacement == claim.successorPlacement);
                  AnswersAtOnce(env, s, p,
                                if same && receipt then here
                                else if d.stage.Rank() == claim.stage.Rank() then Fail(OperationConflict)
                                else Fail(Precondition))
  {
    hide AnswersAtOnce, Storable, ValidDescriptor, HandoffError, StagePhaseId, Submit, ImmutableEq;
    var call := CallAdvance(expected, d);
    AtOnce(env, s, p, call, h, AfterLoad(env, call, Snapshot(h, |s.history| - 1)));
    if d.stream in h.metadata.pending {
      RanksDiffer(h.metadata.pending[d.stream].stage, d.stage);
    }
  }

  lemma RanksDiffer(a: Stage, b: Stage)
    ensures a.Rank() == b.Rank() <==> a == b
  {
  }

  // ------------------------------------------------------------- publishing and completing

  /** A publication commits when the caller's head is the current one, its metadata carries the claim at
      its last stage and its route, and there is room; and writes exactly that metadata. */
  lemma PublishCommits(env: Env, s: System, p: nat, expected: Snapshot, m: ControlMetadata, d: Descriptor, h: Head)
    requires Calls(env, s, p, CallPublish(expected, m, d), h)
    requires ValidDescriptor(d, d.stream) && d.stage == RoutePublished && expected.head == h
    requires d.stream in m.pending && m.pending[d.stream] == d && d.stream in h.metadata.pending
    requires ImmutableEq(h.metadata.pending[d.stream], d) && h.metadata.pending[d.stream].stage == ArchiveVerified
    requires HandoffError(env, m, d, true) == None && CanFollow(env, h, m, StagePhaseId(env, d))
    ensures Commits(env, s, p, Successor(env, h, m, StagePhaseId(env, d)), Published(d.stream))
  {
    hide Commits, Storable, ValidDescriptor, HandoffError, StagePhaseId, CanFollow, Submit, Successor;
    CommitsIn(env, s, p, CallPublish(expected, m, d), h, m, StagePhaseId(env, d), Published(d.stream), Report);
  }

  /** How a publication is answered otherwise, first reason first. */
  lemma PublishAnswered(env: Env, s: System, p: nat, expected: Snapshot, m: ControlMetadata, d: Descriptor, h: Head)
    requires Calls(env, s, p, CallPublish(expected, m, d), h)
    ensures if !ValidDescriptor(d, d.stream) || d.stage != RoutePublished then AnswersAtOnce(env, s, p, Fail(Invalid))
            else if !(d.stream in m.pending && m.pending[d.stream] == d) || d.stream !in h.metadata.pending then
              AnswersAtOnce(env, s, p, Fail(Precondition))
            else
              var claim := h.metadata.pending[d.stream];
              if claim.operationId != d.operationId then AnswersAtOnce(env, s, p, Fail(PendingHandoffConflict))
              else if claim == d && StagePhaseId(env, d) in h.completed then
                AnswersAtOnce(env, s, p, Done(Ok(Snapshot(h, |s.history| - 1))))
              else if !(ImmutableEq(claim, d) && claim.stage == ArchiveVerified) then
                AnswersAtOnce(env, s, p, Fail(Precondition))
              else if expected.head.sourceMarker != h.sourceMarker then AnswersAtOnce(env, s, p, Fail(SourceMarkerMismatch))
              else if expected.head != h then AnswersAtOnce(env, s, p, Fail(Precondition))
              else HandoffError(env, m, d, true).Some? ==>
                     AnswersAtOnce(env, s, p, Fail(HandoffError(env, m, d, true).value))
  {
    hide AnswersAtOnce, Storable, ValidDescriptor, HandoffError, StagePhaseId, Submit, ImmutableEq;
    var call := CallPublish(expected, m, d);
    AtOnce(env, s, p, call, h, AfterLoad(env, call, Snapshot(h, |s.history| - 1)));
  }

  /** A completion of the stream's own published claim commits when the caller's head is the current
      one, the route is in place and there is room; and removes exactly that claim. */
  lemma CompleteCommits(env: Env, s: System, p: nat, expected: Snapshot, stream: string, op: string, h: Head)
    requires Calls(env, s, p, CallComplete(expected, stream, op), h)
    requires !Blank(op) && !Blank(stream) && stream in h.metadata.pending && expected.head == h
    requires h.metadata.pending[stream].operationId == op && h.metadata.pending[stream].stage == RoutePublished
    requires HandoffError(env, h.metadata, h.metadata.pending[stream], true) == None
    requires CanFollow(env, h, h.metadata.(pending := h.metadata.pending - {stream}), PhaseId(env, op, stream, "complete"))
    ensures Commits(env, s, p, Successor(env, h, h.metadata.(pending := h.metadata.pending - {stream}),
                                         PhaseId(env, op, stream, "complete")), Completed(stream))
  {
    hide Commits, Storable, HandoffError, PhaseId, CanFollow, Submit, Successor, Blank;
    CommitsIn(env, s, p, CallComplete(expected, stream, op), h, h.metadata.(pending := h.metadata.pending - {stream}),
              PhaseId(env, op, stream, "complete"), Completed(stream), Report);
  }

  /** How a completion is answered otherwise, first reason first. */
  lemma CompleteAnswered(env: Env, s: System, p: nat, expected: Snapshot, stream: string, op: string, h: Head)
    requires Calls(env, s, p, CallComplete(expected, stream, op), h)
    ensures if Blank(op) || Blank(stream) then AnswersAtOnce(env, s, p, Fail(Invalid))
            else if stream !in h.metadata.pending then
              AnswersAtOnce(env, s, p, if PhaseId(env, op, stream, "complete") in h.completed
                                       then Done(Ok(Snapshot(h, |s.history| - 1))) else Fail(Precondition))
            else
              var claim := h.metadata.pending[stream];
              if claim.operationId != op then AnswersAtOnce(env, s, p, Fail(PendingHandoffConflict))
              else if claim.stage != RoutePublished then AnswersAtOnce(env, s, p, Fail(Precondition))
              else if expected.head.sourceMarker != h.sourceMarker then AnswersAtOnce(env, s, p, Fail(SourceMarkerMismatch))
              else if expected.head != h then AnswersAtOnce(env, s, p, Fail(Precondition))
              else HandoffError(env, h.metadata, claim, true).Some? ==>
                     AnswersAtOnce(env, s, p, Fail(HandoffError(env, h.metadata, claim, true).value))
  {
    hide AnswersAtOnce, Storable, HandoffError, PhaseId, Submit, Blank;
    var call := CallComplete(expected, stream, op);
    AtOnce(env, s, p, call, h, AfterLoad(env, call, Snapshot(h, |s.history| - 1)));
  }

  // ------------------------------------------------------------- creating and updating

  /** Creating writes the head where there is none; where there is one, the call succeeds exactly when
      that head carries the receipt of this very write, and changes nothing. */
  lemma CreateAnswered(env: Env, s: System, p: nat, head: Head)
    requires p in s.procs && s.procs[p] == CallCreate(head)
    ensures !Storable(env, head) ==> AnswersAtOnce(env, s, p, Fail(Invalid))
    ensures Storable(env, head) && s.history == [] ==>
              RunAlone(env, s, p, 1) == System([Written(head, Created)], s.procs[p := Done(Ok(Snapshot(head, 0)))])
    ensures Storable(env, head) && s.history != [] && Storable(env, s.history[|s.history| - 1].head) ==>
              var h := s.history[|s.history| - 1].head;
              RunAlone(env, s, p, 2)
              == System(s.history, s.procs[p :=
                   if head.operationId !in h.completed then Fail(AlreadyExists)
                   else if h.completed[head.operationId] == Receipt(head.authorityEpoch, head.revision, head.metadataDigest)
                   then Done(Ok(Snapshot(h, |s.history| - 1)))
                   else Fail(OperationConflict)])
  {
    hide Storable, AfterUpdateLoad, AfterClaimLoad, AfterAdvanceLoad, AfterRebaseLoad, AfterPublishLoad, AfterCompleteLoad;
    AloneIsTurns(env, s, p, 1);
    AloneIsTurns(env, s, p, 2);
    assert Turns(env, s.history, s.procs[p], 1) == Turn(env, s.history, s.procs[p]);
  }

  /** The metadata of an update with the claims it leaves out. */
  function WithClaimsOf(next: Head, h: Head): ControlMetadata {
    next.metadata.(pending := next.metadata.pending + h.metadata.pending)
  }

  /** The head an update writes over `h`. */
  function Overwriting(env: Env, next: Head, h: Head): Head {
    var digest := env.metadataDigest(WithClaimsOf(next, h));
    next.(metadata := WithClaimsOf(next, h), metadataDigest := digest,
          completed := (next.completed + h.completed)
                       [next.operationId := Receipt(next.authorityEpoch, next.revision, digest)])
  }

  /** Some key stands for different things in the two maps. */
  ghost predicate Disagree<V>(a: map<string, V>, b: map<string, V>) {
    exists k :: k in a && k in b && a[k] != b[k]
  }

  predicate Marks(marker: SourceMarker, h: Head) {
    marker.authorityEpoch == h.authorityEpoch && marker.revision == h.revision && marker.digest == h.metadataDigest
  }

  /** The marker an update may carry: its own authority's, or that of the head it succeeds. */
  predicate MarkerFollows(next: Head, h: Head) {
    && (next.authorityEpoch == h.authorityEpoch ==> next.sourceMarker == h.sourceMarker)
    && (next.authorityEpoch == SatAdd(h.authorityEpoch, 1) ==> Marks(next.sourceMarker, h))
  }

  lemma TransitionIs(h: Head, next: Head)
    ensures TransitionError(h, next)
            == if next.revision != SatAdd(h.revision, 1) then Some(Precondition)
               else if next.authorityEpoch !in {h.authorityEpoch, SatAdd(h.authorityEpoch, 1)} then Some(Precondition)
               else if !MarkerFollows(next, h) then Some(SourceMarkerMismatch)
               else None
  {
  }

  lemma PreservedIs(env: Env, next: Head, h: Head)
    requires next.operationId !in h.completed
    ensures var kept := Preserve(env, next, h);
            && kept.operationId == next.operationId
            && OwnReceipt(kept) == Receipt(next.authorityEpoch, next.revision, env.metadataDigest(WithClaimsOf(next, h)))
            && TransitionError(h, kept) == TransitionError(h, next)
            && MergeReceipts(kept, h)
               == if Disagree(next.completed, h.completed) then None else Some(Overwriting(env, next, h))
  {
    var kept := Preserve(env, next, h);
    assert (kept.completed + h.completed)[next.operationId := OwnReceipt(kept)]
        == (next.completed + h.completed)[next.operationId := OwnReceipt(kept)];
    forall k | k in h.completed ensures k in kept.completed <==> k in next.completed {
    }
    assert forall k :: k in h.completed && k in next.completed ==> kept.completed[k] == next.completed[k];
  }

  /** How an update is answered at once, first reason first: in all cases but the last. */
  lemma UpdateAnswered(env: Env, s: System, p: nat, expected: Snapshot, next: Head, h: Head)
    requires Calls(env, s, p, UpdateInner(expected, next, true, Updated, Report), h)
    ensures if Disagree(next.metadata.pending, h.metadata.pending) then AnswersAtOnce(env, s, p, Fail(PendingHandoffConflict))
            else if next.operationId in h.completed then
              AnswersAtOnce(env, s, p,
                            if h.completed[next.operationId]
                               == Receipt(next.authorityEpoch, next.revision, env.metadataDigest(WithClaimsOf(next, h)))
                            then Done(Ok(Snapshot(h, |s.history| - 1)))
                            else Fail(OperationConflict))
            else if expected.head.sourceMarker != h.sourceMarker then AnswersAtOnce(env, s, p, Fail(SourceMarkerMismatch))
            else if expected.head != h || next.revision != SatAdd(h.revision, 1)
                    || next.authorityEpoch !in {h.authorityEpoch, SatAdd(h.authorityEpoch, 1)} then
              AnswersAtOnce(env, s, p, Fail(Precondition))
            else if !MarkerFollows(next, h) then AnswersAtOnce(env, s, p, Fail(SourceMarkerMismatch))
            else if Disagree(next.completed, h.completed) then AnswersAtOnce(env, s, p, Fail(OperationConflict))
            else !Storable(env, Overwriting(env, next, h)) ==> AnswersAtOnce(env, s, p, Fail(Invalid))
  {
    hide AnswersAtOnce, Storable, Overwriting, MarkerFollows, TransitionError, MergeReceipts, Preserve;
    var call := UpdateInner(expected, next, true, Updated, Report);
    AtOnce(env, s, p, call, h, AfterLoad(env, call, Snapshot(h, |s.history| - 1)));
    TransitionIs(h, next);
    PreservedReceipt(env, next, h);
    if next.operationId !in h.completed {
      PreservedIs(env, next, h);
    }
  }

  lemma PreservedReceipt(env: Env, next: Head, h: Head)
    ensures var kept := Preserve(env, next, h);
            && kept.operationId == next.operationId
            && OwnReceipt(kept) == Receipt(next.authorityEpoch, next.revision, env.metadataDigest(WithClaimsOf(next, h)))
  {
  }

  /** An update on the current head that contradicts none of its claims and receipts, and follows it,
      commits: its metadata, with every claim and every receipt of the head it replaces. */
  lemma UpdateCommits(env: Env, s: System, p: nat, expected: Snapshot, next: Head, h: Head)
    requires Calls(env, s, p, UpdateInner(expected, next, true, Updated, Report), h)
    requires expected == Snapshot(h, |s.history| - 1)
    requires !Disagree(next.metadata.pending, h.metadata.pending) && next.operationId !in h.completed
    requires next.revision == SatAdd(h.revision, 1) && MarkerFollows(next, h)
    requires next.authorityEpoch in {h.authorityEpoch, SatAdd(h.authorityEpoch, 1)}
    requires !Disagree(next.completed, h.completed) && Storable(env, Overwriting(env, next, h))
    ensures var written := Overwriting(env, next, h);
            RunAlone(env, s, p, 2)
            == System(s.history + [Written(written, Updated)], s.procs[p := Done(Ok(Snapshot(written, |s.history|)))])
  {
    hide Storable, Overwriting, MarkerFollows, TransitionError, MergeReceipts, Preserve, AfterClaimLoad, AfterAdvanceLoad,
         AfterRebaseLoad, AfterPublishLoad, AfterCompleteLoad, AfterReceiptLoad;
    TransitionIs(h, next);
    PreservedIs(env, next, h);
    AloneIsTurns(env, s, p, 2);
    assert Turns(env, s.history, s.procs[p], 1) == Turn(env, s.history, s.procs[p]);
  }

  /** A put that lost: the call still succeeds exactly when the head it finds carries its receipt. */
  lemma LostPutAnswered(env: Env, s: System, p: nat, next: Head, version: nat, kind: Kind, h: Head)
    requires Calls(env, s, p, Put(next, version, kind, Report), h) && version + 1 != |s.history|
    ensures RunAlone(env, s, p, 2)
            == System(s.history, s.procs[p :=
                 if next.operationId in h.completed
                    && h.completed[next.operationId] == Receipt(next.authorityEpoch, next.revision, next.metadataDigest)
                 then Done(Ok(Snapshot(h, |s.history| - 1)))
                 else Fail(Precondition)])
  {
    hide Storable, AfterUpdateLoad, AfterClaimLoad, AfterAdvanceLoad, AfterRebaseLoad, AfterPublishLoad, AfterCompleteLoad;
    AloneIsTurns(env, s, p, 2);
    assert Turns(env, s.history, s.procs[p], 1) == Turn(env, s.history, s.procs[p]);
  }
}
