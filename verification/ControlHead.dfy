/** What the control-head store decides from the heads it has read. */
module ControlHead {
  import opened Base
  import opened ControlTypes

  datatype Error =
    | Invalid
    | ObjectStore
    | AlreadyExists
    | Precondition
    | SourceMarkerMismatch
    | OperationConflict
    | PendingHandoffConflict

  /** `ControlHead::new` without its final validation. */
  function NewHead(env: Env, authorityEpoch: u64, revision: u64, operationId: string,
                   marker: SourceMarker, metadata: ControlMetadata): ControlTypes.ControlHead
  {
    var digest := env.metadataDigest(metadata);
    ControlTypes.ControlHead(
      CONTROL_HEAD_VERSION, authorityEpoch, revision, operationId,
      map[operationId := Receipt(authorityEpoch, revision, digest)], marker, digest, metadata)
  }

  /** `head_with_metadata`: `None` is the exhausted revision or an invalid result. */
  function HeadWithMetadata(env: Env, current: ControlTypes.ControlHead, metadata: ControlMetadata,
                            operationId: string): Option<ControlTypes.ControlHead>
  {
    if current.revision == U64_MAX then None
    else
      var head := NewHead(env, current.authorityEpoch, current.revision + 1, operationId,
                          current.sourceMarker, metadata);
      if ValidHead(env, head) then Some(head) else None
  }

  function OwnReceipt(h: ControlTypes.ControlHead): Receipt {
    Receipt(h.authorityEpoch, h.revision, h.metadataDigest)
  }

  /** `merge_completed_operations` without its final validation: the candidate keeps every
      published receipt and gets its own; a receipt that differs from a published one is refused. */
  function MergeReceipts(next: ControlTypes.ControlHead, current: ControlTypes.ControlHead)
    : Option<ControlTypes.ControlHead>
  {
    if !Agree(next.completed, current.completed) then None
    else
      Some(next.(completed := (next.completed + current.completed)[next.operationId := OwnReceipt(next)]))
  }

  predicate Agree<V(==)>(own: map<string, V>, published: map<string, V>) {
    forall k :: k in published && k in own ==> own[k] == published[k]
  }

  /** `preserve_pending_handoffs`, once the claims agree, and the digest refresh after it. */
  function Preserve(env: Env, next: ControlTypes.ControlHead, current: ControlTypes.ControlHead)
    : ControlTypes.ControlHead
  {
    var metadata := next.metadata.(pending := next.metadata.pending + current.metadata.pending);
    var digest := env.metadataDigest(metadata);
    var completed :=
      if next.operationId in next.completed then
        next.completed[next.operationId := next.completed[next.operationId].(metadataDigest := digest)]
      else next.completed;
    next.(metadata := metadata, metadataDigest := digest, completed := completed)
  }

  /** The loop shared by `merge_completed_operations` and `preserve_pending_handoffs`: entries of the
      published head that the candidate omits are copied in one by one, and the first that the
      candidate carries in another form stops it. */
  method CarryForward<V(==)>(own: map<string, V>, published: map<string, V>) returns (kept: Option<map<string, V>>)
    ensures kept == if Agree(own, published) then Some(own + published) else None
  {
    var entries := own;
    var left := published.Keys;
    while left != {}
      invariant left <= published.Keys
      invariant forall k :: k in entries <==> k in own || (k in published && k !in left)
      invariant forall k :: k in own ==> entries[k] == own[k]
      invariant forall k :: k in published && k !in left ==> entries[k] == published[k]
      decreases |left|
    {
      var k :| k in left;
      if k in entries {
        if entries[k] != published[k] {
          return None;
        }
      } else {
        entries := entries[k := published[k]];
      }
      left := left - {k};
    }
    assert entries == own + published;
    return Some(entries);
  }

  predicate ReceiptMatches(receipt: Receipt, head: ControlTypes.ControlHead) {
    receipt == OwnReceipt(head)
  }

  /** `validate_transition`; `None` is acceptance. */
  function TransitionError(current: ControlTypes.ControlHead, next: ControlTypes.ControlHead): Option<Error> {
    if next.revision != SatAdd(current.revision, 1) then Some(Precondition)
    else if next.authorityEpoch < current.authorityEpoch then Some(Precondition)
    else if next.authorityEpoch > current.authorityEpoch
            && next.authorityEpoch != SatAdd(current.authorityEpoch, 1) then Some(Precondition)
    else if next.authorityEpoch == current.authorityEpoch
            && next.sourceMarker != current.sourceMarker then Some(SourceMarkerMismatch)
    else if next.authorityEpoch == SatAdd(current.authorityEpoch, 1)
            && (next.sourceMarker.authorityEpoch != current.authorityEpoch
                || next.sourceMarker.revision != current.revision
                || next.sourceMarker.digest != current.metadataDigest) then Some(SourceMarkerMismatch)
    else None
  }

  /** `validate_expected`; `None` is acceptance. */
  function ExpectedError(expected: ControlTypes.ControlHead, current: ControlTypes.ControlHead): Option<Error> {
    if expected.sourceMarker != current.sourceMarker then Some(SourceMarkerMismatch)
    else if expected != current then Some(Precondition)
    else None
  }

  // ------------------------------------------- a claim against the metadata

  predicate SourceCohortAllows(status: CohortStatus, stage: Stage) {
    status in {CohortStatus.Active, CohortStatus.Draining}
    || (stage == RoutePublished && status == CohortStatus.Retired)
  }

  predicate SourceMemberAllows(cohort: CohortStatus, member: MemberStatus, stage: Stage) {
    if stage == RoutePublished && cohort == CohortStatus.Retired then member == MemberStatus.Removed
    else member in {MemberStatus.Active, MemberStatus.Draining}
  }

  predicate SourceReady(env: Env, m: ControlMetadata, d: Descriptor)
    requires d.source.cohortId in m.cohorts
  {
    var cohort := m.cohorts[d.source.cohortId];
    && cohort.members == d.source.memberIds
    && SourceCohortAllows(cohort.status, d.stage)
    && (forall id :: id in d.source.memberIds ==>
          && id in m.members
          && SourceMemberAllows(cohort.status, m.members[id].status, d.stage)
          && m.members[id].cohortId == d.source.cohortId)
    && |d.source.memberIds| == REPLICATION_FACTOR
    && MemberHash(env, seq(|d.source.memberIds|, i requires 0 <= i < |d.source.memberIds| =>
                             m.members[d.source.memberIds[i]])) == d.source.memberHash
  }

  predicate TargetReady(env: Env, m: ControlMetadata, d: Descriptor)
    requires d.targetCohortId in m.cohorts
  {
    var cohort := m.cohorts[d.targetCohortId];
    && cohort.members == MemberIds(d.targetMembers)
    && cohort.status in {CohortStatus.Joining, CohortStatus.Active}
    && cohort.tier == d.targetTier
    && cohort.maxAppendBytes == d.targetMaxAppendBytes
    && MemberHash(env, d.targetMembers) == d.targetMemberHash
    && (forall t :: t in d.targetMembers ==>
          && t.id in m.members && SameIncarnation(m.members[t.id], t)
          && m.members[t.id].status in {MemberStatus.Joining, MemberStatus.Active})
  }

  /** The first index at which `p` holds, or `|s|`. */
  function Position<T>(s: seq<T>, p: T -> bool): (i: nat)
    ensures i <= |s|
    ensures i < |s| ==> p(s[i])
    ensures forall j :: 0 <= j < i ==> !p(s[j])
  {
    if s == [] then 0 else if p(s[0]) then 0 else 1 + Position(s[1..], p)
  }

  /** The source range as it reads once it is closed at the archive watermark. */
  predicate ClosedSource(d: Descriptor, range: StreamSegment) {
    && range.startLsn == d.source.startLsn && range.cohortId == d.source.cohortId
    && range.memberIds == d.source.memberIds && range.memberHash == d.source.memberHash
    && range.writerEpoch == d.source.writerEpoch
    && range.placementEpoch == d.source.placementEpoch
    && range.endLsn == d.archivedLsn
  }

  predicate RouteReady(d: Descriptor, ranges: seq<StreamSegment>, allowPublished: bool) {
    if d.stage != RoutePublished then ranges != [] && ranges[|ranges| - 1] == d.source
    else
      && allowPublished
      && d.successor.Some?
      && var at := Position(ranges, (r: StreamSegment) => r == d.successor.value);
      && at < |ranges|
      && if d.archivedLsn.Some? && d.archivedLsn.value >= d.source.startLsn then
           Position(ranges, (r: StreamSegment) => ClosedSource(d, r)) + 1 == at
         else
           d.successor.value.startLsn == d.source.startLsn
  }

  /** `validate_handoff_against_metadata`; `None` is acceptance. */
  function HandoffError(env: Env, m: ControlMetadata, d: Descriptor, allowPublished: bool): Option<Error> {
    if d.source.cohortId !in m.cohorts then Some(Invalid)
    else if !SourceReady(env, m, d) then Some(Precondition)
    else if d.targetCohortId !in m.cohorts then Some(Invalid)
    else if !TargetReady(env, m, d) then Some(Precondition)
    else if d.stream !in m.manifest.streamSegments then Some(Precondition)
    else if !RouteReady(d, m.manifest.streamSegments[d.stream], allowPublished) then Some(Precondition)
    else None
  }
}
