/** The control head, what it holds, and when the store accepts it as a value. */
module ControlTypes {
  import opened Base

  const REPLICATION_FACTOR := 3
  const CONTROL_HEAD_VERSION := 1
  const MANIFEST_VERSION := 1
  const MAX_CONTROL_HEAD_BYTES := 32 * 1024 * 1024
  const MAX_OPERATION_ID_BYTES := 512
  const MAX_COMPLETED_OPERATIONS := 100_000
  const MAX_SOURCE_AUTHORITY_BYTES := 256
  const MAX_SOURCE_DIGEST_BYTES := 256
  const MAX_PENDING_HANDOFFS := 4096
  const MAX_STREAM_NAME_BYTES := 1024

  datatype MemberStatus = Joining | Active | Draining | Removed

  datatype CohortStatus = Joining | Active | Draining | Retired

  datatype DurableMember = DurableMember(
    id: string, url: string, status: MemberStatus, cohortId: u64, name: string,
    machineId: string, volumeId: string, ordinal: u64, tier: string, maxAppendBytes: u64)

  datatype DurableCohort = DurableCohort(
    id: u64, members: seq<string>, status: CohortStatus, tier: string, maxAppendBytes: u64)

  /** One immutable stream range; both ends are inclusive, and an open range has no end. */
  datatype StreamSegment = StreamSegment(
    startLsn: u64, endLsn: Option<u64>, cohortId: u64, memberIds: seq<string>, memberHash: string,
    writerEpoch: u64, manifestRevision: u64, placementEpoch: u64, operationId: string, tier: string,
    maxAppendBytes: u64)

  datatype ReplicaManifest = ReplicaManifest(
    version: u64, revision: u64, digest: string, writerEpoch: u64, cohortId: u64,
    memberSetHash: string, writeCohortId: u64, streamSegments: map<string, seq<StreamSegment>>,
    operationId: string, tier: string, maxAppendBytes: u64)

  datatype PlacementEpoch = PlacementEpoch(epoch: u64, routeDigest: string)

  datatype Stage = Prepared | SourceFenced | ArchiveVerified | RoutePublished {
    function Rank(): nat {
      match this
      case Prepared => 0
      case SourceFenced => 1
      case ArchiveVerified => 2
      case RoutePublished => 3
    }

    function Suffix(): string {
      match this
      case Prepared => "prepared"
      case SourceFenced => "source-fenced"
      case ArchiveVerified => "archive-verified"
      case RoutePublished => "route-published"
    }
  }

  /** A stream-local handoff claim. */
  datatype Descriptor = Descriptor(
    operationId: string, stream: string, source: StreamSegment, targetCohortId: u64,
    targetMembers: seq<DurableMember>, targetMemberHash: string, targetTier: string,
    targetMaxAppendBytes: u64, targetWriterEpoch: u64, transitionPlacement: PlacementEpoch,
    successorPlacementEpoch: u64, successorPlacement: Option<PlacementEpoch>, stage: Stage,
    archivedLsn: Option<u64>, successor: Option<StreamSegment>)

  type Claims = map<string, Descriptor>

  datatype ControlMetadata = ControlMetadata(
    membershipEpoch: u64, members: map<string, DurableMember>, cohorts: map<u64, DurableCohort>,
    manifest: ReplicaManifest, pending: Claims)

  datatype SourceMarker = SourceMarker(authority: string, authorityEpoch: u64, revision: u64, digest: string)

  datatype Receipt = Receipt(authorityEpoch: u64, revision: u64, metadataDigest: string)

  datatype ControlHead = ControlHead(
    version: u64, authorityEpoch: u64, revision: u64, operationId: string,
    completed: map<string, Receipt>, sourceMarker: SourceMarker, metadataDigest: string,
    metadata: ControlMetadata)

  /** What lies outside the model: the digests, and the encoded size of a head. */
  datatype Env = Env(
    memberHash: seq<(string, string)> -> string,
    manifestDigest: map<string, seq<StreamSegment>> -> string,
    metadataDigest: ControlMetadata -> string,
    phaseDigest: string -> string,
    headBytes: ControlHead -> nat)

  // ---------------------------------------------------------------- digests

  /** The member-set digest covers each member's id and URL, in order. */
  function MemberHash(env: Env, members: seq<DurableMember>): string {
    env.memberHash(seq(|members|, i requires 0 <= i < |members| => (members[i].id, members[i].url)))
  }

  function PhaseText(operationId: string, stream: string, phase: string): string {
    operationId + "\0" + stream + "\0" + phase
  }

  /** The receipt key of one phase of one stream's handoff. */
  function PhaseId(env: Env, operationId: string, stream: string, phase: string): string {
    "handoff:" + phase + ":" + env.phaseDigest(PhaseText(operationId, stream, phase))
  }

  // ------------------------------------------------------------- validation

  predicate ValidMarker(m: SourceMarker) {
    && !Blank(m.authority) && ByteLen(m.authority) <= MAX_SOURCE_AUTHORITY_BYTES
    && m.authorityEpoch != 0 && m.revision != 0
    && !Blank(m.digest) && ByteLen(m.digest) <= MAX_SOURCE_DIGEST_BYTES
  }

  predicate ValidPlacement(p: PlacementEpoch) {
    p.epoch != 0 && !Blank(p.routeDigest)
  }

  predicate ValidTarget(d: Descriptor) {
    && |d.targetMembers| == REPLICATION_FACTOR
    && !Blank(d.targetMemberHash)
    && StrictlySorted(MemberIds(d.targetMembers))
    && (forall m :: m in d.targetMembers ==>
          !Blank(m.id) && !Blank(m.url) && m.cohortId == d.targetCohortId)
  }

  function MemberIds(members: seq<DurableMember>): (ids: seq<string>)
    ensures |ids| == |members|
  {
    seq(|members|, i requires 0 <= i < |members| => members[i].id)
  }

  predicate ValidSource(d: Descriptor) {
    && d.source.startLsn != 0
    && d.source.endLsn == None
    && |d.source.memberIds| == REPLICATION_FACTOR
    && !Blank(d.source.memberHash)
    && StrictlySorted(d.source.memberIds)
    && d.source.cohortId != d.targetCohortId
    && d.targetWriterEpoch == d.source.writerEpoch
  }

  predicate ValidPlacements(d: Descriptor) {
    && ValidPlacement(d.transitionPlacement)
    && d.successorPlacementEpoch != 0
    && d.source.placementEpoch < d.transitionPlacement.epoch < d.successorPlacementEpoch
  }

  /** Archive watermark, successor placement and successor route appear together, from the
      archive-verified stage on, and then describe one route that starts past the watermark. */
  predicate ValidPhase(d: Descriptor) {
    if d.stage.Rank() < ArchiveVerified.Rank() then
      d.archivedLsn == None && d.successorPlacement == None && d.successor == None
    else
      && d.archivedLsn.Some? && d.successorPlacement.Some? && d.successor.Some?
      && var successor := d.successor.value;
      && successor.cohortId == d.targetCohortId
      && successor.memberIds == MemberIds(d.targetMembers)
      && successor.memberHash == d.targetMemberHash
      && successor.writerEpoch == d.targetWriterEpoch
      && successor.placementEpoch == d.successorPlacement.value.epoch
      && d.successorPlacement.value.epoch == d.successorPlacementEpoch
      && successor.startLsn == Max(SatAdd(d.archivedLsn.value, 1), d.source.startLsn)
      && successor.endLsn == None
  }

  predicate ValidDescriptor(d: Descriptor, key: string) {
    && key == d.stream
    && !Blank(d.operationId) && ByteLen(d.operationId) <= MAX_OPERATION_ID_BYTES
    && !Blank(d.stream) && ByteLen(d.stream) <= MAX_STREAM_NAME_BYTES
    && ValidTarget(d) && ValidSource(d) && ValidPlacements(d) && ValidPhase(d)
  }

  predicate Follows(a: StreamSegment, b: StreamSegment) {
    a.endLsn.Some? && b.startLsn == a.endLsn.value + 1
  }

  predicate ValidSegment(s: StreamSegment) {
    && (s.endLsn.Some? ==> s.startLsn <= s.endLsn.value < U64_MAX)
    && StrictlySorted(s.memberIds)
    && |s.memberIds| == REPLICATION_FACTOR
    && s.memberHash != "" && s.manifestRevision != 0 && !Blank(s.operationId)
  }

  /** `validate_stream_segments` for one stream: contiguous from LSN 1, only the last may be open. */
  predicate ValidRanges(ranges: seq<StreamSegment>) {
    && ranges != []
    && ranges[0].startLsn == 1
    && (forall i :: 0 <= i < |ranges| ==> ValidSegment(ranges[i]))
    && (forall i, j | 0 <= i < |ranges| && 0 <= j < |ranges| && j == i + 1 :: Follows(ranges[i], ranges[j]))
  }

  predicate ValidManifest(env: Env, m: ReplicaManifest) {
    && m.version == MANIFEST_VERSION
    && if m.revision == 0 then
         && m.operationId == "" && m.streamSegments == map[] && m.writerEpoch == 0
         && m.cohortId == 0 && m.memberSetHash == "" && m.writeCohortId == 0
         && m.tier == "" && m.maxAppendBytes == 0
       else
         && !Blank(m.operationId) && m.memberSetHash != ""
         && m.digest == env.manifestDigest(m.streamSegments)
         && (forall s :: s in m.streamSegments ==> !Blank(s) && ValidRanges(m.streamSegments[s]))
  }

  predicate ValidMembership(m: ControlMetadata) {
    && (forall id :: id in m.members ==> !Blank(id) && m.members[id].id == id)
    && (forall c :: c in m.cohorts ==>
          && m.cohorts[c].id == c && m.cohorts[c].members != []
          && StrictlySorted(m.cohorts[c].members)
          && (forall id :: id in m.cohorts[c].members ==> id in m.members && m.members[id].cohortId == c))
    && (forall id :: id in m.members ==>
          m.members[id].cohortId in m.cohorts && id in m.cohorts[m.members[id].cohortId].members)
  }

  predicate ValidRouting(m: ControlMetadata) {
    && (m.manifest.cohortId != 0 ==> m.manifest.cohortId in m.cohorts)
    && (forall s :: s in m.manifest.streamSegments ==>
          forall i :: 0 <= i < |m.manifest.streamSegments[s]| ==>
            var segment := m.manifest.streamSegments[s][i];
            && segment.cohortId in m.cohorts
            && (segment.memberIds != [] ==> segment.memberIds == m.cohorts[segment.cohortId].members))
  }

  predicate ValidMetadata(env: Env, m: ControlMetadata) {
    && m.membershipEpoch != 0
    && ValidManifest(env, m.manifest)
    && ValidMembership(m)
    && ValidRouting(m)
    && |m.pending| <= MAX_PENDING_HANDOFFS
    && (forall s :: s in m.pending ==> ValidDescriptor(m.pending[s], s))
  }

  predicate ValidReceipts(h: ControlHead) {
    && 0 < |h.completed| <= MAX_COMPLETED_OPERATIONS
    && h.operationId in h.completed
    && h.completed[h.operationId] == Receipt(h.authorityEpoch, h.revision, h.metadataDigest)
    && (forall op :: op in h.completed ==>
          && 0 < h.completed[op].authorityEpoch <= h.authorityEpoch
          && 0 < h.completed[op].revision <= h.revision
          && !Blank(h.completed[op].metadataDigest))
  }

  predicate ValidHead(env: Env, h: ControlHead) {
    && h.version == CONTROL_HEAD_VERSION
    && h.authorityEpoch != 0 && h.revision != 0
    && !Blank(h.operationId) && ByteLen(h.operationId) <= MAX_OPERATION_ID_BYTES
    && ValidReceipts(h)
    && ValidMarker(h.sourceMarker)
    && h.sourceMarker.authorityEpoch <= h.authorityEpoch
    && h.sourceMarker.revision <= h.revision
    && ValidMetadata(env, h.metadata)
    && h.metadataDigest == env.metadataDigest(h.metadata)
  }

  /** The store writes and reads only heads that are valid and within the size bound. */
  predicate Storable(env: Env, h: ControlHead) {
    ValidHead(env, h) && env.headBytes(h) <= MAX_CONTROL_HEAD_BYTES
  }

  // ------------------------------------------------------------- identities

  /** Everything but the status: the machine and volume behind a member id. */
  predicate SameIncarnation(a: DurableMember, b: DurableMember) {
    a.(status := b.status) == b
  }

  predicate SameIncarnations(a: seq<DurableMember>, b: seq<DurableMember>) {
    forall i :: 0 <= i < |a| && i < |b| ==> SameIncarnation(a[i], b[i])
  }

  /** What a claim fixes when it is first committed. */
  predicate SameClaim(a: Descriptor, b: Descriptor) {
    && a.operationId == b.operationId && a.stream == b.stream && a.source == b.source
    && a.targetCohortId == b.targetCohortId
    && SameIncarnations(a.targetMembers, b.targetMembers)
    && a.targetMemberHash == b.targetMemberHash
    && a.targetTier == b.targetTier
    && a.targetMaxAppendBytes == b.targetMaxAppendBytes
    && a.targetWriterEpoch == b.targetWriterEpoch
    && a.transitionPlacement == b.transitionPlacement
    && a.successorPlacementEpoch == b.successorPlacementEpoch
  }

  /** `PendingHandoffDescriptor::immutable_eq`: a successor, once chosen, is kept too. */
  predicate ImmutableEq(a: Descriptor, b: Descriptor) {
    && SameClaim(a, b)
    && (a.successorPlacement.Some? ==> b.successorPlacement == a.successorPlacement)
    && (a.successor.Some? ==> b.successor == a.successor)
  }
}
