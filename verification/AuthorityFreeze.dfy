/** Durable freezes, their certificates, and why every migration builds the same first head. */
module AuthorityFreeze {
  import opened Base
  import opened ControlTypes
  import Heads = ControlHead
  import opened Authority

  // ------------------------------------------------------------ freeze certificates

  /** `freeze_request`. */
  function FreezeRequest(env: Env, c: Certificate, operationId: string, quorum: nat): Result<MetadataFreeze> {
    if !ValidCertificate(env, c, quorum) || Blank(operationId) || c.source.authorityEpoch == U64_MAX then Err(Invalid)
    else Ok(MetadataFreeze(operationId, Marker(env, c.source), c.source.authorityEpoch + 1, c.source.controlCohortId))
  }

  /** The freeze is for exactly this certified source. */
  predicate FreezesSource(env: Env, f: MetadataFreeze, s: Source) {
    && s.authorityEpoch < U64_MAX
    && f.source == Marker(env, s) && f.controlCohortId == s.controlCohortId
    && f.targetAuthorityEpoch == s.authorityEpoch + 1
  }

  function AckOf(f: MetadataFreeze, memberId: string, digest: string): FreezeAck {
    FreezeAck(memberId, f.operationId, f.source, f.targetAuthorityEpoch, digest, f.controlCohortId)
  }

  /** An acknowledgement that counts: of this freeze, for this source, from a listed member. */
  predicate Counts(env: Env, f: MetadataFreeze, s: Source, ack: FreezeAck) {
    ack == AckOf(f, ack.memberId, env.metadataDigest(s.metadata)) && ack.memberId in s.controlMemberIds
  }

  function Senders(acks: seq<FreezeAck>): set<string> {
    set i | 0 <= i < |acks| :: acks[i].memberId
  }

  /** Every acknowledgement counts and no member sends two. */
  predicate AllCount(env: Env, f: MetadataFreeze, s: Source, acks: seq<FreezeAck>) {
    && (forall i :: 0 <= i < |acks| ==> Counts(env, f, s, acks[i]))
    && (forall i, j | 0 <= i < j < |acks| :: acks[i].memberId != acks[j].memberId)
  }

  /** `FrozenSourceQuorum::validate`. */
  predicate ValidFrozen(env: Env, z: FrozenSource) {
    && ValidCertificate(env, z.certificate, z.quorum)
    && !Blank(z.freeze.operationId)
    && FreezesSource(env, z.freeze, z.certificate.source)
    && z.quorum <= |z.acknowledged|
    && (forall id :: id in z.acknowledged ==> id in z.certificate.source.controlMemberIds)
  }

  lemma SendersGrow(acks: seq<FreezeAck>, i: nat)
    requires i < |acks|
    ensures Senders(acks[..i + 1]) == Senders(acks[..i]) + {acks[i].memberId}
  {
    var before, after := acks[..i], acks[..i + 1];
    assert after[i] == acks[i];
    forall id | id in Senders(before)
      ensures id in Senders(after)
    {
      var j :| 0 <= j < |before| && before[j].memberId == id;
      assert after[j] == before[j];
    }
  }

  /** The acknowledgement loop: `None` when one of them does not count or repeats a member. */
  method CollectAcks(env: Env, f: MetadataFreeze, s: Source, acks: seq<FreezeAck>) returns (r: Option<set<string>>)
    ensures r.Some? <==> AllCount(env, f, s, acks)
    ensures r.Some? ==> r.value == Senders(acks)
  {
    hide Counts;
    var seen: set<string> := {};
    var i := 0;
    while i < |acks|
      invariant 0 <= i <= |acks|
      invariant AllCount(env, f, s, acks[..i]) && seen == Senders(acks[..i])
    {
      assert acks[..i + 1] == acks[..i] + [acks[i]];
      if !Counts(env, f, s, acks[i]) {
        return None;
      }
      if acks[i].memberId in seen {
        assert exists j :: 0 <= j < i && acks[..i][j].memberId == acks[i].memberId;
        return None;
      }
      assert forall j :: 0 <= j < i ==> acks[..i][j].memberId in Senders(acks[..i]);
      SendersGrow(acks, i);
      seen := seen + {acks[i].memberId};
      i := i + 1;
    }
    assert acks[..i] == acks;
    return Some(seen);
  }

  /** `certify_frozen_source`. */
  method CertifyFrozenSource(env: Env, c: Certificate, f: MetadataFreeze, acks: seq<FreezeAck>, quorum: nat)
    returns (r: Result<FrozenSource>)
    ensures r.Ok? <==> Frozen(env, c, f, acks, quorum)
    ensures r.Ok? ==> r.value == FrozenSource(c, f, Senders(acks), quorum) && ValidFrozen(env, r.value)
  {
    hide ValidCertificate, Counts;
    if !ValidCertificate(env, c, quorum) {
      return Err(Invalid);
    }
    if !FreezesSource(env, f, c.source) {
      return Err(FreezeMismatch);
    }
    if Blank(f.operationId) {
      return Err(Invalid);
    }
    var seen := CollectAcks(env, f, c.source, acks);
    if seen.None? {
      return Err(FreezeMismatch);
    }
    if |seen.value| < quorum {
      return Err(InsufficientQuorum);
    }
    SendersListed(env, f, c.source, acks);
    return Ok(FrozenSource(c, f, seen.value, quorum));
  }

  predicate Frozen(env: Env, c: Certificate, f: MetadataFreeze, acks: seq<FreezeAck>, quorum: nat) {
    && ValidCertificate(env, c, quorum) && FreezesSource(env, f, c.source) && !Blank(f.operationId)
    && AllCount(env, f, c.source, acks) && quorum <= |Senders(acks)|
  }

  lemma SendersListed(env: Env, f: MetadataFreeze, s: Source, acks: seq<FreezeAck>)
    requires AllCount(env, f, s, acks)
    ensures forall id :: id in Senders(acks) ==> id in s.controlMemberIds
  {
  }

  /** Some durable freeze already covers this source. */
  predicate Resumes(env: Env, s: Source, found: seq<Option<MetadataFreeze>>, f: MetadataFreeze) {
    Some(f) in found && FreezesSource(env, f, s)
  }

  /** How a migration picks its freeze: it resumes the durable freeze of the certified source if any
      member holds one, refuses when two differ, and otherwise requests a new one. */
  method ChooseFreeze(env: Env, c: Certificate, found: seq<Option<MetadataFreeze>>, operationId: string, quorum: nat)
    returns (r: Result<MetadataFreeze>)
    requires ValidCertificate(env, c, quorum)
    ensures r.Ok? ==> FreezesSource(env, r.value, c.source)
    ensures r.Ok? ==> forall f :: Resumes(env, c.source, found, f) ==> f == r.value
    ensures r.Ok? && (forall f :: !Resumes(env, c.source, found, f)) ==> r.value.operationId == operationId
    ensures r.Err? ==> || c.source.authorityEpoch == U64_MAX || Blank(operationId)
                       || exists f, g :: f != g && Resumes(env, c.source, found, f) && Resumes(env, c.source, found, g)
  {
    hide ValidCertificate, FreezesSource;
    var durable: Option<MetadataFreeze> := None;
    var i := 0;
    while i < |found|
      invariant 0 <= i <= |found|
      invariant durable.Some? ==> Resumes(env, c.source, found[..i], durable.value)
      invariant forall f :: Resumes(env, c.source, found[..i], f) ==> durable == Some(f)
    {
      assert found[..i + 1] == found[..i] + [found[i]];
      if found[i].Some? && FreezesSource(env, found[i].value, c.source) {
        if durable.Some? && durable != found[i] {
          assert Resumes(env, c.source, found, durable.value) && Resumes(env, c.source, found, found[i].value);
          return Err(Invalid);
        }
        durable := found[i];
      }
      i := i + 1;
    }
    assert found[..i] == found;
    if durable.Some? {
      return Ok(durable.value);
    }
    r := FreezeRequest(env, c, operationId, quorum);
    RequestFreezesSource(env, c, operationId, quorum);
  }

  lemma RequestFreezesSource(env: Env, c: Certificate, operationId: string, quorum: nat)
    requires ValidCertificate(env, c, quorum)
    ensures match FreezeRequest(env, c, operationId, quorum)
            case Ok(f) => FreezesSource(env, f, c.source) && f.operationId == operationId
            case Err(_) => c.source.authorityEpoch == U64_MAX || Blank(operationId)
  {
    hide ValidCertificate;
  }

  // ---------------------------------------------------------------------- heads

  /** `initial_head`. */
  function InitialHead(env: Env, z: FrozenSource, operationId: string): Option<ControlTypes.ControlHead> {
    var s := z.certificate.source;
    if !ValidFrozen(env, z) then None
    else
      var head := Heads.NewHead(env, z.freeze.targetAuthorityEpoch, s.revision, operationId, Marker(env, s), s.metadata);
      if ValidHead(env, head) then Some(head) else None
  }

  /** `next_head`. */
  function NextHead(env: Env, z: FrozenSource, current: ControlTypes.ControlHead, operationId: string)
    : Result<ControlTypes.ControlHead>
  {
    var s := z.certificate.source;
    if !ValidFrozen(env, z) then Err(Invalid)
    else if || current.metadataDigest != env.metadataDigest(s.metadata) || current.metadata != s.metadata
            || s.authorityEpoch != current.authorityEpoch || s.revision != current.revision
    then Err(SourceDoesNotMatchHead)
    else if current.authorityEpoch == U64_MAX || current.revision == U64_MAX then Err(Invalid)
    else
      var head := Heads.NewHead(env, SatAdd(current.authorityEpoch, 1), SatAdd(current.revision, 1), operationId, Marker(env, s),
                                s.metadata);
      if ValidHead(env, head) then Ok(head) else Err(Invalid)
  }

  // ------------------------------------------------------------ members and coordinators

  /** The part of a member's durable control state that freezing looks at. */
  datatype Member = Member(
    metadata: ControlMetadata, authorityEpoch: u64, headRevision: u64, headDigest: string, cohortId: u64,
    freeze: Option<MetadataFreeze>)

  /** All members, every acknowledgement ever sent, every freeze certificate ever built, and the
      first object-store head. */
  datatype System = System(
    members: map<string, Member>, acks: set<FreezeAck>, certified: seq<FrozenSource>,
    head: Option<ControlTypes.ControlHead>)

  datatype Action =
    | LegacyWrite(id: string, metadata: ControlMetadata, cohortId: u64)
    | Freeze(id: string, request: MetadataFreeze)
    | Adopt(id: string, head: ControlTypes.ControlHead)
    | Certify(certificate: Certificate, freeze: MetadataFreeze, received: seq<FreezeAck>)
    | Publish(k: nat)

  function SourceMarkerFor(env: Env, m: Member): Option<SourceMarker> {
    var digest := env.metadataDigest(m.metadata);
    var revision := if m.headRevision == 0 then Max(m.metadata.manifest.revision, 1) else m.headRevision;
    var marker := SourceMarker(LEGACY_CONTROL_AUTHORITY, Max(m.authorityEpoch, 1), revision, digest);
    if m.headDigest != "" && m.headDigest != digest then None
    else if ValidMarker(marker) then Some(marker) else None
  }

  /** `ensure_request_matches_state`. */
  predicate RequestMatches(env: Env, m: Member, f: MetadataFreeze) {
    && !Blank(f.operationId)
    && SourceMarkerFor(env, m) == Some(f.source)
    && f.controlCohortId == m.cohortId
    && Max(m.authorityEpoch, 1) < U64_MAX && f.targetAuthorityEpoch == Max(m.authorityEpoch, 1) + 1
    && m.cohortId in m.metadata.cohorts
    && |m.metadata.cohorts[m.cohortId].members| == REPLICATION_FACTOR
    && (forall id :: id in m.metadata.cohorts[m.cohortId].members ==> id in m.metadata.members)
  }

  /** `freeze_metadata_authority`: the member after the request, and its acknowledgement. */
  function FreezeMember(env: Env, m: Member, id: string, f: MetadataFreeze): (Member, Option<FreezeAck>) {
    if Blank(id) || !RequestMatches(env, m, f) || id !in m.metadata.cohorts[m.cohortId].members then (m, None)
    else if m.freeze.Some? && m.freeze.value != f then (m, None)
    else (m.(freeze := Some(f)), Some(AckOf(f, id, env.metadataDigest(m.metadata))))
  }

  /** `adopt_authoritative_head`, with the order check of the adoption behind it. */
  predicate Adoptable(m: Member, h: ControlTypes.ControlHead) {
    && (m.freeze.Some? ==>
          m.freeze.value.targetAuthorityEpoch <= h.authorityEpoch
          && h.sourceMarker.digest == m.freeze.value.source.digest)
    && (m.authorityEpoch < h.authorityEpoch
        || (m.authorityEpoch == h.authorityEpoch && m.headRevision <= h.revision))
  }

  function Step(env: Env, quorum: nat, s: System, a: Action): System {
    match a
    case LegacyWrite(id, metadata, cohortId) =>
      if id !in s.members || s.members[id].freeze.Some? || s.members[id].headRevision != 0 then s
      else s.(members := s.members[id := s.members[id].(metadata := metadata, cohortId := cohortId)])
    case Freeze(id, request) =>
      if id !in s.members then s
      else
        var (m, ack) := FreezeMember(env, s.members[id], id, request);
        s.(members := s.members[id := m], acks := s.acks + if ack.Some? then {ack.value} else {})
    case Adopt(id, h) =>
      if id !in s.members || !Adoptable(s.members[id], h) then s
      else s.(members := s.members[id := s.members[id].(metadata := h.metadata, authorityEpoch := h.authorityEpoch,
                                                       headRevision := h.revision, headDigest := h.metadataDigest)])
    case Certify(c, f, received) =>
      if (exists i :: 0 <= i < |received| && received[i] !in s.acks) || !Frozen(env, c, f, received, quorum) then s
      else s.(certified := s.certified + [FrozenSource(c, f, Senders(received), quorum)])
    case Publish(k) =>
      if |s.certified| <= k || s.head.Some? then s
      else s.(head := InitialHead(env, s.certified[k], s.certified[k].freeze.operationId))
  }

  function Exec(env: Env, quorum: nat, s: System, actions: seq<Action>): System {
    if actions == [] then s
    else Step(env, quorum, Exec(env, quorum, s, actions[..|actions| - 1]), actions[|actions| - 1])
  }

  /** Members that have not frozen anything, and no head. */
  predicate Fresh(s: System) {
    s.acks == {} && s.certified == [] && s.head == None && forall id :: id in s.members ==> s.members[id].freeze == None
  }

  // ------------------------------------------------------------------- invariant

  /** An acknowledgement is backed by the one freeze its sender durably holds. */
  predicate Backed(s: System, ack: FreezeAck) {
    && ack.memberId in s.members && s.members[ack.memberId].freeze.Some?
    && ack == AckOf(s.members[ack.memberId].freeze.value, ack.memberId, ack.metadataDigest)
  }

  predicate HoldsFreeze(s: System, id: string, f: MetadataFreeze) {
    id in s.members && s.members[id].freeze == Some(f)
  }

  predicate CertifiedOk(env: Env, quorum: nat, s: System, z: FrozenSource) {
    && ValidFrozen(env, z) && z.quorum == quorum
    && forall id :: id in z.acknowledged ==> HoldsFreeze(s, id, z.freeze)
  }

  predicate Inv(env: Env, quorum: nat, s: System) {
    && (forall ack :: ack in s.acks ==> Backed(s, ack))
    && (forall i :: 0 <= i < |s.certified| ==> CertifiedOk(env, quorum, s, s.certified[i]))
    && (s.head.Some? ==> exists k :: 0 <= k < |s.certified| && Builds(env, s.certified[k], s.head))
  }

  predicate Builds(env: Env, z: FrozenSource, head: Option<ControlTypes.ControlHead>) {
    head == InitialHead(env, z, z.freeze.operationId)
  }

  /** A durable freeze is never cleared or replaced. */
  lemma FreezesStay(env: Env, quorum: nat, s: System, a: Action, id: string, f: MetadataFreeze)
    requires HoldsFreeze(s, id, f)
    ensures HoldsFreeze(Step(env, quorum, s, a), id, f)
  {
    hide RequestMatches, Frozen, InitialHead, Adoptable;
  }

  lemma StepKeepsAcks(env: Env, quorum: nat, s: System, a: Action, ack: FreezeAck)
    requires Inv(env, quorum, s) && ack in Step(env, quorum, s, a).acks
    ensures Backed(Step(env, quorum, s, a), ack)
  {
    hide RequestMatches, Frozen, InitialHead, Adoptable, CertifiedOk;
    if ack in s.acks {
      FreezesStay(env, quorum, s, a, ack.memberId, s.members[ack.memberId].freeze.value);
    }
  }

  /** A certificate built from received acknowledgements is held by everyone it counts. */
  lemma CertifyHolds(env: Env, quorum: nat, s: System, c: Certificate, f: MetadataFreeze, received: seq<FreezeAck>)
    requires Inv(env, quorum, s) && Frozen(env, c, f, received, quorum)
    requires forall i :: 0 <= i < |received| ==> received[i] in s.acks
    ensures CertifiedOk(env, quorum, s, FrozenSource(c, f, Senders(received), quorum))
  {
    hide ValidCertificate, FreezesSource, InitialHead, CertifiedOk;
    SendersListed(env, f, c.source, received);
    forall id | id in Senders(received)
      ensures HoldsFreeze(s, id, f)
    {
      var i :| 0 <= i < |received| && received[i].memberId == id;
      assert Backed(s, received[i]) && Counts(env, f, c.source, received[i]);
    }
    assert CertifiedOk(env, quorum, s, FrozenSource(c, f, Senders(received), quorum)) by {
      CertifiedMeans(env, quorum, s, FrozenSource(c, f, Senders(received), quorum));
    }
  }

  lemma CertifiedMeans(env: Env, quorum: nat, s: System, z: FrozenSource)
    requires ValidFrozen(env, z) && z.quorum == quorum
    requires forall id :: id in z.acknowledged ==> HoldsFreeze(s, id, z.freeze)
    ensures CertifiedOk(env, quorum, s, z)
  {
  }

  lemma CertifiedStays(env: Env, quorum: nat, s: System, a: Action, z: FrozenSource)
    requires CertifiedOk(env, quorum, s, z)
    ensures CertifiedOk(env, quorum, Step(env, quorum, s, a), z)
  {
    hide Step, ValidFrozen, HoldsFreeze;
    forall id | id in z.acknowledged
      ensures HoldsFreeze(Step(env, quorum, s, a), id, z.freeze)
    {
      FreezesStay(env, quorum, s, a, id, z.freeze);
    }
  }

  lemma StepKeeps(env: Env, quorum: nat, s: System, a: Action)
    requires Inv(env, quorum, s)
    ensures Inv(env, quorum, Step(env, quorum, s, a))
  {
    hide CertifiedOk, Frozen, InitialHead, Backed, FreezeMember, Adoptable;
    var after := Step(env, quorum, s, a);
    forall ack | ack in after.acks
      ensures Backed(after, ack)
    {
      StepKeepsAcks(env, quorum, s, a, ack);
    }
    forall i | 0 <= i < |after.certified|
      ensures CertifiedOk(env, quorum, after, after.certified[i])
    {
      if i < |s.certified| {
        CertifiedStays(env, quorum, s, a, s.certified[i]);
      } else {
        CertifyHolds(env, quorum, s, a.certificate, a.freeze, a.received);
        CertifiedStays(env, quorum, s, a, after.certified[i]);
      }
    }
    if s.head.Some? {
      var k :| 0 <= k < |s.certified| && Builds(env, s.certified[k], s.head);
      assert after.certified[k] == s.certified[k];
    } else if after.head.Some? {
      assert Builds(env, after.certified[a.k], after.head);
    }
  }

  lemma {:induction false} ExecKeeps(env: Env, quorum: nat, s: System, actions: seq<Action>)
    requires Fresh(s)
    ensures Inv(env, quorum, Exec(env, quorum, s, actions))
  {
    hide Step;
    if actions != [] {
      var n := |actions| - 1;
      ExecKeeps(env, quorum, s, actions[..n]);
      StepKeeps(env, quorum, Exec(env, quorum, s, actions[..n]), actions[n]);
    }
  }

  // -------------------------------------------------------------------- theorems

  /** Two quorums of the same three members share a member when each is a majority. */
  lemma MajoritiesMeet(ids: seq<string>, a: set<string>, b: set<string>, quorum: nat)
    requires |ids| == 3 && 3 < 2 * quorum && quorum <= |a| && quorum <= |b|
    requires forall id :: id in a || id in b ==> id in ids
    ensures exists id :: id in a && id in b
  {
    var all := {ids[0], ids[1], ids[2]};
    assert a <= all && b <= all;
    if a !! b {
      assert |a + b| == |a| + |b|;
      CardinalityBound(a + b, all);
      CardinalityOfThree(ids[0], ids[1], ids[2]);
    }
  }

  lemma CardinalityOfThree(x: string, y: string, z: string)
    ensures |{x, y, z}| <= 3
  {
    assert |{x}| == 1 && {x, y} <= {x} + {y} && {x, y, z} == {x, y} + {z};
  }

  lemma {:induction false} CardinalityBound(a: set<string>, b: set<string>)
    requires a <= b
    ensures |a| <= |b|
  {
    if a != {} {
      var x :| x in a;
      CardinalityBound(a - {x}, b - {x});
    }
  }

  /** The digests of the two certified sources collide only if their metadata is the same. */
  predicate Apart(env: Env, x: FrozenSource, y: FrozenSource) {
    var a, b := x.certificate.source.metadata, y.certificate.source.metadata;
    env.metadataDigest(a) == env.metadataDigest(b) ==> a == b
  }

  /** In every run with a majority quorum, any two certified freezes of one control cohort are the
      same freeze; and, unless the digests of their metadata collide, of the same source, building
      the identical first head. */
  lemma CertifiedFreezesAgree(env: Env, quorum: nat, start: System, actions: seq<Action>, i: nat, j: nat)
    requires Fresh(start) && 3 < 2 * quorum
    requires var s := Exec(env, quorum, start, actions);
             && i < |s.certified| && j < |s.certified|
             && s.certified[i].certificate.source.controlMemberIds == s.certified[j].certificate.source.controlMemberIds
    ensures var s := Exec(env, quorum, start, actions);
            var x, y := s.certified[i], s.certified[j];
            && x.freeze == y.freeze
            && (Apart(env, x, y) ==>
                  && x.certificate.source == y.certificate.source
                  && InitialHead(env, x, x.freeze.operationId) == InitialHead(env, y, y.freeze.operationId))
  {
    hide ValidSourceHead, Exec;
    ExecKeeps(env, quorum, start, actions);
    var s := Exec(env, quorum, start, actions);
    var x, y := s.certified[i], s.certified[j];
    assert CertifiedOk(env, quorum, s, x) && CertifiedOk(env, quorum, s, y);
    MajoritiesMeet(x.certificate.source.controlMemberIds, x.acknowledged, y.acknowledged, quorum);
    var id :| id in x.acknowledged && id in y.acknowledged;
    assert HoldsFreeze(s, id, x.freeze) && HoldsFreeze(s, id, y.freeze);
  }

  /** So the first object-store head is the one every certified migration of that cohort would have
      published, whichever of them won. */
  lemma FirstHeadIsEveryones(env: Env, quorum: nat, start: System, actions: seq<Action>, cohort: seq<string>, j: nat)
    requires Fresh(start) && 3 < 2 * quorum
    requires var s := Exec(env, quorum, start, actions);
             && s.head.Some? && j < |s.certified|
             && forall k :: 0 <= k < |s.certified| ==>
                              && s.certified[k].certificate.source.controlMemberIds == cohort
                              && Apart(env, s.certified[k], s.certified[j])
    ensures var s := Exec(env, quorum, start, actions);
            s.head == InitialHead(env, s.certified[j], s.certified[j].freeze.operationId)
  {
    hide CertifiedOk, InitialHead, Exec, Apart;
    ExecKeeps(env, quorum, start, actions);
    var s := Exec(env, quorum, start, actions);
    var k :| 0 <= k < |s.certified| && Builds(env, s.certified[k], s.head);
    CertifiedFreezesAgree(env, quorum, start, actions, k, j);
  }

  /** A member that holds exactly the certified source and has frozen nothing. */
  function HolderOf(env: Env, s: Source): Member {
    Member(s.metadata, s.authorityEpoch, s.revision, env.metadataDigest(s.metadata), s.controlCohortId, None)
  }

  /** The first two members of the control cohort, both up to date. */
  function SplitStart(env: Env, s: Source): System
    requires 2 <= |s.controlMemberIds|
  {
    var holder := HolderOf(env, s);
    System(map[s.controlMemberIds[0] := holder, s.controlMemberIds[1] := holder], {}, [], None)
  }

  function FreezeOf(env: Env, s: Source, operationId: string): MetadataFreeze
    requires s.authorityEpoch < U64_MAX
  {
    MetadataFreeze(operationId, Marker(env, s), s.authorityEpoch + 1, s.controlCohortId)
  }

  /** Two migrations, each frozen by one member and certified from its acknowledgement. */
  function SplitRun(env: Env, c: Certificate, one: string, two: string): seq<Action>
    requires 2 <= |c.source.controlMemberIds| && c.source.authorityEpoch < U64_MAX
  {
    var digest, ids := env.metadataDigest(c.source.metadata), c.source.controlMemberIds;
    var f, g := FreezeOf(env, c.source, one), FreezeOf(env, c.source, two);
    [Freeze(ids[0], f), Freeze(ids[1], g),
     Certify(c, f, [AckOf(f, ids[0], digest)]), Certify(c, g, [AckOf(g, ids[1], digest)])]
  }

  lemma {:induction false} NotLessThanItself(a: string)
    ensures !StringLess(a, a)
  {
    if a != "" {
      NotLessThanItself(a[1..]);
    }
  }

  lemma SourceMembership(env: Env, s: Source)
    requires ValidSourceHead(env, s)
    ensures ValidMembership(s.metadata) && ValidMarker(Marker(env, s))
  {
    hide ValidMembership, ValidManifest, ValidReceipts, ValidRouting, ValidMarker, Blank, ByteLen;
  }

  lemma CohortMembers(m: ControlMetadata, cohort: u64)
    requires ValidMembership(m) && cohort in m.cohorts && 2 <= |m.cohorts[cohort].members|
    ensures var ids := m.cohorts[cohort].members;
            ids[0] != ids[1] && forall id :: id in ids ==> !Blank(id) && id in m.members
  {
    hide Blank, StringLess;
    var ids := m.cohorts[cohort].members;
    NotLessThanItself(ids[0]);
    assert StringLess(ids[0], ids[0 + 1]);
  }

  lemma CertifiedMembers(env: Env, c: Certificate, quorum: nat)
    requires ValidCertificate(env, c, quorum)
    ensures var s := c.source;
            && |s.controlMemberIds| == 3 && s.controlMemberIds[0] != s.controlMemberIds[1]
            && s.controlCohortId in s.metadata.cohorts
            && s.metadata.cohorts[s.controlCohortId].members == s.controlMemberIds
            && s.authorityEpoch != 0 && s.revision != 0 && ValidMarker(Marker(env, s))
            && (forall id :: id in s.controlMemberIds ==> !Blank(id) && id in s.metadata.members)
  {
    hide ValidSourceHead, ValidManifest, ValidMembership, ValidMarker, Blank;
    SourceMembership(env, c.source);
    CohortMembers(c.source.metadata, c.source.controlCohortId);
  }

  lemma HolderFreezes(env: Env, c: Certificate, quorum: nat, id: string, operationId: string)
    requires ValidCertificate(env, c, quorum) && id in c.source.controlMemberIds && !Blank(operationId)
    requires c.source.authority == LEGACY_CONTROL_AUTHORITY && c.source.authorityEpoch < U64_MAX
    ensures var f := FreezeOf(env, c.source, operationId);
            FreezeMember(env, HolderOf(env, c.source), id, f)
            == (HolderOf(env, c.source).(freeze := Some(f)), Some(AckOf(f, id, env.metadataDigest(c.source.metadata))))
  {
    hide ValidCertificate, ValidMarker, Blank;
    CertifiedMembers(env, c, quorum);
  }

  lemma StepFreezes(env: Env, quorum: nat, s: System, id: string, f: MetadataFreeze, m: Member, ack: FreezeAck)
    requires id in s.members && FreezeMember(env, s.members[id], id, f) == (m, Some(ack))
    ensures Step(env, quorum, s, Freeze(id, f)) == s.(members := s.members[id := m], acks := s.acks + {ack})
  {
    hide FreezeMember;
  }

  lemma StepCertifies(env: Env, quorum: nat, s: System, c: Certificate, f: MetadataFreeze, ack: FreezeAck)
    requires ack in s.acks && Frozen(env, c, f, [ack], quorum)
    ensures Step(env, quorum, s, Certify(c, f, [ack]))
            == s.(certified := s.certified + [FrozenSource(c, f, Senders([ack]), quorum)])
  {
    hide Frozen, Senders;
    assert forall i :: 0 <= i < |[ack]| ==> [ack][i] in s.acks;
  }

  lemma OneAckCertifies(env: Env, c: Certificate, quorum: nat, id: string, operationId: string)
    requires ValidCertificate(env, c, quorum) && 2 * quorum <= 3 && id in c.source.controlMemberIds
    requires c.source.authorityEpoch < U64_MAX && !Blank(operationId)
    ensures var f := FreezeOf(env, c.source, operationId);
            var acks := [AckOf(f, id, env.metadataDigest(c.source.metadata))];
            Frozen(env, c, f, acks, quorum) && Senders(acks) == {id}
  {
    hide ValidSourceHead, ValidManifest;
    OneSender(AckOf(FreezeOf(env, c.source, operationId), id, env.metadataDigest(c.source.metadata)));
  }

  /** A majority is exactly what it takes: with any smaller quorum there is a run from fresh members
      in which two migrations of one source are both certified, with different freezes. */
  lemma SmallQuorumSplits(env: Env, c: Certificate, one: string, two: string, quorum: nat)
    requires ValidCertificate(env, c, quorum) && 2 * quorum <= 3
    requires c.source.authority == LEGACY_CONTROL_AUTHORITY && c.source.authorityEpoch < U64_MAX
    requires !Blank(one) && !Blank(two) && one != two
    ensures 2 <= |c.source.controlMemberIds| && Fresh(SplitStart(env, c.source))
    ensures var s := Exec(env, quorum, SplitStart(env, c.source), SplitRun(env, c, one, two));
            var ids := c.source.controlMemberIds;
            && s.certified == [FrozenSource(c, FreezeOf(env, c.source, one), {ids[0]}, quorum),
                               FrozenSource(c, FreezeOf(env, c.source, two), {ids[1]}, quorum)]
            && s.certified[0].freeze != s.certified[1].freeze
  {
    hide ValidCertificate, Frozen, FreezeMember, Exec, Senders, Step, Blank, ValidMarker, AckOf;
    CertifiedMembers(env, c, quorum);
    var ids, digest := c.source.controlMemberIds, env.metadataDigest(c.source.metadata);
    var f, g := FreezeOf(env, c.source, one), FreezeOf(env, c.source, two);
    var x, y := AckOf(f, ids[0], digest), AckOf(g, ids[1], digest);
    HolderFreezes(env, c, quorum, ids[0], one);
    HolderFreezes(env, c, quorum, ids[1], two);
    OneAckCertifies(env, c, quorum, ids[0], one);
    OneAckCertifies(env, c, quorum, ids[1], two);
    var holder, s0 := HolderOf(env, c.source), SplitStart(env, c.source);
    StepFreezes(env, quorum, s0, ids[0], f, holder.(freeze := Some(f)), x);
    var s1 := Step(env, quorum, s0, Freeze(ids[0], f));
    StepFreezes(env, quorum, s1, ids[1], g, holder.(freeze := Some(g)), y);
    var s2 := Step(env, quorum, s1, Freeze(ids[1], g));
    StepCertifies(env, quorum, s2, c, f, x);
    var s3 := Step(env, quorum, s2, Certify(c, f, [x]));
    StepCertifies(env, quorum, s3, c, g, y);
    FourSteps(env, quorum, s0, SplitRun(env, c, one, two), s1, s2, s3, Step(env, quorum, s3, Certify(c, g, [y])));
  }

  lemma FourSteps(env: Env, quorum: nat, s0: System, run: seq<Action>, s1: System, s2: System, s3: System, s4: System)
    requires |run| == 4 && s1 == Step(env, quorum, s0, run[0]) && s2 == Step(env, quorum, s1, run[1])
    requires s3 == Step(env, quorum, s2, run[2]) && s4 == Step(env, quorum, s3, run[3])
    ensures Exec(env, quorum, s0, run) == s4
  {
    hide Step;
    assert run[..4] == run && run[..0] == [];
    assert run[..1][..0] == [] && run[..2][..1] == run[..1] && run[..3][..2] == run[..2] && run[..3] == run[..|run| - 1];
    assert Exec(env, quorum, s0, run[..1]) == s1;
    assert Exec(env, quorum, s0, run[..2]) == s2;
    assert Exec(env, quorum, s0, run[..3]) == s3;
  }

  lemma OneSender(ack: FreezeAck)
    ensures Senders([ack]) == {ack.memberId}
  {
    assert [ack][0] == ack;
  }

  /** The next head of an authority already in the object store follows the current one by one epoch
      and one revision, and its marker names that head exactly. */
  lemma NextHeadNamesCurrent(env: Env, z: FrozenSource, current: ControlTypes.ControlHead, operationId: string)
    requires NextHead(env, z, current, operationId).Ok?
    ensures var next := NextHead(env, z, current, operationId).value;
            && next.authorityEpoch == current.authorityEpoch + 1 && next.revision == current.revision + 1
            && next.metadata == current.metadata
            && (next.sourceMarker.authorityEpoch, next.sourceMarker.revision, next.sourceMarker.digest)
               == (current.authorityEpoch, current.revision, current.metadataDigest)
  {
    hide ValidFrozen, ValidHead;
  }
}
