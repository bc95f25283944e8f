/** Moving metadata authority from an old control cohort to the object store: certificates over a
    quorum of the old members, durable freezes, and the first head built from them. */
module Authority {
  import opened Base
  import opened ControlTypes
  import Heads = ControlHead

  const LEGACY_CONTROL_AUTHORITY := "legacy-control-quorum"
  const VALIDATION_OPERATION := "source-certificate-validation"

  datatype AuthorityError =
    | Invalid
    | InsufficientQuorum
    | FreezeMismatch
    | SourceDoesNotMatchHead

  datatype Result<+T> = Ok(value: T) | Err(error: AuthorityError)

  /** What one source response certifies, before anyone agrees with it. */
  datatype Source = Source(
    authority: string, authorityEpoch: u64, revision: u64, metadata: ControlMetadata,
    controlCohortId: u64, controlMemberIds: seq<string>)

  datatype Certificate = Certificate(source: Source, agreeing: set<string>)

  datatype MetadataFreeze = MetadataFreeze(
    operationId: string, source: SourceMarker, targetAuthorityEpoch: u64, controlCohortId: u64)

  datatype FreezeAck = FreezeAck(
    memberId: string, operationId: string, source: SourceMarker, targetAuthorityEpoch: u64,
    metadataDigest: string, controlCohortId: u64)

  datatype FrozenSource = FrozenSource(
    certificate: Certificate, freeze: MetadataFreeze, acknowledged: set<string>, quorum: nat)

  /** A member's reading of its own control state. */
  datatype Snapshot = Snapshot(
    members: seq<DurableMember>, cohorts: seq<DurableCohort>, manifest: Option<ReplicaManifest>,
    manifestRevision: u64, manifestDigest: string, writeCohortId: u64,
    streamSegments: map<string, seq<StreamSegment>>, membershipEpoch: u64, controlAuthorityEpoch: u64,
    controlHeadRevision: u64, controlHeadDigest: string, controlAuthorityCohortId: u64)

  datatype Response = Response(memberId: string, snapshot: Snapshot)

  // -------------------------------------------------------------- certificates

  function Marker(env: Env, s: Source): SourceMarker {
    SourceMarker(s.authority, s.authorityEpoch, s.revision, env.metadataDigest(s.metadata))
  }

  /** The single validation path: the source, taken as a head of its own, must be valid. */
  predicate ValidSourceHead(env: Env, s: Source) {
    && ValidMarker(Marker(env, s))
    && ValidHead(env, Heads.NewHead(env, s.authorityEpoch, s.revision, VALIDATION_OPERATION, Marker(env, s), s.metadata))
  }

  predicate ValidQuorum(required: nat, available: nat) {
    0 < required <= available
  }

  predicate ValidCertificate(env: Env, c: Certificate, quorum: nat) {
    var s := c.source;
    && ValidQuorum(quorum, |s.controlMemberIds|)
    && !Blank(s.authority) && s.authorityEpoch != 0 && s.revision != 0
    && s.controlCohortId in s.metadata.cohorts
    && s.metadata.cohorts[s.controlCohortId].members == s.controlMemberIds
    && |s.controlMemberIds| == REPLICATION_FACTOR
    && (s.metadata.cohorts[s.controlCohortId].status == CohortStatus.Active
        || s.metadata.cohorts[s.controlCohortId].status == CohortStatus.Draining)
    && quorum <= |c.agreeing| && (forall id :: id in c.agreeing ==> id in s.controlMemberIds)
    && ValidManifest(env, s.metadata.manifest)
    && ValidSourceHead(env, s)
  }

  /** The items by their ids; of two with one id, the later. */
  function Indexed<K(==), V>(items: seq<V>, id: V -> K): map<K, V> {
    if items == [] then map[]
    else
      var last := items[|items| - 1];
      Indexed(items[..|items| - 1], id)[id(last) := last]
  }

  function MemberId(m: DurableMember): string { m.id }

  function CohortId(c: DurableCohort): u64 { c.id }

  function MemberMap(members: seq<DurableMember>): map<string, DurableMember> {
    Indexed(members, MemberId)
  }

  function CohortMap(cohorts: seq<DurableCohort>): map<u64, DurableCohort> {
    Indexed(cohorts, CohortId)
  }

  predicate ManifestAgrees(m: ReplicaManifest, s: Snapshot) {
    && m.revision == s.manifestRevision
    && (0 < m.revision ==> m.digest == s.manifestDigest)
    && m.writeCohortId == s.writeCohortId
    && m.streamSegments == s.streamSegments
  }

  function SourceRevision(s: Snapshot): u64 {
    if 0 < s.controlHeadRevision then s.controlHeadRevision else Max(s.manifestRevision, 1)
  }

  predicate DigestAgrees(env: Env, s: Snapshot, m: ControlMetadata) {
    if 0 < s.controlHeadRevision then s.controlHeadDigest != "" && s.controlHeadDigest == env.metadataDigest(m)
    else s.controlHeadDigest == "" || s.controlHeadDigest == env.metadataDigest(m)
  }

  /** `candidate_from_snapshot`. Members are found by binary search in the source and by membership
      here: a valid head has them sorted, so the two refuse the same snapshots. */
  function Candidate(env: Env, authority: string, r: Response): Result<Source> {
    var s := r.snapshot;
    if |MemberMap(s.members)| != |s.members| || |CohortMap(s.cohorts)| != |s.cohorts| then Err(Invalid)
    else if s.manifest.None? || !ManifestAgrees(s.manifest.value, s) then Err(Invalid)
    else if !ValidManifest(env, s.manifest.value) then Err(Invalid)
    else
      var metadata := ControlMetadata(s.membershipEpoch, MemberMap(s.members), CohortMap(s.cohorts), s.manifest.value,
                                      map[]);
      if !DigestAgrees(env, s, metadata) || s.controlAuthorityCohortId !in metadata.cohorts then Err(Invalid)
      else
        var ids := metadata.cohorts[s.controlAuthorityCohortId].members;
        if |ids| != REPLICATION_FACTOR || (exists id :: id in ids && id !in metadata.members) then Err(Invalid)
        else if r.memberId !in ids then Err(Invalid)
        else
          var source := Source(authority, if s.controlAuthorityEpoch == 0 then 1 else s.controlAuthorityEpoch,
                               SourceRevision(s), metadata, s.controlAuthorityCohortId, ids);
          if ValidSourceHead(env, source) then Ok(source) else Err(Invalid)
  }

  /** The members whose responses certify exactly this source. */
  function Supporters(env: Env, authority: string, responses: seq<Response>, s: Source): set<string> {
    set i | 0 <= i < |responses| && Candidate(env, authority, responses[i]) == Ok(s) :: responses[i].memberId
  }

  /** Every response is usable, and no member answers twice for one source. */
  predicate Usable(env: Env, authority: string, responses: seq<Response>) {
    && (forall i :: 0 <= i < |responses| ==> Candidate(env, authority, responses[i]).Ok?)
    && (forall i, j | 0 <= i < j < |responses| ::
          Candidate(env, authority, responses[i]) == Candidate(env, authority, responses[j]) ==>
            responses[i].memberId != responses[j].memberId)
  }

  predicate Wins(env: Env, authority: string, responses: seq<Response>, quorum: nat, s: Source) {
    quorum <= |Supporters(env, authority, responses, s)|
  }

  type Groups = seq<Certificate>

  /** The candidates found so far, each with exactly the members that support it. */
  ghost predicate Grouped(env: Env, authority: string, responses: seq<Response>, groups: Groups) {
    && (forall g :: 0 <= g < |groups| ==>
          groups[g].agreeing == Supporters(env, authority, responses, groups[g].source))
    && (forall g, h | 0 <= g < h < |groups| :: groups[g].source != groups[h].source)
    && (forall i :: 0 <= i < |responses| && Candidate(env, authority, responses[i]).Ok? ==>
          exists g :: 0 <= g < |groups| && groups[g].source == Candidate(env, authority, responses[i]).value)
  }

  /** The group of a source, or the number of groups. */
  method FindGroup(groups: Groups, s: Source) returns (g: nat)
    ensures g <= |groups|
    ensures g < |groups| ==> groups[g].source == s
    ensures g == |groups| ==> forall h :: 0 <= h < |groups| ==> groups[h].source != s
  {
    g := 0;
    while g < |groups| && groups[g].source != s
      invariant g <= |groups|
      invariant forall h :: 0 <= h < g ==> groups[h].source != s
    {
      g := g + 1;
    }
  }

  lemma SupportersGrow(env: Env, authority: string, responses: seq<Response>, i: nat, s: Source)
    requires i < |responses|
    ensures Supporters(env, authority, responses[..i + 1], s)
            == Supporters(env, authority, responses[..i], s)
               + (if Candidate(env, authority, responses[i]) == Ok(s) then {responses[i].memberId} else {})
  {
    hide Candidate;
    var before, after := responses[..i], responses[..i + 1];
    assert after[i] == responses[i];
    assert forall j :: 0 <= j < i ==> after[j] == before[j];
    forall id | id in Supporters(env, authority, before, s)
      ensures id in Supporters(env, authority, after, s)
    {
      var j :| 0 <= j < |before| && Candidate(env, authority, before[j]) == Ok(s) && before[j].memberId == id;
      assert after[j] == before[j];
    }
  }

  /** What one more response makes of the groups. */
  ghost predicate Joined(before: Groups, after: Groups, g: nat, s: Source, id: string) {
    if g < |before| then before[g].source == s && after == before[g := Certificate(s, before[g].agreeing + {id})]
    else
      && (forall h :: 0 <= h < |before| ==> before[h].source != s)
      && after == before + [Certificate(s, {id})]
  }

  lemma JoinedIsGrouped(env: Env, authority: string, responses: seq<Response>, i: nat, before: Groups, after: Groups,
                        g: nat)
    requires i < |responses| && Grouped(env, authority, responses[..i], before)
    requires Candidate(env, authority, responses[i]).Ok?
    requires Joined(before, after, g, Candidate(env, authority, responses[i]).value, responses[i].memberId)
    ensures Grouped(env, authority, responses[..i + 1], after)
  {
    hide Candidate, Supporters;
    var s := Candidate(env, authority, responses[i]).value;
    var prefix, longer := responses[..i], responses[..i + 1];
    if |before| <= g {
      NobodyYet(env, authority, prefix, before, s);
    }
    forall h | 0 <= h < |after|
      ensures after[h].agreeing == Supporters(env, authority, longer, after[h].source)
    {
      SupportersGrow(env, authority, responses, i, after[h].source);
    }
    forall j | 0 <= j < |longer| && Candidate(env, authority, longer[j]).Ok?
      ensures exists h :: 0 <= h < |after| && after[h].source == Candidate(env, authority, longer[j]).value
    {
      if j < i {
        assert longer[j] == prefix[j];
        var h :| 0 <= h < |before| && before[h].source == Candidate(env, authority, prefix[j]).value;
        assert after[h].source == before[h].source;
      } else {
        assert after[if g < |before| then g else |before|].source == s;
      }
    }
  }

  lemma NobodyYet(env: Env, authority: string, responses: seq<Response>, groups: Groups, s: Source)
    requires Grouped(env, authority, responses, groups)
    requires forall h :: 0 <= h < |groups| ==> groups[h].source != s
    ensures Supporters(env, authority, responses, s) == {}
  {
    hide Candidate;
  }

  /** The grouping loop of `certify_source_quorum`. */
  method GroupResponses(env: Env, authority: string, responses: seq<Response>) returns (groups: Option<Groups>)
    ensures groups.Some? <==> Usable(env, authority, responses)
    ensures groups.Some? ==> Grouped(env, authority, responses, groups.value)
  {
    hide Candidate, Supporters;
    var found: Groups := [];
    var i := 0;
    while i < |responses|
      invariant 0 <= i <= |responses|
      invariant Usable(env, authority, responses[..i])
      invariant Grouped(env, authority, responses[..i], found)
    {
      ghost var before := found;
      assert responses[..i + 1] == responses[..i] + [responses[i]];
      var candidate := Candidate(env, authority, responses[i]);
      if candidate.Err? {
        assert !Usable(env, authority, responses);
        return None;
      }
      var g := FindGroup(found, candidate.value);
      if g < |found| {
        Duplicates(env, authority, responses, i, found[g]);
        if responses[i].memberId in found[g].agreeing {
          return None;
        }
        found := found[g := Certificate(candidate.value, found[g].agreeing + {responses[i].memberId})];
      } else {
        NobodyYet(env, authority, responses[..i], found, candidate.value);
        Duplicates(env, authority, responses, i, Certificate(candidate.value, {}));
        found := found + [Certificate(candidate.value, {responses[i].memberId})];
      }
      JoinedIsGrouped(env, authority, responses, i, before, found, g);
      i := i + 1;
    }
    assert responses[..i] == responses;
    return Some(found);
  }

  /** A member already in its group is one that answered twice for the same source. */
  lemma Duplicates(env: Env, authority: string, responses: seq<Response>, i: nat, c: Certificate)
    requires i < |responses| && Usable(env, authority, responses[..i])
    requires Candidate(env, authority, responses[i]) == Ok(c.source)
    requires c.agreeing == Supporters(env, authority, responses[..i], c.source)
    ensures responses[i].memberId in c.agreeing ==> !Usable(env, authority, responses)
    ensures responses[i].memberId !in c.agreeing ==> Usable(env, authority, responses[..i + 1])
  {
    hide Candidate;
    var prefix, longer := responses[..i], responses[..i + 1];
    assert longer == prefix + [responses[i]];
    if responses[i].memberId in c.agreeing {
      var j :| 0 <= j < |prefix| && Candidate(env, authority, prefix[j]) == Ok(c.source)
               && prefix[j].memberId == responses[i].memberId;
      assert responses[j] == prefix[j];
    } else {
      forall j | 0 <= j < i
        ensures Candidate(env, authority, longer[j]) == Candidate(env, authority, longer[i]) ==>
                  longer[j].memberId != longer[i].memberId
      {
        assert longer[j] == prefix[j];
      }
    }
  }

  /** How many groups reach the quorum, and one that does. */
  method CountWinners(groups: Groups, quorum: nat) returns (count: nat, winner: nat)
    ensures count == 0 <==> forall g :: 0 <= g < |groups| ==> |groups[g].agreeing| < quorum
    ensures 0 < count ==> winner < |groups| && quorum <= |groups[winner].agreeing|
    ensures count == 1 ==> forall g :: 0 <= g < |groups| && g != winner ==> |groups[g].agreeing| < quorum
    ensures 1 < count ==> exists g, h :: 0 <= g < h < |groups| && quorum <= |groups[g].agreeing|
                                         && quorum <= |groups[h].agreeing|
  {
    count, winner := 0, 0;
    var i := 0;
    while i < |groups|
      invariant 0 <= i <= |groups|
      invariant count == 0 <==> forall g :: 0 <= g < i ==> |groups[g].agreeing| < quorum
      invariant 0 < count ==> winner < i && quorum <= |groups[winner].agreeing|
      invariant count == 1 ==> forall g :: 0 <= g < i && g != winner ==> |groups[g].agreeing| < quorum
      invariant 1 < count ==> exists g, h :: 0 <= g < h < i && quorum <= |groups[g].agreeing|
                                             && quorum <= |groups[h].agreeing|
    {
      if quorum <= |groups[i].agreeing| {
        count := count + 1;
        winner := if count == 1 then i else winner;
      }
      i := i + 1;
    }
  }

  /** Exactly one source wins, and its certificate is valid. */
  ghost predicate Certifiable(env: Env, authority: string, responses: seq<Response>, quorum: nat, s: Source) {
    && !Blank(authority) && ValidQuorum(quorum, |responses|) && Usable(env, authority, responses)
    && Wins(env, authority, responses, quorum, s)
    && (forall other :: Wins(env, authority, responses, quorum, other) ==> other == s)
    && ValidCertificate(env, Certificate(s, Supporters(env, authority, responses, s)), quorum)
  }

  /** `certify_source_quorum`. */
  method CertifySourceQuorum(env: Env, authority: string, responses: seq<Response>, quorum: nat)
    returns (r: Result<Certificate>)
    ensures r.Ok? ==> && Certifiable(env, authority, responses, quorum, r.value.source)
                      && r.value.agreeing == Supporters(env, authority, responses, r.value.source)
    ensures r.Err? ==> forall s :: !Certifiable(env, authority, responses, quorum, s)
  {
    hide Candidate, Supporters, ValidCertificate, Usable;
    if Blank(authority) || !ValidQuorum(quorum, |responses|) {
      return Err(Invalid);
    }
    var groups := GroupResponses(env, authority, responses);
    if groups.None? {
      return Err(Invalid);
    }
    var count, winner := CountWinners(groups.value, quorum);
    forall s | Wins(env, authority, responses, quorum, s)
      ensures exists g :: 0 <= g < |groups.value| && groups.value[g].source == s
    {
      WinnerHasGroup(env, authority, responses, groups.value, quorum, s);
    }
    if count != 1 {
      if 1 < count {
        var g, h :| 0 <= g < h < |groups.value| && quorum <= |groups.value[g].agreeing|
                    && quorum <= |groups.value[h].agreeing|;
        assert Wins(env, authority, responses, quorum, groups.value[g].source);
        assert Wins(env, authority, responses, quorum, groups.value[h].source);
      }
      return Err(InsufficientQuorum);
    }
    var certificate := groups.value[winner];
    assert Wins(env, authority, responses, quorum, certificate.source);
    if !ValidCertificate(env, certificate, quorum) {
      return Err(Invalid);
    }
    return Ok(certificate);
  }

  lemma WinnerHasGroup(env: Env, authority: string, responses: seq<Response>, groups: Groups, quorum: nat, s: Source)
    requires Grouped(env, authority, responses, groups) && 0 < quorum && Wins(env, authority, responses, quorum, s)
    ensures exists g :: 0 <= g < |groups| && groups[g].source == s
  {
    hide Candidate;
    if forall g :: 0 <= g < |groups| ==> groups[g].source != s {
      NobodyYet(env, authority, responses, groups, s);
    }
  }
}
