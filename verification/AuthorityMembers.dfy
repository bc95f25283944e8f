/** What a member of the old cohort answers, and when acknowledgements make a certificate. */
module AuthorityMembers {
  import opened Base
  import opened ControlTypes
  import Heads = ControlHead
  import opened Authority
  import opened AuthorityFreeze

  // ------------------------------------------------------------- acknowledgements

  /** The acknowledgement is of exactly this freeze of this source, by a listed member. */
  predicate Acknowledges(env: Env, f: MetadataFreeze, s: Source, ack: FreezeAck) {
    && ack.operationId == f.operationId && ack.source == f.source && ack.targetAuthorityEpoch == f.targetAuthorityEpoch
    && ack.controlCohortId == f.controlCohortId && ack.metadataDigest == env.metadataDigest(s.metadata)
    && ack.memberId in s.controlMemberIds
  }

  predicate OneEach(acks: seq<FreezeAck>) {
    forall i, j | 0 <= i < j < |acks| :: acks[i].memberId != acks[j].memberId
  }

  lemma OneEachLonger(acks: seq<FreezeAck>)
    requires acks != []
    ensures var n := |acks| - 1; OneEach(acks) <==> OneEach(acks[..n]) && acks[n].memberId !in Senders(acks[..n])
  {
    var n := |acks| - 1;
    var front := acks[..n];
    assert forall i :: 0 <= i < n ==> front[i] == acks[i];
    if OneEach(front) && acks[n].memberId !in Senders(front) {
      forall i | 0 <= i < n ensures acks[i].memberId != acks[n].memberId {
        assert front[i].memberId in Senders(front);
      }
    }
  }

  lemma {:induction false} SendersDiffer(acks: seq<FreezeAck>)
    ensures |Senders(acks)| <= |acks| && (|Senders(acks)| == |acks| <==> OneEach(acks))
  {
    hide OneEach;
    if acks == [] {
      assert OneEach(acks) by { NobodyTwice(); }
    } else {
      var n := |acks| - 1;
      SendersDiffer(acks[..n]);
      OneEachLonger(acks);
      SendersGrow(acks, n);
      assert acks[..n + 1] == acks;
      var before, id := Senders(acks[..n]), acks[n].memberId;
      assert |before + {id}| == if id in before then |before| else |before| + 1 by {
        assert id in before ==> before + {id} == before;
      }
    }
  }

  lemma NobodyTwice()
    ensures OneEach([])
  {
  }

  /** A freeze is certified exactly when a valid certificate's source is the one frozen, and at least a
      quorum of different listed members acknowledge it, no other acknowledgement being among them. */
  lemma FrozenIff(env: Env, c: Certificate, f: MetadataFreeze, acks: seq<FreezeAck>, quorum: nat)
    ensures Frozen(env, c, f, acks, quorum) <==>
            && ValidCertificate(env, c, quorum) && !Blank(f.operationId) && c.source.authorityEpoch < U64_MAX
            && f == MetadataFreeze(f.operationId, Marker(env, c.source), c.source.authorityEpoch + 1, c.source.controlCohortId)
            && (forall i :: 0 <= i < |acks| ==> Acknowledges(env, f, c.source, acks[i]))
            && quorum <= |Senders(acks)| == |acks|
  {
    hide ValidCertificate, Senders;
    SendersDiffer(acks);
  }

  // ----------------------------------------------------------------------- members

  /** The freeze names exactly the state this member holds, one generation on. */
  predicate NamesState(env: Env, m: Member, f: MetadataFreeze) {
    var digest := env.metadataDigest(m.metadata);
    var epoch := if m.authorityEpoch == 0 then 1 else m.authorityEpoch;
    && f.source.authority == "legacy-control-quorum" && f.source.authorityEpoch == epoch
    && f.source.revision == (if m.headRevision != 0 then m.headRevision
                             else if m.metadata.manifest.revision != 0 then m.metadata.manifest.revision else 1)
    && f.source.digest == digest && (m.headDigest == "" || m.headDigest == digest)
    && f.targetAuthorityEpoch == epoch + 1 && f.controlCohortId == m.cohortId
  }

  /** The member is one of the three of its complete control cohort. */
  predicate Listed(m: Member, id: string) {
    && m.cohortId in m.metadata.cohorts && |m.metadata.cohorts[m.cohortId].members| == 3
    && (forall k :: k in m.metadata.cohorts[m.cohortId].members ==> k in m.metadata.members)
    && id in m.metadata.cohorts[m.cohortId].members && !Blank(id)
  }

  /** A member acknowledges a freeze exactly when it names the member's own state and the member holds
      no other; it then holds it, and acknowledges it again when asked again. */
  lemma FreezeAnsweredIff(env: Env, quorum: nat, s: System, id: string, f: MetadataFreeze)
    requires id in s.members
    ensures var m := s.members[id];
            Step(env, quorum, s, Freeze(id, f))
            == if NamesState(env, m, f) && ValidMarker(f.source) && !Blank(f.operationId) && Listed(m, id)
                  && m.freeze in {None, Some(f)} then
                 s.(members := s.members[id := m.(freeze := Some(f))],
                    acks := s.acks + {FreezeAck(id, f.operationId, f.source, f.targetAuthorityEpoch,
                                                env.metadataDigest(m.metadata), f.controlCohortId)})
               else s
  {
    hide ValidMarker, Blank;
    var m := s.members[id];
    assert s.members[id := m] == s.members && s.acks + {} == s.acks;
    FreezeMemberIs(env, m, id, f);
  }

  lemma FreezeMemberIs(env: Env, m: Member, id: string, f: MetadataFreeze)
    ensures FreezeMember(env, m, id, f)
            == if NamesState(env, m, f) && ValidMarker(f.source) && !Blank(f.operationId) && Listed(m, id)
                  && m.freeze in {None, Some(f)} then
                 (m.(freeze := Some(f)),
                  Some(FreezeAck(id, f.operationId, f.source, f.targetAuthorityEpoch, env.metadataDigest(m.metadata),
                                 f.controlCohortId)))
               else (m, None)
  {
    hide ValidMarker, Blank;
  }

  /** A member takes a head exactly when it is not behind the one it has, and when it is frozen, at or
      past the freeze's target and from the frozen source. */
  lemma AdoptsIff(env: Env, quorum: nat, s: System, id: string, h: ControlTypes.ControlHead)
    requires id in s.members
    ensures var m := s.members[id];
            var frozen := m.freeze.Some? && (h.authorityEpoch < m.freeze.value.targetAuthorityEpoch
                                             || h.sourceMarker.digest != m.freeze.value.source.digest);
            var behind := h.authorityEpoch < m.authorityEpoch
                          || (h.authorityEpoch == m.authorityEpoch && h.revision < m.headRevision);
            Step(env, quorum, s, Adopt(id, h))
            == if frozen || behind then s
               else s.(members := s.members[id := Member(h.metadata, h.authorityEpoch, h.revision, h.metadataDigest,
                                                         m.cohortId, m.freeze)])
  {
  }

  /** In every run, the old way of writing metadata ends with the freeze and with the first object-store
      head: a member that has either keeps its metadata until it adopts a head. */
  lemma {:induction false} FrozenMetadataKept(env: Env, quorum: nat, s: System, actions: seq<Action>, id: string)
    requires id in s.members && (s.members[id].freeze.Some? || s.members[id].headRevision != 0)
    requires forall i :: 0 <= i < |actions| ==> !(actions[i].Adopt? && actions[i].id == id)
    ensures var t := Exec(env, quorum, s, actions);
            && id in t.members && t.members[id].metadata == s.members[id].metadata
            && t.members[id].headRevision == s.members[id].headRevision
            && (s.members[id].freeze.Some? ==> t.members[id].freeze == s.members[id].freeze)
  {
    hide RequestMatches, Frozen, InitialHead;
    if actions != [] {
      FrozenMetadataKept(env, quorum, s, actions[..|actions| - 1], id);
    }
  }

  /** In every run, no member's head ever goes back. */
  lemma {:induction false} HeadsNeverFall(env: Env, quorum: nat, s: System, actions: seq<Action>, id: string)
    requires id in s.members
    ensures var t := Exec(env, quorum, s, actions);
            && id in t.members && s.members[id].authorityEpoch <= t.members[id].authorityEpoch
            && (s.members[id].authorityEpoch == t.members[id].authorityEpoch ==>
                  s.members[id].headRevision <= t.members[id].headRevision)
  {
    hide RequestMatches, Frozen, InitialHead;
    if actions != [] {
      HeadsNeverFall(env, quorum, s, actions[..|actions| - 1], id);
    }
  }

  /** The next head of an active authority: refused when the certified source is not the current head,
      or at the last epoch or revision. */
  lemma NextHeadRefused(env: Env, z: FrozenSource, current: ControlTypes.ControlHead, operationId: string)
    requires ValidFrozen(env, z)
    ensures var s := z.certificate.source;
            if !(s.metadata == current.metadata && env.metadataDigest(s.metadata) == current.metadataDigest
                 && s.authorityEpoch == current.authorityEpoch && s.revision == current.revision) then
              NextHead(env, z, current, operationId) == Err(SourceDoesNotMatchHead)
            else
              current.authorityEpoch == U64_MAX || current.revision == U64_MAX ==>
                NextHead(env, z, current, operationId) == Err(Invalid)
  {
    hide ValidFrozen, ValidHead;
  }
}
