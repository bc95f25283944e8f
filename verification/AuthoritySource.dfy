/** What a certificate of the old control cohort says about the members that answered. */
module AuthoritySource {
  import opened Base
  import opened ControlTypes
  import Heads = ControlHead
  import opened Authority

  // ------------------------------------------------------------ one response

  predicate IdAt<K(==), V>(items: seq<V>, id: V -> K, i: nat, k: K) {
    i < |items| && id(items[i]) == k
  }

  /** The map has exactly these items, no two under one id. */
  ghost predicate Lists<K, V>(items: seq<V>, id: V -> K, m: map<K, V>) {
    && (forall i :: 0 <= i < |items| ==> id(items[i]) in m && m[id(items[i])] == items[i])
    && (forall i, j | 0 <= i < j < |items| :: id(items[i]) != id(items[j]))
    && (forall k :: k in m ==> exists i :: IdAt(items, id, i, k))
  }

  lemma {:induction false} IndexedLists<K, V>(items: seq<V>, id: V -> K)
    ensures var m := Indexed(items, id);
            && |m| <= |items| && (|m| == |items| <==> Lists(items, id, m))
            && forall k :: k in m ==> exists i :: IdAt(items, id, i, k)
  {
    hide Lists;
    if items == [] {
      NothingListed(items, id);
    } else {
      var n := |items| - 1;
      var front, last := items[..n], items[n];
      IndexedLists(front, id);
      var before, after := Indexed(front, id), Indexed(items, id);
      assert after.Keys == before.Keys + {id(last)} && |after| == |after.Keys| && |before| == |before.Keys|;
      forall k | k in after ensures exists i :: IdAt(items, id, i, k) {
        if k in before {
          var i :| IdAt(front, id, i, k);
          assert IdAt(items, id, i, k);
        } else {
          assert IdAt(items, id, n, k);
        }
      }
      if id(last) in before {
        assert after.Keys == before.Keys;
        var i :| IdAt(front, id, i, id(last));
        TwiceListed(items, id, after, i, n);
      } else {
        ListsLonger(items, id, before);
      }
    }
  }

  lemma NothingListed<K, V>(items: seq<V>, id: V -> K)
    requires items == []
    ensures Lists(items, id, map[])
  {
  }

  lemma TwiceListed<K, V>(items: seq<V>, id: V -> K, m: map<K, V>, i: nat, j: nat)
    requires i < j < |items| && id(items[i]) == id(items[j])
    ensures !Lists(items, id, m)
  {
  }

  lemma ListsLonger<K, V>(items: seq<V>, id: V -> K, before: map<K, V>)
    requires items != [] && id(items[|items| - 1]) !in before
    ensures var n := |items| - 1;
            Lists(items[..n], id, before) <==> Lists(items, id, before[id(items[n]) := items[n]])
  {
    var n := |items| - 1;
    var front, after := items[..n], before[id(items[n]) := items[n]];
    if Lists(front, id, before) {
      ListsAppend(items, id, before);
    }
    if Lists(items, id, after) {
      ListsFront(items, id, before);
    }
  }

  lemma ListsAppend<K, V>(items: seq<V>, id: V -> K, before: map<K, V>)
    requires items != [] && id(items[|items| - 1]) !in before && Lists(items[..|items| - 1], id, before)
    ensures Lists(items, id, before[id(items[|items| - 1]) := items[|items| - 1]])
  {
    var n := |items| - 1;
    var front, after := items[..n], before[id(items[n]) := items[n]];
    forall i | 0 <= i < n ensures id(items[i]) in before && before[id(items[i])] == items[i] {
      assert front[i] == items[i];
    }
    forall i, j | 0 <= i < j < |items| ensures id(items[i]) != id(items[j]) {
      if j < n {
        assert front[i] == items[i] && front[j] == items[j];
      }
    }
    forall k | k in after ensures exists i :: IdAt(items, id, i, k) {
      if k in before {
        var i :| IdAt(front, id, i, k);
        assert IdAt(items, id, i, k);
      } else {
        assert IdAt(items, id, n, k);
      }
    }
  }

  lemma ListsFront<K, V>(items: seq<V>, id: V -> K, before: map<K, V>)
    requires items != [] && id(items[|items| - 1]) !in before
    requires Lists(items, id, before[id(items[|items| - 1]) := items[|items| - 1]])
    ensures Lists(items[..|items| - 1], id, before)
  {
    var n := |items| - 1;
    var front, after := items[..n], before[id(items[n]) := items[n]];
    forall i | 0 <= i < n ensures id(front[i]) in before && before[id(front[i])] == front[i] {
      assert front[i] == items[i] && id(items[i]) != id(items[n]);
    }
    forall i, j | 0 <= i < j < n ensures id(front[i]) != id(front[j]) {
      assert front[i] == items[i] && front[j] == items[j];
    }
    forall k | k in before ensures exists i :: IdAt(front, id, i, k) {
      assert k in after;
      var i :| IdAt(items, id, i, k);
      assert IdAt(front, id, i, k);
    }
  }

  /** The manifest a member holds is the one its own registers describe. */
  predicate ManifestTold(s: Snapshot, m: ReplicaManifest) {
    && s.manifest == Some(m) && m.revision == s.manifestRevision && m.writeCohortId == s.writeCohortId
    && m.streamSegments == s.streamSegments && (m.revision != 0 ==> m.digest == s.manifestDigest)
  }

  /** The member's answer tells of exactly this source. */
  ghost predicate Tells(env: Env, authority: string, r: Response, source: Source) {
    var s, m := r.snapshot, source.metadata;
    && Lists(s.members, MemberId, m.members) && Lists(s.cohorts, CohortId, m.cohorts)
    && ManifestTold(s, m.manifest) && m.membershipEpoch == s.membershipEpoch && m.pending == map[]
    && (s.controlHeadDigest == env.metadataDigest(m) || s.controlHeadDigest == "")
    && (s.controlHeadRevision != 0 ==> s.controlHeadDigest == env.metadataDigest(m) != "")
    && TellsCohort(authority, r, source)
  }

  /** The authority, epoch, revision and control cohort of the source. */
  predicate TellsCohort(authority: string, r: Response, source: Source) {
    var s, m := r.snapshot, source.metadata;
    && source.authority == authority
    && source.authorityEpoch == (if s.controlAuthorityEpoch == 0 then 1 else s.controlAuthorityEpoch)
    && source.revision == (if s.controlHeadRevision != 0 then s.controlHeadRevision
                           else if s.manifestRevision != 0 then s.manifestRevision else 1)
    && source.controlCohortId == s.controlAuthorityCohortId && source.controlCohortId in m.cohorts
    && source.controlMemberIds == m.cohorts[source.controlCohortId].members && |source.controlMemberIds| == 3
    && (forall id :: id in source.controlMemberIds ==> id in m.members) && r.memberId in source.controlMemberIds
  }

  /** A response certifies a source exactly when it tells of it and the source is a valid head. */
  lemma CandidateIff(env: Env, authority: string, r: Response, source: Source)
    ensures Candidate(env, authority, r) == Ok(source) <==>
            Tells(env, authority, r, source) && ValidSourceHead(env, source)
  {
    hide ValidManifest, ValidSourceHead, Indexed, Lists;
    var s := r.snapshot;
    IndexedLists(s.members, MemberId);
    IndexedLists(s.cohorts, CohortId);
    if Tells(env, authority, r, source) {
      ListedLength(s.members, MemberId, source.metadata.members);
      ListedLength(s.cohorts, CohortId, source.metadata.cohorts);
      if ValidSourceHead(env, source) {
        SourceManifest(env, source);
      }
    }
  }

  lemma ListedLength<K, V>(items: seq<V>, id: V -> K, m: map<K, V>)
    requires Lists(items, id, m)
    ensures m == Indexed(items, id) && |m| == |items|
  {
    IndexedIsListed(items, id, m);
    IndexedLists(items, id);
  }

  lemma {:induction false} IndexedIsListed<K, V>(items: seq<V>, id: V -> K, m: map<K, V>)
    requires Lists(items, id, m)
    ensures Indexed(items, id) == m
    decreases |items|
  {
    hide IdAt;
    if items == [] {
      assert m == map[] by { EmptyListed(items, id, m); }
    } else {
      var n := |items| - 1;
      var last := items[n];
      var before := m - {id(last)};
      assert before[id(last) := last] == m;
      ListsLonger(items, id, before);
      IndexedIsListed(items[..n], id, before);
    }
  }

  lemma EmptyListed<K, V>(items: seq<V>, id: V -> K, m: map<K, V>)
    requires items == [] && Lists(items, id, m)
    ensures m == map[]
  {
    assert m.Keys == {};
  }

  lemma SourceManifest(env: Env, s: Source)
    requires ValidSourceHead(env, s)
    ensures ValidManifest(env, s.metadata.manifest)
  {
    hide ValidManifest, ValidMembership, ValidRouting, ValidDescriptor, ValidReceipts, ValidMarker, Blank, ByteLen;
  }

  // --------------------------------------------------------------- certificates

  /** The control cohort is active or draining. */
  predicate InService(s: Source) {
    && s.controlCohortId in s.metadata.cohorts
    && s.metadata.cohorts[s.controlCohortId].status in {CohortStatus.Active, CohortStatus.Draining}
  }

  /** A certificate is valid exactly when one to three of the three members of an active or draining
      control cohort are asked for and so many of them agree on a valid source. */
  lemma CertificateIff(env: Env, c: Certificate, quorum: nat)
    ensures ValidCertificate(env, c, quorum) <==>
            && 1 <= quorum <= 3 && quorum <= |c.agreeing|
            && (forall id :: id in c.agreeing ==> id in c.source.controlMemberIds) && |c.source.controlMemberIds| == 3
            && InService(c.source) && c.source.metadata.cohorts[c.source.controlCohortId].members == c.source.controlMemberIds
            && ValidSourceHead(env, c.source)
  {
    hide ValidManifest, ValidMembership, ValidRouting, ValidDescriptor, ValidReceipts, ByteLen;
    if ValidSourceHead(env, c.source) {
      SourceManifest(env, c.source);
    }
  }

  /** What is certified was told by a quorum of the three control members, and by nobody otherwise. */
  lemma CertifiedMeans(env: Env, authority: string, responses: seq<Response>, quorum: nat, s: Source)
    requires Certifiable(env, authority, responses, quorum, s)
    ensures var told := Supporters(env, authority, responses, s);
            && 1 <= quorum <= |told| && ValidSourceHead(env, s)
            && (forall id :: id in told ==> id in s.controlMemberIds) && |s.controlMemberIds| == 3
            && (forall id :: id in told <==>
                  exists i :: 0 <= i < |responses| && responses[i].memberId == id && Tells(env, authority, responses[i], s))
  {
    hide ValidSourceHead, Tells, Candidate, Usable;
    var told := Supporters(env, authority, responses, s);
    CertificateIff(env, Certificate(s, told), quorum);
    forall i | 0 <= i < |responses|
      ensures Candidate(env, authority, responses[i]) == Ok(s) <==> Tells(env, authority, responses[i], s)
    {
      CandidateIff(env, authority, responses[i], s);
    }
  }

  /** The response tells of some valid source. */
  ghost predicate TellsSomething(env: Env, authority: string, r: Response) {
    exists s :: Tells(env, authority, r, s) && ValidSourceHead(env, s)
  }

  /** Two responses that tell of one source come from different members. */
  ghost predicate NobodyRepeats(env: Env, authority: string, responses: seq<Response>) {
    forall i, j, s | 0 <= i < j < |responses| && Tells(env, authority, responses[i], s) && ValidSourceHead(env, s) ::
      Tells(env, authority, responses[j], s) ==> responses[i].memberId != responses[j].memberId
  }

  /** A source is certified exactly when every response tells of some source, no member of two of one,
      this source alone is told by a quorum, and its control cohort of three is in service. */
  lemma CertifiableIff(env: Env, authority: string, responses: seq<Response>, quorum: nat, s: Source)
    ensures Certifiable(env, authority, responses, quorum, s) <==>
            && !Blank(authority) && 1 <= quorum <= 3 && ValidSourceHead(env, s) && InService(s)
            && (forall i :: 0 <= i < |responses| ==> TellsSomething(env, authority, responses[i]))
            && NobodyRepeats(env, authority, responses)
            && quorum <= |Supporters(env, authority, responses, s)|
            && (forall other :: quorum <= |Supporters(env, authority, responses, other)| ==> other == s)
  {
    hide ValidSourceHead, Tells, Candidate, ValidCertificate, Supporters, Blank;
    UsableIff(env, authority, responses);
    var told := Supporters(env, authority, responses, s);
    CertificateIff(env, Certificate(s, told), quorum);
    if quorum <= |told| && 1 <= quorum {
      SupportersListed(env, authority, responses, s);
    }
    assert forall other :: Wins(env, authority, responses, quorum, other) <==>
                           quorum <= |Supporters(env, authority, responses, other)|;
  }

  lemma UsableIff(env: Env, authority: string, responses: seq<Response>)
    ensures Usable(env, authority, responses) <==>
            && (forall i :: 0 <= i < |responses| ==> TellsSomething(env, authority, responses[i]))
            && NobodyRepeats(env, authority, responses)
  {
    hide Tells, ValidSourceHead, Candidate;
    forall i, s | 0 <= i < |responses|
      ensures Candidate(env, authority, responses[i]) == Ok(s) <==>
              Tells(env, authority, responses[i], s) && ValidSourceHead(env, s)
    {
      CandidateIff(env, authority, responses[i], s);
    }
    if forall i :: 0 <= i < |responses| ==> TellsSomething(env, authority, responses[i]) {
      forall i | 0 <= i < |responses| ensures Candidate(env, authority, responses[i]).Ok? {
        var s :| Tells(env, authority, responses[i], s) && ValidSourceHead(env, s);
      }
    }
    if Usable(env, authority, responses) {
      forall i | 0 <= i < |responses| ensures TellsSomething(env, authority, responses[i]) {
        var s := Candidate(env, authority, responses[i]).value;
        assert Tells(env, authority, responses[i], s) && ValidSourceHead(env, s);
      }
    }
  }

  /** The supporters are at most as many as the responses, and all of them in the control cohort. */
  lemma SupportersListed(env: Env, authority: string, responses: seq<Response>, s: Source)
    requires Supporters(env, authority, responses, s) != {}
    ensures |Supporters(env, authority, responses, s)| <= |responses| && |s.controlMemberIds| == 3
    ensures s.controlCohortId in s.metadata.cohorts
    ensures s.metadata.cohorts[s.controlCohortId].members == s.controlMemberIds
    ensures forall id :: id in Supporters(env, authority, responses, s) ==> id in s.controlMemberIds
  {
    hide Tells, ValidSourceHead, Candidate;
    FewSupporters(env, authority, responses, s);
    forall id | id in Supporters(env, authority, responses, s)
      ensures id in s.controlMemberIds && |s.controlMemberIds| == 3 && s.controlCohortId in s.metadata.cohorts
              && s.metadata.cohorts[s.controlCohortId].members == s.controlMemberIds
    {
      var i :| 0 <= i < |responses| && Candidate(env, authority, responses[i]) == Ok(s) && responses[i].memberId == id;
      CandidateIff(env, authority, responses[i], s);
      TellsListed(env, authority, responses[i], s);
    }
    var id :| id in Supporters(env, authority, responses, s);
  }

  lemma {:induction false} FewSupporters(env: Env, authority: string, responses: seq<Response>, s: Source)
    ensures |Supporters(env, authority, responses, s)| <= |responses|
    decreases |responses|
  {
    hide Candidate;
    if responses != [] {
      var n := |responses| - 1;
      assert responses[..n + 1] == responses;
      FewSupporters(env, authority, responses[..n], s);
      SupportersGrow(env, authority, responses, n, s);
    }
  }

  /** The responses are of different members and all tell of this source. */
  ghost predicate AllTell(env: Env, authority: string, responses: seq<Response>, s: Source) {
    && (forall i :: 0 <= i < |responses| ==> Tells(env, authority, responses[i], s))
    && (forall i, j | 0 <= i < j < |responses| :: responses[i].memberId != responses[j].memberId)
  }

  /** Members that all tell of one source certify it, if there are enough of them and its control cohort
      is active or draining. */
  lemma UnanimousCertifies(env: Env, authority: string, responses: seq<Response>, quorum: nat, s: Source)
    requires 1 <= quorum <= |responses| <= 3 && ValidSourceHead(env, s)
    requires AllTell(env, authority, responses, s) && InService(s)
    ensures Certifiable(env, authority, responses, quorum, s)
  {
    hide ValidSourceHead, Tells, Candidate;
    forall i | 0 <= i < |responses| ensures Candidate(env, authority, responses[i]) == Ok(s) {
      CandidateIff(env, authority, responses[i], s);
    }
    var told := Supporters(env, authority, responses, s);
    SupportersAll(env, authority, responses, s);
    TellsListed(env, authority, responses[0], s);
    forall id | id in told ensures id in s.controlMemberIds {
      var i :| 0 <= i < |responses| && responses[i].memberId == id;
      TellsListed(env, authority, responses[i], s);
    }
    CertificateIff(env, Certificate(s, told), quorum);
    forall other | Wins(env, authority, responses, quorum, other) ensures other == s {
      if Supporters(env, authority, responses, other) != {} {
        var id :| id in Supporters(env, authority, responses, other);
      }
    }
  }

  lemma TellsListed(env: Env, authority: string, r: Response, s: Source)
    requires Tells(env, authority, r, s)
    ensures r.memberId in s.controlMemberIds && |s.controlMemberIds| == 3 && s.authority == authority
    ensures s.controlCohortId in s.metadata.cohorts
    ensures s.metadata.cohorts[s.controlCohortId].members == s.controlMemberIds
  {
    hide Lists;
  }

  lemma {:induction false} SupportersAll(env: Env, authority: string, responses: seq<Response>, s: Source)
    requires forall i :: 0 <= i < |responses| ==> Candidate(env, authority, responses[i]) == Ok(s)
    requires forall i, j | 0 <= i < j < |responses| :: responses[i].memberId != responses[j].memberId
    ensures |Supporters(env, authority, responses, s)| == |responses|
    decreases |responses|
  {
    hide Candidate;
    if responses != [] {
      var n := |responses| - 1;
      var front := responses[..n];
      assert responses[..n + 1] == responses;
      SupportersAll(env, authority, front, s);
      SupportersGrow(env, authority, responses, n, s);
      assert responses[n].memberId !in Supporters(env, authority, front, s);
    }
  }
}
