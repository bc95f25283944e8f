/** The first object-store head: what it is, when it is built, and who can adopt it. */
module AuthorityHead {
  import opened Base
  import opened ControlTypes
  import Heads = ControlHead
  import opened Authority
  import opened AuthorityFreeze

  /** The head of a frozen source: one generation on, with the source's revision and metadata, naming
      the source it comes from, and no receipt but its own. */
  predicate HeadOfSource(env: Env, z: FrozenSource, h: ControlTypes.ControlHead) {
    var s := z.certificate.source;
    var digest := env.metadataDigest(s.metadata);
    && h.version == CONTROL_HEAD_VERSION
    && h.authorityEpoch == z.freeze.targetAuthorityEpoch == s.authorityEpoch + 1
    && h.revision == s.revision && h.metadata == s.metadata && h.metadataDigest == digest
    && h.sourceMarker == SourceMarker(s.authority, s.authorityEpoch, s.revision, digest)
    && h.operationId == z.freeze.operationId
    && h.completed == map[z.freeze.operationId := Receipt(s.authorityEpoch + 1, s.revision, digest)]
  }

  lemma BuiltIs(env: Env, z: FrozenSource)
    requires InitialHead(env, z, z.freeze.operationId).Some?
    ensures var h := InitialHead(env, z, z.freeze.operationId).value; HeadOfSource(env, z, h) && ValidHead(env, h)
  {
    hide ValidCertificate, ValidHead;
  }

  /** In every run, the published first head is the head of one of the certified frozen sources. */
  lemma FirstHeadIs(env: Env, quorum: nat, start: System, actions: seq<Action>)
    requires Fresh(start) && Exec(env, quorum, start, actions).head.Some?
    ensures var s := Exec(env, quorum, start, actions);
            && ValidHead(env, s.head.value)
            && exists k :: 0 <= k < |s.certified| && HeadOfSource(env, s.certified[k], s.head.value)
  {
    hide CertifiedOk, InitialHead, Exec, ValidHead, HeadOfSource;
    ExecKeeps(env, quorum, start, actions);
    var s := Exec(env, quorum, start, actions);
    var k :| 0 <= k < |s.certified| && Builds(env, s.certified[k], s.head);
    BuiltIs(env, s.certified[k]);
  }

  /** What a valid source already guarantees of the head built from it. */
  lemma SourceHeadParts(env: Env, s: Source)
    requires ValidSourceHead(env, s)
    ensures ValidMetadata(env, s.metadata) && ValidMarker(Marker(env, s)) && !Blank(env.metadataDigest(s.metadata))
    ensures s.authorityEpoch != 0 && s.revision != 0
  {
    hide ValidMetadata, ValidMarker, Blank, ByteLen;
    var h := Heads.NewHead(env, s.authorityEpoch, s.revision, VALIDATION_OPERATION, Marker(env, s), s.metadata);
    assert h.operationId in h.completed;
  }

  lemma OneReceipt(h: ControlTypes.ControlHead)
    requires h.completed == map[h.operationId := Receipt(h.authorityEpoch, h.revision, h.metadataDigest)]
    requires h.authorityEpoch != 0 && h.revision != 0 && !Blank(h.metadataDigest)
    ensures ValidReceipts(h)
  {
    hide Blank;
    assert h.completed.Keys == {h.operationId} && |h.completed| == |h.completed.Keys|;
  }

  /** A valid frozen source gives a valid head exactly when its operation id is usable. */
  lemma BuiltIff(env: Env, z: FrozenSource, operationId: string)
    requires ValidFrozen(env, z)
    ensures InitialHead(env, z, operationId).Some? <==>
            !Blank(operationId) && ByteLen(operationId) <= MAX_OPERATION_ID_BYTES
  {
    hide ValidMetadata, ValidMarker, Blank, ByteLen, ValidManifest, ValidReceipts, ValidSourceHead;
    var s := z.certificate.source;
    SourceHeadParts(env, s);
    OneReceipt(Heads.NewHead(env, z.freeze.targetAuthorityEpoch, s.revision, operationId, Marker(env, s), s.metadata));
  }

  /** In every run, publishing a certified migration while there is no head yet succeeds exactly when
      its operation id fits, and then publishes the head of its source. */
  lemma PublishBuildsIff(env: Env, quorum: nat, start: System, actions: seq<Action>, k: nat)
    requires Fresh(start) && Exec(env, quorum, start, actions).head.None?
    requires k < |Exec(env, quorum, start, actions).certified|
    ensures var s := Exec(env, quorum, start, actions);
            var t := Step(env, quorum, s, Publish(k));
            && (t.head.Some? <==> ByteLen(s.certified[k].freeze.operationId) <= MAX_OPERATION_ID_BYTES)
            && (t.head.Some? ==> HeadOfSource(env, s.certified[k], t.head.value))
            && t == s.(head := t.head)
  {
    hide InitialHead, Exec, ValidCertificate, HeadOfSource, ByteLen, Blank;
    ExecKeeps(env, quorum, start, actions);
    var z := Exec(env, quorum, start, actions).certified[k];
    assert CertifiedOk(env, quorum, Exec(env, quorum, start, actions), z);
    BuiltIff(env, z, z.freeze.operationId);
    if InitialHead(env, z, z.freeze.operationId).Some? {
      BuiltIs(env, z);
    }
  }

  /** A member that froze for a migration and is still at the source's epoch takes the head built from
      it, and then holds that head. */
  lemma FrozenMemberAdopts(env: Env, quorum: nat, s: System, id: string, z: FrozenSource, h: ControlTypes.ControlHead)
    requires HoldsFreeze(s, id, z.freeze) && FreezesSource(env, z.freeze, z.certificate.source)
    requires HeadOfSource(env, z, h) && s.members[id].authorityEpoch <= z.certificate.source.authorityEpoch
    ensures var t := Step(env, quorum, s, Adopt(id, h));
            && t.members == s.members[id := Member(h.metadata, h.authorityEpoch, h.revision, h.metadataDigest,
                                                   s.members[id].cohortId, Some(z.freeze))]
            && t == s.(members := t.members)
  {
  }

  /** And one that froze for anything else at that epoch or beyond does not: its freeze names another
      source, or a later generation. */
  lemma FrozenMemberRefuses(env: Env, quorum: nat, s: System, id: string, f: MetadataFreeze, h: ControlTypes.ControlHead)
    requires HoldsFreeze(s, id, f)
    requires h.authorityEpoch < f.targetAuthorityEpoch || h.sourceMarker.digest != f.source.digest
    ensures Step(env, quorum, s, Adopt(id, h)) == s
  {
  }
}
