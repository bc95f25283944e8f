/** Advances of different streams do not cost each other anything. */
module ControlRebase {
  import opened Base
  import opened ControlTypes
  import opened ControlHead
  import opened ControlProtocol
  import opened ControlInvariant

  // ------------------------------------------------------ phase receipt keys

  /** The digest under the receipt key of `d` is 64 ASCII characters, as SHA-256 in hexadecimal is. */
  predicate HexKey(env: Env, d: Descriptor) {
    var digest := env.phaseDigest(StageText(d));
    |digest| == 64 && Ascii(digest)
  }

  /** The digests that advancing `d` on top of `h` asks for: of its phase, and of the head it writes. */
  predicate Keyed(env: Env, h: Head, d: Descriptor) {
    HexKey(env, d) && !Blank(env.metadataDigest(WithClaim(h.metadata, d)))
  }

  /** The digests of the two phases collide only if their texts are the same. */
  predicate Apart(env: Env, a: Descriptor, b: Descriptor) {
    env.phaseDigest(StageText(a)) == env.phaseDigest(StageText(b)) ==> StageText(a) == StageText(b)
  }

  predicate Ascii(s: string) {
    forall i :: 0 <= i < |s| ==> s[i] as int < 0x80
  }

  lemma {:induction false} AsciiLength(s: string)
    requires Ascii(s)
    ensures ByteLen(s) == |s|
  {
    if s != "" {
      AsciiLength(s[1..]);
    }
  }

  lemma AsciiConcat(a: string, b: string)
    requires Ascii(a) && Ascii(b)
    ensures Ascii(a + b)
  {
  }

  lemma SuffixAscii(stage: Stage)
    ensures Ascii(stage.Suffix()) && |stage.Suffix()| <= 16
  {
  }

  /** Stage receipt keys are short and not blank. */
  lemma StageKeyShort(env: Env, d: Descriptor)
    requires HexKey(env, d)
    ensures !Blank(StagePhaseId(env, d)) && ByteLen(StagePhaseId(env, d)) <= MAX_OPERATION_ID_BYTES
  {
    hide Ascii, ByteLen, IsWhitespace;
    var digest := env.phaseDigest(StageText(d));
    var suffix := d.stage.Suffix();
    SuffixAscii(d.stage);
    AsciiPrefix();
    AsciiConcat("handoff:", suffix);
    AsciiConcat("handoff:" + suffix, ":");
    AsciiConcat("handoff:" + suffix + ":", digest);
    AsciiLength(StagePhaseId(env, d));
    assert StagePhaseId(env, d)[0] == 'h';
  }

  lemma AsciiPrefix()
    ensures Ascii("handoff:") && Ascii(":") && !IsWhitespace('h')
  {
  }

  predicate NulFree(s: string) {
    forall i :: 0 <= i < |s| ==> s[i] != '\0'
  }

  lemma SplitAtNul(a: string, x: string, b: string, y: string)
    requires NulFree(a) && NulFree(b)
    requires a + "\0" + x == b + "\0" + y
    ensures a == b && x == y
  {
    var l, r := a + "\0" + x, b + "\0" + y;
    assert l[|a|] == '\0' && r[|b|] == '\0';
    assert a == l[..|a|] && b == r[..|b|];
    assert x == l[|a| + 1..] && y == r[|b| + 1..];
  }

  lemma SuffixesDiffer(a: Stage, b: Stage)
    requires a.Suffix()[0] == b.Suffix()[0]
    ensures a == b
  {
  }

  lemma Tails(p: string, a: string, b: string)
    requires p + a == p + b
    ensures a == b
  {
    assert a == (p + a)[|p|..] && b == (p + b)[|p|..];
  }

  lemma PhaseIdStage(env: Env, a: string, x: string, p: Stage, b: string, y: string, q: Stage)
    requires PhaseId(env, a, x, p.Suffix()) == PhaseId(env, b, y, q.Suffix())
    ensures p == q
  {
    hide PhaseText;
    var u, v := PhaseId(env, a, x, p.Suffix()), PhaseId(env, b, y, q.Suffix());
    assert |"handoff:"| == 8;
    assert u[8] == p.Suffix()[0] && v[8] == q.Suffix()[0];
    SuffixesDiffer(p, q);
  }

  /** The text hashed into one stage's receipt key. */
  function StageText(d: Descriptor): string {
    PhaseText(d.operationId, d.stream, d.stage.Suffix())
  }

  /** What follows the last NUL of a text. */
  lemma LastPart(x: string, p: string, y: string, q: string)
    requires NulFree(p) && NulFree(q) && x + "\0" + p == y + "\0" + q
    ensures p == q
  {
    var l, r := x + "\0" + p, y + "\0" + q;
    assert l[|x|] == '\0' && r[|y|] == '\0';
    assert forall i :: |x| < i < |l| ==> l[i] == p[i - |x| - 1];
    assert forall i :: |y| < i < |r| ==> r[i] == q[i - |y| - 1];
    assert p == l[|x| + 1..] && q == r[|y| + 1..];
  }

  lemma SuffixNulFree(stage: Stage)
    ensures NulFree(stage.Suffix())
  {
  }

  lemma SameTextSameSuffix(a: Descriptor, b: Descriptor)
    requires StageText(a) == StageText(b)
    ensures a.stage.Suffix() == b.stage.Suffix()
  {
    hide NulFree;
    SuffixNulFree(a.stage);
    SuffixNulFree(b.stage);
    LastPart(a.operationId + "\0" + a.stream, a.stage.Suffix(), b.operationId + "\0" + b.stream, b.stage.Suffix());
  }

  lemma SameKey(env: Env, a: Descriptor, b: Descriptor)
    requires StagePhaseId(env, a) == StagePhaseId(env, b)
    ensures a.stage == b.stage && env.phaseDigest(StageText(a)) == env.phaseDigest(StageText(b))
  {
    hide PhaseText;
    PhaseIdStage(env, a.operationId, a.stream, a.stage, b.operationId, b.stream, b.stage);
    Tails("handoff:" + a.stage.Suffix() + ":", env.phaseDigest(StageText(a)), env.phaseDigest(StageText(b)));
  }

  /** Two handoff phases share a receipt key exactly when they are the same stage and their digests
      are the same; and, where the digests do not collide, exactly when their texts are the same. */
  lemma StageKeysShared(env: Env, a: Descriptor, b: Descriptor)
    ensures StagePhaseId(env, a) == StagePhaseId(env, b) <==>
            a.stage == b.stage && env.phaseDigest(StageText(a)) == env.phaseDigest(StageText(b))
    ensures Apart(env, a, b) ==>
              (StagePhaseId(env, a) == StagePhaseId(env, b) <==> StageText(a) == StageText(b))
  {
    hide PhaseText;
    if StagePhaseId(env, a) == StagePhaseId(env, b) {
      SameKey(env, a, b);
    }
    if StageText(a) == StageText(b) {
      SameTextSameSuffix(a, b);
      SuffixesDiffer(a.stage, b.stage);
    }
  }

  /** Operation and stream as the receipt key joins them. */
  function JoinedNames(d: Descriptor): string {
    d.operationId + "\0" + d.stream
  }

  /** Two texts are the same exactly when the stages are and the joined names are; and where neither
      operation id, or neither stream, holds a NUL, exactly when the names themselves are. */
  lemma PhaseKeysDistinct(a: Descriptor, b: Descriptor)
    ensures StageText(a) == StageText(b) <==> a.stage.Suffix() == b.stage.Suffix() && JoinedNames(a) == JoinedNames(b)
    ensures (NulFree(a.operationId) && NulFree(b.operationId)) || (NulFree(a.stream) && NulFree(b.stream)) ==>
              (StageText(a) == StageText(b) <==>
               a.operationId == b.operationId && a.stream == b.stream && a.stage.Suffix() == b.stage.Suffix())
  {
    hide NulFree;
    SuffixNulFree(a.stage);
    SuffixNulFree(b.stage);
    assert StageText(a) == JoinedNames(a) + ("\0" + a.stage.Suffix());
    assert StageText(b) == JoinedNames(b) + ("\0" + b.stage.Suffix());
    if StageText(a) == StageText(b) {
      LastPart(JoinedNames(a), a.stage.Suffix(), JoinedNames(b), b.stage.Suffix());
      SameLength(JoinedNames(a), JoinedNames(b), "\0" + a.stage.Suffix());
    }
    if JoinedNames(a) == JoinedNames(b) {
      if NulFree(a.operationId) && NulFree(b.operationId) {
        SplitAtNul(a.operationId, a.stream, b.operationId, b.stream);
      } else if NulFree(a.stream) && NulFree(b.stream) {
        LastPart(a.operationId, a.stream, b.operationId, b.stream);
        assert JoinedNames(a) == a.operationId + ("\0" + a.stream) && JoinedNames(b) == b.operationId + ("\0" + b.stream);
        SameLength(a.operationId, b.operationId, "\0" + a.stream);
      }
    }
  }

  lemma SameLength(a: string, b: string, end: string)
    ensures a + end == b + end ==> a == b
  {
    if a + end == b + end {
      assert |a| == |b|;
      assert a == (a + end)[..|a|] && b == (b + end)[..|b|];
    }
  }

  /** A NUL in a name, which nothing refuses, can bring two streams' phases under one text. */
  lemma PhaseTextsCollide(stage: Stage)
    ensures PhaseText("a\0b", "c", stage.Suffix()) == PhaseText("a", "b\0c", stage.Suffix())
    ensures !Blank("a\0b") && !Blank("c") && !Blank("a") && !Blank("b\0c")
  {
    assert PhaseText("a\0b", "c", stage.Suffix()) == "a\0b\0c\0" + stage.Suffix();
    assert PhaseText("a", "b\0c", stage.Suffix()) == "a\0b\0c\0" + stage.Suffix();
    assert "a\0b"[0] == 'a' && "b\0c"[0] == 'b' && "c"[0] == 'c';
    assert !IsWhitespace('a') && !IsWhitespace('b') && !IsWhitespace('c');
  }

  // ------------------------------------------------------- the rebased head

  /** The head a lost advance writes on top of `h`. */
  function Rebased(env: Env, h: Head, d: Descriptor): Head {
    var next := NewHead(env, h.authorityEpoch, SatAdd(h.revision, 1), StagePhaseId(env, d), h.sourceMarker,
                        WithClaim(h.metadata, d));
    next.(completed := h.completed[next.operationId := OwnReceipt(next)])
  }

  /** The bounds that no reconciliation can get past. */
  predicate Room(env: Env, h: Head, d: Descriptor) {
    && h.revision < U64_MAX
    && (h.authorityEpoch == U64_MAX ==>
          h.sourceMarker.authorityEpoch == U64_MAX && h.sourceMarker.revision == h.revision
          && h.sourceMarker.digest == h.metadataDigest)
    && |h.completed| < MAX_COMPLETED_OPERATIONS
    && env.headBytes(Rebased(env, h, d)) <= MAX_CONTROL_HEAD_BYTES
  }

  lemma HandoffIgnoresClaims(env: Env, m: ControlMetadata, claims: Claims, d: Descriptor)
    ensures HandoffError(env, m.(pending := claims), d, true) == HandoffError(env, m, d, true)
  {
    var n := m.(pending := claims);
    if d.source.cohortId in m.cohorts {
      assert SourceReady(env, n, d) == SourceReady(env, m, d);
    }
    if d.targetCohortId in m.cohorts {
      assert TargetReady(env, n, d) == TargetReady(env, m, d);
    }
  }

  lemma ClaimedMetadataValid(env: Env, m: ControlMetadata, d: Descriptor)
    requires ValidMetadata(env, m) && ValidDescriptor(d, d.stream) && d.stream in m.pending
    ensures ValidMetadata(env, WithClaim(m, d))
  {
    hide ValidDescriptor, ValidManifest;
    var n := WithClaim(m, d);
    assert n.pending.Keys == m.pending.Keys;
    assert |n.pending.Keys| == |n.pending| && |m.pending.Keys| == |m.pending|;
    assert ValidMembership(n);
    assert ValidRouting(n);
  }

  lemma OneMoreReceipt(h: Head, next: Head)
    requires ValidReceipts(h) && next.operationId !in h.completed
    requires next.completed == h.completed[next.operationId := OwnReceipt(next)]
    requires next.authorityEpoch == h.authorityEpoch && next.revision == h.revision + 1
    requires !Blank(next.metadataDigest) && h.revision > 0
    ensures |next.completed| == |h.completed| + 1
    ensures ValidReceipts(next) <==> |h.completed| < MAX_COMPLETED_OPERATIONS
  {
    hide Blank;
    assert next.completed.Keys == h.completed.Keys + {next.operationId};
    assert |next.completed| == |next.completed.Keys| && |h.completed| == |h.completed.Keys|;
  }

  lemma FirstReceipt(next: Head)
    requires next.completed == map[next.operationId := OwnReceipt(next)]
    requires !Blank(next.metadataDigest) && next.revision > 0 && next.authorityEpoch > 0
    ensures ValidReceipts(next)
  {
    assert next.completed.Keys == {next.operationId} && |next.completed| == |next.completed.Keys|;
  }

  /** The loser's candidate can be built whenever there is a next revision. */
  lemma HeadBuilt(env: Env, h: Head, d: Descriptor)
    requires Keyed(env, h, d) && Storable(env, h)
    requires ValidDescriptor(d, d.stream) && d.stream in h.metadata.pending && h.revision < U64_MAX
    ensures HeadWithMetadata(env, h, WithClaim(h.metadata, d), StagePhaseId(env, d)).Some?
  {
    hide PhaseId, ValidMetadata, ValidDescriptor, ValidMarker, Blank, ByteLen, ValidReceipts, StagePhaseId, HexKey;
    StageKeyShort(env, d);
    ClaimedMetadataValid(env, h.metadata, d);
    FirstReceipt(NewHead(env, h.authorityEpoch, h.revision + 1, StagePhaseId(env, d), h.sourceMarker,
                         WithClaim(h.metadata, d)));
  }

  lemma RebasedStorable(env: Env, h: Head, d: Descriptor)
    requires Storable(env, h) && !Blank(env.metadataDigest(WithClaim(h.metadata, d)))
    requires ValidDescriptor(d, d.stream) && d.stream in h.metadata.pending
    requires StagePhaseId(env, d) !in h.completed
    requires !Blank(StagePhaseId(env, d)) && ByteLen(StagePhaseId(env, d)) <= MAX_OPERATION_ID_BYTES
    requires h.revision < U64_MAX
    ensures HeadWithMetadata(env, h, WithClaim(h.metadata, d), StagePhaseId(env, d)).Some?
    ensures Storable(env, Rebased(env, h, d)) <==>
            |h.completed| < MAX_COMPLETED_OPERATIONS && env.headBytes(Rebased(env, h, d)) <= MAX_CONTROL_HEAD_BYTES
  {
    hide PhaseId, ValidMetadata, ValidDescriptor, ValidMarker, Blank, ByteLen, ValidReceipts;
    ClaimedMetadataValid(env, h.metadata, d);
    var r := Rebased(env, h, d);
    OneMoreReceipt(h, r);
    FirstReceipt(NewHead(env, h.authorityEpoch, h.revision + 1, StagePhaseId(env, d), h.sourceMarker,
                         WithClaim(h.metadata, d)));
  }

  // ------------------------------------------------------------- the loser

  function RunAlone(env: Env, s: System, p: nat, turns: nat): System {
    if turns == 0 then s else Step(env, RunAlone(env, s, p, turns - 1), Run(p))
  }

  function Turns(env: Env, history: seq<Written>, l: Local, turns: nat): (seq<Written>, Local) {
    if turns == 0 then (history, l)
    else var (h, m) := Turns(env, history, l, turns - 1); Turn(env, h, m)
  }

  lemma {:induction false} AloneIsTurns(env: Env, s: System, p: nat, n: nat)
    requires p in s.procs
    ensures var (h, l) := Turns(env, s.history, s.procs[p], n);
            RunAlone(env, s, p, n) == System(h, s.procs[p := l])
  {
    hide Turn;
    if n > 0 {
      AloneIsTurns(env, s, p, n - 1);
    }
  }

  /** An advance the head would take as it stands. */
  ghost predicate Acceptable(env: Env, h: Head, d: Descriptor) {
    && d.stream in h.metadata.pending
    && RebaseOk(env, d, StagePhaseId(env, d), h.metadata.pending[d.stream])
    && HandoffError(env, h.metadata, d, true) == None
    && StagePhaseId(env, d) !in h.completed
  }

  /** Coordinator `p` is advancing `d` from the last head but one, which would take it, and the write
      in between was an advance of another stream. That write may have come before the first load
      of the call, before the load of its update, or before its put. */
  ghost predicate LosingAdvance(env: Env, s: System, p: nat, d: Descriptor) {
    && Inv(env, s) && p in s.procs && 2 <= |s.history|
    && Acceptable(env, s.history[|s.history| - 2].head, d)
    && (var last := s.history[|s.history| - 1];
        last.kind.Advanced? && last.kind.stream != d.stream)
    && match s.procs[p]
       case CallAdvance(expected, descriptor) => descriptor == d && expected.version + 2 == |s.history|
       case UpdateInner(expected, _, _, _, c) =>
         c.RebaseTo? && c.descriptor == d && expected.version + 2 == |s.history|
       case Put(_, version, _, c) => c.RebaseTo? && c.descriptor == d && version + 2 == |s.history|
       case _ => false
  }

  /** The claim the interposed write advanced, as it left it. */
  function Winner(s: System): Option<Descriptor> {
    if s.history == [] || !s.history[|s.history| - 1].kind.Advanced? then None
    else
      var last := s.history[|s.history| - 1];
      if last.kind.stream in last.head.metadata.pending then Some(last.head.metadata.pending[last.kind.stream]) else None
  }

  /** What the interposed advance leaves for the loser. */
  lemma WinnerLeavesClaim(env: Env, base: Head, w: Written, d: Descriptor)
    requires Commit(env, base, w) && w.kind.Advanced? && w.kind.stream != d.stream && Acceptable(env, base, d)
    ensures var m := w.head.metadata;
            && d.stream in m.pending && m.pending[d.stream] == base.metadata.pending[d.stream]
            && HandoffError(env, m, d, true) == None
            && ExpectedError(base, w.head) == Some(Precondition)
            && w.kind.stream in m.pending
            && w.head.operationId == StagePhaseId(env, m.pending[w.kind.stream])
            && w.head.completed == base.completed[w.head.operationId := OwnReceipt(w.head)]
  {
    hide HandoffError, PhaseId, TransitionError, StagePhaseId, ImmutableEq, SubMap, RebaseOk;
    HandoffIgnoresClaims(env, base.metadata, w.head.metadata.pending, d);
    assert w.head.metadata == base.metadata.(pending := w.head.metadata.pending);
  }

  /** A coordinator on its way to advance `d` from `base`. */
  ghost predicate Advancing(env: Env, l: Local, base: Head, d: Descriptor)
    requires d.stream in base.metadata.pending
  {
    var op := StagePhaseId(env, d);
    var rebase := RebaseTo(d, op, base.metadata.pending[d.stream]);
    match l
    case CallAdvance(expected, descriptor) => descriptor == d && expected.head == base
    case UpdateInner(expected, next, preserve, _, c) =>
      && expected.head == base && !preserve && c == rebase
      && next.operationId == op && next.metadata == WithClaim(base.metadata, d)
      && next.metadataDigest == env.metadataDigest(next.metadata)
    case Put(next, _, _, c) =>
      && c == rebase && next.operationId == op && next.metadata == WithClaim(base.metadata, d)
      && next.metadataDigest == env.metadataDigest(next.metadata)
    case _ => false
  }

  ghost predicate LoserFacts(env: Env, s: System, p: nat, d: Descriptor) {
    var n := |s.history|;
    && p in s.procs && 2 <= n && Storable(env, s.history[n - 1].head)
    && Commit(env, s.history[n - 2].head, s.history[n - 1])
    && d.stream in s.history[n - 2].head.metadata.pending
    && Advancing(env, s.procs[p], s.history[n - 2].head, d)
    && (s.procs[p].Put? ==> s.procs[p].version + 2 == n)
  }

  lemma LoserIsAdvancing(env: Env, s: System, p: nat, d: Descriptor)
    requires LosingAdvance(env, s, p, d)
    ensures LoserFacts(env, s, p, d)
  {
    hide HandoffError, PhaseId, TransitionError, StagePhaseId, ValidMetadata, ValidReceipts, ValidMarker, ClaimStep,
         ValidDescriptor, ImmutableEq;
    assert LocalOk(env, s.history, s.procs[p]);
  }

  lemma SubmitStops(env: Env, latest: Snapshot, d: Descriptor)
    requires Storable(env, latest.head) && !Blank(env.metadataDigest(WithClaim(latest.head.metadata, d)))
    requires ValidDescriptor(d, d.stream) && d.stream in latest.head.metadata.pending
    requires StagePhaseId(env, d) !in latest.head.completed
    requires !Blank(StagePhaseId(env, d)) && ByteLen(StagePhaseId(env, d)) <= MAX_OPERATION_ID_BYTES
    ensures var h := latest.head;
            var r := Submit(env, latest, WithClaim(h.metadata, d), StagePhaseId(env, d), Advanced(d.stream), Report);
            if h.revision == U64_MAX then r == Fail(Invalid)
            else
              && r.UpdateInner?
              && var q := AfterUpdateLoad(env, r, latest);
              if Room(env, h, d) then q == Put(Rebased(env, h, d), latest.version, Advanced(d.stream), Report)
              else q.Done? && q.result.Err?
  {
    hide PhaseId, ValidDescriptor, ValidHead, StagePhaseId, Blank, ByteLen, MergeReceipts, Preserve, Rebased,
         ValidMarker;
    var h := latest.head;
    if h.revision < U64_MAX {
      RebasedStorable(env, h, d);
      MergedIsRebased(env, h, d);
      RebasedFollows(env, h, d);
    }
  }

  lemma MergedIsRebased(env: Env, h: Head, d: Descriptor)
    requires h.revision < U64_MAX && StagePhaseId(env, d) !in h.completed
    requires HeadWithMetadata(env, h, WithClaim(h.metadata, d), StagePhaseId(env, d)).Some?
    ensures var next := HeadWithMetadata(env, h, WithClaim(h.metadata, d), StagePhaseId(env, d)).value;
            && next.operationId == StagePhaseId(env, d)
            && MergeReceipts(next, h) == Some(Rebased(env, h, d))
            && TransitionError(h, next) == TransitionError(h, Rebased(env, h, d))
  {
    hide PhaseId, ValidHead, StagePhaseId;
    var op := StagePhaseId(env, d);
    var next := HeadWithMetadata(env, h, WithClaim(h.metadata, d), op).value;
    assert (next.completed + h.completed)[op := OwnReceipt(next)] == h.completed[op := OwnReceipt(next)];
  }

  lemma RebasedFollows(env: Env, h: Head, d: Descriptor)
    requires h.revision < U64_MAX
    ensures TransitionError(h, Rebased(env, h, d)) in {None, Some(SourceMarkerMismatch)}
    ensures TransitionError(h, Rebased(env, h, d)) == None <==>
            (h.authorityEpoch == U64_MAX ==>
               h.sourceMarker.authorityEpoch == U64_MAX && h.sourceMarker.revision == h.revision
               && h.sourceMarker.digest == h.metadataDigest)
  {
    hide PhaseId;
  }

  /** The loads after the lost put, when nobody else moves. */
  lemma RebaseDecides(env: Env, latest: Snapshot, l: Local)
    requires l.RebaseLoad? && RebaseOk(env, l.descriptor, l.operation, l.observed)
    requires Storable(env, latest.head)
    requires l.descriptor.stream in latest.head.metadata.pending
    requires latest.head.metadata.pending[l.descriptor.stream] == l.observed
    requires HandoffError(env, latest.head.metadata, l.descriptor, true) == None
    ensures AfterLoad(env, l, latest)
            == Submit(env, latest, WithClaim(latest.head.metadata, l.descriptor), l.operation,
                      Advanced(l.descriptor.stream), Report)
  {
    hide PhaseId, HandoffError, ValidDescriptor, ValidHead, StagePhaseId, Submit;
    ObservedEarlier(env, l);
  }

  lemma ObservedEarlier(env: Env, l: Local)
    requires l.RebaseLoad? && RebaseOk(env, l.descriptor, l.operation, l.observed)
    ensures l.observed != l.descriptor && l.observed.operationId == l.descriptor.operationId
  {
    hide ValidDescriptor, PhaseId;
  }

  lemma FiveTurns(env: Env, history: seq<Written>, l: Local)
    ensures Turns(env, history, l, 5)
            == var (h1, l1) := Turn(env, history, l); var (h2, l2) := Turn(env, h1, l1);
               var (h3, l3) := Turn(env, h2, l2); var (h4, l4) := Turn(env, h3, l3); Turn(env, h4, l4)
  {
    hide Turn;
    assert Turns(env, history, l, 1) == Turn(env, history, l);
    var (h2, l2) := Turns(env, history, l, 2);
    var (h3, l3) := Turns(env, history, l, 3);
    var (h4, l4) := Turns(env, history, l, 4);
  }

  lemma LastTurns(env: Env, history: seq<Written>, latest: Snapshot, d: Descriptor)
    requires Cell(history) == Some(latest)
    requires Storable(env, latest.head) && !Blank(env.metadataDigest(WithClaim(latest.head.metadata, d)))
    requires ValidDescriptor(d, d.stream) && d.stream in latest.head.metadata.pending
    requires StagePhaseId(env, d) !in latest.head.completed
    requires !Blank(StagePhaseId(env, d)) && ByteLen(StagePhaseId(env, d)) <= MAX_OPERATION_ID_BYTES
    ensures var h := latest.head;
            var l := Submit(env, latest, WithClaim(h.metadata, d), StagePhaseId(env, d), Advanced(d.stream), Report);
            var (h1, l1) := Turn(env, history, l);
            var (h2, l2) := Turn(env, h1, l1);
            if Room(env, h, d) then
              && h2 == history + [Written(Rebased(env, h, d), Advanced(d.stream))]
              && l2 == Done(Ok(Snapshot(Rebased(env, h, d), |history|)))
            else h2 == history && l2.Done? && l2.result.Err?
  {
    hide PhaseId, ValidDescriptor, ValidHead, StagePhaseId, Blank, ByteLen, Submit, AfterUpdateLoad, Rebased;
    SubmitStops(env, latest, d);
  }

  /** The first turns of the loser, in each of its three windows, lead to the one rebase. */
  lemma LoserRebases(env: Env, h: seq<Written>, l: Local, base: Head, latest: Snapshot, d: Descriptor)
    requires Cell(h) == Some(latest) && Storable(env, latest.head) && ExpectedError(base, latest.head) == Some(Precondition)
    requires Acceptable(env, base, d) && Advancing(env, l, base, d) && (l.Put? ==> l.version + 2 == |h|)
    requires d.stream in latest.head.metadata.pending
    requires latest.head.metadata.pending[d.stream] == base.metadata.pending[d.stream]
    requires l.CallAdvance? || StagePhaseId(env, d) !in latest.head.completed
    ensures var rebase := RebaseLoad(d, StagePhaseId(env, d), base.metadata.pending[d.stream]);
            if l.Put? then
              && Turn(env, h, l) == (h, Reconcile(l.next, l.onConflict))
              && Turn(env, h, Reconcile(l.next, l.onConflict)) == (h, rebase)
            else Turn(env, h, l) == (h, rebase)
  {
    hide ValidHead, HandoffError, PhaseId, StagePhaseId, TransitionError, MergeReceipts, ExpectedError, ValidDescriptor;
  }

  /** When the loser's key is taken by the winner, its put or update does not pass for the winner's. */
  lemma LoserRefused(env: Env, h: seq<Written>, l: Local, base: Head, latest: Snapshot, d: Descriptor)
    requires Cell(h) == Some(latest) && Storable(env, latest.head)
    requires env.metadataDigest(WithClaim(base.metadata, d)) != latest.head.metadataDigest
    requires Acceptable(env, base, d) && (l.Put? || l.UpdateInner?) && Advancing(env, l, base, d)
    requires (l.Put? ==> l.version + 2 == |h|) && d.stream in latest.head.metadata.pending
    requires latest.head.metadata.pending[d.stream] == base.metadata.pending[d.stream]
    requires StagePhaseId(env, d) in latest.head.completed
    requires latest.head.completed[StagePhaseId(env, d)] == OwnReceipt(latest.head)
    ensures if l.UpdateInner? then Turn(env, h, l) == (h, Fail(OperationConflict))
            else
              && Turn(env, h, l) == (h, Reconcile(l.next, l.onConflict))
              && Turn(env, h, Reconcile(l.next, l.onConflict))
                 == (h, RebaseLoad(d, StagePhaseId(env, d), base.metadata.pending[d.stream]))
  {
    hide ValidHead, HandoffError, PhaseId, StagePhaseId, TransitionError, MergeReceipts, ExpectedError, ValidDescriptor,
         ImmutableEq;
  }

  /** The rebase of an advance whose key is taken ends in a conflict and writes nothing. */
  lemma TakenRebaseFails(env: Env, history: seq<Written>, latest: Snapshot, d: Descriptor, observed: Descriptor)
    requires Keyed(env, latest.head, d) && Storable(env, latest.head) && Cell(history) == Some(latest)
    requires RebaseOk(env, d, StagePhaseId(env, d), observed)
    requires d.stream in latest.head.metadata.pending && latest.head.metadata.pending[d.stream] == observed
    requires HandoffError(env, latest.head.metadata, d, true) == None
    requires StagePhaseId(env, d) in latest.head.completed
    requires latest.head.completed[StagePhaseId(env, d)] == OwnReceipt(latest.head)
    ensures var (h1, l1) := Turn(env, history, RebaseLoad(d, StagePhaseId(env, d), observed));
            var (h2, l2) := Turn(env, h1, l1);
            && h2 == history && Turn(env, h2, l2) == (h2, l2)
            && l2 == Fail(if latest.head.revision == U64_MAX then Invalid else OperationConflict)
  {
    hide PhaseId, StagePhaseId, HandoffError, ValidHead, ValidDescriptor, Blank, ByteLen, MergeReceipts, TransitionError,
         HexKey;
    var rebase := RebaseLoad(d, StagePhaseId(env, d), observed);
    RebaseDecides(env, latest, rebase);
    if latest.head.revision < U64_MAX {
      HeadBuilt(env, latest.head, d);
    }
  }

  /** What is left of the loser's run once it rebases on a free key. */
  lemma FreeRebaseEnds(env: Env, history: seq<Written>, latest: Snapshot, d: Descriptor, observed: Descriptor)
    requires Keyed(env, latest.head, d) && Storable(env, latest.head) && Cell(history) == Some(latest)
    requires RebaseOk(env, d, StagePhaseId(env, d), observed)
    requires d.stream in latest.head.metadata.pending && latest.head.metadata.pending[d.stream] == observed
    requires HandoffError(env, latest.head.metadata, d, true) == None
    requires StagePhaseId(env, d) !in latest.head.completed
    ensures var (h1, l1) := Turn(env, history, RebaseLoad(d, StagePhaseId(env, d), observed));
            var (h2, l2) := Turn(env, h1, l1);
            var (h3, l3) := Turn(env, h2, l2);
            Ended(env, history, latest.head, d, h3, l3)
  {
    hide PhaseId, StagePhaseId, HandoffError, ValidHead, ValidDescriptor, Blank, ByteLen, Submit, HexKey, Rebased, Room;
    var rebase := RebaseLoad(d, StagePhaseId(env, d), observed);
    RebaseDecides(env, latest, rebase);
    StageKeyShort(env, d);
    LastTurns(env, history, latest, d);
  }

  /** How the loser's run ends on a free key: committed on top, or refused for want of room. */
  ghost predicate Ended(env: Env, history: seq<Written>, latest: Head, d: Descriptor, h: seq<Written>, l: Local) {
    if Room(env, latest, d) then
      && h == history + [Written(Rebased(env, latest, d), Advanced(d.stream))]
      && l == Done(Ok(Snapshot(Rebased(env, latest, d), |history|)))
    else h == history && l.Done? && l.result.Err?
  }

  /** The loser's candidate and the winner's head have different digests, as different metadata has. */
  ghost predicate Told(env: Env, base: Head, latest: Head, d: Descriptor) {
    env.metadataDigest(WithClaim(base.metadata, d)) != latest.metadataDigest
  }

  /** How the loser's run ends on a key the winner has taken: nothing is written, and unless the
      digests of the two heads collide the call is refused. */
  ghost predicate Refused(env: Env, history: seq<Written>, base: Head, latest: Head, d: Descriptor, l: Local,
                          h: seq<Written>, m: Local)
  {
    && h == history
    && (l.CallAdvance? || Told(env, base, latest, d) ==>
          m == Fail(OperationConflict) || (latest.revision == U64_MAX && m == Fail(Invalid)))
  }

  /** A coordinator that loses its advance to one interposed advance of another stream, wherever in
      its call that happens, and is then left alone, still commits: on top of the winner's head,
      which keeps the winner's claim. It fails exactly when the head has no room for one more
      revision, receipt or byte, or when the two phases share their receipt key, that is, unless the
      digest collides, the text under it. */
  lemma LoserStillCommits(env: Env, s: System, p: nat, d: Descriptor)
    requires LosingAdvance(env, s, p, d) && Keyed(env, s.history[|s.history| - 1].head, d)
    ensures Winner(s).Some? && 2 <= |s.history|
    ensures var base, latest := s.history[|s.history| - 2].head, s.history[|s.history| - 1].head;
            var after := RunAlone(env, s, p, 5);
            && p in after.procs
            && if StagePhaseId(env, d) == StagePhaseId(env, Winner(s).value) then
                 Refused(env, s.history, base, latest, d, s.procs[p], after.history, after.procs[p])
               else Ended(env, s.history, latest, d, after.history, after.procs[p])
    ensures Apart(env, d, Winner(s).value) ==>
              (StagePhaseId(env, d) == StagePhaseId(env, Winner(s).value) <==> StageText(d) == StageText(Winner(s).value))
  {
    hide Inv, Keyed, RebaseOk, StagePhaseId, HandoffError, Storable, Turns, Turn, RunAlone, Ended, StageText,
         ExpectedError, Advancing, Commit, Refused, Apart;
    LoserIsAdvancing(env, s, p, d);
    var n := |s.history|;
    var base, w := s.history[n - 2].head, s.history[n - 1];
    WinnerLeavesClaim(env, base, w, d);
    StageKeysShared(env, d, Winner(s).value);
    AloneIsTurns(env, s, p, 5);
    LoserTurns(env, s.history, s.procs[p], base, w.head, d);
  }

  lemma LoserTurns(env: Env, h: seq<Written>, l: Local, base: Head, latest: Head, d: Descriptor)
    requires h != [] && h[|h| - 1].head == latest && Storable(env, latest) && Keyed(env, latest, d)
    requires Acceptable(env, base, d) && Advancing(env, l, base, d) && (l.Put? ==> l.version + 2 == |h|)
    requires ExpectedError(base, latest) == Some(Precondition)
    requires d.stream in latest.metadata.pending
    requires latest.metadata.pending[d.stream] == base.metadata.pending[d.stream]
    requires HandoffError(env, latest.metadata, d, true) == None
    requires StagePhaseId(env, d) in latest.completed ==> latest.completed[StagePhaseId(env, d)] == OwnReceipt(latest)
    ensures var (g, m) := Turns(env, h, l, 5);
            if StagePhaseId(env, d) in latest.completed then Refused(env, h, base, latest, d, l, g, m)
            else Ended(env, h, latest, d, g, m)
  {
    hide Keyed, StagePhaseId, HandoffError, Storable, Turns, Turn, Ended, ExpectedError, Advancing, RebaseOk;
    var cell := Snapshot(latest, |h| - 1);
    var observed := base.metadata.pending[d.stream];
    FiveTurns(env, h, l);
    DoneStays(env);
    OnlyThree(env, l, base, d);
    if StagePhaseId(env, d) in latest.completed {
      TakenRebaseFails(env, h, cell, d, observed);
      if l.CallAdvance? {
        LoserRebases(env, h, l, base, cell, d);
      } else if Told(env, base, latest, d) {
        LoserRefused(env, h, l, base, cell, d);
      } else {
        TakenWritesNothing(env, h, l, base, cell, d);
        var m := if l.Put? then Turn(env, h, Reconcile(l.next, l.onConflict)).1 else Turn(env, h, l).1;
        assert m.Done? ==> m == Done(m.result);
      }
    } else {
      LoserRebases(env, h, l, base, cell, d);
      FreeRebaseEnds(env, h, cell, d, observed);
      var (h1, l1) := Turn(env, h, RebaseLoad(d, StagePhaseId(env, d), observed));
      var (h2, l2) := Turn(env, h1, l1);
      var (h3, l3) := Turn(env, h2, l2);
      EndedStays(env, h, latest, d, h3, l3);
    }
  }

  /** On a taken key the call ends, or goes on to the rebase, and the cell stays as it is. */
  lemma TakenWritesNothing(env: Env, h: seq<Written>, l: Local, base: Head, latest: Snapshot, d: Descriptor)
    requires Cell(h) == Some(latest) && Storable(env, latest.head)
    requires Acceptable(env, base, d) && (l.Put? || l.UpdateInner?) && Advancing(env, l, base, d)
    requires (l.Put? ==> l.version + 2 == |h|) && StagePhaseId(env, d) in latest.head.completed
    ensures var rebase := RebaseLoad(d, StagePhaseId(env, d), base.metadata.pending[d.stream]);
            if l.UpdateInner? then Turn(env, h, l).0 == h && Turn(env, h, l).1.Done?
            else
              && Turn(env, h, l) == (h, Reconcile(l.next, l.onConflict))
              && var (g, m) := Turn(env, h, Reconcile(l.next, l.onConflict));
                 g == h && (m.Done? || m == rebase)
  {
    hide ValidHead, HandoffError, PhaseId, StagePhaseId, TransitionError, MergeReceipts, ExpectedError, ValidDescriptor,
         ImmutableEq;
  }

  lemma OnlyThree(env: Env, l: Local, base: Head, d: Descriptor)
    requires d.stream in base.metadata.pending && Advancing(env, l, base, d)
    ensures l.CallAdvance? || l.UpdateInner? || l.Put?
  {
  }

  lemma DoneStays(env: Env)
    ensures forall h: seq<Written>, r: Result :: Turn(env, h, Done(r)) == (h, Done(r))
  {
  }

  lemma EndedStays(env: Env, history: seq<Written>, latest: Head, d: Descriptor, h: seq<Written>, l: Local)
    requires Ended(env, history, latest, d, h, l)
    ensures Turn(env, h, l) == (h, l)
  {
    hide Room, Rebased;
  }

  /** And what an advance commits, directly or rebased, differs from the head it replaces in exactly
      one claim and nothing else of the metadata. */
  lemma AdvanceChangesOneClaim(env: Env, actions: seq<Action>, j: nat)
    requires 0 < j < |Heads(env, actions)| && Heads(env, actions)[j].kind.Advanced?
    ensures var h := Heads(env, actions);
            var before, after := h[j - 1].head.metadata, h[j].head.metadata;
            var s := h[j].kind.stream;
            && s in before.pending && s in after.pending && after.pending[s] != before.pending[s]
            && after.pending[s].stage.Rank() > before.pending[s].stage.Rank()
            && (forall t :: t != s ==> (t in after.pending <==> t in before.pending))
            && (forall t :: t != s && t in before.pending ==> after.pending[t] == before.pending[t])
            && after.(pending := before.pending) == before
  {
    hide Storable, HandoffError, PhaseId, TransitionError, LocalOk;
    ExecKeeps(env, actions);
    var h := Heads(env, actions);
    assert Commit(env, h[j - 1].head, h[j]);
  }
}
