/** Safety of the control head over whole runs: any coordinators, any interleaving, any losses. */
module ControlTheorems {
  import opened Base
  import opened ControlTypes
  import opened ControlHead
  import opened ControlProtocol
  import opened ControlInvariant

  lemma RunOk(env: Env, actions: seq<Action>)
    ensures HistoryOk(env, Heads(env, actions))
  {
    hide HistoryOk, LocalOk;
    ExecKeeps(env, actions);
  }

  function ClaimsAt(h: seq<Written>, i: nat): Claims
    requires i < |h|
  {
    h[i].head.metadata.pending
  }

  // ------------------------------------------------------------ claims persist

  /** `b` is the same claim as `a`, no earlier in its life; a chosen successor is still chosen. */
  predicate Carries(a: Descriptor, b: Descriptor) {
    && |a.targetMembers| == |b.targetMembers|
    && ImmutableEq(a, b)
    && a.stage.Rank() <= b.stage.Rank()
  }

  /** Range `at` is the claim's successor: right after the source range closed at the archive
      watermark, or in its place when nothing of it was archived. */
  predicate RouteAt(d: Descriptor, ranges: seq<StreamSegment>, at: nat)
    requires d.archivedLsn.Some? && d.successor.Some? && at < |ranges|
  {
    && ranges[at] == d.successor.value
    && if d.archivedLsn.value >= d.source.startLsn then
         at > 0 && ClosedSource(d, ranges[at - 1]) && ranges[at].startLsn == d.archivedLsn.value + 1
       else ranges[at].startLsn == d.source.startLsn
  }

  /** The manifest routes the stream to exactly the claim's successor. */
  ghost predicate RouteInPlace(m: ReplicaManifest, d: Descriptor) {
    && d.stream in m.streamSegments && d.archivedLsn.Some? && d.successor.Some?
    && exists at :: 0 <= at < |m.streamSegments[d.stream]| && RouteAt(d, m.streamSegments[d.stream], at)
  }

  /** Write `k` completes the handoff that `claim` began, with its route in place. */
  ghost predicate CompletedAt(h: seq<Written>, k: nat, s: string, claim: Descriptor) {
    && 0 < k < |h| && h[k].kind == Completed(s)
    && s in ClaimsAt(h, k - 1) && s !in ClaimsAt(h, k)
    && var last := ClaimsAt(h, k - 1)[s];
    && Carries(claim, last) && last.stage == RoutePublished
    && RouteInPlace(h[k].head.metadata.manifest, last)
  }

  lemma ValidClaim(env: Env, h: seq<Written>, i: nat, s: string)
    requires HistoryOk(env, h) && i < |h| && s in ClaimsAt(h, i)
    ensures ValidDescriptor(ClaimsAt(h, i)[s], s)
  {
    hide ValidDescriptor, ValidManifest, ValidMembership, ValidRouting, ValidReceipts, ValidMarker, Commit;
  }

  lemma PublishedRoute(d: Descriptor, ranges: seq<StreamSegment>) returns (at: nat)
    requires ValidRanges(ranges) && ValidPhase(d) && d.stage == RoutePublished
    requires RouteReady(d, ranges, true)
    ensures at < |ranges| && RouteAt(d, ranges, at)
  {
    hide StrictlySorted, Blank, MemberIds;
    at := Position(ranges, (r: StreamSegment) => r == d.successor.value);
    if d.archivedLsn.value >= d.source.startLsn {
      assert ClosedSource(d, ranges[at - 1]);
      assert Follows(ranges[at - 1], ranges[at]);
    }
  }

  lemma CompletionRoutes(env: Env, h: Head, s: string)
    requires Storable(env, h) && s in h.metadata.pending
    requires ValidDescriptor(h.metadata.pending[s], s)
    requires h.metadata.pending[s].stage == RoutePublished
    requires HandoffError(env, h.metadata, h.metadata.pending[s], true) == None
    ensures RouteInPlace(h.metadata.manifest, h.metadata.pending[s])
  {
    hide Storable, ValidRanges, ValidTarget, ValidSource, ValidPlacements, ValidPhase, SourceReady, TargetReady,
         RouteReady, ClosedSource, Blank, ByteLen;
    var d := h.metadata.pending[s];
    var ranges := h.metadata.manifest.streamSegments[d.stream];
    RoutedRanges(env, h, s);
    ArchivedKnown(d, s);
    var at := PublishedRoute(d, ranges);
  }

  lemma ArchivedKnown(d: Descriptor, s: string)
    requires ValidDescriptor(d, s) && d.stage.Rank() >= ArchiveVerified.Rank()
    ensures d.archivedLsn.Some? && d.successor.Some? && d.successorPlacement.Some?
    ensures d.successor.value.startLsn == Max(SatAdd(d.archivedLsn.value, 1), d.source.startLsn)
  {
    hide ValidTarget, ValidSource, ValidPlacements, Blank, ByteLen, MemberIds;
  }

  lemma ClaimNext(env: Env, h: seq<Written>, j: nat, s: string)
    requires HistoryOk(env, h) && j + 1 < |h| && s in ClaimsAt(h, j)
    ensures CompletedAt(h, j + 1, s, ClaimsAt(h, j)[s])
            || (s in ClaimsAt(h, j + 1) && Carries(ClaimsAt(h, j)[s], ClaimsAt(h, j + 1)[s]))
  {
    hide Storable, ValidDescriptor, TransitionError, HandoffError, PhaseId, SubMap;
    ValidClaim(env, h, j, s);
    TargetSize(ClaimsAt(h, j)[s], s);
    var kind := h[j + 1].kind;
    assert Commit(env, h[j].head, h[j + 1]);
    if kind == Completed(s) {
      CompletionRoutes(env, h[j].head, s);
    } else {
      KeptUnlessCompleted(env, h[j].head, h[j + 1], s);
      ValidClaim(env, h, j + 1, s);
      TargetSize(ClaimsAt(h, j + 1)[s], s);
    }
  }

  lemma TargetSize(d: Descriptor, s: string)
    requires ValidDescriptor(d, s)
    ensures |d.targetMembers| == REPLICATION_FACTOR
  {
  }

  lemma KeptUnlessCompleted(env: Env, h: Head, w: Written, s: string)
    requires Commit(env, h, w) && s in h.metadata.pending && w.kind != Completed(s)
    ensures s in w.head.metadata.pending
    ensures ImmutableEq(h.metadata.pending[s], w.head.metadata.pending[s])
    ensures h.metadata.pending[s].stage.Rank() <= w.head.metadata.pending[s].stage.Rank()
  {
    hide TransitionError, HandoffError, PhaseId;
    match w.kind {
      case Published(t) =>
        if s != t {
          assert s in h.metadata.pending - {t};
          assert (w.head.metadata.pending - {t})[s] == w.head.metadata.pending[s];
        }
      case _ =>
    }
  }

  lemma CarriesReflexive(a: Descriptor)
    ensures Carries(a, a)
  {
  }

  lemma CarriesTransitive(a: Descriptor, b: Descriptor, c: Descriptor)
    requires Carries(a, b) && Carries(b, c)
    ensures Carries(a, c)
  {
  }

  lemma {:induction false} ClaimHeld(env: Env, h: seq<Written>, i: nat, j: nat, s: string)
    requires HistoryOk(env, h) && i <= j < |h| && s in ClaimsAt(h, i)
    ensures (exists k :: i < k <= j && CompletedAt(h, k, s, ClaimsAt(h, i)[s]))
            || (s in ClaimsAt(h, j) && Carries(ClaimsAt(h, i)[s], ClaimsAt(h, j)[s]))
    decreases j
  {
    hide HistoryOk, ImmutableEq, RouteInPlace;
    if i == j {
      CarriesReflexive(ClaimsAt(h, i)[s]);
    } else {
      ClaimHeld(env, h, i, j - 1, s);
      if s in ClaimsAt(h, j - 1) && Carries(ClaimsAt(h, i)[s], ClaimsAt(h, j - 1)[s]) {
        var claim, last := ClaimsAt(h, i)[s], ClaimsAt(h, j - 1)[s];
        ClaimNext(env, h, j - 1, s);
        if CompletedAt(h, j, s, last) {
          assert CompletedAt(h, j, s, claim);
        } else {
          CarriesTransitive(claim, last, ClaimsAt(h, j)[s]);
        }
      }
    }
  }

  /** Once a stream has a claim, every later head carries that claim, at the same stage or a later
      one and with any chosen successor unchanged, until a completion removes it; and a completion
      happens only at the route-published stage, with exactly the claim's route in the manifest. */
  lemma ClaimsPersist(env: Env, actions: seq<Action>, i: nat, j: nat, s: string)
    requires i <= j < |Heads(env, actions)|
    requires s in ClaimsAt(Heads(env, actions), i)
    ensures var h := Heads(env, actions);
            (exists k :: i < k <= j && CompletedAt(h, k, s, ClaimsAt(h, i)[s]))
            || (s in ClaimsAt(h, j) && Carries(ClaimsAt(h, i)[s], ClaimsAt(h, j)[s]))
  {
    hide HistoryOk, Carries, CompletedAt;
    RunOk(env, actions);
    ClaimHeld(env, Heads(env, actions), i, j, s);
  }

  // ---------------------------------------------------- the handoff boundary

  ghost predicate Covers(r: StreamSegment, lsn: nat) {
    r.startLsn <= lsn && (r.endLsn.Some? ==> lsn <= r.endLsn.value)
  }

  lemma {:induction false} StartsIncrease(ranges: seq<StreamSegment>, i: nat, j: nat)
    requires ValidRanges(ranges) && i < j < |ranges|
    ensures ranges[i].endLsn.Some? && ranges[i].endLsn.value < ranges[j].startLsn
    decreases j - i
  {
    hide StrictlySorted, Blank;
    assert Follows(ranges[i], ranges[i + 1]) && ValidSegment(ranges[i + 1]);
    if i + 1 < j {
      StartsIncrease(ranges, i + 1, j);
    }
  }

  lemma {:induction false} RangeFor(ranges: seq<StreamSegment>, n: nat, lsn: nat) returns (i: nat)
    requires ValidRanges(ranges) && n < |ranges|
    requires 1 <= lsn && (ranges[n].endLsn.Some? ==> lsn <= ranges[n].endLsn.value)
    ensures i <= n && Covers(ranges[i], lsn)
  {
    hide StrictlySorted, Blank;
    if ranges[n].startLsn <= lsn {
      i := n;
    } else {
      assert Follows(ranges[n - 1], ranges[n]);
      i := RangeFor(ranges, n - 1, lsn);
    }
  }

  /** In every head ever published, the ranges of a routed stream meet without gap or overlap: every
      LSN from 1 up to the end of the last range lies in exactly one of them. */
  lemma RoutesPartition(env: Env, actions: seq<Action>, i: nat, s: string, lsn: nat)
    requires i < |Heads(env, actions)|
    requires s in Heads(env, actions)[i].head.metadata.manifest.streamSegments
    requires 1 <= lsn
    ensures var ranges := Heads(env, actions)[i].head.metadata.manifest.streamSegments[s];
            && ranges != []
            && var last := ranges[|ranges| - 1];
            && ((last.endLsn.Some? ==> lsn <= last.endLsn.value) <==>
                (exists a :: 0 <= a < |ranges| && Covers(ranges[a], lsn)))
            && (forall a, b | 0 <= a < |ranges| && 0 <= b < |ranges| ::
                  Covers(ranges[a], lsn) && Covers(ranges[b], lsn) ==> a == b)
  {
    hide StrictlySorted, Blank, ValidHead, Commit;
    RunOk(env, actions);
    var h := Heads(env, actions)[i].head;
    var ranges := h.metadata.manifest.streamSegments[s];
    RoutedRanges(env, h, s);
    var n := |ranges| - 1;
    if ranges[n].endLsn.Some? ==> lsn <= ranges[n].endLsn.value {
      var a := RangeFor(ranges, n, lsn);
    }
    forall a, b | 0 <= a < b < |ranges|
      ensures ranges[a].endLsn.Some? && ranges[a].endLsn.value < ranges[b].startLsn
    {
      StartsIncrease(ranges, a, b);
    }
    forall b | 0 <= b < |ranges| ensures ValidSegment(ranges[b]) {
    }
  }

  lemma RoutedRanges(env: Env, h: Head, s: string)
    requires Storable(env, h) && s in h.metadata.manifest.streamSegments
    ensures ValidRanges(h.metadata.manifest.streamSegments[s])
  {
    hide ValidMembership, ValidRouting, ValidReceipts, ValidMarker, ValidDescriptor, ValidRanges;
  }

  /** Which other watermarks a verified claim could carry instead of its own: exactly those that give
      the same successor start. */
  lemma WatermarkMovesIff(d: Descriptor, key: string, y: u64)
    requires ValidDescriptor(d, key) && d.archivedLsn.Some?
    ensures var x := d.archivedLsn.value;
            var moved := d.(archivedLsn := Some(y));
            ValidDescriptor(moved, key) && Carries(d, moved) <==>
              x == y || Max(SatAdd(x, 1), SatAdd(y, 1)) <= d.source.startLsn || (x >= U64_MAX - 1 && y >= U64_MAX - 1)
  {
    hide Blank, ByteLen, StrictlySorted;
    CarriesReflexive(d);
  }

  /** From the archive-verified stage on, a claim's boundary is fixed: the successor route and its
      placement are the ones already chosen, and so is the archive watermark, unless nothing of the
      source range is archived or the successor starts on the last LSN there is. */
  lemma BoundaryFixed(env: Env, actions: seq<Action>, i: nat, j: nat, s: string)
    requires i <= j < |Heads(env, actions)|
    requires s in ClaimsAt(Heads(env, actions), i)
    requires ClaimsAt(Heads(env, actions), i)[s].stage.Rank() >= ArchiveVerified.Rank()
    requires !exists k :: i < k <= j && Heads(env, actions)[k].kind == Completed(s)
    ensures var h := Heads(env, actions);
            && s in ClaimsAt(h, j)
            && var a := ClaimsAt(h, i)[s];
            && var b := ClaimsAt(h, j)[s];
            && a.successor.Some? && b.successor == a.successor
            && a.successorPlacement.Some? && b.successorPlacement == a.successorPlacement
            && b.archivedLsn.Some? && a.archivedLsn.Some?
            && var x, y := a.archivedLsn.value, b.archivedLsn.value;
            && b.source == a.source
            && (x == y || (x < a.source.startLsn && y < a.source.startLsn) || a.successor.value.startLsn == U64_MAX)
  {
    hide HistoryOk, RouteInPlace, ValidDescriptor;
    var h := Heads(env, actions);
    ClaimsPersist(env, actions, i, j, s);
    assert s in ClaimsAt(h, j) && Carries(ClaimsAt(h, i)[s], ClaimsAt(h, j)[s]);
    RunOk(env, actions);
    ValidClaim(env, h, i, s);
    ValidClaim(env, h, j, s);
    ArchivedKnown(ClaimsAt(h, i)[s], s);
    ArchivedKnown(ClaimsAt(h, j)[s], s);
  }

  // -------------------------------------------------- receipts and revisions

  lemma {:induction false} ReceiptsKept(env: Env, h: seq<Written>, i: nat, j: nat)
    requires HistoryOk(env, h) && i <= j < |h|
    ensures SubMap(h[i].head.completed, h[j].head.completed)
    decreases j
  {
    hide Storable, ClaimStep, TransitionError;
    if i < j {
      ReceiptsKept(env, h, i, j - 1);
      assert Commit(env, h[j - 1].head, h[j]);
    }
  }

  /** Receipts only accumulate, and one operation id is behind at most one committed head,
      however many coordinators replay it or race for it. */
  lemma ReceiptsAppendOnly(env: Env, actions: seq<Action>, i: nat, j: nat)
    requires i < j < |Heads(env, actions)|
    ensures var h := Heads(env, actions);
            && SubMap(h[i].head.completed, h[j].head.completed)
            && h[i].head.operationId != h[j].head.operationId
            && h[j].head.operationId !in h[i].head.completed
            && h[i].head.operationId in h[j].head.completed
            && h[j].head.completed[h[i].head.operationId] == OwnReceipt(h[i].head)
  {
    hide Storable, ClaimStep, TransitionError;
    var h := Heads(env, actions);
    RunOk(env, actions);
    ReceiptsKept(env, h, i, j - 1);
    ReceiptsKept(env, h, i, j);
    assert Commit(env, h[j - 1].head, h[j]);
    HasOwnReceipt(env, h[i].head);
  }

  lemma HasOwnReceipt(env: Env, h: Head)
    requires Storable(env, h)
    ensures h.operationId in h.completed && h.completed[h.operationId] == OwnReceipt(h)
  {
    hide ValidMetadata, ValidMarker;
  }

  lemma {:induction false} RevisionsFrom(env: Env, h: seq<Written>, j: nat)
    requires HistoryOk(env, h) && j < |h|
    ensures h[j].head.revision == SatAdd(h[0].head.revision, j)
  {
    hide Storable, ClaimStep, SubMap;
    if 0 < j {
      RevisionsFrom(env, h, j - 1);
      assert Commit(env, h[j - 1].head, h[j]);
    }
  }

  /** Every committed write raises the revision by exactly one, unless it is already the last u64. */
  lemma RevisionRises(env: Env, actions: seq<Action>, j: nat)
    requires 0 < j < |Heads(env, actions)|
    ensures var h := Heads(env, actions);
            && h[j].head.revision == SatAdd(h[0].head.revision, j)
            && (h[j].head.revision == h[j - 1].head.revision + 1 <==> h[j - 1].head.revision < U64_MAX)
  {
    hide HistoryOk;
    RunOk(env, actions);
    RevisionsFrom(env, Heads(env, actions), j);
    RevisionsFrom(env, Heads(env, actions), j - 1);
  }

  // --------------------------------------------------- authority generations

  /** Head `k` is the last of its generation and head `k + 1` the first of the next. */
  ghost predicate LastOfGeneration(h: seq<Written>, k: nat) {
    k + 1 < |h| && h[k + 1].head.authorityEpoch == h[k].head.authorityEpoch + 1
  }

  ghost predicate MarkerNames(m: SourceMarker, h: Head) {
    m.authorityEpoch == h.authorityEpoch && m.revision == h.revision && m.digest == h.metadataDigest
  }

  lemma {:induction false} GenerationSource(env: Env, h: seq<Written>, j: nat) returns (k: nat)
    requires HistoryOk(env, h) && j < |h|
    requires h[j].head.authorityEpoch > h[0].head.authorityEpoch
    ensures k < j && LastOfGeneration(h, k)
    ensures h[k].head.authorityEpoch + 1 == h[j].head.authorityEpoch
    ensures MarkerNames(h[j].head.sourceMarker, h[k].head)
    ensures forall i :: k < i <= j ==> h[i].head.authorityEpoch == h[j].head.authorityEpoch
  {
    hide Storable, ClaimStep, SubMap;
    assert Commit(env, h[j - 1].head, h[j]);
    if h[j].head.authorityEpoch == h[j - 1].head.authorityEpoch {
      k := GenerationSource(env, h, j - 1);
    } else {
      k := j - 1;
    }
  }

  /** Authority generations form a chain: the epoch never falls and rises by at most one per write,
      and every head of a generation after the first names, in its source marker, the epoch, the
      revision and the metadata digest of the last head of the generation before. */
  lemma GenerationsChain(env: Env, actions: seq<Action>, j: nat)
    requires 0 < j < |Heads(env, actions)|
    ensures var h := Heads(env, actions);
            && h[j - 1].head.authorityEpoch <= h[j].head.authorityEpoch <= h[j - 1].head.authorityEpoch + 1
            && (h[j].head.authorityEpoch > h[0].head.authorityEpoch ==>
                  exists k :: 0 <= k < j && LastOfGeneration(h, k)
                    && h[k].head.authorityEpoch + 1 == h[j].head.authorityEpoch
                    && MarkerNames(h[j].head.sourceMarker, h[k].head))
  {
    hide Storable, ClaimStep, SubMap;
    var h := Heads(env, actions);
    RunOk(env, actions);
    assert Commit(env, h[j - 1].head, h[j]);
    if h[j].head.authorityEpoch > h[0].head.authorityEpoch {
      var k := GenerationSource(env, h, j);
    }
  }
}
