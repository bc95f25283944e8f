/** What success means: the claim, advance, publication or completion a coordinator is told of is in
    the history of the head. */
module ControlOk {
  import opened Base
  import opened ControlTypes
  import opened ControlHead
  import opened ControlProtocol
  import opened ControlInvariant
  import opened ControlTheorems
  import opened ControlAnswers

  // ------------------------------------------------------------- receipts are earned

  /** A caller's head carries no receipt of another operation. */
  predicate BringsOwn(call: Local) {
    match call
    case CallCreate(head) => head.completed.Keys <= {head.operationId}
    case UpdateInner(_, next, _, _, _) => next.completed.Keys <= {next.operationId}
    case _ => true
  }

  predicate OwnReceiptsOnly(actions: seq<Action>) {
    forall i :: 0 <= i < |actions| && actions[i].Begin? ==> BringsOwn(actions[i].call)
  }

  /** Head `k` was written by this operation and left this receipt. */
  predicate Wrote(history: seq<Written>, k: nat, op: string, r: Receipt)
    requires k < |history|
  {
    history[k].head.operationId == op && OwnReceipt(history[k].head) == r
  }

  ghost predicate Earned(history: seq<Written>, v: nat, op: string)
    requires v < |history| && op in history[v].head.completed
  {
    exists k :: 0 <= k <= v && Wrote(history, k, op, history[v].head.completed[op])
  }

  /** Every receipt of every head is of a write at or before it. */
  ghost predicate AllEarned(history: seq<Written>) {
    forall v, op | 0 <= v < |history| && op in history[v].head.completed :: Earned(history, v, op)
  }

  ghost predicate LocalOwn(history: seq<Written>, l: Local) {
    match l
    case Put(next, version, _, _) =>
      && version < |history|
      && next.completed == history[version].head.completed[next.operationId := OwnReceipt(next)]
    case _ => BringsOwn(l)
  }

  /** A candidate of a claim, an advance, a publication or a completion carries only its own receipt. */
  lemma SubmitOwn(env: Env, history: seq<Written>, base: Snapshot, m: ControlMetadata, op: string, kind: Kind, c: OnConflict)
    ensures LocalOwn(history, Submit(env, base, m, op, kind, c))
  {
    hide ValidHead;
  }

  lemma ClaimOwn(env: Env, history: seq<Written>, l: Local, current: Snapshot)
    requires l.CallClaim? || l.CallComplete? || l.CallPublish?
    ensures LocalOwn(history, if l.CallClaim? then AfterClaimLoad(env, l, current)
                              else if l.CallComplete? then AfterCompleteLoad(env, l, current)
                              else AfterPublishLoad(env, l, current))
  {
    hide Submit, HandoffError, PhaseId, StagePhaseId, ImmutableEq, ValidDescriptor, ExpectedError, Blank;
    forall m, op, kind, c ensures LocalOwn(history, Submit(env, current, m, op, kind, c)) {
      SubmitOwn(env, history, current, m, op, kind, c);
    }
  }

  lemma AdvanceOwn(env: Env, history: seq<Written>, l: Local, current: Snapshot)
    requires l.CallAdvance? || l.RebaseLoad?
    ensures LocalOwn(history, if l.CallAdvance? then AfterAdvanceLoad(env, l, current) else AfterRebaseLoad(env, l, current))
  {
    hide Submit, HandoffError, StagePhaseId, ImmutableEq, ValidDescriptor, ExpectedError;
    forall m, op, kind, c ensures LocalOwn(history, Submit(env, current, m, op, kind, c)) {
      SubmitOwn(env, history, current, m, op, kind, c);
    }
  }

  lemma LoadOwn(env: Env, history: seq<Written>, l: Local, current: Snapshot)
    requires !l.CallCreate? && !l.Put? && !l.Done? && LocalOk(env, history, l) && LocalOwn(history, l)
    requires Authentic(history, current)
    ensures LocalOwn(history, AfterLoad(env, l, current))
  {
    hide Storable, LocalOk, AfterUpdateLoad, AfterClaimLoad, AfterAdvanceLoad, AfterRebaseLoad, AfterPublishLoad,
         AfterCompleteLoad;
    match l {
      case UpdateInner(_, _, _, _, _) => UpdateOwn(env, history, l, current);
      case CallAdvance(_, _) => AdvanceOwn(env, history, l, current);
      case RebaseLoad(_, _, _) => AdvanceOwn(env, history, l, current);
      case CallClaim(_, _) => ClaimOwn(env, history, l, current);
      case CallPublish(_, _, _) => ClaimOwn(env, history, l, current);
      case CallComplete(_, _, _) => ClaimOwn(env, history, l, current);
      case _ =>
    }
  }

  lemma UpdateOwn(env: Env, history: seq<Written>, l: Local, current: Snapshot)
    requires l.UpdateInner? && LocalOk(env, history, l) && LocalOwn(history, l) && Authentic(history, current)
    ensures LocalOwn(history, AfterUpdateLoad(env, l, current))
  {
    hide Storable, PhaseId, ClaimStep, ConflictOk, RebaseOk, TransitionError;
    var r := AfterUpdateLoad(env, l, current);
    if r.Put? {
      var next := if l.preserve then Preserve(env, l.next, current.head) else l.next;
      assert next.completed.Keys <= {next.operationId};
      var op, published := next.operationId, current.head.completed;
      assert (next.completed + published)[op := OwnReceipt(next)] == published[op := OwnReceipt(next)];
      assert OwnReceipt(r.next) == OwnReceipt(next);
    }
  }

  lemma PutOwn(env: Env, history: seq<Written>, l: Local)
    requires l.Put? && LocalOwn(history, l) && AllEarned(history)
    ensures LocalOwn(Turn(env, history, l).0, Turn(env, history, l).1) && AllEarned(Turn(env, history, l).0)
  {
    hide AllEarned;
    if l.version + 1 == |history| {
      EarnedAppend(history, Written(l.next, l.kind));
    }
  }

  lemma CreateOwn(env: Env, history: seq<Written>, l: Local)
    requires l.CallCreate? && BringsOwn(l) && AllEarned(history)
    ensures LocalOwn(Turn(env, history, l).0, Turn(env, history, l).1) && AllEarned(Turn(env, history, l).0)
  {
    hide AllEarned, ValidMetadata, ValidMarker, Blank, ByteLen, ValidReceipts;
    if history == [] && Storable(env, l.head) {
      EarnedFirst(l.head);
    }
  }

  lemma TurnOwn(env: Env, history: seq<Written>, l: Local)
    requires LocalOk(env, history, l) && LocalOwn(history, l) && AllEarned(history)
    ensures LocalOwn(Turn(env, history, l).0, Turn(env, history, l).1)
    ensures AllEarned(Turn(env, history, l).0)
  {
    hide AfterLoad, AfterMissing, LocalOk, AllEarned, Storable;
    if l.Put? {
      PutOwn(env, history, l);
    } else if l.CallCreate? {
      CreateOwn(env, history, l);
    } else if !l.Done? {
      MissingOwn(history, l);
      if history != [] {
        LoadOwn(env, history, l, Cell(history).value);
      }
    }
  }

  lemma MissingOwn(history: seq<Written>, l: Local)
    requires !l.CallCreate? && !l.Put? && !l.Done?
    ensures LocalOwn(history, AfterMissing(l))
  {
  }

  lemma EarnedFirst(h: Head)
    requires ValidReceipts(h) && h.completed.Keys <= {h.operationId}
    ensures AllEarned([Written(h, Created)])
  {
    var history := [Written(h, Created)];
    forall v, op | 0 <= v < |history| && op in history[v].head.completed ensures Earned(history, v, op) {
      assert op in h.completed.Keys;
      assert Wrote(history, 0, op, h.completed[op]);
    }
  }

  lemma EarnedAppend(history: seq<Written>, w: Written)
    requires AllEarned(history) && history != []
    requires w.head.completed == history[|history| - 1].head.completed[w.head.operationId := OwnReceipt(w.head)]
    ensures AllEarned(history + [w])
  {
    var longer, n := history + [w], |history|;
    forall v, op | 0 <= v < |longer| && op in longer[v].head.completed ensures Earned(longer, v, op) {
      if v == n && op == w.head.operationId {
        assert Wrote(longer, n, op, longer[v].head.completed[op]);
      } else {
        var u := if v == n then n - 1 else v;
        assert Earned(history, u, op);
        var k :| 0 <= k <= u && Wrote(history, k, op, history[u].head.completed[op]);
        assert Wrote(longer, k, op, longer[v].head.completed[op]);
      }
    }
  }

  ghost predicate AllOwn(s: System) {
    AllEarned(s.history) && forall p :: p in s.procs ==> LocalOwn(s.history, s.procs[p])
  }

  lemma OwnLonger(history: seq<Written>, longer: seq<Written>, l: Local)
    requires LocalOwn(history, l) && history <= longer
    ensures LocalOwn(longer, l)
  {
  }

  /** In every run whose callers bring no receipts of their own making, every receipt is earned. */
  lemma {:induction false} ReceiptsEarned(env: Env, actions: seq<Action>)
    requires OwnReceiptsOnly(actions)
    ensures AllOwn(Exec(env, actions))
  {
    hide LocalOwn, AllEarned, LocalOk, HistoryOk, Turn, Callable, BringsOwn;
    if actions == [] {
      NothingEarned();
    } else {
      var n := |actions| - 1;
      var s, t, a := Exec(env, actions[..n]), Exec(env, actions), actions[n];
      assert OwnReceiptsOnly(actions[..n]);
      ReceiptsEarned(env, actions[..n]);
      ExecKeeps(env, actions[..n]);
      StepKeeps(env, s, a);
      if a.p in s.procs {
        TurnOwn(env, s.history, s.procs[a.p]);
      }
      forall p | p in t.procs ensures LocalOwn(t.history, t.procs[p]) {
        if p != a.p || (p in s.procs && t.procs[p] == s.procs[p]) {
          OwnLonger(s.history, t.history, s.procs[p]);
        } else if a.Begin? {
          CallableOwn(s.history, a.call);
        } else {
          FailOwn(t.history);
        }
      }
    }
  }

  lemma NothingEarned()
    ensures AllEarned([])
  {
  }

  lemma CallableOwn(history: seq<Written>, call: Local)
    requires BringsOwn(call) && Callable(history, call)
    ensures LocalOwn(history, call)
  {
  }

  lemma FailOwn(history: seq<Written>)
    ensures forall e :: LocalOwn(history, Fail(e))
  {
  }

  // --------------------------------------------------------------- what success means

  /** Coordinator `p` made this call and was told that it succeeded, with this snapshot. */
  ghost predicate Succeeded(env: Env, actions: seq<Action>, p: nat, call: Local, s: Snapshot) {
    CallOf(env, actions, p) == Some(call) && p in Exec(env, actions).procs
    && Exec(env, actions).procs[p] == Done(Ok(s))
  }

  /** The digests of what the call would write on some head and of some written head collide only if
      the two are the same. */
  ghost predicate NoClash(env: Env, history: seq<Written>, call: Local) {
    forall i, k | 0 <= i < |history| && 0 <= k < |history| ::
      Distinguished(env, Target(call, history[i].head), history[k].head)
  }

  ghost predicate Distinguished(env: Env, m: ControlMetadata, h: Head) {
    env.metadataDigest(m) == h.metadataDigest ==> m == h.metadata
  }

  /** A success is a snapshot of the history that shows the call's own receipt, or that what it asks
      for was so already. */
  lemma SuccessShows(env: Env, actions: seq<Action>, p: nat, call: Local, s: Snapshot)
    requires Succeeded(env, actions, p, call, s)
    ensures Authentic(Heads(env, actions), s)
    ensures Receipted(env, Heads(env, actions), call, s.head) || Already(env, call, s.head)
  {
    hide Receipted, Already;
    ExecServes(env, actions);
  }

  /** Under the conditions, a receipted call's write is the head `k` of the history. */
  lemma ReceiptedWrite(env: Env, actions: seq<Action>, call: Local, s: Snapshot) returns (k: nat)
    requires OwnReceiptsOnly(actions) && NoClash(env, Heads(env, actions), call)
    requires call.CallClaim? || call.CallAdvance? || call.CallPublish? || call.CallComplete?
    requires Authentic(Heads(env, actions), s) && Receipted(env, Heads(env, actions), call, s.head)
    ensures k <= s.version && Heads(env, actions)[k].head.operationId == Key(env, call)
    ensures exists i :: 0 <= i < |Heads(env, actions)| &&
                        Heads(env, actions)[k].head.metadata == Target(call, Heads(env, actions)[i].head)
  {
    hide Exec, Key, Target, AllEarned;
    var h := Heads(env, actions);
    ReceiptsEarned(env, actions);
    var op := Key(env, call);
    assert op in h[s.version].head.completed;
    assert Earned(h, s.version, op) by { EarnedAt(h, s.version, op); }
    k :| 0 <= k <= s.version && Wrote(h, k, op, h[s.version].head.completed[op]);
    var i :| 0 <= i < |h| && OnTop(env, h[i].head, call, h[s.version].head.completed[op]);
    assert Distinguished(env, Target(call, h[i].head), h[k].head);
  }

  lemma EarnedAt(history: seq<Written>, v: nat, op: string)
    requires AllEarned(history) && v < |history| && op in history[v].head.completed
    ensures Earned(history, v, op)
  {
  }

  /** The stream's claim in head `k` is this one: same operation, source and target. */
  predicate Holds(h: seq<Written>, k: nat, d: Descriptor) {
    k < |h| && d.stream in h[k].head.metadata.pending && SameClaim(h[k].head.metadata.pending[d.stream], d)
  }

  /** The claim was completed after head `k` and at or before `v`. */
  ghost predicate CompletedBetween(h: seq<Written>, k: nat, v: nat, stream: string) {
    exists j :: k < j <= v < |h| && h[j].kind == Completed(stream)
  }

  lemma HeldSince(env: Env, actions: seq<Action>, k: nat, v: nat, d: Descriptor)
    requires k <= v < |Heads(env, actions)| && Holds(Heads(env, actions), k, d)
    ensures var h := Heads(env, actions);
            || CompletedBetween(h, k, v, d.stream)
            || (Holds(h, v, d) && h[k].head.metadata.pending[d.stream].stage.Rank()
                                  <= h[v].head.metadata.pending[d.stream].stage.Rank())
  {
    hide Exec, CompletedAt, HistoryOk;
    var h := Heads(env, actions);
    ClaimsPersist(env, actions, k, v, d.stream);
    if s :| k < s <= v && CompletedAt(h, s, d.stream, ClaimsAt(h, k)[d.stream]) {
      assert h[s].kind == Completed(d.stream) by { CompletedKind(h, s, d.stream, ClaimsAt(h, k)[d.stream]); }
    } else {
      SameClaimThrough(h[k].head.metadata.pending[d.stream], h[v].head.metadata.pending[d.stream], d);
    }
  }

  lemma CompletedKind(h: seq<Written>, k: nat, s: string, claim: Descriptor)
    requires CompletedAt(h, k, s, claim)
    ensures h[k].kind == Completed(s)
  {
  }

  lemma SameClaimThrough(a: Descriptor, b: Descriptor, d: Descriptor)
    requires Carries(a, b) && SameClaim(a, d)
    ensures SameClaim(b, d)
  {
  }

  /** The conditions under which a receipt proves the write it is of. */
  ghost predicate ReceiptsTell(env: Env, actions: seq<Action>, call: Local) {
    OwnReceiptsOnly(actions) && NoClash(env, Heads(env, actions), call)
  }

  /** A claim that succeeded was committed: at or before its snapshot the stream carries a claim of the
      same operation, source and target, and the snapshot still does unless it was completed since. */
  lemma ClaimSucceeded(env: Env, actions: seq<Action>, p: nat, expected: Snapshot, d: Descriptor, s: Snapshot)
    requires Succeeded(env, actions, p, CallClaim(expected, d), s)
    requires ReceiptsTell(env, actions, CallClaim(expected, d))
    ensures var h := Heads(env, actions);
            && Authentic(h, s)
            && exists k :: 0 <= k <= s.version && Holds(h, k, d)
                           && (Holds(h, s.version, d) || CompletedBetween(h, k, s.version, d.stream))
  {
    hide Exec, Receipted, CompletedBetween, SameClaim, NoClash;
    var call, h := CallClaim(expected, d), Heads(env, actions);
    SuccessShows(env, actions, p, call, s);
    if Already(env, call, s.head) {
      assert Holds(h, s.version, d);
    } else {
      var k := ReceiptedWrite(env, actions, call, s);
      SameClaimSelf(d);
      assert Holds(h, k, d);
      HeldSince(env, actions, k, s.version, d);
    }
  }

  lemma SameClaimSelf(d: Descriptor)
    ensures SameClaim(d, d)
  {
  }

  /** The claim of the stream in head `k` is this one and has reached its stage. */
  predicate Reached(h: seq<Written>, k: nat, d: Descriptor) {
    Holds(h, k, d) && d.stage.Rank() <= h[k].head.metadata.pending[d.stream].stage.Rank()
  }

  /** An advance that succeeded left its receipt, and the claim has reached its stage: in some head at
      or before the snapshot, and in the snapshot unless it was completed since. Only where the snapshot
      has no claim of the stream at all is the receipt the only witness. */
  lemma AdvanceSucceeded(env: Env, actions: seq<Action>, p: nat, expected: Snapshot, d: Descriptor, s: Snapshot)
    requires Succeeded(env, actions, p, CallAdvance(expected, d), s)
    requires ReceiptsTell(env, actions, CallAdvance(expected, d))
    ensures var h := Heads(env, actions);
            && Authentic(h, s) && StagePhaseId(env, d) in s.head.completed
            && (|| d.stream !in s.head.metadata.pending
                || exists k :: 0 <= k <= s.version && Reached(h, k, d)
                               && (Reached(h, s.version, d) || CompletedBetween(h, k, s.version, d.stream)))
  {
    hide Exec, CompletedBetween, SameClaim, NoClash, StagePhaseId, OwnWrite;
    var call, h := CallAdvance(expected, d), Heads(env, actions);
    SuccessShows(env, actions, p, call, s);
    if Already(env, call, s.head) {
      assert d.stream in s.head.metadata.pending ==> Reached(h, s.version, d);
    } else {
      var k := ReceiptedWrite(env, actions, call, s);
      SameClaimSelf(d);
      assert Reached(h, k, d);
      HeldSince(env, actions, k, s.version, d);
    }
  }

  /** A publication that succeeded left its receipt, and some head at or before the snapshot carries
      exactly the published claim, and if it is not the snapshot's then exactly the metadata published. */
  lemma PublishSucceeded(env: Env, actions: seq<Action>, p: nat, expected: Snapshot, m: ControlMetadata, d: Descriptor,
                         s: Snapshot)
    requires Succeeded(env, actions, p, CallPublish(expected, m, d), s)
    requires ReceiptsTell(env, actions, CallPublish(expected, m, d))
    ensures var h := Heads(env, actions);
            && Authentic(h, s) && StagePhaseId(env, d) in s.head.completed
            && (|| (d.stream in s.head.metadata.pending && s.head.metadata.pending[d.stream] == d)
                || exists k :: 0 <= k <= s.version && h[k].head.metadata == m && h[k].head.operationId == StagePhaseId(env, d))
  {
    hide Exec, NoClash, StagePhaseId, OwnWrite;
    var call, h := CallPublish(expected, m, d), Heads(env, actions);
    SuccessShows(env, actions, p, call, s);
    if !Already(env, call, s.head) {
      var k := ReceiptedWrite(env, actions, call, s);
      assert h[k].head.metadata == m;
    }
  }

  /** A creation that succeeded left the receipt of the very head it was called with, and an update one
      with the authority epoch and revision it was called with. */
  lemma WriteSucceeded(env: Env, actions: seq<Action>, p: nat, call: Local, s: Snapshot)
    requires Succeeded(env, actions, p, call, s) && (call.CallCreate? || call.UpdateInner?)
    ensures Authentic(Heads(env, actions), s)
    ensures var next := if call.CallCreate? then call.head else call.next;
            && next.operationId in s.head.completed
            && var r := s.head.completed[next.operationId];
            && r.authorityEpoch == next.authorityEpoch && r.revision == next.revision
            && (call.CallCreate? ==> r.metadataDigest == next.metadataDigest)
  {
    hide Exec;
    SuccessShows(env, actions, p, call, s);
  }

  // ------------------------------------------------------ the write behind a phase's receipt

  datatype Phase = Phase(operationId: string, stream: string, suffix: string) {
    function Key(env: Env): string {
      PhaseId(env, operationId, stream, suffix)
    }
  }

  /** The phase of a handoff that wrote head `k`, told from the claim it moved or removed. */
  function PhaseOf(h: seq<Written>, k: nat): Option<Phase>
    requires k < |h|
  {
    var claims := h[k].head.metadata.pending;
    match h[k].kind
    case Created => None
    case Updated => None
    case Claimed(s) => if s in claims then Some(Phase(claims[s].operationId, s, "claim")) else None
    case Advanced(s) => if s in claims then Some(Phase(claims[s].operationId, s, claims[s].stage.Suffix())) else None
    case Published(s) => if s in claims then Some(Phase(claims[s].operationId, s, claims[s].stage.Suffix())) else None
    case Completed(s) =>
      if 0 < k && s in h[k - 1].head.metadata.pending then
        Some(Phase(h[k - 1].head.metadata.pending[s].operationId, s, "complete"))
      else None
  }

  /** The key of the phase is no other's: neither the created head nor an update was written under it,
      and no other phase of the history shares it. */
  predicate KeyTells(env: Env, h: seq<Written>, phase: Phase) {
    forall k :: 0 <= k < |h| ==>
      && (k == 0 || h[k].kind == Updated ==> h[k].head.operationId != phase.Key(env))
      && (PhaseOf(h, k).Some? && PhaseOf(h, k).value.Key(env) == phase.Key(env) ==> PhaseOf(h, k).value == phase)
  }

  /** Every head but the created and the updated ones was written under the key of its phase. */
  lemma PhaseKeyed(env: Env, h: seq<Written>, k: nat)
    requires HistoryOk(env, h) && 0 < k < |h| && h[k].kind != Updated
    ensures PhaseOf(h, k).Some? && h[k].head.operationId == PhaseOf(h, k).value.Key(env)
  {
    hide Storable, HandoffError, ImmutableEq, TransitionError, PhaseId;
    assert Commit(env, h[k - 1].head, h[k]);
  }

  lemma PhaseWrote(env: Env, actions: seq<Action>, s: Snapshot, phase: Phase) returns (k: nat)
    requires OwnReceiptsOnly(actions) && KeyTells(env, Heads(env, actions), phase)
    requires Authentic(Heads(env, actions), s) && phase.Key(env) in s.head.completed
    ensures k <= s.version && PhaseOf(Heads(env, actions), k) == Some(phase)
  {
    hide Exec, AllEarned, HistoryOk, PhaseOf, PhaseId;
    var h := Heads(env, actions);
    ReceiptsEarned(env, actions);
    ExecKeeps(env, actions);
    var op := phase.Key(env);
    assert op in h[s.version].head.completed;
    EarnedAt(h, s.version, op);
    k :| 0 <= k <= s.version && Wrote(h, k, op, h[s.version].head.completed[op]);
    PhaseKeyed(env, h, k);
  }

  /** An advance or a publication that succeeded did happen: some head at or before the snapshot moved
      the claim of this operation on this stream to this very stage. */
  lemma StageHappened(env: Env, actions: seq<Action>, p: nat, call: Local, s: Snapshot)
    requires Succeeded(env, actions, p, call, s) && (call.CallAdvance? || call.CallPublish?) && OwnReceiptsOnly(actions)
    requires var d := call.descriptor; KeyTells(env, Heads(env, actions), Phase(d.operationId, d.stream, d.stage.Suffix()))
    ensures var d, h := call.descriptor, Heads(env, actions);
            exists k :: 0 <= k <= s.version < |h| && h[k].kind in {Advanced(d.stream), Published(d.stream)}
                        && d.stream in h[k].head.metadata.pending
                        && h[k].head.metadata.pending[d.stream].operationId == d.operationId
                        && h[k].head.metadata.pending[d.stream].stage == d.stage
  {
    hide Exec, PhaseId, KeyTells, OwnWrite;
    var d := call.descriptor;
    SuccessShows(env, actions, p, call, s);
    var k := PhaseWrote(env, actions, s, Phase(d.operationId, d.stream, d.stage.Suffix()));
    var w := Heads(env, actions)[k];
    assert d.stream in w.head.metadata.pending;
    SuffixTells(w.head.metadata.pending[d.stream].stage, d.stage);
  }

  lemma SuffixTells(a: Stage, b: Stage)
    ensures a.Suffix() == b.Suffix() ==> a == b
    ensures a.Suffix() !in {"claim", "complete"}
  {
    assert |a.Suffix()| != |b.Suffix()| || a == b
        || {a, b} == {ArchiveVerified, RoutePublished} || {a, b} == {Prepared, SourceFenced};
    assert "archive-verified"[0] != "route-published"[0];
  }

  /** A completion that succeeded did happen: some head at or before the snapshot removed the claim of
      this operation on this stream. */
  lemma CompletionHappened(env: Env, actions: seq<Action>, p: nat, expected: Snapshot, stream: string, op: string, s: Snapshot)
    requires Succeeded(env, actions, p, CallComplete(expected, stream, op), s) && OwnReceiptsOnly(actions)
    requires KeyTells(env, Heads(env, actions), Phase(op, stream, "complete"))
    ensures var h := Heads(env, actions);
            exists k :: 0 < k <= s.version < |h| && h[k].kind == Completed(stream)
                        && stream in h[k - 1].head.metadata.pending
                        && h[k - 1].head.metadata.pending[stream].operationId == op
                        && stream !in h[k].head.metadata.pending
  {
    hide Exec, PhaseId, KeyTells, OwnWrite, HistoryOk;
    SuccessShows(env, actions, p, CallComplete(expected, stream, op), s);
    var k := PhaseWrote(env, actions, s, Phase(op, stream, "complete"));
    var h := Heads(env, actions);
    CompletePhase(h, k, Phase(op, stream, "complete"));
    ExecKeeps(env, actions);
    CompletedGone(env, h, k, stream);
  }

  lemma CompletePhase(h: seq<Written>, k: nat, phase: Phase)
    requires k < |h| && PhaseOf(h, k) == Some(phase) && phase.suffix == "complete"
    ensures 0 < k && h[k].kind == Completed(phase.stream) && phase.stream in h[k - 1].head.metadata.pending
    ensures h[k - 1].head.metadata.pending[phase.stream].operationId == phase.operationId
  {
    if h[k].kind.Advanced? || h[k].kind.Published? {
      SuffixTells(h[k].head.metadata.pending[h[k].kind.stream].stage, Prepared);
    }
  }

  lemma CompletedGone(env: Env, h: seq<Written>, k: nat, stream: string)
    requires HistoryOk(env, h) && 0 < k < |h| && h[k].kind == Completed(stream)
    ensures stream !in h[k].head.metadata.pending
  {
    hide Storable, HandoffError, TransitionError, PhaseId;
    assert Commit(env, h[k - 1].head, h[k]);
  }
}
