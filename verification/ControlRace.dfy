/** The race behind `ControlRebase.LoserStillCommits` is one that runs reach: from any head that would
    take either of two advances, in each of the loser's three windows, and on a head written out. */
module ControlRace {
  import opened Base
  import opened ControlTypes
  import opened ControlHead
  import opened ControlProtocol
  import opened ControlInvariant
  import opened ControlRebase

  // -------------------------------------------------------------- one advance alone

  function Observed(env: Env, h: Head, d: Descriptor): OnConflict
    requires d.stream in h.metadata.pending
  {
    RebaseTo(d, StagePhaseId(env, d), h.metadata.pending[d.stream])
  }

  function Calling(h: Head, d: Descriptor): Local {
    CallAdvance(Snapshot(h, 0), d)
  }

  function Updating(env: Env, h: Head, d: Descriptor): Local
    requires d.stream in h.metadata.pending
  {
    Submit(env, Snapshot(h, 0), WithClaim(h.metadata, d), StagePhaseId(env, d), Advanced(d.stream), Observed(env, h, d))
  }

  function Putting(env: Env, h: Head, d: Descriptor): Local
    requires d.stream in h.metadata.pending
  {
    Put(Rebased(env, h, d), 0, Advanced(d.stream), Observed(env, h, d))
  }

  /** The head would take the advance and has room for it. */
  ghost predicate Takes(env: Env, h: Head, d: Descriptor) {
    Storable(env, h) && Acceptable(env, h, d) && Keyed(env, h, d) && Room(env, h, d)
  }

  lemma FirstLoad(env: Env, h: Head, d: Descriptor)
    requires Takes(env, h, d)
    ensures AfterLoad(env, Calling(h, d), Snapshot(h, 0)) == Updating(env, h, d)
  {
    hide ValidHead, ValidDescriptor, HandoffError, StagePhaseId, Submit, Keyed, Room;
  }

  lemma SecondLoad(env: Env, h: Head, d: Descriptor)
    requires Takes(env, h, d)
    ensures Updating(env, h, d).UpdateInner?
    ensures AfterLoad(env, Updating(env, h, d), Snapshot(h, 0)) == Putting(env, h, d)
  {
    hide ValidHead, ValidDescriptor, HandoffError, StagePhaseId, Blank, ByteLen, MergeReceipts, TransitionError, Rebased,
         HexKey, PhaseId, ValidMarker;
    StageKeyShort(env, d);
    RebasedStorable(env, h, d);
    MergedIsRebased(env, h, d);
    RebasedFollows(env, h, d);
  }

  // ------------------------------------------------------------------------ the race

  /** The head is created, two coordinators begin to advance different streams of it, and the second
      gets as far as its put. */
  function SetUp(h: Head, a: Descriptor, b: Descriptor): seq<Action> {
    [Begin(0, CallCreate(h)), Run(0), Begin(1, Calling(h, b)), Begin(0, Calling(h, a)), Run(1), Run(1)]
  }

  /** Where the first coordinator stands after `k` of its own loads. */
  function Window(env: Env, h: Head, a: Descriptor, k: nat): Local
    requires a.stream in h.metadata.pending
  {
    if k == 0 then Calling(h, a) else if k == 1 then Updating(env, h, a) else Putting(env, h, a)
  }

  function Loads(k: nat): seq<Action> {
    seq(k, _ => Run(0))
  }

  /** The first coordinator makes `k` of its loads, and then the second's put commits. */
  function Race(h: Head, a: Descriptor, b: Descriptor, k: nat): seq<Action> {
    SetUp(h, a, b) + Loads(k) + [Run(1)]
  }

  function Raced(env: Env, h: Head, a: Descriptor, b: Descriptor, k: nat): System
    requires a.stream in h.metadata.pending
  {
    var won := Rebased(env, h, b);
    System([Written(h, Created), Written(won, Advanced(b.stream))],
           map[0 := Window(env, h, a, k), 1 := Done(Ok(Snapshot(won, 1)))])
  }

  lemma ExecNext(env: Env, actions: seq<Action>, a: Action)
    ensures Exec(env, actions + [a]) == Step(env, Exec(env, actions), a)
  {
    hide Step;
    assert (actions + [a])[..|actions|] == actions;
  }

  lemma BeginStep(env: Env, s: System, p: nat, call: Local)
    requires Callable(s.history, call) && (p !in s.procs || s.procs[p].Done?)
    ensures Step(env, s, Begin(p, call)) == System(s.history, s.procs[p := call])
  {
  }

  lemma RunStep(env: Env, s: System, p: nat, history: seq<Written>, l: Local)
    requires p in s.procs && Turn(env, s.history, s.procs[p]) == (history, l)
    ensures Step(env, s, Run(p)) == System(history, s.procs[p := l])
  {
    hide Turn;
  }

  /** The turns of an advance on the head it was called with. */
  lemma AdvanceTurns(env: Env, h: Head, d: Descriptor)
    requires Takes(env, h, d)
    ensures d.stream in h.metadata.pending
    ensures var w := [Written(h, Created)];
            && Turn(env, [], CallCreate(h)) == (w, Done(Ok(Snapshot(h, 0))))
            && Turn(env, w, Calling(h, d)) == (w, Updating(env, h, d))
            && Turn(env, w, Updating(env, h, d)) == (w, Putting(env, h, d))
            && Turn(env, w, Putting(env, h, d))
               == (w + [Written(Rebased(env, h, d), Advanced(d.stream))], Done(Ok(Snapshot(Rebased(env, h, d), 1))))
  {
    hide Storable, Keyed, Room, AfterLoad, Updating, Rebased, HandoffError, RebaseOk, StagePhaseId;
    FirstLoad(env, h, d);
    SecondLoad(env, h, d);
  }

  lemma SetUpRun(env: Env, h: Head, a: Descriptor, b: Descriptor)
    requires Takes(env, h, a) && Takes(env, h, b)
    ensures b.stream in h.metadata.pending
    ensures Exec(env, SetUp(h, a, b))
            == System([Written(h, Created)], map[0 := Calling(h, a), 1 := Putting(env, h, b)])
  {
    hide Takes, Updating, Putting, Exec, Step, Turn;
    var run, w, done := SetUp(h, a, b), [Written(h, Created)], Done(Ok(Snapshot(h, 0)));
    AdvanceTurns(env, h, b);
    NoActions(env);
    assert run[..0] == [];
    forall i: nat | i < 6 ensures Exec(env, run[..i + 1]) == Step(env, Exec(env, run[..i]), run[i]) {
      ExecNext(env, run[..i], run[i]);
      assert run[..i] + [run[i]] == run[..i + 1];
    }
    BeginStep(env, Init, 0, CallCreate(h));
    var s1 := System([], map[0 := CallCreate(h)]);
    assert Exec(env, run[..0 + 1]) == s1;
    RunStep(env, s1, 0, w, done);
    var s2 := System(w, map[0 := done]);
    assert Exec(env, run[..1 + 1]) == s2;
    BeginStep(env, s2, 1, Calling(h, b));
    var s3 := System(w, map[0 := done, 1 := Calling(h, b)]);
    assert Exec(env, run[..2 + 1]) == s3;
    BeginStep(env, s3, 0, Calling(h, a));
    var s4 := System(w, map[0 := Calling(h, a), 1 := Calling(h, b)]);
    assert s3.procs[0 := Calling(h, a)] == s4.procs;
    assert Exec(env, run[..3 + 1]) == s4;
    RunStep(env, s4, 1, w, Updating(env, h, b));
    var s5 := System(w, map[0 := Calling(h, a), 1 := Updating(env, h, b)]);
    assert s4.procs[1 := Updating(env, h, b)] == s5.procs;
    assert Exec(env, run[..4 + 1]) == s5;
    RunStep(env, s5, 1, w, Putting(env, h, b));
    assert s5.procs[1 := Putting(env, h, b)] == map[0 := Calling(h, a), 1 := Putting(env, h, b)];
    assert run[..5 + 1] == run;
  }

  lemma NoActions(env: Env)
    ensures Exec(env, []) == Init
  {
  }

  lemma LoadsRun(env: Env, h: Head, a: Descriptor, b: Descriptor, k: nat)
    requires Takes(env, h, a) && Takes(env, h, b) && k <= 2
    ensures a.stream in h.metadata.pending && b.stream in h.metadata.pending
    ensures Exec(env, SetUp(h, a, b) + Loads(k))
            == System([Written(h, Created)], map[0 := Window(env, h, a, k), 1 := Putting(env, h, b)])
  {
    hide Takes, Updating, Putting, Exec, Step, Turn, SetUp;
    SetUpRun(env, h, a, b);
    AdvanceTurns(env, h, a);
    if k == 0 {
      assert SetUp(h, a, b) + Loads(0) == SetUp(h, a, b);
    } else {
      LoadsRun(env, h, a, b, k - 1);
      ExecNext(env, SetUp(h, a, b) + Loads(k - 1), Run(0));
      assert SetUp(h, a, b) + Loads(k - 1) + [Run(0)] == SetUp(h, a, b) + Loads(k);
      var s := System([Written(h, Created)], map[0 := Window(env, h, a, k - 1), 1 := Putting(env, h, b)]);
      RunStep(env, s, 0, s.history, Window(env, h, a, k));
      assert s.procs[0 := Window(env, h, a, k)] == map[0 := Window(env, h, a, k), 1 := Putting(env, h, b)];
    }
  }

  lemma RaceRun(env: Env, h: Head, a: Descriptor, b: Descriptor, k: nat)
    requires Takes(env, h, a) && Takes(env, h, b) && k <= 2
    ensures a.stream in h.metadata.pending
    ensures Exec(env, Race(h, a, b, k)) == Raced(env, h, a, b, k)
  {
    hide Takes, Updating, Putting, Exec, Step, Turn, SetUp, Loads, Window, Rebased;
    LoadsRun(env, h, a, b, k);
    AdvanceTurns(env, h, b);
    ExecNext(env, SetUp(h, a, b) + Loads(k), Run(1));
    var s := System([Written(h, Created)], map[0 := Window(env, h, a, k), 1 := Putting(env, h, b)]);
    var won := Rebased(env, h, b);
    RunStep(env, s, 1, s.history + [Written(won, Advanced(b.stream))], Done(Ok(Snapshot(won, 1))));
    assert s.procs[1 := Done(Ok(Snapshot(won, 1)))] == Raced(env, h, a, b, k).procs;
  }

  /** From any head that would take either of two streams' advances, a run puts the first of them in
      the place of `LoserStillCommits`, in each of its three windows. */
  lemma RaceReached(env: Env, h: Head, a: Descriptor, b: Descriptor, k: nat)
    requires Takes(env, h, a) && Takes(env, h, b) && a.stream != b.stream && k <= 2
    ensures var s := Exec(env, Race(h, a, b, k));
            && LosingAdvance(env, s, 0, a)
            && Winner(s) == Some(b) && s.history[1].head == Rebased(env, h, b)
  {
    hide Storable, Keyed, Room, Exec, Race, Inv, Updating, Acceptable;
    RaceRun(env, h, a, b, k);
    ExecKeeps(env, Race(h, a, b, k));
    if k == 1 {
      SecondLoad(env, h, a);
      UpdatingShape(env, h, a);
    }
  }

  lemma UpdatingShape(env: Env, h: Head, d: Descriptor)
    requires d.stream in h.metadata.pending && Updating(env, h, d).UpdateInner?
    ensures Updating(env, h, d).expected == Snapshot(h, 0) && Updating(env, h, d).onConflict == Observed(env, h, d)
  {
    hide ValidHead, StagePhaseId;
  }

  // ------------------------------------------------------------------ written out

  function Hex(c: char): string {
    seq(64, _ => c)
  }

  /** Digests that tell the two phases of the sample apart. */
  function SampleEnv(): Env {
    Env(_ => "h", _ => "m", _ => "x", t => if t == "o\0s\0source-fenced" then Hex('a') else Hex('b'), _ => 0)
  }

  function SampleMember(id: string, cohort: u64): DurableMember {
    DurableMember(id, "u", MemberStatus.Active, cohort, "", "", "", 0, "", 0)
  }

  function Sources(): seq<string> { ["a", "b", "c"] }

  function Targets(): seq<string> { ["d", "e", "f"] }

  function SampleRange(): StreamSegment {
    StreamSegment(1, None, 1, Sources(), "h", 1, 1, 0, "o", "", 0)
  }

  function SampleTargets(): seq<DurableMember> {
    [SampleMember("d", 2), SampleMember("e", 2), SampleMember("f", 2)]
  }

  function SampleClaim(stream: string, stage: Stage): Descriptor {
    Descriptor("o", stream, SampleRange(), 2, SampleTargets(), "h", "", 0, 1, PlacementEpoch(1, "r"), 2, None, stage, None,
               None)
  }

  /** Two streams on one cohort, both about to move to another. */
  function SampleMetadata(): ControlMetadata {
    ControlMetadata(
      1,
      map id | id in Sources() + Targets() :: SampleMember(id, if id in Sources() then 1 else 2),
      map[1 := DurableCohort(1, Sources(), CohortStatus.Active, "", 0),
          2 := DurableCohort(2, Targets(), CohortStatus.Active, "", 0)],
      ReplicaManifest(1, 1, "m", 1, 0, "h", 1, map["s" := [SampleRange()], "t" := [SampleRange()]], "o", "", 0),
      map["s" := SampleClaim("s", Prepared), "t" := SampleClaim("t", Prepared)])
  }

  function SampleHead(): Head {
    NewHead(SampleEnv(), 1, 1, "o", SourceMarker("l", 1, 1, "x"), SampleMetadata())
  }

  lemma Letter(c: char)
    requires 'a' <= c <= 'z'
    ensures !Blank([c]) && ByteLen([c]) == 1
  {
    assert [c][0] == c && [c][1..] == "";
  }

  lemma Letters()
    ensures forall c: char | 'a' <= c <= 'z' :: !Blank([c]) && ByteLen([c]) == 1
  {
    forall c: char | 'a' <= c <= 'z' ensures !Blank([c]) && ByteLen([c]) == 1 { Letter(c); }
  }

  lemma SampleIds()
    ensures MemberIds(SampleTargets()) == Targets()
    ensures StrictlySorted(Sources()) && StrictlySorted(Targets())
    ensures forall id :: id in Sources() + Targets() ==> !Blank(id)
    ensures forall id :: id in Targets() ==> id !in Sources()
    ensures |Sources()| == |Targets()| == REPLICATION_FACTOR
  {
    hide Blank;
    Letters();
    assert !Blank("a") && !Blank("b") && !Blank("c") && !Blank("d") && !Blank("e") && !Blank("f");
  }

  lemma SampleClaimValid(stream: string, stage: Stage)
    requires stream == "s" || stream == "t"
    requires stage == Prepared || stage == SourceFenced
    ensures ValidDescriptor(SampleClaim(stream, stage), stream)
  {
    hide Blank, ByteLen, StrictlySorted;
    Letters();
    SampleIds();
    assert !Blank("o") && !Blank("s") && !Blank("t") && !Blank("h") && !Blank("r") && !Blank("u");
    assert !Blank("d") && !Blank("e") && !Blank("f");
  }

  lemma SampleMembership()
    ensures ValidMembership(SampleMetadata())
  {
    hide Blank, StrictlySorted, SampleClaim, SampleRange, Sources, Targets;
    SampleIds();
  }

  lemma SampleRoutes()
    ensures ValidRanges([SampleRange()])
    ensures forall s :: s in SampleMetadata().manifest.streamSegments ==>
                          SampleMetadata().manifest.streamSegments[s] == [SampleRange()] && !Blank(s)
  {
    hide Blank, StrictlySorted, SampleClaim, SampleMember, Sources, Targets;
    SampleIds();
    Letters();
    assert !Blank("o") && !Blank("s") && !Blank("t");
  }

  lemma SampleRanges()
    ensures ValidManifest(SampleEnv(), SampleMetadata().manifest) && ValidRouting(SampleMetadata())
  {
    hide Blank, SampleClaim, SampleMember, ValidRanges, Sources, Targets;
    SampleRoutes();
    Letters();
    assert !Blank("o");
  }

  lemma SampleStorable()
    ensures Storable(SampleEnv(), SampleHead())
  {
    hide Blank, ByteLen, ValidMembership, ValidManifest, ValidRouting, ValidDescriptor;
    Letters();
    SampleMembership();
    SampleRanges();
    SampleClaimValid("s", Prepared);
    SampleClaimValid("t", Prepared);
    assert !Blank("o") && !Blank("l") && !Blank("x") && ByteLen("o") == ByteLen("l") == ByteLen("x") == 1;
    var m := SampleMetadata();
    assert m.pending.Keys == {"s", "t"} && |m.pending| == |m.pending.Keys|;
    FirstReceipt(SampleHead());
  }

  lemma SampleReady(stream: string)
    requires stream == "s" || stream == "t"
    ensures HandoffError(SampleEnv(), SampleMetadata(), SampleClaim(stream, SourceFenced), true) == None
  {
    hide SourceReady, TargetReady, SampleTargets, SampleMember, Sources, Targets;
    SampleSourceReady(stream);
    SampleTargetReady(stream);
  }

  lemma SampleSourceReady(stream: string)
    ensures SourceReady(SampleEnv(), SampleMetadata(), SampleClaim(stream, SourceFenced))
  {
    hide Blank, StrictlySorted, Sources, Targets, SampleTargets;
    SampleIds();
  }

  lemma SampleTargetReady(stream: string)
    ensures TargetReady(SampleEnv(), SampleMetadata(), SampleClaim(stream, SourceFenced))
  {
    hide Blank, StrictlySorted, Sources, Targets, SampleRange;
    SampleIds();
    SampleTargetsKnown();
  }

  lemma SampleTargetsKnown()
    ensures forall t :: t in SampleTargets() ==> t.id in SampleMetadata().members && SampleMetadata().members[t.id] == t
  {
    hide Blank, StrictlySorted, SampleClaim, SampleRange;
    SampleIds();
    assert "d" in Targets() && "e" in Targets() && "f" in Targets();
  }

  lemma SampleKeyed(h: Head, stream: string)
    ensures Keyed(SampleEnv(), h, SampleClaim(stream, SourceFenced))
  {
    hide Blank, StageText, WithClaim;
    Letters();
    assert !Blank("x");
  }

  /** A receipt key is longer than one letter. */
  lemma KeyIsLong(env: Env, d: Descriptor)
    ensures 8 < |StagePhaseId(env, d)|
  {
  }

  lemma SampleClaimed(stream: string)
    requires stream == "s" || stream == "t"
    ensures stream in SampleMetadata().pending
    ensures var d := SampleClaim(stream, SourceFenced);
            RebaseOk(SampleEnv(), d, StagePhaseId(SampleEnv(), d), SampleMetadata().pending[stream])
  {
    hide ValidDescriptor, StagePhaseId, SampleRange, SampleTargets;
    SampleClaimValid(stream, SourceFenced);
  }

  lemma SampleFirst(d: Descriptor)
    ensures StagePhaseId(SampleEnv(), d) !in SampleHead().completed && Room(SampleEnv(), SampleHead(), d)
  {
    hide StagePhaseId, SampleMetadata;
    KeyIsLong(SampleEnv(), d);
    assert SampleHead().completed.Keys == {"o"} && |SampleHead().completed| == |SampleHead().completed.Keys|;
  }

  lemma SampleTakes(stream: string)
    requires stream == "s" || stream == "t"
    ensures Takes(SampleEnv(), SampleHead(), SampleClaim(stream, SourceFenced))
  {
    hide Storable, HandoffError, StagePhaseId, Keyed, RebaseOk, Room, SampleMetadata;
    SampleStorable();
    SampleReady(stream);
    SampleClaimed(stream);
    SampleKeyed(SampleHead(), stream);
    SampleFirst(SampleClaim(stream, SourceFenced));
  }

  lemma SampleTexts()
    ensures StageText(SampleClaim("s", SourceFenced)) == "o\0s\0source-fenced"
    ensures StageText(SampleClaim("t", SourceFenced)) != "o\0s\0source-fenced"
  {
    hide SampleRange, SampleTargets;
    var b := SampleClaim("t", SourceFenced);
    assert StageText(b) == "o" + "\0" + "t" + "\0" + "source-fenced";
    assert StageText(b)[2] == 't';
  }

  lemma HexDiffers()
    ensures Hex('a') != Hex('b')
  {
    assert Hex('a')[0] == 'a' && Hex('b')[0] == 'b';
  }

  lemma SampleKeysDiffer()
    ensures StagePhaseId(SampleEnv(), SampleClaim("s", SourceFenced)) != StagePhaseId(SampleEnv(), SampleClaim("t", SourceFenced))
    ensures Apart(SampleEnv(), SampleClaim("s", SourceFenced), SampleClaim("t", SourceFenced))
  {
    hide StagePhaseId, StageText, SampleClaim, Hex;
    var env, a, b := SampleEnv(), SampleClaim("s", SourceFenced), SampleClaim("t", SourceFenced);
    StageKeysShared(env, a, b);
    SampleTexts();
    HexDiffers();
  }

  /** In each of its three windows the loser of the sample race commits, on top of the winner. */
  lemma SampleLoserCommits(k: nat)
    requires k <= 2
    ensures var env, h := SampleEnv(), SampleHead();
            var a, b := SampleClaim("s", SourceFenced), SampleClaim("t", SourceFenced);
            var s := Exec(env, Race(h, a, b, k));
            var won := Rebased(env, h, b);
            && LosingAdvance(env, s, 0, a) && Keyed(env, won, a)
            && RunAlone(env, s, 0, 5).history
               == [Written(h, Created), Written(won, Advanced("t")), Written(Rebased(env, won, a), Advanced("s"))]
  {
    hide Takes, Keyed, Exec, LosingAdvance, RunAlone, Apart, StagePhaseId, Race, SampleHead, SampleClaim, Rebased;
    var env, h := SampleEnv(), SampleHead();
    var a, b := SampleClaim("s", SourceFenced), SampleClaim("t", SourceFenced);
    ClaimStreams();
    SampleTakes("s");
    SampleTakes("t");
    RaceReached(env, h, a, b, k);
    RaceRun(env, h, a, b, k);
    var won := Rebased(env, h, b);
    SampleKeyed(won, "s");
    SampleKeysDiffer();
    LoserStillCommits(env, Exec(env, Race(h, a, b, k)), 0, a);
    SampleRoom();
  }

  lemma ClaimStreams()
    ensures SampleClaim("s", SourceFenced).stream == "s" && SampleClaim("t", SourceFenced).stream == "t"
  {
  }

  lemma SampleRoom()
    ensures Room(SampleEnv(), Rebased(SampleEnv(), SampleHead(), SampleClaim("t", SourceFenced)), SampleClaim("s", SourceFenced))
  {
    hide StagePhaseId, SampleMetadata;
    var won := Rebased(SampleEnv(), SampleHead(), SampleClaim("t", SourceFenced));
    assert won.completed.Keys <= {"o"} + {won.operationId} && |won.completed| == |won.completed.Keys|;
    Few(won.completed.Keys, "o", won.operationId);
  }

  lemma Few(keys: set<string>, a: string, b: string)
    requires keys <= {a} + {b}
    ensures |keys| <= 2
  {
    assert |keys - {a}| <= 1 by {
      assert keys - {a} <= {b};
      if b in keys - {a} { assert keys - {a} == {b}; } else { assert keys - {a} == {}; }
    }
    assert |keys| <= |keys - {a}| + 1 by {
      if a in keys { assert keys == (keys - {a}) + {a}; } else { assert keys == keys - {a}; }
    }
  }
}
