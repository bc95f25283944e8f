/** What holds of placements over whole runs, and exactly when. */
module PlacementRuns {
  import opened Base
  import opened Placement
  import opened PlacementTheorems

  lemma StepGrowsJournals(s: System, a: Action)
    ensures s.admissions <= Step(s, a).admissions && s.fences <= Step(s, a).fences
  {
    hide Enter, Claim, Begin, Drop, Locked, SerialFree;
  }

  lemma {:induction false} RunsGrow(s: System, actions: seq<Action>, more: seq<Action>)
    ensures Exec(s, actions).admissions <= Exec(s, actions + more).admissions
    ensures Exec(s, actions).fences <= Exec(s, actions + more).fences
  {
    hide Step;
    if more == [] {
      assert actions + more == actions;
    } else {
      var n := |more| - 1;
      assert (actions + more)[..|actions + more| - 1] == actions + more[..n];
      RunsGrow(s, actions, more[..n]);
      StepGrowsJournals(Exec(s, actions + more[..n]), more[n]);
    }
  }

  lemma {:induction false} ExecConcat(s: System, a: seq<Action>, b: seq<Action>)
    ensures Exec(s, a + b) == Exec(Exec(s, a), b)
  {
    hide Step;
    if b == [] {
      assert a + b == a;
    } else {
      var n := |b| - 1;
      assert (a + b)[..|a + b| - 1] == a + b[..n];
      ExecConcat(s, a, b[..n]);
    }
  }

  lemma Reachable(actions: seq<Action>)
    ensures Inv(Exec(Initial(), actions))
    ensures NoDrops(Initial(), actions) ==> Journaled(Exec(Initial(), actions))
  {
    hide Inv, Journaled, Exec;
    InitialOk();
    ExecKeeps(Initial(), actions);
  }

  /** The file a process would read is at or above what processes have relied on, and that at or
      above what is durable. */
  lemma FileAbove(d: Disk, stream: string)
    requires DiskOk(d)
    ensures NotAbove(At(Durable(d), stream), At(Relied(d), stream))
    ensures NotAbove(At(Relied(d), stream), At(RoutesOf(File(d)), stream))
    ensures NotAbove(At(Durable(d), stream), At(RoutesOf(File(d)), stream))
  {
    hide DiskOk;
    RenamesRaise(d, 0, Min(d.relied, |d.renames|));
    RenamesRaise(d, Min(d.relied, |d.renames|), |d.renames|);
    RenamesRaise(d, 0, |d.renames|);
  }

  // ---------------------------------------------------------------------- leases

  /** In every run, a live lease carries its stream's current placement, which is the one its
      process opened with or has made durable since, and is counted at its gate. */
  lemma LiveLeasesAreCurrent(actions: seq<Action>, p: nat)
    requires Exec(Initial(), actions).memory.Some? && p in Exec(Initial(), actions).memory.value.leases
    ensures var s := Exec(Initial(), actions);
            var lease := s.memory.value.leases[p];
            && lease.stream in s.memory.value.gates
            && lease.placement == s.memory.value.gates[lease.stream].placement == At(Relied(s.disk), lease.stream)
            && 0 < s.memory.value.gates[lease.stream].admitted
  {
    hide TasksOk, RenameOk, DiskOk, Exec;
    Reachable(actions);
    DropKeepsGates(Exec(Initial(), actions).memory.value, p);
  }

  // ----------------------------------------------------------------- any power loss

  /** What is durable only rises, in every run, whatever power losses take. */
  lemma SettledNeverFalls(actions: seq<Action>, more: seq<Action>, stream: string)
    ensures NotAbove(At(Durable(Exec(Initial(), actions).disk), stream),
                     At(Durable(Exec(Initial(), actions + more).disk), stream))
  {
    hide Inv, Exec;
    Reachable(actions);
    ExecKeeps(Exec(Initial(), actions), more);
    ExecConcat(Initial(), actions, more);
  }

  /** Every file read from some point on keeps the stream at or above the placement. */
  ghost predicate KeptForEver(s: System, x: Lease) {
    forall more :: NotAbove(x.placement, At(RoutesOf(File(Exec(s, more).disk)), x.stream))
  }

  /** A placement, fenced or admitted, outlives every run exactly when it is already durable. */
  lemma KeptIffSettled(actions: seq<Action>, x: Lease)
    ensures var s := Exec(Initial(), actions);
            KeptForEver(s, x) <==> NotAbove(x.placement, At(Durable(s.disk), x.stream))
  {
    hide Inv, DiskOk, Step, Exec;
    Reachable(actions);
    var s := Exec(Initial(), actions);
    if NotAbove(x.placement, At(Durable(s.disk), x.stream)) {
      forall more
        ensures NotAbove(x.placement, At(RoutesOf(File(Exec(s, more).disk)), x.stream))
      {
        ExecKeeps(s, more);
        StillDisk(Exec(s, more));
        FileAbove(Exec(s, more).disk, x.stream);
        assert NotAbove(At(Durable(s.disk), x.stream), At(Durable(Exec(s, more).disk), x.stream));
      }
    } else {
      PowerLost(s);
      assert RoutesOf(File(Exec(s, [PowerLoss(0)]).disk)) == Durable(s.disk);
    }
  }

  lemma PowerLost(s: System)
    ensures Exec(s, [PowerLoss(0)]) == s.(memory := None, disk := Disk(s.disk.settled, [], 0))
  {
    ExecOne(s, PowerLoss(0));
  }

  lemma ExecOne(s: System, a: Action)
    ensures Exec(s, [a]) == Step(s, a)
  {
    hide Step;
    assert [a][..0] == [];
  }

  lemma StillDisk(s: System)
    requires Inv(s)
    ensures DiskOk(s.disk)
  {
  }

  /** A fence whose own directory sync succeeded is kept in every run from there. */
  lemma SyncedFenceKept(actions: seq<Action>, p: nat)
    requires var s := Exec(Initial(), actions); Runs(s, p) && s.memory.value.tasks[p].Syncing?
    ensures var t := Exec(Initial(), actions).memory.value.tasks[p];
            KeptForEver(Exec(Initial(), actions + [FenceSync(p, true)]), Lease(t.stream, t.requested))
  {
    hide KeptForEver;
    var s := Exec(Initial(), actions);
    var t := s.memory.value.tasks[p];
    var run := actions + [FenceSync(p, true)];
    assert run[..|run| - 1] == actions;
    assert Exec(Initial(), run) == Step(s, FenceSync(p, true));
    KeptIffSettled(run, Lease(t.stream, t.requested));
  }

  /** The run in which the power fails, a process opens what is left and admits the stream's own
      placement. */
  function Reopening(stream: string, placement: PlacementEpoch): seq<Action> {
    [PowerLoss(0), Open, AdmitBegin(0, stream, placement), AdmitEnd(0)]
  }

  lemma ReopenedAdmits(s: System, stream: string)
    requires DiskOk(s.disk) && !Blank(stream)
    ensures var cur := At(Durable(s.disk), stream);
            Exec(s, Reopening(stream, cur)).admissions == s.admissions + [Lease(stream, cur)]
  {
    hide Blank, Step, DiskOk;
    var cur := At(Durable(s.disk), stream);
    var run := Reopening(stream, cur);
    var lost := s.(memory := None, disk := Disk(s.disk.settled, [], 0));
    var again := lost.(memory := Some(FromPersisted(Durable(s.disk))));
    var waiting := again.(memory := Some(Set(WithGate(again.memory.value, stream), 0, Admitting(stream, cur))));
    Losing(s);
    StepOf(s, run, 0, s, lost);
    LostOpens(s);
    StepOf(s, run, 1, lost, again);
    ReopenedWaits(s, stream);
    StepOf(s, run, 2, again, waiting);
    WaitingAdmitted(waiting, stream);
    StepOf(s, run, 3, waiting, Step(waiting, AdmitEnd(0)));
    assert run[..4] == run;
  }

  lemma LostOpens(s: System)
    requires DiskOk(s.disk)
    ensures var lost := s.(memory := None, disk := Disk(s.disk.settled, [], 0));
            Step(lost, Open) == lost.(memory := Some(FromPersisted(Durable(s.disk))))
  {
    hide ValidRoutes;
    assert ValidRoutes(After(s.disk, 0));
  }

  lemma ReopenedWaits(s: System, stream: string)
    requires DiskOk(s.disk) && !Blank(stream)
    ensures var cur := At(Durable(s.disk), stream);
            var again := s.(memory := Some(FromPersisted(Durable(s.disk))), disk := Disk(s.disk.settled, [], 0));
            Step(again, AdmitBegin(0, stream, cur))
            == again.(memory := Some(Set(WithGate(again.memory.value, stream), 0, Admitting(stream, cur))))
  {
    hide Blank;
    assert ValidRoutes(After(s.disk, 0));
  }

  lemma WaitingAdmitted(s: System, stream: string)
    requires s.memory.Some?
    requires var m := s.memory.value;
             && m == Set(WithGate(FromPersisted(m.persisted), stream), 0, Admitting(stream, At(m.persisted, stream)))
    ensures Step(s, AdmitEnd(0)).admissions == s.admissions + [Lease(stream, At(s.memory.value.persisted, stream))]
  {
    assert !Locked(s.memory.value, stream);
  }

  /** One step of a named run. */
  lemma StepOf(s: System, run: seq<Action>, i: nat, before: System, after: System)
    requires i < |run| && Exec(s, run[..i]) == before && Step(before, run[i]) == after
    ensures Exec(s, run[..i + 1]) == after
  {
    hide Step;
    assert run[..i + 1][..i] == run[..i];
  }

  /** Every admission of the stream from now on is at this placement or a later epoch. */
  ghost predicate AdmissionsFollow(s: System, x: Lease) {
    forall more, k | |s.admissions| <= k < |Exec(s, more).admissions| && Exec(s, more).admissions[k].stream == x.stream ::
      NotAbove(x.placement, Exec(s, more).admissions[k].placement)
  }

  lemma {:induction false} LaterAdmissions(s: System, more: seq<Action>, x: Lease, k: nat)
    requires Inv(s) && NotAbove(x.placement, At(Durable(s.disk), x.stream))
    requires |s.admissions| <= k < |Exec(s, more).admissions| && Exec(s, more).admissions[k].stream == x.stream
    ensures NotAbove(x.placement, Exec(s, more).admissions[k].placement)
  {
    hide Inv, Step;
    if more != [] {
      var n := |more| - 1;
      var before := Exec(s, more[..n]);
      ExecKeeps(s, more[..n]);
      StepGrowsJournals(before, more[n]);
      if k < |before.admissions| {
        LaterAdmissions(s, more[..n], x, k);
      } else {
        assert NotAbove(At(Durable(s.disk), x.stream), At(Durable(before.disk), x.stream));
        StillDisk(before);
        FileAbove(before.disk, x.stream);
        NewAdmission(before, more[n], k);
      }
    }
  }

  lemma OnlyAdmitAdmits(s: System, a: Action)
    requires !a.AdmitEnd?
    ensures Step(s, a).admissions == s.admissions
  {
    hide Claim, Begin, Drop, Locked, SerialFree;
  }

  /** A new admission is at the placement processes rely on. */
  lemma NewAdmission(s: System, a: Action, k: nat)
    requires Inv(s) && |s.admissions| <= k < |Step(s, a).admissions|
    ensures var x := Step(s, a).admissions[k]; x.placement == At(Relied(s.disk), x.stream)
  {
    hide DiskOk, MemoryOk, Enter, Locked;
    if !a.AdmitEnd? {
      OnlyAdmitAdmits(s, a);
    }
    var m := s.memory.value;
    var t := m.tasks[a.p];
    EnterKeeps(s.disk, m, a.p, t.stream, t.placement);
    GateMatches(s.disk, m, t.stream);
  }

  /** No later admission of a stream, in any run, falls behind or contradicts an admitted placement
      exactly when that placement is already durable. */
  lemma FollowedIffSettled(actions: seq<Action>, x: Lease)
    requires !Blank(x.stream)
    ensures var s := Exec(Initial(), actions);
            AdmissionsFollow(s, x) <==> NotAbove(x.placement, At(Durable(s.disk), x.stream))
  {
    hide Inv, DiskOk, Exec, Blank;
    Reachable(actions);
    var s := Exec(Initial(), actions);
    if NotAbove(x.placement, At(Durable(s.disk), x.stream)) {
      forall more, k | |s.admissions| <= k < |Exec(s, more).admissions|
                       && Exec(s, more).admissions[k].stream == x.stream
        ensures NotAbove(x.placement, Exec(s, more).admissions[k].placement)
      {
        LaterAdmissions(s, more, x, k);
      }
    } else {
      StillDisk(s);
      ReopenedAdmits(s, x.stream);
      var cur := At(Durable(s.disk), x.stream);
      var k := |s.admissions|;
      assert Exec(s, Reopening(x.stream, cur)).admissions[k] == Lease(x.stream, cur);
    }
  }

  // ------------------------------------------------------ no opened rename taken back

  /** In every run whose power losses take back no rename a process has opened over: a fence that
      returned success stays below what processes rely on, what they would read, and every lease. */
  lemma InstalledFenceSurvives(actions: seq<Action>, more: seq<Action>, i: nat)
    requires NoDrops(Initial(), actions + more) && i < |Exec(Initial(), actions).fences|
    ensures var fence := Exec(Initial(), actions).fences[i];
            var s := Exec(Initial(), actions + more);
            && NotAbove(fence.placement, At(Relied(s.disk), fence.stream))
            && NotAbove(fence.placement, At(RoutesOf(File(s.disk)), fence.stream))
            && (s.memory.Some? ==>
                  forall p :: p in s.memory.value.leases && s.memory.value.leases[p].stream == fence.stream ==>
                                NotAbove(fence.placement, s.memory.value.leases[p].placement))
  {
    hide DiskOk, TasksOk, RenameOk, Exec, File;
    var s := Exec(Initial(), actions + more);
    Reachable(actions + more);
    RunsGrow(Initial(), actions, more);
    assert s.fences[i] == Exec(Initial(), actions).fences[i];
    FileAbove(s.disk, s.fences[i].stream);
  }

  /** In every such run, admissions of a stream never fall back to an earlier epoch, and no epoch of
      it is admitted under two route digests. */
  lemma OneDigestPerEpoch(actions: seq<Action>, i: nat, j: nat)
    requires NoDrops(Initial(), actions) && i < j < |Exec(Initial(), actions).admissions|
    requires Exec(Initial(), actions).admissions[i].stream == Exec(Initial(), actions).admissions[j].stream
    ensures var a := Exec(Initial(), actions).admissions[i].placement;
            var b := Exec(Initial(), actions).admissions[j].placement;
            a.epoch <= b.epoch && (a.epoch == b.epoch ==> a.routeDigest == b.routeDigest)
  {
    hide Inv, Bounded, Exec;
    Reachable(actions);
  }

  /** The placements processes rely on never fall along the run. */
  ghost predicate EpochsNeverFall(s: System, actions: seq<Action>) {
    forall i :: 0 <= i < |actions| ==>
                  Raises(Relied(Exec(s, actions[..i]).disk), Relied(Step(Exec(s, actions[..i]), actions[i]).disk))
  }

  /** A power loss that changes back a placement a process has opened with. */
  ghost predicate TakesBack(d: Disk, a: Action) {
    Drops(d, a) && exists stream :: At(RoutesOf(Surviving(d, a.kept)), stream) != At(Relied(d), stream)
  }

  lemma FallsIffTakenBack(s: System, a: Action)
    requires Inv(s)
    ensures Raises(Relied(s.disk), Relied(Step(s, a).disk)) <==> !TakesBack(s.disk, a)
  {
    hide DiskOk, MemoryOk, Journaled;
    StepKeeps(s, a);
    if Drops(s.disk, a) {
      LossKeeps(s.disk, a.kept);
      RenamesRaise(s.disk, Min(a.kept, |s.disk.renames|), Min(s.disk.relied, |s.disk.renames|));
      assert RoutesOf(Surviving(s.disk, a.kept)) == After(s.disk, Min(a.kept, |s.disk.renames|));
      forall stream
        ensures NotAbove(At(Durable(Step(s, a).disk), stream), At(Relied(s.disk), stream))
      {
      }
    }
  }

  /** Placements never fall along a run exactly when no power loss takes back a placement some
      process has opened with. */
  lemma EpochsFallIff(actions: seq<Action>)
    ensures EpochsNeverFall(Initial(), actions) <==>
            forall i :: 0 <= i < |actions| ==> !TakesBack(Exec(Initial(), actions[..i]).disk, actions[i])
  {
    hide Inv, Step, Exec, Raises, TakesBack;
    forall i | 0 <= i < |actions|
      ensures Raises(Relied(Exec(Initial(), actions[..i]).disk),
                     Relied(Step(Exec(Initial(), actions[..i]), actions[i]).disk))
              <==> !TakesBack(Exec(Initial(), actions[..i]).disk, actions[i])
    {
      Reachable(actions[..i]);
      FallsIffTakenBack(Exec(Initial(), actions[..i]), actions[i]);
    }
  }

  // -------------------------------------------------------- an opened rename taken back

  const OLD := PlacementEpoch(1, "a")
  const NEW := PlacementEpoch(1, "b")

  /** A process dies between the rename of a fence and the sync of the directory. */
  function Unsynced(): seq<Action> {
    [Open, FenceBegin(1, "s", OLD), FenceEnter(1, false), FenceWrite(1), FenceRename(1), Exit]
  }

  /** The next process opens over the rename, admits at it, answers the fence as already installed,
      and then the power fails. */
  function OpenedOver(): seq<Action> {
    [Open, AdmitBegin(2, "s", OLD), AdmitEnd(2), FenceBegin(3, "s", OLD), FenceEnter(3, false), PowerLoss(0)]
  }

  /** The one after that installs the other digest at the same epoch and admits at it. */
  function FencedAgain(): seq<Action> {
    [Open, FenceBegin(4, "s", NEW), FenceEnter(4, false), FenceWrite(4), FenceRename(4), FenceSync(4, true),
     AdmitBegin(5, "s", NEW), AdmitEnd(5)]
  }

  const LOST := System(Disk(None, [], 0), None, [Lease("s", OLD)], [Lease("s", OLD)])

  lemma Names()
    ensures !Blank("s") && ValidateEpoch(OLD) == None && ValidateEpoch(NEW) == None
  {
    assert !IsWhitespace("s"[0]) && !IsWhitespace("a"[0]) && !IsWhitespace("b"[0]);
  }

  /** A process at work on one fence of one stream, and nothing else. */
  function Fencer(p: nat, t: Task, transitioning: bool): Memory {
    Memory(map["s" := Gate(BOOTSTRAP, 0, transitioning)], map[], false, map[p := t], map[])
  }

  /** From a fresh process with no routes to a fence about to be synced. */
  lemma FenceToRename(s: System, run: seq<Action>, p: nat, x: PlacementEpoch)
    requires s.memory.None? && s.disk == Disk(None, [], 0) && |run| >= 5
    requires run[..5] == [Open, FenceBegin(p, "s", x), FenceEnter(p, false), FenceWrite(p), FenceRename(p)]
    requires x.epoch == 1 && ValidateEpoch(x) == None
    ensures Exec(s, run[..5])
            == s.(memory := Some(Fencer(p, Syncing("s", x), true)), disk := Disk(None, [map["s" := x]], 0))
  {
    hide Blank, ValidateEpoch, Step;
    Names();
    assert forall i :: 0 <= i < 5 ==> run[i] == run[..5][i];
    assert Step(s, Open) == s.(memory := Some(FromPersisted(map[]))) by { FreshOpen(s); }
    StepOf(s, run, 0, s, s.(memory := Some(FromPersisted(map[]))));
    FencerBegins(s, p, x);
    StepOf(s, run, 1, s.(memory := Some(FromPersisted(map[]))), s.(memory := Some(Fencer(p, Fencing("s", x), false))));
    FencerEnters(s, p, x);
    StepOf(s, run, 2, s.(memory := Some(Fencer(p, Fencing("s", x), false))),
           s.(memory := Some(Fencer(p, Draining("s", x), true))));
    FencerWrites(s, p, x);
    StepOf(s, run, 3, s.(memory := Some(Fencer(p, Draining("s", x), true))),
           s.(memory := Some(Fencer(p, Writing("s", x), true))));
    StepOf(s, run, 4, s.(memory := Some(Fencer(p, Writing("s", x), true))),
           s.(memory := Some(Fencer(p, Syncing("s", x), true)), disk := Disk(None, [map["s" := x]], 0)));
  }

  lemma FreshOpen(s: System)
    requires s.memory.None? && s.disk == Disk(None, [], 0)
    ensures Step(s, Open) == s.(memory := Some(FromPersisted(map[])))
  {
  }

  lemma FencerBegins(s: System, p: nat, x: PlacementEpoch)
    requires ValidateEpoch(x) == None
    ensures Step(s.(memory := Some(FromPersisted(map[]))), FenceBegin(p, "s", x))
            == s.(memory := Some(Fencer(p, Fencing("s", x), false)))
  {
    hide Blank, ValidateEpoch;
    Names();
  }

  lemma FencerEnters(s: System, p: nat, x: PlacementEpoch)
    requires x.epoch == 1
    ensures Step(s.(memory := Some(Fencer(p, Fencing("s", x), false))), FenceEnter(p, false))
            == s.(memory := Some(Fencer(p, Draining("s", x), true)))
  {
    var m := Fencer(p, Fencing("s", x), false);
    assert !Locked(m, "s");
    assert Claim(m, p, "s", x) == Fencer(p, Draining("s", x), true);
    assert s.fences + [] == s.fences;
  }

  lemma FencerWrites(s: System, p: nat, x: PlacementEpoch)
    requires s.disk == Disk(None, [], 0)
    ensures Step(s.(memory := Some(Fencer(p, Draining("s", x), true))), FenceWrite(p))
            == s.(memory := Some(Fencer(p, Writing("s", x), true)))
    ensures Step(s.(memory := Some(Fencer(p, Writing("s", x), true))), FenceRename(p))
            == s.(memory := Some(Fencer(p, Syncing("s", x), true)), disk := Disk(None, [map["s" := x]], 0))
  {
    var m := Fencer(p, Draining("s", x), true);
    assert SerialFree(m);
    assert StartWriting(m, p, "s", x) == Fencer(p, Writing("s", x), true);
    assert Set(Fencer(p, Writing("s", x), true), p, Syncing("s", x)) == Fencer(p, Syncing("s", x), true);
    assert map[]["s" := x] == map["s" := x];
  }

  const RENAMED := System(Disk(None, [map["s" := OLD]], 0), None, [], [])

  lemma UnsyncedRun()
    ensures Exec(Initial(), Unsynced()) == RENAMED
  {
    hide ValidateEpoch, Blank;
    var run := Unsynced();
    Names();
    FenceToRename(Initial(), run, 1, OLD);
    var last := Exec(Initial(), run[..5]);
    StepOf(Initial(), run, 5, last, last.(memory := None));
    assert run[..6] == run;
  }

  /** A process that opened over the unsynced rename. */
  function Over(tasks: map<nat, Task>, leases: map<nat, Lease>): Memory {
    Memory(map["s" := Gate(OLD, |leases|, false)], map["s" := OLD], false, tasks, leases)
  }

  const OVER := Disk(None, [map["s" := OLD]], 1)

  lemma OverAdmits()
    ensures var start := RENAMED.(memory := Some(FromPersisted(map["s" := OLD])), disk := OVER);
            var waiting := start.(memory := Some(Over(map[2 := Admitting("s", OLD)], map[])));
            && Step(RENAMED, Open) == start
            && Step(start, AdmitBegin(2, "s", OLD)) == waiting
  {
    hide Blank;
    Names();
    assert ValidRoutes(map["s" := OLD]);
  }

  lemma OverAdmitted()
    ensures var lease := Lease("s", OLD);
            var waiting := System(OVER, Some(Over(map[2 := Admitting("s", OLD)], map[])), [], []);
            && Step(waiting, AdmitEnd(2))
               == waiting.(memory := Some(Over(map[2 := Admitted], map[2 := lease])), admissions := [lease])
  {
    var m := Over(map[2 := Admitting("s", OLD)], map[]);
    var lease := Lease("s", OLD);
    assert |map[2 := lease]| == 1;
    assert !Locked(m, "s");
    assert Enter(m, 2, "s", OLD) == Over(map[2 := Admitted], map[2 := lease]);
  }

  lemma OverFences()
    ensures var lease := Lease("s", OLD);
            var held := System(OVER, Some(Over(map[2 := Admitted], map[2 := lease])), [lease], []);
            var asking := held.(memory := Some(Over(map[2 := Admitted, 3 := Fencing("s", OLD)], map[2 := lease])));
            && Step(held, FenceBegin(3, "s", OLD)) == asking
            && Step(asking, FenceEnter(3, false))
               == asking.(memory := Some(Over(map[2 := Admitted, 3 := Installed], map[2 := lease])), fences := [lease])
  {
    hide Blank;
    Names();
    var lease := Lease("s", OLD);
    var m := Over(map[2 := Admitted, 3 := Fencing("s", OLD)], map[2 := lease]);
    assert !Locked(m, "s");
    assert Claim(m, 3, "s", OLD) == Over(map[2 := Admitted, 3 := Installed], map[2 := lease]);
  }

  lemma OpenedOverRun()
    ensures Exec(RENAMED, OpenedOver()) == LOST
  {
    hide Step;
    var run := OpenedOver();
    var lease := Lease("s", OLD);
    OverAdmits();
    OverAdmitted();
    OverFences();
    var start := RENAMED.(memory := Some(FromPersisted(map["s" := OLD])), disk := OVER);
    var waiting := start.(memory := Some(Over(map[2 := Admitting("s", OLD)], map[])));
    var held := System(OVER, Some(Over(map[2 := Admitted], map[2 := lease])), [lease], []);
    var asking := held.(memory := Some(Over(map[2 := Admitted, 3 := Fencing("s", OLD)], map[2 := lease])));
    var done := asking.(memory := Some(Over(map[2 := Admitted, 3 := Installed], map[2 := lease])), fences := [lease]);
    StepOf(RENAMED, run, 0, RENAMED, start);
    StepOf(RENAMED, run, 1, start, waiting);
    StepOf(RENAMED, run, 2, waiting, held);
    StepOf(RENAMED, run, 3, held, asking);
    StepOf(RENAMED, run, 4, asking, done);
    Losing(done);
    StepOf(RENAMED, run, 5, done, LOST);
    assert run[..6] == run;
  }

  lemma Losing(s: System)
    ensures Step(s, PowerLoss(0)) == s.(memory := None, disk := Disk(s.disk.settled, [], 0))
  {
  }

  /** The process that fences the other digest, once its fence is installed. */
  function Settled(t: Task, leases: map<nat, Lease>): Memory {
    Memory(map["s" := Gate(NEW, |leases|, false)], map["s" := NEW], false, map[4 := Installed, 5 := t], leases)
  }

  function Synced(s: System): System {
    s.(memory := Some(Memory(map["s" := Gate(NEW, 0, false)], map["s" := NEW], false, map[4 := Installed], map[])),
       disk := Disk(Some(map["s" := NEW]), [], 0), fences := s.fences + [Lease("s", NEW)])
  }

  lemma FenceSynced(s: System)
    requires s.disk == Disk(None, [map["s" := NEW]], 0)
    ensures Step(s.(memory := Some(Fencer(4, Syncing("s", NEW), true))), FenceSync(4, true)) == Synced(s)
  {
    assert Publish(Fencer(4, Syncing("s", NEW), true), 4, "s", NEW) == Synced(s).memory.value;
  }

  lemma SettledWaits(s: System)
    ensures Step(Synced(s), AdmitBegin(5, "s", NEW))
            == Synced(s).(memory := Some(Settled(Admitting("s", NEW), map[])))
  {
    hide Blank;
    Names();
    assert Begin(Synced(s).memory.value, 5, "s", NEW, Admitting("s", NEW)) == Settled(Admitting("s", NEW), map[]);
  }

  lemma SettledAdmits(s: System)
    requires s.memory == Some(Settled(Admitting("s", NEW), map[]))
    ensures Step(s, AdmitEnd(5)).admissions == s.admissions + [Lease("s", NEW)]
    ensures Step(s, AdmitEnd(5)).fences == s.fences && Step(s, AdmitEnd(5)).disk == s.disk
  {
    assert !Locked(s.memory.value, "s");
  }

  lemma FencedAgainRun()
    ensures var s := Exec(LOST, FencedAgain());
            && s.admissions == [Lease("s", OLD), Lease("s", NEW)] && s.fences == [Lease("s", OLD), Lease("s", NEW)]
            && s.disk == Disk(Some(map["s" := NEW]), [], 0)
  {
    hide Step, ValidateEpoch, Blank;
    var run := FencedAgain();
    Names();
    FenceToRename(LOST, run, 4, NEW);
    var renamed := LOST.(disk := Disk(None, [map["s" := NEW]], 0));
    var s5 := renamed.(memory := Some(Fencer(4, Syncing("s", NEW), true)));
    FenceSynced(renamed);
    SettledWaits(renamed);
    var s6, s7 := Synced(renamed), Synced(renamed).(memory := Some(Settled(Admitting("s", NEW), map[])));
    SettledAdmits(s7);
    StepOf(LOST, run, 5, s5, s6);
    StepOf(LOST, run, 6, s6, s7);
    StepOf(LOST, run, 7, s7, Step(s7, run[7]));
    assert run[..8] == run;
  }

  /** The run in which a power loss takes back a rename that a process opened over. The fence that
      was answered as installed is lost, the placement fell, and one epoch of the stream was
      admitted under two route digests. */
  lemma OpenedRenameTakenBack()
    ensures var before := Unsynced() + OpenedOver();
            var s := Exec(Initial(), before + FencedAgain());
            && Exec(Initial(), before) == LOST
            && !NotAbove(LOST.fences[0].placement, At(RoutesOf(File(LOST.disk)), "s"))
            && s.fences == [Lease("s", OLD), Lease("s", NEW)] && !NotAbove(OLD, At(RoutesOf(File(s.disk)), "s"))
            && s.admissions == [Lease("s", OLD), Lease("s", NEW)]
            && OLD.epoch == NEW.epoch && OLD.routeDigest != NEW.routeDigest
  {
    hide Exec;
    UnsyncedRun();
    OpenedOverRun();
    FencedAgainRun();
    ExecConcat(Initial(), Unsynced(), OpenedOver());
    ExecConcat(Initial(), Unsynced() + OpenedOver(), FencedAgain());
  }

  // ----------------------------------------------------------------- fail-closed

  /** The same process, still closed: the sidecar has not moved, and only admissions that had
      already passed their health check can have been granted or still be waiting. */
  ghost predicate StillClosed(start: System, s: System) {
    && start.memory.Some? && s.memory.Some?
    && s.memory.value.failedClosed && s.disk == start.disk
    && s.memory.value.persisted == start.memory.value.persisted
    && (forall p :: p in s.memory.value.leases || Waits(s.memory.value, p) ==>
          p in start.memory.value.leases || Waits(start.memory.value, p))
  }

  predicate Waits(m: Memory, p: nat) {
    p in m.tasks && m.tasks[p].Admitting?
  }

  lemma ClosedStep(start: System, s: System, a: Action)
    requires StillClosed(start, s) && Inv(s) && !a.Exit? && !a.PowerLoss?
    ensures StillClosed(start, Step(s, a))
  {
    hide GatesOk, RenameOk, DiskOk, LeasesOk, Locked, SerialFree, Blank, ValidateEpoch;
    if a.FenceAbort? || a.FenceRename? || a.FenceSync? {
      NobodyHolds(s.memory.value, a.p);
    } else if a.FenceWrite? || a.FenceEnter? {
      ClosedFence(start, s, a);
    }
  }

  lemma ClosedFence(start: System, s: System, a: Action)
    requires StillClosed(start, s) && (a.FenceWrite? || a.FenceEnter?)
    ensures StillClosed(start, Step(s, a))
  {
    hide Locked, SerialFree;
  }

  lemma NobodyHolds(m: Memory, p: nat)
    requires TasksOk(m) && m.failedClosed
    ensures p in m.tasks ==> !m.tasks[p].Holds()
  {
    if p in m.tasks {
      assert TaskOk(m, m.tasks[p]);
    }
  }

  /** Once a process has failed closed, until it is restarted it never writes the sidecar again and
      refuses every admission that begins afterwards: a lease it grants belongs to a call that had
      already passed the health check. */
  lemma {:induction false} FailClosedRefuses(actions: seq<Action>, more: seq<Action>)
    requires Exec(Initial(), actions).memory.Some? && Exec(Initial(), actions).memory.value.failedClosed
    requires forall i :: 0 <= i < |more| ==> !more[i].Exit? && !more[i].PowerLoss?
    ensures StillClosed(Exec(Initial(), actions), Exec(Initial(), actions + more))
  {
    hide Inv, Step;
    InitialOk();
    if more == [] {
      assert actions + more == actions;
    } else {
      var n := |more| - 1;
      assert (actions + more)[..|actions + more| - 1] == actions + more[..n];
      FailClosedRefuses(actions, more[..n]);
      ExecKeeps(Initial(), actions + more[..n]);
      ClosedStep(Exec(Initial(), actions), Exec(Initial(), actions + more[..n]), more[n]);
    }
  }

  /** The health check is not repeated at the gate: an admission that was already waiting when the
      store failed closed is granted exactly as it would have been before. */
  lemma WaitingAdmissionIgnoresClosure(s: System, p: nat)
    requires s.memory.Some? && s.memory.value.failedClosed && p !in s.memory.value.leases
    requires Runs(s, p) && s.memory.value.tasks[p].Admitting?
    ensures var m := s.memory.value;
            var t := m.tasks[p];
            p in Step(s, AdmitEnd(p)).memory.value.leases <==>
            && !Locked(m, t.stream) && !m.gates[t.stream].transitioning
            && t.placement == m.gates[t.stream].placement
  {
    hide Locked;
  }
}
