/** The placement store of one process, section by section as its locks are taken. */
module PlacementStore {
  import opened Base
  import opened Placement

  /** The steps a drained fence takes in one go, by how the write of the sidecar ends. */
  function PublishSteps(p: nat, rewrite: Rewrite): seq<Action> {
    match rewrite
    case NotWritten => [FenceWrite(p), FenceAbort(p)]
    case Uncertain => [FenceWrite(p), FenceRename(p), FenceSync(p, false)]
    case Synced => [FenceWrite(p), FenceRename(p), FenceSync(p, true)]
  }

  /** Whether a drained fence gets as far as writing the sidecar. */
  predicate Writes(m: Memory, stream: string)
    requires stream in m.gates
  {
    !m.failedClosed && (stream in m.persisted ==> m.persisted[stream] == m.gates[stream].placement)
  }

  /** What publishing a drained fence in one go makes of the system. */
  function Published(s: System, p: nat, rewrite: Rewrite): System
    requires Runs(s, p) && s.memory.value.tasks[p].Draining?
  {
    var m := s.memory.value;
    var t := m.tasks[p];
    var next := m.persisted[t.stream := t.requested];
    if !Writes(m, t.stream) then s.(memory := Some(GiveUp(m, p, t.stream, !m.failedClosed)))
    else
      match rewrite
      case NotWritten => s.(memory := Some(GiveUp(m, p, t.stream, true)))
      case Uncertain =>
        s.(memory := Some(GiveUp(m, p, t.stream, true)), disk := s.disk.(renames := s.disk.renames + [next]))
      case Synced =>
        s.(memory := Some(Publish(m, p, t.stream, t.requested)), disk := Disk(Some(next), [], 0),
           fences := s.fences + [Lease(t.stream, t.requested)])
  }

  lemma PublishStepsRun(s: System, p: nat, rewrite: Rewrite)
    requires Runs(s, p) && s.memory.value.tasks[p].Draining?
    requires var m := s.memory.value; m.gates[m.tasks[p].stream].admitted == 0 && SerialFree(m)
    ensures Exec(s, PublishSteps(p, rewrite)) == Published(s, p, rewrite)
  {
    hide SerialFree, Step, Published;
    var m := s.memory.value;
    var t := m.tasks[p];
    ThreeSteps(s, PublishSteps(p, rewrite));
    if !Writes(m, t.stream) {
      GivesUpFirst(s, p, rewrite);
    } else {
      var writing := s.(memory := Some(Set(m, p, Writing(t.stream, t.requested))));
      assert Step(s, FenceWrite(p)) == writing by { StartsWriting(s, p); }
      WritingEnds(s, p, rewrite);
    }
  }

  lemma StartsWriting(s: System, p: nat)
    requires Runs(s, p) && s.memory.value.tasks[p].Draining?
    requires var m := s.memory.value;
             m.gates[m.tasks[p].stream].admitted == 0 && SerialFree(m) && Writes(m, m.tasks[p].stream)
    ensures var t := s.memory.value.tasks[p];
            Step(s, FenceWrite(p)) == s.(memory := Some(Set(s.memory.value, p, Writing(t.stream, t.requested))))
  {
    hide SerialFree;
  }

  lemma GivesUpFirst(s: System, p: nat, rewrite: Rewrite)
    requires Runs(s, p) && s.memory.value.tasks[p].Draining?
    requires var m := s.memory.value;
             m.gates[m.tasks[p].stream].admitted == 0 && SerialFree(m) && !Writes(m, m.tasks[p].stream)
    ensures Step(s, FenceWrite(p)) == Published(s, p, rewrite)
    ensures forall a | a in {FenceAbort(p), FenceRename(p), FenceSync(p, true), FenceSync(p, false)} ::
              Step(Published(s, p, rewrite), a) == Published(s, p, rewrite)
  {
    hide SerialFree;
  }

  lemma WritingEnds(s: System, p: nat, rewrite: Rewrite)
    requires Runs(s, p) && s.memory.value.tasks[p].Draining? && Writes(s.memory.value, s.memory.value.tasks[p].stream)
    ensures var t := s.memory.value.tasks[p];
            var writing := s.(memory := Some(Set(s.memory.value, p, Writing(t.stream, t.requested))));
            Published(s, p, rewrite)
            == match rewrite
               case NotWritten => Step(writing, FenceAbort(p))
               case Uncertain => Step(Step(writing, FenceRename(p)), FenceSync(p, false))
               case Synced => Step(Step(writing, FenceRename(p)), FenceSync(p, true))
  {
    var m := s.memory.value;
    var t := m.tasks[p];
    var writing := s.(memory := Some(Set(m, p, Writing(t.stream, t.requested))));
    var renamed := s.(memory := Some(Set(m, p, Syncing(t.stream, t.requested))),
                      disk := s.disk.(renames := s.disk.renames + [m.persisted[t.stream := t.requested]]));
    Overwrites(m.tasks, p, Writing(t.stream, t.requested), Syncing(t.stream, t.requested));
    Overwrites(m.tasks, p, Writing(t.stream, t.requested), Rejected(Storage));
    Overwrites(m.tasks, p, Syncing(t.stream, t.requested), Rejected(Storage));
    Overwrites(m.tasks, p, Syncing(t.stream, t.requested), Installed);
    assert Step(writing, FenceRename(p)) == renamed;
  }

  lemma Overwrites(tasks: map<nat, Task>, p: nat, x: Task, y: Task)
    ensures tasks[p := x][p := y] == tasks[p := y]
  {
  }

  lemma ThreeSteps(s: System, run: seq<Action>)
    requires 2 <= |run| <= 3
    ensures Exec(s, run) == if |run| == 2 then Step(Step(s, run[0]), run[1])
                            else Step(Step(Step(s, run[0]), run[1]), run[2])
  {
    hide Step;
    assert run[..1][..0] == [] && run[..2][..1] == run[..1];
    assert Exec(s, run[..1]) == Step(s, run[0]);
    assert Exec(s, run[..2]) == Step(Step(s, run[0]), run[1]);
    if |run| == 2 {
      assert run[..2] == run;
    }
  }

  class Store {
    var gates: map<string, Gate>
    var persisted: Routes
    var failedClosed: bool
    var tasks: map<nat, Task>
    var leases: map<nat, Lease>
    var disk: Disk
    ghost var admissions: seq<Lease>
    ghost var fences: seq<Lease>

    /** `from_persisted`. */
    constructor (routes: Routes, d: Disk)
      ensures View() == FromPersisted(routes) && disk == d && admissions == [] && fences == []
    {
      gates := map[];
      persisted := routes;
      failedClosed := false;
      tasks := map[];
      leases := map[];
      disk := d;
      admissions, fences := [], [];
    }

    function View(): Memory
      reads this
    {
      Memory(gates, persisted, failedClosed, tasks, leases)
    }

    /** The whole system this process is the live part of. */
    ghost function Whole(): System
      reads this
    {
      System(disk, Some(View()), admissions, fences)
    }

    /** `gate`. */
    method GateOf(stream: string)
      modifies this`gates
      ensures View() == WithGate(old(View()), stream)
    {
      if stream in gates {
        return;
      }
      var placement := BOOTSTRAP;
      if stream in persisted {
        placement := persisted[stream];
      }
      gates := gates[stream := Gate(placement, 0, false)];
    }

    /** Health and argument checks, then the gate, as `admit` and `install_fence` both start. */
    method Check(stream: string, placement: PlacementEpoch) returns (error: Option<PlacementError>)
      modifies this`gates
      ensures error == if failedClosed then Some(Storage)
                       else if ValidateEpoch(placement).Some? then ValidateEpoch(placement)
                       else if Blank(stream) then Some(InvalidStream) else None
      ensures View() == if error.Some? then old(View()) else WithGate(old(View()), stream)
    {
      if failedClosed {
        return Some(Storage);
      }
      error := ValidateEpoch(placement);
      if error.Some? {
        return;
      }
      if Blank(stream) {
        return Some(InvalidStream);
      }
      GateOf(stream);
    }

    method AdmitBegin(p: nat, stream: string, placement: PlacementEpoch)
      requires p !in tasks && p !in leases
      modifies this`gates, this`tasks
      ensures Whole() == Step(old(Whole()), Action.AdmitBegin(p, stream, placement))
    {
      hide Blank, ValidateEpoch;
      var error := Check(stream, placement);
      KnownErrors(placement);
      tasks := tasks[p := if error.Some? then Rejected(error.value) else Admitting(stream, placement)];
    }

    static lemma KnownErrors(placement: PlacementEpoch)
      ensures ValidateEpoch(placement) in {None, Some(InvalidEpoch)}
    {
    }

    method FenceBegin(p: nat, stream: string, requested: PlacementEpoch)
      requires p !in tasks && p !in leases
      modifies this`gates, this`tasks
      ensures Whole() == Step(old(Whole()), Action.FenceBegin(p, stream, requested))
    {
      hide Blank, ValidateEpoch;
      var error := Check(stream, requested);
      KnownErrors(requested);
      tasks := tasks[p := if error.Some? then Rejected(error.value) else Fencing(stream, requested)];
    }

    /** The gate section of `admit`, once the gate lock is free. */
    method AdmitEnd(p: nat)
      requires p in tasks && tasks[p].Admitting? && tasks[p].stream in gates && !Locked(View(), tasks[p].stream)
      modifies this`gates, this`tasks, this`leases, this`admissions
      ensures Whole() == Step(old(Whole()), Action.AdmitEnd(p))
    {
      hide Locked, CompareAdmission;
      var stream, placement := tasks[p].stream, tasks[p].placement;
      ghost var journal := admissions;
      assert journal + [] == journal;
      var g := gates[stream];
      if g.transitioning {
        tasks := tasks[p := Rejected(Transitioning)];
        return;
      }
      var refused := CompareAdmission(g.placement, placement);
      if refused.Some? {
        tasks := tasks[p := Rejected(refused.value)];
        return;
      }
      gates := gates[stream := g.(admitted := g.admitted + 1)];
      leases := leases[p := Lease(stream, placement)];
      tasks := tasks[p := Admitted];
      admissions := admissions + [Lease(stream, placement)];
    }

    /** `release_inner`. */
    method Release(p: nat)
      requires p in leases
      modifies this`gates, this`leases
      ensures Whole() == Step(old(Whole()), Action.Release(p))
    {
      var stream := leases[p].stream;
      leases := leases - {p};
      if stream in gates {
        var g := gates[stream];
        gates := gates[stream := g.(admitted := if 0 < g.admitted then g.admitted - 1 else 0)];
      }
    }

    /** The first gate section of `install_fence`, once the gate lock is free and no other fence
        owns the stream. */
    method FenceEnter(p: nat)
      requires p in tasks && tasks[p].Fencing? && tasks[p].stream in gates && !Locked(View(), tasks[p].stream)
      requires !gates[tasks[p].stream].transitioning
      modifies this`gates, this`tasks, this`fences
      ensures Whole() == Step(old(Whole()), Action.FenceEnter(p, false))
    {
      hide Locked;
      var stream, requested := tasks[p].stream, tasks[p].requested;
      ghost var journal := fences;
      assert journal + [] == journal;
      var current := gates[stream].placement;
      if requested.epoch < current.epoch {
        tasks := tasks[p := Rejected(Decreasing(current, requested))];
      } else if requested.epoch == current.epoch {
        if requested == current {
          tasks := tasks[p := Installed];
          fences := fences + [Lease(stream, requested)];
        } else {
          tasks := tasks[p := Rejected(FenceConflict(current, requested))];
        }
      } else {
        gates := gates[stream := gates[stream].(transitioning := true)];
        tasks := tasks[p := Draining(stream, requested)];
      }
    }

    /** The early exits of the publication: the flag, the transition, the waiting calls. */
    method FenceFail(p: nat, stream: string, closed: bool)
      requires stream in gates
      modifies this`gates, this`tasks, this`failedClosed
      ensures View() == GiveUp(old(View()), p, stream, closed)
    {
      if closed {
        failedClosed := true;
      }
      gates := gates[stream := gates[stream].(transitioning := false)];
      tasks := tasks[p := Rejected(Storage)];
    }

    /** The publication of a drained fence, under the gate and sidecar locks, in one go: the write
        of the sidecar fails before its rename, fails after it, or is made durable. */
    method FencePublish(p: nat, rewrite: Rewrite)
      requires p in tasks && tasks[p].Draining? && tasks[p].stream in gates
      requires gates[tasks[p].stream].admitted == 0 && SerialFree(View())
      modifies this
      ensures Whole() == Exec(old(Whole()), PublishSteps(p, rewrite))
    {
      hide SerialFree, Exec, PublishSteps, Step;
      var stream, requested := tasks[p].stream, tasks[p].requested;
      PublishStepsRun(Whole(), p, rewrite);
      if failedClosed {
        FenceFail(p, stream, false);
        return;
      }
      if stream in persisted && persisted[stream] != gates[stream].placement {
        FenceFail(p, stream, true);
        return;
      }
      var next := persisted[stream := requested];
      if rewrite != NotWritten {
        disk := disk.(renames := disk.renames + [next]);
      }
      if rewrite != Synced {
        FenceFail(p, stream, true);
        return;
      }
      disk := Disk(Some(next), [], 0);
      persisted := next;
      gates := gates[stream := gates[stream].(placement := requested, transitioning := false)];
      tasks := tasks[p := Installed];
      fences := fences + [Lease(stream, requested)];
    }
  }
}
