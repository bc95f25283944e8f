/** How admissions and fences are answered, and when a store opens: in every run, from the placement
    the process relies on and the fences under way. */
module PlacementAnswers {
  import opened Base
  import opened Placement
  import opened PlacementTheorems
  import opened PlacementRuns

  /** A fence that has claimed the stream's transition. */
  predicate Underway(m: Memory, q: nat, stream: string) {
    q in m.tasks && m.tasks[q].Owns() && m.tasks[q].stream == stream
  }

  /** A stream is in transition only while a fence has claimed it. */
  ghost predicate TransitionsOwned(m: Memory) {
    forall s :: s in m.gates && m.gates[s].transitioning ==> exists q :: Underway(m, q, s)
  }

  ghost predicate AllOwned(s: System) {
    s.memory.Some? ==> TransitionsOwned(s.memory.value)
  }

  lemma SetOwned(m: Memory, p: nat, t: Task)
    requires TransitionsOwned(m) && (p in m.tasks && m.tasks[p].Owns() ==> t.Owns() && t.stream == m.tasks[p].stream)
    ensures TransitionsOwned(Set(m, p, t))
  {
    var after := Set(m, p, t);
    forall s | s in after.gates && after.gates[s].transitioning ensures exists q :: Underway(after, q, s) {
      var q :| Underway(m, q, s);
      assert Underway(after, q, s);
    }
  }

  /** A change to one gate that ends its transition, or keeps it with its owner. */
  lemma GateOwned(m: Memory, after: Memory, stream: string, p: nat)
    requires TransitionsOwned(m) && stream in after.gates
    requires after.gates == m.gates[stream := after.gates[stream]]
    requires forall q :: q != p && q in m.tasks ==> q in after.tasks && after.tasks[q] == m.tasks[q]
    requires p in m.tasks && m.tasks[p].Owns() ==> m.tasks[p].stream == stream
    requires after.gates[stream].transitioning ==> Underway(after, p, stream)
    ensures TransitionsOwned(after)
  {
    forall s | s in after.gates && after.gates[s].transitioning ensures exists q :: Underway(after, q, s) {
      if s != stream {
        var q :| Underway(m, q, s);
        assert Underway(after, q, s);
      }
    }
  }

  lemma LeaseOwned(m: Memory, p: nat)
    requires TransitionsOwned(m) && p in m.leases
    ensures TransitionsOwned(Drop(m, p))
  {
    var after := Drop(m, p);
    forall s | s in after.gates && after.gates[s].transitioning ensures exists q :: Underway(after, q, s) {
      var q :| Underway(m, q, s);
      assert Underway(after, q, s);
    }
  }

  lemma BeginOwned(m: Memory, p: nat, stream: string, placement: PlacementEpoch, task: Task)
    requires TransitionsOwned(m) && p !in m.tasks
    ensures TransitionsOwned(Begin(m, p, stream, placement, task))
  {
    hide Blank, ValidateEpoch;
    forall t: Task ensures TransitionsOwned(Set(m, p, t)) {
      SetOwned(m, p, t);
    }
    var gated := WithGate(m, stream);
    assert TransitionsOwned(gated) by {
      forall s | s in gated.gates && gated.gates[s].transitioning ensures exists q :: Underway(gated, q, s) {
        var q :| Underway(m, q, s);
        assert Underway(gated, q, s);
      }
    }
    SetOwned(gated, p, task);
  }

  lemma EnterOwned(m: Memory, p: nat, stream: string, placement: PlacementEpoch)
    requires TransitionsOwned(m) && stream in m.gates && p in m.tasks && m.tasks[p].Admitting?
    ensures TransitionsOwned(Enter(m, p, stream, placement))
  {
    hide CompareAdmission;
    var after := Enter(m, p, stream, placement);
    forall s | s in after.gates && after.gates[s].transitioning ensures exists q :: Underway(after, q, s) {
      var q :| Underway(m, q, s);
      assert Underway(after, q, s);
    }
  }

  lemma ClaimOwned(m: Memory, p: nat, stream: string, requested: PlacementEpoch)
    requires TransitionsOwned(m) && stream in m.gates && p in m.tasks && m.tasks[p].Fencing?
    ensures TransitionsOwned(Claim(m, p, stream, requested))
  {
    var g := m.gates[stream];
    if g.placement.epoch < requested.epoch {
      GateOwned(m, Claim(m, p, stream, requested), stream, p);
    } else {
      forall t: Task ensures TransitionsOwned(Set(m, p, t)) {
        SetOwned(m, p, t);
      }
    }
  }

  lemma FenceOwned(s: System, a: Action)
    requires (a.FenceWrite? || a.FenceAbort? || a.FenceRename? || a.FenceSync?) && Runs(s, a.p)
    requires TransitionsOwned(s.memory.value)
    ensures AllOwned(StepFence(s, a))
  {
    hide SerialFree;
    var m := s.memory.value;
    var t := m.tasks[a.p];
    var after := StepFence(s, a).memory.value;
    if after != m {
      if after.tasks[a.p].Owns() {
        SetOwned(m, a.p, after.tasks[a.p]);
        OwnedAlike(Set(m, a.p, after.tasks[a.p]), after);
      } else {
        GateOwned(m, after, t.stream, a.p);
      }
    }
  }

  lemma OwnedAlike(a: Memory, b: Memory)
    requires TransitionsOwned(a) && a.gates == b.gates && a.tasks == b.tasks
    ensures TransitionsOwned(b)
  {
    forall s | s in b.gates && b.gates[s].transitioning ensures exists q :: Underway(b, q, s) {
      var q :| Underway(a, q, s);
      assert Underway(b, q, s);
    }
  }

  lemma StepOwned(s: System, a: Action)
    requires AllOwned(s)
    ensures AllOwned(Step(s, a))
  {
    hide TransitionsOwned, StepFence, Begin, Enter, Claim, Drop, Locked, ValidRoutes;
    assert forall routes :: TransitionsOwned(FromPersisted(routes)) by { NothingOwned(); }
    match a
    case AdmitBegin(p, stream, placement) =>
      if s.memory.Some? && p !in s.memory.value.tasks {
        BeginOwned(s.memory.value, p, stream, placement, Admitting(stream, placement));
      }
    case FenceBegin(p, stream, requested) =>
      if s.memory.Some? && p !in s.memory.value.tasks {
        BeginOwned(s.memory.value, p, stream, requested, Fencing(stream, requested));
      }
    case AdmitEnd(p) =>
      if Runs(s, p) && s.memory.value.tasks[p].Admitting? {
        EnterOwned(s.memory.value, p, s.memory.value.tasks[p].stream, s.memory.value.tasks[p].placement);
      }
    case FenceEnter(p, woken) =>
      if Runs(s, p) && s.memory.value.tasks[p].Fencing? {
        ClaimOwned(s.memory.value, p, s.memory.value.tasks[p].stream, s.memory.value.tasks[p].requested);
        SetOwned(s.memory.value, p, Rejected(Storage));
      }
    case Release(p) =>
      if s.memory.Some? && p in s.memory.value.leases {
        LeaseOwned(s.memory.value, p);
      }
    case FenceWrite(p) => if Runs(s, p) { FenceOwned(s, a); }
    case FenceAbort(p) => if Runs(s, p) { FenceOwned(s, a); }
    case FenceRename(p) => if Runs(s, p) { FenceOwned(s, a); }
    case FenceSync(p, _) => if Runs(s, p) { FenceOwned(s, a); }
    case _ =>
  }

  lemma NothingOwned()
    ensures forall routes :: TransitionsOwned(FromPersisted(routes))
  {
  }

  /** In every run, a stream is in transition exactly while some fence has claimed it. */
  lemma {:induction false} TransitionIff(actions: seq<Action>, stream: string)
    ensures AllOwned(Exec(Initial(), actions))
    ensures var s := Exec(Initial(), actions);
            s.memory.Some? && stream in s.memory.value.gates ==>
              (s.memory.value.gates[stream].transitioning <==> exists q :: Underway(s.memory.value, q, stream))
  {
    hide Step, Inv, TasksOk;
    if actions != [] {
      TransitionIff(actions[..|actions| - 1], stream);
      StepOwned(Exec(Initial(), actions[..|actions| - 1]), actions[|actions| - 1]);
    }
    var s := Exec(Initial(), actions);
    Reachable(actions);
    if s.memory.Some? && stream in s.memory.value.gates && !s.memory.value.gates[stream].transitioning {
      InvTasks(s);
      TransitionOwned(s.memory.value, 0, stream);
    }
  }

  lemma InvTasks(s: System)
    requires Inv(s) && s.memory.Some?
    ensures TasksOk(s.memory.value) && forall st :: st in s.memory.value.gates ==>
              s.memory.value.gates[st].placement == At(s.memory.value.persisted, st)
  {
  }

  /** A fence of the stream is writing the sidecar. */
  predicate BeingWritten(m: Memory, stream: string) {
    exists q :: q in m.tasks && (m.tasks[q].Writing? || m.tasks[q].Syncing?) && m.tasks[q].stream == stream
  }

  /** In every run, an admission at its gate waits exactly while a fence of its own stream is writing;
      otherwise it is answered: refused while a fence drains the stream, and else granted exactly at the
      placement the process relies on, an older, a newer or another placement being told apart. */
  lemma AdmissionAnswered(actions: seq<Action>, p: nat)
    requires var s := Exec(Initial(), actions); s.memory.Some? && p in s.memory.value.tasks && s.memory.value.tasks[p].Admitting?
    ensures var s := Exec(Initial(), actions);
            var m, t := s.memory.value, s.memory.value.tasks[p];
            var current := At(m.persisted, t.stream);
            var after := Step(s, AdmitEnd(p));
            if BeingWritten(m, t.stream) then after == s
            else
              && after.memory.Some? && p in after.memory.value.tasks
              && after.memory.value.tasks[p]
                 == (if exists q :: Underway(m, q, t.stream) then Rejected(Transitioning)
                     else if t.placement == current then Admitted
                     else if t.placement.epoch < current.epoch then Rejected(Stale(current, t.placement))
                     else if current.epoch < t.placement.epoch then Rejected(Future(current, t.placement))
                     else Rejected(Conflict(current, t.placement)))
              && after.admissions == s.admissions
                                     + (if after.memory.value.tasks[p] == Admitted then [Lease(t.stream, t.placement)] else [])
  {
    hide Exec, Inv, TasksOk;
    var s := Exec(Initial(), actions);
    var t := s.memory.value.tasks[p];
    Reachable(actions);
    InvTasks(s);
    TaskRuns(s, p);
    TransitionIff(actions, t.stream);
  }

  lemma TaskRuns(s: System, p: nat)
    requires s.memory.Some? && TasksOk(s.memory.value) && p in s.memory.value.tasks
    requires s.memory.value.tasks[p].Admitting? || s.memory.value.tasks[p].Fencing?
    ensures Runs(s, p)
  {
    assert TaskOk(s.memory.value, s.memory.value.tasks[p]);
  }

  /** In every run, a fence at its gate waits exactly while another of its stream is under way, unless
      it is woken after the store failed closed; otherwise it claims the transition exactly when it
      raises the epoch, and is answered at once when it does not. */
  lemma FenceAnswered(actions: seq<Action>, p: nat, woken: bool)
    requires var s := Exec(Initial(), actions); s.memory.Some? && p in s.memory.value.tasks && s.memory.value.tasks[p].Fencing?
    ensures var s := Exec(Initial(), actions);
            var m, t := s.memory.value, s.memory.value.tasks[p];
            var current := At(m.persisted, t.stream);
            var after := Step(s, FenceEnter(p, woken));
            if BeingWritten(m, t.stream) then after == s
            else if woken && m.failedClosed then after == s.(memory := Some(Set(m, p, Rejected(Storage))))
            else if exists q :: Underway(m, q, t.stream) then after == s
            else
              && after.memory.Some? && p in after.memory.value.tasks
              && after.memory.value.tasks[p]
                 == (if current.epoch < t.requested.epoch then Draining(t.stream, t.requested)
                     else if t.requested == current then Installed
                     else if t.requested.epoch < current.epoch then Rejected(Decreasing(current, t.requested))
                     else Rejected(FenceConflict(current, t.requested)))
              && after.fences == s.fences
                                 + (if t.requested == current then [Lease(t.stream, t.requested)] else [])
  {
    hide Exec, Inv, TasksOk;
    var s := Exec(Initial(), actions);
    var t := s.memory.value.tasks[p];
    Reachable(actions);
    InvTasks(s);
    TaskRuns(s, p);
    TransitionIff(actions, t.stream);
  }

  /** In every run without a process, opening starts one on what the file says: `open` always, on no
      routes when there is no file; `open_existing` exactly when there is one; and the legacy bootstrap
      exactly when the legacy routes are valid and are the file's, or are written and synced now. */
  lemma OpensIff(actions: seq<Action>, legacy: Routes, rewrite: Rewrite)
    requires Exec(Initial(), actions).memory.None?
    ensures var s := Exec(Initial(), actions);
            && Step(s, Open).memory == Some(FromPersisted(if File(s.disk).Some? then File(s.disk).value else map[]))
            && Step(s, OpenExisting).memory
               == (if File(s.disk).Some? then Some(FromPersisted(File(s.disk).value)) else None)
            && Step(s, BootstrapLegacy(legacy, rewrite)).memory
               == (if ValidRoutes(legacy) && (File(s.disk) == Some(legacy) || (File(s.disk).None? && rewrite.Synced?))
                   then Some(FromPersisted(legacy)) else None)
  {
    hide Exec, ValidRoutes;
    var s := Exec(Initial(), actions);
    Reachable(actions);
    if File(s.disk).Some? {
      FileValid(s.disk);
    }
  }

  lemma FileValid(d: Disk)
    requires DiskOk(d) && File(d).Some?
    ensures ValidRoutes(File(d).value)
  {
    hide ValidRoutes;
    assert After(d, |d.renames|) == File(d).value;
  }
}
