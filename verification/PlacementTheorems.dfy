/** What every interleaving of admissions, releases, fences, crashes and restarts keeps. */
module PlacementTheorems {
  import opened Base
  import opened Placement

  /** `a` is the placement itself or belongs to an earlier epoch. */
  predicate NotAbove(a: PlacementEpoch, b: PlacementEpoch) {
    a == b || a.epoch < b.epoch
  }

  function RoutesOf(file: Option<Routes>): Routes {
    if file.Some? then file.value else map[]
  }

  /** The routes in the file once the first `n` unsettled renames have taken. */
  function After(d: Disk, n: nat): Routes
    requires n <= |d.renames|
  {
    if n == 0 then RoutesOf(d.settled) else d.renames[n - 1]
  }

  function Durable(d: Disk): Routes {
    RoutesOf(d.settled)
  }

  /** The routes some process has opened with or settled since. */
  function Relied(d: Disk): Routes {
    After(d, Min(d.relied, |d.renames|))
  }

  ghost predicate Raises(a: Routes, b: Routes) {
    forall s :: NotAbove(At(a, s), At(b, s))
  }

  /** Every journal entry is at or below its stream's durable placement. */
  predicate Bounded(journal: seq<Lease>, routes: Routes) {
    forall i :: 0 <= i < |journal| ==> NotAbove(journal[i].placement, At(routes, journal[i].stream))
  }

  predicate Ascends(journal: seq<Lease>) {
    forall i, j | 0 <= i < j < |journal| && journal[i].stream == journal[j].stream ::
      NotAbove(journal[i].placement, journal[j].placement)
  }

  function LeasesOn(leases: map<nat, Lease>, stream: string): set<nat> {
    set p | p in leases && leases[p].stream == stream
  }

  /** Every rename raises what it replaces. */
  ghost predicate DiskOk(d: Disk) {
    && d.relied <= |d.renames|
    && (forall n :: 0 <= n <= |d.renames| ==> ValidRoutes(After(d, n)))
    && (forall n, k | 0 <= n <= |d.renames| && 0 <= k <= |d.renames| && k == n + 1 :: Raises(After(d, n), After(d, k)))
  }

  predicate GatesOk(m: Memory) {
    && (forall s :: s in m.gates ==> m.gates[s].placement == At(m.persisted, s))
    && (forall s :: s in m.gates ==> m.gates[s].admitted == |LeasesOn(m.leases, s)|)
    && (forall p :: p in m.leases ==>
          m.leases[p].stream in m.gates && m.leases[p].placement == m.gates[m.leases[p].stream].placement)
  }

  predicate TaskOk(m: Memory, t: Task) {
    && (t.Admitting? ==> !Blank(t.stream) && ValidateEpoch(t.placement) == None && t.stream in m.gates)
    && (t.Fencing? || t.Owns() ==> !Blank(t.stream) && ValidateEpoch(t.requested) == None && t.stream in m.gates)
    && (t.Owns() ==> m.gates[t.stream].transitioning && m.gates[t.stream].placement.epoch < t.requested.epoch)
    && (t.Holds() ==> m.gates[t.stream].admitted == 0 && !m.failedClosed)
  }

  predicate Rivals(a: Task, b: Task) {
    a.Owns() && b.Owns() && a.stream == b.stream
  }

  predicate TasksOk(m: Memory) {
    && (forall p :: p in m.tasks ==> TaskOk(m, m.tasks[p]))
    && (forall p, q | p in m.tasks && q in m.tasks && Rivals(m.tasks[p], m.tasks[q]) :: p == q)
    && (forall p, q | p in m.tasks && q in m.tasks && m.tasks[p].Holds() && m.tasks[q].Holds() :: p == q)
  }

  /** A rename past what the process opened over belongs to the fence that is syncing it, or the
      store is closed. */
  predicate RenameOk(d: Disk, m: Memory) {
    && (forall p :: p in m.tasks && m.tasks[p].Syncing? ==>
          && |d.renames| == d.relied + 1
          && d.renames[d.relied] == m.persisted[m.tasks[p].stream := m.tasks[p].requested])
    && (|d.renames| != d.relied && !m.failedClosed ==> exists p :: p in m.tasks && m.tasks[p].Syncing?)
  }

  predicate LeasesOk(m: Memory) {
    forall p :: p in m.leases ==> p in m.tasks && m.tasks[p].Admitted?
  }

  predicate MemoryOk(d: Disk, m: Memory) {
    m.persisted == Relied(d) && GatesOk(m) && TasksOk(m) && RenameOk(d, m) && LeasesOk(m)
  }

  ghost predicate Inv(s: System) {
    && DiskOk(s.disk)
    && (s.memory.Some? ==> MemoryOk(s.disk, s.memory.value))
  }

  /** Nothing ever admitted or fenced lies above what processes now rely on. */
  predicate Journaled(s: System) {
    && Bounded(s.admissions, Relied(s.disk)) && Bounded(s.fences, Relied(s.disk))
    && Ascends(s.admissions)
  }

  /** A power loss that takes back a rename some process has opened over. */
  predicate Drops(d: Disk, a: Action) {
    a.PowerLoss? && a.kept < d.relied
  }

  // ------------------------------------------------------------------ helpers

  lemma RaisesKeepsBound(journal: seq<Lease>, a: Routes, b: Routes)
    requires Bounded(journal, a) && Raises(a, b)
    ensures Bounded(journal, b)
  {
    forall i | 0 <= i < |journal|
      ensures NotAbove(journal[i].placement, At(b, journal[i].stream))
    {
      assert NotAbove(At(a, journal[i].stream), At(b, journal[i].stream));
    }
  }

  /** From nothing durable, any valid document is a step up. */
  lemma AnythingRaisesEmpty(routes: Routes)
    requires ValidRoutes(routes)
    ensures Raises(map[], routes)
  {
    forall s
      ensures NotAbove(At(map[], s), At(routes, s))
    {
      if s in routes {
        assert ValidateEpoch(routes[s]) == None;
      }
    }
  }

  lemma JournalGrows(journal: seq<Lease>, entry: Lease, routes: Routes)
    requires Bounded(journal, routes) && entry.placement == At(routes, entry.stream)
    ensures Bounded(journal + [entry], routes)
    ensures Ascends(journal) ==> Ascends(journal + [entry])
  {
  }

  lemma LeaseAdded(leases: map<nat, Lease>, p: nat, l: Lease, stream: string)
    requires p !in leases
    ensures |LeasesOn(leases[p := l], stream)|
            == |LeasesOn(leases, stream)| + if l.stream == stream then 1 else 0
  {
    if l.stream == stream {
      assert LeasesOn(leases[p := l], stream) == LeasesOn(leases, stream) + {p};
    } else {
      assert LeasesOn(leases[p := l], stream) == LeasesOn(leases, stream);
    }
  }

  lemma LeaseDropped(leases: map<nat, Lease>, p: nat, stream: string)
    requires p in leases
    ensures |LeasesOn(leases - {p}, stream)|
            == |LeasesOn(leases, stream)| - if leases[p].stream == stream then 1 else 0
  {
    var rest := leases - {p};
    assert rest[p := leases[p]] == leases;
    LeaseAdded(rest, p, leases[p], stream);
  }

  lemma NoLeases(m: Memory, stream: string)
    requires GatesOk(m) && stream in m.gates && m.gates[stream].admitted == 0
    ensures forall p :: p in m.leases ==> m.leases[p].stream != stream
  {
    forall p | p in m.leases
      ensures m.leases[p].stream != stream
    {
      assert m.leases[p].stream == stream ==> p in LeasesOn(m.leases, stream);
    }
  }

  // --------------------------------------------------------------- each section

  /** What a section run by `p` must leave alone: other tasks, and the gates other fences own. */
  predicate OthersKept(before: Memory, after: Memory, p: nat) {
    && (p in after.tasks && after.tasks == before.tasks[p := after.tasks[p]])
    && (forall s :: s in before.gates ==> s in after.gates)
    && (forall q :: q in before.tasks && q != p && before.tasks[q].Owns() && before.tasks[q].stream in before.gates ==>
          after.gates[before.tasks[q].stream] == before.gates[before.tasks[q].stream])
    && (forall q :: q in before.tasks && q != p ==> !Rivals(after.tasks[p], before.tasks[q]))
    && (after.tasks[p].Holds() || after.failedClosed != before.failedClosed ==>
          forall q :: q in before.tasks && q != p ==> !before.tasks[q].Holds())
  }

  lemma TasksKept(before: Memory, after: Memory, p: nat)
    requires TasksOk(before) && OthersKept(before, after, p) && TaskOk(after, after.tasks[p])
    ensures TasksOk(after)
  {
    hide Blank, ValidateEpoch;
    forall q | q in after.tasks
      ensures TaskOk(after, after.tasks[q])
    {
      if q != p {
        assert TaskOk(before, before.tasks[q]);
      }
    }
  }

  lemma GateCreated(m: Memory, stream: string)
    requires GatesOk(m)
    ensures GatesOk(WithGate(m, stream))
  {
    if stream !in m.gates {
      assert LeasesOn(m.leases, stream) == {};
    }
  }

  /** A section that touches neither the sidecar nor a syncing fence keeps the rename in order. */
  lemma RenameKept(d: Disk, before: Memory, after: Memory, p: nat)
    requires RenameOk(d, before) && p in after.tasks && after.tasks == before.tasks[p := after.tasks[p]]
    requires !after.tasks[p].Syncing? && (p in before.tasks && before.tasks[p].Syncing? ==> after.failedClosed)
    requires after.persisted == before.persisted && (before.failedClosed ==> after.failedClosed)
    ensures RenameOk(d, after)
  {
    if |d.renames| != d.relied && !after.failedClosed {
      var q :| q in before.tasks && before.tasks[q].Syncing?;
      assert q in after.tasks && after.tasks[q].Syncing?;
    }
  }

  /** A section that only changes its own task, to one that owns nothing. */
  lemma SetKeeps(d: Disk, m: Memory, p: nat, t: Task)
    requires MemoryOk(d, m) && !t.Owns() && TaskOk(m, t) && (p in m.tasks ==> !m.tasks[p].Owns() && !m.tasks[p].Admitted?)
    ensures MemoryOk(d, Set(m, p, t))
  {
    hide GatesOk, TasksOk, RenameOk, Blank, ValidateEpoch;
    var after := Set(m, p, t);
    GatesAlike(m, after);
    TasksKept(m, after, p);
    RenameKept(d, m, after, p);
  }

  lemma GateKeeps(d: Disk, m: Memory, stream: string)
    requires MemoryOk(d, m)
    ensures MemoryOk(d, WithGate(m, stream)) && stream in WithGate(m, stream).gates
  {
    hide GatesOk, Blank, ValidateEpoch;
    GateCreated(m, stream);
    var after := WithGate(m, stream);
    forall q | q in after.tasks
      ensures TaskOk(after, after.tasks[q])
    {
      assert TaskOk(m, m.tasks[q]);
    }
  }

  lemma BeginKeeps(d: Disk, m: Memory, p: nat, stream: string, placement: PlacementEpoch, task: Task)
    requires MemoryOk(d, m) && p !in m.tasks
    requires task == Admitting(stream, placement) || task == Fencing(stream, placement)
    ensures MemoryOk(d, Begin(m, p, stream, placement, task))
  {
    hide MemoryOk, Blank, ValidateEpoch, WithGate;
    if m.failedClosed {
      SetKeeps(d, m, p, Rejected(Storage));
    } else if ValidateEpoch(placement).Some? {
      SetKeeps(d, m, p, Rejected(InvalidEpoch));
    } else if Blank(stream) {
      SetKeeps(d, m, p, Rejected(InvalidStream));
    } else {
      GateKeeps(d, m, stream);
      assert WithGate(m, stream).tasks == m.tasks by { WithGateTasks(m, stream); }
      SetKeeps(d, WithGate(m, stream), p, task);
    }
  }

  lemma WithGateTasks(m: Memory, stream: string)
    ensures WithGate(m, stream).tasks == m.tasks
  {
  }

  /** The gate invariant looks at gates, leases and the persisted routes only. */
  lemma GatesAlike(a: Memory, b: Memory)
    ensures a.gates == b.gates && a.leases == b.leases && a.persisted == b.persisted ==> GatesOk(a) == GatesOk(b)
  {
  }

  /** A lease granted at the gate's own placement keeps the count and the placements in step. */
  lemma GrantKeeps(m: Memory, after: Memory, p: nat, stream: string)
    requires GatesOk(m) && p !in m.leases && stream in m.gates
    requires after.leases == m.leases[p := Lease(stream, m.gates[stream].placement)]
    requires after.gates == m.gates[stream := m.gates[stream].(admitted := m.gates[stream].admitted + 1)]
    requires after.persisted == m.persisted
    ensures GatesOk(after)
  {
    forall s | s in after.gates
      ensures after.gates[s].admitted == |LeasesOn(after.leases, s)|
    {
      LeaseAdded(m.leases, p, Lease(stream, m.gates[stream].placement), s);
    }
  }

  lemma EnterKeeps(d: Disk, m: Memory, p: nat, stream: string, placement: PlacementEpoch)
    requires MemoryOk(d, m) && p in m.tasks && m.tasks[p] == Admitting(stream, placement)
    requires stream in m.gates
    ensures MemoryOk(d, Enter(m, p, stream, placement))
    ensures Enter(m, p, stream, placement).tasks[p].Admitted? ==> placement == m.gates[stream].placement
  {
    hide GatesOk, TasksOk, RenameOk;
    var after := Enter(m, p, stream, placement);
    if after.tasks[p].Admitted? {
      GrantKeeps(m, after, p, stream);
      TransitionOwned(m, p, stream);
      TasksKept(m, after, p);
      RenameKept(d, m, after, p);
    } else {
      SetKeeps(d, m, p, after.tasks[p]);
    }
  }

  /** A gate that is not transitioning is owned by nobody. */
  lemma TransitionOwned(m: Memory, p: nat, stream: string)
    requires TasksOk(m) && stream in m.gates && !m.gates[stream].transitioning
    ensures forall q :: q in m.tasks && m.tasks[q].Owns() ==> m.tasks[q].stream != stream
  {
    forall q | q in m.tasks && m.tasks[q].Owns()
      ensures m.tasks[q].stream != stream
    {
      assert TaskOk(m, m.tasks[q]);
    }
  }

  lemma DropKeepsGates(m: Memory, p: nat)
    requires GatesOk(m) && p in m.leases
    ensures GatesOk(Drop(m, p))
    ensures 0 < m.gates[m.leases[p].stream].admitted
  {
    var after := Drop(m, p);
    var stream := m.leases[p].stream;
    assert p in LeasesOn(m.leases, stream);
    forall s | s in after.gates
      ensures after.gates[s].admitted == |LeasesOn(after.leases, s)|
    {
      LeaseDropped(m.leases, p, s);
    }
  }

  /** Fewer leases on a gate disturb no task. */
  lemma FewerLeasesKeepTasks(m: Memory, after: Memory, stream: string, n: nat)
    requires TasksOk(m) && stream in m.gates && 0 < m.gates[stream].admitted
    requires after.tasks == m.tasks && after.failedClosed == m.failedClosed
    requires after.gates == m.gates[stream := m.gates[stream].(admitted := n)]
    ensures TasksOk(after)
  {
    hide Blank, ValidateEpoch;
    forall q | q in after.tasks
      ensures TaskOk(after, after.tasks[q])
    {
      assert TaskOk(m, m.tasks[q]);
    }
  }

  lemma DropKeeps(d: Disk, m: Memory, p: nat)
    requires MemoryOk(d, m) && p in m.leases
    ensures MemoryOk(d, Drop(m, p))
  {
    hide GatesOk, TasksOk, RenameOk;
    var stream := m.leases[p].stream;
    assert stream in m.gates by { LeaseHasGate(m, p); }
    DropKeepsGates(m, p);
    FewerLeasesKeepTasks(m, Drop(m, p), stream, m.gates[stream].admitted - 1);
    RenameAlike(d, m, Drop(m, p));
  }

  lemma LeaseHasGate(m: Memory, p: nat)
    requires GatesOk(m) && p in m.leases
    ensures m.leases[p].stream in m.gates
  {
  }

  lemma RenameAlike(d: Disk, a: Memory, b: Memory)
    requires a.tasks == b.tasks && a.persisted == b.persisted && a.failedClosed == b.failedClosed
    ensures RenameOk(d, a) == RenameOk(d, b)
  {
  }

  /** Only the transition flag of one gate changes. */
  lemma FlagKeepsGates(m: Memory, after: Memory, stream: string, flag: bool)
    requires GatesOk(m) && stream in m.gates
    requires after.gates == m.gates[stream := m.gates[stream].(transitioning := flag)]
    requires after.leases == m.leases && after.persisted == m.persisted
    ensures GatesOk(after)
  {
    hide LeasesOn;
  }

  lemma ClaimKeeps(d: Disk, m: Memory, p: nat, stream: string, requested: PlacementEpoch)
    requires MemoryOk(d, m) && p in m.tasks && m.tasks[p] == Fencing(stream, requested) && stream in m.gates
    requires !m.gates[stream].transitioning
    ensures MemoryOk(d, Claim(m, p, stream, requested))
    ensures Claim(m, p, stream, requested).tasks[p].Installed? ==> requested == m.gates[stream].placement
  {
    hide GatesOk, TasksOk, RenameOk, Blank, ValidateEpoch;
    var after := Claim(m, p, stream, requested);
    if after.tasks[p].Draining? {
      FlagKeepsGates(m, after, stream, true);
      TransitionOwned(m, p, stream);
      assert TaskOk(m, m.tasks[p]) by { OneTask(m, p); }
      TasksKept(m, after, p);
      RenameKept(d, m, after, p);
    } else {
      SetKeeps(d, m, p, after.tasks[p]);
    }
  }

  lemma OneTask(m: Memory, p: nat)
    requires TasksOk(m) && p in m.tasks
    ensures TaskOk(m, m.tasks[p])
    ensures m.tasks[p].Owns() ==>
              forall q :: q in m.tasks && q != p && m.tasks[q].Owns() ==> m.tasks[q].stream != m.tasks[p].stream
    ensures m.tasks[p].Holds() ==> forall q :: q in m.tasks && q != p ==> !m.tasks[q].Holds()
  {
    assert forall q :: q in m.tasks && q != p ==> !Rivals(m.tasks[p], m.tasks[q]);
  }

  lemma GiveUpKeeps(d: Disk, m: Memory, p: nat, stream: string, closed: bool)
    requires MemoryOk(d, m) && p in m.tasks && m.tasks[p].Owns() && m.tasks[p].stream == stream && stream in m.gates
    requires (m.tasks[p].Holds() || SerialFree(m)) && (m.tasks[p].Syncing? ==> closed)
    ensures MemoryOk(d, GiveUp(m, p, stream, closed))
  {
    hide GatesOk, TasksOk, RenameOk, Blank, ValidateEpoch;
    var after := GiveUp(m, p, stream, closed);
    FlagKeepsGates(m, after, stream, false);
    OneTask(m, p);
    TasksKept(m, after, p);
    RenameKept(d, m, after, p);
  }

  lemma WriteKeeps(d: Disk, m: Memory, p: nat, stream: string, requested: PlacementEpoch)
    requires MemoryOk(d, m) && p in m.tasks && m.tasks[p] == Draining(stream, requested) && stream in m.gates
    requires m.gates[stream].admitted == 0 && SerialFree(m)
    ensures MemoryOk(d, StartWriting(m, p, stream, requested))
  {
    hide GatesOk, TasksOk, RenameOk, Blank, ValidateEpoch;
    var after := StartWriting(m, p, stream, requested);
    if after.tasks[p].Writing? {
      GatesAlike(m, after);
      OneTask(m, p);
      TasksKept(m, after, p);
      RenameKept(d, m, after, p);
    } else {
      GiveUpKeeps(d, m, p, stream, !m.failedClosed);
    }
  }

  lemma RaisedRoute(routes: Routes, stream: string, requested: PlacementEpoch)
    requires At(routes, stream).epoch < requested.epoch
    requires ValidRoutes(routes) && !Blank(stream) && ValidateEpoch(requested) == None
    ensures Raises(routes, routes[stream := requested]) && ValidRoutes(routes[stream := requested])
  {
    hide Blank;
  }

  lemma {:induction false} RenamesRaise(d: Disk, n: nat, k: nat)
    requires DiskOk(d) && n <= k <= |d.renames|
    ensures Raises(After(d, n), After(d, k))
    decreases k
  {
    hide Raises, ValidRoutes;
    if n == k {
      RaisesSelf(After(d, n));
    } else {
      RenamesRaise(d, n, k - 1);
      RaisesChain(After(d, n), After(d, k - 1), After(d, k));
    }
  }

  /** One more rename over what is relied on. */
  lemma RenameGrows(d: Disk, next: Routes)
    requires DiskOk(d) && ValidRoutes(next) && Raises(After(d, |d.renames|), next)
    ensures DiskOk(d.(renames := d.renames + [next]))
    ensures forall n :: 0 <= n <= |d.renames| ==> After(d.(renames := d.renames + [next]), n) == After(d, n)
  {
    hide Raises, ValidRoutes;
    var e := d.(renames := d.renames + [next]);
    assert forall n :: 0 <= n <= |d.renames| ==> After(e, n) == After(d, n);
    assert After(e, |e.renames|) == next;
  }

  lemma RenameKeeps(d: Disk, m: Memory, p: nat, stream: string, requested: PlacementEpoch)
    requires DiskOk(d) && MemoryOk(d, m) && p in m.tasks && m.tasks[p] == Writing(stream, requested)
    requires stream in m.gates
    ensures var disk := d.(renames := d.renames + [m.persisted[stream := requested]]);
            && DiskOk(disk) && MemoryOk(disk, Set(m, p, Syncing(stream, requested)))
            && Durable(disk) == Durable(d) && Relied(disk) == Relied(d)
  {
    hide TasksOk, GatesOk, Blank, ValidateEpoch, ValidRoutes, Raises;
    var after := Set(m, p, Syncing(stream, requested));
    OneTask(m, p);
    assert |d.renames| == d.relied;
    assert ValidRoutes(After(d, d.relied));
    HeldRoute(m, stream, requested);
    RaisedRoute(m.persisted, stream, requested);
    RenameGrows(d, m.persisted[stream := requested]);
    GatesAlike(m, after);
    TasksKept(m, after, p);
    assert after.tasks[p].Syncing?;
  }

  lemma HeldRoute(m: Memory, stream: string, requested: PlacementEpoch)
    requires GatesOk(m) && stream in m.gates && m.gates[stream].placement.epoch < requested.epoch
    ensures At(m.persisted, stream).epoch < requested.epoch
  {
  }

  lemma SettledOk(routes: Routes)
    requires ValidRoutes(routes)
    ensures DiskOk(Disk(Some(routes), [], 0))
  {
  }

  /** A fence that becomes durable raises its gate once no lease is left on it. */
  lemma PublishKeeps(d: Disk, m: Memory, p: nat, stream: string, requested: PlacementEpoch)
    requires DiskOk(d) && MemoryOk(d, m) && p in m.tasks && m.tasks[p] == Syncing(stream, requested)
    requires stream in m.gates
    ensures var disk := Disk(Some(m.persisted[stream := requested]), [], 0);
            && DiskOk(disk) && MemoryOk(disk, Publish(m, p, stream, requested))
            && Raises(Durable(d), Durable(disk)) && Raises(Relied(d), Relied(disk))
  {
    hide TasksOk, GatesOk, Blank, ValidateEpoch, ValidRoutes, Raises;
    var after := Publish(m, p, stream, requested);
    OneTask(m, p);
    var next := m.persisted[stream := requested];
    assert After(d, |d.renames|) == next && ValidRoutes(After(d, |d.renames|));
    RenamesRaise(d, 0, |d.renames|);
    RenamesRaise(d, d.relied, |d.renames|);
    SettledOk(next);
    NoLeases(m, stream);
    RaisedGates(m, after, stream, requested);
    TasksKept(m, after, p);
  }

  lemma RaisedGates(m: Memory, after: Memory, stream: string, requested: PlacementEpoch)
    requires GatesOk(m) && stream in m.gates && forall p :: p in m.leases ==> m.leases[p].stream != stream
    requires after.gates == m.gates[stream := m.gates[stream].(placement := requested, transitioning := false)]
    requires after.leases == m.leases && after.persisted == m.persisted[stream := requested]
    ensures GatesOk(after)
  {
    hide LeasesOn;
  }

  // ------------------------------------------------------------------- every run

  lemma OpenedOk(d: Disk)
    requires d.relied == |d.renames|
    ensures MemoryOk(d, FromPersisted(Relied(d)))
  {
  }

  lemma GateMatches(d: Disk, m: Memory, stream: string)
    requires MemoryOk(d, m) && stream in m.gates
    ensures m.gates[stream].placement == At(Relied(d), stream)
  {
  }

  /** What a power loss leaves lies between what is durable and the newest rename. */
  lemma LossKeeps(d: Disk, kept: nat)
    requires DiskOk(d)
    ensures var after := Disk(Surviving(d, kept), [], 0);
            && DiskOk(after) && Raises(Durable(d), Durable(after))
            && Relied(after) == Durable(after) == After(d, Min(kept, |d.renames|))
            && (d.relied <= kept ==> Raises(Relied(d), Relied(after)))
  {
    hide Raises, ValidRoutes;
    var n := Min(kept, |d.renames|);
    assert RoutesOf(Surviving(d, kept)) == After(d, n) && ValidRoutes(After(d, n));
    RenamesRaise(d, 0, n);
    if d.relied <= kept {
      RenamesRaise(d, d.relied, n);
    }
  }

  /** What a step does to the disk and the journals, besides keeping the invariant. */
  ghost predicate Onward(s: System, a: Action, t: System) {
    && Inv(t)
    && Raises(Durable(s.disk), Durable(t.disk))
    && (!Drops(s.disk, a) ==> Raises(Relied(s.disk), Relied(t.disk)))
    && (!Drops(s.disk, a) && Journaled(s) ==> Journaled(t))
  }

  /** A step that leaves the journals alone is onward once its routes are. */
  lemma OnwardRoutes(s: System, a: Action, t: System)
    requires Inv(t) && Raises(Durable(s.disk), Durable(t.disk))
    requires !Drops(s.disk, a) ==> Raises(Relied(s.disk), Relied(t.disk))
    requires t.admissions == s.admissions && t.fences == s.fences
    ensures Onward(s, a, t)
  {
    hide Inv, Raises, Bounded, Ascends;
    if !Drops(s.disk, a) && Journaled(s) {
      RaisesKeepsBound(s.admissions, Relied(s.disk), Relied(t.disk));
      RaisesKeepsBound(s.fences, Relied(s.disk), Relied(t.disk));
    }
  }

  lemma OnwardSame(s: System, a: Action, t: System)
    requires Inv(t) && Durable(t.disk) == Durable(s.disk) && Relied(t.disk) == Relied(s.disk)
    requires t.admissions == s.admissions && t.fences == s.fences
    ensures Onward(s, a, t)
  {
    hide Inv, Raises, Bounded, Ascends;
    RaisesSelf(Durable(s.disk));
    RaisesSelf(Relied(s.disk));
    OnwardRoutes(s, a, t);
  }

  lemma AdmitKeeps(s: System, p: nat)
    requires Inv(s) && Runs(s, p) && s.memory.value.tasks[p].Admitting?
    ensures Onward(s, AdmitEnd(p), StepAdmit(s, p))
  {
    hide MemoryOk, DiskOk, Bounded, Ascends, Locked, Enter, Raises;
    var m := s.memory.value;
    var t := m.tasks[p];
    EnterKeeps(s.disk, m, p, t.stream, t.placement);
    GateMatches(s.disk, m, t.stream);
    RaisesSelf(Durable(s.disk));
    RaisesSelf(Relied(s.disk));
    if Journaled(s) && t.placement == At(Relied(s.disk), t.stream) {
      JournalGrows(s.admissions, Lease(t.stream, t.placement), Relied(s.disk));
    }
    assert s.admissions + [] == s.admissions;
  }

  lemma FenceEnterKeeps(s: System, p: nat, woken: bool)
    requires Inv(s) && Runs(s, p) && s.memory.value.tasks[p].Fencing?
    ensures Onward(s, FenceEnter(p, woken), StepFenceEnter(s, p, woken))
  {
    hide MemoryOk, DiskOk, Bounded, Ascends, Locked, Claim, Raises;
    var m := s.memory.value;
    var t := m.tasks[p];
    SetKeeps(s.disk, m, p, Rejected(Storage));
    RaisesSelf(Durable(s.disk));
    RaisesSelf(Relied(s.disk));
    if !m.gates[t.stream].transitioning {
      ClaimKeeps(s.disk, m, p, t.stream, t.requested);
      GateMatches(s.disk, m, t.stream);
      if Journaled(s) && t.requested == At(Relied(s.disk), t.stream) {
        JournalGrows(s.fences, Lease(t.stream, t.requested), Relied(s.disk));
      }
      assert s.fences + [] == s.fences;
    }
  }

  lemma FenceSyncKeeps(s: System, p: nat)
    requires Inv(s) && Runs(s, p) && s.memory.value.tasks[p].Syncing?
    ensures Onward(s, FenceSync(p, true), StepFence(s, FenceSync(p, true)))
  {
    hide MemoryOk, DiskOk, Bounded, Ascends, SerialFree, Raises;
    var m := s.memory.value;
    var t := m.tasks[p];
    PublishKeeps(s.disk, m, p, t.stream, t.requested);
    var routes := m.persisted[t.stream := t.requested];
    if Journaled(s) {
      RaisesKeepsBound(s.admissions, Relied(s.disk), routes);
      RaisesKeepsBound(s.fences, Relied(s.disk), routes);
      JournalGrows(s.fences, Lease(t.stream, t.requested), routes);
    }
  }

  lemma FenceKeeps(s: System, a: Action)
    requires a.FenceWrite? || a.FenceAbort? || a.FenceRename? || a.FenceSync?
    requires Inv(s) && Runs(s, a.p)
    ensures Onward(s, a, StepFence(s, a))
  {
    hide MemoryOk, DiskOk, SerialFree, Raises, Journaled, Onward, Relied, Durable;
    var m := s.memory.value;
    var t := m.tasks[a.p];
    if a.FenceSync? && a.ok && t.Syncing? {
      FenceSyncKeeps(s, a.p);
      return;
    }
    match a {
      case FenceWrite(p) =>
        if t.Draining? && m.gates[t.stream].admitted == 0 && SerialFree(m) {
          WriteKeeps(s.disk, m, p, t.stream, t.requested);
        }
      case FenceAbort(p) =>
        if t.Writing? {
          GiveUpKeeps(s.disk, m, p, t.stream, true);
        }
      case FenceRename(p) =>
        if t.Writing? {
          RenameKeeps(s.disk, m, p, t.stream, t.requested);
        }
      case FenceSync(p, ok) =>
        if t.Syncing? {
          GiveUpKeeps(s.disk, m, p, t.stream, true);
        }
    }
    OnwardSame(s, a, StepFence(s, a));
  }

  lemma RaisesSelf(a: Routes)
    ensures Raises(a, a)
  {
  }

  /** Reading the file relies on all of it. */
  lemma OpenedOnward(s: System, a: Action, routes: Routes)
    requires Inv(s) && routes == After(s.disk, |s.disk.renames|) && !a.PowerLoss?
    ensures Onward(s, a, Opened(s, routes))
  {
    hide MemoryOk, Raises, ValidRoutes, Journaled;
    var t := Opened(s, routes);
    assert forall n :: 0 <= n <= |s.disk.renames| ==> After(t.disk, n) == After(s.disk, n);
    OpenedOk(t.disk);
    RenamesRaise(s.disk, s.disk.relied, |s.disk.renames|);
    RaisesSelf(Durable(s.disk));
    OnwardRoutes(s, a, t);
  }

  lemma BootstrapOnward(s: System, a: Action)
    requires Inv(s) && a.BootstrapLegacy? && ValidRoutes(a.routes) && s.memory.None? && File(s.disk).None?
    ensures Onward(s, a, StepOpen(s, a))
  {
    hide MemoryOk, Raises, ValidRoutes, Journaled;
    AnythingRaisesEmpty(a.routes);
    RaisesSelf(map[]);
    if a.rewrite.Synced? {
      SettledOk(a.routes);
      OpenedOk(Disk(Some(a.routes), [], 0));
    } else if a.rewrite.Uncertain? {
      RenameGrows(s.disk, a.routes);
    }
    OnwardRoutes(s, a, StepOpen(s, a));
  }

  lemma OpenKeeps(s: System, a: Action)
    requires Inv(s) && (a.Open? || a.OpenExisting? || a.BootstrapLegacy?)
    ensures Onward(s, a, StepOpen(s, a))
  {
    hide MemoryOk, DiskOk, Raises, ValidRoutes, Journaled, Onward, Opened, Relied, Durable;
    if s.memory.None? && a.BootstrapLegacy? && ValidRoutes(a.routes) && File(s.disk).None? {
      BootstrapOnward(s, a);
    } else {
      OnwardSame(s, a, s);
      OpenedOnward(s, a, After(s.disk, |s.disk.renames|));
      assert RoutesOf(File(s.disk)) == After(s.disk, |s.disk.renames|);
    }
  }

  lemma StepKeeps(s: System, a: Action)
    requires Inv(s)
    ensures Onward(s, a, Step(s, a))
  {
    hide MemoryOk, DiskOk, Raises, Journaled, Onward, Relied, Durable, Begin, Drop, StepAdmit, StepFenceEnter,
         StepFence, StepOpen, Surviving;
    match a {
      case AdmitBegin(p, stream, placement) =>
        if s.memory.Some? && p !in s.memory.value.tasks {
          BeginKeeps(s.disk, s.memory.value, p, stream, placement, Admitting(stream, placement));
        }
        OnwardSame(s, a, Step(s, a));
      case FenceBegin(p, stream, requested) =>
        if s.memory.Some? && p !in s.memory.value.tasks {
          BeginKeeps(s.disk, s.memory.value, p, stream, requested, Fencing(stream, requested));
        }
        OnwardSame(s, a, Step(s, a));
      case Release(p) =>
        if s.memory.Some? && p in s.memory.value.leases {
          DropKeeps(s.disk, s.memory.value, p);
        }
        OnwardSame(s, a, Step(s, a));
      case Exit => OnwardSame(s, a, Step(s, a));
      case PowerLoss(kept) =>
        LossKeeps(s.disk, kept);
        OnwardRoutes(s, a, Step(s, a));
      case Open => OpenKeeps(s, a);
      case OpenExisting => OpenKeeps(s, a);
      case BootstrapLegacy(_, _) => OpenKeeps(s, a);
      case AdmitEnd(p) =>
        OnwardSame(s, a, s);
        if Runs(s, p) && s.memory.value.tasks[p].Admitting? {
          AdmitKeeps(s, p);
        }
      case FenceEnter(p, woken) =>
        OnwardSame(s, a, s);
        if Runs(s, p) && s.memory.value.tasks[p].Fencing? {
          FenceEnterKeeps(s, p, woken);
        }
      case _ =>
        OnwardSame(s, a, s);
        if Runs(s, a.p) {
          FenceKeeps(s, a);
        }
    }
  }

  /** No power loss of the run takes back a rename a process has opened over. */
  predicate NoDrops(s: System, actions: seq<Action>) {
    forall i :: 0 <= i < |actions| ==> !Drops(Exec(s, actions[..i]).disk, actions[i])
  }

  lemma {:induction false} ExecKeeps(s: System, actions: seq<Action>)
    requires Inv(s)
    ensures Inv(Exec(s, actions)) && Raises(Durable(s.disk), Durable(Exec(s, actions).disk))
    ensures NoDrops(s, actions) ==> Raises(Relied(s.disk), Relied(Exec(s, actions).disk))
    ensures NoDrops(s, actions) && Journaled(s) ==> Journaled(Exec(s, actions))
  {
    hide Inv, Raises, Step, Journaled, Relied, Durable, Drops;
    RaisesSelf(Durable(s.disk));
    RaisesSelf(Relied(s.disk));
    if actions != [] {
      var n := |actions| - 1;
      var before := Exec(s, actions[..n]);
      ExecKeeps(s, actions[..n]);
      StepKeeps(before, actions[n]);
      RaisesChain(Durable(s.disk), Durable(before.disk), Durable(Exec(s, actions).disk));
      if NoDrops(s, actions) {
        assert forall i :: 0 <= i < n ==> actions[..n][..i] == actions[..i];
        RaisesChain(Relied(s.disk), Relied(before.disk), Relied(Exec(s, actions).disk));
      }
    }
  }

  lemma RaisesChain(a: Routes, b: Routes, c: Routes)
    requires Raises(a, b) && Raises(b, c)
    ensures Raises(a, c)
  {
    forall s
      ensures NotAbove(At(a, s), At(c, s))
    {
      assert NotAbove(At(a, s), At(b, s)) && NotAbove(At(b, s), At(c, s));
    }
  }

  lemma InitialOk()
    ensures Inv(Initial()) && Journaled(Initial())
  {
  }
}
