/** Stream-local admission leases, draining fences and the durable sidecar behind them. */
module Placement {
  import opened Base

  datatype PlacementEpoch = PlacementEpoch(epoch: u64, routeDigest: string)

  /** The route used before a stream has had a handoff. */
  const BOOTSTRAP := PlacementEpoch(0, "")

  type Routes = map<string, PlacementEpoch>

  datatype PlacementError =
    | InvalidStream
    | InvalidEpoch
    | Storage
    | Transitioning
    | Stale(current: PlacementEpoch, received: PlacementEpoch)
    | Future(current: PlacementEpoch, received: PlacementEpoch)
    | Conflict(current: PlacementEpoch, received: PlacementEpoch)
    | Decreasing(current: PlacementEpoch, requested: PlacementEpoch)
    | FenceConflict(current: PlacementEpoch, requested: PlacementEpoch)

  datatype Gate = Gate(placement: PlacementEpoch, admitted: nat, transitioning: bool)

  datatype Lease = Lease(stream: string, placement: PlacementEpoch)

  /** A call between two of its critical sections. */
  datatype Task =
    | Admitting(stream: string, placement: PlacementEpoch)
    | Fencing(stream: string, requested: PlacementEpoch)
    | Draining(stream: string, requested: PlacementEpoch)
    | Writing(stream: string, requested: PlacementEpoch)
    | Syncing(stream: string, requested: PlacementEpoch)
    | Admitted
    | Installed
    | Rejected(error: PlacementError)
  {
    /** The fence that owns its stream's transition. */
    predicate Owns() {
      Draining? || Writing? || Syncing?
    }

    /** The fence that holds the gate and the sidecar locks. */
    predicate Holds() {
      Writing? || Syncing?
    }
  }

  /** One process's memory. */
  datatype Memory = Memory(
    gates: map<string, Gate>, persisted: Routes, failedClosed: bool, tasks: map<nat, Task>,
    leases: map<nat, Lease>)

  /** The sidecar file: what is durable, the renames over it that no directory sync has settled yet,
      oldest first, and how many of those a process has since opened over. */
  datatype Disk = Disk(settled: Option<Routes>, renames: seq<Routes>, relied: nat)

  /** The whole system, with a journal of everything ever admitted and fenced. */
  datatype System = System(
    disk: Disk, memory: Option<Memory>, admissions: seq<Lease>, fences: seq<Lease>)

  datatype Rewrite = Synced | NotWritten | Uncertain

  datatype Action =
    | AdmitBegin(p: nat, stream: string, placement: PlacementEpoch)
    | AdmitEnd(p: nat)
    | Release(p: nat)
    | FenceBegin(p: nat, stream: string, requested: PlacementEpoch)
    | FenceEnter(p: nat, woken: bool)
    | FenceWrite(p: nat)
    | FenceAbort(p: nat)
    | FenceRename(p: nat)
    | FenceSync(p: nat, ok: bool)
    | Exit
    | PowerLoss(kept: nat)
    | Open
    | OpenExisting
    | BootstrapLegacy(routes: Routes, rewrite: Rewrite)

  // -------------------------------------------------------------- decisions

  function At(routes: Routes, stream: string): PlacementEpoch {
    if stream in routes then routes[stream] else BOOTSTRAP
  }

  function ValidateEpoch(p: PlacementEpoch): Option<PlacementError> {
    if (p.epoch == 0 && p.routeDigest != "") || (0 < p.epoch && Blank(p.routeDigest)) then Some(InvalidEpoch)
    else None
  }

  function CompareAdmission(current: PlacementEpoch, received: PlacementEpoch): Option<PlacementError> {
    if received.epoch < current.epoch then Some(Stale(current, received))
    else if current.epoch < received.epoch then Some(Future(current, received))
    else if received.routeDigest == current.routeDigest then None
    else Some(Conflict(current, received))
  }

  /** What a sidecar document, or a legacy route map, must satisfy. */
  predicate ValidRoutes(routes: Routes) {
    forall s :: s in routes ==> !Blank(s) && ValidateEpoch(routes[s]) == None
  }

  // ---------------------------------------------------------------- memory

  function FromPersisted(routes: Routes): Memory {
    Memory(map[], routes, false, map[], map[])
  }

  /** `gate`: find the stream's gate or create it from the persisted value. */
  function WithGate(m: Memory, stream: string): Memory {
    if stream in m.gates then m
    else m.(gates := m.gates[stream := Gate(At(m.persisted, stream), 0, false)])
  }

  function Set(m: Memory, p: nat, task: Task): Memory {
    m.(tasks := m.tasks[p := task])
  }

  /** The start of `admit` and of `install_fence`: health, then the arguments, then the gate. */
  function Begin(m: Memory, p: nat, stream: string, placement: PlacementEpoch, task: Task): Memory {
    if m.failedClosed then Set(m, p, Rejected(Storage))
    else if ValidateEpoch(placement).Some? then Set(m, p, Rejected(InvalidEpoch))
    else if Blank(stream) then Set(m, p, Rejected(InvalidStream))
    else Set(WithGate(m, stream), p, task)
  }

  /** Some fence holds this stream's gate lock. */
  predicate Locked(m: Memory, stream: string) {
    exists p :: p in m.tasks && m.tasks[p].Holds() && m.tasks[p].stream == stream
  }

  predicate SerialFree(m: Memory) {
    forall p :: p in m.tasks ==> !m.tasks[p].Holds()
  }

  function SetGate(m: Memory, stream: string, g: Gate): Memory {
    m.(gates := m.gates[stream := g])
  }

  /** A fence that gives up: the transition ends and the placement stays. */
  function GiveUp(m: Memory, p: nat, stream: string, closed: bool): Memory
    requires stream in m.gates
  {
    Set(SetGate(m, stream, m.gates[stream].(transitioning := false)), p, Rejected(Storage))
    .(failedClosed := m.failedClosed || closed)
  }

  /** The gate section of `admit`. */
  function Enter(m: Memory, p: nat, stream: string, placement: PlacementEpoch): Memory
    requires stream in m.gates
  {
    var g := m.gates[stream];
    if g.transitioning then Set(m, p, Rejected(Transitioning))
    else
      match CompareAdmission(g.placement, placement)
      case Some(error) => Set(m, p, Rejected(error))
      case None =>
        Set(SetGate(m, stream, g.(admitted := g.admitted + 1)), p, Admitted)
        .(leases := m.leases[p := Lease(stream, placement)])
  }

  /** The first gate section of `install_fence`, once no other fence owns the stream. */
  function Claim(m: Memory, p: nat, stream: string, requested: PlacementEpoch): Memory
    requires stream in m.gates
  {
    var g := m.gates[stream];
    if requested.epoch < g.placement.epoch then Set(m, p, Rejected(Decreasing(g.placement, requested)))
    else if requested == g.placement then Set(m, p, Installed)
    else if requested.epoch == g.placement.epoch then Set(m, p, Rejected(FenceConflict(g.placement, requested)))
    else Set(SetGate(m, stream, g.(transitioning := true)), p, Draining(stream, requested))
  }

  /** The section that starts publishing a drained fence. */
  function StartWriting(m: Memory, p: nat, stream: string, requested: PlacementEpoch): Memory
    requires stream in m.gates
  {
    if m.failedClosed then GiveUp(m, p, stream, false)
    else if stream in m.persisted && m.persisted[stream] != m.gates[stream].placement then GiveUp(m, p, stream, true)
    else Set(m, p, Writing(stream, requested))
  }

  /** The section that ends a publication the directory sync made durable. */
  function Publish(m: Memory, p: nat, stream: string, requested: PlacementEpoch): Memory
    requires stream in m.gates
  {
    Set(SetGate(m, stream, m.gates[stream].(placement := requested, transitioning := false)), p, Installed)
    .(persisted := m.persisted[stream := requested])
  }

  // ------------------------------------------------------------------ steps

  /** The task of `p`, if it is running in a live process and its gate exists. */
  predicate Runs(s: System, p: nat) {
    && s.memory.Some? && p in s.memory.value.tasks
    && var t := s.memory.value.tasks[p];
    && (t.Admitting? || t.Fencing? || t.Owns())
    && t.stream in s.memory.value.gates
  }

  function StepAdmit(s: System, p: nat): System
    requires Runs(s, p) && s.memory.value.tasks[p].Admitting?
  {
    var m := s.memory.value;
    var t := m.tasks[p];
    if Locked(m, t.stream) then s
    else
      var after := Enter(m, p, t.stream, t.placement);
      s.(memory := Some(after),
         admissions := s.admissions
                       + if after.tasks[p].Admitted? then [Lease(t.stream, t.placement)] else [])
  }

  function StepFenceEnter(s: System, p: nat, woken: bool): System
    requires Runs(s, p) && s.memory.value.tasks[p].Fencing?
  {
    var m := s.memory.value;
    var t := m.tasks[p];
    if Locked(m, t.stream) then s
    else if woken && m.failedClosed then s.(memory := Some(Set(m, p, Rejected(Storage))))
    else if m.gates[t.stream].transitioning then s
    else
      var after := Claim(m, p, t.stream, t.requested);
      s.(memory := Some(after),
         fences := s.fences + if after.tasks[p].Installed? then [Lease(t.stream, t.requested)] else [])
  }

  function StepFence(s: System, a: Action): System
    requires a.FenceWrite? || a.FenceAbort? || a.FenceRename? || a.FenceSync?
    requires Runs(s, a.p)
  {
    var m := s.memory.value;
    var t := m.tasks[a.p];
    match a
    case FenceWrite(p) =>
      if !t.Draining? || m.gates[t.stream].admitted != 0 || !SerialFree(m) then s
      else s.(memory := Some(StartWriting(m, p, t.stream, t.requested)))
    case FenceAbort(p) =>
      if !t.Writing? then s else s.(memory := Some(GiveUp(m, p, t.stream, true)))
    case FenceRename(p) =>
      if !t.Writing? then s
      else s.(memory := Some(Set(m, p, Syncing(t.stream, t.requested))),
              disk := s.disk.(renames := s.disk.renames + [m.persisted[t.stream := t.requested]]))
    case FenceSync(p, ok) =>
      if !t.Syncing? then s
      else if !ok then s.(memory := Some(GiveUp(m, p, t.stream, true)))
      else s.(memory := Some(Publish(m, p, t.stream, t.requested)),
              disk := Disk(Some(m.persisted[t.stream := t.requested]), [], 0),
              fences := s.fences + [Lease(t.stream, t.requested)])
  }

  /** What the sidecar file reads as, renames included; `None` is no file. */
  function File(d: Disk): Option<Routes> {
    if d.renames == [] then d.settled else Some(d.renames[|d.renames| - 1])
  }

  /** What a power loss leaves of the file: the durable one under the renames that made it. */
  function Surviving(d: Disk, kept: nat): Option<Routes> {
    if kept == 0 || d.renames == [] then d.settled else Some(d.renames[Min(kept, |d.renames|) - 1])
  }

  /** A process that reads the file relies on every rename behind it; opening syncs nothing. */
  function Opened(s: System, routes: Routes): System {
    s.(memory := Some(FromPersisted(routes)), disk := s.disk.(relied := |s.disk.renames|))
  }

  function StepOpen(s: System, a: Action): System
    requires a.Open? || a.OpenExisting? || a.BootstrapLegacy?
  {
    if s.memory.Some? then s
    else
      match a
      case Open =>
        (match File(s.disk)
         case None => Opened(s, map[])
         case Some(routes) => if ValidRoutes(routes) then Opened(s, routes) else s)
      case OpenExisting =>
        (match File(s.disk)
         case None => s
         case Some(routes) => if ValidRoutes(routes) then Opened(s, routes) else s)
      case BootstrapLegacy(legacy, rewrite) =>
        if !ValidRoutes(legacy) then s
        else if File(s.disk).Some? then if File(s.disk).value == legacy then Opened(s, legacy) else s
        else
          match rewrite
          case Synced => s.(memory := Some(FromPersisted(legacy)), disk := Disk(Some(legacy), [], 0))
          case NotWritten => s
          case Uncertain => s.(disk := s.disk.(renames := s.disk.renames + [legacy]))
  }

  /** One step; an action that cannot be taken changes nothing. */
  function Step(s: System, a: Action): System {
    match a
    case AdmitBegin(p, stream, placement) =>
      if s.memory.None? || p in s.memory.value.tasks || p in s.memory.value.leases then s
      else s.(memory := Some(Begin(s.memory.value, p, stream, placement, Admitting(stream, placement))))
    case FenceBegin(p, stream, requested) =>
      if s.memory.None? || p in s.memory.value.tasks || p in s.memory.value.leases then s
      else s.(memory := Some(Begin(s.memory.value, p, stream, requested, Fencing(stream, requested))))
    case AdmitEnd(p) =>
      if Runs(s, p) && s.memory.value.tasks[p].Admitting? then StepAdmit(s, p) else s
    case FenceEnter(p, woken) =>
      if Runs(s, p) && s.memory.value.tasks[p].Fencing? then StepFenceEnter(s, p, woken) else s
    case Release(p) =>
      if s.memory.None? || p !in s.memory.value.leases then s
      else s.(memory := Some(Drop(s.memory.value, p)))
    case FenceWrite(p) => if Runs(s, p) then StepFence(s, a) else s
    case FenceAbort(p) => if Runs(s, p) then StepFence(s, a) else s
    case FenceRename(p) => if Runs(s, p) then StepFence(s, a) else s
    case FenceSync(p, _) => if Runs(s, p) then StepFence(s, a) else s
    case Exit => s.(memory := None)
    case PowerLoss(kept) => s.(memory := None, disk := Disk(Surviving(s.disk, kept), [], 0))
    case Open => StepOpen(s, a)
    case OpenExisting => StepOpen(s, a)
    case BootstrapLegacy(_, _) => StepOpen(s, a)
  }

  /** Dropping a lease. */
  function Drop(m: Memory, p: nat): Memory
    requires p in m.leases
  {
    var stream := m.leases[p].stream;
    var rest := m.(leases := m.leases - {p});
    if stream !in m.gates then rest
    else
      var g := m.gates[stream];
      SetGate(rest, stream, g.(admitted := if g.admitted == 0 then 0 else g.admitted - 1))
  }

  function Exec(s: System, actions: seq<Action>): System {
    if actions == [] then s else Step(Exec(s, actions[..|actions| - 1]), actions[|actions| - 1])
  }

  /** A volume that has never held a sidecar, and no process. */
  function Initial(): System {
    System(Disk(None, [], 0), None, [], [])
  }
}
