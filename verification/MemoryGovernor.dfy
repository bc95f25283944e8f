/** One memory budget shared by queries, leases and the cache. */
module MemoryGovernor {
  import opened Base

  const QUANTUM_BYTES := 8 * 1024 * 1024
  const MAX_FLOOR_BYTES := 64 * 1024 * 1024

  /** The budget, the cache's ceiling, and the working floor the cache keeps against leases. */
  datatype Limits = Limits(memoryBytes: nat, ceiling: nat, floor: nat)

  /** `QueryResources::new`, as far as memory goes: `None` is a refused configuration. */
  function NewLimits(memoryBytes: nat, cacheCapacity: nat): Option<Limits> {
    if memoryBytes == 0 || memoryBytes < cacheCapacity then None
    else Some(Limits(memoryBytes, cacheCapacity, Min(Min(cacheCapacity / 16, MAX_FLOOR_BYTES), memoryBytes / 4)))
  }

  predicate ValidLimits(l: Limits) {
    NewLimits(l.memoryBytes, l.ceiling) == Some(l)
  }

  /** Cache capacity, the leased counter, what queries hold, and the leases by how far they have got:
      past the admission check, counted, refused after being counted, granted, and out of the counter
      but not yet out of the pool. */
  datatype State = State(
    capacity: nat, leased: nat, queries: nat,
    checked: seq<nat>, counted: seq<nat>, refused: seq<nat>, live: seq<nat>, dropping: seq<nat>)

  function Sum(s: seq<nat>): nat {
    if s == [] then 0 else s[0] + Sum(s[1..])
  }

  /** `pool.reserved()`. */
  function Reserved(s: State): nat {
    s.queries + Sum(s.live) + Sum(s.dropping)
  }

  function SatMinus(a: nat, b: nat): nat {
    if b <= a then a - b else 0
  }

  function Available(l: Limits, s: State): nat {
    SatMinus(l.memoryBytes, Reserved(s))
  }

  function Leasable(l: Limits): nat {
    SatMinus(l.memoryBytes, l.floor)
  }

  function Quantum(l: Limits): (q: nat)
    ensures 0 < q
  {
    Max(Min(QUANTUM_BYTES, l.ceiling), 1)
  }

  /** Down to a whole number of quanta. */
  function RoundDown(n: nat, quantum: nat): (r: nat)
    requires 0 < quantum
    ensures r <= n < r + quantum
  {
    n / quantum * quantum
  }

  /** How the backend behaves while memory is made available: whether it trims, whether values the
      readers still hold exceed what is available, whether it then evicts everything, and whether
      they exceed it even so. */
  datatype Backend = Backend(trims: bool, retained: bool, evicts: bool, stuck: bool)

  function Resize(l: Limits, capacity: nat, target: nat, resizes: bool): nat {
    if resizes then Min(target, l.ceiling) else capacity
  }

  /** `make_memory_available`: the capacity it leaves, and whether it succeeded. */
  function MakeAvailable(l: Limits, capacity: nat, available: nat, b: Backend): (nat, bool) {
    var target := Min(available, l.ceiling);
    if target < capacity && !b.trims then (capacity, false)
    else
      var trimmed :=
        if target < capacity then Resize(l, capacity, RoundDown(target, Quantum(l)), b.trims) else capacity;
      if !b.retained then (trimmed, true)
      else if !b.evicts && trimmed != 0 then (trimmed, false)
      else (0, !b.stuck)
  }

  /** `return_memory`. */
  function ReturnMemory(l: Limits, s: State, resizes: bool): State {
    if s.leased < Reserved(s) then s
    else
      var spare := Min(SatMinus(l.memoryBytes, s.leased), l.ceiling);
      var target := Max(RoundDown(spare, Quantum(l)), Min(l.floor, l.ceiling));
      s.(capacity := Resize(l, s.capacity, target, resizes))
  }

  function Without(s: seq<nat>, i: nat): seq<nat>
    requires i < |s|
  {
    s[..i] + s[i + 1..]
  }

  /** What queries do, and the steps of taking and dropping a lease, each of which other callers may
      come between: the admission check, the count, the growth of the pool, taking the count back
      after a refusal; then leaving the counter and leaving the pool. */
  datatype Op =
    | Grow(bytes: nat, backend: Backend)
    | TryGrow(bytes: nat, granted: bool, backend: Backend)
    | Shrink(bytes: nat, resizes: bool)
    | CheckLease(bytes: nat)
    | CountLease(i: nat)
    | GrowLease(i: nat, granted: bool, backend: Backend)
    | UncountLease(i: nat)
    | DropCounter(i: nat)
    | DropReservation(i: nat, resizes: bool)

  /** `try_grow`: the state after, given the state with and without the memory taken. */
  function TryTake(l: Limits, without: State, taken: State, granted: bool, b: Backend): (State, bool) {
    if !granted then (without, false)
    else
      var (capacity, ok) := MakeAvailable(l, taken.capacity, Available(l, taken), b);
      ((if ok then taken else without).(capacity := capacity), ok)
  }

  function Step(l: Limits, s: State, op: Op): State {
    match op
    case Grow(bytes, b) =>
      var charged := s.(queries := s.queries + bytes);
      charged.(capacity := MakeAvailable(l, s.capacity, Available(l, charged), b).0)
    case TryGrow(bytes, granted, b) => TryTake(l, s, s.(queries := s.queries + bytes), granted, b).0
    case Shrink(bytes, resizes) =>
      if s.queries < bytes then s else ReturnMemory(l, s.(queries := s.queries - bytes), resizes)
    case CheckLease(bytes) =>
      if Leasable(l) < s.leased + bytes then s else s.(checked := s.checked + [bytes])
    case CountLease(i) =>
      if |s.checked| <= i then s
      else s.(leased := s.leased + s.checked[i], checked := Without(s.checked, i), counted := s.counted + [s.checked[i]])
    case GrowLease(i, granted, b) =>
      if |s.counted| <= i then s
      else
        var rest := s.(counted := Without(s.counted, i));
        TryTake(l, rest.(refused := rest.refused + [s.counted[i]]), rest.(live := rest.live + [s.counted[i]]), granted, b).0
    case UncountLease(i) =>
      if |s.refused| <= i then s
      else s.(leased := SatMinus(s.leased, s.refused[i]), refused := Without(s.refused, i))
    case DropCounter(i) =>
      if |s.live| <= i then s
      else s.(leased := SatMinus(s.leased, s.live[i]), live := Without(s.live, i), dropping := s.dropping + [s.live[i]])
    case DropReservation(i, resizes) =>
      if |s.dropping| <= i then s else ReturnMemory(l, s.(dropping := Without(s.dropping, i)), resizes)
  }

  function Exec(l: Limits, s: State, ops: seq<Op>): State {
    if ops == [] then s else Step(l, Exec(l, s, ops[..|ops| - 1]), ops[|ops| - 1])
  }

  function Start(l: Limits): State {
    State(l.ceiling, 0, 0, [], [], [], [], [])
  }

  // ------------------------------------------------------------------- invariant

  /** The cache has at most what the budget leaves it. */
  predicate WithinBudget(l: Limits, s: State) {
    s.capacity <= Available(l, s)
  }

  /** The counter is exactly the leases counted and not yet uncounted. */
  predicate Inv(l: Limits, s: State) {
    && s.capacity <= l.ceiling
    && s.leased == Sum(s.counted) + Sum(s.refused) + Sum(s.live)
  }

  lemma {:induction false} SumAppend(s: seq<nat>, x: nat)
    ensures Sum(s + [x]) == Sum(s) + x
  {
    if s == [] {
      assert [x][1..] == [];
    } else {
      assert (s + [x])[1..] == s[1..] + [x];
      SumAppend(s[1..], x);
    }
  }

  lemma {:induction false} SumWithout(s: seq<nat>, i: nat)
    requires i < |s|
    ensures Sum(Without(s, i)) + s[i] == Sum(s)
    decreases |s|
  {
    if i == 0 {
      assert Without(s, 0) == s[1..];
    } else {
      assert Without(s, i)[1..] == Without(s[1..], i - 1);
      SumWithout(s[1..], i - 1);
    }
  }

  lemma WithoutLast(s: seq<nat>, x: nat)
    ensures Without(s + [x], |s|) == s
  {
  }

  /** Trimming leaves at most what is available, unless the backend refuses a resize it needed. */
  lemma TrimFits(l: Limits, capacity: nat, available: nat, b: Backend)
    ensures var (after, ok) := MakeAvailable(l, capacity, available, b);
            && after <= capacity
            && (ok ==> after <= available)
            && (capacity <= l.ceiling ==> (after <= available <==> b.trims || capacity <= available))
  {
  }

  /** What trimming the cache leaves it: all of it where it fits, or else the most whole quanta that
      are available and under the ceiling. */
  predicate Trimmed(l: Limits, capacity: nat, available: nat, kept: nat) {
    if capacity <= available && capacity <= l.ceiling then kept == capacity
    else kept % Quantum(l) == 0 && kept <= Min(available, l.ceiling) < kept + Quantum(l)
  }

  /** Making memory available fails and changes nothing when a needed trim is refused; otherwise the
      cache is trimmed, and emptied only where the readers still hold too much: then it fails with
      the trimmed cache when it cannot evict, and with an empty one when that was not enough. */
  lemma TrimOutcome(l: Limits, capacity: nat, available: nat, b: Backend, kept: nat)
    requires Trimmed(l, capacity, available, kept)
    ensures !b.trims && kept != capacity ==> MakeAvailable(l, capacity, available, b) == (capacity, false)
    ensures (b.trims || kept == capacity <= Min(available, l.ceiling)) && !b.retained ==>
              MakeAvailable(l, capacity, available, b) == (kept, true)
    ensures (b.trims || kept == capacity <= Min(available, l.ceiling)) && b.retained ==>
              MakeAvailable(l, capacity, available, b)
              == if b.evicts || kept == 0 then (0, !b.stuck) else (kept, false)
  {
    if !(capacity <= available && capacity <= l.ceiling) {
      MultiplesMeet(Min(available, l.ceiling), Quantum(l), kept);
    }
  }

  /** Only one multiple of `quantum` is the greatest that is at most `n`. */
  lemma MultiplesMeet(n: nat, quantum: nat, kept: nat)
    requires 0 < quantum && kept % quantum == 0 && kept <= n < kept + quantum
    ensures RoundDown(n, quantum) == kept
  {
    QuantaApart(n / quantum, kept / quantum, quantum);
    QuantaApart(kept / quantum, n / quantum, quantum);
  }

  lemma {:induction false} QuantaApart(a: nat, b: nat, quantum: nat)
    ensures a < b ==> a * quantum + quantum <= b * quantum
  {
    if a < b - 1 {
      QuantaApart(a, b - 1, quantum);
    }
  }

  /** A grow leaves the cache within the budget exactly when the backend trims or had no need to. */
  lemma GrowNeedsResize(l: Limits, s: State, bytes: nat, b: Backend)
    requires s.capacity <= l.ceiling
    ensures var after := Step(l, s, Grow(bytes, b));
            WithinBudget(l, after) <==>
            b.trims || s.capacity <= SatMinus(l.memoryBytes, Reserved(s) + bytes)
  {
    hide MakeAvailable;
    TrimFits(l, s.capacity, Available(l, s.(queries := s.queries + bytes)), b);
  }

  /** When memory is returned, the cache stays within the budget exactly when its working floor does. */
  lemma ReturnFitsIff(l: Limits, s: State, resizes: bool)
    requires ValidLimits(l) && Reserved(s) <= s.leased && resizes
    ensures WithinBudget(l, ReturnMemory(l, s, resizes)) <==> l.floor <= Available(l, s)
  {
    hide RoundDown, Quantum, Sum;
  }

  /** Memory is given back to the cache although its working floor no longer fits. */
  predicate OvershootingReturn(l: Limits, s: State, resizes: bool) {
    resizes && Reserved(s) <= s.leased && Available(l, s) < l.floor
  }

  lemma ReturnIff(l: Limits, s: State, resizes: bool)
    requires ValidLimits(l)
    ensures WithinBudget(l, s) ==>
              (WithinBudget(l, ReturnMemory(l, s, resizes)) <==> !OvershootingReturn(l, s, resizes))
    ensures s.capacity <= l.ceiling ==> ReturnMemory(l, s, resizes).capacity <= l.ceiling
  {
    hide RoundDown, Quantum, Sum;
    if resizes && Reserved(s) <= s.leased {
      ReturnFitsIff(l, s, resizes);
    }
  }

  /** The two operations that can take the cache over the budget: an infallible grow whose trim the
      backend refuses, and a return of memory while the working floor does not fit. */
  predicate Overshoots(l: Limits, s: State, op: Op) {
    match op
    case Grow(bytes, b) => !b.trims && SatMinus(l.memoryBytes, Reserved(s) + bytes) < s.capacity
    case Shrink(bytes, resizes) =>
      bytes <= s.queries && OvershootingReturn(l, s.(queries := s.queries - bytes), resizes)
    case DropReservation(i, resizes) =>
      i < |s.dropping| && OvershootingReturn(l, s.(dropping := Without(s.dropping, i)), resizes)
    case _ => false
  }

  lemma TakeFits(l: Limits, without: State, taken: State, granted: bool, b: Backend)
    requires without.capacity == taken.capacity <= l.ceiling
    ensures var (after, ok) := TryTake(l, without, taken, granted, b);
            && (WithinBudget(l, without) ==> WithinBudget(l, after)) && after.capacity <= l.ceiling
            && after == (if ok then taken else without).(capacity := after.capacity)
  {
    hide MakeAvailable;
    TrimFits(l, taken.capacity, Available(l, taken), b);
  }

  /** Every operation keeps the counter exact and the cache under its ceiling, and it keeps the cache
      within the budget exactly when it is not one of the two that overshoot. */
  lemma StepKeepsIff(l: Limits, s: State, op: Op)
    requires ValidLimits(l) && Inv(l, s)
    ensures Inv(l, Step(l, s, op))
    ensures WithinBudget(l, s) ==> (WithinBudget(l, Step(l, s, op)) <==> !Overshoots(l, s, op))
  {
    hide MakeAvailable, ReturnMemory, TryTake, Sum;
    match op
    case Grow(bytes, b) => TrimFits(l, s.capacity, Available(l, s.(queries := s.queries + bytes)), b);
    case TryGrow(bytes, granted, b) => TakeFits(l, s, s.(queries := s.queries + bytes), granted, b);
    case Shrink(bytes, resizes) =>
      if bytes <= s.queries {
        ReturnIff(l, s.(queries := s.queries - bytes), resizes);
        ReturnKeepsRest(l, s.(queries := s.queries - bytes), resizes);
      }
    case DropReservation(i, resizes) =>
      if i < |s.dropping| {
        SumWithout(s.dropping, i);
        ReturnIff(l, s.(dropping := Without(s.dropping, i)), resizes);
        ReturnKeepsRest(l, s.(dropping := Without(s.dropping, i)), resizes);
      }
    case _ => LeaseStepKeeps(l, s, op);
  }

  /** The steps of taking a lease and leaving the counter never overshoot. */
  lemma LeaseStepKeeps(l: Limits, s: State, op: Op)
    requires Inv(l, s)
    requires op.CheckLease? || op.CountLease? || op.GrowLease? || op.UncountLease? || op.DropCounter?
    ensures Inv(l, Step(l, s, op)) && (WithinBudget(l, s) ==> WithinBudget(l, Step(l, s, op)))
  {
    hide TryTake, Sum;
    match op
    case CheckLease(_) =>
    case CountLease(i) =>
      if i < |s.checked| {
        SumAppend(s.counted, s.checked[i]);
      }
    case GrowLease(i, granted, b) =>
      if i < |s.counted| {
        var rest := s.(counted := Without(s.counted, i));
        SumWithout(s.counted, i);
        SumAppend(s.refused, s.counted[i]);
        SumAppend(s.live, s.counted[i]);
        TakeFits(l, rest.(refused := rest.refused + [s.counted[i]]), rest.(live := rest.live + [s.counted[i]]), granted, b);
      }
    case UncountLease(i) =>
      if i < |s.refused| {
        SumWithout(s.refused, i);
      }
    case DropCounter(i) =>
      if i < |s.live| {
        SumWithout(s.live, i);
        SumAppend(s.dropping, s.live[i]);
      }
  }

  lemma ReturnKeepsRest(l: Limits, s: State, resizes: bool)
    ensures ReturnMemory(l, s, resizes) == s.(capacity := ReturnMemory(l, s, resizes).capacity)
  {
  }

  // -------------------------------------------------------------------- theorems

  /** The cache was within the budget after every operation so far. */
  predicate AlwaysWithin(l: Limits, ops: seq<Op>) {
    forall i | 0 <= i <= |ops| :: WithinBudget(l, Exec(l, Start(l), ops[..i]))
  }

  /** No operation of the run overshoots. */
  predicate NeverOvershoots(l: Limits, ops: seq<Op>) {
    forall i | 0 <= i < |ops| :: !Overshoots(l, Exec(l, Start(l), ops[..i]), ops[i])
  }

  lemma ExecNext(l: Limits, s: State, ops: seq<Op>, i: nat)
    requires i < |ops|
    ensures Exec(l, s, ops[..i + 1]) == Step(l, Exec(l, s, ops[..i]), ops[i])
  {
    assert ops[..i + 1][..i] == ops[..i];
  }

  lemma WithinShorter(l: Limits, ops: seq<Op>)
    requires ops != []
    ensures var n := |ops| - 1;
            AlwaysWithin(l, ops) <==> AlwaysWithin(l, ops[..n]) && WithinBudget(l, Exec(l, Start(l), ops))
  {
    hide Exec, WithinBudget;
    var n := |ops| - 1;
    assert forall i :: 0 <= i <= n ==> ops[..n][..i] == ops[..i];
    assert ops[..n + 1] == ops;
  }

  lemma OvershootsShorter(l: Limits, ops: seq<Op>)
    requires ops != []
    ensures var n := |ops| - 1;
            NeverOvershoots(l, ops) <==>
              NeverOvershoots(l, ops[..n]) && !Overshoots(l, Exec(l, Start(l), ops[..n]), ops[n])
  {
    hide Exec, Overshoots;
    var n := |ops| - 1;
    assert forall i :: 0 <= i < n ==> ops[..n][i] == ops[i] && ops[..n][..i] == ops[..i];
  }

  /** Over every run of queries and leases, however their steps interleave, the cache stays within
      the budget after every operation exactly when no operation of the run overshoots; and the
      counter is exact throughout. */
  lemma {:induction false} CapacityWithinBudgetIff(l: Limits, ops: seq<Op>)
    requires ValidLimits(l)
    ensures AlwaysWithin(l, ops) <==> NeverOvershoots(l, ops)
    ensures Inv(l, Exec(l, Start(l), ops))
    ensures AlwaysWithin(l, ops) ==> WithinBudget(l, Exec(l, Start(l), ops))
  {
    hide Step, Overshoots, AlwaysWithin, NeverOvershoots, WithinBudget, Inv;
    if ops == [] {
      StartWithin(l);
    } else {
      var n := |ops| - 1;
      WithinShorter(l, ops);
      OvershootsShorter(l, ops);
      CapacityWithinBudgetIff(l, ops[..n]);
      StepKeepsIff(l, Exec(l, Start(l), ops[..n]), ops[n]);
    }
  }

  /** So the counter is exactly the leases between their count and their drop, whatever else runs; and
      with no lease half way, all that is reserved is the queries' memory and what the counter says. */
  lemma CounterExact(l: Limits, ops: seq<Op>)
    requires ValidLimits(l)
    ensures var s := Exec(l, Start(l), ops);
            && s.leased == Sum(s.counted) + Sum(s.refused) + Sum(s.live)
            && (s.counted == s.refused == s.dropping == [] ==> Reserved(s) == s.queries + s.leased)
  {
    hide Exec, AlwaysWithin, NeverOvershoots;
    CapacityWithinBudgetIff(l, ops);
  }

  lemma StartWithin(l: Limits)
    requires ValidLimits(l)
    ensures AlwaysWithin(l, []) && NeverOvershoots(l, []) && Inv(l, Start(l)) && WithinBudget(l, Start(l))
  {
  }

  /** The admission check still holds when the lease is counted. */
  predicate CountsFit(l: Limits, s: State, op: Op) {
    op.CountLease? && op.i < |s.checked| ==> s.leased + s.checked[op.i] <= Leasable(l)
  }

  predicate OrderlyRun(l: Limits, ops: seq<Op>) {
    forall i | 0 <= i < |ops| ::
      && CountsFit(l, Exec(l, Start(l), ops[..i]), ops[i])
      && (ops[i].Grow? ==> ops[i].backend.trims)
  }

  lemma CounterWithinLeasable(l: Limits, s: State, op: Op)
    requires s.leased <= Leasable(l) && CountsFit(l, s, op)
    ensures Step(l, s, op).leased <= Leasable(l)
  {
    hide MakeAvailable, Sum, RoundDown;
  }

  lemma FloorFits(l: Limits, s: State, op: Op)
    requires ValidLimits(l) && s.leased <= Leasable(l) && (op.Grow? ==> op.backend.trims)
    ensures !Overshoots(l, s, op)
  {
    hide Sum;
  }

  /** When the check still holds at every count, and the backend trims for every infallible grow, the
      leases never reach into the cache's working floor and the cache stays within the budget. */
  lemma {:induction false} OrderlyRunsKeepBudget(l: Limits, ops: seq<Op>)
    requires ValidLimits(l) && OrderlyRun(l, ops)
    ensures Exec(l, Start(l), ops).leased <= Leasable(l) && AlwaysWithin(l, ops)
  {
    hide Step, Overshoots, AlwaysWithin, NeverOvershoots, WithinBudget, CountsFit, ValidLimits;
    if ops == [] {
      StartWithin(l);
    } else {
      var n := |ops| - 1;
      assert OrderlyRun(l, ops[..n]) by {
        assert forall i :: 0 <= i < n ==> ops[..n][i] == ops[i] && ops[..n][..i] == ops[..i];
      }
      OrderlyRunsKeepBudget(l, ops[..n]);
      var s := Exec(l, Start(l), ops[..n]);
      CounterWithinLeasable(l, s, ops[n]);
      FloorFits(l, s, ops[n]);
      WithinShorter(l, ops);
      OvershootsShorter(l, ops);
      CapacityWithinBudgetIff(l, ops[..n]);
      CapacityWithinBudgetIff(l, ops);
    }
  }

  // ------------------------------------------------------------------ racing leases

  const RACE_LIMITS := Limits(1600, 1600, 100)
  const WILLING := Backend(true, false, true, false)

  /** Two leases check before either counts, both are granted, and then a query comes and goes. */
  const RACE := [CheckLease(800), CheckLease(750), CountLease(0), CountLease(0),
                 GrowLease(0, true, WILLING), GrowLease(0, true, WILLING),
                 TryGrow(1, true, WILLING), Shrink(1, true)]

  function RaceState(capacity: nat, leased: nat, queries: nat, checked: seq<nat>, counted: seq<nat>, live: seq<nat>): State {
    State(capacity, leased, queries, checked, counted, [], live, [])
  }

  lemma Quanta()
    ensures Quantum(RACE_LIMITS) == 1600 && RoundDown(800, 1600) == RoundDown(50, 1600) == 0
    ensures ValidLimits(RACE_LIMITS) && Leasable(RACE_LIMITS) == 1500
  {
  }

  lemma Pair(a: nat, b: nat)
    ensures Sum([a]) == a && Sum([a, b]) == a + b
    ensures Without([a], 0) == [] && Without([a, b], 0) == [b]
  {
    assert [a][1..] == [] && [a, b][1..] == [b] && [b][1..] == [];
  }

  lemma RaceCounts()
    ensures Exec(RACE_LIMITS, Start(RACE_LIMITS), RACE[..4]) == RaceState(1600, 1550, 0, [], [800, 750], [])
    ensures !CountsFit(RACE_LIMITS, Exec(RACE_LIMITS, Start(RACE_LIMITS), RACE[..3]), RACE[3])
  {
    hide Exec, Sum, Without;
    var l := RACE_LIMITS;
    Quanta();
    Pair(800, 750);
    Pair(750, 0);
    var s1, s2 := RaceState(1600, 0, 0, [800], [], []), RaceState(1600, 0, 0, [800, 750], [], []);
    var s3 := RaceState(1600, 800, 0, [750], [800], []);
    assert RACE[..0] == [];
    assert Exec(l, Start(l), []) == Start(l) by { NoOps(l, Start(l)); }
    forall i: nat | i < 4 ensures Exec(l, Start(l), RACE[..i + 1]) == Step(l, Exec(l, Start(l), RACE[..i]), RACE[i]) {
      ExecNext(l, Start(l), RACE, i);
    }
    assert Exec(l, Start(l), RACE[..1]) == s1;
    assert Exec(l, Start(l), RACE[..2]) == s2;
    assert Exec(l, Start(l), RACE[..3]) == s3;
  }

  lemma NoOps(l: Limits, s: State)
    ensures Exec(l, s, []) == s
  {
  }

  lemma RaceTrims()
    ensures MakeAvailable(RACE_LIMITS, 1600, 800, WILLING) == (0, true)
    ensures MakeAvailable(RACE_LIMITS, 0, 50, WILLING) == MakeAvailable(RACE_LIMITS, 0, 49, WILLING) == (0, true)
  {
    hide RoundDown, Quantum;
    Quanta();
  }

  lemma RaceSteps()
    ensures var counted, first := RaceState(1600, 1550, 0, [], [800, 750], []), RaceState(0, 1550, 0, [], [750], [800]);
            var both := RaceState(0, 1550, 0, [], [], [800, 750]);
            && Step(RACE_LIMITS, counted, GrowLease(0, true, WILLING)) == first
            && Step(RACE_LIMITS, first, GrowLease(0, true, WILLING)) == both
            && Step(RACE_LIMITS, both, TryGrow(1, true, WILLING)) == both.(queries := 1)
  {
    hide Sum, Without, MakeAvailable;
    RaceTrims();
    Pair(800, 750);
    Pair(750, 0);
    assert Sum([]) == 0 by { SumNone(); }
    assert [] + [800] == [800] && [800] + [750] == [800, 750];
  }

  lemma RaceGrows()
    ensures Exec(RACE_LIMITS, Start(RACE_LIMITS), RACE[..7]) == RaceState(0, 1550, 1, [], [], [800, 750])
  {
    hide Exec, Step;
    var l := RACE_LIMITS;
    RaceCounts();
    RaceSteps();
    ExecNext(l, Start(l), RACE, 4);
    ExecNext(l, Start(l), RACE, 5);
    ExecNext(l, Start(l), RACE, 6);
  }

  lemma SumNone()
    ensures Sum([]) == 0
  {
  }

  /** Checking and counting are two steps, and two leases that check before either counts take more
      than can be leased. When the query returns its memory, the cache is given its floor out of
      bytes that are reserved. */
  lemma RacingLeasesOvershoot()
    ensures ValidLimits(RACE_LIMITS) && !OrderlyRun(RACE_LIMITS, RACE)
    ensures var s := Exec(RACE_LIMITS, Start(RACE_LIMITS), RACE);
            s.live == [800, 750] && s.capacity == 100 && Available(RACE_LIMITS, s) == 50
    ensures !AlwaysWithin(RACE_LIMITS, RACE)
  {
    hide Exec, Sum, RoundDown, Quantum, CountsFit;
    var l := RACE_LIMITS;
    Quanta();
    Pair(800, 750);
    RaceCounts();
    RaceGrows();
    ExecNext(l, Start(l), RACE, 7);
    assert RACE[..8] == RACE;
    assert Sum([]) == 0 by { SumNone(); }
    assert !WithinBudget(l, Exec(l, Start(l), RACE[..8]));
  }

  /** The shared resources of one process. */
  class QueryResources {
    const limits: Limits
    var capacity: nat
    var leased: nat
    var queries: nat
    var checked: seq<nat>
    var counted: seq<nat>
    var refused: seq<nat>
    var live: seq<nat>
    var dropping: seq<nat>

    constructor (l: Limits)
      ensures limits == l && View() == Start(l)
    {
      limits := l;
      capacity, leased, queries := l.ceiling, 0, 0;
      checked, counted, refused, live, dropping := [], [], [], [], [];
    }

    function View(): State
      reads this
    {
      State(capacity, leased, queries, checked, counted, refused, live, dropping)
    }

    /** `resize_memory`. */
    method ResizeMemory(target: nat, resizes: bool) returns (ok: bool)
      modifies this`capacity
      ensures capacity == Resize(limits, old(capacity), target, resizes)
      ensures ok <==> resizes || old(capacity) == Min(target, limits.ceiling)
    {
      var bytes := Min(target, limits.ceiling);
      if capacity == bytes {
        return true;
      }
      if !resizes {
        return false;
      }
      capacity := bytes;
      return true;
    }

    method MakeMemoryAvailable(b: Backend) returns (ok: bool)
      modifies this`capacity
      ensures (capacity, ok) == MakeAvailable(limits, old(capacity), Available(limits, old(View())), b)
    {
      hide RoundDown;
      var available := Available(limits, View());
      var target := Min(available, limits.ceiling);
      if target < capacity {
        ok := ResizeMemory(RoundDown(target, Quantum(limits)), b.trims);
        if !ok {
          return false;
        }
      }
      if b.retained {
        ok := ResizeMemory(0, b.evicts);
        if !ok {
          return false;
        }
        return !b.stuck;
      }
      return true;
    }

    method Return(resizes: bool)
      modifies this`capacity
      ensures View() == ReturnMemory(limits, old(View()), resizes)
    {
      hide RoundDown;
      if leased < Reserved(View()) {
        return;
      }
      var spare := Min(SatMinus(limits.memoryBytes, leased), limits.ceiling);
      var target := Max(RoundDown(spare, Quantum(limits)), Min(limits.floor, limits.ceiling));
      var _ := ResizeMemory(target, resizes);
    }

    method Grow(bytes: nat, b: Backend)
      modifies this
      ensures View() == Step(limits, old(View()), Op.Grow(bytes, b))
    {
      hide MakeAvailable;
      queries := queries + bytes;
      var _ := MakeMemoryAvailable(b);
    }

    method TryGrow(bytes: nat, granted: bool, b: Backend) returns (ok: bool)
      modifies this
      ensures View() == Step(limits, old(View()), Op.TryGrow(bytes, granted, b))
      ensures ok ==> WithinBudget(limits, View()) && queries == old(queries) + bytes
      ensures !ok ==> queries == old(queries)
    {
      hide MakeAvailable;
      if !granted {
        return false;
      }
      TrimFits(limits, capacity, Available(limits, View().(queries := queries + bytes)), b);
      queries := queries + bytes;
      ok := MakeMemoryAvailable(b);
      if !ok {
        queries := queries - bytes;
      }
    }

    method Shrink(bytes: nat, resizes: bool)
      requires bytes <= queries
      modifies this
      ensures View() == Step(limits, old(View()), Op.Shrink(bytes, resizes))
    {
      hide ReturnMemory;
      queries := queries - bytes;
      Return(resizes);
    }

    /** The admission check of `reserve_memory`. */
    method Admit(bytes: nat) returns (ok: bool)
      modifies this
      ensures View() == Step(limits, old(View()), CheckLease(bytes))
      ensures ok <==> old(leased) + bytes <= Leasable(limits)
      ensures ok ==> |checked| == |old(checked)| + 1 && checked[|checked| - 1] == bytes
    {
      ok := leased + bytes <= Leasable(limits);
      if ok {
        checked := checked + [bytes];
      }
    }

    /** Its `fetch_add`. */
    method Count(i: nat)
      requires i < |checked|
      modifies this
      ensures View() == Step(limits, old(View()), CountLease(i))
    {
      leased := leased + checked[i];
      counted := counted + [checked[i]];
      checked := Without(checked, i);
    }

    /** Its `try_grow`. */
    method GrowCounted(i: nat, granted: bool, b: Backend) returns (ok: bool)
      requires i < |counted|
      modifies this
      ensures View() == Step(limits, old(View()), GrowLease(i, granted, b))
      ensures ok ==> live == old(live) + [old(counted[i])] && refused == old(refused)
      ensures !ok ==> live == old(live) && refused == old(refused) + [old(counted[i])]
    {
      hide MakeAvailable;
      var bytes := counted[i];
      counted := Without(counted, i);
      if !granted {
        refused := refused + [bytes];
        return false;
      }
      live := live + [bytes];
      ok := MakeMemoryAvailable(b);
      if !ok {
        live := live[..|live| - 1];
        refused := refused + [bytes];
      }
    }

    /** Its `fetch_sub` after a refusal. */
    method Uncount(i: nat)
      requires i < |refused|
      modifies this
      ensures View() == Step(limits, old(View()), UncountLease(i))
    {
      leased := SatMinus(leased, refused[i]);
      refused := Without(refused, i);
    }

    /** `reserve_memory` with nobody between its steps: a lease is granted and counted, or nothing is
        left behind but a smaller cache. */
    method ReserveMemory(bytes: nat, granted: bool, b: Backend) returns (ok: bool)
      modifies this
      ensures ok ==> && old(leased) + bytes <= Leasable(limits) && WithinBudget(limits, View())
                     && View() == old(View()).(capacity := capacity, leased := old(leased) + bytes,
                                               live := old(live) + [bytes])
      ensures !ok ==> View() == old(View()).(capacity := capacity) && capacity <= old(capacity)
    {
      hide MakeAvailable, Sum, Without;
      ok := Admit(bytes);
      if !ok {
        return false;
      }
      Count(|checked| - 1);
      WithoutLast(old(checked), bytes);
      WithoutLast(counted[..|counted| - 1], bytes);
      assert counted == old(counted) + [bytes] && counted[..|counted| - 1] == old(counted);
      TrimFits(limits, capacity, Available(limits, View().(counted := old(counted), live := live + [bytes])), b);
      ok := GrowCounted(|counted| - 1, granted, b);
      if !ok {
        Uncount(|refused| - 1);
        WithoutLast(old(refused), bytes);
      }
    }

    /** The first half of dropping a lease. */
    method LeaveCounter(i: nat)
      requires i < |live|
      modifies this
      ensures View() == Step(limits, old(View()), DropCounter(i))
    {
      leased := SatMinus(leased, live[i]);
      dropping := dropping + [live[i]];
      live := Without(live, i);
    }

    /** The second half: the reservation leaves the pool. */
    method LeavePool(i: nat, resizes: bool)
      requires i < |dropping|
      modifies this
      ensures View() == Step(limits, old(View()), DropReservation(i, resizes))
    {
      hide ReturnMemory;
      dropping := Without(dropping, i);
      Return(resizes);
    }
  }
}
