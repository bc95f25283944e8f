/** Any number of publishers advancing one stream's archive, interleaved call by call. */
module ArchiveProtocol {
  import opened Base
  import opened Archive
  import opened ArchiveTheorems
  import opened ArchiveRange

  /** The object store's part of one stream: its segments and every head it has ever held. */
  datatype Store = Store(objects: Objects, heads: seq<Head>)

  /** The head a load sees after `version` conditional writes. */
  function HeadAt(c: Config, heads: seq<Head>, version: nat): Head
    requires version <= |heads|
  {
    if version == 0 then EmptyHead(c) else heads[version - 1]
  }

  function Current(c: Config, s: Store): Head {
    HeadAt(c, s.heads, |s.heads|)
  }

  /** One `archive_committed` call, between two of its requests to the object store. */
  datatype Publisher =
    | Loading(records: seq<Record>, attempts: nat)
    | Storing(records: seq<Record>, attempts: nat, version: nat, head: Head, batch: seq<Record>)
    | Heading(records: seq<Record>, attempts: nat, version: nat, head: Head, batch: seq<Record>)
    | Finished(records: seq<Record>, result: Result<u64>)

  datatype System = System(store: Store, callers: map<nat, Publisher>)

  /** How the conditional head write is answered: truthfully, with a conflict although nothing was
      written, or with a conflict although the write took effect. */
  datatype Answer = Told | Denied | Hidden

  datatype Action =
    | Call(p: nat, records: seq<Record>)
    | Run(p: nat, answer: Answer)
    | Break(p: nat)
    | Lose(p: nat)

  predicate ValidConfig(c: Config) {
    0 < c.maxRecords
  }

  /** What callers may submit: records of this stream, none on the last representable LSN. */
  predicate Callable(c: Config, records: seq<Record>) {
    forall i :: 0 <= i < |records| ==> records[i].stream == c.stream && records[i].lsn < U64_MAX
  }

  function Begin(records: seq<Record>): Publisher {
    if records == [] then Finished(records, Ok(0))
    else if !Submittable(records) then Finished(records, Err(Contiguity))
    else Loading(records, 0)
  }

  function AfterLoad(c: Config, s: Store, records: seq<Record>, attempts: nat): Publisher {
    match Decide(c, Current(c, s), records)
    case Covered(archived) => Finished(records, Ok(archived))
    case Refuse => Finished(records, Err(Contiguity))
    case Publish(batch) => Storing(records, attempts, |s.heads|, Current(c, s), batch)
  }

  function AfterPublished(records: seq<Record>, next: Head): Publisher
    requires records != []
  {
    if next.archived == records[|records| - 1].lsn then Finished(records, Ok(next.archived))
    else Loading(records, 0)
  }

  function AfterConflict(records: seq<Record>, attempts: nat): Publisher {
    if HEAD_UPDATE_ATTEMPTS <= attempts + 1 then Finished(records, Err(Contended))
    else Loading(records, attempts + 1)
  }

  function Turn(c: Config, s: Store, p: Publisher, answer: Answer): (Store, Publisher) {
    match p
    case Loading(records, attempts) => (s, AfterLoad(c, s, records, attempts))
    case Storing(records, attempts, version, head, batch) =>
      if batch == [] then (s, p)
      else (match PutSegment(c, s.objects, batch)
            case None => (s, Finished(records, Err(Checksum)))
            case Some(objects) => (s.(objects := objects), Heading(records, attempts, version, head, batch)))
    case Heading(records, attempts, version, head, batch) =>
      if batch == [] || records == [] then (s, p)
      else
        var next := Extend(c, head, batch);
        var written := version == |s.heads| && !answer.Denied?;
        var store := if written then s.(heads := s.heads + [next]) else s;
        (store, if written && answer.Told? then AfterPublished(records, next) else AfterConflict(records, attempts))
    case Finished(_, _) => (s, p)
  }

  /** One step of the whole system; an action that cannot be taken changes nothing. */
  function Step(c: Config, s: System, a: Action): System {
    match a
    case Call(p, records) =>
      if p in s.callers || !Callable(c, records) then s else s.(callers := s.callers[p := Begin(records)])
    case Run(p, answer) =>
      if p !in s.callers then s
      else
        var (store, next) := Turn(c, s.store, s.callers[p], answer);
        System(store, s.callers[p := next])
    case Break(p) =>
      if p !in s.callers then s
      else s.(callers := s.callers[p := Finished(s.callers[p].records, Err(ObjectStore))])
    case Lose(p) => s.(callers := s.callers - {p})
  }

  function Exec(c: Config, s: System, actions: seq<Action>): System {
    if actions == [] then s else Step(c, Exec(c, s, actions[..|actions| - 1]), actions[|actions| - 1])
  }

  function Initial(): System {
    System(Store(map[], []), map[])
  }

  // ----------------------------------------------------------------- invariant

  /** A batch that can follow everything `h` already archives. */
  predicate Fits(c: Config, h: Head, batch: seq<Record>) {
    && batch != []
    && h.archived < U64_MAX
    && RunsFrom(c.stream, batch, h.archived + 1)
    && batch[|batch| - 1].lsn < U64_MAX
    && h.writerEpoch <= batch[0].writerEpoch
  }

  predicate Precedes(a: Head, b: Head) {
    a.archived < b.archived && a.segments <= b.segments
  }

  predicate RefsNamed(c: Config, objects: Objects, refs: seq<SegmentRef>) {
    forall i :: 0 <= i < |refs| ==>
                  && refs[i].key in objects
                  && refs[i].key.space == c.stream
                  && refs[i].digest == c.digest(objects[refs[i].key])
  }

  predicate StoreOk(c: Config, s: Store) {
    && (forall i :: 0 <= i < |s.heads| ==>
                      HeadOk(c, s.objects, s.heads[i]) && RefsNamed(c, s.objects, s.heads[i].segments))
    && (forall i, j | 0 <= i < |s.heads| && 0 <= j < |s.heads| && j == i + 1 :: Precedes(s.heads[i], s.heads[j]))
    && (0 < |s.heads| ==> 0 < s.heads[0].archived)
    && (forall k :: k in s.objects ==> c.digest(s.objects[k]) == k.digest)
  }

  predicate Submitted(c: Config, records: seq<Record>) {
    Submittable(records) && Callable(c, records)
  }

  predicate CallerOk(c: Config, s: Store, p: Publisher) {
    match p
    case Loading(records, _) => Submitted(c, records)
    case Storing(records, _, version, head, batch) =>
      && Submitted(c, records)
      && version <= |s.heads| && head == HeadAt(c, s.heads, version) && Fits(c, head, batch)
    case Heading(records, _, version, head, batch) =>
      && Submitted(c, records)
      && version <= |s.heads| && head == HeadAt(c, s.heads, version) && Fits(c, head, batch)
      && RefOf(c, batch).key in s.objects && s.objects[RefOf(c, batch).key] == SegmentOf(c, batch)
    case Finished(records, result) =>
      records != [] && result.Ok? ==> records[|records| - 1].lsn <= result.value <= Current(c, s).archived
  }

  predicate Inv(c: Config, s: System) {
    && StoreOk(c, s.store)
    && forall p :: p in s.callers ==> CallerOk(c, s.store, s.callers[p])
  }

  // -------------------------------------------------------------- one publication

  lemma {:induction false} SubmittedRun(c: Config, records: seq<Record>, i: nat)
    requires Submitted(c, records) && i < |records|
    ensures records[i].lsn == records[0].lsn + i
  {
    if 0 < i {
      SubmittedRun(c, records, i - 1);
    }
  }

  lemma {:induction false} RemainingRun(records: seq<Record>, first: nat, expected: u64)
    requires forall i :: 0 <= i < |records| ==> records[i].lsn == first + i
    ensures Remaining(records, expected) == records[Min(|records|, Max(0, expected - first))..]
  {
    if records != [] {
      RemainingRun(records[1..], first + 1, expected);
    }
  }

  /** A slice of a submission is itself a run, once its first record links back. */
  lemma SliceRuns(c: Config, records: seq<Record>, k: nat, n: nat)
    requires Submitted(c, records) && k + n <= |records| && 0 < n
    requires records[k].committedLsn == SatSub(records[k].lsn, 1)
    ensures RunsFrom(c.stream, records[k..k + n], records[k].lsn)
  {
    SubmittedRun(c, records, k);
    var batch := records[k..k + n];
    forall i | 0 <= i < n
      ensures && batch[i].stream == c.stream && batch[i].lsn == SatAdd(batch[0].lsn, i)
              && batch[i].committedLsn == SatSub(SatAdd(batch[0].lsn, i), 1)
    {
      SubmittedRun(c, records, k + i);
      if 0 < i {
        SubmittedRun(c, records, k + i - 1);
        assert batch[i] == records[k + i] && records[k + i].committedLsn == records[k + i - 1].lsn;
      }
    }
    forall i, j | 0 <= i < n && 0 <= j < n && j == i + 1
      ensures batch[i].writerEpoch <= batch[j].writerEpoch
    {
      assert batch[i] == records[k + i] && batch[j] == records[k + j];
    }
  }

  lemma RemainingIsSuffix(c: Config, records: seq<Record>, expected: u64) returns (k: nat)
    requires Submitted(c, records)
    ensures k <= |records| != 0 && Remaining(records, expected) == records[k..]
    ensures k == Min(|records|, Max(0, expected - records[0].lsn))
    ensures records[|records| - 1].lsn == records[0].lsn + |records| - 1
  {
    forall i | 0 <= i < |records|
      ensures records[i].lsn == records[0].lsn + i
    {
      SubmittedRun(c, records, i);
    }
    RemainingRun(records, records[0].lsn, expected);
    k := Min(|records|, Max(0, expected - records[0].lsn));
  }

  /** What a publisher decides, in terms of the submitted records. */
  lemma DecideMeans(c: Config, h: Head, records: seq<Record>)
    requires ValidConfig(c) && Submitted(c, records) && h.archived < U64_MAX
    ensures match Decide(c, h, records)
            case Covered(w) => w == h.archived && records[|records| - 1].lsn <= w
            case Refuse => h.archived < records[|records| - 1].lsn
            case Publish(batch) => Fits(c, h, batch) && batch[|batch| - 1].lsn <= records[|records| - 1].lsn
  {
    hide Submittable, RunsFrom, Remaining;
    var k := RemainingIsSuffix(c, records, h.archived + 1);
    assert |records[k..]| == |records| - k;
    if Decide(c, h, records).Publish? {
      var batch := Decide(c, h, records).batch;
      assert batch == records[k..k + |batch|];
      assert batch[0] == records[k];
      SliceRuns(c, records, k, |batch|);
      SubmittedRun(c, records, k + |batch| - 1);
      assert batch[|batch| - 1] == records[k + |batch| - 1];
    }
  }

  /** Publishing a batch that fits keeps the head good and appends exactly the batch. */
  lemma ExtendKeeps(c: Config, objects: Objects, h: Head, batch: seq<Record>)
    requires HeadOk(c, objects, h) && Fits(c, h, batch)
    requires RefOf(c, batch).key in objects && objects[RefOf(c, batch).key] == SegmentOf(c, batch)
    ensures HeadOk(c, objects, Extend(c, h, batch))
    ensures Contents(objects, Extend(c, h, batch).segments) == Contents(objects, h.segments) + batch
    ensures h.archived < Extend(c, h, batch).archived
  {
    hide RunsFrom;
    var r := RefOf(c, batch);
    BatchIsSegment(c, h, batch);
    ChainAppend(c, objects, h.segments, r, 1, 0);
    ContentsAppend(objects, h.segments, r);
  }

  lemma BatchIsSegment(c: Config, h: Head, batch: seq<Record>)
    requires Fits(c, h, batch)
    ensures SegmentOk(SegmentOf(c, batch), RefOf(c, batch), c.stream)
    ensures batch[0].lsn == h.archived + 1 && batch[|batch| - 1].lsn == h.archived + |batch|
  {
    assert batch[|batch| - 1].lsn == SatAdd(h.archived + 1, |batch| - 1);
  }

  // ------------------------------------------------------------------- every run

  lemma {:induction false} HeadsRise(c: Config, s: Store, i: nat, j: nat)
    requires StoreOk(c, s) && i <= j <= |s.heads|
    ensures HeadAt(c, s.heads, i).archived <= HeadAt(c, s.heads, j).archived
    ensures HeadAt(c, s.heads, i).segments <= HeadAt(c, s.heads, j).segments
    decreases j
  {
    hide HeadOk, RefsNamed;
    if i < j {
      HeadsRise(c, s, i, j - 1);
      if 1 < j {
        assert Precedes(s.heads[j - 2], s.heads[j - 1]);
      }
    }
  }

  lemma HeadAtOk(c: Config, s: Store, version: nat)
    requires StoreOk(c, s) && version <= |s.heads|
    ensures HeadOk(c, s.objects, HeadAt(c, s.heads, version))
    ensures HeadAt(c, s.heads, version).archived < U64_MAX
  {
    var h := HeadAt(c, s.heads, version);
    assert HeadOk(c, s.objects, h);
    if h.segments != [] {
      ChainNamesObjects(c, s.objects, h.segments, 1, 0, |h.segments| - 1);
    }
  }

  /** Storing a segment leaves every published head good. */
  lemma PutKeeps(c: Config, s: Store, batch: seq<Record>)
    requires StoreOk(c, s) && batch != [] && PutSegment(c, s.objects, batch).Some?
    ensures var objects := PutSegment(c, s.objects, batch).value;
            && SubMap(s.objects, objects)
            && RefOf(c, batch).key in objects && objects[RefOf(c, batch).key] == SegmentOf(c, batch)
            && StoreOk(c, s.(objects := objects))
  {
    hide Chain, Contents, ChainEpoch;
    var objects := PutSegment(c, s.objects, batch).value;
    forall i | 0 <= i < |s.heads|
      ensures HeadOk(c, objects, s.heads[i]) && RefsNamed(c, objects, s.heads[i].segments)
    {
      ChainGrows(c, s.objects, objects, s.heads[i].segments, 1, 0);
    }
  }

  /** A conditional write on the head it was computed from leaves the store good. */
  lemma CommitKeeps(c: Config, s: Store, batch: seq<Record>)
    requires StoreOk(c, s) && batch != [] && Fits(c, Current(c, s), batch)
    requires RefOf(c, batch).key in s.objects && s.objects[RefOf(c, batch).key] == SegmentOf(c, batch)
    ensures StoreOk(c, s.(heads := s.heads + [Extend(c, Current(c, s), batch)]))
    ensures Current(c, s).archived < Extend(c, Current(c, s), batch).archived
  {
    hide HeadOk, Fits, Contents;
    HeadAtOk(c, s, |s.heads|);
    var h := Current(c, s);
    BatchIsSegment(c, h, batch);
    var next := Extend(c, h, batch);
    ExtendKeeps(c, s.objects, h, batch);
    assert RefsNamed(c, s.objects, next.segments);
    assert Precedes(h, next);
  }

  /** A caller's obligations survive everything other callers do. */
  lemma CallerKept(c: Config, before: Store, after: Store, p: Publisher)
    requires StoreOk(c, before) && StoreOk(c, after) && CallerOk(c, before, p)
    requires SubMap(before.objects, after.objects) && before.heads <= after.heads
    ensures CallerOk(c, after, p)
  {
    hide StoreOk, Fits, Submittable;
    if p.Finished? {
      HeadsRise(c, after, |before.heads|, |after.heads|);
    }
  }

  lemma TurnKeeps(c: Config, s: Store, p: Publisher, answer: Answer)
    requires ValidConfig(c) && StoreOk(c, s) && CallerOk(c, s, p)
    ensures var (store, next) := Turn(c, s, p, answer);
            && StoreOk(c, store) && CallerOk(c, store, next)
            && SubMap(s.objects, store.objects) && s.heads <= store.heads
  {
    hide StoreOk, Fits, Submittable, Decide;
    match p
    case Loading(records, _) =>
      HeadAtOk(c, s, |s.heads|);
      DecideMeans(c, Current(c, s), records);
    case Storing(_, _, _, _, batch) =>
      if batch != [] && PutSegment(c, s.objects, batch).Some? {
        PutKeeps(c, s, batch);
      }
    case Heading(records, _, version, head, batch) =>
      if batch != [] && version == |s.heads| {
        CommitKeeps(c, s, batch);
      }
    case Finished(_, _) =>
  }

  lemma StepKeeps(c: Config, s: System, a: Action)
    requires ValidConfig(c) && Inv(c, s)
    ensures Inv(c, Step(c, s, a))
    ensures s.store.heads <= Step(c, s, a).store.heads
    ensures SubMap(s.store.objects, Step(c, s, a).store.objects)
  {
    hide StoreOk, CallerOk, Turn, Submittable, Callable;
    var after := Step(c, s, a);
    match a
    case Call(p, records) =>
      if Callable(c, records) {
        BeginOk(c, s.store, records);
      }
    case Run(p, answer) =>
      if p in s.callers {
        TurnKeeps(c, s.store, s.callers[p], answer);
        forall q | q in s.callers
          ensures CallerOk(c, after.store, after.callers[q])
        {
          if q != p {
            CallerKept(c, s.store, after.store, s.callers[q]);
          }
        }
      }
    case Break(p) =>
      if p in s.callers {
        FailedOk(c, s.store, s.callers[p].records, ObjectStore);
      }
    case Lose(_) =>
  }

  lemma BeginOk(c: Config, s: Store, records: seq<Record>)
    requires Callable(c, records)
    ensures CallerOk(c, s, Begin(records))
  {
  }

  lemma FailedOk(c: Config, s: Store, records: seq<Record>, e: ArchiveError)
    ensures CallerOk(c, s, Finished(records, Err(e)))
  {
  }

  lemma {:induction false} ExecKeeps(c: Config, actions: seq<Action>)
    requires ValidConfig(c)
    ensures Inv(c, Exec(c, Initial(), actions))
  {
    if actions != [] {
      ExecKeeps(c, actions[..|actions| - 1]);
      StepKeeps(c, Exec(c, Initial(), actions[..|actions| - 1]), actions[|actions| - 1]);
    }
  }

  // -------------------------------------------------------------------- theorems

  /** In every run, every head ever published names a complete history from LSN 1: one record per
      LSN up to its watermark, with epochs that never fall and end on the head's own, in stored
      segments that match the digests the head gives for them. */
  lemma PublishedHistoryComplete(c: Config, actions: seq<Action>, i: nat)
    requires ValidConfig(c) && i < |Exec(c, Initial(), actions).store.heads|
    ensures var s := Exec(c, Initial(), actions).store;
            var history := Contents(s.objects, s.heads[i].segments);
            && |history| == s.heads[i].archived
            && (forall k :: 0 <= k < |history| ==> history[k].lsn == k + 1 && history[k].stream == c.stream)
            && EpochsNeverFall(history)
            && s.heads[i].writerEpoch == (if history == [] then 0 else history[|history| - 1].writerEpoch)
            && RefsNamed(c, s.objects, s.heads[i].segments)
  {
    hide Chain, Contents, EpochsNeverFall, ChainEpoch;
    ExecKeeps(c, actions);
    var s := Exec(c, Initial(), actions).store;
    ContentsRun(c, s.objects, s.heads[i].segments, 1, 0);
    ContentsEpochs(c, s.objects, s.heads[i].segments, 1, 0);
  }

  /** In every run, what an earlier head archived is a prefix of what every later head archives. */
  lemma ArchivedRecordsNeverChange(c: Config, actions: seq<Action>, i: nat, j: nat)
    requires ValidConfig(c) && i <= j < |Exec(c, Initial(), actions).store.heads|
    ensures var s := Exec(c, Initial(), actions).store;
            && Contents(s.objects, s.heads[i].segments) <= Contents(s.objects, s.heads[j].segments)
            && (i < j ==> s.heads[i].archived < s.heads[j].archived)
  {
    hide Inv, StoreOk;
    ExecKeeps(c, actions);
    var s := Exec(c, Initial(), actions).store;
    InvStore(c, actions);
    HeadsRise(c, s, i + 1, j + 1);
    ContentsPrefix(s.objects, s.heads[i].segments, s.heads[j].segments);
    if i < j {
      HeadsRise(c, s, i + 2, j + 1);
      NextRises(c, s, i);
    }
  }

  lemma InvStore(c: Config, actions: seq<Action>)
    requires ValidConfig(c)
    ensures StoreOk(c, Exec(c, Initial(), actions).store)
  {
    ExecKeeps(c, actions);
  }

  lemma NextRises(c: Config, s: Store, i: nat)
    requires StoreOk(c, s) && i + 1 < |s.heads|
    ensures s.heads[i].archived < s.heads[i + 1].archived
  {
  }

  lemma {:induction false} ContentsPrefix(objects: Objects, a: seq<SegmentRef>, b: seq<SegmentRef>)
    requires a <= b
    ensures Contents(objects, a) <= Contents(objects, b)
    decreases |a|
  {
    if a != [] {
      ContentsPrefix(objects, a[1..], b[1..]);
    }
  }

  /** Segments and heads outlive everything that happens later. */
  lemma {:induction false} RunsGrow(c: Config, actions: seq<Action>, more: seq<Action>)
    requires ValidConfig(c)
    ensures var before := Exec(c, Initial(), actions).store;
            var after := Exec(c, Initial(), actions + more).store;
            SubMap(before.objects, after.objects) && before.heads <= after.heads
  {
    hide Inv, Step;
    if more == [] {
      assert actions + more == actions;
    } else {
      var n := |more| - 1;
      assert (actions + more)[..|actions + more| - 1] == actions + more[..n];
      RunsGrow(c, actions, more[..n]);
      ExecKeeps(c, actions + more[..n]);
      StepKeeps(c, Exec(c, Initial(), actions + more[..n]), more[n]);
    }
  }

  /** In every run, `recover` on any head a reader may have loaded succeeds at any later time, from
      any watermark, with exactly the archived records above that watermark. */
  lemma RecoverExact(c: Config, actions: seq<Action>, more: seq<Action>, i: nat, after: u64)
    requires ValidConfig(c) && i < |Exec(c, Initial(), actions).store.heads|
    ensures var s := Exec(c, Initial(), actions).store;
            Recover(c, Exec(c, Initial(), actions + more).store.objects, s.heads[i], after)
            == Ok(Tail(Contents(s.objects, s.heads[i].segments), after))
  {
    hide StoreOk, RecoverFrom, Chain, Contents, Tail;
    var s := Exec(c, Initial(), actions).store;
    var later := Exec(c, Initial(), actions + more).store;
    InvStore(c, actions);
    RunsGrow(c, actions, more);
    HeadAtOk(c, s, i + 1);
    var h := s.heads[i];
    ChainGrows(c, s.objects, later.objects, h.segments, 1, 0);
    GoodHeadBounded(c, later.objects, h);
    RecoverIffSound(c, later.objects, h);
    ContentsRun(c, later.objects, h.segments, 1, 0);
    WatermarkCountsIff(c, later.objects, h);
  }

  lemma GoodHeadBounded(c: Config, objects: Objects, h: Head)
    requires HeadOk(c, objects, h)
    ensures Bounded(h)
  {
    forall i | 0 <= i < |h.segments|
      ensures h.segments[i].last < U64_MAX
    {
      ChainNamesObjects(c, objects, h.segments, 1, 0, i);
    }
  }

  ghost predicate HexDigests(c: Config) {
    forall s :: IsHexDigest(c.digest(s))
  }

  /** In every run, a range of the current head verifies exactly when it is non-empty, starts at
      LSN 1 or later and ends at or below the watermark, and the watermark itself can be read. */
  lemma RangesVerify(c: Config, actions: seq<Action>, start: u64, end: u64)
    requires ValidConfig(c) && HexDigests(c) && c.stream != ""
    ensures var s := Exec(c, Initial(), actions).store;
            var h := Current(c, s);
            && HeadChainError(c, h) == None
            && (VerifyRange(c, s.objects, h, start, end) == None <==> 1 <= start <= end <= h.archived)
  {
    hide StoreOk, HeadOk, IsHexDigest, VerifyRange, HeadChainError;
    var s := Exec(c, Initial(), actions).store;
    InvStore(c, actions);
    HeadAtOk(c, s, |s.heads|);
    CurrentNamed(c, s);
    GoodHeadChecks(c, s.objects, Current(c, s));
    GoodHeadVerifies(c, s.objects, Current(c, s), start, end);
  }

  lemma CurrentNamed(c: Config, s: Store)
    requires StoreOk(c, s) && HexDigests(c)
    ensures WellNamed(c, Current(c, s).segments)
  {
    hide HeadOk, IsHexDigest;
    if s.heads != [] {
      assert RefsNamed(c, s.objects, s.heads[|s.heads| - 1].segments);
    }
  }

  /** In every run, a publisher that reports success has its last record at or below the watermark
      it reports, and the archive has reached that watermark. */
  lemma SuccessMeansArchived(c: Config, actions: seq<Action>, p: nat)
    requires ValidConfig(c) && p in Exec(c, Initial(), actions).callers
    ensures var s := Exec(c, Initial(), actions);
            var caller := s.callers[p];
            caller.Finished? && caller.result.Ok? && caller.records != [] ==>
              caller.records[|caller.records| - 1].lsn <= caller.result.value <= Current(c, s.store).archived
  {
    hide StoreOk;
    ExecKeeps(c, actions);
    assert CallerOk(c, Exec(c, Initial(), actions).store, Exec(c, Initial(), actions).callers[p]);
  }

  // ------------------------------------------------------ the last representable LSN

  /** A decision to publish repeats an LSN the head already covers exactly when the watermark has
      reached the last representable LSN. */
  lemma RepublishesOnlyAtTheEnd(c: Config, h: Head, records: seq<Record>)
    requires ValidConfig(c) && Decide(c, h, records).Publish?
    ensures Decide(c, h, records).batch[0].lsn <= h.archived <==> h.archived == U64_MAX
  {
    assert Decide(c, h, records).batch[0] == Remaining(records, SatAdd(h.archived, 1))[0];
  }

  /** And there it does happen: the last record is published a second time. */
  lemma LastLsnRepublished(c: Config, h: Head, r: Record)
    requires ValidConfig(c) && h.archived == U64_MAX && r.stream == c.stream && c.stream != ""
    requires r.lsn == U64_MAX && r.committedLsn == U64_MAX - 1 && h.writerEpoch <= r.writerEpoch
    ensures Submittable([r]) && Decide(c, h, [r]) == Publish([r])
  {
    assert Remaining([r], U64_MAX) == [r] + Remaining([], U64_MAX);
  }
}
