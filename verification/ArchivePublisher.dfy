/** The publishing loop of `archive_committed`, with other publishers acting between its requests. */
module ArchivePublisher {
  import opened Base
  import opened Archive
  import opened ArchiveTheorems
  import opened ArchiveProtocol

  /** One complete publication by another caller, if its records fit the head it finds. */
  function Rival(c: Config, s: Store, records: seq<Record>): Store {
    if !Submitted(c, records) then s
    else
      match Decide(c, Current(c, s), records)
      case Covered(_) => s
      case Refuse => s
      case Publish(batch) =>
        if batch == [] then s
        else
          match PutSegment(c, s.objects, batch)
          case None => s
          case Some(objects) => Store(objects, s.heads + [Extend(c, Current(c, s), batch)])
  }

  /** A store that has only moved on: no segment changed, no head forgotten. */
  ghost predicate Later(c: Config, before: Store, after: Store) {
    StoreOk(c, after) && SubMap(before.objects, after.objects) && before.heads <= after.heads
  }

  lemma PublishKeeps(c: Config, s: Store, records: seq<Record>)
    requires ValidConfig(c) && StoreOk(c, s) && Submitted(c, records)
    requires Decide(c, Current(c, s), records).Publish?
    ensures var batch := Decide(c, Current(c, s), records).batch;
            && batch != [] && Fits(c, Current(c, s), batch)
            && batch[|batch| - 1].lsn <= records[|records| - 1].lsn
            && (PutSegment(c, s.objects, batch).Some? ==>
                  var objects := PutSegment(c, s.objects, batch).value;
                  && Later(c, s, Store(objects, s.heads))
                  && Later(c, s, Store(objects, s.heads + [Extend(c, Current(c, s), batch)]))
                  && Current(c, s).archived < Extend(c, Current(c, s), batch).archived
                  && Contents(objects, Extend(c, Current(c, s), batch).segments)
                     == Contents(s.objects, Current(c, s).segments) + batch)
  {
    hide StoreOk, Fits, Submitted, Decide, Chain, ChainEpoch, Contents;
    HeadAtOk(c, s, |s.heads|);
    DecideMeans(c, Current(c, s), records);
    var batch := Decide(c, Current(c, s), records).batch;
    assert batch != [] by { BatchIsSegment(c, Current(c, s), batch); }
    if PutSegment(c, s.objects, batch).Some? {
      var objects := PutSegment(c, s.objects, batch).value;
      PutKeeps(c, s, batch);
      CommitKeeps(c, Store(objects, s.heads), batch);
      HeadAtOk(c, Store(objects, s.heads), |s.heads|);
      ExtendKeeps(c, objects, Current(c, s), batch);
      ChainGrows(c, s.objects, objects, Current(c, s).segments, 1, 0);
    }
  }

  lemma RivalKeeps(c: Config, s: Store, records: seq<Record>)
    requires ValidConfig(c) && StoreOk(c, s)
    ensures Later(c, s, Rival(c, s, records))
  {
    hide StoreOk, Submitted, Decide, Fits;
    if Submitted(c, records) && Decide(c, Current(c, s), records).Publish? {
      PublishKeeps(c, s, records);
    }
  }

  /** The published batch is a slice of the submission, and what is left starts right after it. */
  lemma BatchIsSlice(c: Config, h: Head, records: seq<Record>) returns (k: nat, m: nat)
    requires ValidConfig(c) && Submitted(c, records) && h.archived < U64_MAX
    requires Decide(c, h, records).Publish?
    ensures k < m <= |records| && Decide(c, h, records).batch == records[k..m]
    ensures Remaining(records, h.archived + 1) == records[k..]
    ensures records[m - 1].lsn < U64_MAX && Remaining(records, records[m - 1].lsn + 1) == records[m..]
  {
    hide RunsFrom, Remaining, Submittable;
    DecideMeans(c, h, records);
    var batch := Decide(c, h, records).batch;
    BatchIsSegment(c, h, batch);
    k := RemainingIsSuffix(c, records, h.archived + 1);
    assert |records[k..]| == |records| - k;
    m := k + |batch|;
    assert batch == records[k..m];
    assert batch[|batch| - 1] == records[m - 1];
    SubmittedRun(c, records, m - 1);
    var n := RemainingIsSuffix(c, records, records[m - 1].lsn + 1);
  }

  /** Once a batch is published, what is left to publish is the rest of the submission. */
  lemma RestRemains(c: Config, h: Head, records: seq<Record>)
    requires ValidConfig(c) && Submitted(c, records) && h.archived < U64_MAX
    requires Decide(c, h, records).Publish? && Decide(c, h, records).batch != []
    ensures var batch := Decide(c, h, records).batch;
            && !Decide(c, Extend(c, h, batch), records).Refuse?
            && batch + Remaining(records, SatAdd(Extend(c, h, batch).archived, 1))
               == Remaining(records, SatAdd(h.archived, 1))
  {
    hide Remaining, Submittable, Callable;
    var batch := Decide(c, h, records).batch;
    var k, m := BatchIsSlice(c, h, records);
    assert batch[|batch| - 1] == records[m - 1];
    assert records[k..] == batch + records[m..];
    if m < |records| {
      LinkedNext(c, records, m);
      assert records[m..][0] == records[m];
    }
  }

  lemma LinkedNext(c: Config, records: seq<Record>, m: nat)
    requires Submitted(c, records) && 0 < m < |records|
    ensures records[m].lsn == records[m - 1].lsn + 1 && records[m].committedLsn == records[m - 1].lsn
    ensures records[m - 1].writerEpoch <= records[m].writerEpoch
  {
    SubmittedRun(c, records, m);
    SubmittedRun(c, records, m - 1);
  }

  /** No other segment has the digest of a stretch of the submission. */
  ghost predicate Unmistakable(c: Config, records: seq<Record>) {
    forall k, m, x :: 0 <= k < m <= |records| && c.digest(x) == c.digest(SegmentOf(c, records[k..m])) ==>
                        x == SegmentOf(c, records[k..m])
  }

  lemma NoCollision(c: Config, s: Store, records: seq<Record>)
    requires ValidConfig(c) && StoreOk(c, s) && Submitted(c, records) && Unmistakable(c, records)
    requires Decide(c, Current(c, s), records).Publish?
    ensures Decide(c, Current(c, s), records).batch != []
    ensures PutSegment(c, s.objects, Decide(c, Current(c, s), records).batch).Some?
  {
    hide HeadOk, RefsNamed, Submitted, Decide;
    assert Current(c, s).archived < U64_MAX by { HeadAtOk(c, s, |s.heads|); }
    var k, m := BatchIsSlice(c, Current(c, s), records);
    var batch := records[k..m];
    var key := RefOf(c, batch).key;
    if key in s.objects {
      assert c.digest(s.objects[key]) == c.digest(SegmentOf(c, batch));
    }
  }

  // ------------------------------------------- both conditions on digests can be met

  /** A hexadecimal digest that marks two places. */
  function Marks(i: nat, j: nat): string {
    seq(64, n => if n == i || n == j then '1' else '0')
  }

  /** Marks the stretches of one submission by where they begin and end, and everything else alike. */
  function MarkingDigest(stream: string, records: seq<Record>, x: Segment): string
    requires records != []
  {
    var i, j := x.first - records[0].lsn, x.last - records[0].lsn + 1;
    if 0 <= i < j <= |records| && x == Segment(stream, x.first, x.last, records[i..j]) then Marks(i, j)
    else seq(64, _ => '2')
  }

  lemma MarksDiffer(i: nat, j: nat, k: nat, m: nat)
    requires i < j < 64 && k < m < 64 && Marks(i, j) == Marks(k, m)
    ensures i == k && j == m
  {
    assert Marks(i, j)[i] == '1' && Marks(i, j)[j] == '1' && Marks(k, m)[k] == '1' && Marks(k, m)[m] == '1';
  }

  lemma MarksStretch(c: Config, records: seq<Record>, k: nat, m: nat)
    requires Submitted(c, records) && k < m <= |records| < 64
    ensures MarkingDigest(c.stream, records, SegmentOf(c, records[k..m])) == Marks(k, m)
    ensures records[k].lsn == records[0].lsn + k && records[m - 1].lsn == records[0].lsn + m - 1
  {
    SubmittedRun(c, records, k);
    SubmittedRun(c, records, m - 1);
    assert records[k..m][0] == records[k] && records[k..m][m - k - 1] == records[m - 1];
  }

  /** There are digests that are hexadecimal throughout, as range verification asks, and that mistake
      nothing for a stretch of the submission, as publication asks. */
  lemma DigestsCanMeet(stream: string, records: seq<Record>, maxRecords: nat) returns (c: Config)
    requires records != [] && |records| < 64 && Submittable(records)
    requires forall i :: 0 <= i < |records| ==> records[i].stream == stream && records[i].lsn < U64_MAX
    ensures c.stream == stream && c.maxRecords == maxRecords
    ensures Submitted(c, records) && HexDigests(c) && Unmistakable(c, records)
  {
    hide Submittable;
    c := Config(stream, (x: Segment) => MarkingDigest(stream, records, x), maxRecords);
    forall k, m, x | 0 <= k < m <= |records| && c.digest(x) == c.digest(SegmentOf(c, records[k..m]))
      ensures x == SegmentOf(c, records[k..m])
    {
      MarksStretch(c, records, k, m);
      assert Marks(k, m)[k] == '1';
      var i, j := x.first - records[0].lsn, x.last - records[0].lsn + 1;
      assert c.digest(x)[k] != '2';
      MarksDiffer(i, j, k, m);
    }
  }

  /** An undisturbed publication moves the batch from what is left to what is archived. */
  lemma AloneAdvances(c: Config, s: Store, records: seq<Record>)
    requires ValidConfig(c) && StoreOk(c, s) && Submitted(c, records)
    requires Decide(c, Current(c, s), records).Publish?
    requires Decide(c, Current(c, s), records).batch != []
    requires PutSegment(c, s.objects, Decide(c, Current(c, s), records).batch).Some?
    ensures var batch := Decide(c, Current(c, s), records).batch;
            var objects := PutSegment(c, s.objects, batch).value;
            var next := Extend(c, Current(c, s), batch);
            && !Decide(c, next, records).Refuse?
            && next.archived <= records[|records| - 1].lsn
            && Contents(objects, next.segments) + Remaining(records, SatAdd(next.archived, 1))
               == Contents(s.objects, Current(c, s).segments) + Remaining(records, SatAdd(Current(c, s).archived, 1))
  {
    hide StoreOk, Submitted, Fits, Contents, Decide, Remaining, PutSegment, Later, HeadOk, Current, SatAdd, RefOf;
    var h := Current(c, s);
    HeadAtOk(c, s, |s.heads|);
    PublishKeeps(c, s, records);
    RestRemains(c, h, records);
    var batch := Decide(c, h, records).batch;
    Associates(Contents(s.objects, h.segments), batch, Remaining(records, SatAdd(Extend(c, h, batch).archived, 1)));
  }

  lemma Associates(a: seq<Record>, b: seq<Record>, c: seq<Record>)
    ensures a + b + c == a + (b + c)
  {
  }

  lemma NothingLeft(c: Config, h: Head, records: seq<Record>)
    requires Submitted(c, records) && h.archived < U64_MAX && records[|records| - 1].lsn <= h.archived
    ensures Remaining(records, SatAdd(h.archived, 1)) == []
  {
    hide Submittable, Remaining;
    var k := RemainingIsSuffix(c, records, h.archived + 1);
  }

  /** Everything the stream archives. */
  function History(c: Config, s: Store): seq<Record> {
    Contents(s.objects, Current(c, s).segments)
  }

  /** The records a call still has to publish. */
  function Left(c: Config, s: Store, records: seq<Record>): seq<Record> {
    Remaining(records, SatAdd(Current(c, s).archived, 1))
  }

  /** An undisturbed call that has published something and has not been refused. */
  predicate Progress(c: Config, start: Store, s: Store, records: seq<Record>)
    requires records != []
  {
    && !Decide(c, Current(c, start), records).Refuse?
    && !Decide(c, Current(c, s), records).Refuse?
    && Current(c, start).archived <= Current(c, s).archived <= records[|records| - 1].lsn
    && History(c, s) + Left(c, s, records) == History(c, start) + Left(c, start, records)
  }

  /** What an undisturbed call leaves and returns. */
  predicate Outcome(c: Config, start: Store, s: Store, records: seq<Record>, result: Result<u64>)
    requires records != []
  {
    if Decide(c, Current(c, start), records).Refuse? then result == Err(Contiguity) && s == start
    else
      && result == Ok(Max(Current(c, start).archived, records[|records| - 1].lsn))
      && History(c, s) == History(c, start) + Left(c, start, records)
  }

  /** The store after an undisturbed round that decided to publish. */
  predicate PublishedAlone(c: Config, before: Store, after: Store, records: seq<Record>) {
    var h := Current(c, before);
    var batch := match Decide(c, h, records) case Publish(b) => b case _ => [];
    && batch != [] && PutSegment(c, before.objects, batch).Some?
    && after == Store(PutSegment(c, before.objects, batch).value, before.heads + [Extend(c, h, batch)])
  }

  /** How an undisturbed round moves a call along, and how it ends. */
  lemma QuietRound(c: Config, start: Store, before: Store, after: Store, records: seq<Record>, first: bool)
    requires ValidConfig(c) && StoreOk(c, before) && records != [] && Submitted(c, records)
    requires if first then before == start
             else Progress(c, start, before, records) && Current(c, before).archived < records[|records| - 1].lsn
    ensures var d := Decide(c, Current(c, before), records);
            var last := records[|records| - 1].lsn;
            && (d.Refuse? && after == before ==> Outcome(c, start, after, records, Err(Contiguity)))
            && (d.Covered? && after == before ==> Outcome(c, start, after, records, Ok(d.archived)))
            && (PublishedAlone(c, before, after, records) ==>
                  && Progress(c, start, after, records)
                  && Current(c, after).archived <= last
                  && (Current(c, after).archived == last ==> Outcome(c, start, after, records, Ok(last))))
  {
    hide StoreOk, Submitted, Decide, Remaining, Contents, PutSegment;
    HeadAtOk(c, before, |before.heads|);
    DecideMeans(c, Current(c, before), records);
    if Decide(c, Current(c, before), records).Covered? {
      NothingLeft(c, Current(c, before), records);
    }
    if PublishedAlone(c, before, after, records) {
      PublishKeeps(c, before, records);
      AloneAdvances(c, before, records);
      if Current(c, after).archived == records[|records| - 1].lsn {
        NothingLeft(c, Current(c, after), records);
      }
    }
  }

  /** One stream of the archive, as the object store holds it. */
  class OpaqueArchive {
    const config: Config
    var objects: Objects
    var heads: seq<Head>

    constructor (c: Config)
      ensures config == c && View() == Store(map[], [])
    {
      config := c;
      objects := map[];
      heads := [];
    }

    function View(): Store
      reads this
    {
      Store(objects, heads)
    }

    /** The checks made before the first request. */
    method CheckSubmission(records: seq<Record>) returns (ok: bool)
      ensures ok <==> Submittable(records)
    {
      if records == [] || records[0].stream == "" {
        return false;
      }
      var i := 1;
      while i < |records|
        invariant 1 <= i <= |records|
        invariant Submittable(records[..i])
      {
        assert records[..i + 1] == records[..i] + [records[i]];
        if records[i].stream != records[0].stream
           || records[i].lsn != SatAdd(records[i - 1].lsn, 1)
           || records[i].committedLsn != records[i - 1].lsn
           || records[i].writerEpoch < records[i - 1].writerEpoch {
          assert records[..i + 1][i] == records[i] && records[..i + 1][i - 1] == records[i - 1];
          return false;
        }
        i := i + 1;
      }
      assert records[..i] == records;
      return true;
    }

    /** `put_segment`: whether the segment is now stored. */
    method PutSegmentObject(batch: seq<Record>) returns (ok: bool)
      requires batch != []
      modifies this`objects
      ensures ok == PutSegment(config, old(objects), batch).Some?
      ensures objects == if ok then PutSegment(config, old(objects), batch).value else old(objects)
    {
      var segment := SegmentOf(config, batch);
      var key := RefOf(config, batch).key;
      if key in objects {
        return objects[key] == segment;
      }
      objects := objects[key := segment];
      return true;
    }

    /** `put_head`: create or exact update. Returns whether the caller is told it succeeded. */
    method PutHead(next: Head, version: nat, answer: Answer) returns (told: bool)
      modifies this`heads
      ensures told <==> version == |old(heads)| && answer.Told?
      ensures heads == if version == |old(heads)| && !answer.Denied? then old(heads) + [next] else old(heads)
    {
      if version == |heads| && !answer.Denied? {
        heads := heads + [next];
        return answer.Told?;
      }
      return false;
    }

    /** Other publishers, each completing one publication. */
    method MeetRivals(calls: seq<seq<Record>>)
      requires ValidConfig(config) && StoreOk(config, View())
      modifies this
      ensures Later(config, old(View()), View())
      ensures calls == [] ==> View() == old(View())
    {
      var i := 0;
      while i < |calls|
        invariant 0 <= i <= |calls|
        invariant Later(config, old(View()), View())
        invariant i == 0 ==> View() == old(View())
      {
        RivalKeeps(config, View(), calls[i]);
        var store := Rival(config, View(), calls[i]);
        objects, heads := store.objects, store.heads;
        i := i + 1;
      }
    }

    /** Nobody else publishes and every answer is truthful. */
    static ghost predicate Quiet(
      early: nat -> seq<seq<Record>>, rivals: nat -> seq<seq<Record>>, answers: nat -> Answer)
    {
      forall n: nat :: early(n) == rivals(n) == [] && answers(n) == Told
    }

    /** One turn of the publishing loop: `None` to go round again. */
    method Round(records: seq<Record>, calls: seq<seq<Record>>, answer: Answer, attempts: nat)
      returns (finished: Option<Result<u64>>, contended: nat)
      requires ValidConfig(config) && StoreOk(config, View()) && Submitted(config, records)
      requires records != [] && attempts < HEAD_UPDATE_ATTEMPTS
      modifies this
      ensures Later(config, old(View()), View())
      ensures match Decide(config, old(Current(config, View())), records)
              case Covered(w) =>
                && finished == Some(Ok(w)) && View() == old(View())
                && records[|records| - 1].lsn <= w == Current(config, View()).archived
              case Refuse => finished == Some(Err(Contiguity)) && View() == old(View())
              case Publish(_) =>
                && (finished.Some? && finished.value.Ok? ==>
                      records[|records| - 1].lsn == finished.value.value <= Current(config, View()).archived)
                && finished != Some(Err(Contiguity))
                && (Unmistakable(config, records) ==> finished != Some(Err(Checksum)))
                && (calls == [] && answer.Told? && Unmistakable(config, records) ==>
                      && PublishedAlone(config, old(View()), View(), records)
                      && finished == (if Current(config, View()).archived == records[|records| - 1].lsn
                                      then Some(Ok(records[|records| - 1].lsn)) else None))
      ensures finished.None? ==> contended < HEAD_UPDATE_ATTEMPTS
      ensures finished.None? ==>
                || (old(Current(config, View()).archived) < Current(config, View()).archived
                    && old(Current(config, View()).archived) < records[|records| - 1].lsn)
                || (old(Current(config, View()).archived) <= Current(config, View()).archived
                    && contended == attempts + 1)
    {
      hide StoreOk, Submitted, Fits, Contents, Decide, Chain;
      ghost var before := View();
      var head, version := Current(config, View()), |heads|;
      HeadAtOk(config, before, version);
      DecideMeans(config, head, records);
      match Decide(config, head, records) {
        case Covered(w) => return Some(Ok(w)), attempts;
        case Refuse => return Some(Err(Contiguity)), attempts;
        case Publish(batch) =>
          PublishKeeps(config, before, records);
          var stored := PutSegmentObject(batch);
          if !stored {
            if Unmistakable(config, records) {
              NoCollision(config, before, records);
            }
            return Some(Err(Checksum)), attempts;
          }
          assert Later(config, before, View());
          MeetRivals(calls);
          HeadsRise(config, View(), version, |heads|);
          var next := Extend(config, head, batch);
          assert StoredStill(batch);
          ghost var met := View();
          if version == |heads| {
            CommitKeeps(config, met, batch);
          }
          var told := PutHead(next, version, answer);
          if told {
            if next.archived == records[|records| - 1].lsn {
              return Some(Ok(next.archived)), 0;
            }
            return None, 0;
          }
          if HEAD_UPDATE_ATTEMPTS <= attempts + 1 {
            return Some(Err(Contended)), attempts + 1;
          }
          return None, attempts + 1;
      }
    }

    ghost predicate StoredStill(batch: seq<Record>)
      requires batch != []
      reads this
    {
      RefOf(config, batch).key in objects && objects[RefOf(config, batch).key] == SegmentOf(config, batch)
    }

    /** The publishing loop, once the submission has passed its checks. */
    method PublishAll(
      records: seq<Record>, early: nat -> seq<seq<Record>>, rivals: nat -> seq<seq<Record>>, answers: nat -> Answer)
      returns (result: Result<u64>)
      requires ValidConfig(config) && StoreOk(config, View()) && records != [] && Submitted(config, records)
      modifies this
      ensures Later(config, old(View()), View())
      ensures result.Ok? ==> records[|records| - 1].lsn <= result.value <= Current(config, View()).archived
      ensures result == Err(Contiguity) ==> Decide(config, Current(config, View()), records).Refuse?
      ensures Unmistakable(config, records) ==> result != Err(Checksum)
      ensures Quiet(early, rivals, answers) && Unmistakable(config, records) ==>
                Outcome(config, old(View()), View(), records, result)
    {
      hide StoreOk, Submitted, Decide, PutSegment, Progress, Outcome, PublishedAlone;
      var attempts := 0;
      var round: nat := 0;
      ghost var last := records[|records| - 1].lsn;
      ghost var start := View();
      ghost var quiet := Quiet(early, rivals, answers) && Unmistakable(config, records);
      while true
        invariant Later(config, start, View())
        invariant 0 <= attempts < HEAD_UPDATE_ATTEMPTS
        invariant round == 0 ==> View() == start
        invariant quiet && 0 < round ==>
                    Progress(config, start, View(), records) && Current(config, View()).archived < last
        decreases Max(0, last - Current(config, View()).archived), HEAD_UPDATE_ATTEMPTS - attempts
      {
        ghost var entered := View();
        MeetRivals(early(round));
        HeadsRise(config, View(), |entered.heads|, |heads|);
        ghost var before := View();
        var finished: Option<Result<u64>>;
        finished, attempts := Round(records, rivals(round), answers(round), attempts);
        if quiet {
          QuietRound(config, start, before, View(), records, round == 0);
        }
        round := round + 1;
        if finished.Some? {
          return finished.value;
        }
      }
    }

    /** `archive_committed`. `early(n)` are the publications other callers complete in the n-th round
        before this call's load, so after its last head write; `rivals(n)` those between the load and
        the head write; `answers(n)` is how that write is answered. It always returns; it only ever
        moves the archive on; success means the last record is archived; and without interference it
        appends exactly what was missing. */
    method ArchiveCommitted(
      records: seq<Record>, early: nat -> seq<seq<Record>>, rivals: nat -> seq<seq<Record>>, answers: nat -> Answer)
      returns (result: Result<u64>)
      requires ValidConfig(config) && StoreOk(config, View()) && Callable(config, records)
      modifies this
      ensures Later(config, old(View()), View())
      ensures records == [] ==> result == Ok(0) && View() == old(View())
      ensures records != [] && !Submittable(records) ==> result == Err(Contiguity) && View() == old(View())
      ensures records != [] && result.Ok? ==>
                records[|records| - 1].lsn <= result.value <= Current(config, View()).archived
      ensures Submittable(records) && result == Err(Contiguity) ==>
                Decide(config, Current(config, View()), records).Refuse?
      ensures Unmistakable(config, records) ==> result != Err(Checksum)
      ensures Quiet(early, rivals, answers) && Unmistakable(config, records) && Submittable(records) ==>
                Outcome(config, old(View()), View(), records, result)
    {
      hide StoreOk, Decide, Outcome, Callable;
      if records == [] {
        return Ok(0);
      }
      var ok := CheckSubmission(records);
      if !ok {
        return Err(Contiguity);
      }
      result := PublishAll(records, early, rivals, answers);
    }
  }
}
