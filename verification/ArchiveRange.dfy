/** Range verification: what a success proves, and that a good chain always succeeds. */
module ArchiveRange {
  import opened Base
  import opened Archive
  import opened ArchiveTheorems

  predicate HasLsn(records: seq<Record>, lsn: nat) {
    exists k :: 0 <= k < |records| && records[k].lsn == lsn
  }

  /** Some segment of the head exists, matches its digest, verifies, and holds this LSN. */
  predicate Held(c: Config, objects: Objects, refs: seq<SegmentRef>, lsn: nat) {
    exists i :: 0 <= i < |refs| && Fetch(c, objects, refs[i]).Ok? && HasLsn(objects[refs[i].key].records, lsn)
  }

  /** The LSNs a scan has walked over between two of its states. */
  predicate Walked(from: Scan, to: Scan, end: nat, lsn: nat) {
    from.expected <= lsn && (lsn < to.expected || (to.complete && !from.complete && lsn <= end))
  }

  lemma {:induction false} ScanCovers(records: seq<Record>, start: u64, end: u64, s: Scan, lsn: nat)
    requires ScanRecords(records, start, end, s).Ok? && !s.complete
    requires Walked(s, ScanRecords(records, start, end, s).value, end, lsn)
    ensures HasLsn(records, lsn)
  {
    if records != [] && lsn == records[0].lsn {
      assert records[0].lsn == lsn;
    } else if records != [] && (records[0].lsn < start || records[0].lsn <= end) {
      var next := if records[0].lsn < start then s
                  else Scan(SatAdd(records[0].lsn, 1), Some(records[0].writerEpoch), s.complete);
      ScanCovers(records[1..], start, end, next, lsn);
      var k :| 0 <= k < |records[1..]| && records[1..][k].lsn == lsn;
      assert records[k + 1].lsn == lsn;
    }
  }

  lemma {:induction false} RefsCover(c: Config, objects: Objects, refs: seq<SegmentRef>, start: u64, end: u64,
                                     s: Scan, lsn: nat)
    requires ScanRefs(c, objects, refs, start, end, s).Ok? && !s.complete
    requires Walked(s, ScanRefs(c, objects, refs, start, end, s).value, end, lsn)
    ensures Held(c, objects, refs, lsn)
    decreases |refs|
  {
    hide SegmentOk, ScanRecords, HasLsn;
    if refs != [] {
      var next := if Overlaps(refs[0], start, end)
                  then ScanRecords(objects[refs[0].key].records, start, end, s).value else s;
      if Walked(s, next, end, lsn) {
        ScanCovers(objects[refs[0].key].records, start, end, s, lsn);
      } else {
        RefsCover(c, objects, refs[1..], start, end, next, lsn);
        var i :| 0 <= i < |refs[1..]| && Fetch(c, objects, refs[1..][i]).Ok?
                 && HasLsn(objects[refs[1..][i].key].records, lsn);
        assert refs[i + 1] == refs[1..][i];
      }
    }
  }

  /** A verified range is a non-empty range of real LSNs at or below the watermark, and every one
      of them lies in a segment that exists, matches its digest and verifies. */
  lemma VerifiedRangeIsHeld(c: Config, objects: Objects, h: Head, start: u64, end: u64)
    requires VerifyRange(c, objects, h, start, end) == None
    ensures 1 <= start <= end <= h.archived
    ensures forall lsn :: start <= lsn <= end ==> Held(c, objects, h.segments, lsn)
  {
    hide Held, ScanRefs;
    forall lsn | start <= lsn <= end
      ensures Held(c, objects, h.segments, lsn)
    {
      RefsCover(c, objects, h.segments, start, end, Scan(start, None, false), lsn);
    }
  }

  // --------------------------------------------------------------- completeness

  predicate EpochAtMost(epoch: Option<u64>, bound: nat) {
    epoch.Some? ==> epoch.value <= bound
  }

  /** Consecutive LSNs from `first`, epochs that never fall. */
  predicate Runs(records: seq<Record>, first: nat) {
    && (forall i :: 0 <= i < |records| ==> records[i].lsn == first + i)
    && (forall i, j | 0 <= i < |records| && 0 <= j < |records| && j == i + 1 ::
          records[i].writerEpoch <= records[j].writerEpoch)
  }

  lemma {:induction false} ScanRun(records: seq<Record>, first: nat, start: u64, end: u64, s: Scan)
    requires records != [] && Runs(records, first) && first <= end && start <= end
    requires s.expected == Max(start, first) && !s.complete && EpochAtMost(s.epoch, records[0].writerEpoch)
    ensures var r := ScanRecords(records, start, end, s);
            var last := first + |records| - 1;
            && r.Ok?
            && r.value.complete == (end <= last)
            && (end > last ==> r.value.expected == Max(start, last + 1)
                               && EpochAtMost(r.value.epoch, records[|records| - 1].writerEpoch))
            && (end == last ==> r.value.epoch == Some(records[|records| - 1].writerEpoch))
  {
    if 1 < |records| && first < end {
      var next := if first < start then s else Scan(SatAdd(first, 1), Some(records[0].writerEpoch), false);
      assert records[1..][0] == records[1];
      ScanRun(records[1..], first + 1, start, end, next);
    }
  }

  lemma FetchedRuns(c: Config, objects: Objects, r: SegmentRef)
    requires Fetch(c, objects, r).Ok? && r.last < U64_MAX
    ensures Runs(objects[r.key].records, r.first)
  {
    SegmentShape(objects[r.key], r, c.stream);
  }

  lemma {:induction false} ScanChain(c: Config, objects: Objects, refs: seq<SegmentRef>, expected: nat, epoch: nat,
                                     start: u64, end: u64, s: Scan)
    requires Chain(c, objects, refs, expected, epoch)
    requires start <= end && expected <= end < ChainEnd(refs, expected)
    requires s.expected == Max(start, expected) && !s.complete && EpochAtMost(s.epoch, epoch)
    ensures var r := ScanRefs(c, objects, refs, start, end, s);
            && r.Ok? && r.value.complete
            && (end + 1 == ChainEnd(refs, expected) ==> r.value.epoch == Some(ChainEpoch(objects, refs, epoch)))
    decreases |refs|
  {
    hide SegmentOk, ScanRecords, Runs;
    if refs != [] {
      RecordsOf(c, objects, refs[0]);
      FetchedRuns(c, objects, refs[0]);
      var records := objects[refs[0].key].records;
      if refs[0].last < end {
        ChainNamesObjects(c, objects, refs, expected, epoch, |refs| - 1);
        FetchedNonEmpty(c, objects, refs[|refs| - 1]);
      }
      if Overlaps(refs[0], start, end) {
        ScanRun(records, refs[0].first, start, end, s);
        if refs[0].last < end {
          ScanChain(c, objects, refs[1..], refs[0].last + 1, records[|records| - 1].writerEpoch, start, end,
                    ScanRecords(records, start, end, s).value);
        } else {
          ChainEndsAt(c, objects, refs, expected, epoch);
        }
      } else {
        ScanChain(c, objects, refs[1..], refs[0].last + 1, records[|records| - 1].writerEpoch, start, end, s);
      }
    }
  }

  /** If the first segment already reaches the end of the chain, it is the only one. */
  lemma ChainEndsAt(c: Config, objects: Objects, refs: seq<SegmentRef>, expected: nat, epoch: nat)
    requires Chain(c, objects, refs, expected, epoch) && refs != []
    ensures ChainEnd(refs, expected) == refs[0].last + 1 ==> |refs| == 1
    ensures refs[0].last < ChainEnd(refs, expected)
  {
    if 1 < |refs| {
      var records := objects[refs[0].key].records;
      ChainNamesObjects(c, objects, refs[1..], refs[0].last + 1, records[|records| - 1].writerEpoch, |refs| - 2);
    }
  }

  /** Every reference lies in the stream's own namespace under a hexadecimal digest. */
  predicate WellNamed(c: Config, refs: seq<SegmentRef>) {
    forall i :: 0 <= i < |refs| ==> refs[i].key.space == c.stream && IsHexDigest(refs[i].digest)
  }

  lemma {:induction false} ChainChecks(c: Config, objects: Objects, refs: seq<SegmentRef>, expected: u64, epoch: nat)
    requires Chain(c, objects, refs, expected, epoch) && WellNamed(c, refs)
    ensures CheckRefs(c, refs, expected) == Ok(ChainEnd(refs, expected))
    decreases |refs|
  {
    hide SegmentOk, IsHexDigest;
    if refs != [] {
      FetchedNonEmpty(c, objects, refs[0]);
      var records := objects[refs[0].key].records;
      ChainChecks(c, objects, refs[1..], refs[0].last + 1, records[|records| - 1].writerEpoch);
    }
  }

  /** A good head passes the cheap chain check, so its watermark can be read. */
  lemma GoodHeadChecks(c: Config, objects: Objects, h: Head)
    requires HeadOk(c, objects, h) && WellNamed(c, h.segments)
    ensures HeadChainError(c, h) == None
  {
    ChainChecks(c, objects, h.segments, 1, 0);
    if h.segments != [] {
      ChainNamesObjects(c, objects, h.segments, 1, 0, |h.segments| - 1);
    }
  }

  /** On a good head, exactly the non-empty ranges at or below the watermark verify. */
  lemma GoodHeadVerifies(c: Config, objects: Objects, h: Head, start: u64, end: u64)
    requires HeadOk(c, objects, h) && WellNamed(c, h.segments) && c.stream != ""
    ensures VerifyRange(c, objects, h, start, end) == None <==> 1 <= start <= end <= h.archived
  {
    hide WellNamed, ScanRefs;
    GoodHeadChecks(c, objects, h);
    if 1 <= start <= end <= h.archived {
      ScanChain(c, objects, h.segments, 1, 0, start, end, Scan(start, None, false));
    }
  }
}
