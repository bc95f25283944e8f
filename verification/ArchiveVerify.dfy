/** Exactly which ranges of an archive verify: told from the head and the objects alone. */
module ArchiveVerify {
  import opened Base
  import opened Archive
  import opened ArchiveTheorems
  import opened ArchiveRange
  import opened ArchiveWhole

  /** Every segment that overlaps the range is intact, and their epochs never fall from one to the next. */
  predicate RangeIntact(c: Config, objects: Objects, refs: seq<SegmentRef>, start: u64, end: u64) {
    && (forall i :: 0 <= i < |refs| && Overlaps(refs[i], start, end) ==> Intact(c, objects, refs[i]))
    && (forall i, j | 0 <= i < |refs| && 0 <= j < |refs| && j == i + 1 ::
          Overlaps(refs[i], start, end) && Overlaps(refs[j], start, end) ==>
            LastEpochOf(objects, refs[i]) <= FirstEpoch(objects, refs[j]))
  }

  /** What the scan of one whole segment comes to. */
  lemma {:induction false} ScanWhole(records: seq<Record>, first: nat, start: u64, end: u64, s: Scan)
    requires records != [] && Runs(records, first) && start <= end && !s.complete
    requires start <= first + |records| - 1 < U64_MAX && first <= end
    requires s.expected == Max(start, first) && (s.epoch.Some? ==> start <= first)
    ensures var last := first + |records| - 1;
            ScanRecords(records, start, end, s)
            == if s.epoch.Some? && records[0].writerEpoch < s.epoch.value then Err(Contiguity)
               else if end <= last then Ok(Scan(end, Some(records[end - first].writerEpoch), true))
               else Ok(Scan(last + 1, Some(records[|records| - 1].writerEpoch), false))
  {
    if 1 < |records| && first < end && !(s.epoch.Some? && records[0].writerEpoch < s.epoch.value) {
      var next := if first < start then s else Scan(first + 1, Some(records[0].writerEpoch), false);
      assert records[1..][0] == records[1];
      ScanWhole(records[1..], first + 1, start, end, next);
    }
  }

  /** The scan stands before the reference that starts at `first`. */
  predicate Before(s: Scan, first: nat, start: u64, end: u64) {
    !s.complete && first <= end && s.expected == Max(start, first) && (s.epoch.None? <==> first <= start)
  }

  predicate Continues(objects: Objects, refs: seq<SegmentRef>, s: Scan) {
    refs != [] && s.epoch.Some? ==> s.epoch.value <= FirstEpoch(objects, refs[0])
  }

  lemma RefsShorter(c: Config, refs: seq<SegmentRef>, first: nat)
    requires refs != [] && RefsFrom(c, refs, first)
    ensures RefOk(c, refs[0]) && refs[0].first == first && RefsFrom(c, refs[1..], refs[0].last + 1)
    ensures forall i :: 0 < i < |refs| ==> refs[0].last < refs[i].first <= refs[i].last
    decreases |refs|
  {
    hide RefOk;
    var rest := refs[1..];
    assert forall i :: 0 <= i < |rest| ==> rest[i] == refs[i + 1];
    if rest != [] {
      RefsShorter(c, rest, refs[0].last + 1);
      RefSpans(c, refs[0]);
      RefSpans(c, rest[0]);
      forall i | 0 < i < |refs| ensures refs[0].last < refs[i].first <= refs[i].last {
        assert refs[i] == rest[i - 1];
      }
    }
  }

  lemma RefSpans(c: Config, r: SegmentRef)
    requires RefOk(c, r)
    ensures r.first <= r.last < U64_MAX
  {
  }

  /** Taking the first segment off a range. */
  lemma RangeShorter(c: Config, objects: Objects, refs: seq<SegmentRef>, start: u64, end: u64)
    requires refs != []
    ensures RangeIntact(c, objects, refs, start, end) <==>
            && RangeIntact(c, objects, refs[1..], start, end)
            && (Overlaps(refs[0], start, end) ==>
                  && Intact(c, objects, refs[0])
                  && (1 < |refs| && Overlaps(refs[1], start, end) ==>
                        LastEpochOf(objects, refs[0]) <= FirstEpoch(objects, refs[1])))
  {
    hide Intact, LastEpochOf, FirstEpoch, Overlaps;
    var rest := refs[1..];
    assert forall i :: 0 <= i < |rest| ==> rest[i] == refs[i + 1];
    assert forall i :: 0 < i < |refs| ==> refs[i] == rest[i - 1];
    if RangeIntact(c, objects, refs, start, end) {
      assert RangeIntact(c, objects, rest, start, end);
    }
    if RangeIntact(c, objects, rest, start, end) {
      forall i, j | 0 < i < |refs| && 0 <= j < |refs| && j == i + 1
                    && Overlaps(refs[i], start, end) && Overlaps(refs[j], start, end)
        ensures LastEpochOf(objects, refs[i]) <= FirstEpoch(objects, refs[j])
      {
        assert refs[i] == rest[i - 1] && refs[j] == rest[i];
      }
    }
  }

  /** Nothing past the range overlaps it. */
  lemma BeyondRange(c: Config, objects: Objects, refs: seq<SegmentRef>, start: u64, end: u64)
    requires forall i :: 0 <= i < |refs| ==> end < refs[i].first
    ensures RangeIntact(c, objects, refs, start, end)
  {
  }

  /** The scan succeeds exactly when what it covers of the range is intact and runs on from what it has
      seen; it is complete once a segment reaches the end of the range, with the epoch there. */
  lemma {:induction false} ScanIff(c: Config, objects: Objects, refs: seq<SegmentRef>, first: nat, start: u64, end: u64, s: Scan)
    requires RefsFrom(c, refs, first) && start <= end && Before(s, first, start, end)
    ensures var r := ScanRefs(c, objects, refs, start, end, s);
            && (r.Ok? <==> RangeIntact(c, objects, refs, start, end) && Continues(objects, refs, s))
            && (r.Ok? ==> (r.value.complete <==> end < ChainEnd(refs, first)))
            && (r.Ok? && end + 1 == ChainEnd(refs, first) && refs != [] ==>
                  r.value.epoch == Some(LastEpochOf(objects, refs[|refs| - 1])))
    decreases |refs|
  {
    hide Intact, RefOk, RefsFrom, RangeIntact, ScanRecords, Fetch, Runs;
    if refs == [] {
      BeyondRange(c, objects, refs, start, end);
    } else {
      var r, rest := refs[0], refs[1..];
      RefsShorter(c, refs, first);
      RefSpans(c, r);
      RangeShorter(c, objects, refs, start, end);
      assert rest != [] ==> rest[0] == refs[1] && refs[|refs| - 1] == rest[|rest| - 1];
      if !Overlaps(r, start, end) {
        ScanIff(c, objects, rest, r.last + 1, start, end, s);
      } else {
        OneSegment(c, objects, r, start, end, s);
        if Intact(c, objects, r) && Continues(objects, refs, s) {
          if r.last < end {
            if rest != [] {
              RefsShorter(c, rest, r.last + 1);
              assert Overlaps(rest[0], start, end);
            }
            ScanIff(c, objects, rest, r.last + 1, start, end, Scan(r.last + 1, Some(LastEpochOf(objects, r)), false));
          } else {
            BeyondRange(c, objects, rest, start, end);
          }
        }
      }
    }
  }

  /** One overlapping segment: read, then scanned. */
  lemma OneSegment(c: Config, objects: Objects, r: SegmentRef, start: u64, end: u64, s: Scan)
    requires RefOk(c, r) && start <= end && Overlaps(r, start, end) && Before(s, r.first, start, end)
    ensures Fetch(c, objects, r).Ok? <==> Intact(c, objects, r)
    ensures Intact(c, objects, r) ==>
              && Fetch(c, objects, r).value == objects[r.key]
              && var scanned := ScanRecords(objects[r.key].records, start, end, s);
              && (scanned.Ok? <==> (s.epoch.Some? ==> s.epoch.value <= FirstEpoch(objects, r)))
              && (scanned.Ok? ==> scanned.value.complete == (end <= r.last))
              && (scanned.Ok? && end == r.last ==> scanned.value.epoch == Some(LastEpochOf(objects, r)))
              && (scanned.Ok? && r.last < end ==> scanned.value == Scan(r.last + 1, Some(LastEpochOf(objects, r)), false))
  {
    hide Intact, ScanRecords, Runs;
    IntactIff(c, objects, r);
    if Intact(c, objects, r) {
      FetchedRuns(c, objects, r);
      IntactLength(c, objects, r);
      ScanWhole(objects[r.key].records, r.first, start, end, s);
    }
  }

  lemma IntactLength(c: Config, objects: Objects, r: SegmentRef)
    requires Intact(c, objects, r)
    ensures |objects[r.key].records| == r.last - r.first + 1
  {
  }

  /** A range verifies exactly when the head's references are in order and reach it, every segment that
      overlaps it is intact, their epochs never fall, and where it ends at the watermark the last epoch
      is the head's. */
  lemma VerifyRangeIff(c: Config, objects: Objects, h: Head, start: u64, end: u64)
    ensures VerifyRange(c, objects, h, start, end).None? <==>
            && c.stream != "" && 1 <= start <= end <= h.archived && HeadChainError(c, h).None?
            && RangeIntact(c, objects, h.segments, start, end)
            && (end == h.archived && h.segments != [] ==>
                  h.writerEpoch == LastEpochOf(objects, h.segments[|h.segments| - 1]))
  {
    hide HeadChainError, ScanRefs, RangeIntact, RefsFrom;
    HeadChecksIff(c, h);
    if 1 <= start <= end <= h.archived && HeadChainError(c, h).None? {
      ScanIff(c, objects, h.segments, 1, start, end, Scan(start, None, false));
    }
  }
}
