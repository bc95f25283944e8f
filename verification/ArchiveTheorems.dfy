/** What a chain of segments guarantees to every reader of it. */
module ArchiveTheorems {
  import opened Base
  import opened Archive

  // ------------------------------------------------------- chains and contents

  lemma SegmentShape(s: Segment, r: SegmentRef, stream: string)
    requires SegmentOk(s, r, stream) && r.last < U64_MAX
    ensures |s.records| == r.last - r.first + 1
    ensures forall i :: 0 <= i < |s.records| ==> s.records[i].lsn == r.first + i
  {
    assert s.records[|s.records| - 1].lsn == SatAdd(r.first, |s.records| - 1);
  }

  lemma {:induction false} EpochsRise(stream: string, records: seq<Record>, first: u64, i: nat, j: nat)
    requires RunsFrom(stream, records, first) && i <= j < |records|
    ensures records[i].writerEpoch <= records[j].writerEpoch
    decreases j
  {
    if i < j {
      EpochsRise(stream, records, first, i, j - 1);
    }
  }

  /** Every LSN of the reference once, in order, each record committed up to the one before it, and
      no record under an older epoch than an earlier one. */
  predicate WholeRange(records: seq<Record>, stream: string, first: u64, last: u64) {
    && first <= last && |records| == last - first + 1
    && (forall i :: 0 <= i < |records| ==>
          && records[i].stream == stream && records[i].lsn == first + i
          && records[i].committedLsn == if first + i == 0 then 0 else first + i - 1)
    && (forall i, j | 0 <= i <= j < |records| :: records[i].writerEpoch <= records[j].writerEpoch)
  }

  /** A segment is accepted exactly when its own bounds are the reference's and it holds the whole range. */
  lemma SegmentOkIff(s: Segment, r: SegmentRef, stream: string)
    requires r.last < U64_MAX
    ensures SegmentOk(s, r, stream) <==>
            && s.stream == stream && (s.first, s.last) == (r.first, r.last)
            && WholeRange(s.records, stream, r.first, r.last)
  {
    if SegmentOk(s, r, stream) {
      SegmentShape(s, r, stream);
      forall i, j | 0 <= i <= j < |s.records| ensures s.records[i].writerEpoch <= s.records[j].writerEpoch {
        EpochsRise(stream, s.records, r.first, i, j);
      }
    }
  }

  lemma FetchGrows(c: Config, objects: Objects, more: Objects, r: SegmentRef)
    requires Fetch(c, objects, r).Ok? && SubMap(objects, more)
    ensures Fetch(c, more, r) == Fetch(c, objects, r) && r.key in objects && objects[r.key].records != []
    ensures r.key in more && more[r.key] == objects[r.key]
  {
  }

  lemma {:induction false} ChainGrows(c: Config, objects: Objects, more: Objects, refs: seq<SegmentRef>,
                                      expected: nat, epoch: nat)
    requires Chain(c, objects, refs, expected, epoch) && SubMap(objects, more)
    ensures Chain(c, more, refs, expected, epoch)
    ensures Contents(more, refs) == Contents(objects, refs)
    ensures ChainEpoch(more, refs, epoch) == ChainEpoch(objects, refs, epoch)
    decreases |refs|
  {
    hide Fetch;
    if refs != [] {
      FetchGrows(c, objects, more, refs[0]);
      var records := objects[refs[0].key].records;
      ChainGrows(c, objects, more, refs[1..], refs[0].last + 1, records[|records| - 1].writerEpoch);
      ChainNamesObjects(c, objects, refs, expected, epoch, |refs| - 1);
    }
  }

  lemma {:induction false} ChainNamesObjects(c: Config, objects: Objects, refs: seq<SegmentRef>, expected: nat,
                                             epoch: nat, i: nat)
    requires Chain(c, objects, refs, expected, epoch) && i < |refs|
    ensures refs[i].key in objects && Fetch(c, objects, refs[i]) == Ok(objects[refs[i].key])
    ensures expected <= refs[i].first <= refs[i].last < U64_MAX
    decreases |refs|
  {
    if 0 < i {
      var records := objects[refs[0].key].records;
      ChainNamesObjects(c, objects, refs[1..], refs[0].last + 1, records[|records| - 1].writerEpoch, i - 1);
    }
  }

  lemma {:induction false} ContentsAppend(objects: Objects, refs: seq<SegmentRef>, r: SegmentRef)
    requires r.key in objects
    ensures Contents(objects, refs + [r]) == Contents(objects, refs) + objects[r.key].records
    decreases |refs|
  {
    if refs == [] {
      assert [r][1..] == [];
    } else {
      assert (refs + [r])[1..] == refs[1..] + [r];
      ContentsAppend(objects, refs[1..], r);
    }
  }

  lemma {:induction false} ChainAppend(c: Config, objects: Objects, refs: seq<SegmentRef>, r: SegmentRef,
                                       expected: nat, epoch: nat)
    requires Chain(c, objects, refs, expected, epoch)
    requires Fetch(c, objects, r).Ok? && r.first <= r.last < U64_MAX
    requires r.first == ChainEnd(refs, expected)
    requires ChainEpoch(objects, refs, epoch) <= objects[r.key].records[0].writerEpoch
    ensures Chain(c, objects, refs + [r], expected, epoch)
    decreases |refs|
  {
    hide SegmentOk;
    FetchedNonEmpty(c, objects, r);
    if refs != [] {
      assert (refs + [r])[1..] == refs[1..] + [r];
      FetchedNonEmpty(c, objects, refs[0]);
      var records := objects[refs[0].key].records;
      ChainNamesObjects(c, objects, refs, expected, epoch, |refs| - 1);
      FetchedNonEmpty(c, objects, refs[|refs| - 1]);
      ChainAppend(c, objects, refs[1..], r, refs[0].last + 1, records[|records| - 1].writerEpoch);
    }
  }

  /** The contents of a chain are one record per LSN, in order and of one stream. */
  lemma {:induction false} ContentsRun(c: Config, objects: Objects, refs: seq<SegmentRef>, expected: nat, epoch: nat)
    requires Chain(c, objects, refs, expected, epoch)
    ensures |Contents(objects, refs)| == ChainEnd(refs, expected) - expected
    ensures forall k :: 0 <= k < |Contents(objects, refs)| ==>
                          && Contents(objects, refs)[k].lsn == expected + k
                          && Contents(objects, refs)[k].stream == c.stream
    decreases |refs|
  {
    if refs != [] {
      var records := objects[refs[0].key].records;
      SegmentShape(objects[refs[0].key], refs[0], c.stream);
      ContentsRun(c, objects, refs[1..], refs[0].last + 1, records[|records| - 1].writerEpoch);
    }
  }

  /** Epochs never fall along the records. */
  predicate EpochsNeverFall(records: seq<Record>) {
    forall i, j | 0 <= i <= j < |records| :: records[i].writerEpoch <= records[j].writerEpoch
  }

  /** Along the contents of a chain epochs never fall, from the floor to the chain's own epoch. */
  lemma {:induction false} ContentsEpochs(c: Config, objects: Objects, refs: seq<SegmentRef>, expected: nat, epoch: nat)
    requires Chain(c, objects, refs, expected, epoch)
    ensures var all := Contents(objects, refs);
            && EpochsNeverFall(all)
            && (forall k :: 0 <= k < |all| ==> epoch <= all[k].writerEpoch)
            && (all == [] <==> refs == [])
            && ChainEpoch(objects, refs, epoch) == (if all == [] then epoch else all[|all| - 1].writerEpoch)
    decreases |refs|
  {
    hide Fetch, EpochsNeverFall, ChainEpoch;
    if refs == [] {
      NothingFalls(objects, epoch);
    } else {
      FetchedNonEmpty(c, objects, refs[0]);
      var records, rest := objects[refs[0].key].records, Contents(objects, refs[1..]);
      RecordsRise(c, objects, refs[0]);
      var floor := records[|records| - 1].writerEpoch;
      ContentsEpochs(c, objects, refs[1..], refs[0].last + 1, floor);
      EpochsConcat(records, rest, epoch);
      LastEpoch(c, objects, refs, expected, epoch);
    }
  }

  lemma NothingFalls(objects: Objects, epoch: nat)
    ensures EpochsNeverFall([]) && ChainEpoch(objects, [], epoch) == epoch
  {
  }

  lemma EpochsConcat(a: seq<Record>, b: seq<Record>, epoch: nat)
    requires EpochsNeverFall(a) && EpochsNeverFall(b) && a != [] && epoch <= a[0].writerEpoch
    requires forall k :: 0 <= k < |b| ==> a[|a| - 1].writerEpoch <= b[k].writerEpoch
    ensures EpochsNeverFall(a + b)
    ensures forall k :: 0 <= k < |a + b| ==> epoch <= (a + b)[k].writerEpoch
  {
    assert forall k :: 0 <= k < |a| ==> a[0].writerEpoch <= a[k].writerEpoch <= a[|a| - 1].writerEpoch;
  }

  lemma LastEpoch(c: Config, objects: Objects, refs: seq<SegmentRef>, expected: nat, epoch: nat)
    requires Chain(c, objects, refs, expected, epoch) && refs != []
    ensures var records := objects[refs[0].key].records;
            && records != []
            && ChainEpoch(objects, refs, epoch) == ChainEpoch(objects, refs[1..], records[|records| - 1].writerEpoch)
  {
    hide SegmentOk;
    FetchedNonEmpty(c, objects, refs[0]);
    if refs[1..] != [] {
      assert refs[1..][|refs[1..]| - 1] == refs[|refs| - 1];
      ChainNamesObjects(c, objects, refs, expected, epoch, |refs| - 1);
      FetchedNonEmpty(c, objects, refs[|refs| - 1]);
    }
  }

  lemma RecordsRise(c: Config, objects: Objects, r: SegmentRef)
    requires Fetch(c, objects, r).Ok?
    ensures EpochsNeverFall(objects[r.key].records)
  {
    var records := objects[r.key].records;
    forall i, j | 0 <= i <= j < |records| ensures records[i].writerEpoch <= records[j].writerEpoch {
      EpochsRise(c.stream, records, r.first, i, j);
    }
  }

  // ------------------------------------------------------------------ recovery

  /** All but the first `n` records. */
  function Tail(records: seq<Record>, n: nat): seq<Record> {
    records[Min(|records|, n)..]
  }

  lemma {:induction false} AboveRun(records: seq<Record>, first: nat, after: u64)
    requires forall i :: 0 <= i < |records| ==> records[i].lsn == first + i
    ensures Above(records, after) == Tail(records, Max(0, after + 1 - first))
  {
    if records != [] {
      AboveRun(records[1..], first + 1, after);
    }
  }

  lemma TailConcat(a: seq<Record>, b: seq<Record>, n: nat)
    ensures Tail(a + b, n) == Tail(a, n) + Tail(b, Max(0, n - |a|))
  {
  }

  /** The loop of `recover`, over a good chain, keeps exactly the records above the watermark. */
  lemma {:induction false} RecoverWalk(c: Config, objects: Objects, refs: seq<SegmentRef>, w: Walk, after: u64)
    requires Chain(c, objects, refs, w.expected, w.epoch)
    ensures var r := RecoverFrom(c, objects, refs, w, after);
            && r.Ok?
            && r.value.records == w.records + Tail(Contents(objects, refs), Max(0, after + 1 - w.expected))
            && r.value.expected == ChainEnd(refs, w.expected)
    decreases |refs|
  {
    hide SegmentOk, Tail, Above;
    if refs == [] {
      assert Tail([], Max(0, after + 1 - w.expected)) == [] by { TailAll([], Max(0, after + 1 - w.expected)); }
    } else {
      var records := objects[refs[0].key].records;
      RecordsOf(c, objects, refs[0]);
      var last := records[|records| - 1].writerEpoch;
      var n := Max(0, after + 1 - w.expected);
      TailConcat(records, Contents(objects, refs[1..]), n);
      if refs[0].last <= after {
        TailAll(records, n);
        ChainLower(c, objects, refs[1..], refs[0].last + 1, last, w.epoch);
        RecoverWalk(c, objects, refs[1..], w.(expected := SatAdd(refs[0].last, 1)), after);
      } else {
        AboveRun(records, refs[0].first, after);
        assert w.records + Tail(Contents(objects, refs), n)
               == w.records + Above(records, after) + Tail(Contents(objects, refs[1..]), Max(0, n - |records|));
        RecoverWalk(c, objects, refs[1..],
                    Walk(w.records + Above(records, after), SatAdd(refs[0].last, 1), last), after);
      }
    }
  }

  lemma TailAll(records: seq<Record>, n: nat)
    requires |records| <= n
    ensures Tail(records, n) == []
  {
  }

  /** `archived_tail` walks the same references as `recover` and reads the same segments. */
  lemma {:induction false} TailAlong(c: Config, objects: Objects, refs: seq<SegmentRef>, w: Walk, after: u64)
    ensures match RecoverFrom(c, objects, refs, w, after)
            case Ok(end) => TailFrom(c, objects, refs, w.expected, w.epoch, after) == Ok((end.expected, end.epoch))
            case Err(e) => TailFrom(c, objects, refs, w.expected, w.epoch, after) == Err(e)
    decreases |refs|
  {
    hide SegmentOk, Above;
    if refs != [] {
      if refs[0].last <= after {
        TailAlong(c, objects, refs[1..], w.(expected := SatAdd(refs[0].last, 1)), after);
      } else if Fetch(c, objects, refs[0]).Ok? {
        var records := Fetch(c, objects, refs[0]).value.records;
        FetchedNonEmpty(c, objects, refs[0]);
        TailAlong(c, objects, refs[1..],
                  Walk(w.records + Above(records, after), SatAdd(refs[0].last, 1),
                       records[|records| - 1].writerEpoch), after);
      }
    }
  }

  lemma FetchedNonEmpty(c: Config, objects: Objects, r: SegmentRef)
    requires Fetch(c, objects, r).Ok?
    ensures r.key in objects && Fetch(c, objects, r).value == objects[r.key] && objects[r.key].records != []
  {
  }

  /** On a good chain that reaches past the watermark, the walk ends on the chain's last epoch. */
  lemma {:induction false} TailWalk(c: Config, objects: Objects, refs: seq<SegmentRef>, expected: u64, epoch: u64,
                                    after: u64)
    requires Chain(c, objects, refs, expected, epoch)
    requires refs != [] && after < refs[|refs| - 1].last
    ensures TailFrom(c, objects, refs, expected, epoch, after)
            == Ok((ChainEnd(refs, expected), ChainEpoch(objects, refs, epoch)))
    decreases |refs|
  {
    hide SegmentOk;
    var records := objects[refs[0].key].records;
    FetchedNonEmpty(c, objects, refs[0]);
    RecordsOf(c, objects, refs[0]);
    var last := records[|records| - 1].writerEpoch;
    if refs[1..] != [] {
      ChainNamesObjects(c, objects, refs, expected, epoch, |refs| - 1);
      FetchedNonEmpty(c, objects, refs[|refs| - 1]);
      ChainLower(c, objects, refs[1..], refs[0].last + 1, last, epoch);
      TailWalk(c, objects, refs[1..], refs[0].last + 1, if refs[0].last <= after then epoch else last, after);
    }
  }

  lemma RecordsOf(c: Config, objects: Objects, r: SegmentRef)
    requires Fetch(c, objects, r).Ok? && r.last < U64_MAX
    ensures var records := objects[r.key].records;
            && records != [] && |records| == r.last - r.first + 1
            && records[0].writerEpoch <= records[|records| - 1].writerEpoch
            && (forall i :: 0 <= i < |records| ==> records[i].lsn == r.first + i)
  {
    var s := objects[r.key];
    SegmentShape(s, r, c.stream);
    EpochsRise(c.stream, s.records, r.first, 0, |s.records| - 1);
  }

  /** A chain good for a high epoch floor is good for a lower one. */
  lemma ChainLower(c: Config, objects: Objects, refs: seq<SegmentRef>, expected: nat, epoch: nat, lower: nat)
    requires Chain(c, objects, refs, expected, epoch) && lower <= epoch
    ensures Chain(c, objects, refs, expected, lower)
  {
  }

  // ------------------------------------------------------------- any published head

  /** What a full `recover` establishes about the head it was given. */
  predicate Sound(c: Config, objects: Objects, h: Head) {
    && Chain(c, objects, h.segments, 1, 0)
    && h.archived + 1 == ChainEnd(h.segments, 1)
    && (0 < h.archived ==> h.writerEpoch == ChainEpoch(objects, h.segments, 0))
  }

  /** No segment ends on the last representable LSN. */
  predicate Bounded(h: Head) {
    forall i :: 0 <= i < |h.segments| ==> h.segments[i].last < U64_MAX
  }

  lemma {:induction false} WalkedIsChain(c: Config, objects: Objects, refs: seq<SegmentRef>, w: Walk)
    requires RecoverFrom(c, objects, refs, w, 0).Ok?
    requires 1 <= w.expected && forall i :: 0 <= i < |refs| ==> refs[i].last < U64_MAX
    ensures Chain(c, objects, refs, w.expected, w.epoch)
    decreases |refs|
  {
    hide SegmentOk, Above;
    if refs != [] {
      FetchedNonEmpty(c, objects, refs[0]);
      var records := objects[refs[0].key].records;
      WalkedIsChain(c, objects, refs[1..],
                    Walk(w.records + Above(records, 0), SatAdd(refs[0].last, 1),
                         records[|records| - 1].writerEpoch));
    }
  }

  /** A head's chain is good to the end exactly when a full `recover` succeeds and no segment ends on
      the last representable LSN. */
  lemma RecoverIffSound(c: Config, objects: Objects, h: Head)
    ensures Recover(c, objects, h, 0).Ok? && Bounded(h) <==> Sound(c, objects, h)
    ensures Sound(c, objects, h) ==> Recover(c, objects, h, 0).value == Contents(objects, h.segments)
  {
    if Bounded(h) && RecoverFrom(c, objects, h.segments, Walk([], 1, 0), 0).Ok? {
      WalkedIsChain(c, objects, h.segments, Walk([], 1, 0));
    }
    if Chain(c, objects, h.segments, 1, 0) {
      RecoverWalk(c, objects, h.segments, Walk([], 1, 0), 0);
      TailAlong(c, objects, h.segments, Walk([], 1, 0), 0);
      forall i | 0 <= i < |h.segments| ensures h.segments[i].last < U64_MAX {
        ChainNamesObjects(c, objects, h.segments, 1, 0, i);
      }
      if h.segments != [] {
        ChainNamesObjects(c, objects, h.segments, 1, 0, |h.segments| - 1);
        TailWalk(c, objects, h.segments, 1, 0, 0);
      }
    }
  }

  lemma {:induction false} AboveZero(records: seq<Record>)
    requires forall i :: 0 <= i < |records| ==> 0 < records[i].lsn
    ensures Above(records, 0) == records
  {
    if records != [] {
      AboveZero(records[1..]);
    }
  }

  lemma FetchedPositive(c: Config, objects: Objects, r: SegmentRef)
    requires Fetch(c, objects, r).Ok? && 1 <= r.first
    ensures var records := objects[r.key].records;
            && records != [] && records[|records| - 1].lsn == r.last
            && forall i :: 0 <= i < |records| ==> 0 < records[i].lsn
  {
  }

  lemma {:induction false} WalkEndsOnLast(c: Config, objects: Objects, refs: seq<SegmentRef>, w: Walk)
    requires RecoverFrom(c, objects, refs, w, 0).Ok? && refs != [] && 1 <= w.expected
    ensures var end := RecoverFrom(c, objects, refs, w, 0).value;
            && end.records != []
            && end.records[|end.records| - 1].lsn == refs[|refs| - 1].last
            && end.records[|end.records| - 1].writerEpoch == end.epoch
            && end.expected == SatAdd(refs[|refs| - 1].last, 1)
    decreases |refs|
  {
    hide SegmentOk, Above;
    FetchedPositive(c, objects, refs[0]);
    var records := objects[refs[0].key].records;
    AboveZero(records);
    if refs[1..] != [] {
      WalkEndsOnLast(c, objects, refs[1..],
                     Walk(w.records + Above(records, 0), SatAdd(refs[0].last, 1),
                          records[|records| - 1].writerEpoch));
    }
  }

  // ------------------------------------------------------------ from a watermark

  lemma {:induction false} AboveConcat(a: seq<Record>, b: seq<Record>, after: u64)
    ensures Above(a + b, after) == Above(a, after) + Above(b, after)
  {
    if a == [] {
      assert a + b == b;
    } else {
      assert (a + b)[1..] == a[1..] + b;
      AboveConcat(a[1..], b, after);
    }
  }

  lemma {:induction false} AboveNone(records: seq<Record>, after: u64)
    requires forall i :: 0 <= i < |records| ==> records[i].lsn <= after
    ensures Above(records, after) == []
  {
    if records != [] {
      AboveNone(records[1..], after);
    }
  }

  lemma FetchedRange(c: Config, objects: Objects, r: SegmentRef)
    requires Fetch(c, objects, r).Ok? && 1 <= r.first
    ensures var records := objects[r.key].records;
            && (forall i :: 0 <= i < |records| ==> 0 < records[i].lsn <= r.last)
            && records != [] && records[0].writerEpoch <= records[|records| - 1].writerEpoch
  {
    var records := objects[r.key].records;
    EpochsRise(c.stream, records, r.first, 0, |records| - 1);
  }

  /** A walk that skips what a watermark covers keeps pace with the full walk. */
  lemma {:induction false} WatermarkWalk(
    c: Config, objects: Objects, refs: seq<SegmentRef>, w: Walk, v: Walk, after: u64)
    requires RecoverFrom(c, objects, refs, w, 0).Ok? && 1 <= w.expected
    requires v.expected == w.expected && v.epoch <= w.epoch && v.records == Above(w.records, after)
    ensures var all := RecoverFrom(c, objects, refs, w, 0).value;
            var some := RecoverFrom(c, objects, refs, v, after);
            && some.Ok? && some.value.expected == all.expected && some.value.records == Above(all.records, after)
            && (refs != [] && after < refs[|refs| - 1].last ==> some.value.epoch == all.epoch)
    decreases |refs|
  {
    hide SegmentOk, Above;
    if refs != [] {
      FetchedNonEmpty(c, objects, refs[0]);
      FetchedRange(c, objects, refs[0]);
      var records := objects[refs[0].key].records;
      AboveZero(records);
      AboveConcat(w.records, records, after);
      var next := Walk(w.records + records, SatAdd(refs[0].last, 1), records[|records| - 1].writerEpoch);
      if refs[0].last <= after {
        AboveNone(records, after);
        WatermarkWalk(c, objects, refs[1..], next, v.(expected := next.expected), after);
      } else {
        WatermarkWalk(c, objects, refs[1..], next, next.(records := v.records + Above(records, after)), after);
      }
    }
  }

  /** Recovering from a watermark gives exactly the records above it that recovering everything
      gives, for every head and every watermark. */
  lemma RecoverFromWatermark(c: Config, objects: Objects, h: Head, after: u64)
    requires Recover(c, objects, h, 0).Ok?
    ensures Recover(c, objects, h, after) == Ok(Above(Recover(c, objects, h, 0).value, after))
  {
    hide RecoverFrom, Above;
    assert Above([], after) == [] by { AboveNone([], after); }
    WatermarkWalk(c, objects, h.segments, Walk([], 1, 0), Walk([], 1, 0), after);
    if h.segments != [] {
      WalkEndsOnLast(c, objects, h.segments, Walk([], 1, 0));
    } else {
      assert RecoverFrom(c, objects, [], Walk([], 1, 0), 0) == Ok(Walk([], 1, 0)) by { NoWalk(c, objects, Walk([], 1, 0)); }
    }
  }

  lemma NoWalk(c: Config, objects: Objects, w: Walk)
    ensures RecoverFrom(c, objects, [], w, 0) == Ok(w)
  {
  }

  /** Records numbered on from 1, the number stopping at the last representable LSN. */
  predicate Numbered(records: seq<Record>) {
    forall k :: 0 <= k < |records| ==> records[k].lsn == Min(k + 1, U64_MAX)
  }

  lemma {:induction false} WalkNumbers(c: Config, objects: Objects, refs: seq<SegmentRef>, w: Walk)
    requires RecoverFrom(c, objects, refs, w, 0).Ok?
    requires Numbered(w.records) && w.expected == Min(|w.records| + 1, U64_MAX)
    ensures Numbered(RecoverFrom(c, objects, refs, w, 0).value.records)
    decreases |refs|
  {
    hide Above;
    if refs != [] {
      FetchedNonEmpty(c, objects, refs[0]);
      FetchedRange(c, objects, refs[0]);
      var records := objects[refs[0].key].records;
      AboveZero(records);
      WalkNumbers(c, objects, refs[1..],
                  Walk(w.records + records, SatAdd(refs[0].last, 1), records[|records| - 1].writerEpoch));
    }
  }

  /** Dropping as many records as the watermark says. */
  lemma NumberedAbove(records: seq<Record>, after: u64)
    requires Numbered(records)
    ensures after < U64_MAX || |records| <= U64_MAX ==> Above(records, after) == Tail(records, after)
    ensures after == U64_MAX ==> Above(records, after) == []
  {
    hide Above;
    var n := Min(|records|, after);
    var low, high := records[..n], records[n..];
    assert records == low + high;
    AboveConcat(low, high, after);
    assert forall i :: 0 <= i < |low| ==> low[i] == records[i] && low[i].lsn <= after;
    AboveNone(low, after);
    if after < U64_MAX {
      assert forall i :: 0 <= i < |high| ==> high[i] == records[n + i] && after < high[i].lsn;
      AboveEvery(high, after);
    } else {
      AboveNone(records, after);
    }
  }

  lemma {:induction false} AboveEvery(records: seq<Record>, after: u64)
    requires forall i :: 0 <= i < |records| ==> after < records[i].lsn
    ensures Above(records, after) == records
  {
    if records != [] {
      AboveEvery(records[1..], after);
    }
  }

  /** The watermark is also the number of records to drop, at every watermark, exactly when no LSN is
      taken twice: when there are no more records than LSNs. */
  lemma WatermarkCountsIff(c: Config, objects: Objects, h: Head)
    requires Recover(c, objects, h, 0).Ok?
    ensures var all := Recover(c, objects, h, 0).value;
            (forall after: u64 :: Recover(c, objects, h, after) == Ok(Tail(all, after))) <==> |all| <= U64_MAX
  {
    hide RecoverFrom, Above, Recover, Tail;
    var all := Recover(c, objects, h, 0).value;
    RecoverNumbers(c, objects, h);
    forall after: u64 ensures after < U64_MAX || |all| <= U64_MAX ==> Recover(c, objects, h, after) == Ok(Tail(all, after)) {
      RecoverFromWatermark(c, objects, h, after);
      NumberedAbove(all, after);
    }
    if U64_MAX < |all| {
      RecoverFromWatermark(c, objects, h, U64_MAX);
      NumberedAbove(all, U64_MAX);
      assert Tail(all, U64_MAX) != [] by { TailSome(all, U64_MAX); }
    }
  }

  lemma RecoverNumbers(c: Config, objects: Objects, h: Head)
    requires Recover(c, objects, h, 0).Ok?
    ensures Numbered(Recover(c, objects, h, 0).value)
  {
    WalkNumbers(c, objects, h.segments, Walk([], 1, 0));
  }

  lemma TailSome(records: seq<Record>, n: nat)
    requires n < |records|
    ensures Tail(records, n) != []
  {
  }

  /** From every watermark below the archived one, `archived_tail` names the last record. */
  predicate TailAgrees(c: Config, objects: Objects, h: Head, last: Record) {
    forall after: u64 | after < h.archived ::
      ArchivedTail(c, objects, h, after) == Ok(Some((last.lsn, last.writerEpoch)))
  }

  /** `archived_tail` names the last record a full `recover` returns, unless that record sits on
      the last representable LSN. */
  lemma TailIsLastRecord(c: Config, objects: Objects, h: Head)
    requires Recover(c, objects, h, 0).Ok? && h.segments != []
    ensures var all := Recover(c, objects, h, 0).value;
            && all != []
            && (h.segments[|h.segments| - 1].last < U64_MAX <==>
                TailAgrees(c, objects, h, all[|all| - 1]))
  {
    hide RecoverFrom, TailFrom, Fetch, Chain, ChainEpoch;
    WalkEndsOnLast(c, objects, h.segments, Walk([], 1, 0));
    TailAlong(c, objects, h.segments, Walk([], 1, 0), 0);
    var all := Recover(c, objects, h, 0).value;
    var last := all[|all| - 1];
    if h.segments[|h.segments| - 1].last < U64_MAX {
      LastBoundsAll(c, objects, h.segments, Walk([], 1, 0));
      RecoverIffSound(c, objects, h);
      forall after: u64 | after < h.archived
        ensures ArchivedTail(c, objects, h, after) == Ok(Some((last.lsn, last.writerEpoch)))
      {
        TailWalk(c, objects, h.segments, 1, 0, after);
      }
    } else {
      var tail := ArchivedTail(c, objects, h, 0);
      assert h.archived == U64_MAX - 1 && last.lsn == U64_MAX;
      assert tail != Ok(Some((last.lsn, last.writerEpoch)));
    }
  }

  lemma {:induction false} LastBoundsAll(c: Config, objects: Objects, refs: seq<SegmentRef>, w: Walk)
    requires RecoverFrom(c, objects, refs, w, 0).Ok? && refs != [] && 1 <= w.expected
    requires refs[|refs| - 1].last < U64_MAX
    ensures w.expected <= refs[|refs| - 1].last
    ensures forall i :: 0 <= i < |refs| ==> refs[i].last < U64_MAX
    decreases |refs|
  {
    hide SegmentOk, Above;
    FetchedPositive(c, objects, refs[0]);
    var records := objects[refs[0].key].records;
    if refs[1..] != [] {
      LastBoundsAll(c, objects, refs[1..],
                    Walk(w.records + Above(records, 0), SatAdd(refs[0].last, 1),
                         records[|records| - 1].writerEpoch));
    }
  }
}
