/** The opaque archive of one stream: a conditional head that names immutable segments. */
module Archive {
  import opened Base

  const HEAD_UPDATE_ATTEMPTS := 8

  datatype Record = Record(stream: string, writerEpoch: u64, lsn: u64, committedLsn: u64, sealed: seq<bv8>)

  datatype Segment = Segment(stream: string, first: u64, last: u64, records: seq<Record>)

  /** An object key: the stream whose namespace it lies in, and its name there. */
  datatype Key = Key(space: string, first: u64, last: u64, digest: string)

  datatype SegmentRef = SegmentRef(first: u64, last: u64, key: Key, digest: string)

  datatype Head = Head(stream: string, archived: u64, writerEpoch: u64, segments: seq<SegmentRef>)

  type Objects = map<Key, Segment>

  datatype ArchiveError = ObjectStore | Contiguity | Checksum | Contended

  datatype Result<+T> = Ok(value: T) | Err(error: ArchiveError)

  /** The digest of a segment's encoded bytes, and the configured batch bound. */
  datatype Config = Config(stream: string, digest: Segment -> string, maxRecords: nat)

  function EmptyHead(c: Config): Head { Head(c.stream, 0, 0, []) }

  // ------------------------------------------------------------ one segment

  /** The records run on from `first`, one LSN at a time, with epochs that never fall. */
  predicate RunsFrom(stream: string, records: seq<Record>, first: u64) {
    && (forall i :: 0 <= i < |records| ==>
          && records[i].stream == stream
          && records[i].lsn == SatAdd(first, i)
          && records[i].committedLsn == SatSub(SatAdd(first, i), 1))
    && (forall i, j | 0 <= i < |records| && 0 <= j < |records| && j == i + 1 ::
          records[i].writerEpoch <= records[j].writerEpoch)
  }

  predicate SegmentOk(s: Segment, r: SegmentRef, stream: string) {
    && s.stream == stream && s.first == r.first && s.last == r.last
    && s.records != []
    && s.records[0].lsn == r.first && s.records[|s.records| - 1].lsn == r.last
    && RunsFrom(stream, s.records, r.first)
  }

  /** `verify_segment`. */
  method VerifySegment(s: Segment, r: SegmentRef, stream: string) returns (ok: bool)
    ensures ok <==> SegmentOk(s, r, stream)
  {
    if s.stream != stream || s.first != r.first || s.last != r.last || s.records == []
       || s.records[0].lsn != r.first || s.records[|s.records| - 1].lsn != r.last {
      return false;
    }
    var expected := r.first;
    var epoch := 0;
    var i := 0;
    while i < |s.records|
      invariant 0 <= i <= |s.records|
      invariant expected == SatAdd(r.first, i)
      invariant RunsFrom(stream, s.records[..i], r.first)
      invariant epoch == if i == 0 then 0 else s.records[i - 1].writerEpoch
    {
      var record := s.records[i];
      assert s.records[..i + 1][i] == record;
      if record.stream != stream || record.lsn != expected
         || record.committedLsn != SatSub(expected, 1) || record.writerEpoch < epoch {
        return false;
      }
      assert s.records[..i + 1] == s.records[..i] + [record];
      epoch := record.writerEpoch;
      expected := SatAdd(expected, 1);
      i := i + 1;
    }
    assert s.records[..i] == s.records;
    return true;
  }

  /** A referenced object, read, matched against its published digest and verified. */
  function Fetch(c: Config, objects: Objects, r: SegmentRef): Result<Segment> {
    if r.key !in objects then Err(ObjectStore)
    else if c.digest(objects[r.key]) != r.digest then Err(Checksum)
    else if !SegmentOk(objects[r.key], r, c.stream) then Err(Contiguity)
    else Ok(objects[r.key])
  }

  method FetchSegment(c: Config, objects: Objects, r: SegmentRef) returns (segment: Result<Segment>)
    ensures segment == Fetch(c, objects, r)
  {
    if r.key !in objects {
      return Err(ObjectStore);
    }
    if c.digest(objects[r.key]) != r.digest {
      return Err(Checksum);
    }
    var ok := VerifySegment(objects[r.key], r, c.stream);
    return if ok then Ok(objects[r.key]) else Err(Contiguity);
  }

  // --------------------------------------------------------------- the chain

  /** What `refs` hold from LSN `expected` on is complete: contiguous references to objects that
      exist, match their digests and verify, with epochs that never fall below `epoch`. */
  predicate Chain(c: Config, objects: Objects, refs: seq<SegmentRef>, expected: nat, epoch: nat)
    decreases |refs|
  {
    refs == [] ||
    (&& refs[0].first == expected && refs[0].first <= refs[0].last < U64_MAX
     && Fetch(c, objects, refs[0]).Ok?
     && var records := objects[refs[0].key].records;
     && epoch <= records[0].writerEpoch
     && Chain(c, objects, refs[1..], refs[0].last + 1, records[|records| - 1].writerEpoch))
  }

  /** One past the last LSN of the chain. */
  function ChainEnd(refs: seq<SegmentRef>, expected: nat): nat {
    if refs == [] then expected else refs[|refs| - 1].last + 1
  }

  function ChainEpoch(objects: Objects, refs: seq<SegmentRef>, epoch: nat): nat {
    if refs == [] || refs[|refs| - 1].key !in objects || objects[refs[|refs| - 1].key].records == [] then epoch
    else
      var records := objects[refs[|refs| - 1].key].records;
      records[|records| - 1].writerEpoch
  }

  /** Everything the chain archives, in order. */
  function Contents(objects: Objects, refs: seq<SegmentRef>): seq<Record>
    decreases |refs|
  {
    if refs == [] then []
    else (if refs[0].key in objects then objects[refs[0].key].records else []) + Contents(objects, refs[1..])
  }

  /** A head every reader can rely on. */
  predicate HeadOk(c: Config, objects: Objects, h: Head) {
    && h.stream == c.stream
    && Chain(c, objects, h.segments, 1, 0)
    && h.archived + 1 == ChainEnd(h.segments, 1)
    && h.writerEpoch == ChainEpoch(objects, h.segments, 0)
  }

  // ---------------------------------------------------------------- recovery

  datatype Walk = Walk(records: seq<Record>, expected: u64, epoch: u64)

  /** The loop of `recover` over the references that are left. */
  function RecoverFrom(c: Config, objects: Objects, refs: seq<SegmentRef>, w: Walk, after: u64): Result<Walk>
    decreases |refs|
  {
    if refs == [] then Ok(w)
    else
      var r := refs[0];
      if r.first != w.expected || r.last < r.first then Err(Contiguity)
      else if r.last <= after then RecoverFrom(c, objects, refs[1..], w.(expected := SatAdd(r.last, 1)), after)
      else
        match Fetch(c, objects, r)
        case Err(e) => Err(e)
        case Ok(segment) =>
          if segment.records[0].writerEpoch < w.epoch then Err(Contiguity)
          else
            RecoverFrom(c, objects, refs[1..],
                        Walk(w.records + Above(segment.records, after), SatAdd(r.last, 1),
                             segment.records[|segment.records| - 1].writerEpoch), after)
  }

  /** The records past a watermark. */
  function Above(records: seq<Record>, after: u64): seq<Record> {
    if records == [] then []
    else (if records[0].lsn > after then [records[0]] else []) + Above(records[1..], after)
  }

  function Recover(c: Config, objects: Objects, h: Head, after: u64): Result<seq<Record>> {
    match RecoverFrom(c, objects, h.segments, Walk([], 1, 0), after)
    case Err(e) => Err(e)
    case Ok(w) =>
      if h.archived != SatSub(w.expected, 1) then Err(Contiguity)
      else if after < h.archived && h.writerEpoch != w.epoch then Err(Contiguity)
      else Ok(w.records)
  }

  /** The filter at the end of each turn of `recover`. */
  method RecordsAbove(records: seq<Record>, after: u64) returns (kept: seq<Record>)
    ensures kept == Above(records, after)
  {
    kept := [];
    var i := 0;
    while i < |records|
      invariant 0 <= i <= |records|
      invariant kept + Above(records[i..], after) == Above(records, after)
    {
      assert records[i..][1..] == records[i + 1..];
      if records[i].lsn > after {
        kept := kept + [records[i]];
      }
      i := i + 1;
    }
  }

  /** `recover`. */
  method RecoverRecords(c: Config, objects: Objects, h: Head, after: u64) returns (result: Result<seq<Record>>)
    ensures result == Recover(c, objects, h, after)
  {
    var expected: u64 := 1;
    var epoch: u64 := 0;
    var recovered: seq<Record> := [];
    var i := 0;
    while i < |h.segments|
      invariant 0 <= i <= |h.segments|
      invariant RecoverFrom(c, objects, h.segments, Walk([], 1, 0), after)
                == RecoverFrom(c, objects, h.segments[i..], Walk(recovered, expected, epoch), after)
    {
      var r := h.segments[i];
      assert h.segments[i..][0] == r && h.segments[i..][1..] == h.segments[i + 1..];
      if r.first != expected || r.last < r.first {
        return Err(Contiguity);
      }
      if r.last > after {
        var fetched := FetchSegment(c, objects, r);
        if fetched.Err? {
          return Err(fetched.error);
        }
        var records := fetched.value.records;
        if records[0].writerEpoch < epoch {
          return Err(Contiguity);
        }
        epoch := records[|records| - 1].writerEpoch;
        var kept := RecordsAbove(records, after);
        recovered := recovered + kept;
      }
      expected := SatAdd(r.last, 1);
      i := i + 1;
    }
    if h.archived != SatSub(expected, 1) {
      return Err(Contiguity);
    }
    if after < h.archived && h.writerEpoch != epoch {
      return Err(Contiguity);
    }
    return Ok(recovered);
  }

  /** `archived_tail`: the watermark and its epoch, from the segments above `after` alone. */
  function TailFrom(c: Config, objects: Objects, refs: seq<SegmentRef>, expected: u64, epoch: u64, after: u64)
    : Result<(u64, u64)>
    decreases |refs|
  {
    if refs == [] then Ok((expected, epoch))
    else
      var r := refs[0];
      if r.first != expected || r.last < r.first then Err(Contiguity)
      else if r.last <= after then TailFrom(c, objects, refs[1..], SatAdd(r.last, 1), epoch, after)
      else
        match Fetch(c, objects, r)
        case Err(e) => Err(e)
        case Ok(segment) =>
          if segment.records[0].writerEpoch < epoch then Err(Contiguity)
          else TailFrom(c, objects, refs[1..], SatAdd(r.last, 1),
                        segment.records[|segment.records| - 1].writerEpoch, after)
  }

  function ArchivedTail(c: Config, objects: Objects, h: Head, after: u64): Result<Option<(u64, u64)>> {
    if h.archived < after then Err(Contiguity)
    else if h.archived == after then Ok(None)
    else
      match TailFrom(c, objects, h.segments, 1, 0, after)
      case Err(e) => Err(e)
      case Ok((expected, epoch)) =>
        if h.archived != SatSub(expected, 1) || epoch != h.writerEpoch then Err(Contiguity)
        else Ok(Some((h.archived, h.writerEpoch)))
  }

  method ArchivedTailOf(c: Config, objects: Objects, h: Head, after: u64) returns (result: Result<Option<(u64, u64)>>)
    ensures result == ArchivedTail(c, objects, h, after)
  {
    if h.archived < after {
      return Err(Contiguity);
    }
    if h.archived == after {
      return Ok(None);
    }
    var expected: u64 := 1;
    var epoch: u64 := 0;
    var i := 0;
    while i < |h.segments|
      invariant 0 <= i <= |h.segments|
      invariant TailFrom(c, objects, h.segments, 1, 0, after)
                == TailFrom(c, objects, h.segments[i..], expected, epoch, after)
    {
      var r := h.segments[i];
      assert h.segments[i..][0] == r && h.segments[i..][1..] == h.segments[i + 1..];
      if r.first != expected || r.last < r.first {
        return Err(Contiguity);
      }
      if r.last > after {
        var fetched := FetchSegment(c, objects, r);
        if fetched.Err? {
          return Err(fetched.error);
        }
        var records := fetched.value.records;
        if records[0].writerEpoch < epoch {
          return Err(Contiguity);
        }
        epoch := records[|records| - 1].writerEpoch;
      }
      expected := SatAdd(r.last, 1);
      i := i + 1;
    }
    if h.archived != SatSub(expected, 1) || epoch != h.writerEpoch {
      return Err(Contiguity);
    }
    return Ok(Some((h.archived, h.writerEpoch)));
  }

  // --------------------------------------------------------- range verification

  predicate IsHexDigest(d: string) {
    && |d| == 64
    && forall i :: 0 <= i < |d| ==> '0' <= d[i] <= '9' || 'a' <= d[i] <= 'f' || 'A' <= d[i] <= 'F'
  }

  /** The reference loop of `validate_head_chain`: the LSN after the last segment. */
  function CheckRefs(c: Config, refs: seq<SegmentRef>, expected: u64): Result<u64>
    decreases |refs|
  {
    if refs == [] then Ok(expected)
    else if refs[0].first != expected || refs[0].last < refs[0].first then Err(Contiguity)
    else if refs[0].key.space != c.stream || !IsHexDigest(refs[0].digest) then Err(Checksum)
    else if refs[0].last == U64_MAX then Err(Contiguity)
    else CheckRefs(c, refs[1..], refs[0].last + 1)
  }

  function HeadChainError(c: Config, h: Head): Option<ArchiveError> {
    if h.stream != c.stream then Some(Checksum)
    else
      match CheckRefs(c, h.segments, 1)
      case Err(e) => Some(e)
      case Ok(expected) =>
        if h.archived != SatSub(expected, 1) then Some(Contiguity)
        else if h.archived == 0 && h.writerEpoch != 0 then Some(Contiguity)
        else None
  }

  /** `validate_head_chain`. */
  method ValidateHeadChain(c: Config, h: Head) returns (error: Option<ArchiveError>)
    ensures error == HeadChainError(c, h)
  {
    if h.stream != c.stream {
      return Some(Checksum);
    }
    var expected: u64 := 1;
    var i := 0;
    while i < |h.segments|
      invariant 0 <= i <= |h.segments|
      invariant CheckRefs(c, h.segments, 1) == CheckRefs(c, h.segments[i..], expected)
    {
      var r := h.segments[i];
      assert h.segments[i..][0] == r && h.segments[i..][1..] == h.segments[i + 1..];
      if r.first != expected || r.last < r.first {
        return Some(Contiguity);
      }
      if r.key.space != c.stream || !IsHexDigest(r.digest) {
        return Some(Checksum);
      }
      if r.last == U64_MAX {
        return Some(Contiguity);
      }
      expected := r.last + 1;
      i := i + 1;
    }
    if h.archived != SatSub(expected, 1) || (h.archived == 0 && h.writerEpoch != 0) {
      return Some(Contiguity);
    }
    return None;
  }

  /** How far a range verification has come. */
  datatype Scan = Scan(expected: u64, epoch: Option<u64>, complete: bool)

  function ScanRecords(records: seq<Record>, start: u64, end: u64, s: Scan): Result<Scan> {
    if records == [] then Ok(s)
    else if records[0].lsn < start then ScanRecords(records[1..], start, end, s)
    else if records[0].lsn > end then Ok(s)
    else if records[0].lsn != s.expected then Err(Contiguity)
    else if s.epoch.Some? && records[0].writerEpoch < s.epoch.value then Err(Contiguity)
    else if records[0].lsn == end then Ok(Scan(s.expected, Some(records[0].writerEpoch), true))
    else
      ScanRecords(records[1..], start, end,
                  Scan(SatAdd(records[0].lsn, 1), Some(records[0].writerEpoch), s.complete))
  }

  predicate Overlaps(r: SegmentRef, start: u64, end: u64) {
    start <= r.last && r.first <= end
  }

  function ScanRefs(c: Config, objects: Objects, refs: seq<SegmentRef>, start: u64, end: u64, s: Scan): Result<Scan>
    decreases |refs|
  {
    if refs == [] || s.complete then Ok(s)
    else if !Overlaps(refs[0], start, end) then ScanRefs(c, objects, refs[1..], start, end, s)
    else
      match Fetch(c, objects, refs[0])
      case Err(e) => Err(e)
      case Ok(segment) =>
        match ScanRecords(segment.records, start, end, s)
        case Err(e) => Err(e)
        case Ok(next) => ScanRefs(c, objects, refs[1..], start, end, next)
  }

  function VerifyRange(c: Config, objects: Objects, h: Head, start: u64, end: u64): Option<ArchiveError> {
    if c.stream == "" || start == 0 || start > end then Some(Contiguity)
    else if HeadChainError(c, h).Some? then HeadChainError(c, h)
    else if end > h.archived then Some(Contiguity)
    else
      match ScanRefs(c, objects, h.segments, start, end, Scan(start, None, false))
      case Err(e) => Some(e)
      case Ok(s) =>
        if !s.complete then Some(Contiguity)
        else if end == h.archived && s.epoch != Some(h.writerEpoch) then Some(Contiguity)
        else None
  }

  /** The record loop of `verify_range`, with its three ways out. */
  method ScanSegment(records: seq<Record>, start: u64, end: u64, s: Scan) returns (result: Result<Scan>)
    ensures result == ScanRecords(records, start, end, s)
  {
    var expected, epoch := s.expected, s.epoch;
    var i := 0;
    while i < |records|
      invariant 0 <= i <= |records|
      invariant ScanRecords(records, start, end, s)
                == ScanRecords(records[i..], start, end, Scan(expected, epoch, s.complete))
    {
      var record := records[i];
      assert records[i..][0] == record && records[i..][1..] == records[i + 1..];
      i := i + 1;
      if record.lsn < start {
        continue;
      }
      if record.lsn > end {
        return Ok(Scan(expected, epoch, s.complete));
      }
      if record.lsn != expected || (epoch.Some? && record.writerEpoch < epoch.value) {
        return Err(Contiguity);
      }
      epoch := Some(record.writerEpoch);
      if record.lsn == end {
        return Ok(Scan(expected, epoch, true));
      }
      expected := SatAdd(record.lsn, 1);
    }
    return Ok(Scan(expected, epoch, s.complete));
  }

  /** `verify_range`. */
  method VerifyArchivedRange(c: Config, objects: Objects, h: Head, start: u64, end: u64)
    returns (error: Option<ArchiveError>)
    ensures error == VerifyRange(c, objects, h, start, end)
  {
    if c.stream == "" || start == 0 || start > end {
      return Some(Contiguity);
    }
    error := ValidateHeadChain(c, h);
    if error.Some? {
      return;
    }
    if end > h.archived {
      return Some(Contiguity);
    }
    var scan := Scan(start, None, false);
    var i := 0;
    while i < |h.segments| && !scan.complete
      invariant 0 <= i <= |h.segments|
      invariant ScanRefs(c, objects, h.segments, start, end, Scan(start, None, false))
                == ScanRefs(c, objects, h.segments[i..], start, end, scan)
    {
      var r := h.segments[i];
      assert h.segments[i..][0] == r && h.segments[i..][1..] == h.segments[i + 1..];
      i := i + 1;
      if !Overlaps(r, start, end) {
        continue;
      }
      var fetched := FetchSegment(c, objects, r);
      if fetched.Err? {
        return Some(fetched.error);
      }
      var scanned := ScanSegment(fetched.value.records, start, end, scan);
      if scanned.Err? {
        return Some(scanned.error);
      }
      scan := scanned.value;
    }
    if !scan.complete || (end == h.archived && scan.epoch != Some(h.writerEpoch)) {
      return Some(Contiguity);
    }
    return None;
  }

  // --------------------------------------------------------------- publishing

  /** What one call must submit: one non-empty stream, contiguous, epochs that never fall. */
  predicate Submittable(records: seq<Record>) {
    && records != [] && records[0].stream != ""
    && (forall i :: 0 <= i < |records| ==> records[i].stream == records[0].stream)
    && (forall i, j | 0 <= i < |records| && 0 <= j < |records| && j == i + 1 ::
          && records[j].lsn == SatAdd(records[i].lsn, 1)
          && records[j].committedLsn == records[i].lsn
          && records[i].writerEpoch <= records[j].writerEpoch)
  }

  /** The records at or past `expected`. */
  function Remaining(records: seq<Record>, expected: u64): seq<Record> {
    if records == [] then []
    else (if records[0].lsn >= expected then [records[0]] else []) + Remaining(records[1..], expected)
  }

  datatype Decision = Covered(archived: u64) | Refuse | Publish(batch: seq<Record>)

  /** What a publisher that has just loaded `h` does next. */
  function Decide(c: Config, h: Head, records: seq<Record>): Decision {
    var expected := SatAdd(h.archived, 1);
    var remaining := Remaining(records, expected);
    if remaining == [] then Covered(h.archived)
    else if || remaining[0].lsn != expected || remaining[0].committedLsn != SatSub(expected, 1)
            || remaining[0].writerEpoch < h.writerEpoch then Refuse
    else Publish(remaining[..Min(|remaining|, c.maxRecords)])
  }

  function SegmentOf(c: Config, batch: seq<Record>): Segment
    requires batch != []
  {
    Segment(c.stream, batch[0].lsn, batch[|batch| - 1].lsn, batch)
  }

  function RefOf(c: Config, batch: seq<Record>): SegmentRef
    requires batch != []
  {
    var s := SegmentOf(c, batch);
    SegmentRef(s.first, s.last, Key(c.stream, s.first, s.last, c.digest(s)), c.digest(s))
  }

  /** `put_segment`: create, or accept the exact same bytes already there. */
  function PutSegment(c: Config, objects: Objects, batch: seq<Record>): Option<Objects>
    requires batch != []
  {
    var key := RefOf(c, batch).key;
    if key in objects then if objects[key] == SegmentOf(c, batch) then Some(objects) else None
    else Some(objects[key := SegmentOf(c, batch)])
  }

  /** The head that names one more segment. */
  function Extend(c: Config, h: Head, batch: seq<Record>): Head
    requires batch != []
  {
    Head(h.stream, batch[|batch| - 1].lsn, batch[|batch| - 1].writerEpoch, h.segments + [RefOf(c, batch)])
  }
}
