/** Which archives a full recovery takes, and why it refuses another: told from the objects alone. */
module ArchiveWhole {
  import opened Base
  import opened Archive
  import opened ArchiveTheorems

  /** The object a reference names is there, is the one that was published, and holds the whole range. */
  predicate Intact(c: Config, objects: Objects, r: SegmentRef) {
    && r.key in objects && c.digest(objects[r.key]) == r.digest
    && var s := objects[r.key];
    && s.stream == c.stream && (s.first, s.last) == (r.first, r.last) && r.last < U64_MAX
    && WholeRange(s.records, c.stream, r.first, r.last)
  }

  function FirstEpoch(objects: Objects, r: SegmentRef): nat {
    if r.key !in objects || objects[r.key].records == [] then 0 else objects[r.key].records[0].writerEpoch
  }

  function LastEpochOf(objects: Objects, r: SegmentRef): nat {
    if r.key !in objects || objects[r.key].records == [] then 0
    else objects[r.key].records[|objects[r.key].records| - 1].writerEpoch
  }

  /** Each reference takes up where the one before it ends. */
  predicate Follow(objects: Objects, before: SegmentRef, r: SegmentRef) {
    r.first == before.last + 1 && LastEpochOf(objects, before) <= FirstEpoch(objects, r)
  }

  predicate Linked(c: Config, objects: Objects, refs: seq<SegmentRef>, expected: nat, epoch: nat) {
    && (forall i :: 0 <= i < |refs| ==> Intact(c, objects, refs[i]))
    && (refs != [] ==> refs[0].first == expected && epoch <= FirstEpoch(objects, refs[0]))
    && (forall i, j | 0 <= i < |refs| && 0 <= j < |refs| && j == i + 1 :: Follow(objects, refs[i], refs[j]))
  }

  /** All that was ever archived is there: from LSN 1 to the watermark, under epochs that never fall. */
  predicate Whole(c: Config, objects: Objects, h: Head) {
    && Linked(c, objects, h.segments, 1, 0)
    && (h.segments == [] ==> h.archived == 0)
    && (h.segments != [] ==>
          h.archived == h.segments[|h.segments| - 1].last
          && (0 < h.archived ==> h.writerEpoch == LastEpochOf(objects, h.segments[|h.segments| - 1])))
  }

  lemma IntactIff(c: Config, objects: Objects, r: SegmentRef)
    ensures Intact(c, objects, r) <==> Fetch(c, objects, r).Ok? && r.last < U64_MAX
    ensures Intact(c, objects, r) ==> r.key in objects && r.first <= r.last && objects[r.key].records != []
  {
    hide SegmentOk;
    if r.key in objects && r.last < U64_MAX {
      SegmentOkIff(objects[r.key], r, c.stream);
    }
  }

  lemma {:induction false} ChainIff(c: Config, objects: Objects, refs: seq<SegmentRef>, expected: nat, epoch: nat)
    ensures Chain(c, objects, refs, expected, epoch) <==> Linked(c, objects, refs, expected, epoch)
    decreases |refs|
  {
    hide Fetch, Intact, WholeRange, Linked;
    if refs == [] {
      assert Linked(c, objects, refs, expected, epoch) by { NothingLinked(c, objects, expected, epoch); }
    } else {
      IntactIff(c, objects, refs[0]);
      ChainIff(c, objects, refs[1..], refs[0].last + 1, LastEpochOf(objects, refs[0]));
      LinkedShorter(c, objects, refs, expected, epoch);
    }
  }

  lemma NothingLinked(c: Config, objects: Objects, expected: nat, epoch: nat)
    ensures Linked(c, objects, [], expected, epoch)
  {
  }

  lemma LinkedShorter(c: Config, objects: Objects, refs: seq<SegmentRef>, expected: nat, epoch: nat)
    requires refs != []
    ensures Linked(c, objects, refs, expected, epoch) <==>
            && Intact(c, objects, refs[0]) && refs[0].first == expected && epoch <= FirstEpoch(objects, refs[0])
            && Linked(c, objects, refs[1..], refs[0].last + 1, LastEpochOf(objects, refs[0]))
  {
    hide Intact, FirstEpoch, LastEpochOf;
    var rest := refs[1..];
    assert forall i :: 0 <= i < |rest| ==> rest[i] == refs[i + 1];
    if Intact(c, objects, refs[0]) && Linked(c, objects, rest, refs[0].last + 1, LastEpochOf(objects, refs[0])) {
      forall i | 0 <= i < |refs| ensures Intact(c, objects, refs[i]) {
        assert i == 0 || refs[i] == rest[i - 1];
      }
      forall i, j | 0 <= i < |refs| && 0 <= j < |refs| && j == i + 1 ensures Follow(objects, refs[i], refs[j]) {
        assert i == 0 || (refs[i] == rest[i - 1] && refs[j] == rest[i]);
      }
    }
  }

  /** A full recovery of a head whose segments end below the last LSN succeeds exactly when the whole
      archive is there, and then returns all of it in order. */
  lemma RecoverIffWhole(c: Config, objects: Objects, h: Head)
    ensures Recover(c, objects, h, 0).Ok? && Bounded(h) <==> Whole(c, objects, h)
    ensures Whole(c, objects, h) ==> Recover(c, objects, h, 0).value == Contents(objects, h.segments)
  {
    hide Recover, Chain, Linked, Bounded, Contents;
    RecoverIffSound(c, objects, h);
    ChainIff(c, objects, h.segments, 1, 0);
    if h.segments != [] && Linked(c, objects, h.segments, 1, 0) {
      LastIntact(c, objects, h.segments, 1, 0);
    }
  }

  lemma LastIntact(c: Config, objects: Objects, refs: seq<SegmentRef>, expected: nat, epoch: nat)
    requires refs != [] && Linked(c, objects, refs, expected, epoch)
    ensures var r := refs[|refs| - 1]; r.key in objects && objects[r.key].records != []
  {
    IntactIff(c, objects, refs[|refs| - 1]);
  }

  /** With every segment in order, only the head's own watermark or epoch can be wrong. */
  lemma RecoverNamesWatermark(c: Config, objects: Objects, h: Head)
    requires Linked(c, objects, h.segments, 1, 0) && !Whole(c, objects, h)
    ensures Recover(c, objects, h, 0) == Err(Contiguity)
  {
    hide Linked, Chain, Whole, RecoverFrom, Contents;
    assert Bounded(h) by { LinkedBounded(c, objects, h); }
    RecoverIffWhole(c, objects, h);
    ChainIff(c, objects, h.segments, 1, 0);
    RecoverWalk(c, objects, h.segments, Walk([], 1, 0), 0);
  }

  /** The tail of a whole archive: nothing at its watermark, its watermark and epoch below it, and a
      caller that claims to be past it is refused. */
  lemma TailOfWhole(c: Config, objects: Objects, h: Head, after: u64)
    requires Whole(c, objects, h)
    ensures ArchivedTail(c, objects, h, after)
            == if h.archived < after then Err(Contiguity)
               else if h.archived == after then Ok(None)
               else Ok(Some((h.archived, h.writerEpoch)))
  {
    hide Linked, Chain, TailFrom, Intact;
    ChainIff(c, objects, h.segments, 1, 0);
    if after < h.archived {
      LastIntact(c, objects, h.segments, 1, 0);
      TailWalk(c, objects, h.segments, 1, 0, after);
    }
  }

  lemma LinkedBounded(c: Config, objects: Objects, h: Head)
    requires Linked(c, objects, h.segments, 1, 0)
    ensures Bounded(h)
  {
  }

  // ------------------------------------------------------------- what the head says

  predicate HexDigit(x: char) {
    x in "0123456789" || x in "abcdef" || x in "ABCDEF"
  }

  /** The reference is the stream's own, has a SHA-256 in hexadecimal, and a range below the last LSN. */
  predicate RefOk(c: Config, r: SegmentRef) {
    && r.first <= r.last < U64_MAX && r.key.space == c.stream
    && |r.digest| == 64 && forall i :: 0 <= i < |r.digest| ==> HexDigit(r.digest[i])
  }

  lemma HexIff(d: string)
    ensures IsHexDigest(d) <==> |d| == 64 && forall i :: 0 <= i < |d| ==> HexDigit(d[i])
  {
    if |d| == 64 {
      forall i | 0 <= i < |d|
        ensures HexDigit(d[i]) <==> '0' <= d[i] <= '9' || 'a' <= d[i] <= 'f' || 'A' <= d[i] <= 'F'
      {
        HexChar(d[i]);
      }
    }
  }

  lemma HexChar(x: char)
    ensures HexDigit(x) <==> '0' <= x <= '9' || 'a' <= x <= 'f' || 'A' <= x <= 'F'
  {
    if '0' <= x <= '9' {
      assert "0123456789"[x as int - '0' as int] == x;
    } else if 'a' <= x <= 'f' {
      assert "abcdef"[x as int - 'a' as int] == x;
    } else if 'A' <= x <= 'F' {
      assert "ABCDEF"[x as int - 'A' as int] == x;
    }
  }

  predicate RefsFrom(c: Config, refs: seq<SegmentRef>, expected: nat) {
    && (forall i :: 0 <= i < |refs| ==> RefOk(c, refs[i]))
    && (refs != [] ==> refs[0].first == expected)
    && (forall i, j | 0 <= i < |refs| && 0 <= j < |refs| && j == i + 1 :: refs[j].first == refs[i].last + 1)
  }

  lemma {:induction false} CheckRefsIff(c: Config, refs: seq<SegmentRef>, expected: u64)
    ensures CheckRefs(c, refs, expected).Ok? <==> RefsFrom(c, refs, expected)
    ensures CheckRefs(c, refs, expected).Ok? ==> CheckRefs(c, refs, expected).value == ChainEnd(refs, expected)
    decreases |refs|
  {
    hide RefOk, IsHexDigest;
    if refs != [] {
      RefOkIff(c, refs[0]);
      var rest := refs[1..];
      assert forall i :: 0 <= i < |rest| ==> rest[i] == refs[i + 1];
      if refs[0].last < U64_MAX {
        CheckRefsIff(c, rest, refs[0].last + 1);
        if RefOk(c, refs[0]) && refs[0].first == expected && RefsFrom(c, rest, refs[0].last + 1) {
          assert forall i :: 0 <= i < |refs| ==> i == 0 || refs[i] == rest[i - 1];
        }
      }
    }
  }

  lemma RefOkIff(c: Config, r: SegmentRef)
    ensures RefOk(c, r) <==> r.first <= r.last && r.key.space == c.stream && IsHexDigest(r.digest) && r.last != U64_MAX
  {
    hide IsHexDigest;
    HexIff(r.digest);
  }

  /** A head passes the check of its references exactly when it is the stream's, they are well named and
      cover every LSN from 1 to its watermark, and an empty archive has no epoch. */
  lemma HeadChecksIff(c: Config, h: Head)
    ensures HeadChainError(c, h).None? <==>
            && h.stream == c.stream && RefsFrom(c, h.segments, 1)
            && h.archived == (if h.segments == [] then 0 else h.segments[|h.segments| - 1].last)
            && (h.archived == 0 ==> h.writerEpoch == 0)
  {
    hide CheckRefs, RefsFrom;
    CheckRefsIff(c, h.segments, 1);
  }

  // ------------------------------------------------------------ the first fault

  /** Why a recovery past `after` stops at a reference, first reason first. */
  function StopsAt(c: Config, objects: Objects, r: SegmentRef, expected: nat, epoch: nat, after: u64): Option<ArchiveError> {
    if r.first != expected || r.last < r.first then Some(Contiguity)
    else if r.last <= after then None
    else if r.key !in objects then Some(ObjectStore)
    else if c.digest(objects[r.key]) != r.digest then Some(Checksum)
    else if !Intact(c, objects, r) || FirstEpoch(objects, r) < epoch then Some(Contiguity)
    else None
  }

  /** The epoch a recovery past `after` has seen before reference `k`. */
  function Seen(objects: Objects, refs: seq<SegmentRef>, k: nat, epoch: nat, after: u64): nat
    requires k <= |refs|
  {
    if k == 0 || refs[k - 1].last <= after then epoch else LastEpochOf(objects, refs[k - 1])
  }

  lemma {:induction false} WalkToFault(c: Config, objects: Objects, refs: seq<SegmentRef>, w: Walk, after: u64, k: nat)
    requires k < |refs| && Chain(c, objects, refs[..k], w.expected, w.epoch) && refs[k].last < U64_MAX
    requires var e := Seen(objects, refs, k, w.epoch, after);
             StopsAt(c, objects, refs[k], ChainEnd(refs[..k], w.expected), e, after).Some?
    ensures var e := Seen(objects, refs, k, w.epoch, after);
            RecoverFrom(c, objects, refs, w, after)
            == Err(StopsAt(c, objects, refs[k], ChainEnd(refs[..k], w.expected), e, after).value)
    decreases k
  {
    hide SegmentOk, Intact, WholeRange, Above;
    IntactIff(c, objects, refs[0]);
    if k > 0 {
      var r := refs[0];
      assert refs[..k][1..] == refs[1..][..k - 1] && refs[..k][0] == r;
      var records := objects[r.key].records;
      RecordsRise(c, objects, r);
      ChainLower(c, objects, refs[1..][..k - 1], r.last + 1, records[|records| - 1].writerEpoch, w.epoch);
      EndLater(refs, k, w.expected);
      LastsRise(c, objects, refs[..k], w.expected, w.epoch);
      assert refs[..k][k - 1] == refs[k - 1] && refs[1..][k - 1] == refs[k];
      assert k > 1 ==> refs[1..][k - 2] == refs[k - 1];
      if r.last <= after {
        WalkToFault(c, objects, refs[1..], w.(expected := r.last + 1), after, k - 1);
      } else {
        WalkToFault(c, objects, refs[1..], Walk(w.records + Above(records, after), r.last + 1,
                                                records[|records| - 1].writerEpoch), after, k - 1);
      }
    }
  }

  lemma {:induction false} LastsRise(c: Config, objects: Objects, refs: seq<SegmentRef>, expected: nat, epoch: nat)
    requires refs != [] && Chain(c, objects, refs, expected, epoch)
    ensures refs[0].last <= refs[|refs| - 1].last
    decreases |refs|
  {
    hide Fetch;
    if |refs| > 1 {
      FetchedNonEmpty(c, objects, refs[0]);
      var records := objects[refs[0].key].records;
      LastsRise(c, objects, refs[1..], refs[0].last + 1, records[|records| - 1].writerEpoch);
    }
  }

  lemma EndLater(refs: seq<SegmentRef>, k: nat, expected: nat)
    requires 0 < k < |refs|
    ensures ChainEnd(refs[..k], expected) == ChainEnd(refs[1..][..k - 1], refs[0].last + 1)
  {
    assert refs[..k][|refs[..k]| - 1] == refs[k - 1];
    if k > 1 {
      assert refs[1..][..k - 1][k - 2] == refs[k - 1];
    }
  }

  /** A recovery stops at the first reference that does not follow on, or that it needs and whose
      object is missing, is not the one published, does not hold its range or falls back to an older
      epoch; and says which. */
  lemma RecoverNamesFault(c: Config, objects: Objects, h: Head, after: u64, k: nat)
    requires k < |h.segments| && Linked(c, objects, h.segments[..k], 1, 0) && h.segments[k].last < U64_MAX
    requires var e := Seen(objects, h.segments, k, 0, after);
             StopsAt(c, objects, h.segments[k], ChainEnd(h.segments[..k], 1), e, after).Some?
    ensures var e := Seen(objects, h.segments, k, 0, after);
            Recover(c, objects, h, after)
            == Err(StopsAt(c, objects, h.segments[k], ChainEnd(h.segments[..k], 1), e, after).value)
  {
    hide Chain, Linked, StopsAt, RecoverFrom;
    ChainIff(c, objects, h.segments[..k], 1, 0);
    WalkToFault(c, objects, h.segments, Walk([], 1, 0), after, k);
  }
}
