/** Retirement receipts: permission to destroy a cohort, drawn from one control head and the archive. */
module Retirement {
  import opened Base
  import opened ControlTypes
  import Archive
  import ArchiveTheorems
  import ArchiveRange
  import ArchiveProtocol
  import opened ArchivePublisher

  /** Every stream's archive, as each successive request finds it. */
  type World = nat -> (string -> ArchiveProtocol.Store)

  type Configs = string -> Archive.Config

  ghost predicate Configured(cfg: Configs) {
    forall s :: cfg(s).stream == s && 0 < cfg(s).maxRecords && ArchiveProtocol.HexDigests(cfg(s))
  }

  /** Between requests the archive only moves on, as any run of its publishers does. */
  ghost predicate Evolves(cfg: Configs, world: World) {
    forall i: nat, j: nat, s :: i <= j ==>
      && ArchiveProtocol.StoreOk(cfg(s), world(i)(s))
      && Later(cfg(s), world(i)(s), world(j)(s))
  }

  /** The archive as seen after the first `k` actions of each stream's publishers. */
  function WorldOf(cfg: Configs, runs: string -> seq<ArchiveProtocol.Action>): World {
    k => s => ArchiveProtocol.Exec(cfg(s), ArchiveProtocol.Initial(), runs(s)[..Min(k, |runs(s)|)]).store
  }

  /** Whatever the publishers of each stream do, the archive they leave only moves on. */
  lemma RunsEvolve(cfg: Configs, runs: string -> seq<ArchiveProtocol.Action>)
    requires Configured(cfg)
    ensures Evolves(cfg, WorldOf(cfg, runs))
  {
    hide ArchiveProtocol.StoreOk, ArchiveProtocol.Exec;
    var world := WorldOf(cfg, runs);
    forall i: nat, j: nat, s | i <= j
      ensures ArchiveProtocol.StoreOk(cfg(s), world(i)(s)) && Later(cfg(s), world(i)(s), world(j)(s))
    {
      var a, b := Min(i, |runs(s)|), Min(j, |runs(s)|);
      ArchiveProtocol.InvStore(cfg(s), runs(s)[..a]);
      ArchiveProtocol.InvStore(cfg(s), runs(s)[..b]);
      assert runs(s)[..b] == runs(s)[..a] + runs(s)[a..b];
      ArchiveProtocol.RunsGrow(cfg(s), runs(s)[..a], runs(s)[a..b]);
    }
  }

  datatype RetirementReceipt = RetirementReceipt(
    operationId: string, cohortId: u64, proof: map<string, (u64, u64)>, authorityEpoch: u64,
    revision: u64, metadataDigest: string)

  // ----------------------------------------------------- what the head must say

  predicate MembersRemoved(m: ControlMetadata, cohort: DurableCohort, id: u64) {
    forall i :: 0 <= i < |cohort.members| ==>
      && cohort.members[i] in m.members
      && m.members[cohort.members[i]].cohortId == id
      && m.members[cohort.members[i]].status == MemberStatus.Removed
  }

  predicate CompleteAndActive(m: ControlMetadata, cohort: DurableCohort) {
    && cohort.status == CohortStatus.Active
    && |cohort.members| == REPLICATION_FACTOR
    && forall i :: 0 <= i < |cohort.members| ==>
         && cohort.members[i] in m.members
         && m.members[cohort.members[i]].cohortId == cohort.id
         && m.members[cohort.members[i]].status == MemberStatus.Active
  }

  predicate IsSuccessor(m: ControlMetadata, cohort: DurableCohort, source: u64, receipt: u64) {
    cohort.id != source && (receipt == source || cohort.id == receipt) && CompleteAndActive(m, cohort)
  }

  predicate HasSuccessor(m: ControlMetadata, source: u64, receipt: u64) {
    exists c :: c in m.cohorts && IsSuccessor(m, m.cohorts[c], source, receipt)
  }

  predicate SealedRange(s: StreamSegment, members: seq<string>) {
    s.endLsn.Some? && s.memberIds == members && s.startLsn <= s.endLsn.value
  }

  /** Every range routed to the source cohort is sealed on exactly its members. */
  predicate Sealed(segments: seq<StreamSegment>, source: u64, members: seq<string>) {
    forall i :: 0 <= i < |segments| && segments[i].cohortId == source ==> SealedRange(segments[i], members)
  }

  predicate CohortRetired(m: ControlMetadata, source: u64) {
    && source in m.cohorts
    && m.cohorts[source].status == Retired
    && |m.cohorts[source].members| == REPLICATION_FACTOR
    && MembersRemoved(m, m.cohorts[source], source)
  }

  predicate Retirable(h: ControlHead, operation: string, source: u64, receipt: u64) {
    && !Blank(operation) && 2 <= h.authorityEpoch && operation in h.completed
    && CohortRetired(h.metadata, source)
    && HasSuccessor(h.metadata, source, receipt)
    && forall s :: s in h.metadata.manifest.streamSegments ==>
         Sealed(h.metadata.manifest.streamSegments[s], source, h.metadata.cohorts[source].members)
  }

  /** The highest LSN ever routed to the source cohort, if any was. */
  function RequiredPrefix(segments: seq<StreamSegment>, source: u64): (r: Option<u64>)
    ensures forall i :: 0 <= i < |segments| && segments[i].cohortId == source && segments[i].endLsn.Some? ==>
                          r.Some? && segments[i].endLsn.value <= r.value
    ensures r.Some? ==> exists i :: 0 <= i < |segments| && segments[i].cohortId == source && segments[i].endLsn == r
  {
    if segments == [] then None
    else
      var n := |segments| - 1;
      var before := RequiredPrefix(segments[..n], source);
      if segments[n].cohortId != source || segments[n].endLsn.None? then before
      else if before.None? then segments[n].endLsn
      else Some(Max(before.value, segments[n].endLsn.value))
  }

  /** The inner loop of `required_archive_prefixes`: one stream's ranges. */
  method PrefixOf(segments: seq<StreamSegment>, source: u64, members: seq<string>)
    returns (ok: bool, prefix: Option<u64>)
    ensures ok <==> Sealed(segments, source, members)
    ensures ok ==> prefix == RequiredPrefix(segments, source)
  {
    prefix := None;
    var i := 0;
    while i < |segments|
      invariant 0 <= i <= |segments|
      invariant Sealed(segments[..i], source, members)
      invariant prefix == RequiredPrefix(segments[..i], source)
    {
      assert segments[..i + 1][..i] == segments[..i];
      var s := segments[i];
      if s.cohortId == source {
        if s.endLsn.None? || s.memberIds != members || s.endLsn.value < s.startLsn {
          return false, None;
        }
        prefix := if prefix.None? then s.endLsn else Some(Max(prefix.value, s.endLsn.value));
      }
      i := i + 1;
    }
    assert segments[..i] == segments;
    ok := true;
  }

  /** `required_archive_prefixes`. */
  method RequiredArchivePrefixes(h: ControlHead, operation: string, source: u64, receipt: u64)
    returns (result: Option<map<string, u64>>)
    ensures result.Some? <==> Retirable(h, operation, source, receipt)
    ensures result.Some? ==>
              forall s :: s in h.metadata.manifest.streamSegments ==>
                var required := RequiredPrefix(h.metadata.manifest.streamSegments[s], source);
                (s in result.value <==> required.Some?) && (s in result.value ==> result.value[s] == required.value)
    ensures result.Some? ==> result.value.Keys <= h.metadata.manifest.streamSegments.Keys
  {
    if Blank(operation) || h.authorityEpoch < 2 || operation !in h.completed {
      return None;
    }
    var m := h.metadata;
    if !CohortRetired(m, source) || !HasSuccessor(m, source, receipt) {
      return None;
    }
    var members := m.cohorts[source].members;
    var ranges := m.manifest.streamSegments;
    var prefixes: map<string, u64> := map[];
    var left := ranges.Keys;
    while left != {}
      invariant left <= ranges.Keys
      invariant prefixes.Keys <= ranges.Keys - left
      invariant forall s :: s in ranges.Keys - left ==> Sealed(ranges[s], source, members)
      invariant forall s :: s in ranges.Keys - left ==>
                  var required := RequiredPrefix(ranges[s], source);
                  (s in prefixes <==> required.Some?) && (s in prefixes ==> prefixes[s] == required.value)
      decreases |left|
    {
      hide RequiredPrefix, Sealed;
      var s :| s in left;
      var ok, prefix := PrefixOf(ranges[s], source, members);
      if !ok {
        return None;
      }
      if prefix.Some? {
        prefixes := prefixes[s := prefix.value];
      }
      left := left - {s};
    }
    return Some(prefixes);
  }

  // -------------------------------------------------- what the archive must hold

  /** One range lies wholly at or below the stream's archive watermark. */
  predicate RangeArchived(c: Archive.Config, store: ArchiveProtocol.Store, r: StreamSegment) {
    && c.stream != "" && r.endLsn.Some?
    && 1 <= r.startLsn <= r.endLsn.value <= ArchiveProtocol.Current(c, store).archived
  }

  ghost predicate StreamArchived(cfg: Configs, at: string -> ArchiveProtocol.Store, stream: string,
                                 segments: seq<StreamSegment>, source: u64)
  {
    forall i :: 0 <= i < |segments| && segments[i].cohortId == source ==>
                  RangeArchived(cfg(stream), at(stream), segments[i])
  }

  /** Every range ever routed to the source cohort is archived. */
  ghost predicate AllArchived(cfg: Configs, at: string -> ArchiveProtocol.Store,
                              ranges: map<string, seq<StreamSegment>>, source: u64)
  {
    forall s :: s in ranges ==> StreamArchived(cfg, at, s, ranges[s], source)
  }

  lemma CurrentIsGood(cfg: Configs, world: World, k: nat, stream: string)
    requires Configured(cfg) && Evolves(cfg, world)
    ensures var s := world(k)(stream);
            var h := ArchiveProtocol.Current(cfg(stream), s);
            && Archive.HeadOk(cfg(stream), s.objects, h) && ArchiveRange.WellNamed(cfg(stream), h.segments)
  {
    hide ArchiveProtocol.StoreOk, Archive.HeadOk;
    var s := world(k)(stream);
    assert Later(cfg(stream), s, s);
    ArchiveProtocol.HeadAtOk(cfg(stream), s, |s.heads|);
    ArchiveProtocol.CurrentNamed(cfg(stream), s);
  }

  lemma RangeVerifiesIff(cfg: Configs, world: World, k: nat, stream: string, r: StreamSegment)
    requires Configured(cfg) && Evolves(cfg, world) && r.endLsn.Some?
    ensures var s := world(k)(stream);
            Archive.VerifyRange(cfg(stream), s.objects, ArchiveProtocol.Current(cfg(stream), s), r.startLsn,
                                r.endLsn.value) == None
            <==> RangeArchived(cfg(stream), s, r)
  {
    hide Archive.HeadOk, ArchiveRange.WellNamed, Evolves;
    var s := world(k)(stream);
    CurrentIsGood(cfg, world, k, stream);
    if stream != "" {
      ArchiveRange.GoodHeadVerifies(cfg(stream), s.objects, ArchiveProtocol.Current(cfg(stream), s), r.startLsn,
                                    r.endLsn.value);
    }
  }

  lemma WatermarkRises(cfg: Configs, world: World, i: nat, j: nat, stream: string)
    requires Evolves(cfg, world) && i <= j
    ensures ArchiveProtocol.Current(cfg(stream), world(i)(stream)).archived
            <= ArchiveProtocol.Current(cfg(stream), world(j)(stream)).archived
  {
    hide ArchiveProtocol.StoreOk;
    assert Later(cfg(stream), world(i)(stream), world(j)(stream));
    ArchiveProtocol.HeadsRise(cfg(stream), world(j)(stream), |world(i)(stream).heads|, |world(j)(stream).heads|);
  }

  lemma ArchivedStays(cfg: Configs, world: World, i: nat, j: nat, stream: string, segments: seq<StreamSegment>,
                      source: u64)
    requires Evolves(cfg, world) && i <= j && StreamArchived(cfg, world(i), stream, segments, source)
    ensures StreamArchived(cfg, world(j), stream, segments, source)
  {
    hide Evolves;
    WatermarkRises(cfg, world, i, j, stream);
  }

  lemma OpenNotArchived(c: Archive.Config, store: ArchiveProtocol.Store, r: StreamSegment)
    requires r.endLsn.None?
    ensures !RangeArchived(c, store, r)
  {
  }

  /** One stream's turn of `verify_source_archive_ranges`; `clock` counts archive requests. */
  method VerifyStream(cfg: Configs, world: World, clock: nat, stream: string, segments: seq<StreamSegment>,
                      source: u64)
    returns (ok: bool, now: nat)
    requires Configured(cfg) && Evolves(cfg, world)
    ensures clock <= now
    ensures ok ==> StreamArchived(cfg, world(now), stream, segments, source)
    ensures StreamArchived(cfg, world(clock), stream, segments, source) ==> ok
  {
    hide Evolves, Configured, RangeArchived, Archive.VerifyRange;
    now := clock;
    var i := 0;
    while i < |segments|
      invariant 0 <= i <= |segments| && clock <= now
      invariant StreamArchived(cfg, world(now), stream, segments[..i], source)
    {
      var r := segments[i];
      if r.cohortId == source {
        if r.endLsn.None? {
          OpenNotArchived(cfg(stream), world(clock)(stream), r);
          return false, now;
        }
        var s := world(now)(stream);
        RangeVerifiesIff(cfg, world, now, stream, r);
        var error := Archive.VerifyArchivedRange(cfg(stream), s.objects,
                                                 ArchiveProtocol.Current(cfg(stream), s), r.startLsn, r.endLsn.value);
        if error.Some? {
          if StreamArchived(cfg, world(clock), stream, segments, source) {
            ArchivedStays(cfg, world, clock, now, stream, segments, source);
          }
          return false, now;
        }
        assert segments[..i + 1] == segments[..i] + [r];
        assert StreamArchived(cfg, world(now), stream, segments[..i + 1], source);
        ArchivedStays(cfg, world, now, now + 1, stream, segments[..i + 1], source);
        now := now + 1;
      }
      i := i + 1;
    }
    assert segments[..i] == segments;
    ok := true;
  }

  /** `verify_source_archive_ranges`. */
  method VerifySourceArchiveRanges(cfg: Configs, world: World, clock: nat, ranges: map<string, seq<StreamSegment>>,
                                   source: u64)
    returns (ok: bool, now: nat)
    requires Configured(cfg) && Evolves(cfg, world)
    ensures clock <= now
    ensures ok ==> AllArchived(cfg, world(now), ranges, source)
    ensures AllArchived(cfg, world(clock), ranges, source) ==> ok
  {
    hide Evolves, Configured, StreamArchived;
    now := clock;
    var left := ranges.Keys;
    while left != {}
      invariant left <= ranges.Keys && clock <= now
      invariant forall s :: s in ranges.Keys - left ==> StreamArchived(cfg, world(now), s, ranges[s], source)
      decreases |left|
    {
      var s :| s in left;
      ghost var before := now;
      if StreamArchived(cfg, world(clock), s, ranges[s], source) {
        ArchivedStays(cfg, world, clock, now, s, ranges[s], source);
      }
      ok, now := VerifyStream(cfg, world, now, s, ranges[s], source);
      if !ok {
        return;
      }
      forall r | r in ranges.Keys - left
        ensures StreamArchived(cfg, world(now), r, ranges[r], source)
      {
        ArchivedStays(cfg, world, before, now, r, ranges[r], source);
      }
      left := left - {s};
    }
    ok := true;
  }

  lemma PrefixReached(cfg: Configs, world: World, k: nat, stream: string, segments: seq<StreamSegment>, source: u64)
    requires StreamArchived(cfg, world(k), stream, segments, source)
    requires RequiredPrefix(segments, source).Some?
    ensures RequiredPrefix(segments, source).value
            <= ArchiveProtocol.Current(cfg(stream), world(k)(stream)).archived
  {
    var i :| 0 <= i < |segments| && segments[i].cohortId == source
             && segments[i].endLsn == RequiredPrefix(segments, source);
    assert RangeArchived(cfg(stream), world(k)(stream), segments[i]);
  }

  function Watermark(cfg: Configs, world: World, k: nat, stream: string): nat {
    ArchiveProtocol.Current(cfg(stream), world(k)(stream)).archived
  }

  /** `archived_lsn`: the head chain is checked, then its watermark returned. */
  method ArchivedLsn(cfg: Configs, world: World, clock: nat, stream: string) returns (archived: Option<u64>)
    requires Configured(cfg) && Evolves(cfg, world)
    ensures archived == Some(Watermark(cfg, world, clock, stream))
  {
    hide Evolves, Configured;
    var s := world(clock)(stream);
    var h := ArchiveProtocol.Current(cfg(stream), s);
    CurrentIsGood(cfg, world, clock, stream);
    ArchiveRange.GoodHeadChecks(cfg(stream), s.objects, h);
    var error := Archive.ValidateHeadChain(cfg(stream), h);
    return if error.Some? then None else Some(h.archived);
  }

  lemma WatermarksRise(cfg: Configs, world: World, i: nat, j: nat)
    requires Evolves(cfg, world) && i <= j
    ensures forall s :: Watermark(cfg, world, i, s) <= Watermark(cfg, world, j, s)
  {
    hide Evolves;
    forall s
      ensures Watermark(cfg, world, i, s) <= Watermark(cfg, world, j, s)
    {
      WatermarkRises(cfg, world, i, j, s);
    }
  }

  /** The watermark proofs that go into a receipt: one per stream the cohort ever served. */
  method ProveWatermarks(cfg: Configs, world: World, clock: nat, prefixes: map<string, u64>)
    returns (proof: Option<map<string, (u64, u64)>>, now: nat)
    requires Configured(cfg) && Evolves(cfg, world)
    ensures clock <= now
    ensures proof.Some? ==>
              && proof.value.Keys == prefixes.Keys
              && forall s :: s in prefixes ==>
                   proof.value[s].0 == prefixes[s] <= proof.value[s].1 <= Watermark(cfg, world, now, s)
    ensures (forall s :: s in prefixes ==> prefixes[s] <= Watermark(cfg, world, clock, s)) ==> proof.Some?
  {
    hide Evolves, Configured, Watermark;
    now := clock;
    var proofs: map<string, (u64, u64)> := map[];
    var left := prefixes.Keys;
    while left != {}
      invariant left <= prefixes.Keys && clock <= now
      invariant proofs.Keys == prefixes.Keys - left
      invariant forall s :: s in proofs ==>
                  proofs[s].0 == prefixes[s] <= proofs[s].1 <= Watermark(cfg, world, now, s)
      decreases |left|
    {
      var s :| s in left;
      WatermarksRise(cfg, world, clock, now);
      WatermarksRise(cfg, world, now, now + 1);
      var archived := ArchivedLsn(cfg, world, now, s);
      if archived.None? || archived.value < prefixes[s] {
        return None, now;
      }
      proofs := proofs[s := (prefixes[s], archived.value)];
      left := left - {s};
      now := now + 1;
    }
    return Some(proofs), now;
  }

  /** `verified_online_retirement_receipt`, on the head it loaded. A receipt is issued only when the
      head retires the cohort and every range ever routed to it is archived; and always when both
      held before the first archive request. */
  method VerifiedRetirementReceipt(cfg: Configs, world: World, clock: nat, loaded: Option<ControlHead>,
                                   operation: string, source: u64, receipt: u64)
    returns (result: Option<RetirementReceipt>, now: nat)
    requires Configured(cfg) && Evolves(cfg, world)
    ensures clock <= now
    ensures result.Some? ==>
              && loaded.Some? && Retirable(loaded.value, operation, source, receipt)
              && AllArchived(cfg, world(now), loaded.value.metadata.manifest.streamSegments, source)
    ensures (&& loaded.Some? && Retirable(loaded.value, operation, source, receipt)
             && AllArchived(cfg, world(clock), loaded.value.metadata.manifest.streamSegments, source))
            ==> result.Some?
    ensures result.Some? ==>
              var h := loaded.value;
              var r := result.value;
              && r.operationId == operation && r.cohortId == receipt
              && (r.authorityEpoch, r.revision, r.metadataDigest) == (h.authorityEpoch, h.revision, h.metadataDigest)
              && forall s :: s in h.metadata.manifest.streamSegments ==>
                   var required := RequiredPrefix(h.metadata.manifest.streamSegments[s], source);
                   (s in r.proof <==> required.Some?)
                   && (s in r.proof ==> r.proof[s].0 == required.value <= r.proof[s].1)
  {
    hide Evolves, Configured, Retirable, RequiredPrefix, StreamArchived;
    now := clock;
    if loaded.None? {
      return None, now;
    }
    var h := loaded.value;
    var ranges := h.metadata.manifest.streamSegments;
    var prefixes := RequiredArchivePrefixes(h, operation, source, receipt);
    if prefixes.None? {
      return None, now;
    }
    var ok;
    ok, now := VerifySourceArchiveRanges(cfg, world, now, ranges, source);
    if !ok {
      return None, now;
    }
    ghost var verified := now;
    forall s | s in prefixes.value
      ensures prefixes.value[s] <= Watermark(cfg, world, verified, s)
    {
      PrefixReached(cfg, world, verified, s, ranges[s], source);
    }
    var proof;
    proof, now := ProveWatermarks(cfg, world, now, prefixes.value);
    forall s | s in ranges
      ensures StreamArchived(cfg, world(now), s, ranges[s], source)
    {
      ArchivedStays(cfg, world, verified, now, s, ranges[s], source);
    }
    return Some(RetirementReceipt(operation, receipt, proof.value, h.authorityEpoch, h.revision, h.metadataDigest)), now;
  }

  // --------------------------------------------------------------------- theorems

  /** What a receipt guarantees for ever: at every later time, every LSN of every range ever routed
      to the retired cohort is recovered from the archive, as the same record that was there when
      the receipt was issued, out of a segment that exists and matches its digest. */
  lemma RetiredRecordsStayRecoverable(cfg: Configs, world: World, now: nat, later: nat,
                                      ranges: map<string, seq<StreamSegment>>, source: u64, stream: string, i: nat,
                                      lsn: nat)
    requires Configured(cfg) && Evolves(cfg, world) && now <= later
    requires AllArchived(cfg, world(now), ranges, source)
    requires stream in ranges && i < |ranges[stream]| && ranges[stream][i].cohortId == source
    requires ranges[stream][i].endLsn.Some? && ranges[stream][i].startLsn <= lsn <= ranges[stream][i].endLsn.value
    ensures var c := cfg(stream);
            var kept := History(c, world(now)(stream));
            var s := world(later)(stream);
            var recovered := Archive.Recover(c, s.objects, ArchiveProtocol.Current(c, s), 0);
            && 1 <= lsn <= |kept|
            && recovered.Ok? && lsn <= |recovered.value|
            && recovered.value[lsn - 1] == kept[lsn - 1] && kept[lsn - 1].lsn == lsn
            && ArchiveRange.Held(c, s.objects, ArchiveProtocol.Current(c, s).segments, lsn)
  {
    hide Evolves, AllArchived, Archive.VerifyRange, ArchiveRange.Held;
    ArchivedOne(cfg, world, now, ranges, source, stream);
    ArchivedStays(cfg, world, now, later, stream, ranges[stream], source);
    HistoryKept(cfg, world, now, later, stream);
    var r := ranges[stream][i];
    var c := cfg(stream);
    var s := world(later)(stream);
    RangeVerifiesIff(cfg, world, later, stream, r);
    ArchiveRange.VerifiedRangeIsHeld(c, s.objects, ArchiveProtocol.Current(c, s), r.startLsn, r.endLsn.value);
  }

  lemma ArchivedOne(cfg: Configs, world: World, k: nat, ranges: map<string, seq<StreamSegment>>, source: u64,
                    stream: string)
    requires AllArchived(cfg, world(k), ranges, source) && stream in ranges
    ensures StreamArchived(cfg, world(k), stream, ranges[stream], source)
  {
  }

  /** A stream's history only grows, and a full recovery returns all of it. */
  lemma HistoryKept(cfg: Configs, world: World, i: nat, j: nat, stream: string)
    requires Configured(cfg) && Evolves(cfg, world) && i <= j
    ensures var c := cfg(stream);
            var s := world(j)(stream);
            && History(c, world(i)(stream)) <= History(c, s)
            && |History(c, world(i)(stream))| == ArchiveProtocol.Current(c, world(i)(stream)).archived
            && Archive.Recover(c, s.objects, ArchiveProtocol.Current(c, s), 0) == Archive.Ok(History(c, s))
            && (forall k :: 0 <= k < |History(c, s)| ==> History(c, s)[k].lsn == k + 1)
  {
    hide ArchiveProtocol.StoreOk, Archive.Recover, Configured;
    var c, a, b := cfg(stream), world(i)(stream), world(j)(stream);
    assert Later(c, a, b);
    var h, g := ArchiveProtocol.Current(c, a), ArchiveProtocol.Current(c, b);
    CurrentIsGood(cfg, world, i, stream);
    CurrentIsGood(cfg, world, j, stream);
    ArchiveTheorems.ChainGrows(c, a.objects, b.objects, h.segments, 1, 0);
    ArchiveTheorems.ContentsRun(c, a.objects, h.segments, 1, 0);
    ArchiveTheorems.ContentsRun(c, b.objects, g.segments, 1, 0);
    ArchiveProtocol.HeadsRise(c, b, |a.heads|, |b.heads|);
    ArchiveProtocol.ContentsPrefix(b.objects, h.segments, g.segments);
    ArchiveProtocol.GoodHeadBounded(c, b.objects, g);
    ArchiveTheorems.RecoverIffSound(c, b.objects, g);
  }
}
