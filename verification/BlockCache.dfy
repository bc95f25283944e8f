/** Ranged reads served from fixed-size blocks cached under the identity of one object version. */
module BlockCache {
  import opened Base

  type Bytes = seq<bv8>

  /** One version of an object, with whatever validators the origin gives it. */
  datatype Object = Object(etag: Option<string>, version: Option<string>, bytes: Bytes)

  /** Every version a path has ever had; the last is current. A deleted path keeps its past. */
  type Origin = map<string, seq<Object>>

  datatype BlockKey = BlockKey(
    path: string, etag: Option<string>, version: Option<string>, size: nat, geometry: nat, start: nat)

  type Blocks = map<BlockKey, Bytes>

  datatype Range = All | Bounded(from: nat, end: nat) | Offset(from: nat) | Suffix(count: nat)

  datatype Span = Span(from: nat, end: nat)

  /** What the origin promises: an entity tag is never reused for other bytes, nor a version id for
      another object. */
  ghost predicate ValidatorsHold(origin: Origin) {
    forall path, i, j | path in origin && 0 <= i < |origin[path]| && 0 <= j < |origin[path]| ::
      Consistent(origin[path][i], origin[path][j])
  }

  predicate Consistent(a: Object, b: Object) {
    && (a.etag.Some? && a.etag == b.etag ==> a.bytes == b.bytes)
    && (a.version.Some? && a.version == b.version ==> a == b)
  }

  // ------------------------------------------------------------------- identity

  /** The object is of the version the key names. */
  predicate Identifies(k: BlockKey, o: Object) {
    && (k.etag.Some? || k.version.Some?)
    && o.etag == k.etag && |o.bytes| == k.size && (k.version.Some? ==> o.version == k.version)
  }

  function BlockEnd(k: BlockKey): nat {
    Min(k.size, k.start + k.geometry)
  }

  /** A cached block holds the bytes of its key's version, whichever object of that version is asked. */
  ghost predicate BlockOk(origin: Origin, k: BlockKey, data: Bytes) {
    && k.start <= k.size
    && k.path in origin
    && exists i :: 0 <= i < |origin[k.path]| && Identifies(k, origin[k.path][i])
                   && data == origin[k.path][i].bytes[k.start..BlockEnd(k)]
  }

  ghost predicate BlocksOk(origin: Origin, blocks: Blocks) {
    forall k :: k in blocks ==> BlockOk(origin, k, blocks[k])
  }

  /** The origin has only gained versions. */
  ghost predicate Extends(before: Origin, after: Origin) {
    forall path :: path in before ==> path in after && before[path] <= after[path]
  }

  lemma BlockStays(before: Origin, after: Origin, k: BlockKey, data: Bytes)
    requires BlockOk(before, k, data) && Extends(before, after)
    ensures BlockOk(after, k, data)
  {
    var i :| 0 <= i < |before[k.path]| && Identifies(k, before[k.path][i])
             && data == before[k.path][i].bytes[k.start..BlockEnd(k)];
    assert after[k.path][i] == before[k.path][i];
  }

  lemma BlocksStay(before: Origin, after: Origin, blocks: Blocks)
    requires BlocksOk(before, blocks) && Extends(before, after)
    ensures BlocksOk(after, blocks)
  {
    forall k | k in blocks
      ensures BlockOk(after, k, blocks[k])
    {
      BlockStays(before, after, k, blocks[k]);
    }
  }

  /** Whatever filled it, a good block equals that slice of any object its key identifies. */
  lemma BlockIsSlice(origin: Origin, k: BlockKey, data: Bytes, o: Object)
    requires ValidatorsHold(origin) && BlockOk(origin, k, data)
    requires k.path in origin && o in origin[k.path] && Identifies(k, o)
    ensures data == o.bytes[k.start..BlockEnd(k)]
  {
    var i :| 0 <= i < |origin[k.path]| && Identifies(k, origin[k.path][i])
             && data == origin[k.path][i].bytes[k.start..BlockEnd(k)];
    var j :| 0 <= j < |origin[k.path]| && origin[k.path][j] == o;
    assert Consistent(origin[k.path][i], origin[k.path][j]);
  }

  // --------------------------------------------------------------------- ranges

  /** `GetRange::as_range`. */
  function AsSpan(r: Range, size: nat): Option<Span> {
    match r
    case All => Some(Span(0, size))
    case Bounded(from, end) =>
      if end <= from || size <= from then None else Some(Span(from, Min(end, size)))
    case Offset(from) => if size <= from then None else Some(Span(from, size))
    case Suffix(count) => Some(Span(if count <= size then size - count else 0, size))
  }

  function Times(a: nat, b: nat): nat {
    a * b
  }

  lemma TimesNext(k: nat, g: nat)
    ensures Times(k + 1, g) == Times(k, g) + g
  {
  }

  /** `u64::div_ceil`. */
  function DivCeil(a: nat, g: nat): (n: nat)
    requires 0 < g
  {
    (a + g - 1) / g
  }

  /** The number of the block that holds a byte. */
  function BlockOf(at: nat, g: nat): nat
    requires 0 < g
  {
    at / g
  }

  /** The blocks from the one that holds `from` to the one that ends at or past `end`. */
  lemma BlockBounds(from: nat, end: nat, g: nat)
    requires 0 < g && from < end
    ensures Times(BlockOf(from, g), g) <= from < Times(BlockOf(from, g), g) + g
    ensures BlockOf(from, g) < DivCeil(end, g) && end <= Times(DivCeil(end, g), g) < end + g
  {
    var n := DivCeil(end, g);
    assert n * g <= end + g - 1 < n * g + g;
    if n <= from / g {
      assert n * g <= from / g * g;
    }
  }

  /** The part of the `k`-th block that a request wants. */
  function Wanted(block: Bytes, span: Span, start: nat): (part: Option<Bytes>)
    requires start <= span.end
  {
    var begin := if start <= span.from then span.from - start else 0;
    var end := Min(|block|, span.end - start);
    if begin <= end then Some(block[begin..end]) else None
  }

  /** What has been read once every block below `start` has been. */
  function Covered(o: Object, span: Span, start: nat): Bytes
    requires span.from <= span.end <= |o.bytes|
  {
    o.bytes[span.from..Max(span.from, Min(span.end, start))]
  }

  /** The requested bytes that lie in the block from `start`. */
  function Part(o: Object, span: Span, start: nat, g: nat): Bytes
    requires span.from < span.end <= |o.bytes| && start < span.end && span.from < start + g
  {
    o.bytes[Max(span.from, start)..Min(span.end, start + g)]
  }

  /** What is cut from a block is its share of the request, and it extends what has been read. */
  lemma CoveredGrows(o: Object, span: Span, start: nat, g: nat, block: Bytes)
    requires 0 < g && span.from < span.end <= |o.bytes|
    requires start < span.end && span.from < start + g
    requires block == o.bytes[start..Min(|o.bytes|, start + g)]
    ensures Wanted(block, span, start) == Some(Part(o, span, start, g))
    ensures Covered(o, span, start + g) == Covered(o, span, start) + Part(o, span, start, g)
  {
    hide Covered;
    PartExtends(o, span, start, g);
    var begin, end := if start <= span.from then span.from - start else 0, Min(|block|, span.end - start);
    SliceOfSlice(o.bytes, start, Min(|o.bytes|, start + g), begin, end);
  }

  lemma SliceOfSlice(s: Bytes, i: nat, j: nat, k: nat, m: nat)
    requires i <= j <= |s| && k <= m <= j - i
    ensures s[i..j][k..m] == s[i + k..i + m]
  {
    var a, b := s[i..j][k..m], s[i + k..i + m];
    assert |a| == |b|;
    forall n | 0 <= n < |a| ensures a[n] == b[n] {
      assert a[n] == s[i..j][k + n] == s[i + (k + n)];
    }
  }

  lemma PartExtends(o: Object, span: Span, start: nat, g: nat)
    requires 0 < g && span.from < span.end <= |o.bytes|
    requires start < span.end && span.from < start + g
    ensures Covered(o, span, start + g) == Covered(o, span, start) + Part(o, span, start, g)
  {
  }

  // ------------------------------------------------------------------ file names

  /** `str::split` at slashes. */
  function Components(path: string): (parts: seq<string>)
    ensures parts != []
  {
    if path == "" then [""]
    else
      var rest := Components(path[1..]);
      if path[0] == '/' then [""] + rest else [[path[0]] + rest[0]] + rest[1..]
  }

  predicate HexDigit(c: char) {
    '0' <= c <= '9' || 'a' <= c <= 'f' || 'A' <= c <= 'F'
  }

  /** `uuid_name`. */
  predicate UuidName(name: string) {
    || (|name| == 32 && forall i :: 0 <= i < |name| ==> HexDigit(name[i]))
    || (|name| == 36 && forall i :: 0 <= i < |name| ==>
                          if i == 8 || i == 13 || i == 18 || i == 23 then name[i] == '-' else HexDigit(name[i]))
  }

  predicate DataName(name: string) {
    || UuidName(name)
    || (|name| == 50 && forall i :: 0 <= i < |name| ==>
                          if i < 24 then name[i] == '0' || name[i] == '1' else HexDigit(name[i]))
  }

  /** `immutable_lance_path`: data files and index directories with names of their own. */
  predicate ImmutablePath(path: string) {
    var parts := Components(path);
    exists i :: 0 <= i < |parts| - 1 && ImmutablePair(parts, i)
  }

  predicate ImmutablePair(parts: seq<string>, i: nat)
    requires i + 1 < |parts|
  {
    var name := parts[i + 1];
    if parts[i] == "data" && i + 2 == |parts| then
      6 <= |name| && name[|name| - 6..] == ".lance" && DataName(name[..|name| - 6])
    else parts[i] == "_indices" && i + 2 < |parts| && UuidName(name)
  }

  /** Which versions a view remembers: all for the length of one query, and, in the shared cache, those
      of files whose names promise that they are never overwritten. */
  datatype Policy = Policy(snapshot: bool, immutableFiles: bool) {
    predicate Shares(path: string) {
      immutableFiles && ImmutablePath(path)
    }

    predicate Remembers(path: string) {
      snapshot || Shares(path)
    }

    /** A query's own versions are not shared, so nobody else makes it forget them. */
    predicate Keeps(path: string) {
      snapshot && !Shares(path)
    }
  }

  /** The naming contract: nothing is ever written twice under such a name. */
  ghost predicate WrittenOnce(origin: Origin) {
    forall path :: path in origin && ImmutablePath(path) ==> |origin[path]| <= 1
  }

  // ---------------------------------------------------------------------- store

  type Pin = (string, Option<string>)

  /** What happens elsewhere before one origin or cache access: objects written, blocks and remembered
      versions evicted. */
  datatype Meanwhile = Meanwhile(writes: seq<(string, Object)>, evicted: set<BlockKey>, forgotten: set<Pin>)

  function Write(origin: Origin, path: string, o: Object): Origin {
    origin[path := (if path in origin then origin[path] else []) + [o]]
  }

  function WriteAll(origin: Origin, writes: seq<(string, Object)>): Origin
    decreases |writes|
  {
    if writes == [] then origin else WriteAll(Write(origin, writes[0].0, writes[0].1), writes[1..])
  }

  lemma {:induction false} WritesExtend(origin: Origin, writes: seq<(string, Object)>)
    ensures Extends(origin, WriteAll(origin, writes))
    decreases |writes|
  {
    if writes != [] {
      WritesExtend(Write(origin, writes[0].0, writes[0].1), writes[1..]);
    }
  }

  /** The object an origin request reaches: the version asked for, or the current one. */
  function Resolve(origin: Origin, path: string, version: Option<string>): Option<Object> {
    if path !in origin || origin[path] == [] then None
    else if version.None? then Some(origin[path][|origin[path]| - 1])
    else FindVersion(origin[path], version)
  }

  function FindVersion(objects: seq<Object>, version: Option<string>): (o: Option<Object>)
    ensures o.Some? ==> o.value in objects && o.value.version == version
  {
    if objects == [] then None
    else if objects[|objects| - 1].version == version then Some(objects[|objects| - 1])
    else FindVersion(objects[..|objects| - 1], version)
  }

  /** A conditional ranged get: the object's metadata and its bytes, perhaps cut short. */
  datatype Response = Response(size: nat, etag: Option<string>, span: Span, bytes: Bytes)

  function Get(origin: Origin, k: BlockKey, cut: nat): Option<Response>
    requires k.start <= BlockEnd(k)
  {
    match Resolve(origin, k.path, k.version)
    case None => None
    case Some(o) =>
      if k.etag.Some? && o.etag != k.etag then None
      else
        match AsSpan(Bounded(k.start, BlockEnd(k)), |o.bytes|)
        case None => None
        case Some(span) =>
          var data := o.bytes[span.from..span.end];
          Some(Response(|o.bytes|, o.etag, span, data[..Min(cut, |data|)]))
  }

  /** The origin still answers a request for this key's version with that version. */
  predicate Served(origin: Origin, k: BlockKey) {
    Resolve(origin, k.path, k.version).Some? && Identifies(k, Resolve(origin, k.path, k.version).value)
  }

  /** Nobody writes and no response is cut short. */
  ghost predicate Quiet(world: nat -> Meanwhile, cuts: nat -> nat, geometry: nat) {
    forall n: nat :: world(n).writes == [] && geometry <= cuts(n)
  }

  datatype Outcome = Data(bytes: Bytes) | PassedThrough | Failed

  const IN_FLIGHT := 4

  /** The blocks that may be on their way while `number` is the next to deliver. */
  predicate InFlight(number: nat, last: nat, j: nat) {
    number <= j < number + IN_FLIGHT && j < last
  }

  /** Which of them comes next. */
  function Pick(number: nat, last: nat, ready: set<nat>, choice: nat): (j: nat)
    requires number < last && number !in ready
    ensures InFlight(number, last, j) && j !in ready
  {
    var j := number + choice % IN_FLIGHT;
    if j < last && j !in ready then j else number
  }

  /** How many of the next `n` blocks have not come. */
  function Missing(number: nat, n: nat, ready: set<nat>): nat {
    if n == 0 then 0 else (if number + n - 1 in ready then 0 else 1) + Missing(number, n - 1, ready)
  }

  lemma {:induction false} OneLess(number: nat, n: nat, ready: set<nat>, j: nat)
    requires j !in ready
    ensures Missing(number, n, ready + {j}) + (if number <= j < number + n then 1 else 0) == Missing(number, n, ready)
  {
    if n > 0 {
      OneLess(number, n - 1, ready, j);
    }
  }

  /** Every block of the request overlaps it. */
  lemma BlockOverlaps(first: nat, j: nat, last: nat, span: Span, g: nat)
    requires 0 < g && span.from < span.end
    requires first == BlockOf(span.from, g) && last == DivCeil(span.end, g) && first <= j < last
    ensures Times(j, g) < span.end && span.from < Times(j, g) + g
  {
    hide BlockOf, DivCeil;
    BlockBounds(span.from, span.end, g);
    NextBlockStarts(j, last, span.end, g);
    assert Times(first, g) <= Times(j, g) by { assert (j - first) * g >= 0; }
  }

  /** Blocks that have come are parts of the request that are still to be delivered. */
  ghost predicate Ready(read: Object, span: Span, g: nat, number: nat, last: nat, ready: map<nat, Bytes>)
    requires span.from < span.end <= |read.bytes|
  {
    forall j :: j in ready ==>
      && InFlight(number, last, j)
      && Times(j, g) < span.end && span.from < Times(j, g) + g && ready[j] == Part(read, span, Times(j, g), g)
  }

  /** The version a view would use: the one it remembers, or the origin's. */
  function Found(policy: Policy, origin: Origin, pins: map<Pin, Object>, path: string, version: Option<string>): Option<Object> {
    if policy.Remembers(path) && (path, version) in pins then Some(pins[(path, version)])
    else Resolve(origin, path, version)
  }

  /** Nothing the view remembers can be out of date. */
  ghost predicate Current(policy: Policy, origin: Origin) {
    !policy.snapshot && (policy.immutableFiles ==> WrittenOnce(origin))
  }

  ghost predicate PinsKept(policy: Policy, before: map<Pin, Object>, after: map<Pin, Object>) {
    forall k :: k in before && policy.Keeps(k.0) ==> k in after && after[k] == before[k]
  }

  predicate PinsOk(origin: Origin, pins: map<Pin, Object>) {
    forall k :: k in pins ==>
      k.0 in origin && pins[k] in origin[k.0] && (k.1.Some? ==> pins[k].version == k.1)
  }

  /** Under the naming contract, what is remembered is what the origin would answer. */
  lemma RememberedIsCurrent(policy: Policy, origin: Origin, pins: map<Pin, Object>, path: string, version: Option<string>)
    requires PinsOk(origin, pins) && Current(policy, origin)
    ensures Found(policy, origin, pins, path, version) == Resolve(origin, path, version)
  {
    hide ImmutablePath;
    if policy.Remembers(path) && (path, version) in pins {
      var o := pins[(path, version)];
      assert o in origin[path] && |origin[path]| == 1 && origin[path][0] == o;
    }
  }

  /** The cache view of one origin, shared with other readers and writers. */
  class CachedObjectStore {
    const geometry: nat
    const policy: Policy
    var origin: Origin
    var blocks: Blocks
    var pins: map<Pin, Object>

    constructor (o: Origin, dataBlockBytes: nat, remembers: Policy)
      requires 0 < dataBlockBytes
      ensures geometry == dataBlockBytes && policy == remembers && origin == o && blocks == map[] && pins == map[]
      ensures Valid()
    {
      geometry, policy := dataBlockBytes, remembers;
      origin, blocks, pins := o, map[], map[];
    }

    ghost predicate Valid()
      reads this
    {
      0 < geometry && BlocksOk(origin, blocks) && PinsOk(origin, pins)
    }

    /** Other writers and readers act; the validators keep their promise. */
    method Interfere(m: Meanwhile)
      requires Valid() && ValidatorsHold(WriteAll(origin, m.writes))
      modifies this
      ensures Valid() && Extends(old(origin), origin) && ValidatorsHold(origin)
      ensures origin == WriteAll(old(origin), m.writes)
      ensures PinsKept(policy, old(pins), pins)
    {
      hide ImmutablePath;
      WritesExtend(origin, m.writes);
      BlocksStay(origin, WriteAll(origin, m.writes), blocks);
      origin := WriteAll(origin, m.writes);
      blocks := blocks - m.evicted;
      pins := map k | k in pins && (k !in m.forgotten || policy.Keeps(k.0)) :: pins[k];
    }

    /** `version`: the object whose metadata the read is bound to, if it meets the request's
        preconditions. What is remembered stays, and what is found is remembered even if refused. */
    method Version(path: string, version: Option<string>, accepts: Object -> bool) returns (o: Option<Object>)
      requires Valid()
      modifies this`pins
      ensures Valid()
      ensures var found := Found(policy, origin, old(pins), path, version);
              && o == (if found.Some? && accepts(found.value) then found else None)
              && pins == if found.Some? && policy.Remembers(path) then old(pins)[(path, version) := found.value]
                         else old(pins)
      ensures o.Some? ==> path in origin && o.value in origin[path] && (version.Some? ==> o.value.version == version)
      ensures PinsKept(policy, old(pins), pins)
    {
      hide ImmutablePath, BlocksOk;
      var found: Option<Object> := None;
      if policy.Remembers(path) && (path, version) in pins {
        found := Some(pins[(path, version)]);
      } else {
        found := Resolve(origin, path, version);
        if found.Some? && policy.Remembers(path) {
          pins := pins[(path, version) := found.value];
        }
      }
      return if found.Some? && accepts(found.value) then found else None;
    }

    /** `block`: from the cache, or filled conditionally from the origin. */
    method Block(k: BlockKey, cut: nat) returns (data: Option<Bytes>)
      requires Valid() && k.start < k.size && 0 < k.geometry && (k.etag.Some? || k.version.Some?)
      modifies this`blocks
      ensures Valid()
      ensures data.Some? ==> BlockOk(origin, k, data.value)
      ensures Served(origin, k) && k.geometry <= cut ==> data.Some?
    {
      if k in blocks {
        return Some(blocks[k]);
      }
      var response := Get(origin, k, cut);
      if response.None? {
        return None;
      }
      var r := response.value;
      if r.size != k.size || r.etag != k.etag || r.span != Span(k.start, BlockEnd(k)) {
        return None;
      }
      if |r.bytes| != BlockEnd(k) - k.start {
        return None;
      }
      FillIsGood(origin, k, cut);
      blocks := blocks[k := r.bytes];
      return Some(r.bytes);
    }

    /** One block of a read, cut to what was requested. */
    method ReadBlock(k: BlockKey, span: Span, cut: nat, ghost read: Object) returns (part: Option<Bytes>)
      requires Valid() && ValidatorsHold(origin)
      requires k.path in origin && read in origin[k.path] && Identifies(k, read) && k.geometry == geometry
      requires span.from < span.end <= |read.bytes| && k.start < span.end && span.from < k.start + geometry
      modifies this`blocks
      ensures Valid()
      ensures Served(origin, k) && geometry <= cut ==> part.Some?
      ensures part.Some? ==> part.value == Part(read, span, k.start, geometry)
    {
      hide BlocksOk, BlockOk, ValidatorsHold, Covered, Wanted, Part, PinsOk;
      var block := Block(k, cut);
      if block.None? {
        return None;
      }
      BlockIsSlice(origin, k, block.value, read);
      CoveredGrows(read, span, k.start, geometry, block.value);
      return Wanted(block.value, span, k.start);
    }

    /** One block comes, after whatever happens elsewhere. */
    method Fetch(template: BlockKey, span: Span, j: nat, m: Meanwhile, cut: nat, ghost begun: Origin, ghost read: Object)
      returns (part: Option<Bytes>)
      requires Valid() && ValidatorsHold(WriteAll(origin, m.writes)) && Extends(begun, origin)
      requires template.path in begun && read in begun[template.path] && Identifies(template, read)
      requires template.geometry == geometry && span.from < span.end <= |read.bytes|
      requires Times(j, geometry) < span.end && span.from < Times(j, geometry) + geometry
      modifies this
      ensures Valid() && ValidatorsHold(origin) && Extends(begun, origin) && PinsKept(policy, old(pins), pins)
      ensures origin == WriteAll(old(origin), m.writes)
      ensures part.Some? ==> part.value == Part(read, span, Times(j, geometry), geometry)
      ensures m.writes == [] && geometry <= cut && Served(old(origin), template) ==> part.Some?
    {
      hide BlocksOk, BlockOk, ValidatorsHold, Extends, Times, WriteAll, PinsOk, Part, ImmutablePath;
      ghost var before := origin;
      Interfere(m);
      NoWrites(before);
      StillThere(begun, before, origin, template.path, read);
      var k := template.(start := Times(j, geometry));
      assert Served(origin, template) ==> Served(origin, k);
      part := ReadBlock(k, span, cut, read);
    }

    /** The streamed blocks of one read: up to four are on their way at a time and come in any order,
        `picks` saying which is next; they are delivered in order, cut to what was requested. Elsewhere
        anything may happen before each block comes. */
    method ReadBlocks(template: BlockKey, span: Span, world: nat -> Meanwhile, cuts: nat -> nat, picks: nat -> nat,
                      ghost read: Object)
      returns (out: Option<Bytes>)
      requires Valid() && Honest(origin, world)
      requires template.path in origin && read in origin[template.path] && Identifies(template, read)
      requires template.geometry == geometry && span.from < span.end <= |read.bytes|
      modifies this
      ensures Valid() && Extends(old(origin), origin) && PinsKept(policy, old(pins), pins)
      ensures out.Some? ==> out.value == read.bytes[span.from..span.end]
      ensures Quiet(world, cuts, geometry) && Served(old(origin), template) ==> out.Some?
    {
      hide BlocksOk, ValidatorsHold, Extends, Times, DivCeil, BlockOf, Honest, WriteAll, After, PinsOk, Part, Covered,
           Ready, Served, Identifies, Missing, ImmutablePath;
      AfterNone(origin, world);
      ghost var begun := origin;
      ExtendsSelf(origin);
      var first, last := BlockOf(span.from, geometry), DivCeil(span.end, geometry);
      BlockBounds(span.from, span.end, geometry);
      var data: Bytes := [];
      var ready: map<nat, Bytes> := map[];
      var number := first;
      var round: nat := 0;
      NothingCovered(read, span, Times(number, geometry));
      NoneReady(read, span, geometry, number, last);
      while number < last
        invariant first <= number <= last
        invariant Valid() && Extends(begun, origin) && PinsKept(policy, old(pins), pins)
        invariant origin == After(begun, world, round)
        invariant Quiet(world, cuts, geometry) ==> origin == begun
        invariant data == Covered(read, span, Times(number, geometry))
        invariant Ready(read, span, geometry, number, last, ready)
        decreases last - number, Missing(number, IN_FLIGHT, ready.Keys)
      {
        if number in ready {
          BlockOverlaps(first, number, last, span, geometry);
          ReadyIs(read, span, geometry, number, last, ready);
          PartExtends(read, span, Times(number, geometry), geometry);
          TimesNext(number, geometry);
          Delivered(read, span, geometry, number, last, ready);
          data := data + ready[number];
          ready := ready - {number};
          number := number + 1;
        } else {
          HonestNext(begun, world, round);
          ghost var before := origin;
          var j := Pick(number, last, ready.Keys, picks(round));
          BlockOverlaps(first, j, last, span, geometry);
          var part := Fetch(template, span, j, world(round), cuts(round), begun, read);
          NoWrites(before);
          if part.None? {
            return None;
          }
          round := round + 1;
          OneLess(number, IN_FLIGHT, ready.Keys, j);
          Came(read, span, geometry, number, last, ready, j, part.value);
          assert ready[j := part.value].Keys == ready.Keys + {j};
          ready := ready[j := part.value];
        }
      }
      AllCovered(read, span, Times(number, geometry));
      return Some(data);
    }

    /** `get_opts`: a successful read yields exactly the requested bytes of one version of the object,
        the one its metadata was read from, whatever the origin becomes meanwhile. `accepts` is the
        outcome of the request's preconditions. */
    method GetOpts(path: string, version: Option<string>, range: Range, headOnly: bool, accepts: Object -> bool,
                   world: nat -> Meanwhile, cuts: nat -> nat, picks: nat -> nat)
      returns (out: Outcome, ghost read: Option<Object>)
      requires Valid() && Honest(origin, world)
      modifies this
      ensures Valid() && Extends(old(origin), origin)
      ensures read.Some? ==> path in old(origin) && read.value in old(origin)[path] && accepts(read.value)
                             && (version.Some? ==> read.value.version == version)
      ensures out.Data? && headOnly ==> read.Some? && out.bytes == []
      ensures out.Data? && !headOnly ==>
                && read.Some? && AsSpan(range, |read.value.bytes|).Some?
                && var span := AsSpan(range, |read.value.bytes|).value;
                   out.bytes == read.value.bytes[span.from..span.end]
      ensures out.PassedThrough? ==> read.Some? && read.value.etag.None? && read.value.version.None?
      ensures PinsKept(policy, old(pins), pins)
      ensures policy.Keeps(path) && read.Some? ==> (path, version) in pins && pins[(path, version)] == read.value
      ensures Current(policy, old(origin)) ==>
                && (read.Some? ==> read == Resolve(old(origin), path, version))
                && (Quiet(world, cuts, geometry) && out.Failed? ==>
                      var o := Resolve(old(origin), path, version);
                      o.None? || !accepts(o.value) || AsSpan(range, |o.value.bytes|).None?)
    {
      hide BlocksOk, Extends, PinsOk, ImmutablePath, WrittenOnce;
      ExtendsSelf(origin);
      if Current(policy, origin) {
        RememberedIsCurrent(policy, origin, pins, path, version);
      }
      var meta := Version(path, version, accepts);
      read := meta;
      if meta.None? {
        return Failed, read;
      }
      var o := meta.value;
      var pinned := if version.Some? then version else o.version;
      if !headOnly && o.etag.None? && pinned.None? {
        return PassedThrough, read;
      }
      if headOnly {
        return Data([]), read;
      }
      var span := AsSpan(range, |o.bytes|);
      if span.None? {
        return Failed, read;
      }
      if span.value.from == span.value.end {
        return Data([]), read;
      }
      assert ValidatorsHold(After(origin, world, 0));
      var template := BlockKey(path, o.etag, pinned, |o.bytes|, geometry, 0);
      if Current(policy, origin) {
        CurrentIsServed(origin, path, version, o);
      }
      var data := ReadBlocks(template, span.value, world, cuts, picks, o);
      return if data.Some? then Data(data.value) else Failed, read;
    }
  }

  lemma Delivered(read: Object, span: Span, g: nat, number: nat, last: nat, ready: map<nat, Bytes>)
    requires span.from < span.end <= |read.bytes| && Ready(read, span, g, number, last, ready)
    ensures Ready(read, span, g, number + 1, last, ready - {number})
  {
    hide Part, Times;
  }

  lemma Came(read: Object, span: Span, g: nat, number: nat, last: nat, ready: map<nat, Bytes>, j: nat, part: Bytes)
    requires span.from < span.end <= |read.bytes| && Ready(read, span, g, number, last, ready)
    requires InFlight(number, last, j) && Times(j, g) < span.end && span.from < Times(j, g) + g
    requires part == Part(read, span, Times(j, g), g)
    ensures Ready(read, span, g, number, last, ready[j := part])
  {
    hide Part, Times;
  }

  lemma NoneReady(read: Object, span: Span, g: nat, number: nat, last: nat)
    requires span.from < span.end <= |read.bytes|
    ensures Ready(read, span, g, number, last, map[])
  {
  }

  lemma ReadyIs(read: Object, span: Span, g: nat, number: nat, last: nat, ready: map<nat, Bytes>)
    requires span.from < span.end <= |read.bytes| && Ready(read, span, g, number, last, ready) && number in ready
    ensures Times(number, g) < span.end && span.from < Times(number, g) + g
    ensures ready[number] == Part(read, span, Times(number, g), g)
  {
    hide Part, Times;
  }

  lemma NothingCovered(o: Object, span: Span, start: nat)
    requires span.from <= span.end <= |o.bytes| && start <= span.from
    ensures Covered(o, span, start) == []
  {
  }

  lemma AllCovered(o: Object, span: Span, start: nat)
    requires span.from <= span.end <= |o.bytes| && span.end <= start
    ensures Covered(o, span, start) == o.bytes[span.from..span.end]
  {
  }

  /** The origin after the first `n` rounds of what others do. */
  function After(origin: Origin, world: nat -> Meanwhile, n: nat): Origin {
    if n == 0 then origin else WriteAll(After(origin, world, n - 1), world(n - 1).writes)
  }

  lemma NoWrites(origin: Origin)
    ensures WriteAll(origin, []) == origin
  {
  }

  lemma AfterNone(origin: Origin, world: nat -> Meanwhile)
    ensures After(origin, world, 0) == origin
  {
  }

  /** Whatever others write, validators keep naming one value. */
  ghost predicate Honest(origin: Origin, world: nat -> Meanwhile) {
    forall n: nat :: ValidatorsHold(After(origin, world, n))
  }

  lemma HonestNext(origin: Origin, world: nat -> Meanwhile, n: nat)
    requires Honest(origin, world)
    ensures ValidatorsHold(WriteAll(After(origin, world, n), world(n).writes))
    ensures After(origin, world, n + 1) == WriteAll(After(origin, world, n), world(n).writes)
  {
    assert ValidatorsHold(After(origin, world, n + 1));
  }

  lemma ExtendsSelf(origin: Origin)
    ensures Extends(origin, origin)
  {
  }

  lemma {:induction false} VersionFound(objects: seq<Object>, o: Object)
    requires o in objects && o.version.Some?
    requires forall p :: p in objects && p.version == o.version ==> p == o
    ensures FindVersion(objects, o.version) == Some(o)
  {
    var n := |objects| - 1;
    if objects[n].version != o.version {
      assert objects == objects[..n] + [objects[n]];
      VersionFound(objects[..n], o);
    }
  }

  /** A version just resolved is what the origin goes on serving under its own identity. */
  lemma CurrentIsServed(origin: Origin, path: string, version: Option<string>, o: Object)
    requires ValidatorsHold(origin) && Resolve(origin, path, version) == Some(o)
    requires version.Some? ==> o.version == version
    ensures var pinned := if version.Some? then version else o.version;
            Resolve(origin, path, pinned) == Some(o)
  {
    if o.version.Some? {
      assert o in origin[path];
      forall p | p in origin[path] && p.version == o.version
        ensures p == o
      {
        var i :| 0 <= i < |origin[path]| && origin[path][i] == p;
        var j :| 0 <= j < |origin[path]| && origin[path][j] == o;
        assert Consistent(origin[path][i], origin[path][j]);
      }
      VersionFound(origin[path], o);
    }
  }

  lemma StillThere(begun: Origin, before: Origin, now: Origin, path: string, o: Object)
    requires Extends(begun, before) && Extends(before, now) && path in begun && o in begun[path]
    ensures Extends(begun, now) && path in now && o in now[path]
  {
    forall p | p in begun
      ensures p in now && begun[p] <= now[p]
    {
      assert begun[p] <= before[p] && before[p] <= now[p];
    }
  }

  /** Before the last block, every block starts inside the request. */
  lemma NextBlockStarts(number: nat, last: nat, end: nat, g: nat)
    requires 0 < g && last == DivCeil(end, g) && number <= last
    ensures number == last || Times(number, g) < end
  {
    if number < last {
      assert number <= last - 1 && (last - 1) * g == last * g - g;
      assert number * g <= (last - 1) * g;
    }
  }

  /** A response that passes every check is a good block. */
  lemma FillIsGood(origin: Origin, k: BlockKey, cut: nat)
    requires k.start < k.size && 0 < k.geometry && (k.etag.Some? || k.version.Some?)
    requires Get(origin, k, cut).Some?
    requires var r := Get(origin, k, cut).value;
             && r.size == k.size && r.etag == k.etag && r.span == Span(k.start, BlockEnd(k))
             && |r.bytes| == BlockEnd(k) - k.start
    ensures BlockOk(origin, k, Get(origin, k, cut).value.bytes)
  {
    var o := Resolve(origin, k.path, k.version).value;
    assert o in origin[k.path];
    var i :| 0 <= i < |origin[k.path]| && origin[k.path][i] == o;
    assert Identifies(k, origin[k.path][i]);
  }
}
