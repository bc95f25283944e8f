/** The bounded binary form of encrypted records and of batches of them. */
module Codec {
  import opened Base

  type byte = n: nat | n < 256

  type Bytes = seq<byte>

  const MAX_STREAM_BYTES := 4 * 1024
  const MAX_CIPHERTEXT_BYTES := 8 * 1024 * 1024
  const TAG_BYTES := 16
  const MAX_PLAINTEXT_BYTES := MAX_CIPHERTEXT_BYTES - TAG_BYTES
  const AUTHENTICATION_BYTES := 32
  const NONCE_BYTES := 24
  const FIXED_BYTES := 4 + 8 + 8 + 8 + NONCE_BYTES + 4 + AUTHENTICATION_BYTES
  const MAX_RECORD_BYTES := FIXED_BYTES + MAX_STREAM_BYTES + MAX_CIPHERTEXT_BYTES
  const MAX_BATCH_RECORDS := 1024
  const MAX_BATCH_BYTES := 32 * 1024 * 1024

  /** An encrypted record; the stream name is kept as its UTF-8 bytes. */
  datatype Record = Record(
    stream: Bytes, writerEpoch: u64, lsn: u64, committedLsn: u64, nonce: Bytes, ciphertext: Bytes,
    authentication: Bytes)

  // ------------------------------------------------------------- little-endian

  function Pow256(k: nat): nat {
    if k == 0 then 1 else 256 * Pow256(k - 1)
  }

  function Le(n: nat, k: nat): (b: Bytes)
    ensures |b| == k
  {
    if k == 0 then [] else [n % 256] + Le(n / 256, k - 1)
  }

  function FromLe(b: Bytes): nat {
    if b == [] then 0 else b[0] + 256 * FromLe(b[1..])
  }

  lemma {:induction false} FromLeBound(b: Bytes)
    ensures FromLe(b) < Pow256(|b|)
  {
    if b != [] {
      FromLeBound(b[1..]);
    }
  }

  lemma {:induction false} LeRoundTrip(n: nat, k: nat)
    requires n < Pow256(k)
    ensures FromLe(Le(n, k)) == n
  {
    if 0 < k {
      assert Le(n, k)[1..] == Le(n / 256, k - 1);
      LeRoundTrip(n / 256, k - 1);
    }
  }

  lemma {:induction false} FromLeRoundTrip(b: Bytes)
    ensures Le(FromLe(b), |b|) == b
  {
    if b != [] {
      FromLeRoundTrip(b[1..]);
      assert b == [b[0]] + b[1..];
    }
  }

  lemma Widths()
    ensures Pow256(4) == 0x1_0000_0000 && Pow256(8) == U64_MAX + 1
  {
    assert Pow256(2) == 65_536 && Pow256(4) == 65_536 * Pow256(2) && Pow256(6) == 65_536 * Pow256(4);
  }

  // ---------------------------------------------------------------------- UTF-8

  predicate Continues(s: Bytes, i: nat) {
    i < |s| && 0x80 <= s[i] < 0xC0
  }

  /** How many bytes the first character takes, or zero when it is malformed. */
  function FirstChar(s: Bytes): (n: nat)
    requires s != []
    ensures n <= |s|
  {
    var b := s[0];
    if b < 0x80 then 1
    else if 0xC2 <= b < 0xE0 && Continues(s, 1) then 2
    else if 0xE0 <= b < 0xF0 && Continues(s, 1) && Continues(s, 2)
            && (b == 0xE0 ==> 0xA0 <= s[1]) && (b == 0xED ==> s[1] < 0xA0) then 3
    else if 0xF0 <= b < 0xF5 && Continues(s, 1) && Continues(s, 2) && Continues(s, 3)
            && (b == 0xF0 ==> 0x90 <= s[1]) && (b == 0xF4 ==> s[1] < 0x90) then 4
    else 0
  }

  predicate ValidUtf8(s: Bytes) {
    s == [] || (0 < FirstChar(s) && ValidUtf8(s[FirstChar(s)..]))
  }

  // --------------------------------------------------------------------- records

  /** What the type of a record already guarantees. */
  predicate WellFormed(r: Record) {
    ValidUtf8(r.stream) && |r.nonce| == NONCE_BYTES && |r.authentication| == AUTHENTICATION_BYTES
  }

  /** `binary_encoded_len`. */
  function EncodedLen(r: Record): Option<nat> {
    if r.stream == [] || MAX_STREAM_BYTES < |r.stream| || MAX_CIPHERTEXT_BYTES < |r.ciphertext| then None
    else Some(FIXED_BYTES + |r.stream| + |r.ciphertext|)
  }

  function SequenceFields(r: Record): Bytes {
    Le(r.writerEpoch, 8) + Le(r.lsn, 8) + Le(r.committedLsn, 8) + r.nonce
  }

  /** Everything after the stream name. */
  function Tail(r: Record): Bytes {
    SequenceFields(r) + Le(|r.ciphertext|, 4) + r.ciphertext + r.authentication
  }

  function Layout(r: Record): Bytes {
    Le(|r.stream|, 4) + r.stream + Tail(r)
  }

  function Encode(r: Record): Option<Bytes> {
    if EncodedLen(r).None? then None else Some(Layout(r))
  }

  function DecodeTail(stream: Bytes, b: Bytes): Option<Record> {
    if |b| < 52 then None
    else
      var n := FromLe(b[48..52]);
      if MAX_CIPHERTEXT_BYTES < n || |b| != 52 + n + AUTHENTICATION_BYTES then None
      else Some(Record(stream, Le64(b, 0), Le64(b, 8), Le64(b, 16), b[24..48], b[52..52 + n], b[52 + n..]))
  }

  function Le64(b: Bytes, at: nat): u64
    requires at + 8 <= |b|
  {
    FromLeBound(b[at..at + 8]);
    Widths();
    FromLe(b[at..at + 8])
  }

  function Decode(b: Bytes): Option<Record> {
    if MAX_RECORD_BYTES < |b| || |b| < 4 then None
    else
      var n := FromLe(b[..4]);
      if n == 0 || MAX_STREAM_BYTES < n || |b| < 4 + n then None
      else if !ValidUtf8(b[4..4 + n]) then None
      else DecodeTail(b[4..4 + n], b[4 + n..])
  }

  /** `encode_binary`. */
  method EncodeBinary(r: Record) returns (out: Option<Bytes>)
    ensures out == Encode(r)
  {
    if EncodedLen(r).None? {
      return None;
    }
    var encoded := Le(|r.stream|, 4);
    encoded := encoded + r.stream;
    var fields := Le(r.writerEpoch, 8) + Le(r.lsn, 8) + Le(r.committedLsn, 8);
    fields := fields + r.nonce;
    fields := fields + Le(|r.ciphertext|, 4);
    fields := fields + r.ciphertext;
    fields := fields + r.authentication;
    return Some(encoded + fields);
  }

  /** `take_bytes`, on a cursor kept as the bytes that are left. */
  method TakeBytes(left: Bytes, n: nat) returns (taken: Option<Bytes>, rest: Bytes)
    ensures taken.Some? <==> n <= |left|
    ensures taken.Some? ==> taken.value == left[..n] && rest == left[n..]
    ensures taken.None? ==> rest == left
  {
    if |left| < n {
      return None, left;
    }
    return Some(left[..n]), left[n..];
  }

  /** `decode_binary`. */
  method DecodeBinary(b: Bytes) returns (out: Option<Record>)
    ensures out == Decode(b)
  {
    hide ValidUtf8, FromLe;
    if MAX_RECORD_BYTES < |b| {
      return None;
    }
    var raw, rest := TakeBytes(b, 4);
    if raw.None? {
      return None;
    }
    var n := FromLe(raw.value);
    if n == 0 || MAX_STREAM_BYTES < n {
      return None;
    }
    var stream;
    stream, rest := TakeBytes(rest, n);
    if stream.None? {
      return None;
    }
    assert stream.value == b[4..4 + n] && rest == b[4 + n..];
    if !ValidUtf8(stream.value) {
      return None;
    }
    out := DecodeFields(stream.value, rest);
  }

  /** `read_u64`. */
  method ReadU64(left: Bytes) returns (value: Option<u64>, rest: Bytes)
    ensures value.Some? <==> 8 <= |left|
    ensures value.Some? ==> value.value == Le64(left, 0) && rest == left[8..]
  {
    var raw;
    raw, rest := TakeBytes(left, 8);
    if raw.None? {
      return None, rest;
    }
    assert raw.value == left[0..8];
    return Some(Le64(left, 0)), rest;
  }

  /** The three sequence fields and the nonce. */
  method DecodeSequence(b: Bytes) returns (fields: Option<(u64, u64, u64, Bytes)>, rest: Bytes)
    ensures fields.Some? <==> 48 <= |b|
    ensures fields.Some? ==> fields.value == (Le64(b, 0), Le64(b, 8), Le64(b, 16), b[24..48]) && rest == b[48..]
  {
    hide FromLe;
    var epoch, lsn, committed, nonce;
    epoch, rest := ReadU64(b);
    if epoch.None? {
      return None, rest;
    }
    assert |b| >= 16 ==> rest[0..8] == b[8..16];
    lsn, rest := ReadU64(rest);
    if lsn.None? {
      return None, rest;
    }
    assert rest == b[16..];
    assert |b| >= 24 ==> rest[0..8] == b[16..24];
    committed, rest := ReadU64(rest);
    if committed.None? {
      return None, rest;
    }
    assert rest == b[24..];
    nonce, rest := TakeBytes(rest, NONCE_BYTES);
    if nonce.None? {
      return None, rest;
    }
    assert nonce.value == b[24..48] && rest == b[48..];
    return Some((epoch.value, lsn.value, committed.value, nonce.value)), rest;
  }

  /** The part of `decode_binary` after the stream name. */
  method DecodeFields(stream: Bytes, b: Bytes) returns (out: Option<Record>)
    ensures out == DecodeTail(stream, b)
  {
    hide FromLe, Le64;
    var fields, length, ciphertext, authentication, rest;
    fields, rest := DecodeSequence(b);
    if fields.None? {
      return None;
    }
    length, rest := TakeBytes(rest, 4);
    if length.None? {
      return None;
    }
    assert rest == b[52..] && length.value == b[48..52];
    var n := FromLe(length.value);
    if MAX_CIPHERTEXT_BYTES < n || |rest| != n + AUTHENTICATION_BYTES {
      return None;
    }
    ciphertext, rest := TakeBytes(rest, n);
    authentication, rest := TakeBytes(rest, AUTHENTICATION_BYTES);
    assert ciphertext.value == b[52..52 + n] && authentication.value == b[52 + n..];
    var (epoch, lsn, committed, nonce) := fields.value;
    return Some(Record(stream, epoch, lsn, committed, nonce, ciphertext.value, authentication.value));
  }

  // ------------------------------------------------------------ record round trips

  lemma LayoutLength(r: Record)
    requires WellFormed(r)
    ensures |Layout(r)| == FIXED_BYTES + |r.stream| + |r.ciphertext|
  {
  }

  lemma TailDecodes(r: Record)
    requires WellFormed(r) && |r.ciphertext| <= MAX_CIPHERTEXT_BYTES
    ensures DecodeTail(r.stream, Tail(r)) == Some(r)
  {
    hide Le, FromLe, ValidUtf8;
    Widths();
    var b := Tail(r);
    assert b[0..8] == Le(r.writerEpoch, 8) && b[8..16] == Le(r.lsn, 8) && b[16..24] == Le(r.committedLsn, 8);
    assert b[24..48] == r.nonce && b[48..52] == Le(|r.ciphertext|, 4);
    LeRoundTrip(r.writerEpoch, 8);
    LeRoundTrip(r.lsn, 8);
    LeRoundTrip(r.committedLsn, 8);
    LeRoundTrip(|r.ciphertext|, 4);
    assert b[52..] == r.ciphertext + r.authentication;
    assert b[52..52 + |r.ciphertext|] == r.ciphertext;
    assert b[52 + |r.ciphertext|..] == r.authentication;
  }

  /** Decoding undoes encoding. */
  lemma DecodeUndoesEncode(r: Record)
    requires WellFormed(r) && Encode(r).Some?
    ensures Decode(Encode(r).value) == Some(r)
  {
    hide Le, FromLe, ValidUtf8, Tail, DecodeTail;
    Widths();
    LayoutLength(r);
    var b := Layout(r);
    assert b[..4] == Le(|r.stream|, 4);
    LeRoundTrip(|r.stream|, 4);
    assert b[4..4 + |r.stream|] == r.stream && b[4 + |r.stream|..] == Tail(r);
    TailDecodes(r);
  }

  lemma TailReencodes(stream: Bytes, b: Bytes)
    requires DecodeTail(stream, b).Some?
    ensures var r := DecodeTail(stream, b).value;
            && r.stream == stream && |r.nonce| == NONCE_BYTES && |r.authentication| == AUTHENTICATION_BYTES
            && |r.ciphertext| <= MAX_CIPHERTEXT_BYTES && Tail(r) == b
  {
    hide Le, FromLe;
    var r := DecodeTail(stream, b).value;
    FromLeRoundTrip(b[0..8]);
    FromLeRoundTrip(b[8..16]);
    FromLeRoundTrip(b[16..24]);
    FromLeRoundTrip(b[48..52]);
    assert SequenceFields(r) == b[..48];
    assert Tail(r) == b[..48] + b[48..52] + r.ciphertext + r.authentication;
  }

  /** Accepted bytes are exactly what their record encodes to. */
  lemma EncodeUndoesDecode(b: Bytes)
    requires Decode(b).Some?
    ensures WellFormed(Decode(b).value) && Encode(Decode(b).value) == Some(b)
  {
    hide Le, FromLe, ValidUtf8, Tail, DecodeTail;
    var n := FromLe(b[..4]);
    TailReencodes(b[4..4 + n], b[4 + n..]);
    FromLeRoundTrip(b[..4]);
    assert b == b[..4] + b[4..4 + n] + b[4 + n..];
  }

  // --------------------------------------------------------------------- batches

  /** Every record can be encoded. */
  predicate AllEncodable(records: seq<Record>) {
    forall i :: 0 <= i < |records| ==> EncodedLen(records[i]).Some?
  }

  predicate AllWellFormed(records: seq<Record>) {
    forall i :: 0 <= i < |records| ==> WellFormed(records[i])
  }

  /** The length the frames will have. */
  function FramesLen(records: seq<Record>): nat {
    if records == [] then 0
    else
      var n := |records| - 1;
      FramesLen(records[..n]) + 4 + FIXED_BYTES + |records[n].stream| + |records[n].ciphertext|
  }

  function Frame(r: Record): Bytes {
    Le(|Layout(r)|, 4) + Layout(r)
  }

  function Frames(records: seq<Record>): Bytes {
    if records == [] then [] else Frames(records[..|records| - 1]) + Frame(records[|records| - 1])
  }

  function EncodeBatch(records: seq<Record>): Option<Bytes> {
    if records == [] || MAX_BATCH_RECORDS < |records| || !AllEncodable(records) then None
    else if MAX_BATCH_BYTES < 4 + FramesLen(records) then None
    else Some(Le(|records|, 4) + Frames(records))
  }

  function DecodeFrames(b: Bytes, count: nat): Option<seq<Record>>
    decreases count
  {
    if count == 0 then if b == [] then Some([]) else None
    else if |b| < 4 then None
    else
      var n := FromLe(b[..4]);
      if n == 0 || MAX_RECORD_BYTES < n || |b| < 4 + n then None
      else
        match Decode(b[4..4 + n])
        case None => None
        case Some(r) =>
          match DecodeFrames(b[4 + n..], count - 1)
          case None => None
          case Some(rest) => Some([r] + rest)
  }

  function DecodeBatch(b: Bytes): Option<seq<Record>> {
    if MAX_BATCH_BYTES < |b| || |b| < 4 then None
    else
      var count := FromLe(b[..4]);
      if count == 0 || MAX_BATCH_RECORDS < count then None else DecodeFrames(b[4..], count)
  }

  /** The length loop of `encode_binary_batch`: `None` when some record cannot be encoded. */
  method BatchLength(records: seq<Record>) returns (total: Option<nat>)
    ensures total == if AllEncodable(records) then Some(4 + FramesLen(records)) else None
  {
    var sum := 4;
    var i := 0;
    while i < |records|
      invariant 0 <= i <= |records|
      invariant AllEncodable(records[..i]) && sum == 4 + FramesLen(records[..i])
    {
      assert records[..i + 1][..i] == records[..i];
      var n := EncodedLen(records[i]);
      if n.None? {
        return None;
      }
      sum := sum + 4 + n.value;
      i := i + 1;
    }
    assert records[..i] == records;
    return Some(sum);
  }

  /** `encode_binary_batch`. */
  method EncodeBinaryBatch(records: seq<Record>) returns (out: Option<Bytes>)
    ensures out == EncodeBatch(records)
  {
    hide Layout, Le, FramesLen;
    if records == [] || MAX_BATCH_RECORDS < |records| {
      return None;
    }
    var total := BatchLength(records);
    if total.None? || MAX_BATCH_BYTES < total.value {
      return None;
    }
    var encoded := Le(|records|, 4);
    var i := 0;
    while i < |records|
      invariant 0 <= i <= |records|
      invariant encoded == Le(|records|, 4) + Frames(records[..i])
    {
      assert records[..i + 1][..i] == records[..i];
      var record := EncodeBinary(records[i]);
      assert record == Some(Layout(records[i]));
      encoded := encoded + (Le(|record.value|, 4) + record.value);
      i := i + 1;
    }
    assert records[..i] == records;
    return Some(encoded);
  }

  /** `decode_binary_batch`. */
  method DecodeBinaryBatch(b: Bytes) returns (out: Option<seq<Record>>)
    ensures out == DecodeBatch(b)
  {
    hide Decode, FromLe;
    if MAX_BATCH_BYTES < |b| {
      return None;
    }
    var raw, rest := TakeBytes(b, 4);
    if raw.None? {
      return None;
    }
    var count := FromLe(raw.value);
    if count == 0 || MAX_BATCH_RECORDS < count {
      return None;
    }
    var records: seq<Record> := [];
    assert forall more: seq<Record> :: records + more == more;
    var i := 0;
    while i < count
      invariant 0 <= i <= count
      invariant match DecodeFrames(rest, count - i)
                case None => DecodeBatch(b).None?
                case Some(more) => DecodeBatch(b) == Some(records + more)
    {
      ghost var before := rest;
      raw, rest := TakeBytes(rest, 4);
      if raw.None? {
        return None;
      }
      var n := FromLe(raw.value);
      if n == 0 || MAX_RECORD_BYTES < n {
        return None;
      }
      var frame;
      frame, rest := TakeBytes(rest, n);
      if frame.None? {
        return None;
      }
      assert frame.value == before[4..4 + n] && rest == before[4 + n..];
      var record := DecodeBinary(frame.value);
      if record.None? {
        return None;
      }
      assert forall more :: records + ([record.value] + more) == records + [record.value] + more;
      records := records + [record.value];
      i := i + 1;
    }
    if rest != [] {
      return None;
    }
    assert records + [] == records;
    return Some(records);
  }

  // ------------------------------------------------------------- batch round trips

  /** Encoding frames from the front. */
  lemma {:induction false} FramesFront(records: seq<Record>)
    requires records != []
    ensures Frames(records) == Frame(records[0]) + Frames(records[1..])
  {
    hide Frame;
    var n := |records| - 1;
    if n == 0 {
      assert records[..0] == [] && records[1..] == [];
    } else {
      FramesFront(records[..n]);
      assert records[..n][1..] == records[1..][..n - 1];
      assert records[1..][n - 1] == records[n];
    }
  }

  lemma {:induction false} FramesLength(records: seq<Record>)
    requires AllWellFormed(records)
    ensures |Frames(records)| == FramesLen(records)
  {
    hide Layout;
    if records != [] {
      FramesLength(records[..|records| - 1]);
      LayoutLength(records[|records| - 1]);
    }
  }

  lemma {:induction false} FramesDecode(records: seq<Record>)
    requires AllWellFormed(records) && AllEncodable(records)
    ensures DecodeFrames(Frames(records), |records|) == Some(records)
    decreases |records|
  {
    hide Layout, Decode, Le, FromLe, Frames;
    if records == [] {
      assert Frames([]) == [] by { NoFrames(); }
    } else {
      var r := records[0];
      FramesFront(records);
      LayoutLength(r);
      Widths();
      LeRoundTrip(|Layout(r)|, 4);
      var b := Frames(records);
      assert b[..4] == Le(|Layout(r)|, 4);
      assert b[4..4 + |Layout(r)|] == Layout(r);
      assert b[4 + |Layout(r)|..] == Frames(records[1..]);
      DecodeUndoesEncode(r);
      FramesDecode(records[1..]);
      assert EncodedLen(r).Some? && records == [r] + records[1..];
    }
  }

  lemma NoFrames()
    ensures Frames([]) == []
  {
  }

  lemma {:induction false} FramesReencode(b: Bytes, count: nat)
    requires DecodeFrames(b, count).Some?
    ensures var records := DecodeFrames(b, count).value;
            |records| == count && AllWellFormed(records) && AllEncodable(records) && Frames(records) == b
    decreases count
  {
    hide Layout, Decode, Le, FromLe, Frames;
    if count == 0 {
      NoFrames();
    } else {
      var n := FromLe(b[..4]);
      var r := Decode(b[4..4 + n]).value;
      EncodeUndoesDecode(b[4..4 + n]);
      FromLeRoundTrip(b[..4]);
      FramesReencode(b[4 + n..], count - 1);
      var records := DecodeFrames(b, count).value;
      FramesFront(records);
      assert records[1..] == DecodeFrames(b[4 + n..], count - 1).value;
      assert b == b[..4] + b[4..4 + n] + b[4 + n..];
    }
  }

  /** Decoding a batch undoes encoding it. */
  lemma DecodeBatchUndoesEncode(records: seq<Record>)
    requires AllWellFormed(records) && EncodeBatch(records).Some?
    ensures DecodeBatch(EncodeBatch(records).value) == Some(records)
  {
    hide Frames, DecodeFrames, Le, FromLe;
    var b := EncodeBatch(records).value;
    FramesLength(records);
    FramesDecode(records);
    Widths();
    LeRoundTrip(|records|, 4);
    assert b[..4] == Le(|records|, 4) && b[4..] == Frames(records);
  }

  /** Accepted batch bytes are exactly what their records encode to. */
  lemma EncodeBatchUndoesDecode(b: Bytes)
    requires DecodeBatch(b).Some?
    ensures AllWellFormed(DecodeBatch(b).value) && EncodeBatch(DecodeBatch(b).value) == Some(b)
  {
    hide Frames, DecodeFrames, Le, FromLe;
    var count := FromLe(b[..4]);
    FramesReencode(b[4..], count);
    FramesLength(DecodeBatch(b).value);
    FromLeRoundTrip(b[..4]);
    assert b == b[..4] + b[4..];
  }

  // ------------------------------------------------------- the length client predicts

  /** The length `append_many` adds up before anything is encrypted. */
  function PredictedLen(stream: nat, payloads: seq<nat>): nat {
    if payloads == [] then 4
    else
      var n := |payloads| - 1;
      PredictedLen(stream, payloads[..n]) + 4 + FIXED_BYTES + stream + TAG_BYTES + payloads[n]
  }

  /** The size checks of `append_many`. */
  predicate ClientAdmits(stream: nat, payloads: seq<nat>) {
    && 0 < |payloads| <= MAX_BATCH_RECORDS
    && 0 < stream <= MAX_STREAM_BYTES
    && (forall i :: 0 <= i < |payloads| ==> payloads[i] <= MAX_PLAINTEXT_BYTES)
    && PredictedLen(stream, payloads) <= MAX_BATCH_BYTES
  }

  method PredictLength(stream: nat, payloads: seq<nat>) returns (total: nat)
    ensures total == PredictedLen(stream, payloads)
  {
    total := 4;
    var i := 0;
    while i < |payloads|
      invariant 0 <= i <= |payloads|
      invariant total == PredictedLen(stream, payloads[..i])
    {
      assert payloads[..i + 1][..i] == payloads[..i];
      total := total + 4 + FIXED_BYTES + stream + TAG_BYTES + payloads[i];
      i := i + 1;
    }
    assert payloads[..i] == payloads;
  }

  /** The records are the encryptions of these payloads under one stream name. */
  predicate Encrypts(records: seq<Record>, stream: nat, payloads: seq<nat>) {
    && |records| == |payloads| && AllWellFormed(records)
    && forall i :: 0 <= i < |records| ==>
         |records[i].stream| == stream && |records[i].ciphertext| == payloads[i] + TAG_BYTES
  }

  lemma {:induction false} PredictionHolds(records: seq<Record>, stream: nat, payloads: seq<nat>)
    requires Encrypts(records, stream, payloads)
    ensures PredictedLen(stream, payloads) == 4 + FramesLen(records)
  {
    if records != [] {
      PredictionHolds(records[..|records| - 1], stream, payloads[..|payloads| - 1]);
    }
  }

  /** The client's size checks pass exactly when the codec will encode the batch, and the length it
      predicted is the length of the encoding. */
  lemma PredictionIsExact(records: seq<Record>, stream: nat, payloads: seq<nat>)
    requires Encrypts(records, stream, payloads)
    ensures ClientAdmits(stream, payloads) <==> EncodeBatch(records).Some?
    ensures EncodeBatch(records).Some? ==> |EncodeBatch(records).value| == PredictedLen(stream, payloads)
  {
    hide Frames, FramesLen, PredictedLen;
    PredictionHolds(records, stream, payloads);
    FramesLength(records);
    if AllEncodable(records) && records != [] {
      assert EncodedLen(records[0]).Some?;
      forall i | 0 <= i < |payloads|
        ensures payloads[i] <= MAX_PLAINTEXT_BYTES
      {
        assert EncodedLen(records[i]).Some?;
      }
    }
  }
}
