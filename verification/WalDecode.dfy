/** Which recovered tails are accepted, record by record, and why the others are refused. */
module WalDecode {
  import opened Base
  import opened WalSpec

  /** A record this backend can take as the one at `lsn`: of its stream, linked to the one before, no
      newer than the bound, and with a readable payload of the same epoch that is a fence or its own. */
  predicate Fits(c: Config, r: Record, lsn: nat, bound: Option<u64>) {
    && r.stream == c.stream && r.lsn == lsn && r.committedLsn + 1 == lsn
    && (bound.Some? ==> r.writerEpoch <= bound.value)
    && Legible(c, r.payload, r.writerEpoch)
    && lsn < U64_MAX
  }

  predicate Legible(c: Config, payload: Bytes, epoch: u64) {
    match c.ipc(payload)
    case Corrupt => false
    case Entry(e, fence, owned) => e == epoch && (fence || owned)
  }

  predicate AllFit(c: Config, records: seq<Record>, first: nat, bound: Option<u64>) {
    forall i :: 0 <= i < |records| ==> Fits(c, records[i], first + i, bound)
  }

  function AsRecovered(records: seq<Record>): seq<Recovered> {
    seq(|records|, i requires 0 <= i < |records| =>
          Recovered(records[i].lsn, records[i].writerEpoch, records[i].payload))
  }

  lemma FitsIff(c: Config, r: Record, expected: u64, bound: Option<u64>)
    requires 1 <= expected
    ensures RecordError(c, r, expected, bound).None? <==> Fits(c, r, expected, bound)
  {
  }

  lemma {:induction false} DecodeFromIff(c: Config, records: seq<Record>, expected: u64, bound: Option<u64>)
    requires 1 <= expected
    ensures DecodeFrom(c, records, expected, bound).Answer? <==> AllFit(c, records, expected, bound)
    ensures DecodeFrom(c, records, expected, bound).Answer? ==>
              DecodeFrom(c, records, expected, bound).value == AsRecovered(records)
    decreases |records|
  {
    hide RecordError, Fits;
    if records != [] {
      FitsIff(c, records[0], expected, bound);
      FitsBelowLast(c, records[0], expected, bound);
      if Fits(c, records[0], expected, bound) {
        var rest := records[1..];
        DecodeFromIff(c, rest, expected + 1, bound);
        assert forall i :: 0 <= i < |rest| ==> rest[i] == records[i + 1] && expected + 1 + i == expected + (i + 1);
        if AllFit(c, rest, expected + 1, bound) {
          forall i | 0 <= i < |records| ensures Fits(c, records[i], expected + i, bound) {
            if i > 0 {
              assert Fits(c, rest[i - 1], expected + 1 + (i - 1), bound);
            }
          }
        }
        if AllFit(c, records, expected, bound) {
          forall i | 0 <= i < |rest| ensures Fits(c, rest[i], expected + 1 + i, bound) {
            assert Fits(c, records[i + 1], expected + (i + 1), bound);
          }
        }
        assert AsRecovered(records)
            == [Recovered(records[0].lsn, records[0].writerEpoch, records[0].payload)] + AsRecovered(rest);
      }
    }
  }

  lemma FitsBelowLast(c: Config, r: Record, lsn: nat, bound: Option<u64>)
    ensures Fits(c, r, lsn, bound) ==> lsn < U64_MAX
  {
  }

  /** A gateway's answer is accepted exactly when every record of it fits at its place after the
      watermark, and then all of it is returned. */
  lemma DecodeIff(c: Config, after: u64, records: seq<Record>, bound: Option<u64>)
    ensures var decoded := Decode(c, after, Answer(records), bound);
            && (decoded.Answer? <==> after < U64_MAX && AllFit(c, records, after + 1, bound))
            && (decoded.Answer? ==> decoded.value == AsRecovered(records))
  {
    hide DecodeFrom, AllFit, AsRecovered;
    if after < U64_MAX {
      DecodeFromIff(c, records, after + 1, bound);
    }
  }

  /** What is wrong with the first record that does not fit. */
  function Fault(c: Config, r: Record, lsn: nat, bound: Option<u64>): WalError {
    if r.stream != c.stream then RecoveryStreamMismatch
    else if !(r.lsn == lsn && r.committedLsn + 1 == lsn) then RecoveryGap
    else if bound.Some? && bound.value < r.writerEpoch then Fenced
    else
      match c.ipc(r.payload)
      case Corrupt => CorruptIpc
      case Entry(e, fence, owned) =>
        if e != r.writerEpoch then CorruptIpc else if !fence && !owned then OwnerMismatch else InvalidPosition
  }

  lemma FaultIs(c: Config, r: Record, expected: u64, bound: Option<u64>)
    requires 1 <= expected && !Fits(c, r, expected, bound)
    ensures RecordError(c, r, expected, bound) == Some(Fault(c, r, expected, bound))
  {
  }

  lemma {:induction false} FirstFaultFrom(c: Config, records: seq<Record>, expected: u64, bound: Option<u64>, k: nat)
    requires 1 <= expected && k < |records| && AllFit(c, records[..k], expected, bound)
    requires !Fits(c, records[k], expected + k, bound)
    ensures DecodeFrom(c, records, expected, bound) == Refused(Fault(c, records[k], expected + k, bound))
    decreases k
  {
    hide RecordError, Fits, Fault;
    if k == 0 {
      FaultIs(c, records[0], expected, bound);
    } else {
      assert records[..k][0] == records[0] && Fits(c, records[..k][0], expected + 0, bound);
      FitsIff(c, records[0], expected, bound);
      FitsBelowLast(c, records[0], expected, bound);
      var rest := records[1..];
      var front := rest[..k - 1];
      forall i | 0 <= i < k - 1 ensures Fits(c, front[i], expected + 1 + i, bound) {
        assert front[i] == records[..k][i + 1];
        assert Fits(c, records[..k][i + 1], expected + (i + 1), bound);
      }
      FirstFaultFrom(c, rest, expected + 1, bound, k - 1);
    }
  }

  /** A refused answer is refused for its first record that does not fit. */
  lemma FirstFault(c: Config, after: u64, records: seq<Record>, bound: Option<u64>, k: nat)
    requires after < U64_MAX && k < |records| && AllFit(c, records[..k], after + 1, bound)
    requires !Fits(c, records[k], after + 1 + k, bound)
    ensures Decode(c, after, Answer(records), bound) == Refused(Fault(c, records[k], after + 1 + k, bound))
  {
    hide DecodeFrom, AllFit, Fits, Fault;
    FirstFaultFrom(c, records, after + 1, bound, k);
  }
}
