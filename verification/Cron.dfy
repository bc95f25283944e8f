/** Five-field schedules: how they are read, which minutes they name, and how the next is found. */
module Cron {
  import opened Base
  import opened Calendar

  const U32_MAX := 0xFFFF_FFFF

  datatype FieldError = EmptyPiece | BadStep | ZeroStep | BadValue | OutOfRange | Overflow | WrongCount

  datatype Result<+T> = Ok(value: T) | Err(error: FieldError)

  /** One flag per value from `low`; `any` when the field was written as a lone star. */
  datatype Field = Field(allowed: seq<bool>, low: nat, any: bool)

  datatype Schedule = Schedule(minute: Field, hour: Field, day: Field, month: Field, weekday: Field)

  datatype Civil = Civil(month: int, day: int, hour: int, minute: int, weekday: int)

  // -------------------------------------------------------------------- text

  function TrimStart(s: string): string {
    if s != "" && IsWhitespace(s[0]) then TrimStart(s[1..]) else s
  }

  function TrimEnd(s: string): string {
    if s != "" && IsWhitespace(s[|s| - 1]) then TrimEnd(s[..|s| - 1]) else s
  }

  /** `str::trim`. */
  function Trim(s: string): string {
    TrimEnd(TrimStart(s))
  }

  /** The index of the first `c`, or the length. */
  function Find(s: string, c: char): (i: nat)
    ensures i <= |s|
    ensures i < |s| ==> s[i] == c
  {
    if s == "" || s[0] == c then 0 else 1 + Find(s[1..], c)
  }

  /** `str::split_once`. */
  function SplitOnce(s: string, c: char): Option<(string, string)> {
    var i := Find(s, c);
    if i == |s| then None else Some((s[..i], s[i + 1..]))
  }

  /** `str::split`: always at least one piece. */
  function Split(s: string, c: char): (parts: seq<string>)
    ensures parts != []
    decreases |s|
  {
    var i := Find(s, c);
    if i == |s| then [s] else [s[..i]] + Split(s[i + 1..], c)
  }

  /** `str::split_whitespace`. */
  function Words(s: string): seq<string> {
    WordsFrom(s, "")
  }

  function WordsFrom(s: string, word: string): seq<string> {
    if s == "" then if word == "" then [] else [word]
    else if IsWhitespace(s[0]) then (if word == "" then [] else [word]) + WordsFrom(s[1..], "")
    else WordsFrom(s[1..], word + [s[0]])
  }

  function DigitsValue(s: string): Option<nat> {
    if s == "" then Some(0)
    else
      var n := |s| - 1;
      match DigitsValue(s[..n])
      case None => None
      case Some(v) => if '0' <= s[n] <= '9' then Some(10 * v + (s[n] as int - '0' as int)) else None
  }

  /** `u32::from_str`: an optional plus sign, then at least one digit. */
  function ParseU32(s: string): Option<nat> {
    var digits := if s != "" && s[0] == '+' then s[1..] else s;
    if digits == "" then None
    else
      match DigitsValue(digits)
      case None => None
      case Some(v) => if v <= U32_MAX then Some(v) else None
  }

  // ------------------------------------------------------------------ fields

  datatype Piece = Piece(from: nat, to: nat, step: nat)

  /** The values a stepping loop visits: `from`, `from + step`, and so on. */
  predicate Reaches(from: nat, step: nat, v: nat)
    requires 0 < step
    decreases v + 1 - from
  {
    from <= v && (from == v || Reaches(from + step, step, v))
  }

  predicate Selects(p: Piece, v: nat)
    requires 0 < p.step
  {
    v <= p.to && Reaches(p.from, p.step, v)
  }

  /** The last value the loop visits. */
  function LastVisited(p: Piece): (last: nat)
    requires 0 < p.step && p.from <= p.to
    ensures last <= p.to < last + p.step
  {
    p.from + (p.to - p.from) / p.step * p.step
  }

  function RangeOf(range: string, step: nat, low: nat, high: nat): Result<Piece> {
    if range == "*" then Ok(Piece(low, high, step))
    else
      match SplitOnce(range, '-')
      case Some((from, to)) =>
        (match (ParseU32(Trim(from)), ParseU32(Trim(to)))
         case (Some(a), Some(b)) => Ok(Piece(a, b, step))
         case _ => Err(BadValue))
      case None =>
        (match ParseU32(Trim(range))
         case None => Err(BadValue)
         case Some(one) => Ok(Piece(one, if step == 1 then one else high, step)))
  }

  /** One comma-separated piece of a field. */
  function PieceOf(text: string, low: nat, high: nat): (r: Result<Piece>)
    ensures r.Ok? ==> 0 < r.value.step && low <= r.value.from <= r.value.to <= high
  {
    var part := Trim(text);
    if part == "" then Err(EmptyPiece)
    else
      var (range, stepText) := match SplitOnce(part, '/') case Some((a, b)) => (a, b) case None => (part, "1");
      match ParseU32(stepText)
      case None => Err(BadStep)
      case Some(step) =>
        if step == 0 then Err(ZeroStep)
        else
          match RangeOf(range, step, low, high)
          case Err(e) => Err(e)
          case Ok(p) =>
            if p.from < low || p.to > high || p.from > p.to then Err(OutOfRange)
            else if U32_MAX < LastVisited(p) + p.step then Err(Overflow)
            else Ok(p)
  }

  predicate PieceSelects(text: string, low: nat, high: nat, v: nat) {
    PieceOf(text, low, high).Ok? && Selects(PieceOf(text, low, high).value, v)
  }

  predicate AnySelects(parts: seq<string>, low: nat, high: nat, v: nat) {
    exists i :: 0 <= i < |parts| && PieceSelects(parts[i], low, high, v)
  }

  predicate AllPieces(parts: seq<string>, low: nat, high: nat) {
    forall i :: 0 <= i < |parts| ==> PieceOf(parts[i], low, high).Ok?
  }

  /** A field allows exactly the values that some piece of its text selects. */
  predicate FieldReads(f: Field, spec: string, low: nat, high: nat)
    requires low <= high
  {
    && f.low == low && |f.allowed| == high - low + 1
    && (f.any <==> Trim(spec) == "*")
    && forall k :: 0 <= k <= high - low ==> (f.allowed[k] <==> AnySelects(Split(spec, ','), low, high, low + k))
  }

  /** The marking loop of one piece. */
  method MarkPiece(allowed: array<bool>, low: nat, p: Piece)
    requires 0 < p.step && low <= p.from <= p.to < low + allowed.Length
    modifies allowed
    ensures forall k :: 0 <= k < allowed.Length ==> allowed[k] == (old(allowed[k]) || Selects(p, low + k))
  {
    var at := p.from;
    while at <= p.to
      invariant p.from <= at
      invariant forall k :: 0 <= k < allowed.Length ==>
                  allowed[k] == (old(allowed[k]) || (Selects(p, low + k) && !Reaches(at, p.step, low + k)))
      invariant forall v: nat :: Reaches(at, p.step, v) ==> Reaches(p.from, p.step, v)
      decreases p.to + 1 - at
    {
      assert forall v: nat :: Reaches(at, p.step, v) <==> v == at || Reaches(at + p.step, p.step, v);
      allowed[at - low] := true;
      at := at + p.step;
    }
  }

  /** `Field::parse`. */
  method ParseField(spec: string, low: nat, high: nat) returns (r: Result<Field>)
    requires low <= high
    ensures r.Ok? <==> AllPieces(Split(spec, ','), low, high)
    ensures r.Ok? ==> FieldReads(r.value, spec, low, high)
    ensures r.Err? ==> exists i :: 0 <= i < |Split(spec, ',')| && PieceOf(Split(spec, ',')[i], low, high) == Err(r.error)
  {
    hide PieceOf, Split, Trim, Selects;
    var parts := Split(spec, ',');
    var allowed := new bool[high - low + 1](_ => false);
    var i := 0;
    while i < |parts|
      invariant 0 <= i <= |parts|
      invariant forall j :: 0 <= j < i ==> PieceOf(parts[j], low, high).Ok?
      invariant forall k :: 0 <= k <= high - low ==> (allowed[k] <==> AnySelects(parts[..i], low, high, low + k))
    {
      var piece := PieceOf(parts[i], low, high);
      if piece.Err? {
        return Err(piece.error);
      }
      OneMorePiece(parts, i, low, high);
      MarkPiece(allowed, low, piece.value);
      i := i + 1;
    }
    assert parts[..i] == parts;
    return Ok(Field(allowed[..], low, Trim(spec) == "*"));
  }

  lemma OneMorePiece(parts: seq<string>, i: nat, low: nat, high: nat)
    requires i < |parts|
    ensures forall v: nat :: AnySelects(parts[..i + 1], low, high, v) <==>
                             AnySelects(parts[..i], low, high, v) || PieceSelects(parts[i], low, high, v)
  {
    hide PieceSelects;
    forall v: nat
      ensures AnySelects(parts[..i + 1], low, high, v) <==>
              AnySelects(parts[..i], low, high, v) || PieceSelects(parts[i], low, high, v)
    {
      assert parts[..i + 1] == parts[..i] + [parts[i]];
      if PieceSelects(parts[i], low, high, v) {
        assert parts[..i + 1][i] == parts[i];
      }
      if AnySelects(parts[..i], low, high, v) {
        var j :| 0 <= j < i && PieceSelects(parts[..i][j], low, high, v);
        assert parts[..i + 1][j] == parts[..i][j];
      }
    }
  }

  /** `Field::matches`. */
  predicate FieldMatches(f: Field, v: int) {
    f.low <= v < f.low + |f.allowed| && f.allowed[v - f.low]
  }

  /** What a parsed field always satisfies. */
  predicate ValidField(f: Field, low: nat, high: nat) {
    && f.low == low && |f.allowed| == high - low + 1
    && (exists v :: low <= v <= high && FieldMatches(f, v))
    && (f.any ==> forall v :: low <= v <= high ==> FieldMatches(f, v))
  }

  predicate ValidSchedule(s: Schedule) {
    && ValidField(s.minute, 0, 59) && ValidField(s.hour, 0, 23) && ValidField(s.day, 1, 31)
    && ValidField(s.month, 1, 12) && ValidField(s.weekday, 0, 6)
  }

  // ----------------------------------------------------- parsing gives valid fields

  lemma {:induction false} ReachesFirst(from: nat, v: nat)
    requires from <= v
    ensures Reaches(from, 1, v)
    decreases v - from
  {
    if from < v {
      ReachesFirst(from + 1, v);
    }
  }

  lemma {:induction false} TrimKeeps(s: string, c: char)
    requires c in s && !IsWhitespace(c)
    ensures c in TrimStart(s) && c in TrimEnd(s)
  {
    hide IsWhitespace;
    if IsWhitespace(s[0]) {
      assert s == [s[0]] + s[1..];
      TrimKeeps(s[1..], c);
    }
    if IsWhitespace(s[|s| - 1]) {
      assert s == s[..|s| - 1] + [s[|s| - 1]];
      TrimKeeps(s[..|s| - 1], c);
    }
  }

  /** A lone star selects every value. */
  lemma StarSelectsAll(spec: string, low: nat, high: nat, v: nat)
    requires Trim(spec) == "*" && low <= v <= high < U32_MAX
    ensures AnySelects(Split(spec, ','), low, high, v)
  {
    if ',' in spec {
      TrimKeeps(spec, ',');
      TrimKeeps(TrimStart(spec), ',');
      assert false;
    }
    assert Find(spec, ',') == |spec| && Split(spec, ',') == [spec];
    assert SplitOnce("*", '/') == None;
    assert DigitsValue("1"[..0]) == Some(0);
    assert ParseU32("1") == Some(1);
    assert PieceOf(spec, low, high) == Ok(Piece(low, high, 1));
    ReachesFirst(low, v);
    assert PieceSelects(Split(spec, ',')[0], low, high, v);
  }

  /** The value a piece starts from is one it selects, so a parsed field always allows something. */
  lemma PartSelectsItsStart(parts: seq<string>, i: nat, low: nat, high: nat) returns (v: nat)
    requires i < |parts| && PieceOf(parts[i], low, high).Ok?
    ensures low <= v <= high && AnySelects(parts, low, high, v)
  {
    hide PieceOf;
    v := PieceOf(parts[i], low, high).value.from;
    assert PieceSelects(parts[i], low, high, v);
  }

  method ParseValidField(spec: string, low: nat, high: nat) returns (r: Result<Field>)
    requires low <= high < U32_MAX
    ensures r.Ok? ==> ValidField(r.value, low, high) && FieldReads(r.value, spec, low, high)
    ensures r.Ok? <==> AllPieces(Split(spec, ','), low, high)
  {
    hide PieceOf, Trim, AnySelects;
    r := ParseField(spec, low, high);
    if r.Ok? {
      var f := r.value;
      ghost var parts := Split(spec, ',');
      assert 0 < |parts| && PieceOf(parts[0], low, high).Ok?;
      ghost var v := PartSelectsItsStart(parts, 0, low, high);
      assert FieldMatches(f, low + (v - low));
      if f.any {
        forall w | low <= w <= high
          ensures FieldMatches(f, w)
        {
          StarSelectsAll(spec, low, high, w);
          assert f.allowed[w - low] <==> AnySelects(Split(spec, ','), low, high, low + (w - low));
        }
      }
    }
  }

  /** Sunday may be written 7: every 7 of the weekday text is read as 0. */
  function SundayText(s: string): string {
    seq(|s|, i requires 0 <= i < |s| => if s[i] == '7' then '0' else s[i])
  }

  predicate Readable(fields: seq<string>) {
    && |fields| == 5
    && AllPieces(Split(fields[0], ','), 0, 59) && AllPieces(Split(fields[1], ','), 0, 23)
    && AllPieces(Split(fields[2], ','), 1, 31) && AllPieces(Split(fields[3], ','), 1, 12)
    && AllPieces(Split(SundayText(fields[4]), ','), 0, 6)
  }

  /** `Schedule::parse`. */
  method ParseSchedule(expression: string) returns (r: Result<Schedule>)
    ensures r.Ok? <==> Readable(Words(expression))
    ensures r.Ok? ==>
              var fields := Words(expression);
              && ValidSchedule(r.value)
              && FieldReads(r.value.minute, fields[0], 0, 59) && FieldReads(r.value.hour, fields[1], 0, 23)
              && FieldReads(r.value.day, fields[2], 1, 31) && FieldReads(r.value.month, fields[3], 1, 12)
              && FieldReads(r.value.weekday, SundayText(fields[4]), 0, 6)
  {
    hide ValidField, FieldReads, AllPieces, Split, SundayText, Words;
    var fields := Words(expression);
    if |fields| != 5 {
      return Err(WrongCount);
    }
    var minute := ParseValidField(fields[0], 0, 59);
    if minute.Err? {
      return Err(minute.error);
    }
    var hour := ParseValidField(fields[1], 0, 23);
    if hour.Err? {
      return Err(hour.error);
    }
    var day := ParseValidField(fields[2], 1, 31);
    if day.Err? {
      return Err(day.error);
    }
    var month := ParseValidField(fields[3], 1, 12);
    if month.Err? {
      return Err(month.error);
    }
    var weekday := ParseValidField(SundayText(fields[4]), 0, 6);
    if weekday.Err? {
      return Err(weekday.error);
    }
    return Ok(Schedule(minute.value, hour.value, day.value, month.value, weekday.value));
  }

  // ------------------------------------------------------------------ matching

  /** `Civil::from_epoch`. */
  function FromEpoch(seconds: int): Civil {
    var days := seconds / 86_400;
    var rest := seconds % 86_400;
    var date := CivilFromDays(days);
    Civil(date.month, date.day, rest / 3600, rest % 3600 / 60, (days + 4) % 7)
  }

  /** Both days restricted: either is enough. Otherwise both must match. */
  predicate DayMatches(s: Schedule, day: int, weekday: int) {
    if !s.day.any && !s.weekday.any then FieldMatches(s.day, day) || FieldMatches(s.weekday, weekday)
    else FieldMatches(s.day, day) && FieldMatches(s.weekday, weekday)
  }

  /** `Schedule::matches`. */
  predicate Matches(s: Schedule, at: Civil) {
    && FieldMatches(s.minute, at.minute) && FieldMatches(s.hour, at.hour) && FieldMatches(s.month, at.month)
    && DayMatches(s, at.day, at.weekday)
  }

  /** The schedule names the minute that contains this second. */
  predicate Names(s: Schedule, seconds: int) {
    Matches(s, FromEpoch(seconds))
  }

  /** Division that truncates toward zero. */
  function TruncDiv(a: int, b: int): int
    requires 0 < b
  {
    if 0 <= a then a / b else -(-a / b)
  }

  const WINDOW := 4 * 366 * 24 * 60 * 60

  /** Where the search for the minute after `after` begins. */
  function SearchStart(after: int): int {
    (TruncDiv(after, 60) + 1) * 60
  }

  /** No minute of the half-open range is named. */
  ghost predicate NothingNamed(s: Schedule, from: int, to: int) {
    forall t :: from <= t < to && t % 60 == 0 ==> !Names(s, t)
  }

  /** The first named minute of a range that starts on a minute. */
  function FirstNamed(s: Schedule, from: int, limit: int): (r: Option<int>)
    ensures r.Some? ==> from <= r.value < limit && Names(s, r.value)
    decreases limit - from
  {
    if limit <= from then None
    else if Names(s, from) then Some(from)
    else FirstNamed(s, from + 60, limit)
  }

  function NextNamed(s: Schedule, after: int): Option<int> {
    FirstNamed(s, SearchStart(after), SearchStart(after) + WINDOW)
  }

  /** `Schedule::next_after`. */
  method NextAfter(s: Schedule, after: int) returns (r: Option<int>)
    ensures r == NextNamed(s, after)
    ensures r.Some? ==>
              && SearchStart(after) <= r.value < SearchStart(after) + WINDOW
              && r.value % 60 == 0 && Names(s, r.value)
              && NothingNamed(s, SearchStart(after), r.value)
    ensures r.None? <==> NothingNamed(s, SearchStart(after), SearchStart(after) + WINDOW)
  {
    hide Names;
    var at := SearchStart(after);
    var limit := at + WINDOW;
    while at < limit
      invariant SearchStart(after) <= at <= limit && at % 60 == 0
      invariant NothingNamed(s, SearchStart(after), at)
      invariant NextNamed(s, after) == FirstNamed(s, at, limit)
    {
      if Names(s, at) {
        return Some(at);
      }
      at := at + 60;
    }
    return None;
  }
}
