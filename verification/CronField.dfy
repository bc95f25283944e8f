/** The weekday field by its numbers, piece by piece and as a whole. */
module CronField {
  import opened Base
  import opened Cron
  import CronTheorems
  import opened CronWeekday

  // ------------------------------------------------------------------ numerals

  /** The value of a numeral, however large. */
  function NumberOf(s: string): Option<nat> {
    var digits := if s != "" && s[0] == '+' then s[1..] else s;
    if digits == "" then None else DigitsValue(digits)
  }

  /** A number with every digit 7 replaced by 0. */
  function FoldNumber(v: nat): nat {
    if v == 0 then 0 else 10 * FoldNumber(v / 10) + Fold(v % 10)
  }

  /** A weekday piece as written: a star, a lone value or a span, and its step. */
  datatype Numerals = Star(step: nat) | Lone(value: nat, step: nat) | Spanning(first: nat, last: nat, step: nat)

  function FoldNumerals(n: Numerals): Numerals {
    match n
    case Star(step) => Star(FoldNumber(step))
    case Lone(value, step) => Lone(FoldNumber(value), FoldNumber(step))
    case Spanning(first, last, step) => Spanning(FoldNumber(first), FoldNumber(last), FoldNumber(step))
  }

  function RangeNumerals(range: string, step: nat): Option<Numerals> {
    if range == "*" then Some(Star(step))
    else
      match SplitOnce(range, '-')
      case Some((from, to)) =>
        (match (NumberOf(Trim(from)), NumberOf(Trim(to)))
         case (Some(a), Some(b)) => Some(Spanning(a, b, step))
         case _ => None)
      case None =>
        (match NumberOf(Trim(range))
         case None => None
         case Some(one) => Some(Lone(one, step)))
  }

  /** The numbers of a piece; `None` when it is not made of numerals. */
  function NumeralsOf(text: string): Option<Numerals> {
    var part := Trim(text);
    if part == "" then None
    else
      match NumberOf(StepText(part))
      case None => None
      case Some(step) => RangeNumerals(RangeText(part), step)
  }

  /** The piece that numbers make, before any bound is checked. */
  function PieceFrom(n: Numerals): Piece {
    match n
    case Star(step) => Piece(0, 6, step)
    case Lone(value, step) => Piece(value, if step == 1 then value else Max(value, 6), step)
    case Spanning(first, last, step) => Piece(first, last, step)
  }

  /** The numbers are a piece of a week whose days go up to `top`. */
  predicate InWeek(n: Numerals, top: nat) {
    var p := PieceFrom(n);
    0 < p.step <= U32_MAX && p.from <= p.to <= top && LastVisited(p) + p.step <= U32_MAX
  }

  /** What the documentation allows, and what the code accepts. */
  predicate Documented(n: Numerals) { InWeek(n, 7) }

  predicate Accepted(n: Numerals) { InWeek(FoldNumerals(n), 6) }

  // ----------------------------------------------------------- replacing in numerals

  lemma {:induction false} FoldDigits(s: string)
    ensures DigitsValue(SundayText(s))
            == match DigitsValue(s) case None => None case Some(v) => Some(FoldNumber(v))
  {
    if s != "" {
      var n := |s| - 1;
      FoldDigits(s[..n]);
      assert SundayText(s)[..n] == SundayText(s[..n]);
      if DigitsValue(s).Some? {
        var v, d := DigitsValue(s[..n]).value, s[n] as int - '0' as int;
        assert (10 * v + d) / 10 == v && (10 * v + d) % 10 == d;
      }
    }
  }

  lemma FoldsNumber(s: string)
    ensures NumberOf(SundayText(s)) == match NumberOf(s) case None => None case Some(v) => Some(FoldNumber(v))
  {
    hide DigitsValue, FoldNumber;
    FoldDigits(s);
    if s != "" {
      FoldDigits(s[1..]);
      assert SundayText(s)[1..] == SundayText(s[1..]);
    }
  }

  lemma BoundedNumber(s: string)
    ensures ParseU32(s)
            == if NumberOf(s).Some? && NumberOf(s).value <= U32_MAX then NumberOf(s) else None
  {
    hide DigitsValue;
  }

  lemma FoldsNumerals(text: string)
    ensures NumeralsOf(SundayText(text))
            == match NumeralsOf(text) case None => None case Some(n) => Some(FoldNumerals(n))
  {
    hide Trim, SundayText, SplitOnce, NumberOf, FoldNumber;
    PartsCommute(text);
    SundayEmpty(Trim(text));
    FoldsNumber(StepText(Trim(text)));
    if Trim(text) != "" && NumberOf(StepText(Trim(text))).Some? {
      FoldsRange(RangeText(Trim(text)), NumberOf(StepText(Trim(text))).value);
    }
  }

  lemma FoldsRange(range: string, step: nat)
    ensures RangeNumerals(SundayText(range), FoldNumber(step))
            == match RangeNumerals(range, step) case None => None case Some(n) => Some(FoldNumerals(n))
  {
    hide Trim, SundayText, SplitOnce, NumberOf, FoldNumber;
    StarStays(range);
    SundaySplit(range, '-');
    match SplitOnce(range, '-') {
      case Some((from, to)) =>
        SundayTrim(from);
        SundayTrim(to);
        FoldsNumber(Trim(from));
        FoldsNumber(Trim(to));
      case None =>
        SundayTrim(range);
        FoldsNumber(Trim(range));
    }
  }

  // ------------------------------------------------------------ pieces by their numbers

  lemma RangeByNumbers(range: string, step: nat)
    requires 0 < step <= U32_MAX
    ensures match DocumentedRange(range, step)
            case Ok(p) => RangeNumerals(range, step).Some? && PieceFrom(RangeNumerals(range, step).value) == p
            case Err(_) => RangeNumerals(range, step).Some? ==> !Documented(RangeNumerals(range, step).value)
  {
    hide Trim, SplitOnce, NumberOf, ParseU32, LastVisited;
    match SplitOnce(range, '-') {
      case Some((from, to)) =>
        BoundedNumber(Trim(from));
        BoundedNumber(Trim(to));
      case None => BoundedNumber(Trim(range));
    }
  }

  /** The documentation's reading, in numbers. */
  lemma DocumentedByNumbers(text: string)
    ensures match NumeralsOf(text)
            case None => DocumentedPiece(text).Err?
            case Some(n) =>
              && (DocumentedPiece(text).Ok? <==> Documented(n))
              && (Documented(n) ==> DocumentedPiece(text).value == PieceFrom(n))
  {
    hide Trim, SplitOnce, NumberOf, ParseU32, LastVisited, DocumentedRange, RangeNumerals, StepText, RangeText;
    var part := Trim(text);
    BoundedNumber(StepText(part));
    if part != "" && NumberOf(StepText(part)).Some? {
      var step := NumberOf(StepText(part)).value;
      NumeralStep(RangeText(part), step);
      if 0 < step <= U32_MAX {
        RangeByNumbers(RangeText(part), step);
      }
    }
  }

  lemma NumeralStep(range: string, step: nat)
    ensures RangeNumerals(range, step).Some? ==> PieceFrom(RangeNumerals(range, step).value).step == step
  {
  }

  lemma NeverSeven(v: nat)
    ensures FoldNumber(v) != 7
  {
  }

  /** The code's reading, in numbers. */
  lemma CodeByNumbers(text: string)
    ensures match NumeralsOf(text)
            case None => CodePiece(text).Err?
            case Some(n) =>
              && (CodePiece(text).Ok? <==> Accepted(n))
              && (Accepted(n) ==> CodePiece(text).value == PieceFrom(FoldNumerals(n)))
  {
    hide NumeralsOf, DocumentedPiece, CodePiece, SundayText, FoldNumber, LastVisited;
    ReadsReplacedText(text);
    FoldsNumerals(text);
    DocumentedByNumbers(SundayText(text));
    match NumeralsOf(text) {
      case None =>
      case Some(Star(step)) =>
      case Some(Lone(value, step)) => NeverSeven(value);
      case Some(Spanning(first, last, step)) => NeverSeven(last);
    }
  }

  /** For every text, by its numbers: the code reads the piece as documented exactly when it accepts
      what the documentation allows and the two pieces name the same days, or neither takes it. */
  lemma PieceReadIff(text: string)
    ensures ReadAsDocumented(text)
       <==> match NumeralsOf(text)
            case None => true
            case Some(n) =>
              && (Documented(n) <==> Accepted(n))
              && (Documented(n) ==> SameDays(PieceFrom(n), PieceFrom(FoldNumerals(n))))
  {
    hide DocumentedPiece, CodePiece, SundayText, Selects, DocumentedSelects, SameDays, NumeralsOf, Documented, Accepted;
    DocumentedByNumbers(text);
    CodeByNumbers(text);
    ReadsReplacedText(text);
    ReadAsDocumentedIff(text);
  }

  /** The step runs past the 32-bit range. */
  predicate Overruns(p: Piece) {
    0 < p.step && p.from <= p.to && U32_MAX < LastVisited(p) + p.step
  }

  /** Which pieces the documentation refuses and the code accepts: those that folding brings into the
      week although they have a value above 7, a span that descends, or a step past the 32-bit range. */
  lemma AcceptedAnywayIff(text: string)
    ensures DocumentedPiece(text).Err? && CodePiece(text).Ok?
       <==> match NumeralsOf(text)
            case None => false
            case Some(n) =>
              && Accepted(n)
              && match n
                 case Star(_) => Overruns(PieceFrom(n))
                 case Lone(value, _) => 7 < value || Overruns(PieceFrom(n))
                 case Spanning(first, last, _) => 7 < last || last < first || Overruns(PieceFrom(n))
  {
    hide DocumentedPiece, CodePiece, NumeralsOf, LastVisited, FoldNumber;
    DocumentedByNumbers(text);
    CodeByNumbers(text);
    assert FoldNumber(0) == 0 by { FoldZero(); }
  }

  lemma FoldZero()
    ensures FoldNumber(0) == 0
  {
  }

  // ------------------------------------------------------------------ the whole field

  /** The day is one of the arithmetic progression the piece names. */
  predicate OnDay(p: Piece, day: nat)
    requires 0 < p.step
  {
    p.from <= day <= p.to && (day - p.from) % p.step == 0
  }

  /** The days a piece names, as documented and as the code reads it. */
  predicate DocumentedDay(n: Numerals, day: nat) {
    Documented(n) && (OnDay(PieceFrom(n), day) || (day == 0 && OnDay(PieceFrom(n), 7)))
  }

  predicate CodeDay(n: Numerals, day: nat) {
    Accepted(n) && OnDay(PieceFrom(FoldNumerals(n)), day)
  }

  /** The pieces of a field, by their numbers. */
  function FieldNumerals(spec: string): (ns: seq<Option<Numerals>>)
    ensures |ns| == |Split(spec, ',')|
  {
    var parts := Split(spec, ',');
    seq(|parts|, i requires 0 <= i < |parts| => NumeralsOf(parts[i]))
  }

  predicate AllDocumented(ns: seq<Option<Numerals>>) {
    forall i :: 0 <= i < |ns| ==> ns[i].Some? && Documented(ns[i].value)
  }

  predicate AllAccepted(ns: seq<Option<Numerals>>) {
    forall i :: 0 <= i < |ns| ==> ns[i].Some? && Accepted(ns[i].value)
  }

  predicate NamesDocumented(ns: seq<Option<Numerals>>, day: nat) {
    exists i :: 0 <= i < |ns| && ns[i].Some? && DocumentedDay(ns[i].value, day)
  }

  predicate NamesInCode(ns: seq<Option<Numerals>>, day: nat) {
    exists i :: 0 <= i < |ns| && ns[i].Some? && CodeDay(ns[i].value, day)
  }

  /** What the documentation makes of a whole field: refused unless every piece is one, and the days
      some piece names. */
  predicate DocumentedField(spec: string) {
    forall i :: 0 <= i < |Split(spec, ',')| ==> DocumentedPiece(Split(spec, ',')[i]).Ok?
  }

  predicate DocumentedFieldDay(spec: string, day: nat) {
    exists i :: 0 <= i < |Split(spec, ',')| && PieceNames(Split(spec, ',')[i], day)
  }

  predicate PieceNames(text: string, day: nat) {
    DocumentedPiece(text).Ok? && DocumentedSelects(DocumentedPiece(text).value, day)
  }

  /** The code reads the whole field as documented. */
  predicate FieldAsDocumented(spec: string) {
    var texts := Split(SundayText(spec), ',');
    && (DocumentedField(spec) <==> AllPieces(texts, 0, 6))
    && (DocumentedField(spec) ==>
          forall day | 0 <= day <= 6 :: AnySelects(texts, 0, 6, day) <==> DocumentedFieldDay(spec, day))
  }

  /** Commas stay where they are. */
  lemma {:induction false} SundayPieces(spec: string)
    ensures |Split(SundayText(spec), ',')| == |Split(spec, ',')|
    ensures forall i :: 0 <= i < |Split(spec, ',')| ==> Split(SundayText(spec), ',')[i] == SundayText(Split(spec, ',')[i])
    decreases |spec|
  {
    hide SundayText;
    SundayFind(spec, ',');
    SundayLength(spec);
    var i := Find(spec, ',');
    if i < |spec| {
      SundaySlice(spec, 0, i);
      SundaySlice(spec, i + 1, |spec|);
      assert spec[0..i] == spec[..i] && spec[i + 1..|spec|] == spec[i + 1..];
      var t := SundayText(spec);
      assert t[0..i] == t[..i] && t[i + 1..|t|] == t[i + 1..];
      SundayPieces(spec[i + 1..]);
    }
  }

  lemma SelectsOnDay(p: Piece, day: nat)
    requires 0 < p.step
    ensures Selects(p, day) <==> OnDay(p, day)
  {
    hide Reaches;
    CronTheorems.ReachesProgression(p.from, p.step, day);
  }

  /** One piece of the field, in numbers. */
  lemma PieceByNumbers(text: string, day: nat)
    ensures PieceNames(text, day) <==> NumeralsOf(text).Some? && DocumentedDay(NumeralsOf(text).value, day)
    ensures PieceSelects(SundayText(text), 0, 6, day) <==> NumeralsOf(text).Some? && CodeDay(NumeralsOf(text).value, day)
    ensures DocumentedPiece(text).Ok? <==> NumeralsOf(text).Some? && Documented(NumeralsOf(text).value)
    ensures PieceOf(SundayText(text), 0, 6).Ok? <==> NumeralsOf(text).Some? && Accepted(NumeralsOf(text).value)
  {
    hide DocumentedPiece, PieceOf, NumeralsOf, SundayText, Selects, OnDay, FoldNumerals, LastVisited, PieceFrom;
    DocumentedByNumbers(text);
    CodeByNumbers(text);
    if DocumentedPiece(text).Ok? {
      SelectsOnDay(DocumentedPiece(text).value, day);
      SelectsOnDay(DocumentedPiece(text).value, 7);
    }
    if CodePiece(text).Ok? {
      SelectsOnDay(CodePiece(text).value, day);
    }
  }

  lemma FieldByNumbers(spec: string, day: nat)
    ensures var ns := FieldNumerals(spec);
            var texts := Split(SundayText(spec), ',');
            && (DocumentedField(spec) <==> AllDocumented(ns))
            && (AllPieces(texts, 0, 6) <==> AllAccepted(ns))
            && (DocumentedFieldDay(spec, day) <==> NamesDocumented(ns, day))
            && (AnySelects(texts, 0, 6, day) <==> NamesInCode(ns, day))
  {
    hide DocumentedPiece, PieceOf, NumeralsOf, SundayText, PieceNames, PieceSelects, DocumentedDay, CodeDay, Documented,
         Accepted, Split;
    var parts, texts, ns := Split(spec, ','), Split(SundayText(spec), ','), FieldNumerals(spec);
    SundayPieces(spec);
    forall i | 0 <= i < |parts|
      ensures && texts[i] == SundayText(parts[i]) && ns[i] == NumeralsOf(parts[i])
              && (PieceNames(parts[i], day) <==> ns[i].Some? && DocumentedDay(ns[i].value, day))
              && (PieceSelects(texts[i], 0, 6, day) <==> ns[i].Some? && CodeDay(ns[i].value, day))
              && (DocumentedPiece(parts[i]).Ok? <==> ns[i].Some? && Documented(ns[i].value))
              && (PieceOf(texts[i], 0, 6).Ok? <==> ns[i].Some? && Accepted(ns[i].value))
    {
      PieceByNumbers(parts[i], day);
    }
  }

  /** For every weekday field, by the numbers of its pieces: the code reads it as documented exactly
      when it accepts it just when the documentation allows it, and then the progressions of all its
      pieces together reach the same days before and after folding. */
  lemma FieldReadIff(spec: string)
    ensures var ns := FieldNumerals(spec);
            FieldAsDocumented(spec) <==>
              && (AllDocumented(ns) <==> AllAccepted(ns))
              && (AllDocumented(ns) ==> forall day | 0 <= day <= 6 :: NamesDocumented(ns, day) <==> NamesInCode(ns, day))
  {
    hide DocumentedField, AllPieces, DocumentedFieldDay, AnySelects, AllDocumented, AllAccepted, NamesDocumented,
         NamesInCode, SundayText, Split, FieldNumerals;
    FieldByNumbers(spec, 0);
    forall day | 0 <= day <= 6
      ensures (DocumentedFieldDay(spec, day) <==> NamesDocumented(FieldNumerals(spec), day))
              && (AnySelects(Split(SundayText(spec), ','), 0, 6, day) <==> NamesInCode(FieldNumerals(spec), day))
    {
      FieldByNumbers(spec, day);
    }
  }

  /** A field all of whose pieces are read as documented is read so itself. */
  lemma PiecesMakeField(spec: string)
    requires forall i :: 0 <= i < |Split(spec, ',')| ==> ReadAsDocumented(Split(spec, ',')[i])
    ensures FieldAsDocumented(spec)
  {
    hide DocumentedPiece, PieceOf, SundayText, Split, Selects, DocumentedSelects;
    var parts, texts := Split(spec, ','), Split(SundayText(spec), ',');
    SundayPieces(spec);
    assert forall i :: 0 <= i < |parts| ==> texts[i] == SundayText(parts[i]) && ReadAsDocumented(parts[i]);
    forall day | 0 <= day <= 6 && DocumentedField(spec)
      ensures AnySelects(texts, 0, 6, day) <==> DocumentedFieldDay(spec, day)
    {
      assert forall i :: 0 <= i < |parts| ==> (PieceSelects(texts[i], 0, 6, day) <==> PieceNames(parts[i], day));
    }
  }

  /** What the parsed weekday field allows is what the numbers say. */
  lemma ParsedFieldByNumbers(f: Field, spec: string, day: nat)
    requires FieldReads(f, SundayText(spec), 0, 6) && day <= 6
    ensures FieldMatches(f, day) <==> NamesInCode(FieldNumerals(spec), day)
  {
    hide AnySelects, NamesInCode, SundayText, Split, FieldNumerals, Trim;
    FieldByNumbers(spec, day);
    assert f.allowed[day - 0] <==> AnySelects(Split(SundayText(spec), ','), 0, 6, 0 + day);
  }

  const MIXED := [Some(Spanning(0, 7, 1)), Some(Spanning(1, 6, 1))]

  lemma MixedTaken()
    ensures AllDocumented(MIXED) && AllAccepted(MIXED)
  {
    hide FoldNumber;
    SmallFolds();
  }

  lemma EveryDay(p: Piece, day: nat)
    requires p.step == 1 && p.from <= day <= p.to
    ensures OnDay(p, day)
  {
  }

  lemma MixedDays(day: nat)
    requires day <= 6
    ensures NamesDocumented(MIXED, day) && NamesInCode(MIXED, day)
  {
    hide FoldNumber, OnDay;
    SmallFolds();
    MixedTaken();
    EveryDay(Piece(0, 7, 1), day);
    assert DocumentedDay(MIXED[0].value, day);
    if day == 0 {
      EveryDay(Piece(0, 0, 1), 0);
      assert CodeDay(MIXED[0].value, day);
    } else {
      EveryDay(Piece(1, 6, 1), day);
      assert CodeDay(MIXED[1].value, day);
    }
  }

  /** `0-7,1-6` is read as documented, although its first piece is not. */
  lemma MixedFieldAgrees()
    ensures FieldAsDocumented("0-7,1-6") && !ReadAsDocumented("0-7")
  {
    hide FieldAsDocumented, ReadAsDocumented, NamesDocumented, NamesInCode, FieldNumerals, AllDocumented, AllAccepted;
    WholeWeekToSeven();
    MixedNumerals();
    MixedTaken();
    forall day | 0 <= day <= 6 ensures NamesDocumented(MIXED, day) && NamesInCode(MIXED, day) {
      MixedDays(day);
    }
    FieldReadIff("0-7,1-6");
  }

  lemma SmallFolds()
    ensures FoldNumber(0) == FoldNumber(7) == 0 && FoldNumber(1) == 1 && FoldNumber(6) == 6
  {
  }

  lemma MixedNumerals()
    ensures FieldNumerals("0-7,1-6") == MIXED
  {
    hide NumeralsOf;
    SpanNumerals('0', '7');
    SpanNumerals('1', '6');
    var spec := "0-7,1-6";
    CommaAtThree(spec);
    assert spec[..3] == "0-7" && spec[4..] == "1-6";
  }

  lemma CommaAtThree(spec: string)
    requires |spec| == 7 && spec[3] == ',' && ',' !in spec[..3] && ',' !in spec[4..]
    ensures Split(spec, ',') == [spec[..3], spec[4..]]
  {
    FirstComma(spec, 3);
    NoComma(spec[4..]);
  }

  lemma {:induction false} FirstComma(s: string, i: nat)
    requires i < |s| && s[i] == ',' && ',' !in s[..i]
    ensures Find(s, ',') == i
  {
    if i > 0 {
      assert s[0] in s[..i];
      assert forall c :: c in s[1..][..i - 1] ==> c in s[..i] by { assert s[1..][..i - 1] == s[1..i]; }
      FirstComma(s[1..], i - 1);
    }
  }

  lemma {:induction false} NoComma(s: string)
    requires ',' !in s
    ensures Find(s, ',') == |s|
  {
    if s != "" {
      NoComma(s[1..]);
    }
  }

  lemma SpanNumerals(a: char, b: char)
    requires '0' <= a <= '9' && '0' <= b <= '9'
    ensures NumeralsOf([a, '-', b]) == Some(Spanning((a - '0') as nat, (b - '0') as nat, 1))
  {
    hide Trim, ParseU32, SplitOnce, Find;
    DigitRange(a, b);
    DigitNumber(a);
    DigitNumber(b);
    DigitNumber('1');
  }

  lemma DigitNumber(c: char)
    requires '0' <= c <= '9'
    ensures Trim([c]) == [c] && NumberOf([c]) == Some((c - '0') as nat)
  {
    Digit(c);
    BoundedNumber([c]);
  }
}
