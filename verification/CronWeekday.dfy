/** Sunday written as 7: what the documentation says, what the text replacement does, and exactly
    when the two name the same days. */
module CronWeekday {
  import opened Base
  import opened Cron

  /** A weekday piece as documented: values from 0 to 7, of which 7 is Sunday too, and the step as
      written. A lone value with a step runs to the end of the week. */
  function DocumentedPiece(text: string): (r: Result<Piece>)
    ensures r.Ok? ==> 0 < r.value.step && r.value.from <= r.value.to <= 7
  {
    var part := Trim(text);
    if part == "" then Err(EmptyPiece)
    else
      match ParseU32(StepText(part))
      case None => Err(BadStep)
      case Some(step) =>
        if step == 0 then Err(ZeroStep)
        else
          match DocumentedRange(RangeText(part), step)
          case Err(e) => Err(e)
          case Ok(p) =>
            if p.to > 7 || p.from > p.to then Err(OutOfRange)
            else if U32_MAX < LastVisited(p) + p.step then Err(Overflow)
            else Ok(p)
  }

  function DocumentedRange(range: string, step: nat): Result<Piece> {
    if range == "*" then Ok(Piece(0, 6, step))
    else
      match SplitOnce(range, '-')
      case Some((from, to)) =>
        (match (ParseU32(Trim(from)), ParseU32(Trim(to)))
         case (Some(a), Some(b)) => Ok(Piece(a, b, step))
         case _ => Err(BadValue))
      case None =>
        (match ParseU32(Trim(range))
         case None => Err(BadValue)
         case Some(one) => Ok(Piece(one, if step == 1 then one else Max(one, 6), step)))
  }

  function RangeText(part: string): string {
    match SplitOnce(part, '/') case Some((a, _)) => a case None => part
  }

  function StepText(part: string): string {
    match SplitOnce(part, '/') case Some((_, b)) => b case None => "1"
  }

  /** The piece as the code reads it. */
  function CodePiece(text: string): Result<Piece> {
    PieceOf(SundayText(text), 0, 6)
  }

  /** The days of the week a documented piece names. */
  predicate DocumentedSelects(p: Piece, day: nat)
    requires 0 < p.step
  {
    Selects(p, day) || (day == 0 && Selects(p, 7))
  }

  /** The code reads the piece as documented: it refuses what it should, and names the same days. */
  predicate ReadAsDocumented(text: string) {
    match (CodePiece(text), DocumentedPiece(text))
    case (Ok(c), Ok(d)) => forall day | 0 <= day <= 6 :: Selects(c, day) <==> DocumentedSelects(d, day)
    case (Err(_), Err(_)) => true
    case _ => false
  }

  // ------------------------------------------------- replacing digits in the text

  lemma SundayLength(s: string)
    ensures |SundayText(s)| == |s|
    ensures forall i :: 0 <= i < |s| ==> SundayText(s)[i] == if s[i] == '7' then '0' else s[i]
  {
  }

  lemma SundaySlice(s: string, i: nat, j: nat)
    requires i <= j <= |s|
    ensures SundayText(s)[i..j] == SundayText(s[i..j])
  {
  }

  lemma Spaces(c: char)
    ensures IsWhitespace(if c == '7' then '0' else c) == IsWhitespace(c)
  {
  }

  lemma {:induction false} SundayTrimStart(s: string)
    ensures TrimStart(SundayText(s)) == SundayText(TrimStart(s))
  {
    hide IsWhitespace;
    if s != "" {
      Spaces(s[0]);
      SundaySlice(s, 1, |s|);
      SundayTrimStart(s[1..]);
      assert SundayText(s)[1..] == SundayText(s[1..]);
    }
  }

  lemma {:induction false} SundayTrimEnd(s: string)
    ensures TrimEnd(SundayText(s)) == SundayText(TrimEnd(s))
  {
    hide IsWhitespace;
    if s != "" {
      var n := |s| - 1;
      Spaces(s[n]);
      SundaySlice(s, 0, n);
      SundayTrimEnd(s[..n]);
      assert SundayText(s)[..n] == SundayText(s[..n]);
    }
  }

  lemma SundayTrim(s: string)
    ensures Trim(SundayText(s)) == SundayText(Trim(s))
  {
    hide TrimStart, TrimEnd;
    SundayTrimStart(s);
    SundayTrimEnd(TrimStart(s));
  }

  lemma {:induction false} SundayFind(s: string, c: char)
    requires c != '0' && c != '7'
    ensures Find(SundayText(s), c) == Find(s, c)
  {
    if s != "" {
      SundayFind(s[1..], c);
      assert SundayText(s)[1..] == SundayText(s[1..]);
    }
  }

  /** The separators stay where they are. */
  lemma SundaySplit(s: string, c: char)
    requires c != '0' && c != '7'
    ensures SplitOnce(SundayText(s), c)
            == match SplitOnce(s, c)
               case None => None
               case Some((a, b)) => Some((SundayText(a), SundayText(b)))
  {
    SundayFind(s, c);
    var i := Find(s, c);
    if i < |s| {
      SundaySlice(s, 0, i);
      SundaySlice(s, i + 1, |s|);
      assert SundayText(s)[..i] == SundayText(s[..i]) && SundayText(s)[i + 1..] == SundayText(s[i + 1..]);
    }
  }

  /** How replacing its sevens changes the value of a numeral: not at all, or down by at least
      seven; 7 becomes 0 and smaller values stay. */
  predicate Folded(v: nat, w: nat) {
    && (w == v || w + 7 <= v)
    && (v <= 6 ==> w == v)
    && (v == 7 ==> w == 0)
  }

  lemma {:induction false} SundayDigits(s: string)
    ensures match DigitsValue(s)
            case None => DigitsValue(SundayText(s)) == None
            case Some(v) => DigitsValue(SundayText(s)).Some? && Folded(v, DigitsValue(SundayText(s)).value)
  {
    if s != "" {
      var n := |s| - 1;
      SundayDigits(s[..n]);
      assert SundayText(s)[..n] == SundayText(s[..n]);
    }
  }

  lemma SundayNumber(s: string)
    ensures ParseU32(s).Some? ==> ParseU32(SundayText(s)).Some? && Folded(ParseU32(s).value, ParseU32(SundayText(s)).value)
  {
    hide DigitsValue;
    SundayDigits(s);
    if s != "" {
      SundayDigits(s[1..]);
      assert SundayText(s)[1..] == SundayText(s[1..]);
    }
  }

  // --------------------------------------------------------- what the code makes of it

  /** The step the code reads. */
  function CodeStep(text: string): Option<nat> {
    ParseU32(SundayText(StepText(Trim(text))))
  }

  function Fold(v: nat): nat {
    if v == 7 then 0 else v
  }

  /** The piece the code reads for a documented one, by the step it reads. */
  predicate CodeRange(d: Piece, step: nat, c: Piece) {
    && c.step == step && c.from == Fold(d.from)
    && (d.to <= 6 && step == d.step ==> c.to == d.to)
    && c.to <= 6
    && (|| c.to == Fold(d.to)
        || (c.to == 6 && (d.to == 6 || d.from == d.to == 7))
        || (step == 1 && c.to == c.from && d.from + d.step > d.to))
    && (1 <= d.from <= 6 && d.to == 7 <==> c.from > c.to)
  }

  lemma PartsCommute(text: string)
    ensures var part := Trim(text);
            && Trim(SundayText(text)) == SundayText(part)
            && RangeText(SundayText(part)) == SundayText(RangeText(part))
            && StepText(SundayText(part)) == SundayText(StepText(part))
  {
    hide Trim, SplitOnce, SundayText;
    SundayTrim(text);
    SundaySplit(Trim(text), '/');
    assert SundayText("1") == "1" by { One(); }
  }

  lemma One()
    ensures SundayText("1") == "1" && SundayText("*") == "*"
  {
  }

  /** A star is replaced by itself only. */
  lemma StarStays(s: string)
    ensures SundayText(s) == "*" <==> s == "*"
  {
    One();
    if SundayText(s) == "*" {
      assert |s| == 1 && SundayText(s)[0] == '*';
    }
  }

  lemma CodeRangeRead(range: string, step: nat, code: nat)
    requires DocumentedRange(range, step).Ok?
    requires var d := DocumentedRange(range, step).value; 0 < step && d.from <= d.to <= 7
    requires Folded(step, code)
    ensures RangeOf(SundayText(range), code, 0, 6).Ok?
    ensures code != 0 ==> CodeRange(DocumentedRange(range, step).value, code, RangeOf(SundayText(range), code, 0, 6).value)
  {
    hide Trim, ParseU32, SplitOnce, SundayText;
    StarStays(range);
    if range != "*" {
      SundaySplit(range, '-');
      match SplitOnce(range, '-') {
        case Some((from, to)) =>
          SundayTrim(from);
          SundayTrim(to);
          SundayNumber(Trim(from));
          SundayNumber(Trim(to));
        case None =>
          SundayTrim(range);
          SundayNumber(Trim(range));
      }
    }
  }

  /** What the code makes of a piece the documentation allows. */
  lemma CodeReads(text: string)
    requires DocumentedPiece(text).Ok?
    ensures var d := DocumentedPiece(text).value;
            && CodeStep(text).Some? && Folded(d.step, CodeStep(text).value)
            && (CodePiece(text).Ok? <==> CodeStep(text) != Some(0) && !(1 <= d.from <= 6 && d.to == 7))
            && (CodePiece(text).Ok? ==> CodeRange(d, CodeStep(text).value, CodePiece(text).value))
  {
    hide Trim, ParseU32, SplitOnce, SundayText, DocumentedRange, RangeOf, LastVisited, Folded;
    PartsCommute(text);
    var part := Trim(text);
    SundayNumber(StepText(part));
    SundayEmpty(part);
    var d, code, step := DocumentedPiece(text).value, CodeStep(text).value, ParseU32(StepText(part)).value;
    CodeSteps(text);
    RangeKeepsStep(RangeText(part), step);
    assert DocumentedRange(RangeText(part), step) == Ok(d) && d.step == step;
    CodeRangeRead(RangeText(part), d.step, code);
    if code != 0 {
      var c := RangeOf(SundayText(RangeText(part)), code, 0, 6).value;
      if c.from <= c.to {
        CodeRangeFits(d, code, c);
      }
    }
  }

  lemma SundayEmpty(s: string)
    ensures SundayText(s) == "" <==> s == ""
  {
    SundayLength(s);
  }

  lemma RangeKeepsStep(range: string, step: nat)
    ensures DocumentedRange(range, step).Ok? ==> DocumentedRange(range, step).value.step == step
  {
  }

  /** The parts `PieceOf` takes a text into. */
  lemma CodeSteps(text: string)
    ensures var part := Trim(SundayText(text));
            CodePiece(text)
            == if part == "" then Err(EmptyPiece)
               else
                 match ParseU32(StepText(part))
                 case None => Err(BadStep)
                 case Some(step) =>
                   if step == 0 then Err(ZeroStep)
                   else
                     match RangeOf(RangeText(part), step, 0, 6)
                     case Err(e) => Err(e)
                     case Ok(p) =>
                       if p.to > 6 || p.from > p.to then Err(OutOfRange)
                       else if U32_MAX < LastVisited(p) + p.step then Err(Overflow)
                       else Ok(p)
  {
    hide Trim, ParseU32, SplitOnce, SundayText, RangeOf, LastVisited;
  }

  /** Reading smaller numbers never runs into the overflow the documented piece stays clear of. */
  lemma CodeRangeFits(d: Piece, code: nat, c: Piece)
    requires 0 < d.step && d.from <= d.to <= 7 && LastVisited(d) + d.step <= U32_MAX
    requires Folded(d.step, code) && 0 < code && CodeRange(d, code, c) && c.from <= c.to
    ensures LastVisited(c) + c.step <= U32_MAX
  {
    if code == d.step && d.to == 7 && c.from < c.to {
      assert d.from == 7 && (d.to - d.from) / d.step == 0;
    }
  }

  // ----------------------------------------------------- when the two name the same days

  /** A piece that names one day of the week only. */
  predicate OneDay(p: Piece) {
    p.from + p.step > p.to || (p.from == 0 && p.to == 7 && p.step == 7)
  }

  /** The two pieces name the same days: the numbers came through untouched, or both name only the
      day they start on. */
  predicate SameDays(d: Piece, c: Piece) {
    (d.to <= 6 && c.step == d.step) || (OneDay(d) && OneDay(c))
  }

  lemma StartsAndNext(p: Piece)
    requires 0 < p.step && p.from <= p.to
    ensures Selects(p, p.from)
    ensures p.from + p.step <= p.to ==> Selects(p, p.from + p.step)
  {
  }

  lemma OnlyStart(p: Piece, v: nat)
    requires 0 < p.step && p.from <= p.to && p.from + p.step > p.to
    ensures Selects(p, v) <==> v == p.from
  {
    assert v <= p.to ==> !Reaches(p.from + p.step, p.step, v);
  }

  lemma DocumentedOneDay(d: Piece, day: nat)
    requires 0 < d.step && d.from <= d.to <= 7 && OneDay(d) && day <= 6
    ensures DocumentedSelects(d, day) <==> day == Fold(d.from)
  {
    if d.from + d.step > d.to {
      OnlyStart(d, day);
      OnlyStart(d, 7);
    } else {
      assert !Reaches(7, 7, day) && Reaches(7, 7, 7);
    }
  }

  /** A documented piece that names more than one day names the second day it visits. */
  lemma DocumentedMore(d: Piece)
    requires 0 < d.step && d.from <= d.to <= 7 && !OneDay(d)
    ensures var second := Fold(d.from + d.step);
            second <= 6 && second != Fold(d.from) && DocumentedSelects(d, second)
  {
    StartsAndNext(d);
  }

  /** By the numbers. */
  lemma SameDaysIff(d: Piece, step: nat, c: Piece)
    requires 0 < d.step && d.from <= d.to <= 7 && 0 < step && Folded(d.step, step)
    requires CodeRange(d, step, c) && c.from <= c.to
    ensures SameDays(d, c) <==> forall day | 0 <= day <= 6 :: Selects(c, day) <==> DocumentedSelects(d, day)
  {
    hide Selects, DocumentedSelects;
    if d.to <= 6 && c.step == d.step {
      assert c == d;
      forall day | 0 <= day <= 6 ensures Selects(c, day) <==> DocumentedSelects(d, day) { SameWithinWeek(d, day); }
    } else if !OneDay(c) {
      StartsAndNext(c);
      var second := c.from + c.step;
      assert OneDay(d);
      DocumentedOneDay(d, second);
    } else if !OneDay(d) {
      DocumentedMore(d);
      OnlyStart(c, Fold(d.from + d.step));
    } else {
      forall day | 0 <= day <= 6 ensures Selects(c, day) <==> DocumentedSelects(d, day) {
        OnlyStart(c, day);
        DocumentedOneDay(d, day);
      }
    }
  }

  lemma SameWithinWeek(d: Piece, day: nat)
    requires 0 < d.step && d.from <= d.to <= 6
    ensures Selects(d, day) <==> DocumentedSelects(d, day)
  {
  }

  // ------------------------------------------------------------------- the exact condition

  /** No numeral reads as 7 once its sevens are gone. */
  lemma NoSeven(s: string)
    ensures ParseU32(SundayText(s)) != Some(7)
  {
    NoSevenDigits(s);
    if s != "" {
      NoSevenDigits(s[1..]);
      assert SundayText(s)[1..] == SundayText(s[1..]);
    }
  }

  lemma NoSevenDigits(s: string)
    ensures DigitsValue(SundayText(s)) != Some(7)
  {
    if s != "" {
      var t := SundayText(s);
      assert t[|t| - 1] != '7';
    }
  }

  /** The code's reading of a text is the documented reading of the text with its sevens replaced. */
  lemma ReadsReplacedText(text: string)
    ensures CodePiece(text) == DocumentedPiece(SundayText(text))
  {
    hide Trim, ParseU32, SplitOnce, SundayText, RangeOf, DocumentedRange, LastVisited;
    PartsCommute(text);
    CodeSteps(text);
    var part := Trim(SundayText(text));
    if part != "" && ParseU32(StepText(part)).Some? {
      RangesAgree(RangeText(Trim(text)), ParseU32(StepText(part)).value);
    }
  }

  lemma RangesAgree(range: string, step: nat)
    ensures var (a, b) := (RangeOf(SundayText(range), step, 0, 6), DocumentedRange(SundayText(range), step));
            match (a, b)
            case (Ok(p), Ok(q)) => q.to != 7 && (p == q || ((p.to > 6 || p.from > p.to) && q.to > 7))
            case (Err(e), Err(f)) => e == f
            case _ => false
  {
    hide Trim, ParseU32, SplitOnce, SundayText;
    SundaySplit(range, '-');
    match SplitOnce(range, '-') {
      case Some((_, to)) =>
        SundayTrim(to);
        NoSeven(Trim(to));
      case None =>
        SundayTrim(range);
        NoSeven(Trim(range));
    }
  }

  /** Which documented pieces the code refuses: those running from a weekday other than Sunday to 7,
      and those whose step is all sevens and zeroes. */
  lemma RefusedIff(text: string)
    requires DocumentedPiece(text).Ok?
    ensures var d := DocumentedPiece(text).value;
            CodePiece(text).Err? <==> (1 <= d.from <= 6 && d.to == 7) || CodeStep(text) == Some(0)
  {
    CodeReads(text);
  }

  /** For every text: the code reads it as documented exactly when the text and the text with its
      sevens replaced are both pieces that name the same days by `SameDays`, or neither is a piece. */
  lemma ReadAsDocumentedIff(text: string)
    ensures ReadAsDocumented(text)
       <==> match (DocumentedPiece(text), DocumentedPiece(SundayText(text)))
            case (Ok(d), Ok(c)) => SameDays(d, c)
            case (Err(_), Err(_)) => true
            case _ => false
  {
    hide DocumentedPiece, CodePiece, SundayText, Selects, DocumentedSelects, SameDays;
    ReadsReplacedText(text);
    if DocumentedPiece(text).Ok? && CodePiece(text).Ok? {
      CodeReads(text);
      SameDaysIff(DocumentedPiece(text).value, CodeStep(text).value, CodePiece(text).value);
    }
  }

  /** A text without a seven is always read as documented. */
  lemma SevenFreeAgrees(text: string)
    requires '7' !in text
    ensures ReadAsDocumented(text)
  {
    hide DocumentedPiece, CodePiece, ReadAsDocumented;
    assert SundayText(text) == text;
    ReadAsDocumentedIff(text);
    if DocumentedPiece(text).Ok? {
      ReadsReplacedText(text);
      WithinWeek(text);
    }
  }

  lemma WithinWeek(text: string)
    requires CodePiece(text).Ok?
    ensures CodePiece(text).value.to <= 6
  {
  }

  // ----------------------------------------------------------------------- the failing inputs

  lemma Plain(s: string)
    requires s != "" && !IsWhitespace(s[0]) && !IsWhitespace(s[|s| - 1])
    ensures Trim(s) == s
  {
  }

  lemma Digit(c: char)
    requires '0' <= c <= '9'
    ensures Trim([c]) == [c] && ParseU32([c]) == Some((c - '0') as nat)
  {
    Plain([c]);
    assert [c][..0] == "" && DigitsValue("") == Some(0);
  }

  /** The reading of `a-b`, for two digits. */
  lemma DigitRange(a: char, b: char)
    requires '0' <= a <= '9' && '0' <= b <= '9'
    ensures var text := [a, '-', b];
            && Trim(text) == text && RangeText(text) == text && StepText(text) == "1"
            && SplitOnce(text, '-') == Some(([a], [b]))
  {
    var text := [a, '-', b];
    Plain(text);
    assert Find(text, '/') == |text| by { assert text[1..] == ['-', b] && text[1..][1..] == [b] && text[1..][1..][1..] == []; }
    assert Find(text, '-') == 1 by { assert text[1..] == ['-', b]; }
    assert text[..1] == [a] && text[2..] == [b];
  }

  lemma DigitRangeReads(a: char, b: char)
    requires '0' <= a <= b <= '7' && a <= '6'
    ensures DocumentedPiece([a, '-', b]) == Ok(Piece((a - '0') as nat, (b - '0') as nat, 1))
  {
    hide Trim, ParseU32, SplitOnce, Find;
    DigitRange(a, b);
    Digit(a);
    Digit(b);
    Digit('1');
  }

  /** `0-7` names every day and is read as Sunday only. */
  lemma WholeWeekToSeven()
    ensures DocumentedPiece("0-7") == Ok(Piece(0, 7, 1)) && CodePiece("0-7") == Ok(Piece(0, 0, 1))
    ensures !ReadAsDocumented("0-7")
  {
    hide DocumentedPiece, CodePiece, ReadAsDocumented;
    DigitRangeReads('0', '7');
    DigitRangeReads('0', '0');
    assert SundayText("0-7") == "0-0";
    ReadsReplacedText("0-7");
    ReadAsDocumentedIff("0-7");
  }

  /** A range from any other day to 7 is refused. */
  lemma RangeToSevenRefused(first: char)
    requires '1' <= first <= '6'
    ensures DocumentedPiece([first, '-', '7']) == Ok(Piece((first - '0') as nat, 7, 1))
    ensures CodePiece([first, '-', '7']) == Err(OutOfRange)
    ensures !ReadAsDocumented([first, '-', '7'])
  {
    hide Trim, ParseU32, SplitOnce, Find, ReadAsDocumented;
    var text := [first, '-', '7'];
    DigitRangeReads(first, '7');
    DigitRange(first, '0');
    Digit(first);
    Digit('0');
    Digit('1');
    assert SundayText(text) == [first, '-', '0'];
    assert CodePiece(text) == Err(OutOfRange);
    OneRefuses(text);
  }

  lemma OneRefuses(text: string)
    requires DocumentedPiece(text).Ok? != CodePiece(text).Ok?
    ensures !ReadAsDocumented(text)
  {
  }

  /** Every seventh day, that is Sunday: the step of seven becomes zero and the piece is refused. */
  lemma StepSevenRefused()
    ensures DocumentedPiece("*/7") == Ok(Piece(0, 6, 7))
    ensures CodePiece("*/7") == Err(ZeroStep)
    ensures !ReadAsDocumented("*/7")
  {
    hide Trim, ParseU32, SplitOnce, Find, ReadAsDocumented;
    StarStep('7');
    StarStep('0');
    Digit('7');
    Digit('0');
    assert SundayText("*/7") == "*/0";
    OneRefuses("*/7");
  }

  lemma StarStep(step: char)
    requires '0' <= step <= '9'
    ensures var text := ['*', '/', step]; Trim(text) == text && SplitOnce(text, '/') == Some(("*", [step]))
  {
    var text := ['*', '/', step];
    Plain(text);
    assert Find(text, '/') == 1 by { assert text[1..] == ['/', step]; }
    assert text[..1] == "*" && text[2..] == [step];
  }

  /** A value past the week is taken for Sunday when its digits are sevens and zeroes. */
  lemma SeventyAccepted()
    ensures DocumentedPiece("70") == Err(OutOfRange)
    ensures CodePiece("70") == Ok(Piece(0, 0, 1))
    ensures !ReadAsDocumented("70")
  {
    hide Trim, ParseU32, SplitOnce, Find, ReadAsDocumented;
    TwoDigits('7', '0');
    TwoDigits('0', '0');
    Digit('1');
    assert SundayText("70") == "00";
    OneRefuses("70");
  }

  lemma TwoDigits(a: char, b: char)
    requires '0' <= a <= '9' && '0' <= b <= '9'
    ensures var text := [a, b];
            && Trim(text) == text && SplitOnce(text, '/') == None && SplitOnce(text, '-') == None
            && ParseU32(text) == Some(10 * (a - '0') as nat + (b - '0') as nat)
  {
    var text := [a, b];
    Plain(text);
    assert text[1..] == [b] && [b][1..] == "" && text[..1] == [a] && [a][..0] == "";
    assert DigitsValue([a]) == Some((a - '0') as nat);
  }

  /** Sunday alone as 7 is read as documented. */
  lemma LoneSevenAgrees()
    ensures CodePiece("7") == Ok(Piece(0, 0, 1)) && ReadAsDocumented("7")
  {
    hide Trim, ParseU32, SplitOnce, Find, ReadAsDocumented;
    LoneDigit('7');
    LoneDigit('0');
    Digit('7');
    Digit('0');
    Digit('1');
    assert SundayText("7") == "0";
    ReadAsDocumentedIff("7");
  }

  lemma LoneDigit(a: char)
    requires '0' <= a <= '9'
    ensures SplitOnce([a], '/') == None && SplitOnce([a], '-') == None
  {
    assert [a][1..] == "";
  }
}
