/** The byte strings the codec takes for stream names are exactly the UTF-8 forms of Unicode text. */
module Utf8 {
  import opened Codec

  /** A Unicode scalar value: any code point but a surrogate. */
  predicate Scalar(c: nat) {
    c < 0xD800 || 0xE000 <= c < 0x11_0000
  }

  /** Its form in section 3 of RFC 3629. */
  function Form(c: nat): Bytes
    requires Scalar(c)
  {
    if c < 0x80 then [c]
    else if c < 0x800 then [0xC0 + c / 64, 0x80 + c % 64]
    else if c < 0x1_0000 then [0xE0 + c / 4096, 0x80 + c / 64 % 64, 0x80 + c % 64]
    else [0xF0 + c / 262_144, 0x80 + c / 4096 % 64, 0x80 + c / 64 % 64, 0x80 + c % 64]
  }

  predicate Scalars(text: seq<nat>) {
    forall i :: 0 <= i < |text| ==> Scalar(text[i])
  }

  function Utf8Form(text: seq<nat>): Bytes
    requires Scalars(text)
  {
    if text == [] then [] else Form(text[0]) + Utf8Form(text[1..])
  }

  /** What a byte carries beside the mark that says how many bytes its character takes. */
  function Low(b: byte, mark: nat): int {
    b - mark
  }

  /** The code point of a well-formed first character. */
  function FirstScalar(s: Bytes): int
    requires s != [] && 0 < FirstChar(s)
  {
    match FirstChar(s)
    case 1 => s[0]
    case 2 => Low(s[0], 0xC0) * 64 + Low(s[1], 0x80)
    case 3 => Low(s[0], 0xE0) * 4096 + Low(s[1], 0x80) * 64 + Low(s[2], 0x80)
    case _ => Low(s[0], 0xF0) * 262_144 + Low(s[1], 0x80) * 4096 + Low(s[2], 0x80) * 64 + Low(s[3], 0x80)
  }

  lemma Split3(a: nat, b: nat, c: nat)
    requires b < 64 && c < 64
    ensures var n := a * 4096 + b * 64 + c; n / 4096 == a && n / 64 % 64 == b && n % 64 == c
  {
    var n := a * 4096 + b * 64 + c;
    assert n / 64 == a * 64 + b;
  }

  lemma Split4(a: nat, b: nat, c: nat, d: nat)
    requires b < 64 && c < 64 && d < 64
    ensures var n := a * 262_144 + b * 4096 + c * 64 + d;
            n / 262_144 == a && n / 4096 % 64 == b && n / 64 % 64 == c && n % 64 == d
  {
    var n := a * 262_144 + b * 4096 + c * 64 + d;
    assert n / 64 == a * 4096 + b * 64 + c;
    assert n / 4096 == a * 64 + b;
  }

  /** A well-formed first character is the form of its code point. */
  lemma FirstIsForm(s: Bytes)
    requires s != [] && 0 < FirstChar(s)
    ensures 0 <= FirstScalar(s) && Scalar(FirstScalar(s)) && Form(FirstScalar(s)) == s[..FirstChar(s)]
  {
    var n := FirstChar(s);
    if n == 3 {
      Split3(Low(s[0], 0xE0), Low(s[1], 0x80), Low(s[2], 0x80));
    } else if n == 4 {
      Split4(Low(s[0], 0xF0), Low(s[1], 0x80), Low(s[2], 0x80), Low(s[3], 0x80));
    }
  }

  /** And the form of a code point is a well-formed first character. */
  lemma FormIsFirst(c: nat, rest: Bytes)
    requires Scalar(c)
    ensures FirstChar(Form(c) + rest) == |Form(c)|
  {
    var s := Form(c) + rest;
    assert forall i :: 0 <= i < |Form(c)| ==> s[i] == Form(c)[i];
  }

  lemma {:induction false} TextOf(s: Bytes) returns (text: seq<nat>)
    requires ValidUtf8(s)
    ensures Scalars(text) && Utf8Form(text) == s
    decreases |s|
  {
    if s == [] {
      text := [];
    } else {
      var n := FirstChar(s);
      FirstIsForm(s);
      var rest := TextOf(s[n..]);
      text := [FirstScalar(s)] + rest;
      assert text[1..] == rest && s == s[..n] + s[n..];
    }
  }

  lemma {:induction false} FormsAreValid(text: seq<nat>)
    requires Scalars(text)
    ensures ValidUtf8(Utf8Form(text))
  {
    hide FirstChar, Form;
    if text != [] {
      var first, rest := Form(text[0]), Utf8Form(text[1..]);
      FormsAreValid(text[1..]);
      FormIsFirst(text[0], rest);
      assert |first| > 0 by { FormNonEmpty(text[0]); }
      assert (first + rest)[|first|..] == rest;
    }
  }

  lemma FormNonEmpty(c: nat)
    requires Scalar(c)
    ensures Form(c) != []
  {
  }

  /** A byte string is taken exactly when it is the UTF-8 form of some text. */
  lemma ValidUtf8Iff(s: Bytes)
    ensures ValidUtf8(s) <==> exists text :: Scalars(text) && Utf8Form(text) == s
  {
    hide ValidUtf8, Utf8Form, Scalars;
    if ValidUtf8(s) {
      var text := TextOf(s);
    }
    if text :| Scalars(text) && Utf8Form(text) == s {
      FormsAreValid(text);
    }
  }
}
