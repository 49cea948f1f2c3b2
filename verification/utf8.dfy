/**
  Well-formed UTF-8 byte sequences, following the syntax of section 4 of
  RFC 3629. Rust's `String::from_utf8` accepts exactly these sequences; the
  receipt manager uses it to validate method names.
 */
module Utf8 {
  import opened Primitives

  predicate IsContinuation(b: u8) {
    0x80 <= b <= 0xBF
  }

  /** Second byte of a three-byte character: excludes overlong forms and surrogates. */
  predicate SecondOfThree(lead: u8, b: u8) {
    if lead == 0xE0 then 0xA0 <= b <= 0xBF
    else if lead == 0xED then 0x80 <= b <= 0x9F
    else IsContinuation(b)
  }

  /** Second byte of a four-byte character: excludes overlong forms and code points above U+10FFFF. */
  predicate SecondOfFour(lead: u8, b: u8) {
    if lead == 0xF0 then 0x90 <= b <= 0xBF
    else if lead == 0xF4 then 0x80 <= b <= 0x8F
    else IsContinuation(b)
  }

  /** The length of the well-formed character `s` starts with, or 0 when it starts with none. */
  function LeadingCharLength(s: seq<u8>): (k: nat)
    ensures k <= |s| && k <= 4
  {
    if |s| == 0 then 0
    else if s[0] <= 0x7F then 1
    else if 0xC2 <= s[0] <= 0xDF then
      if 2 <= |s| && IsContinuation(s[1]) then 2 else 0
    else if 0xE0 <= s[0] <= 0xEF then
      if 3 <= |s| && SecondOfThree(s[0], s[1]) && IsContinuation(s[2]) then 3 else 0
    else if 0xF0 <= s[0] <= 0xF4 then
      if 4 <= |s| && SecondOfFour(s[0], s[1]) && IsContinuation(s[2]) && IsContinuation(s[3]) then 4 else 0
    else 0
  }

  /** `s` is a sequence of well-formed UTF-8 characters. */
  predicate ValidUtf8(s: seq<u8>)
    decreases |s|
  {
    |s| == 0 || (LeadingCharLength(s) > 0 && ValidUtf8(s[LeadingCharLength(s)..]))
  }

  /** Every entry of `names` is well-formed UTF-8. */
  predicate AllValidUtf8(names: seq<seq<u8>>) {
    forall i :: 0 <= i < |names| ==> ValidUtf8(names[i])
  }

  /** Seven-bit ASCII text is well-formed UTF-8. */
  lemma {:induction false} AsciiIsValidUtf8(s: seq<u8>)
    requires forall i :: 0 <= i < |s| ==> s[i] <= 0x7F
    ensures ValidUtf8(s)
    decreases |s|
  {
    if |s| > 0 {
      assert LeadingCharLength(s) == 1;
      AsciiIsValidUtf8(s[1..]);
    }
  }

  /** A lone continuation byte and an overlong encoding of NUL are both rejected. */
  lemma MalformedExamples()
    ensures !ValidUtf8([0x80])
    ensures !ValidUtf8([0xC0, 0x80])
    ensures !ValidUtf8([0xED, 0xA0, 0x80])
    ensures ValidUtf8([0xE2, 0x82, 0xAC])
  {
    assert LeadingCharLength([0xE2, 0x82, 0xAC]) == 3;
    assert [0xE2, 0x82, 0xAC][3..] == [];
  }
}
