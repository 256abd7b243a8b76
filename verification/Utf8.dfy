/**
 UTF-8 as the text probe sees it.

 Two descriptions of the same language live here. `Decode` is the left-to-right
 validator behind `std::str::from_utf8`: it reports the decoded prefix and says
 whether the rest is absent, cut off at the end of the input, or malformed.
 `PlainText` is the grammar of section 4 of RFC 3629, cut down to the characters
 that the program accepts as plain text.
 */
module Utf8 {
  type Byte = b: int | 0 <= b < 256

  type Bytes = seq<Byte>

  datatype Head = Char(width: nat, code: nat) | Partial | Bad

  /** Number of bytes announced by a first byte; 0 when no character starts with it. */
  function Width(b: Byte): nat {
    if b < 0x80 then 1
    else if 0xC2 <= b <= 0xDF then 2
    else if 0xE0 <= b <= 0xEF then 3
    else if 0xF0 <= b <= 0xF4 then 4
    else 0
  }

  predicate Tail(b: Byte) {
    0x80 <= b <= 0xBF
  }

  /** The second byte excludes overlong forms, surrogates and values above U+10FFFF. */
  predicate SecondOk(first: Byte, second: Byte) {
    Tail(second)
    && (first == 0xE0 ==> 0xA0 <= second)
    && (first == 0xED ==> second <= 0x9F)
    && (first == 0xF0 ==> 0x90 <= second)
    && (first == 0xF4 ==> second <= 0x8F)
  }

  /** Append one six-bit group to a code point under construction. */
  function Join(high: nat, low: nat): nat {
    64 * high + low
  }

  function DecodeHead(s: Bytes): Head
    requires s != []
  {
    var w := Width(s[0]);
    if w == 0 then Bad
    else if w == 1 then Char(1, s[0])
    else if |s| == 1 then Partial
    else if !SecondOk(s[0], s[1]) then Bad
    else if w == 2 then Char(2, Join(s[0] - 0xC0, s[1] - 0x80))
    else if |s| == 2 then Partial
    else if !Tail(s[2]) then Bad
    else if w == 3 then Char(3, Join(Join(s[0] - 0xE0, s[1] - 0x80), s[2] - 0x80))
    else if |s| == 3 then Partial
    else if !Tail(s[3]) then Bad
    else Char(4, Join(Join(Join(s[0] - 0xF0, s[1] - 0x80), s[2] - 0x80), s[3] - 0x80))
  }

  datatype Ending = Complete | Truncated | Malformed

  /** What `from_utf8` learns: the decoded prefix, how long it is, and why it stops there. */
  datatype Decoded = Decoded(chars: seq<nat>, validUpTo: nat, ending: Ending)

  function Decode(s: Bytes): (d: Decoded)
    ensures d.validUpTo <= |s|
    ensures d.ending == Complete <==> d.validUpTo == |s|
    ensures d.ending == Truncated ==> |s| - d.validUpTo <= 3
  {
    if s == [] then Decoded([], 0, Complete)
    else
      match DecodeHead(s)
      case Bad => Decoded([], 0, Malformed)
      case Partial => Decoded([], 0, Truncated)
      case Char(width, code) =>
        var rest := Decode(s[width..]);
        Decoded([code] + rest.chars, width + rest.validUpTo, rest.ending)
  }

  /** Unicode category Cc. */
  predicate IsControl(code: nat) {
    code <= 0x1F || 0x7F <= code <= 0x9F
  }

  predicate IsPlainTextCharacter(code: nat) {
    code == 0x0A || code == 0x0D || code == 0x09 || !IsControl(code)
  }

  predicate AllPlain(chars: seq<nat>) {
    forall i | 0 <= i < |chars| :: IsPlainTextCharacter(chars[i])
  }

  // ---------------------------------------------------------------- grammar

  predicate Within(b: Byte, lo: int, hi: int) {
    lo <= b <= hi
  }

  /** The productions UTF8-1 to UTF8-4 of RFC 3629, alternative by alternative. */
  predicate IsUtf8Char(s: Bytes) {
    || (|s| == 1 && Within(s[0], 0x00, 0x7F))
    || (|s| == 2 && Within(s[0], 0xC2, 0xDF) && Tail(s[1]))
    || (|s| == 3 && s[0] == 0xE0 && Within(s[1], 0xA0, 0xBF) && Tail(s[2]))
    || (|s| == 3 && Within(s[0], 0xE1, 0xEC) && Tail(s[1]) && Tail(s[2]))
    || (|s| == 3 && s[0] == 0xED && Within(s[1], 0x80, 0x9F) && Tail(s[2]))
    || (|s| == 3 && Within(s[0], 0xEE, 0xEF) && Tail(s[1]) && Tail(s[2]))
    || (|s| == 4 && s[0] == 0xF0 && Within(s[1], 0x90, 0xBF) && Tail(s[2]) && Tail(s[3]))
    || (|s| == 4 && Within(s[0], 0xF1, 0xF3) && Tail(s[1]) && Tail(s[2]) && Tail(s[3]))
    || (|s| == 4 && s[0] == 0xF4 && Within(s[1], 0x80, 0x8F) && Tail(s[2]) && Tail(s[3]))
  }

  /** Encoded control characters other than line feed, carriage return and tab: C0, DEL and C1. */
  predicate IsForbiddenChar(s: Bytes) {
    || (|s| == 1 && (s[0] <= 0x1F || s[0] == 0x7F) && s[0] != 0x0A && s[0] != 0x0D && s[0] != 0x09)
    || (|s| == 2 && s[0] == 0xC2 && s[1] <= 0x9F)
  }

  /** `s` is a concatenation of well-formed characters, none of them forbidden. */
  predicate PlainText(s: Bytes)
    decreases |s|
  {
    s == [] || exists n | 1 <= n <= 4 && n <= |s| ::
      IsUtf8Char(s[..n]) && !IsForbiddenChar(s[..n]) && PlainText(s[n..])
  }

  /** The validator's first step recognises exactly one grammar production. */
  lemma HeadMatchesGrammar(s: Bytes, n: nat)
    requires s != [] && 1 <= n <= |s|
    ensures IsUtf8Char(s[..n]) <==> DecodeHead(s).Char? && DecodeHead(s).width == n
    ensures IsUtf8Char(s[..n]) ==>
              (IsForbiddenChar(s[..n]) <==> !IsPlainTextCharacter(DecodeHead(s).code))
  {
  }

  /** The validator accepts exactly the plain-text grammar. */
  lemma {:induction false} DecodeMatchesGrammar(s: Bytes)
    ensures PlainText(s) <==> Decode(s).ending == Complete && AllPlain(Decode(s).chars)
    decreases |s|
  {
    if s != [] {
      forall n | 1 <= n <= 4 && n <= |s|
        ensures IsUtf8Char(s[..n]) <==> DecodeHead(s).Char? && DecodeHead(s).width == n
        ensures IsUtf8Char(s[..n]) ==>
                  (IsForbiddenChar(s[..n]) <==> !IsPlainTextCharacter(DecodeHead(s).code))
      {
        HeadMatchesGrammar(s, n);
      }
      if DecodeHead(s).Char? {
        var n := DecodeHead(s).width;
        DecodeMatchesGrammar(s[n..]);
        AllPlainAppend([DecodeHead(s).code], Decode(s[n..]).chars);
        assert IsUtf8Char(s[..n]);
        assert AllPlain([DecodeHead(s).code]) <==> IsPlainTextCharacter(DecodeHead(s).code) by {
          assert [DecodeHead(s).code][0] == DecodeHead(s).code;
        }
      }
    }
  }

  lemma AllPlainAppend(a: seq<nat>, b: seq<nat>)
    ensures AllPlain(a + b) <==> AllPlain(a) && AllPlain(b)
  {
    if AllPlain(a + b) {
      forall i | 0 <= i < |a| ensures IsPlainTextCharacter(a[i]) { assert (a + b)[i] == a[i]; }
      forall i | 0 <= i < |b| ensures IsPlainTextCharacter(b[i]) { assert (a + b)[|a| + i] == b[i]; }
    }
  }

  /** A decided first character stays decided when more input follows. */
  lemma HeadIsLocal(s: Bytes, more: Bytes)
    requires s != [] && !DecodeHead(s).Partial?
    ensures DecodeHead(s + more) == DecodeHead(s)
  {
  }

  /**
   Reading on after a cut: the characters of the first piece, followed by what the
   unfinished bytes and the second piece decode to together.
   */
  lemma {:induction false} DecodeContinues(s: Bytes, more: Bytes)
    ensures Decode(s + more) == Resume(s, more)
    decreases |s|
  {
    if s == [] {
      assert s + more == more == s[0..] + more;
    } else if DecodeHead(s).Partial? {
      assert s[0..] == s;
    } else if DecodeHead(s).Bad? {
      HeadIsLocal(s, more);
    } else {
      var n := DecodeHead(s).width;
      DecodeContinues(s[n..], more);
      ResumeAfterHead(s, more);
      DecodeAfterHead(s, more);
    }
  }

  lemma DecodeAfterHead(s: Bytes, more: Bytes)
    requires s != [] && DecodeHead(s).Char?
    ensures var n := DecodeHead(s).width;
            var rest := Decode(s[n..] + more);
            Decode(s + more) == Decoded([DecodeHead(s).code] + rest.chars, n + rest.validUpTo, rest.ending)
  {
    HeadIsLocal(s, more);
    var n := DecodeHead(s).width;
    assert (s + more)[n..] == s[n..] + more;
  }

  function Resume(s: Bytes, more: Bytes): Decoded {
    var d := Decode(s);
    if d.ending == Malformed then d
    else
      var e := Decode(s[d.validUpTo..] + more);
      Decoded(d.chars + e.chars, d.validUpTo + e.validUpTo, e.ending)
  }

  lemma DecodeStep(s: Bytes)
    requires s != [] && DecodeHead(s).Char?
    ensures var n := DecodeHead(s).width;
            1 <= n <= |s|
            && var inner := Decode(s[n..]);
               Decode(s) == Decoded([DecodeHead(s).code] + inner.chars, n + inner.validUpTo, inner.ending)
  {
  }

  lemma ResumeAfterHead(s: Bytes, more: Bytes)
    requires s != [] && DecodeHead(s).Char?
    ensures var n := DecodeHead(s).width;
            n <= |s|
            && var rest := Resume(s[n..], more);
               Resume(s, more) == Decoded([DecodeHead(s).code] + rest.chars, n + rest.validUpTo, rest.ending)
  {
    DecodeStep(s);
    hide Decode, DecodeHead;
    var n := DecodeHead(s).width;
    var inner := Decode(s[n..]);
    assert s[n + inner.validUpTo..] == s[n..][inner.validUpTo..];
  }
}
