/**
 * The base 64 encoding of section 4 of RFC 4648, as PHP's `base64_encode`
 * produces it: the standard alphabet of Table 1 and `=` padding. The encoder
 * is what the client uses; the strict decoder is its partner, and the two
 * round trips show that the encoding loses nothing.
 */
module Base64 {
  import opened Wrappers
  import opened Php

  /** The pad character `=`. */
  const Pad: byte := 61

  /** Membership in the 64-character alphabet: A-Z, a-z, 0-9, '+' and '/'. */
  predicate IsAlphabet(c: byte) {
    (65 <= c <= 90) || (97 <= c <= 122) || (48 <= c <= 57) || c == 43 || c == 47
  }

  /** Table 1 of RFC 4648, from a 6-bit value to its character. */
  function Digit(d: int): (c: byte)
    requires 0 <= d < 64
    ensures IsAlphabet(c)
  {
    if d < 26 then (65 + d) as byte
    else if d < 52 then (71 + d) as byte
    else if d < 62 then (d - 4) as byte
    else if d == 62 then 43
    else 47
  }

  /** Table 1 read backwards: the 6-bit value of an alphabet character, None otherwise. */
  function DigitValue(c: byte): (r: Option<int>)
    ensures r.Some? <==> IsAlphabet(c)
    ensures r.Some? ==> 0 <= r.value < 64
  {
    if 65 <= c <= 90 then Some(c as int - 65)
    else if 97 <= c <= 122 then Some(c as int - 71)
    else if 48 <= c <= 57 then Some(c as int + 4)
    else if c == 43 then Some(62)
    else if c == 47 then Some(63)
    else None
  }

  /** Every 6-bit value is read back from its character. */
  lemma DigitRoundTrip(d: int)
    requires 0 <= d < 64
    ensures DigitValue(Digit(d)) == Some(d)
  {
  }

  /** How many `=` end the encoding of n bytes. */
  function PadLength(n: nat): nat {
    (3 - n % 3) % 3
  }

  /** One full 24-bit input group as four characters. */
  function Quantum(b0: byte, b1: byte, b2: byte): (r: Bytes) {
    [ Digit(b0 as int / 4),
      Digit((b0 as int % 4) * 16 + b1 as int / 16),
      Digit((b1 as int % 16) * 4 + b2 as int / 64),
      Digit(b2 as int % 64) ]
  }

  /**
   * `base64_encode`: every group of three bytes becomes four characters; a
   * final group of one or two bytes is zero-filled and padded with `=`.
   */
  function Encode(b: Bytes): (r: Bytes)
    ensures |r| == 4 * ((|b| + 2) / 3)
    decreases |b|
  {
    if |b| < 3 then Final(b)
    else
      LengthStep(|b|);
      Quantum(b[0], b[1], b[2]) + Encode(b[3..])
  }

  /** The final zero, one or two bytes: zero-filled and padded with `=`. */
  function Final(b: Bytes): (r: Bytes)
    requires |b| < 3
    ensures |r| == 4 * ((|b| + 2) / 3)
  {
    if |b| == 0 then []
    else if |b| == 1 then
      [Digit(b[0] as int / 4), Digit((b[0] as int % 4) * 16), Pad, Pad]
    else
      [ Digit(b[0] as int / 4),
        Digit((b[0] as int % 4) * 16 + b[1] as int / 16),
        Digit((b[1] as int % 16) * 4),
        Pad ]
  }

  /** Removing one full group removes four characters and keeps the padding. */
  lemma LengthStep(n: nat)
    requires n >= 3
    ensures 4 * ((n + 2) / 3) == 4 + 4 * ((n - 3 + 2) / 3)
    ensures PadLength(n) == PadLength(n - 3)
  {
  }

  /** Text made of alphabet characters followed by exactly p pad characters. */
  predicate WellPadded(r: Bytes, p: nat) {
    && p <= |r|
    && (forall i :: 0 <= i < |r| - p ==> IsAlphabet(r[i]))
    && (forall i :: |r| - p <= i < |r| ==> r[i] == Pad)
  }

  /** The encoding uses only the alphabet, then (3 - n mod 3) mod 3 pad characters. */
  lemma {:induction false} EncodeAlphabet(b: Bytes)
    ensures WellPadded(Encode(b), PadLength(|b|))
    decreases |b|
  {
    if |b| >= 3 {
      EncodeAlphabet(b[3..]);
      EncodeUnfold(b);
      LengthStep(|b|);
      var q, rest := Quantum(b[0], b[1], b[2]), Encode(b[3..]);
      var e := q + rest;
      forall i | 0 <= i < |e| - PadLength(|b|) ensures IsAlphabet(e[i]) {
        if i >= 4 { assert e[i] == rest[i - 4]; }
      }
      forall i | |e| - PadLength(|b|) <= i < |e| ensures e[i] == Pad {
        assert e[i] == rest[i - 4];
      }
    }
  }

  /** Four characters with no padding as three bytes. */
  function DecodeQuantum(c0: byte, c1: byte, c2: byte, c3: byte): Option<Bytes> {
    var v0, v1, v2, v3 := DigitValue(c0), DigitValue(c1), DigitValue(c2), DigitValue(c3);
    if v0.None? || v1.None? || v2.None? || v3.None? then None
    else
      var d0, d1, d2, d3 := v0.value, v1.value, v2.value, v3.value;
      Some([ (d0 * 4 + d1 / 16) as byte,
             ((d1 % 16) * 16 + d2 / 4) as byte,
             ((d2 % 4) * 64 + d3) as byte ])
  }

  /**
   * The last four characters, which may end in one or two `=`. The decoder
   * is strict (section 3.5 of RFC 4648): the bits the encoder zero-filled
   * must be zero.
   */
  function DecodeFinal(c0: byte, c1: byte, c2: byte, c3: byte): Option<Bytes> {
    if c2 == Pad && c3 == Pad then
      var v0, v1 := DigitValue(c0), DigitValue(c1);
      if v0.None? || v1.None? || v1.value % 16 != 0 then None
      else Some([(v0.value * 4 + v1.value / 16) as byte])
    else if c3 == Pad then
      var v0, v1, v2 := DigitValue(c0), DigitValue(c1), DigitValue(c2);
      if v0.None? || v1.None? || v2.None? || v2.value % 4 != 0 then None
      else Some([ (v0.value * 4 + v1.value / 16) as byte,
                  ((v1.value % 16) * 16 + v2.value / 4) as byte ])
    else
      DecodeQuantum(c0, c1, c2, c3)
  }

  /** Strict decoding: None for text that `Encode` cannot have produced. */
  function Decode(s: Bytes): (r: Option<Bytes>)
    decreases |s|
  {
    if |s| == 0 then Some([])
    else if |s| < 4 then None
    else if |s| == 4 then DecodeFinal(s[0], s[1], s[2], s[3])
    else
      match DecodeQuantum(s[0], s[1], s[2], s[3])
      case None => None
      case Some(q) =>
        match Decode(s[4..])
        case None => None
        case Some(t) => Some(q + t)
  }

  lemma Split16(h: int, l: int)
    requires 0 <= l < 16
    ensures (h * 16 + l) / 16 == h && (h * 16 + l) % 16 == l
  {
  }

  lemma Split4(h: int, l: int)
    requires 0 <= l < 4
    ensures (h * 4 + l) / 4 == h && (h * 4 + l) % 4 == l
  {
  }

  /** The six-bit digits of a group put back together give the group's bytes. */
  lemma Regroup(b0: int, b1: int, b2: int)
    requires 0 <= b0 < 256 && 0 <= b1 < 256 && 0 <= b2 < 256
    ensures var d1, d2 := (b0 % 4) * 16 + b1 / 16, (b1 % 16) * 4 + b2 / 64;
      && (b0 / 4) * 4 + d1 / 16 == b0
      && (d1 % 16) * 16 + d2 / 4 == b1
      && (d2 % 4) * 64 + b2 % 64 == b2
  {
    Split16(b0 % 4, b1 / 16);
    Split4(b1 % 16, b2 / 64);
  }

  lemma QuantumRoundTrip(b0: byte, b1: byte, b2: byte)
    ensures var q := Quantum(b0, b1, b2); DecodeQuantum(q[0], q[1], q[2], q[3]) == Some([b0, b1, b2])
  {
    Regroup(b0 as int, b1 as int, b2 as int);
    DigitRoundTrip(b0 as int / 4);
    DigitRoundTrip((b0 as int % 4) * 16 + b1 as int / 16);
    DigitRoundTrip((b1 as int % 16) * 4 + b2 as int / 64);
    DigitRoundTrip(b2 as int % 64);
  }

  /** A final group of one byte: two digits and `==`. */
  lemma FinalOneRoundTrip(b: Bytes)
    requires |b| == 1
    ensures Decode(Encode(b)) == Some(b)
  {
    var e := Encode(b);
    Regroup(b[0] as int, 0, 0);
    Split16(b[0] as int % 4, 0);
    DigitRoundTrip(b[0] as int / 4);
    DigitRoundTrip((b[0] as int % 4) * 16);
    assert DecodeFinal(e[0], e[1], e[2], e[3]) == Some([b[0]]);
    assert b == [b[0]];
  }

  /** A final group of two bytes: three digits and `=`. */
  lemma FinalTwoRoundTrip(b: Bytes)
    requires |b| == 2
    ensures Decode(Encode(b)) == Some(b)
  {
    var b0, b1 := b[0] as int, b[1] as int;
    var d0, d1, d2 := b0 / 4, (b0 % 4) * 16 + b1 / 16, (b1 % 16) * 4;
    var e := Encode(b);
    assert e == [Digit(d0), Digit(d1), Digit(d2), Pad];
    assert Decode(e) == DecodeFinal(e[0], e[1], e[2], e[3]);
    TwoBytesRegroup(b0, b1);
    FinalTwo(d0, d1, d2);
    assert [(d0 * 4 + d1 / 16) as byte, ((d1 % 16) * 16 + d2 / 4) as byte] == [b[0], b[1]];
    assert b == [b[0], b[1]];
  }

  lemma TwoBytesRegroup(b0: int, b1: int)
    requires 0 <= b0 < 256 && 0 <= b1 < 256
    ensures var d0, d1, d2 := b0 / 4, (b0 % 4) * 16 + b1 / 16, (b1 % 16) * 4;
      && 0 <= d0 < 64 && 0 <= d1 < 64 && 0 <= d2 < 64 && d2 % 4 == 0
      && d0 * 4 + d1 / 16 == b0 && (d1 % 16) * 16 + d2 / 4 == b1
  {
    Regroup(b0, b1, 0);
    Split4(b1 % 16, 0);
  }

  lemma FinalTwo(d0: int, d1: int, d2: int)
    requires 0 <= d0 < 64 && 0 <= d1 < 64 && 0 <= d2 < 64 && d2 % 4 == 0
    ensures DecodeFinal(Digit(d0), Digit(d1), Digit(d2), Pad)
         == Some([(d0 * 4 + d1 / 16) as byte, ((d1 % 16) * 16 + d2 / 4) as byte])
  {
    DigitRoundTrip(d0);
    DigitRoundTrip(d1);
    DigitRoundTrip(d2);
  }

  /** Decoding undoes encoding, for every byte string. */
  lemma {:induction false} DecodeEncode(b: Bytes)
    ensures Decode(Encode(b)) == Some(b)
    decreases |b|
  {
    if |b| == 0 {
    } else if |b| == 1 {
      FinalOneRoundTrip(b);
    } else if |b| == 2 {
      FinalTwoRoundTrip(b);
    } else if |b| == 3 {
      QuantumRoundTrip(b[0], b[1], b[2]);
      assert b == [b[0], b[1], b[2]];
    } else {
      DecodeEncode(b[3..]);
      DecodeEncodeStep(b);
    }
  }

  /** One full group in front of a string that already round-trips. */
  lemma DecodeEncodeStep(b: Bytes)
    requires |b| > 3 && Decode(Encode(b[3..])) == Some(b[3..])
    ensures Decode(Encode(b)) == Some(b)
  {
    EncodeUnfold(b);
    QuantumRoundTrip(b[0], b[1], b[2]);
    var q, rest, x, y := Quantum(b[0], b[1], b[2]), Encode(b[3..]), [b[0], b[1], b[2]], b[3..];
    assert DecodeQuantum(q[0], q[1], q[2], q[3]) == Some(x);
    assert |rest| > 0;
    assert Decode(rest) == Some(y);
    DecodeConcat(q, rest, x, y);
    SplitFront(b);
  }

  lemma SplitFront(b: Bytes)
    requires |b| >= 3
    ensures [b[0], b[1], b[2]] + b[3..] == b
  {
  }

  /** The encoding of three or more bytes starts with the first group's four characters. */
  lemma EncodeUnfold(b: Bytes)
    requires |b| >= 3
    ensures Encode(b) == Quantum(b[0], b[1], b[2]) + Encode(b[3..])
  {
  }

  /** Decoding a full group followed by more text. */
  lemma DecodeConcat(q: Bytes, rest: Bytes, x: Bytes, y: Bytes)
    requires |q| == 4 && |rest| > 0
    requires DecodeQuantum(q[0], q[1], q[2], q[3]) == Some(x) && Decode(rest) == Some(y)
    ensures Decode(q + rest) == Some(x + y)
  {
    var s := q + rest;
    assert s[0] == q[0] && s[1] == q[1] && s[2] == q[2] && s[3] == q[3];
    assert s[4..] == rest;
  }

  /** Every alphabet character is the digit of its value. */
  lemma DigitOfValue(c: byte)
    requires IsAlphabet(c)
    ensures Digit(DigitValue(c).value) == c
  {
  }

  /** Bytes rebuilt from six-bit digits split back into the same digits. */
  lemma Ungroup(d0: int, d1: int, d2: int, d3: int)
    requires 0 <= d0 < 64 && 0 <= d1 < 64 && 0 <= d2 < 64 && 0 <= d3 < 64
    ensures var b0, b1, b2 := d0 * 4 + d1 / 16, (d1 % 16) * 16 + d2 / 4, (d2 % 4) * 64 + d3;
      && b0 / 4 == d0
      && (b0 % 4) * 16 + b1 / 16 == d1
      && (b1 % 16) * 4 + b2 / 64 == d2
      && b2 % 64 == d3
  {
    Split4(d0, d1 / 16);
    Split16(d1 % 16, d2 / 4);
  }

  lemma QuantumOfDecoded(c0: byte, c1: byte, c2: byte, c3: byte)
    requires DecodeQuantum(c0, c1, c2, c3).Some?
    ensures var q := DecodeQuantum(c0, c1, c2, c3).value;
      |q| == 3 && Quantum(q[0], q[1], q[2]) == [c0, c1, c2, c3]
  {
    var d0, d1, d2, d3 := DigitValue(c0).value, DigitValue(c1).value, DigitValue(c2).value, DigitValue(c3).value;
    Ungroup(d0, d1, d2, d3);
    DigitOfValue(c0);
    DigitOfValue(c1);
    DigitOfValue(c2);
    DigitOfValue(c3);
  }

  lemma OneOfDecoded(c0: byte, c1: byte)
    requires DecodeFinal(c0, c1, Pad, Pad).Some?
    ensures Encode(DecodeFinal(c0, c1, Pad, Pad).value) == [c0, c1, Pad, Pad]
  {
    var d0, d1 := DigitValue(c0).value, DigitValue(c1).value;
    var r := DecodeFinal(c0, c1, Pad, Pad).value;
    Ungroup(d0, d1, 0, 0);
    DigitOfValue(c0);
    DigitOfValue(c1);
    assert r == [(d0 * 4 + d1 / 16) as byte];
    assert (r[0] as int % 4) * 16 == d1;
  }

  lemma TwoOfDecoded(c0: byte, c1: byte, c2: byte)
    requires c2 != Pad && DecodeFinal(c0, c1, c2, Pad).Some?
    ensures Encode(DecodeFinal(c0, c1, c2, Pad).value) == [c0, c1, c2, Pad]
  {
    var d0, d1, d2 := DigitValue(c0).value, DigitValue(c1).value, DigitValue(c2).value;
    var r := DecodeFinal(c0, c1, c2, Pad).value;
    Ungroup(d0, d1, d2, 0);
    DigitOfValue(c0);
    DigitOfValue(c1);
    DigitOfValue(c2);
    assert r == [(d0 * 4 + d1 / 16) as byte, ((d1 % 16) * 16 + d2 / 4) as byte];
    assert (r[1] as int % 16) * 4 == d2;
  }

  lemma FinalOfDecoded(c0: byte, c1: byte, c2: byte, c3: byte)
    requires DecodeFinal(c0, c1, c2, c3).Some?
    ensures Encode(DecodeFinal(c0, c1, c2, c3).value) == [c0, c1, c2, c3]
  {
    if c2 == Pad && c3 == Pad {
      OneOfDecoded(c0, c1);
    } else if c3 == Pad {
      TwoOfDecoded(c0, c1, c2);
    } else {
      var r := DecodeFinal(c0, c1, c2, c3).value;
      QuantumOfDecoded(c0, c1, c2, c3);
      assert Encode(r) == Quantum(r[0], r[1], r[2]) + Encode([]);
    }
  }

  /** Encoding undoes decoding: the decoder accepts only canonical text. */
  lemma {:induction false} EncodeDecode(s: Bytes)
    requires Decode(s).Some?
    ensures Encode(Decode(s).value) == s
    decreases |s|
  {
    if |s| == 0 {
    } else if |s| == 4 {
      FinalOfDecoded(s[0], s[1], s[2], s[3]);
      assert s == [s[0], s[1], s[2], s[3]];
    } else {
      var q := DecodeQuantum(s[0], s[1], s[2], s[3]).value;
      var t := Decode(s[4..]).value;
      QuantumOfDecoded(s[0], s[1], s[2], s[3]);
      EncodeDecode(s[4..]);
      assert (q + t)[3..] == t;
      assert Encode(q + t) == Quantum(q[0], q[1], q[2]) + Encode(t);
      assert s == s[..4] + s[4..];
    }
  }

  /** Different byte strings have different encodings. */
  lemma EncodeInjective(a: Bytes, b: Bytes)
    requires Encode(a) == Encode(b)
    ensures a == b
  {
    DecodeEncode(a);
    DecodeEncode(b);
  }
}
