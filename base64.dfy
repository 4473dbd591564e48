/**
 * Base 64 encoding as defined in section 4 of RFC 4648 (the alphabet
 * A-Z a-z 0-9 + / with '=' padding), which is what `base64.b64encode` emits.
 * The decoder is strict: it accepts exactly the canonical encodings, so the
 * two functions are inverse bijections between byte strings and valid text.
 */
module Base64 {
  import opened Wrappers

  type byte = x: int | 0 <= x < 256

  const PAD: char := '='

  /** The character for a 6-bit value. */
  function EncodeSextet(v: int): (c: char)
    requires 0 <= v < 64
    ensures c != PAD
  {
    if v < 26 then ('A' as int + v) as char
    else if v < 52 then ('a' as int + (v - 26)) as char
    else if v < 62 then ('0' as int + (v - 52)) as char
    else if v == 62 then '+'
    else '/'
  }

  /** The 6-bit value of an alphabet character; `None` for anything else, padding included. */
  function DecodeSextet(c: char): (r: Option<int>)
    ensures r.Some? ==> 0 <= r.value < 64 && EncodeSextet(r.value) == c
  {
    if 'A' <= c <= 'Z' then Some(c as int - 'A' as int)
    else if 'a' <= c <= 'z' then Some(c as int - 'a' as int + 26)
    else if '0' <= c <= '9' then Some(c as int - '0' as int + 52)
    else if c == '+' then Some(62)
    else if c == '/' then Some(63)
    else None
  }

  lemma SextetRoundTrip(v: int)
    requires 0 <= v < 64
    ensures DecodeSextet(EncodeSextet(v)) == Some(v)
  {
  }

  /** Three bytes become four characters. */
  function EncodeQuantum(b0: byte, b1: byte, b2: byte): string {
    [EncodeSextet(b0 / 4), EncodeSextet((b0 % 4) * 16 + b1 / 16),
     EncodeSextet((b1 % 16) * 4 + b2 / 64), EncodeSextet(b2 % 64)]
  }

  /** The final one or two bytes, padded to four characters. */
  function EncodeTail(s: seq<byte>): string
    requires 1 <= |s| <= 2
  {
    if |s| == 1 then [EncodeSextet(s[0] / 4), EncodeSextet((s[0] % 4) * 16), PAD, PAD]
    else [EncodeSextet(s[0] / 4), EncodeSextet((s[0] % 4) * 16 + s[1] / 16),
          EncodeSextet((s[1] % 16) * 4), PAD]
  }

  /** `base64.b64encode`: four characters per started group of three bytes. */
  function Encode(s: seq<byte>): (r: string)
    ensures |r| == 4 * ((|s| + 2) / 3)
  {
    if |s| == 0 then []
    else if |s| < 3 then EncodeTail(s)
    else EncodeQuantum(s[0], s[1], s[2]) + Encode(s[3..])
  }

  /** Four characters without padding become three bytes. */
  function DecodeQuantum(q: string): Option<seq<byte>>
    requires |q| == 4
  {
    match (DecodeSextet(q[0]), DecodeSextet(q[1]), DecodeSextet(q[2]), DecodeSextet(q[3]))
    case (Some(v0), Some(v1), Some(v2), Some(v3)) =>
      Some([v0 * 4 + v1 / 16, (v1 % 16) * 16 + v2 / 4, (v2 % 4) * 64 + v3])
    case _ => None
  }

  /** The last four characters, which may end in one or two '='; the bits that
      the padding discards must be zero. */
  function DecodeLast(q: string): Option<seq<byte>>
    requires |q| == 4
  {
    if q[2] == PAD && q[3] == PAD then
      match (DecodeSextet(q[0]), DecodeSextet(q[1]))
      case (Some(v0), Some(v1)) =>
        if v1 % 16 == 0 then Some([v0 * 4 + v1 / 16]) else None
      case _ => None
    else if q[3] == PAD then
      match (DecodeSextet(q[0]), DecodeSextet(q[1]), DecodeSextet(q[2]))
      case (Some(v0), Some(v1), Some(v2)) =>
        if v2 % 4 == 0 then Some([v0 * 4 + v1 / 16, (v1 % 16) * 16 + v2 / 4]) else None
      case _ => None
    else DecodeQuantum(q)
  }

  /** Decoding: `None` for text that is not a canonical encoding. */
  function Decode(t: string): Option<seq<byte>>
  {
    if |t| == 0 then Some([])
    else if |t| < 4 then None
    else if |t| == 4 then DecodeLast(t)
    else
      match (DecodeQuantum(t[..4]), Decode(t[4..]))
      case (Some(head), Some(rest)) => Some(head + rest)
      case _ => None
  }

  lemma QuantumRoundTrip(b0: byte, b1: byte, b2: byte)
    ensures DecodeQuantum(EncodeQuantum(b0, b1, b2)) == Some([b0, b1, b2])
  {
    var v0, v1, v2, v3 := b0 / 4, (b0 % 4) * 16 + b1 / 16, (b1 % 16) * 4 + b2 / 64, b2 % 64;
    SextetRoundTrip(v0);
    SextetRoundTrip(v1);
    SextetRoundTrip(v2);
    SextetRoundTrip(v3);
    assert v1 / 16 == b0 % 4 && v1 % 16 == b1 / 16;
    assert v2 / 4 == b1 % 16 && v2 % 4 == b2 / 64;
    assert v0 * 4 + v1 / 16 == b0;
    assert (v1 % 16) * 16 + v2 / 4 == b1;
    assert (v2 % 4) * 64 + v3 == b2;
  }

  lemma TailRoundTrip(s: seq<byte>)
    requires 1 <= |s| <= 2
    ensures Decode(EncodeTail(s)) == Some(s)
  {
    var q := EncodeTail(s);
    if |s| == 1 {
      var v1 := (s[0] % 4) * 16;
      SextetRoundTrip(s[0] / 4);
      SextetRoundTrip(v1);
      assert v1 % 16 == 0 && (s[0] / 4) * 4 + v1 / 16 == s[0];
      assert DecodeLast(q) == Some([s[0]]);
      assert s == [s[0]];
    } else {
      var v1 := (s[0] % 4) * 16 + s[1] / 16;
      var v2 := (s[1] % 16) * 4;
      SextetRoundTrip(s[0] / 4);
      SextetRoundTrip(v1);
      SextetRoundTrip(v2);
      assert v2 % 4 == 0 && (s[0] / 4) * 4 + v1 / 16 == s[0] && (v1 % 16) * 16 + v2 / 4 == s[1];
      assert DecodeLast(q) == Some([s[0], s[1]]);
      assert s == [s[0], s[1]];
    }
  }

  /** Beyond three bytes, the encoding is the first quantum followed by the
      encoding of the rest, and decoding takes them apart again. */
  lemma EncodeSplit(s: seq<byte>)
    requires |s| > 3
    ensures Encode(s) == EncodeQuantum(s[0], s[1], s[2]) + Encode(s[3..])
    ensures |Encode(s)| > 4
    ensures Decode(Encode(s)) ==
      match (DecodeQuantum(EncodeQuantum(s[0], s[1], s[2])), Decode(Encode(s[3..])))
      case (Some(head), Some(rest)) => Some(head + rest)
      case _ => None
  {
    var t := Encode(s);
    assert t[..4] == EncodeQuantum(s[0], s[1], s[2]) && t[4..] == Encode(s[3..]);
  }

  /** Every byte string is recovered from its encoding. */
  lemma {:induction false} DecodeEncode(s: seq<byte>)
    ensures Decode(Encode(s)) == Some(s)
  {
    if |s| == 0 {
    } else if |s| < 3 {
      TailRoundTrip(s);
    } else if |s| == 3 {
      QuantumRoundTrip(s[0], s[1], s[2]);
      assert s == [s[0], s[1], s[2]];
    } else {
      EncodeSplit(s);
      QuantumRoundTrip(s[0], s[1], s[2]);
      DecodeEncode(s[3..]);
      assert s == [s[0], s[1], s[2]] + s[3..];
    }
  }

  /** Every text that decodes is the encoding of what it decodes to. */
  lemma {:induction false} EncodeDecode(t: string)
    requires Decode(t).Some?
    ensures Encode(Decode(t).value) == t
  {
    if |t| == 4 {
      EncodeLastInverse(t);
    } else if |t| > 4 {
      var head := DecodeQuantum(t[..4]).value;
      var rest := Decode(t[4..]).value;
      EncodeQuantumInverse(t[..4]);
      EncodeDecode(t[4..]);
      var s := head + rest;
      assert s[3..] == rest;
      assert |rest| > 0 by {
        assert |Encode(rest)| == |t| - 4;
      }
      assert t == t[..4] + t[4..];
    }
  }

  lemma EncodeQuantumInverse(q: string)
    requires |q| == 4 && DecodeQuantum(q).Some?
    ensures |DecodeQuantum(q).value| == 3
    ensures var s := DecodeQuantum(q).value; EncodeQuantum(s[0], s[1], s[2]) == q
  {
    var v0, v1, v2, v3 := DecodeSextet(q[0]).value, DecodeSextet(q[1]).value,
                          DecodeSextet(q[2]).value, DecodeSextet(q[3]).value;
    var b0, b1, b2 := v0 * 4 + v1 / 16, (v1 % 16) * 16 + v2 / 4, (v2 % 4) * 64 + v3;
    assert b0 / 4 == v0 && (b0 % 4) * 16 + b1 / 16 == v1;
    assert (b1 % 16) * 4 + b2 / 64 == v2 && b2 % 64 == v3;
  }

  lemma EncodeLastInverse(q: string)
    requires |q| == 4 && DecodeLast(q).Some?
    ensures Encode(DecodeLast(q).value) == q
  {
    if q[2] == PAD && q[3] == PAD {
      EncodeOneByteInverse(q);
    } else if q[3] == PAD {
      EncodeTwoBytesInverse(q);
    } else {
      EncodeQuantumInverse(q);
      var s := DecodeQuantum(q).value;
      assert s[3..] == [];
    }
  }

  lemma EncodeOneByteInverse(q: string)
    requires |q| == 4 && q[2] == PAD && q[3] == PAD && DecodeLast(q).Some?
    ensures Encode(DecodeLast(q).value) == q
  {
    var v0, v1 := DecodeSextet(q[0]).value, DecodeSextet(q[1]).value;
    var b0 := v0 * 4 + v1 / 16;
    assert DecodeLast(q).value == [b0];
    assert b0 / 4 == v0 && (b0 % 4) * 16 == v1;
  }

  lemma EncodeTwoBytesInverse(q: string)
    requires |q| == 4 && q[2] != PAD && q[3] == PAD && DecodeLast(q).Some?
    ensures Encode(DecodeLast(q).value) == q
  {
    var v0, v1, v2 := DecodeSextet(q[0]).value, DecodeSextet(q[1]).value, DecodeSextet(q[2]).value;
    var b0, b1 := v0 * 4 + v1 / 16, (v1 % 16) * 16 + v2 / 4;
    assert DecodeLast(q).value == [b0, b1];
    assert b0 / 4 == v0 && (b0 % 4) * 16 + b1 / 16 == v1;
    assert (b1 % 16) * 4 == v2;
  }
}
