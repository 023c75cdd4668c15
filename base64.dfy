/** The "base64" encoding of section 4 of RFC 4648 (alphabet A-Z a-z 0-9 + /, padded
    with '='), which the manifest builder applies to the serialised manifest. */
module Base64 {
  import opened Wrappers
  import opened Bytes

  /** A six-bit value, the content of one output character. */
  type Sextet = x: int | 0 <= x < 64

  const Pad: char := '='

  /** Table 1 of RFC 4648: value 0..25 -> 'A'..'Z', 26..51 -> 'a'..'z', 52..61 -> '0'..'9',
      62 -> '+', 63 -> '/'. */
  function CharOf(v: Sextet): char
  {
    if v < 26 then ('A' as int + v) as char
    else if v < 52 then ('a' as int + (v - 26)) as char
    else if v < 62 then ('0' as int + (v - 52)) as char
    else if v == 62 then '+'
    else '/'
  }

  /** The inverse of Table 1; `None` for a character outside the alphabet (including '='). */
  function ValueOf(c: char): (r: Option<Sextet>)
    ensures r.Some? ==> CharOf(r.value) == c
  {
    if 'A' <= c <= 'Z' then Some(c as int - 'A' as int)
    else if 'a' <= c <= 'z' then Some(c as int - 'a' as int + 26)
    else if '0' <= c <= '9' then Some(c as int - '0' as int + 52)
    else if c == '+' then Some(62)
    else if c == '/' then Some(63)
    else None
  }

  lemma ValueOfCharOf(v: Sextet)
    ensures ValueOf(CharOf(v)) == Some(v)
  {
  }

  /** Three bytes as four characters (one 24-bit group, most significant bits first). */
  function EncodeGroup(b0: byte, b1: byte, b2: byte): (s: string)
    ensures |s| == 4
  {
    [CharOf(b0 / 4), CharOf((b0 % 4) * 16 + b1 / 16), CharOf((b1 % 16) * 4 + b2 / 64), CharOf(b2 % 64)]
  }

  /** A final group of two bytes: three characters and one pad. */
  function EncodeTwo(b0: byte, b1: byte): (s: string)
    ensures |s| == 4
  {
    [CharOf(b0 / 4), CharOf((b0 % 4) * 16 + b1 / 16), CharOf((b1 % 16) * 4), Pad]
  }

  /** A final group of one byte: two characters and two pads. */
  function EncodeOne(b0: byte): (s: string)
    ensures |s| == 4
  {
    [CharOf(b0 / 4), CharOf((b0 % 4) * 16), Pad, Pad]
  }

  function Encode(data: seq<byte>): (s: string)
    ensures |s| % 4 == 0 && (|s| == 0 <==> |data| == 0)
    ensures |data| > 3 ==> |s| > 4
    decreases |data|
  {
    if |data| == 0 then ""
    else if |data| == 1 then EncodeOne(data[0])
    else if |data| == 2 then EncodeTwo(data[0], data[1])
    else EncodeGroup(data[0], data[1], data[2]) + Encode(data[3..])
  }

  /** The first, second and third byte of a group from its sextets. */
  function Byte0(v0: Sextet, v1: Sextet): byte { v0 * 4 + v1 / 16 }
  function Byte1(v1: Sextet, v2: Sextet): byte { (v1 % 16) * 16 + v2 / 4 }
  function Byte2(v2: Sextet, v3: Sextet): byte { (v2 % 4) * 64 + v3 }

  /** Four characters without padding as three bytes. */
  function DecodeGroup(s: string): Option<seq<byte>>
    requires |s| == 4
  {
    var v0, v1, v2, v3 := ValueOf(s[0]), ValueOf(s[1]), ValueOf(s[2]), ValueOf(s[3]);
    if v0.None? || v1.None? || v2.None? || v3.None? then None
    else Some([Byte0(v0.value, v1.value), Byte1(v1.value, v2.value), Byte2(v2.value, v3.value)])
  }

  /** The last four characters, which may end in one or two pads. */
  function DecodeFinal(s: string): Option<seq<byte>>
    requires |s| == 4
  {
    if s[2] == Pad && s[3] == Pad then
      var v0, v1 := ValueOf(s[0]), ValueOf(s[1]);
      if v0.None? || v1.None? then None
      else Some([Byte0(v0.value, v1.value)])
    else if s[3] == Pad then
      var v0, v1, v2 := ValueOf(s[0]), ValueOf(s[1]), ValueOf(s[2]);
      if v0.None? || v1.None? || v2.None? then None
      else Some([Byte0(v0.value, v1.value), Byte1(v1.value, v2.value)])
    else DecodeGroup(s)
  }

  function Decode(s: string): Option<seq<byte>>
    decreases |s|
  {
    if |s| == 0 then Some([])
    else if |s| < 4 then None
    else if |s| == 4 then DecodeFinal(s)
    else
      match DecodeGroup(s[..4])
      case None => None
      case Some(head) =>
        match Decode(s[4..])
        case None => None
        case Some(tail) => Some(head + tail)
  }

  lemma HighLow16(hi: int, lo: int)
    requires 0 <= hi && 0 <= lo < 16
    ensures (hi * 16 + lo) / 16 == hi
  {
  }

  lemma HighLow4(hi: int, lo: int)
    requires 0 <= hi && 0 <= lo < 4
    ensures (hi * 4 + lo) / 4 == hi && (hi * 4 + lo) % 4 == lo
  {
  }

  /** The sextets of a byte pair give the bytes back. */
  lemma SplitBytes(b0: byte, b1: byte, b2: byte)
    ensures Byte0(b0 / 4, (b0 % 4) * 16 + b1 / 16) == b0
    ensures Byte1((b0 % 4) * 16 + b1 / 16, (b1 % 16) * 4 + b2 / 64) == b1
    ensures Byte2((b1 % 16) * 4 + b2 / 64, b2 % 64) == b2
  {
    HighLow16(b0 % 4, b1 / 16);
    HighLow4(b1 % 16, b2 / 64);
  }

  lemma DecodeEncodeGroup(b0: byte, b1: byte, b2: byte)
    ensures DecodeGroup(EncodeGroup(b0, b1, b2)) == Some([b0, b1, b2])
  {
    ValueOfCharOf(b0 / 4); ValueOfCharOf((b0 % 4) * 16 + b1 / 16);
    ValueOfCharOf((b1 % 16) * 4 + b2 / 64); ValueOfCharOf(b2 % 64);
    SplitBytes(b0, b1, b2);
  }

  lemma DecodeEncodeTwo(b0: byte, b1: byte)
    ensures DecodeFinal(EncodeTwo(b0, b1)) == Some([b0, b1])
  {
    ValueOfCharOf(b0 / 4); ValueOfCharOf((b0 % 4) * 16 + b1 / 16); ValueOfCharOf((b1 % 16) * 4);
    SplitBytes(b0, b1, 0);
    assert EncodeTwo(b0, b1)[2] != Pad;
  }

  lemma DecodeEncodeOne(b0: byte)
    ensures DecodeFinal(EncodeOne(b0)) == Some([b0])
  {
    ValueOfCharOf(b0 / 4); ValueOfCharOf((b0 % 4) * 16);
    SplitBytes(b0, 0, 0);
  }

  /** Decoding undoes encoding: the base64 text of any byte string gives back that byte string. */
  lemma {:induction false} DecodeEncode(data: seq<byte>)
    ensures Decode(Encode(data)) == Some(data)
    decreases |data|
  {
    if 0 < |data| <= 3 {
      DecodeEncodeShort(data);
    } else if |data| > 3 {
      DecodeEncode(data[3..]);
      DecodeEncodeLonger(data);
    }
  }

  /** The base cases: one, two or three bytes, a single final group. */
  lemma DecodeEncodeShort(data: seq<byte>)
    requires 0 < |data| <= 3
    ensures Decode(Encode(data)) == Some(data)
  {
    if |data| == 1 {
      DecodeEncodeOne(data[0]);
      assert data == [data[0]];
    } else if |data| == 2 {
      DecodeEncodeTwo(data[0], data[1]);
      assert data == [data[0], data[1]];
    } else {
      DecodeEncodeThree(data);
    }
  }

  lemma DecodeEncodeThree(data: seq<byte>)
    requires |data| == 3
    ensures Decode(Encode(data)) == Some(data)
  {
    var head := EncodeGroup(data[0], data[1], data[2]);
    assert Encode(data) == head + "";
    assert head + "" == head;
    DecodeEncodeGroup(data[0], data[1], data[2]);
    assert head[2] != Pad && head[3] != Pad;
    assert data == [data[0], data[1], data[2]];
  }

  /** One step of the induction above: a full group followed by a non-empty remainder. */
  lemma DecodeEncodeLonger(data: seq<byte>)
    requires |data| > 3
    requires Decode(Encode(data[3..])) == Some(data[3..])
    ensures Decode(Encode(data)) == Some(data)
  {
    var head := EncodeGroup(data[0], data[1], data[2]);
    var tail := Encode(data[3..]);
    assert |tail| > 0;
    assert Encode(data) == head + tail;
    DecodeEncodeGroup(data[0], data[1], data[2]);
    SplitThree(data);
    DecodeGroupThenRest(head, tail, [data[0], data[1], data[2]], data[3..]);
  }

  lemma SplitThree(data: seq<byte>)
    requires |data| >= 3
    ensures data == [data[0], data[1], data[2]] + data[3..]
  {
  }

  /** Decoding a full group followed by more text. */
  lemma DecodeGroupThenRest(head: string, tail: string, h: seq<byte>, t: seq<byte>)
    requires |head| == 4 && |tail| > 0
    requires DecodeGroup(head) == Some(h) && Decode(tail) == Some(t)
    ensures Decode(head + tail) == Some(h + t)
  {
    var s := head + tail;
    assert s[..4] == head;
    assert s[4..] == tail;
  }

  /** The test vectors of section 10 of RFC 4648: "f", "fo", "foo", "foob", "fooba" and
      "foobar" as bytes. */
  lemma EncodeTestVectors()
    ensures Encode([0x66]) == "Zg=="
    ensures Encode([0x66, 0x6F]) == "Zm8="
    ensures Encode([0x66, 0x6F, 0x6F]) == "Zm9v"
    ensures Encode([0x66, 0x6F, 0x6F, 0x62]) == "Zm9vYg=="
    ensures Encode([0x66, 0x6F, 0x6F, 0x62, 0x61]) == "Zm9vYmE="
    ensures Encode([0x66, 0x6F, 0x6F, 0x62, 0x61, 0x72]) == "Zm9vYmFy"
  {
    assert [0x66, 0x6F, 0x6F, 0x62][3..] == [0x62];
    assert [0x66, 0x6F, 0x6F, 0x62, 0x61][3..] == [0x62, 0x61];
    assert [0x66, 0x6F, 0x6F, 0x62, 0x61, 0x72][3..] == [0x62, 0x61, 0x72];
    assert [0x62, 0x61, 0x72][3..] == [];
  }

  /** Every character of an encoding is in the alphabet or is the pad character. */
  lemma {:induction false} EncodeAlphabet(data: seq<byte>)
    ensures forall i :: 0 <= i < |Encode(data)| ==> Encode(data)[i] == Pad || ValueOf(Encode(data)[i]).Some?
    decreases |data|
  {
    if |data| > 2 {
      EncodeAlphabet(data[3..]);
      var b0, b1, b2 := data[0], data[1], data[2];
      ValueOfCharOf(b0 / 4); ValueOfCharOf((b0 % 4) * 16 + b1 / 16);
      ValueOfCharOf((b1 % 16) * 4 + b2 / 64); ValueOfCharOf(b2 % 64);
    } else if |data| == 2 {
      var b0, b1 := data[0], data[1];
      ValueOfCharOf(b0 / 4); ValueOfCharOf((b0 % 4) * 16 + b1 / 16); ValueOfCharOf((b1 % 16) * 4);
    } else if |data| == 1 {
      ValueOfCharOf(data[0] / 4); ValueOfCharOf((data[0] % 4) * 16);
    }
  }
}
