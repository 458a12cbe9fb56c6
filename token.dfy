/** The bind token of the command processor (bridge_cmd/process/token.rs):
    a 32-bit value whose three low little-endian bytes are written as six
    lower-case hexadecimal characters, high nibble first. */
module TokenCodec {
  import opened Wrappers
  import opened Text

  type U32 = x: nat | x < 0x1_0000_0000
  type Byte = x: nat | x < 0x100

  datatype Token = Token(val: U32)

  datatype InvalidFormat = InvalidLength | InvalidChar(c: char)

  const LENGTH: nat := 6
  const CHARS: string := "0123456789abcdef"

  /** `Token::new`: the sub-second nanoseconds of the clock (a parameter
      here) shifted right by 8; the result always fits in 24 bits. */
  function New(nanos: U32): (t: Token)
    ensures t.val < 0x100_0000
  {
    Token(nanos / 0x100)
  }

  /** `to_le_bytes`. */
  function LeBytes(v: U32): (b: seq<Byte>)
    ensures |b| == 4
  {
    [v % 0x100, (v / 0x100) % 0x100, (v / 0x1_0000) % 0x100, v / 0x100_0000]
  }

  /** `from_le_bytes`. */
  function FromLeBytes(b: seq<Byte>): (v: U32)
    requires |b| == 4
    ensures b[3] == 0 ==> v < 0x100_0000
  {
    var w := b[0] as int + 0x100 * b[1] as int + 0x1_0000 * b[2] as int;
    assert w < 0x100_0000 by {
      assert 0x100 * b[1] as int <= 0x100 * 0xFF;
      assert 0x1_0000 * b[2] as int <= 0x1_0000 * 0xFF;
    }
    assert 0x100_0000 * b[3] as int <= 0x100_0000 * 0xFF;
    w + 0x100_0000 * b[3] as int
  }

  lemma LeBytesRoundTrip(v: U32)
    ensures FromLeBytes(LeBytes(v)) == v
  {
    var b := LeBytes(v);
    assert v == v % 0x100 + 0x100 * (v / 0x100);
    assert v / 0x100 == b[1] + 0x100 * (v / 0x1_0000);
    assert v / 0x1_0000 == b[2] + 0x100 * (v / 0x100_0000);
  }

  lemma FromLeBytesRoundTrip(b: seq<Byte>)
    requires |b| == 4
    ensures LeBytes(FromLeBytes(b)) == b
  {
    var v := FromLeBytes(b);
    assert v / 0x100 == b[1] as int + 0x100 * b[2] as int + 0x1_0000 * b[3] as int;
    assert v / 0x1_0000 == b[2] as int + 0x100 * b[3] as int;
    assert v / 0x100_0000 == b[3];
  }

  /** The two characters of one byte: high nibble, then low nibble. */
  function HexPair(b: Byte): (r: string)
    ensures |r| == 2 && IsHexChar(r[0]) && IsHexChar(r[1])
  {
    [CHARS[b / 16], CHARS[b % 16]]
  }

  /** The characters of a run of bytes, in order. */
  function HexOf(bs: seq<Byte>): string {
    if |bs| == 0 then "" else HexOf(bs[..|bs| - 1]) + HexPair(bs[|bs| - 1])
  }

  /** `Display`: the three low bytes of the value, in little-endian order. */
  function Encode(t: Token): (r: string)
    ensures |r| == LENGTH
    ensures forall i :: 0 <= i < |r| ==> IsHexChar(r[i])
  {
    var b := LeBytes(t.val);
    HexPair(b[0]) + HexPair(b[1]) + HexPair(b[2])
  }

  /** The `fmt` loop: push the two characters of each of the first three bytes. */
  method Format(t: Token) returns (s: string)
    ensures s == Encode(t)
  {
    var src := LeBytes(t.val);
    s := "";
    var i := 0;
    while i < LENGTH / 2
      invariant 0 <= i <= LENGTH / 2
      invariant s == HexOf(src[..i])
    {
      s := s + [CHARS[src[i] / 16]];
      s := s + [CHARS[src[i] % 16]];
      assert src[..i + 1][..i] == src[..i];
      i := i + 1;
    }
    assert src[..3][..2] == src[..2] && src[..2][..1] == src[..1] && src[..1][..0] == [];
    assert s == HexOf(src[..2]) + HexPair(src[2]);
    assert HexOf(src[..2]) == HexOf(src[..1]) + HexPair(src[1]);
    assert HexOf(src[..1]) == HexPair(src[0]);
  }

  /** A character of CHARS. */
  predicate IsHexChar(c: char) {
    '0' <= c <= '9' || 'a' <= c <= 'f'
  }

  lemma IsHexCharIsInChars(c: char)
    ensures IsHexChar(c) <==> c in CHARS
  {
    if IsHexChar(c) {
      var i := if c <= '9' then c as int - '0' as int else c as int - 'a' as int + 10;
      assert CHARS[i] == c;
    }
  }

  /** The position of a character in CHARS (the `binary_search` of the
      nested `assert`), for ASCII input. */
  function CharIndex(c: char): (r: Option<nat>)
    ensures r.Some? <==> IsHexChar(c)
    ensures r.Some? ==> r.value < 16 && CHARS[r.value] == c
  {
    if '0' <= c <= '9' then Some(c as nat - '0' as nat)
    else if 'a' <= c <= 'f' then Some(c as nat - 'a' as nat + 10)
    else None
  }

  lemma CharIndexOfChars(i: nat)
    requires i < 16
    ensures CharIndex(CHARS[i]) == Some(i)
  {
  }

  /** The first position from `i` whose character is not in CHARS. */
  function FirstInvalid(t: string, i: nat): (r: Option<nat>)
    requires i <= |t|
    ensures r.Some? ==> i <= r.value < |t| && !IsHexChar(t[r.value])
    ensures r.Some? ==> forall k :: i <= k < r.value ==> IsHexChar(t[k])
    ensures r.None? <==> forall k :: i <= k < |t| ==> IsHexChar(t[k])
    decreases |t| - i
  {
    if i == |t| then None
    else if !IsHexChar(t[i]) then Some(i)
    else FirstInvalid(t, i + 1)
  }

  lemma FirstInvalidIs(t: string, j: nat)
    requires j < |t| && !IsHexChar(t[j]) && forall k :: 0 <= k < j ==> IsHexChar(t[k])
    ensures FirstInvalid(t, 0) == Some(j)
  {
  }

  /** The byte written by a high and a low hexadecimal character. */
  function PairValue(hi: char, lo: char): Byte
    requires IsHexChar(hi) && IsHexChar(lo)
  {
    CharIndex(hi).value * 16 + CharIndex(lo).value
  }

  lemma PairValueOfHexPair(b: Byte)
    ensures PairValue(HexPair(b)[0], HexPair(b)[1]) == b
  {
    CharIndexOfChars(b / 16);
    CharIndexOfChars(b % 16);
  }

  lemma HexPairOfPairValue(hi: char, lo: char)
    requires IsHexChar(hi) && IsHexChar(lo)
    ensures HexPair(PairValue(hi, lo)) == [hi, lo]
  {
    DivModUnique(PairValue(hi, lo), 0x10, CharIndex(hi).value, CharIndex(lo).value);
  }

  /** The decoding of trimmed text: a length other than six is
      `InvalidLength`; the first character outside CHARS (upper-case
      hexadecimal included) is `InvalidChar`; otherwise the three bytes and
      a zero fourth byte. */
  function DecodeTrimmed(t: string): (r: Result<Token, InvalidFormat>)
    ensures r == Err(InvalidLength) <==> |t| != LENGTH
    ensures r.Err? && r.error.InvalidChar? ==>
      exists j :: 0 <= j < |t| && t[j] == r.error.c && !IsHexChar(r.error.c)
                  && forall k :: 0 <= k < j ==> IsHexChar(t[k])
    ensures r.Ok? <==> |t| == LENGTH && forall k :: 0 <= k < LENGTH ==> IsHexChar(t[k])
    ensures r.Ok? ==> r.value.val < 0x100_0000
  {
    if |t| != LENGTH then Err(InvalidLength)
    else match FirstInvalid(t, 0)
      case Some(j) => Err(InvalidChar(t[j]))
      case None => Ok(Token(FromLeBytes([PairValue(t[0], t[1]), PairValue(t[2], t[3]), PairValue(t[4], t[5]), 0])))
  }

  /** `FromStr`: the input is trimmed first. */
  function Decode(s: string): Result<Token, InvalidFormat>
    requires AllAscii(s)
  {
    DecodeTrimmed(Trim(s))
  }

  /** The `from_str` loop on the trimmed text: fill bytes 0..2 of a zeroed
      four-byte buffer from the character pairs, stopping at the first
      invalid character. */
  method ParseTrimmed(t: string) returns (r: Result<Token, InvalidFormat>)
    ensures r == DecodeTrimmed(t)
  {
    if |t| != LENGTH {
      return Err(InvalidLength);
    }
    var buf := new Byte[4](_ => 0);
    var x := 0;
    while x < LENGTH / 2
      invariant 0 <= x <= LENGTH / 2
      invariant forall k :: 0 <= k < 2 * x ==> IsHexChar(t[k])
      invariant forall k :: 0 <= k < x ==> buf[k] == PairValue(t[2 * k], t[2 * k + 1])
      invariant buf[3] == 0
    {
      var cx := x * 2;
      var pair := ReadPair(t[cx], t[cx + 1]);
      if pair.Err? {
        InvalidCharDecodes(t, if IsHexChar(t[cx]) then cx + 1 else cx);
        return Err(pair.error);
      }
      buf[x] := pair.value;
      x := x + 1;
    }
    assert x == 3;
    var bytes := [buf[0], buf[1], buf[2], buf[3]];
    assert bytes == [PairValue(t[0], t[1]), PairValue(t[2], t[3]), PairValue(t[4], t[5]), 0];
    AllHexDecodes(t);
    return Ok(Token(FromLeBytes(bytes)));
  }

  /** One turn of the `from_str` loop: the byte of two characters, or the
      first of them that is not in CHARS. */
  method ReadPair(hi: char, lo: char) returns (r: Result<Byte, InvalidFormat>)
    ensures r.Ok? <==> IsHexChar(hi) && IsHexChar(lo)
    ensures r.Ok? ==> r.value == PairValue(hi, lo)
    ensures r.Err? ==> r.error == InvalidChar(if IsHexChar(hi) then lo else hi)
  {
    var h := CharIndex(hi);
    if h.None? {
      return Err(InvalidChar(hi));
    }
    var l := CharIndex(lo);
    if l.None? {
      return Err(InvalidChar(lo));
    }
    return Ok(h.value * 16 + l.value);
  }

  lemma InvalidCharDecodes(t: string, j: nat)
    requires |t| == LENGTH && j < LENGTH && !IsHexChar(t[j]) && forall k :: 0 <= k < j ==> IsHexChar(t[k])
    ensures DecodeTrimmed(t) == Err(InvalidChar(t[j]))
  {
    FirstInvalidIs(t, j);
  }

  lemma AllHexDecodes(t: string)
    requires |t| == LENGTH && forall k :: 0 <= k < LENGTH ==> IsHexChar(t[k])
    ensures DecodeTrimmed(t) == Ok(Token(FromLeBytes([PairValue(t[0], t[1]), PairValue(t[2], t[3]), PairValue(t[4], t[5]), 0])))
  {
    assert FirstInvalid(t, 0).None?;
  }

  /** `from_str`: trim, then decode. */
  method Parse(s: string) returns (r: Result<Token, InvalidFormat>)
    requires AllAscii(s)
    ensures r == Decode(s)
  {
    r := ParseTrimmed(Trim(s));
  }

  /** Hexadecimal text is ASCII. */
  lemma HexIsAscii(s: string)
    requires forall i :: 0 <= i < |s| ==> IsHexChar(s[i])
    ensures AllAscii(s)
  {
  }

  /** Text that starts and ends with a hexadecimal character is unchanged by trimming. */
  lemma HexUnpadded(s: string)
    requires |s| > 0 && IsHexChar(s[0]) && IsHexChar(s[|s| - 1])
    ensures Trim(s) == s
  {
    TrimUnpadded(s);
  }

  lemma DecodeTrimmedEncode(t: Token)
    requires t.val < 0x100_0000
    ensures DecodeTrimmed(Encode(t)) == Ok(t)
  {
    var s := Encode(t);
    var b := LeBytes(t.val);
    PairValueOfHexPair(b[0]);
    PairValueOfHexPair(b[1]);
    PairValueOfHexPair(b[2]);
    assert b == [PairValue(s[0], s[1]), PairValue(s[2], s[3]), PairValue(s[4], s[5]), 0];
    LeBytesRoundTrip(t.val);
  }

  /** Reading back what was written gives the value, for every value that
      fits in 24 bits (which `New` guarantees). */
  lemma DecodeEncode(t: Token)
    requires t.val < 0x100_0000
    ensures AllAscii(Encode(t))
    ensures Decode(Encode(t)) == Ok(t)
  {
    var s := Encode(t);
    HexIsAscii(s);
    HexUnpadded(s);
    DecodeTrimmedEncode(t);
  }

  /** A token made by `New` survives the round trip (the source's own test). */
  lemma NewRoundTrip(nanos: U32)
    ensures Decode(Encode(New(nanos))) == Ok(New(nanos))
  {
    DecodeEncode(New(nanos));
  }

  lemma EncodeDecodeTrimmed(s: string)
    requires |s| == LENGTH && forall i :: 0 <= i < |s| ==> IsHexChar(s[i])
    ensures DecodeTrimmed(s).Ok? && Encode(DecodeTrimmed(s).value) == s
  {
    var bs := [PairValue(s[0], s[1]), PairValue(s[2], s[3]), PairValue(s[4], s[5]), 0];
    assert FirstInvalid(s, 0).None?;
    assert DecodeTrimmed(s).value.val == FromLeBytes(bs);
    FromLeBytesRoundTrip(bs);
    HexPairOfPairValue(s[0], s[1]);
    HexPairOfPairValue(s[2], s[3]);
    HexPairOfPairValue(s[4], s[5]);
    assert s == [s[0], s[1]] + [s[2], s[3]] + [s[4], s[5]];
  }

  /** Writing back what was read gives the text, for every six-character
      lower-case hexadecimal text. */
  lemma EncodeDecode(s: string)
    requires |s| == LENGTH && forall i :: 0 <= i < |s| ==> IsHexChar(s[i])
    ensures AllAscii(s) && Decode(s).Ok?
    ensures Encode(Decode(s).value) == s
  {
    HexIsAscii(s);
    HexUnpadded(s);
    EncodeDecodeTrimmed(s);
  }

  lemma DivModUnique(a: int, d: int, q: int, r: int)
    requires d == 0x10 || d == 0x100 || d == 0x1_0000 || d == 0x100_0000
    requires a == d * q + r && 0 <= r < d
    ensures a / d == q && a % d == r
  {
    if d == 0x10 {
    } else if d == 0x100 {
    } else if d == 0x1_0000 {
    } else {
    }
  }

  /** The encoding ignores the fourth byte. */
  lemma EncodeIgnoresHighByte(v: U32)
    ensures Encode(Token(v)) == Encode(Token(v % 0x100_0000))
  {
    var b := LeBytes(v);
    var low := [b[0], b[1], b[2], 0];
    LeBytesRoundTrip(v);
    FromLeBytesRoundTrip(low);
    var w := FromLeBytes(low);
    DivModUnique(v, 0x100_0000, b[3], w);
    assert LeBytes(v)[..3] == LeBytes(w)[..3];
  }
}
