/**
 * The byte encodings the syncer writes and reads back: a JSON number for the
 * latest index (what serde_json writes for a `u32` and what it accepts when
 * reading one), and a self-delimiting layout for a signed checkpoint.
 */
module Json {
  import opened Wrappers
  import opened Types
  import opened Decimal
  import opened Sequences

  /** JSON insignificant whitespace: space, tab, line feed, carriage return. */
  predicate IsWhitespace(b: byte)
  {
    b == 0x20 || b == 0x09 || b == 0x0A || b == 0x0D
  }

  predicate IsDigitByte(b: byte)
  {
    0x30 <= b <= 0x39
  }

  function TrimStart(b: seq<byte>): (t: seq<byte>)
    ensures |t| <= |b| && t == b[|b| - |t|..]
    ensures t == [] || !IsWhitespace(t[0])
  {
    if |b| > 0 && IsWhitespace(b[0]) then TrimStart(b[1..]) else b
  }

  function TrimEnd(b: seq<byte>): (t: seq<byte>)
    ensures |t| <= |b| && t == b[..|t|]
    ensures t == [] || !IsWhitespace(t[|t| - 1])
  {
    if |b| > 0 && IsWhitespace(b[|b| - 1]) then TrimEnd(b[..|b| - 1]) else b
  }

  /** What the JSON reader skips around a value. */
  function Trim(b: seq<byte>): seq<byte>
  {
    TrimEnd(TrimStart(b))
  }

  function AsciiBytes(s: string): (b: seq<byte>)
    requires forall i :: 0 <= i < |s| ==> s[i] as int < 0x100
    ensures |b| == |s|
    ensures forall i :: 0 <= i < |s| ==> b[i] == s[i] as int
  {
    seq(|s|, i requires 0 <= i < |s| => s[i] as int)
  }

  function AsChars(b: seq<byte>): (s: string)
    ensures |s| == |b|
    ensures forall i :: 0 <= i < |b| ==> s[i] as int == b[i]
  {
    seq(|b|, i requires 0 <= i < |b| => b[i] as char)
  }

  /** `serde_json::to_vec(&index)`: the decimal digits of the number. */
  function EncodeU32(n: u32): (b: seq<byte>)
    ensures |b| > 0
    ensures forall i :: 0 <= i < |b| ==> IsDigitByte(b[i])
  {
    AsciiBytes(Show(n))
  }

  /**
   * `serde_json::from_slice::<u32>`: optional whitespace around a canonical
   * non-negative decimal integer that fits in 32 bits; anything else fails.
   */
  function DecodeU32(b: seq<byte>): Option<u32>
  {
    var s := AsChars(Trim(b));
    if IsCanonical(s) && Parse(s) < 0x1_0000_0000 then Some(Parse(s)) else None
  }

  /** Reading back what was written gives the number that was written. */
  lemma U32RoundTrip(n: u32)
    ensures DecodeU32(EncodeU32(n)) == Some(n)
  {
    var b := EncodeU32(n);
    assert TrimStart(b) == b;
    assert TrimEnd(b) == b;
    assert AsChars(b) == Show(n);
  }

  /** The reader accepts exactly the writer's output, up to surrounding whitespace. */
  lemma U32Canonical(b: seq<byte>)
    requires DecodeU32(b).Some?
    ensures EncodeU32(DecodeU32(b).value) == Trim(b)
  {
    var t := Trim(b);
    var s := AsChars(t);
    ShowParse(s);
    assert AsciiBytes(s) == t;
  }

  /** The byte that ends the index field of an encoded checkpoint. */
  const COMMA: byte := 0x2C

  /** Stand-in for `serde_json::to_vec(signed_checkpoint)`. */
  function EncodeCheckpoint(c: SignedCheckpointWithMessageId): seq<byte>
  {
    EncodeU32(c.index) + [COMMA] + c.payload
  }

  /** Stand-in for `serde_json::from_slice::<SignedCheckpointWithMessageId>`. */
  function DecodeCheckpoint(b: seq<byte>): Option<SignedCheckpointWithMessageId>
  {
    var k := IndexOf(b, COMMA);
    if k == |b| then None
    else
      match DecodeU32(b[..k])
      case None => None
      case Some(i) => Some(SignedCheckpointWithMessageId(i, b[k + 1..]))
  }

  lemma CheckpointRoundTrip(c: SignedCheckpointWithMessageId)
    ensures DecodeCheckpoint(EncodeCheckpoint(c)) == Some(c)
  {
    var e := EncodeU32(c.index);
    assert COMMA !in e by {
      forall i | 0 <= i < |e| ensures e[i] != COMMA {
        assert IsDigitByte(e[i]);
      }
    }
    IndexOfAfterPrefix(e, COMMA, c.payload);
    var b := EncodeCheckpoint(c);
    assert b[..|e|] == e;
    assert b[|e| + 1..] == c.payload;
    U32RoundTrip(c.index);
  }
}
