/** Job identifiers: the URL-safe base64 encoding ("base64url", section 5 of
    RFC 4648, with '=' padding) of 16 random bytes, with the padding trimmed.
    The random bytes are an input of the model. */
module Identity {

  import opened Wrappers

  type byte = b: int | 0 <= b < 256

  /** The 16 bytes read from the random source for one identifier. */
  type Bytes16 = b: seq<byte> | |b| == 16 witness seq(16, i => 0)

  const Pad: char := '='

  /** The base64url alphabet: A-Z, a-z, 0-9, '-' and '_'. */
  predicate IsUrlSafe(c: char) {
    ('A' <= c <= 'Z') || ('a' <= c <= 'z') || ('0' <= c <= '9') || c == '-' || c == '_'
  }

  /** The character that encodes sextet `v`. */
  function SextetChar(v: int): (c: char)
    requires 0 <= v < 64
    ensures IsUrlSafe(c)
  {
    if v < 26 then ('A' as int + v) as char
    else if v < 52 then ('a' as int + (v - 26)) as char
    else if v < 62 then ('0' as int + (v - 52)) as char
    else if v == 62 then '-'
    else '_'
  }

  /** The sextet a character stands for, or -1 outside the alphabet. */
  function CharSextet(c: char): (v: int)
    ensures -1 <= v < 64
    ensures v == -1 <==> !IsUrlSafe(c)
  {
    if 'A' <= c <= 'Z' then c as int - 'A' as int
    else if 'a' <= c <= 'z' then c as int - 'a' as int + 26
    else if '0' <= c <= '9' then c as int - '0' as int + 52
    else if c == '-' then 62
    else if c == '_' then 63
    else -1
  }

  lemma SextetRoundTrip(v: int)
    requires 0 <= v < 64
    ensures CharSextet(SextetChar(v)) == v
  {
  }

  /** Three bytes become four characters. */
  function EncodeGroup(b0: byte, b1: byte, b2: byte): string {
    [SextetChar(b0 / 4), SextetChar((b0 % 4) * 16 + b1 / 16),
     SextetChar((b1 % 16) * 4 + b2 / 64), SextetChar(b2 % 64)]
  }

  /** Padded base64url encoding, as Go's base64.URLEncoding.Encode writes it. */
  function Encode(b: seq<byte>): string
    decreases |b|
  {
    if |b| == 0 then []
    else if |b| == 1 then
      [SextetChar(b[0] / 4), SextetChar((b[0] % 4) * 16), Pad, Pad]
    else if |b| == 2 then
      [SextetChar(b[0] / 4), SextetChar((b[0] % 4) * 16 + b[1] / 16), SextetChar((b[1] % 16) * 4), Pad]
    else
      EncodeGroup(b[0], b[1], b[2]) + Encode(b[3..])
  }

  /** Reference decoder of padded base64url text; None when the text is not
      a sequence of four-character groups over the alphabet. */
  function Decode(s: string): Option<seq<byte>>
    decreases |s|
  {
    if |s| == 0 then Some([])
    else if |s| < 4 then None
    else
      var v0, v1, v2, v3 := CharSextet(s[0]), CharSextet(s[1]), CharSextet(s[2]), CharSextet(s[3]);
      if v0 < 0 || v1 < 0 then None
      else if |s| == 4 && s[2] == Pad && s[3] == Pad then
        Some([v0 * 4 + v1 / 16])
      else if |s| == 4 && s[3] == Pad then
        if v2 < 0 then None
        else Some([v0 * 4 + v1 / 16, (v1 % 16) * 16 + v2 / 4])
      else if v2 < 0 || v3 < 0 then None
      else
        match Decode(s[4..])
        case None => None
        case Some(rest) =>
          Some([v0 * 4 + v1 / 16, (v1 % 16) * 16 + v2 / 4, (v2 % 4) * 64 + v3] + rest)
  }


  lemma GroupBytes(b0: byte, b1: byte, b2: byte)
    ensures (b0 / 4) * 4 + ((b0 % 4) * 16 + b1 / 16) / 16 == b0
    ensures (((b0 % 4) * 16 + b1 / 16) % 16) * 16 + ((b1 % 16) * 4 + b2 / 64) / 4 == b1
    ensures (((b1 % 16) * 4 + b2 / 64) % 4) * 64 + b2 % 64 == b2
  {
  }

  lemma DecodeOne(b0: byte)
    ensures Decode(Encode([b0])) == Some([b0])
  {
    var c0, c1 := SextetChar(b0 / 4), SextetChar((b0 % 4) * 16);
    assert Encode([b0]) == [c0, c1, Pad, Pad];
    SextetRoundTrip(b0 / 4);
    SextetRoundTrip((b0 % 4) * 16);
    GroupBytes(b0, 0, 0);
    assert Decode([c0, c1, Pad, Pad]) == Some([(b0 / 4) * 4 + ((b0 % 4) * 16) / 16]);
  }

  lemma DecodeTwo(b0: byte, b1: byte)
    ensures Decode(Encode([b0, b1])) == Some([b0, b1])
  {
    var v0, v1, v2 := b0 / 4, (b0 % 4) * 16 + b1 / 16, (b1 % 16) * 4;
    var c0, c1, c2 := SextetChar(v0), SextetChar(v1), SextetChar(v2);
    assert Encode([b0, b1]) == [c0, c1, c2, Pad];
    SextetRoundTrip(v0);
    SextetRoundTrip(v1);
    SextetRoundTrip(v2);
    assert c2 != Pad;
    GroupBytes(b0, b1, 0);
    assert Decode([c0, c1, c2, Pad]) == Some([v0 * 4 + v1 / 16, (v1 % 16) * 16 + v2 / 4]);
  }

  lemma DecodeGroup(b0: byte, b1: byte, b2: byte, t: string, rest: seq<byte>)
    requires Decode(t) == Some(rest)
    ensures Decode(EncodeGroup(b0, b1, b2) + t) == Some([b0, b1, b2] + rest)
  {
    var v0, v1, v2, v3 := b0 / 4, (b0 % 4) * 16 + b1 / 16, (b1 % 16) * 4 + b2 / 64, b2 % 64;
    var s := EncodeGroup(b0, b1, b2) + t;
    SextetRoundTrip(v0);
    SextetRoundTrip(v1);
    SextetRoundTrip(v2);
    SextetRoundTrip(v3);
    GroupBytes(b0, b1, b2);
    assert s[4..] == t;
    assert s[2] != Pad && s[3] != Pad;
    assert CharSextet(s[0]) == v0 && CharSextet(s[1]) == v1;
    assert CharSextet(s[2]) == v2 && CharSextet(s[3]) == v3;
  }

  lemma DecodeShort(b: seq<byte>)
    requires |b| < 3
    ensures Decode(Encode(b)) == Some(b)
  {
    if |b| == 1 {
      var b0 := b[0];
      assert b == [b0];
      DecodeOne(b0);
    } else if |b| == 2 {
      var b0, b1 := b[0], b[1];
      assert b == [b0, b1];
      DecodeTwo(b0, b1);
    }
  }

  lemma EncodeStep(b: seq<byte>)
    requires |b| >= 3
    ensures Encode(b) == EncodeGroup(b[0], b[1], b[2]) + Encode(b[3..])
  {
  }

  lemma DecodeStep(b: seq<byte>, t: string, s: string)
    requires |b| >= 3 && s == EncodeGroup(b[0], b[1], b[2]) + t
    requires Decode(t) == Some(b[3..])
    ensures Decode(s) == Some(b)
  {
    DecodeGroup(b[0], b[1], b[2], t, b[3..]);
    assert [b[0], b[1], b[2]] + b[3..] == b;
  }

  /** Decoding undoes encoding, for every byte sequence. */
  lemma {:induction false} DecodeEncode(b: seq<byte>)
    ensures Decode(Encode(b)) == Some(b)
    decreases |b|
  {
    if |b| < 3 {
      DecodeShort(b);
    } else {
      DecodeEncode(b[3..]);
      EncodeStep(b);
      DecodeStep(b, Encode(b[3..]), Encode(b));
    }
  }

  /** The encoding uses four characters per started group of three bytes. */
  lemma {:induction false} EncodeLength(b: seq<byte>)
    ensures |Encode(b)| == (|b| + 2) / 3 * 4
    decreases |b|
  {
    if |b| >= 3 {
      EncodeLength(b[3..]);
      EncodeStep(b);
      assert (|b| + 2) / 3 == (|b| - 3 + 2) / 3 + 1;
    } else {
      assert (|b| + 2) / 3 == if |b| == 0 then 0 else 1;
    }
  }

  /** Every character before the padding is in the URL-safe alphabet and
      the padding is 0, 1 or 2 '=' characters. */
  lemma {:induction false} EncodeShape(b: seq<byte>)
    ensures |Encode(b)| >= PadCount(|b|)
    ensures forall i :: 0 <= i < |Encode(b)| - PadCount(|b|) ==> IsUrlSafe(Encode(b)[i])
    ensures forall i :: |Encode(b)| - PadCount(|b|) <= i < |Encode(b)| ==> Encode(b)[i] == Pad
    decreases |b|
  {
    if |b| >= 3 {
      EncodeShape(b[3..]);
      var g, t := EncodeGroup(b[0], b[1], b[2]), Encode(b[3..]);
      assert Encode(b) == g + t;
      assert PadCount(|b|) == PadCount(|b| - 3);
      forall i | 0 <= i < |g + t| - PadCount(|b|)
        ensures IsUrlSafe((g + t)[i])
      {
        if i >= 4 { assert (g + t)[i] == t[i - 4]; }
      }
    }
  }

  /** How many '=' characters pad the encoding of `n` bytes. */
  function PadCount(n: nat): nat {
    if n % 3 == 0 then 0 else 3 - n % 3
  }

  /** bytes.TrimRight(s, "="): drop every trailing '='. */
  function TrimPadding(s: string): (r: string)
    ensures |r| <= |s| && r == s[..|r|]
    ensures |r| == 0 || r[|r| - 1] != Pad
    ensures forall i :: |r| <= i < |s| ==> s[i] == Pad
    decreases |s|
  {
    if |s| > 0 && s[|s| - 1] == Pad then TrimPadding(s[..|s| - 1]) else s
  }

  /** randomID(): encode the 16 random bytes and trim the padding. */
  function RandomId(b: Bytes16): (id: string)
    ensures |id| == 22
    ensures forall i :: 0 <= i < |id| ==> IsUrlSafe(id[i])
  {
    RandomIdPadded(b);
    TrimPadding(Encode(b))
  }

  /** The identifier is the padded encoding without its two '=' characters. */
  lemma RandomIdPadded(b: Bytes16)
    ensures |TrimPadding(Encode(b))| == 22
    ensures forall i :: 0 <= i < 22 ==> IsUrlSafe(TrimPadding(Encode(b))[i])
    ensures TrimPadding(Encode(b)) + [Pad, Pad] == Encode(b)
  {
    EncodeLength(b);
    EncodeShape(b);
    var enc := Encode(b);
    assert PadCount(16) == 2;
    var r := TrimPadding(enc);
    assert enc[21] != Pad && enc[22] == Pad && enc[23] == Pad;
    assert |r| == 22;
    assert enc == r + [Pad, Pad];
  }

  /** Distinct random inputs give distinct identifiers: the encoding loses
      nothing, so identifiers are as unique as the random bytes. */
  lemma RandomIdInjective(a: Bytes16, b: Bytes16)
    requires RandomId(a) == RandomId(b)
    ensures a == b
  {
    RandomIdPadded(a);
    RandomIdPadded(b);
    DecodeEncode(a);
    DecodeEncode(b);
  }
}
