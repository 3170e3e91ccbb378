/** A decoder for section 4 of RFC 4648 and the line rules of section 6.8 of RFC 2045, to check the encoder against. */
module Base64Decoding {
  import opened Common
  import opened Base64

  function ValueOf(c: byte): Option<nat> {
    var v := c as int;
    if 65 <= v <= 90 then Some(v - 65)
    else if 97 <= v <= 122 then Some(v - 97 + 26)
    else if 48 <= v <= 57 then Some(v - 48 + 52)
    else if v == 43 then Some(62)
    else if v == 47 then Some(63)
    else None
  }

  predicate IsLetter(c: byte) {
    ValueOf(c).Some?
  }

  function Value(c: byte): (r: nat)
    ensures r < 64
  {
    var v := ValueOf(c);
    if v.Some? then v.value else 0
  }

  /** The three bytes of four 6-bit values. */
  function Unpack(v0: nat, v1: nat, v2: nat, v3: nat): (r: Bytes)
    requires v0 < 64 && v1 < 64 && v2 < 64 && v3 < 64
    ensures |r| == 3
  {
    [(v0 * 4 + v1 / 16) as byte, (v1 % 16 * 16 + v2 / 4) as byte, (v2 % 4 * 64 + v3) as byte]
  }

  /** Four characters give three bytes, or fewer when the last group is padded. */
  function DecodeGroup(s: Bytes, last: bool): Option<Bytes>
    requires |s| == 4
  {
    if !IsLetter(s[0]) || !IsLetter(s[1]) then None
    else
      var bytes := Unpack(Value(s[0]), Value(s[1]), Value(s[2]), Value(s[3]));
      if IsLetter(s[2]) && IsLetter(s[3]) then Some(bytes)
      else if last && IsLetter(s[2]) && s[3] == PAD then Some(bytes[..2])
      else if last && s[2] == PAD && s[3] == PAD then Some(bytes[..1])
      else None
  }

  function Decode(s: Bytes): Option<Bytes> {
    if s == [] then Some([])
    else if |s| < 4 then None
    else
      match DecodeGroup(s[..4], |s| == 4)
      case None => None
      case Some(bytes) =>
        match Decode(s[4..])
        case None => None
        case Some(rest) => Some(bytes + rest)
  }

  lemma LetterValue(v: nat)
    requires v < 64
    ensures IsLetter(Letter(v)) && Value(Letter(v)) == v && Letter(v) != PAD && Letter(v) != CR && Letter(v) != LF
  {
  }

  lemma By64(t: nat, q: nat, r: nat)
    requires t == 64 * q + r && r < 64
    ensures t / 64 == q && t % 64 == r
  {
  }

  lemma By4096(t: nat, q: nat, r: nat)
    requires t == 4096 * q + r && r < 4096
    ensures t / 4096 == q
  {
  }

  lemma By262144(t: nat, q: nat, r: nat)
    requires t == 262144 * q + r && r < 262144
    ensures t / 262144 == q
  {
  }

  /** The four sextets of three bytes. */
  lemma SplitTriple(b0: nat, b1: nat, b2: nat)
    requires b0 < 256 && b1 < 256 && b2 < 256
    ensures var t := b0 * 65536 + b1 * 256 + b2;
            && t / 262144 == b0 / 4 && t / 4096 % 64 == b0 % 4 * 16 + b1 / 16
            && t / 64 % 64 == b1 % 16 * 4 + b2 / 64 && t % 64 == b2 % 64
  {
    SplitParts(b0, b1, b2, b0 / 4, b0 % 4, b1 / 16, b1 % 16, b2 / 64, b2 % 64);
  }

  lemma SplitParts(b0: nat, b1: nat, b2: nat, q0: nat, r0: nat, q1: nat, r1: nat, q2: nat, r2: nat)
    requires b0 == 4 * q0 + r0 && b1 == 16 * q1 + r1 && b2 == 64 * q2 + r2
    requires q0 < 64 && r0 < 4 && q1 < 16 && r1 < 16 && q2 < 4 && r2 < 64
    ensures var t := b0 * 65536 + b1 * 256 + b2;
            t / 262144 == q0 && t / 4096 % 64 == r0 * 16 + q1 && t / 64 % 64 == r1 * 4 + q2 && t % 64 == r2
  {
    var t := b0 * 65536 + b1 * 256 + b2;
    By262144(t, q0, r0 * 65536 + b1 * 256 + b2);
    By4096(t, 64 * q0 + (r0 * 16 + q1), 256 * r1 + b2);
    By64(64 * q0 + (r0 * 16 + q1), q0, r0 * 16 + q1);
    By64(t, 1024 * b0 + 4 * b1 + q2, r2);
    By64(1024 * b0 + 4 * b1 + q2, 16 * b0 + q1, r1 * 4 + q2);
  }

  lemma UnpackTriple(b0: byte, b1: byte, b2: byte)
    ensures var t := Triple(b0, b1, b2);
            Unpack(t / 262144, t / 4096 % 64, t / 64 % 64, t % 64) == [b0, b1, b2]
  {
    var t := Triple(b0, b1, b2);
    SplitTriple(b0 as int, b1 as int, b2 as int);
    UnpackSextets(b0, b1, b2, t / 262144, t / 4096 % 64, t / 64 % 64, t % 64);
  }

  lemma UnpackSextets(b0: byte, b1: byte, b2: byte, v0: nat, v1: nat, v2: nat, v3: nat)
    requires v0 == b0 as int / 4 && v1 == b0 as int % 4 * 16 + b1 as int / 16
    requires v2 == b1 as int % 16 * 4 + b2 as int / 64 && v3 == b2 as int % 64
    ensures v0 < 64 && v1 < 64 && v2 < 64 && v3 < 64
    ensures Unpack(v0, v1, v2, v3) == [b0, b1, b2]
  {
    JoinSextets(b0 as int, b1 as int, b2 as int);
  }

  lemma JoinSextets(b0: nat, b1: nat, b2: nat)
    requires b0 < 256 && b1 < 256 && b2 < 256
    ensures b0 / 4 * 4 + (b0 % 4 * 16 + b1 / 16) / 16 == b0
    ensures (b0 % 4 * 16 + b1 / 16) % 16 * 16 + (b1 % 16 * 4 + b2 / 64) / 4 == b1
    ensures (b1 % 16 * 4 + b2 / 64) % 4 * 64 + b2 % 64 == b2
  {
  }

  lemma ChunkDecodes(chunk: Bytes, last: bool)
    requires 1 <= |chunk| <= 3 && (|chunk| < 3 ==> last)
    ensures DecodeGroup(EncodeChunk(chunk), last) == Some(chunk)
  {
    var b1, b2 := if |chunk| > 1 then chunk[1] else 0, if |chunk| > 2 then chunk[2] else 0;
    var t := Triple(chunk[0], b1, b2);
    UnpackTriple(chunk[0], b1, b2);
    PaddingIsZero(chunk[0], b1, b2);
    SextetsDecode(t / 262144, t / 4096 % 64, t / 64 % 64, t % 64, |chunk|, last);
    assert [chunk[0], b1, b2][..|chunk|] == chunk;
  }

  /** Reading back the letters of four sextets, the ones that padding replaced being zero. */
  lemma SextetsDecode(v0: nat, v1: nat, v2: nat, v3: nat, n: nat, last: bool)
    requires v0 < 64 && v1 < 64 && v2 < 64 && v3 < 64 && 1 <= n <= 3
    requires (n < 3 ==> last && v3 == 0) && (n < 2 ==> v2 == 0)
    ensures var s := [Letter(v0), Letter(v1), if n > 1 then Letter(v2) else PAD, if n > 2 then Letter(v3) else PAD];
            DecodeGroup(s, last) == Some(Unpack(v0, v1, v2, v3)[..n])
  {
    LetterValue(v0);
    LetterValue(v1);
    LetterValue(v2);
    LetterValue(v3);
    assert Value(PAD) == 0 && !IsLetter(PAD);
    var bytes := Unpack(v0, v1, v2, v3);
    assert bytes[..3] == bytes;
  }

  lemma PaddingIsZero(b0: byte, b1: byte, b2: byte)
    ensures var t := Triple(b0, b1, b2);
            && (b2 == 0 ==> t % 64 == 0) && (b1 == 0 && b2 == 0 ==> t / 64 % 64 == 0)
  {
    SplitTriple(b0 as int, b1 as int, b2 as int);
  }

  /** Round trip: the decoder recovers every byte string from its encoding. */
  lemma {:induction false} DecodeEncode(data: Bytes)
    ensures Decode(Encode(data)) == Some(data)
  {
    if data == [] {
    } else if |data| <= 3 {
      ChunkDecodes(data, true);
      EncodeOneChunk(data);
      var s := EncodeChunk(data);
      assert s[..4] == s && s[4..] == [] && data + [] == data;
    } else {
      ChunkDecodes(data[..3], false);
      DecodeEncode(data[3..]);
      EncodeNonempty(data[3..]);
      var head, rest := EncodeChunk(data[..3]), Encode(data[3..]);
      assert (head + rest)[..4] == head && (head + rest)[4..] == rest;
      assert data[..3] + data[3..] == data;
    }
  }

  lemma EncodeOneChunk(data: Bytes)
    requires 1 <= |data| <= 3
    ensures Encode(data) == EncodeChunk(data)
  {
    if |data| == 3 {
      assert data[..3] == data && data[3..] == [];
    }
  }

  lemma EncodeNonempty(data: Bytes)
    requires data != []
    ensures |Encode(data)| >= 4
  {
  }

  // ---- what the lines look like ----

  predicate IsBreak(c: byte) {
    c == CR || c == LF
  }

  function Kept(c: byte): Bytes {
    if IsBreak(c) then [] else [c]
  }

  /** Dropping line breaks, as a MIME reader does before decoding. */
  function Unwrap(s: Bytes): Bytes {
    if s == [] then [] else Kept(s[0]) + Unwrap(s[1..])
  }

  predicate NoBreaks(s: Bytes) {
    forall k | 0 <= k < |s| :: !IsBreak(s[k])
  }

  lemma {:induction false} UnwrapConcat(a: Bytes, b: Bytes)
    ensures Unwrap(a + b) == Unwrap(a) + Unwrap(b)
  {
    if a == [] {
      assert a + b == b;
    } else {
      UnwrapConcat(a[1..], b);
      assert (a + b)[1..] == a[1..] + b;
      Associate(Kept(a[0]), Unwrap(a[1..]), Unwrap(b));
    }
  }

  lemma {:induction false} UnwrapPlain(s: Bytes)
    requires NoBreaks(s)
    ensures Unwrap(s) == s
  {
    if s != [] {
      UnwrapPlain(s[1..]);
    }
  }

  lemma UnwrapCrlf(s: Bytes)
    requires s == CRLF
    ensures Unwrap(s) == []
  {
    assert s[1..] == [LF] && s[1..][1..] == [];
    assert Unwrap(s[1..]) == [];
  }

  lemma {:induction false} UnwrapWrap(raw: Bytes)
    requires NoBreaks(raw)
    ensures Unwrap(Wrap(raw)) == raw
  {
    UnwrapCrlf(CRLF);
    if raw == [] {
    } else if |raw| <= LINE {
      UnwrapConcat(raw, CRLF);
      UnwrapPlain(raw);
    } else {
      UnwrapWrap(raw[LINE..]);
      UnwrapConcat(raw[..LINE] + CRLF, Wrap(raw[LINE..]));
      UnwrapConcat(raw[..LINE], CRLF);
      UnwrapPlain(raw[..LINE]);
    }
  }

  lemma {:induction false} EncodeHasNoBreaks(data: Bytes)
    ensures NoBreaks(Encode(data))
  {
    if data != [] {
      var chunk := if |data| < 3 then data else data[..3];
      ChunkHasNoBreaks(chunk);
      if |data| >= 3 {
        EncodeHasNoBreaks(data[3..]);
      }
    }
  }

  lemma ChunkHasNoBreaks(chunk: Bytes)
    requires 1 <= |chunk| <= 3
    ensures NoBreaks(EncodeChunk(chunk))
  {
    var t := Triple(chunk[0], if |chunk| > 1 then chunk[1] else 0, if |chunk| > 2 then chunk[2] else 0);
    LetterValue(t / 262144);
    LetterValue(t / 4096 % 64);
    LetterValue(t / 64 % 64);
    LetterValue(t % 64);
  }

  /** Round trip for the wrapped form: dropping the breaks and decoding recovers the data. */
  lemma WrappedRoundTrip(data: Bytes)
    ensures Decode(Unwrap(Wrap(Encode(data)))) == Some(data)
  {
    EncodeHasNoBreaks(data);
    UnwrapWrap(Encode(data));
    DecodeEncode(data);
  }

  /** No line is longer than 76 characters: any 77 consecutive bytes hold a break. */
  lemma {:induction false} LinesAreShort(raw: Bytes, i: nat) returns (j: nat)
    requires i + LINE + 1 <= |Wrap(raw)|
    ensures i <= j <= i + LINE && IsBreak(Wrap(raw)[j])
  {
    if |raw| <= LINE {
      j := |raw|;
    } else if i <= LINE {
      j := LINE;
    } else if i == LINE + 1 {
      j := i;
    } else {
      var k := LinesAreShort(raw[LINE..], i - LINE - 2);
      j := k + LINE + 2;
    }
  }

  /** Breaks come only as CR LF, and everything written ends with one. */
  lemma {:induction false} BreaksArePairs(raw: Bytes, i: nat)
    requires NoBreaks(raw) && i < |Wrap(raw)|
    ensures var w := Wrap(raw);
            && (w[i] == CR ==> i + 1 < |w| && w[i + 1] == LF)
            && (w[i] == LF ==> i > 0 && w[i - 1] == CR)
            && |w| >= 2 && w[|w| - 2] == CR && w[|w| - 1] == LF
  {
    if |raw| > LINE {
      BreaksArePairs(raw[LINE..], if i < LINE + 2 then 0 else i - LINE - 2);
    }
  }

  // ---- the alphabet and the lines, letter by letter ----

  /** The letters are A to Z, a to z, 0 to 9, + and /, in this order, and the padding is =, as section 4 of RFC 4648 has them. */
  lemma AlphabetIs(v: nat)
    requires v < 64
    ensures v < 26 ==> Letter(v) as char == 'A' + v as char
    ensures 26 <= v < 52 ==> Letter(v) as char == 'a' + (v - 26) as char
    ensures 52 <= v < 62 ==> Letter(v) as char == '0' + (v - 52) as char
    ensures v == 62 ==> Letter(v) as char == '+'
    ensures v == 63 ==> Letter(v) as char == '/'
    ensures PAD as char == '='
  {
  }

  /** Every line but the last holds 76 letters, and every letter is in its place: two bytes of line end come after each line. */
  lemma {:induction false} LetterAt(raw: Bytes, k: nat)
    requires k < |raw|
    ensures k + 2 * (k / 76) < |Wrap(raw)| && Wrap(raw)[k + 2 * (k / 76)] == raw[k]
    ensures |Wrap(raw)| == |raw| + 2 * ((|raw| + 75) / 76)
  {
    if |raw| > LINE {
      var rest := raw[LINE..];
      var j := if k < 76 then 0 else k - 76;
      LetterAt(rest, j);
      Wrapped76(k, |raw|);
    }
  }

  lemma Wrapped76(k: nat, n: nat)
    requires k < n
    ensures k >= 76 ==> k / 76 == (k - 76) / 76 + 1
    ensures k < 76 ==> k / 76 == 0
    ensures n > 76 ==> (n + 75) / 76 == (n - 76 + 75) / 76 + 1
  {
  }
}
