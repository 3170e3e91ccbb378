/** Streaming and whole-buffer base64 (eml_pack.rs), against the decoder of section 4 of RFC 4648. */
module Base64 {
  import opened Common

  const CR: byte := 13
  const LF: byte := 10
  const PAD: byte := 61
  const LINE: nat := 76
  const CRLF: Bytes := [CR, LF]

  /** The letter for a 6-bit value. */
  function Letter(v: nat): (c: byte)
    requires v < 64
  {
    if v < 26 then (65 + v) as byte
    else if v < 52 then (97 + v - 26) as byte
    else if v < 62 then (48 + v - 52) as byte
    else if v == 62 then 43
    else 47
  }

  /** The first letters of a 24-bit group. */
  function Letters(triple: nat): (r: Bytes)
    requires triple < 0x100_0000
    ensures |r| == 4
  {
    [Letter(triple / 262144), Letter(triple / 4096 % 64), Letter(triple / 64 % 64), Letter(triple % 64)]
  }

  function Triple(b0: byte, b1: byte, b2: byte): (r: nat)
    ensures r < 0x100_0000
  {
    b0 as int * 65536 + b1 as int * 256 + b2 as int
  }

  /** Four letters for a chunk of at most three bytes, padded. */
  function EncodeChunk(chunk: Bytes): (r: Bytes)
    requires 1 <= |chunk| <= 3
    ensures |r| == 4
  {
    var letters := Letters(Triple(chunk[0], if |chunk| > 1 then chunk[1] else 0, if |chunk| > 2 then chunk[2] else 0));
    [letters[0], letters[1], if |chunk| > 1 then letters[2] else PAD, if |chunk| > 2 then letters[3] else PAD]
  }

  /** The encoding of a whole buffer. */
  function Encode(data: Bytes): Bytes {
    if data == [] then []
    else if |data| < 3 then EncodeChunk(data)
    else EncodeChunk(data[..3]) + Encode(data[3..])
  }

  lemma Associate(x: Bytes, y: Bytes, z: Bytes)
    ensures x + (y + z) == (x + y) + z
  {
  }

  lemma {:induction false} EncodeConcat(a: Bytes, b: Bytes, triples: nat)
    requires |a| == 3 * triples
    ensures Encode(a + b) == Encode(a) + Encode(b)
  {
    if triples == 0 {
      assert a + b == b;
    } else {
      assert (a + b)[..3] == a[..3] && (a + b)[3..] == a[3..] + b;
      EncodeConcat(a[3..], b, triples - 1);
      Associate(EncodeChunk(a[..3]), Encode(a[3..]), Encode(b));
    }
  }

  /** The encoding loop over chunks of three. */
  method Base64Encode(data: Bytes) returns (result: Bytes)
    ensures result == Encode(data)
  {
    result := [];
    var k := 0;
    while 3 * (k + 1) <= |data|
      invariant 0 <= 3 * k <= |data|
      invariant result == Encode(data[..3 * k])
    {
      result := NextChunk(data, k, 3 * (k + 1), result);
      k := k + 1;
    }
    if 3 * k < |data| {
      result := NextChunk(data, k, |data|, result);
    }
    assert 3 * k == |data| ==> data[..3 * k] == data;
    assert data[..|data|] == data;
  }

  method NextChunk(data: Bytes, k: nat, end: nat, result: Bytes) returns (newResult: Bytes)
    requires 3 * k < end <= |data| && end <= 3 * k + 3 && result == Encode(data[..3 * k])
    ensures newResult == Encode(data[..end])
  {
    var start := 3 * k;
    EncodeUpTo(data, start, end, k);
    newResult := result + EncodeChunk(data[start..end]);
  }

  lemma EncodeUpTo(data: Bytes, start: nat, end: nat, triples: nat)
    requires start == 3 * triples && start < end <= |data| && end <= start + 3
    ensures Encode(data[..end]) == Encode(data[..start]) + EncodeChunk(data[start..end])
  {
    EncodeNext(data[..start], data[start..end], triples);
    SlicesJoin(data, start, end);
  }

  lemma SlicesJoin(data: Bytes, start: nat, end: nat)
    requires start <= end <= |data|
    ensures data[..start] + data[start..end] == data[..end]
  {
  }

  lemma EncodeNext(full: Bytes, chunk: Bytes, triples: nat)
    requires |full| == 3 * triples && 1 <= |chunk| <= 3
    ensures Encode(full + chunk) == Encode(full) + EncodeChunk(chunk)
  {
    EncodeConcat(full, chunk, triples);
    EncodeOne(chunk);
  }

  lemma EncodeOne(chunk: Bytes)
    requires 1 <= |chunk| <= 3
    ensures Encode(chunk) == EncodeChunk(chunk)
  {
    assert |chunk| == 3 ==> chunk[..3] == chunk && chunk[3..] == [];
  }

  // ---- line wrapping ----

  /** Lines of 76 letters, each ended by CRLF. */
  function Wrap(raw: Bytes): Bytes {
    if raw == [] then []
    else if |raw| <= LINE then raw + CRLF
    else raw[..LINE] + CRLF + Wrap(raw[LINE..])
  }

  /** The same without the last line's CRLF: what has been written while letters still come. */
  function Open(raw: Bytes): Bytes {
    if |raw| <= LINE then raw else raw[..LINE] + CRLF + Open(raw[LINE..])
  }

  /** How many letters the line being written holds. */
  function Columns(raw: Bytes): nat {
    if |raw| <= LINE then |raw| else Columns(raw[LINE..])
  }

  lemma {:induction false} OpenAppend(raw: Bytes, c: byte)
    ensures Columns(raw) <= LINE && (Columns(raw) == 0 <==> raw == [])
    ensures Open(raw + [c]) == Open(raw) + (if Columns(raw) == LINE then CRLF else []) + [c]
    ensures Columns(raw + [c]) == if Columns(raw) == LINE then 1 else Columns(raw) + 1
  {
    if |raw| < LINE {
    } else if |raw| == LINE {
      assert (raw + [c])[..LINE] == raw && (raw + [c])[LINE..] == [c];
    } else {
      OpenAppend(raw[LINE..], c);
      assert (raw + [c])[..LINE] == raw[..LINE] && (raw + [c])[LINE..] == raw[LINE..] + [c];
    }
  }

  lemma {:induction false} OpenClosed(raw: Bytes)
    requires raw != []
    ensures Wrap(raw) == Open(raw) + CRLF
  {
    if |raw| > LINE {
      OpenClosed(raw[LINE..]);
    }
  }

  method EncodeChunked(data: Bytes) returns (out: Bytes)
    ensures out == Wrap(Encode(data))
  {
    var raw := Base64Encode(data);
    out := [];
    var start := 0;
    ghost var k := 0;
    while start < |raw|
      invariant 0 <= start <= |raw| && (start < |raw| ==> start == LINE * k) && (start > 0 <==> k > 0)
      invariant out == Open(raw[..start])
    {
      var end := if start + LINE <= |raw| then start + LINE else |raw|;
      OpenLine(raw, start, end, k);
      if start > 0 {
        out := out + CRLF;
      }
      out := out + raw[start..end];
      start, k := end, k + 1;
    }
    assert raw[..|raw|] == raw;
    if out != [] {
      out := out + CRLF;
    }
    if raw != [] {
      OpenClosed(raw);
    }
  }

  lemma OpenLine(raw: Bytes, start: nat, end: nat, lines: nat)
    requires start == LINE * lines && start < end <= |raw| && end <= start + LINE
    ensures Open(raw[..end]) == Open(raw[..start]) + (if start == 0 then [] else CRLF) + raw[start..end]
  {
    OpenChunk(raw[..start], raw[start..end], lines);
    SlicesJoin(raw, start, end);
  }

  /** Full lines followed by one more piece of at most a line. */
  lemma {:induction false} OpenChunk(full: Bytes, chunk: Bytes, lines: nat)
    requires |full| == LINE * lines && 0 < |chunk| <= LINE
    ensures Open(full + chunk) == Open(full) + (if full == [] then [] else CRLF) + chunk
  {
    if lines == 0 {
      assert full + chunk == chunk;
    } else {
      assert (full + chunk)[..LINE] == full[..LINE] && (full + chunk)[LINE..] == full[LINE..] + chunk;
      OpenChunk(full[LINE..], chunk, lines - 1);
      if lines == 1 {
        assert full[..LINE] == full && full[LINE..] == [];
      }
    }
  }

  // ---- streaming ----

  /** What one call to the reader gives; no bytes means the end. */
  datatype Read = Data(bytes: Bytes) | Failed

  predicate IsEnd(r: Read) {
    r.Data? && r.bytes == []
  }

  /** All bytes delivered up to the end of the stream. */
  function Delivered(input: seq<Read>): Bytes {
    if input == [] || !input[0].Data? || IsEnd(input[0]) then [] else input[0].bytes + Delivered(input[1..])
  }

  /** Whether the stream reaches its end without a read failing. */
  predicate Succeeds(input: seq<Read>) {
    input == [] || IsEnd(input[0]) || (input[0].Data? && Succeeds(input[1..]))
  }

  method WriteWrapped(out: Bytes, data: Bytes, lineCols: nat, ghost raw: Bytes) returns (newOut: Bytes, newCols: nat)
    requires out == Open(raw) && lineCols == Columns(raw)
    ensures newOut == Open(raw + Encode(data)) && newCols == Columns(raw + Encode(data))
  {
    var encoded := Base64Encode(data);
    newOut, newCols := out, lineCols;
    ghost var written := raw;
    for k := 0 to |encoded|
      invariant written == raw + encoded[..k] && newOut == Open(written) && newCols == Columns(written)
    {
      OpenAppend(written, encoded[k]);
      assert encoded[..k + 1] == encoded[..k] + [encoded[k]];
      Associate(raw, encoded[..k], [encoded[k]]);
      written := written + [encoded[k]];
      if newCols >= LINE {
        newOut := newOut + CRLF;
        newCols := 0;
      }
      newOut := newOut + [encoded[k]];
      newCols := newCols + 1;
    }
    assert encoded[..|encoded|] == encoded;
  }

  function DivMod3(n: nat): (r: (nat, nat))
    ensures n == 3 * r.0 + r.1 && r.1 < 3
  {
    (n / 3, n % 3)
  }

  /** One read: the carried bytes and the new ones are encoded up to the last full triple, the rest is carried. */
  method EncodeRead(carry: array<byte>, carryLen: nat, bytes: Bytes, out: Bytes, lineCols: nat, ghost full: Bytes, ghost triples: nat)
    returns (newLen: nat, newOut: Bytes, newCols: nat, ghost newFull: Bytes, ghost newTriples: nat)
    requires carry.Length == 2 && carryLen <= 2 && |full| == 3 * triples
    requires out == Open(Encode(full)) && lineCols == Columns(Encode(full))
    modifies carry
    ensures newLen <= 2 && |newFull| == 3 * newTriples
    ensures newFull + carry[..newLen] == full + old(carry[..carryLen]) + bytes
    ensures newOut == Open(Encode(newFull)) && newCols == Columns(Encode(newFull))
  {
    var combined := carry[..carryLen] + bytes;
    var (fullTriples, rem) := DivMod3(|combined|);
    var encodeLen := 3 * fullTriples;
    newLen := rem;
    newOut, newCols := WriteWrapped(out, combined[..encodeLen], lineCols, Encode(full));
    EncodeConcat(full, combined[..encodeLen], triples);
    CarrySplit(full, carry[..carryLen], bytes, encodeLen);
    newFull, newTriples := full + combined[..encodeLen], triples + fullTriples;
    forall k | 0 <= k < newLen {
      carry[k] := combined[encodeLen + k];
    }
    assert carry[..newLen] == combined[encodeLen..];
  }

  lemma CarrySplit(full: Bytes, carried: Bytes, bytes: Bytes, n: nat)
    requires n <= |carried + bytes|
    ensures var combined := carried + bytes; full + combined[..n] + combined[n..] == full + carried + bytes
  {
    var combined := carried + bytes;
    assert combined[..n] + combined[n..] == combined;
    Associate(full, combined[..n], combined[n..]);
    Associate(full, carried, bytes);
  }

  /** Reads until the end, keeping at most two bytes over between reads. */
  method StreamBase64(input: seq<Read>) returns (ok: bool, out: Bytes)
    requires forall k | 0 <= k < |input| && input[k].Data? :: |input[k].bytes| <= 3072
    ensures ok == Succeeds(input)
    ensures ok ==> out == Wrap(Encode(Delivered(input)))
  {
    var carry := new byte[2](_ => 0);
    var carryLen: nat, lineCols: nat := 0, 0;
    out := [];
    ghost var full: Bytes, triples: nat := [], 0;
    var i := 0;
    while i < |input|
      invariant 0 <= i <= |input| && carryLen <= 2 == carry.Length && |full| == 3 * triples
      invariant Delivered(input) == full + carry[..carryLen] + Delivered(input[i..]) && Succeeds(input) == Succeeds(input[i..])
      invariant out == Open(Encode(full)) && lineCols == Columns(Encode(full))
    {
      assert input[i..][1..] == input[i + 1..];
      if input[i].Failed? {
        return false, out;
      }
      if IsEnd(input[i]) {
        break;
      }
      ghost var before := full + carry[..carryLen];
      carryLen, out, lineCols, full, triples := EncodeRead(carry, carryLen, input[i].bytes, out, lineCols, full, triples);
      Associate(before, input[i].bytes, Delivered(input[i + 1..]));
      i := i + 1;
    }
    assert Delivered(input) == full + carry[..carryLen];
    out, lineCols := WriteTail(out, carry[..carryLen], lineCols, full, triples);
    ColumnsZero(Encode(Delivered(input)));
    if lineCols > 0 {
      OpenClosed(Encode(Delivered(input)));
      out := out + CRLF;
    }
    ok := true;
  }

  /** The bytes still carried at the end. */
  method WriteTail(out: Bytes, tail: Bytes, lineCols: nat, ghost full: Bytes, ghost triples: nat) returns (newOut: Bytes, newCols: nat)
    requires |full| == 3 * triples && out == Open(Encode(full)) && lineCols == Columns(Encode(full))
    ensures newOut == Open(Encode(full + tail)) && newCols == Columns(Encode(full + tail))
  {
    newOut, newCols := out, lineCols;
    EncodeConcat(full, tail, triples);
    if |tail| > 0 {
      newOut, newCols := WriteWrapped(out, tail, lineCols, Encode(full));
    } else {
      assert full + tail == full;
    }
  }

  lemma ColumnsZero(raw: Bytes)
    ensures Columns(raw) == 0 <==> raw == []
  {
    OpenAppend(raw, 0);
  }
}
