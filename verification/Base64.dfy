/**
  Base64 (src/basilisp/data_codec_base64.py:9-148) against section 4 of
  RFC 4648. Bits are arithmetic on bytes: an `or` of fields that do not overlap
  is their sum, a shift is a product or a quotient by a power of two.
*/
module Base64 {
  import opened Prelude

  type Byte = n: int | 0 <= n < 256

  const PAD: Byte := 61

  datatype Error = IndexError | ValueError

  // ------------------------------------------------------------------
  // Section 4 of RFC 4648

  /** The alphabet: A-Z, a-z, 0-9, + and /. */
  function Letter(v: int): Byte
    requires 0 <= v < 64
  {
    if v < 26 then 65 + v
    else if v < 52 then 97 + (v - 26)
    else if v < 62 then 48 + (v - 52)
    else if v == 62 then 43 else 47
  }

  /** 24 bits, as four letters. */
  function Quad(a: Byte, b: Byte, c: Byte): seq<Byte> {
    [Letter(a / 4), Letter(a % 4 * 16 + b / 16), Letter(b % 16 * 4 + c / 64), Letter(c % 64)]
  }

  /** The encoding: a final group of one or two bytes is filled with zero bits and padded. */
  function Encode(b: seq<Byte>): seq<Byte> {
    if b == [] then []
    else if |b| == 1 then Quad(b[0], 0, 0)[..2] + [PAD, PAD]
    else if |b| == 2 then Quad(b[0], b[1], 0)[..3] + [PAD]
    else Quad(b[0], b[1], b[2]) + Encode(b[3..])
  }

  // ------------------------------------------------------------------
  // The decoder

  /** `_quot`. */
  function Quot(n: int, d: int): int
    requires d > 0
  {
    if n < 0 then -((-n) / d) else n / d
  }

  function EncLength(length: int): int { Quot(length + 2, 3) * 4 }

  function DecLength(length: int, padding: int): int { Quot(length, 4) * 3 - padding }

  function PadLength(data: seq<Byte>): Result<nat, Error> {
    if data == [] || data[|data| - 1] != PAD then Ok(0)
    else if |data| == 1 then Err(IndexError)
    else Ok(if data[|data| - 2] == PAD then 2 else 1)
  }

  /** The decode table: bytes up to `z` that are not letters decode to zero, greater bytes raise. */
  function DecodeValue(b: Byte): Result<int, Error>
    ensures DecodeValue(b).Ok? ==> 0 <= DecodeValue(b).value < 64
  {
    if b > 122 then Err(ValueError)
    else if 65 <= b <= 90 then Ok(b - 65)
    else if 97 <= b then Ok(b - 97 + 26)
    else if 48 <= b <= 57 then Ok(b - 48 + 52)
    else if b == 43 then Ok(62)
    else if b == 47 then Ok(63)
    else Ok(0)
  }

  predicate InTable(data: seq<Byte>, n: nat)
    requires n <= |data|
  {
    forall i :: 0 <= i < n ==> DecodeValue(data[i]).Ok?
  }

  function Value(b: Byte): (v: int)
    ensures 0 <= v < 64
  {
    if DecodeValue(b).Ok? then DecodeValue(b).value else 0
  }

  /** The 24 bits of four input bytes. */
  function Bits(a: Byte, b: Byte, c: Byte, d: Byte): (bits: int)
    ensures 0 <= bits < 0x1000000
  {
    Value(a) * 0x40000 + Value(b) * 0x1000 + Value(c) * 0x40 + Value(d)
  }

  function Triple(bits: int): seq<Byte>
    requires 0 <= bits < 0x1000000
  {
    [bits / 0x10000 % 0x100, bits / 0x100 % 0x100, bits % 0x100]
  }

  /** The bytes of the first `n` groups of four. */
  function Groups(data: seq<Byte>, n: nat): (r: seq<Byte>)
    requires 4 * n <= |data|
    ensures |r| == 3 * n
  {
    if n == 0 then []
    else
      var i := 4 * (n - 1);
      Groups(data, n - 1) + Triple(Bits(data[i], data[i + 1], data[i + 2], data[i + 3]))
  }

  /** What `_decode_bytes` returns or raises. */
  function Decode(data: seq<Byte>): Result<seq<Byte>, Error> {
    match PadLength(data)
    case Err(e) => Err(e)
    case Ok(padding) =>
      var n := DecLength(|data|, padding);
      if n < 0 then Err(ValueError)
      else if !InTable(data, |data| / 4 * 4) then Err(ValueError)
      else Ok(Groups(data, |data| / 4)[..n])
  }

  /** Writes one group's bytes, as many as the output has room for. */
  method PutGroup(output: array<Byte>, start: nat, bits: int) returns (next: nat)
    requires start < output.Length && 0 <= bits < 0x1000000
    modifies output
    ensures next == if start + 3 <= output.Length then start + 3 else output.Length
    ensures output[..next] == old(output[..start]) + Triple(bits)[..next - start]
  {
    next := start;
    output[next] := bits / 0x10000 % 0x100;
    next := next + 1;
    if next < output.Length {
      output[next] := bits / 0x100 % 0x100;
      next := next + 1;
    }
    if next < output.Length {
      output[next] := bits % 0x100;
      next := next + 1;
    }
    assert output[..start] == old(output[..start]);
    assert output[start..next] == Triple(bits)[..next - start];
    assert output[..next] == output[..start] + output[start..next];
  }

  lemma GroupsNext(data: seq<Byte>, n: nat, k: nat)
    requires 4 * n + 4 <= |data| && k <= 3
    ensures var i := 4 * n;
      Groups(data, n + 1)[..3 * n + k]
        == Groups(data, n) + Triple(Bits(data[i], data[i + 1], data[i + 2], data[i + 3]))[..k]
  {
    hide Triple, Bits;
  }

  /** The four table lookups of one group, as 24 bits. */
  method TakeGroup(data: seq<Byte>, i: nat) returns (bits: Result<int, Error>)
    requires i + 4 <= |data| && InTable(data, i)
    ensures bits.Err? ==> bits.error == ValueError && !InTable(data, i + 4)
    ensures bits.Ok? ==> InTable(data, i + 4) && bits.value == Bits(data[i], data[i + 1], data[i + 2], data[i + 3])
  {
    var a, b, c, d :=
      DecodeValue(data[i]), DecodeValue(data[i + 1]), DecodeValue(data[i + 2]), DecodeValue(data[i + 3]);
    if a.Err? || b.Err? || c.Err? || d.Err? {
      return Err(ValueError);
    }
    bits := Ok(a.value * 0x40000 + b.value * 0x1000 + c.value * 0x40 + d.value);
  }

  lemma NothingYet(data: seq<Byte>)
    ensures Groups(data, 0) == [] && InTable(data, 0)
  {
  }

  lemma NotInTable(data: seq<Byte>, m: nat, n: nat)
    requires m <= n <= |data| && !InTable(data, m)
    ensures !InTable(data, n)
  {
  }

  /** The loop of `_decode_bytes`, over `q` groups. */
  method FillOutput(data: seq<Byte>, output: array<Byte>, ghost q: nat) returns (failed: bool)
    requires 4 * q <= |data| && output.Length <= 3 * q && (q > 0 ==> output.Length > 3 * (q - 1))
    modifies output
    ensures failed <==> !InTable(data, 4 * q)
    ensures !failed ==> output[..] == Groups(data, q)[..output.Length]
  {
    var inputIndex, outputIndex := 0, 0;
    ghost var n := 0;
    NothingYet(data);
    hide Triple, Bits, InTable, Groups;
    while outputIndex < output.Length
      invariant 0 <= n <= q && inputIndex == 4 * n && InTable(data, inputIndex)
      invariant outputIndex == if 3 * n <= output.Length then 3 * n else output.Length
      invariant outputIndex < output.Length ==> output[..outputIndex] == Groups(data, n)
      invariant output[..outputIndex] == Groups(data, n)[..outputIndex]
      decreases output.Length - outputIndex
    {
      var bits := TakeGroup(data, inputIndex);
      if bits.Err? {
        NotInTable(data, inputIndex + 4, 4 * q);
        return true;
      }
      inputIndex := inputIndex + 4;
      ghost var start := outputIndex;
      outputIndex := PutGroup(output, outputIndex, bits.value);
      GroupsNext(data, n, outputIndex - start);
      n := n + 1;
    }
    failed := false;
    assert output[..outputIndex] == output[..];
  }

  /** `_decode_bytes`. */
  method DecodeBytes(data: seq<Byte>) returns (r: Result<seq<Byte>, Error>)
    ensures r == Decode(data)
  {
    var padding := PadLength(data);
    if padding.Err? {
      return Err(padding.error);
    }
    var decodedLength := DecLength(|data|, padding.value);
    if decodedLength < 0 {
      return Err(ValueError);
    }
    var output := new Byte[decodedLength];
    ghost var q := |data| / 4;
    assert decodedLength == 3 * q - padding.value && 4 * q == |data| / 4 * 4;
    hide Groups, InTable;
    var failed := FillOutput(data, output, q);
    r := if failed then Err(ValueError) else Ok(output[..]);
  }

  // ------------------------------------------------------------------
  // Decoding undoes encoding

  lemma LetterValue(v: int)
    requires 0 <= v < 64
    ensures DecodeValue(Letter(v)) == Ok(v) && Letter(v) != PAD
  {
  }

  lemma Bytes(a: Byte, b: Byte, c: Byte)
    ensures var bits := a * 0x10000 + b * 0x100 + c;
      0 <= bits < 0x1000000 && Triple(bits) == [a, b, c]
  {
    var bits := a * 0x10000 + b * 0x100 + c;
    assert bits / 0x10000 == a && bits / 0x100 == a * 0x100 + b;
  }

  /** Four letters carry their three bytes. */
  lemma QuadBits(a: Byte, b: Byte, c: Byte)
    ensures var q := Quad(a, b, c);
      && Triple(Bits(q[0], q[1], q[2], q[3])) == [a, b, c] && InTable(q, 4)
      && forall i :: 0 <= i < 4 ==> q[i] != PAD
  {
    var (w, x, y, z) := (a / 4, a % 4 * 16 + b / 16, b % 16 * 4 + c / 64, c % 64);
    LetterValue(w);
    LetterValue(x);
    LetterValue(y);
    LetterValue(z);
    Bytes(a, b, c);
    hide DecodeValue, Letter, Triple;
    var q := Quad(a, b, c);
    assert Bits(q[0], q[1], q[2], q[3]) == w * 0x40000 + x * 0x1000 + y * 0x40 + z;
  }

  /** A pad reads as the letter for zero. */
  lemma PadBits(a: Byte, b: Byte)
    ensures Bits(Quad(a, b, 0)[0], Quad(a, b, 0)[1], Quad(a, b, 0)[2], PAD)
         == Bits(Quad(a, b, 0)[0], Quad(a, b, 0)[1], Quad(a, b, 0)[2], Quad(a, b, 0)[3])
    ensures Bits(Quad(a, 0, 0)[0], Quad(a, 0, 0)[1], PAD, PAD)
         == Bits(Quad(a, 0, 0)[0], Quad(a, 0, 0)[1], Quad(a, 0, 0)[2], Quad(a, 0, 0)[3])
  {
    PadValue();
    LetterValue(0);
    hide DecodeValue;
    assert Quad(a, b, 0)[3] == Letter(0) && Quad(a, 0, 0)[2] == Letter(0);
    hide Letter;
  }

  lemma PadValue()
    ensures DecodeValue(PAD) == Ok(0)
  {
  }

  /** The bytes of group `k`. */
  ghost function GroupAt(data: seq<Byte>, k: nat): seq<Byte>
    requires 4 * k + 4 <= |data|
  {
    Triple(Bits(data[4 * k], data[4 * k + 1], data[4 * k + 2], data[4 * k + 3]))
  }

  lemma LastGroup(data: seq<Byte>, n: nat)
    requires 4 * n + 4 <= |data|
    ensures Groups(data, n + 1) == Groups(data, n) + GroupAt(data, n)
  {
    hide Triple, Bits;
  }

  lemma GroupMoved(x: seq<Byte>, m: nat, y: seq<Byte>, n: nat)
    requires |x| == 4 * m && 4 * n + 4 <= |y|
    ensures GroupAt(x + y, m + n) == GroupAt(y, n)
  {
    hide Triple, Bits;
  }

  lemma {:induction false} GroupsAppend(x: seq<Byte>, m: nat, y: seq<Byte>, n: nat)
    requires |x| == 4 * m && 4 * n <= |y|
    ensures Groups(x + y, m + n) == Groups(x, m) + Groups(y, n)
    decreases n
  {
    hide Groups, GroupAt;
    if n == 0 {
      GroupsPrefix(x, y, m);
      NothingYet(y);
    } else {
      GroupsAppend(x, m, y, n - 1);
      LastGroup(x + y, m + n - 1);
      LastGroup(y, n - 1);
      GroupMoved(x, m, y, n - 1);
      Regroup(Groups(x, m), Groups(y, n - 1), GroupAt(y, n - 1));
    }
  }

  lemma Regroup(a: seq<Byte>, b: seq<Byte>, c: seq<Byte>)
    ensures a + b + c == a + (b + c)
  {
  }

  lemma {:induction false} GroupsPrefix(x: seq<Byte>, y: seq<Byte>, m: nat)
    requires 4 * m <= |x|
    ensures Groups(x + y, m) == Groups(x, m)
  {
    hide Triple, Bits;
    if m > 0 {
      GroupsPrefix(x, y, m - 1);
    }
  }

  function Zeros(n: nat): seq<Byte> { seq(n, i => 0) }

  /** The padding of a final group. */
  function Padding(length: nat): nat { if length % 3 == 0 then 0 else 3 - length % 3 }

  /** A single group: two letters and two pads, three and one, or four. */
  ghost predicate GroupOf(b: seq<Byte>, e: seq<Byte>) {
    |e| == 4 && InTable(e, 4) && PadLength(e) == Ok(Padding(|b|)) && Groups(e, 1) == b + Zeros(Padding(|b|))
  }

  lemma GroupOfOne(x: Byte)
    ensures GroupOf([x], Encode([x]))
  {
    QuadBits(x, 0, 0);
    PadBits(x, 0);
    PadValue();
    var (q, e) := (Quad(x, 0, 0), Encode([x]));
    assert e == [q[0], q[1], PAD, PAD];
    hide Bits, Quad, DecodeValue, Triple, Encode, Groups;
    assert [x] + Zeros(2) == [x, 0, 0];
  }

  lemma GroupOfTwo(x: Byte, y: Byte)
    ensures GroupOf([x, y], Encode([x, y]))
  {
    QuadBits(x, y, 0);
    PadBits(x, y);
    PadValue();
    var (q, e) := (Quad(x, y, 0), Encode([x, y]));
    assert e == [q[0], q[1], q[2], PAD];
    hide Bits, Quad, DecodeValue, Triple, Encode, Groups;
    assert [x, y] + Zeros(1) == [x, y, 0];
  }

  lemma GroupOfThree(x: Byte, y: Byte, z: Byte)
    ensures GroupOf([x, y, z], Encode([x, y, z]))
  {
    QuadBits(x, y, z);
    var (q, e) := (Quad(x, y, z), Encode([x, y, z]));
    assert [x, y, z][3..] == [] && Encode([]) == [];
    assert e == q + [] == q;
    hide Bits, Quad, DecodeValue, Triple, Encode, Groups;
    assert [x, y, z] + Zeros(0) == [x, y, z];
  }

  lemma OneGroup(b: seq<Byte>)
    requires 1 <= |b| <= 3
    ensures GroupOf(b, Encode(b))
  {
    hide GroupOf, Encode;
    if |b| == 1 {
      assert b == [b[0]];
      GroupOfOne(b[0]);
    } else if |b| == 2 {
      assert b == [b[0], b[1]];
      GroupOfTwo(b[0], b[1]);
    } else {
      assert b == [b[0], b[1], b[2]];
      GroupOfThree(b[0], b[1], b[2]);
    }
  }

  /** The final group decides the padding. */
  lemma PadLengthOfTail(head: seq<Byte>, tail: seq<Byte>)
    requires |tail| >= 4 && PadLength(tail).Ok?
    ensures PadLength(head + tail) == PadLength(tail)
  {
  }

  lemma InTableAppend(head: seq<Byte>, tail: seq<Byte>)
    requires InTable(head, |head|) && InTable(tail, |tail|)
    ensures InTable(head + tail, |head + tail|)
  {
    hide DecodeValue;
  }

  /** `e` is as long as an encoding of `b`, decodes to `b`, and ends in the right padding. */
  ghost predicate Encodes(e: seq<Byte>, b: seq<Byte>) {
    && |e| == 4 * ((|b| + 2) / 3) && InTable(e, |e|) && PadLength(e) == Ok(Padding(|b|))
    && Groups(e, (|b| + 2) / 3) == b + Zeros(Padding(|b|))
  }

  /** A whole group before an encoding. */
  lemma OneMoreGroup(head: seq<Byte>, e0: seq<Byte>, tail: seq<Byte>, e: seq<Byte>)
    requires |head| == 3 && tail != [] && GroupOf(head, e0) && Encodes(e, tail)
    ensures Encodes(e0 + e, head + tail)
  {
    hide DecodeValue, Groups, InTable, PadLength;
    GroupsAppend(e0, 1, e, (|tail| + 2) / 3);
    PadLengthOfTail(e0, e);
    InTableAppend(e0, e);
    assert head + Zeros(0) == head;
    Regroup(head, tail, Zeros(Padding(|tail|)));
  }

  lemma {:induction false} EncodeFacts(b: seq<Byte>)
    ensures Encodes(Encode(b), b)
  {
    hide Triple, Bits, DecodeValue, Quad, Groups, InTable, PadLength;
    if b == [] {
      NothingYet([]);
      PadLengthOfNone();
    } else if |b| <= 3 {
      OneGroup(b);
    } else {
      EncodeFacts(b[3..]);
      MoreFacts(b);
    }
  }

  lemma MoreFacts(b: seq<Byte>)
    requires |b| > 3 && Encodes(Encode(b[3..]), b[3..])
    ensures Encodes(Encode(b), b)
  {
    hide Encode, Encodes, GroupOf;
    OneGroup(b[..3]);
    EncodeAppend(b[..3], b[3..]);
    OneMoreGroup(b[..3], Encode(b[..3]), b[3..], Encode(b[3..]));
    assert b == b[..3] + b[3..];
  }

  lemma PadLengthOfNone()
    ensures PadLength([]) == Ok(0)
  {
  }

  /** Decoding an encoding gives the bytes back, and the length functions are exact. */
  lemma RoundTrip(b: seq<Byte>)
    ensures Decode(Encode(b)) == Ok(b)
    ensures |Encode(b)| == EncLength(|b|)
    ensures PadLength(Encode(b)).Ok? && |b| == DecLength(|Encode(b)|, PadLength(Encode(b)).value)
  {
    var (e, n, p) := (Encode(b), (|b| + 2) / 3, Padding(|b|));
    EncodeFacts(b);
    LengthsExact(|b|);
    hide Encode, Groups, InTable, PadLength, Decode, DecLength;
    DecodeGroups(e, n, p);
    assert (b + Zeros(p))[..|b|] == b;
  }

  lemma LengthsExact(length: nat)
    ensures var groups := (length + 2) / 3;
      && EncLength(length) == 4 * groups && 3 * groups - Padding(length) == length
      && DecLength(4 * groups, Padding(length)) == length
  {
  }

  /** Whole groups of letters decode to their bytes, less the padding. */
  lemma DecodeGroups(e: seq<Byte>, n: nat, p: nat)
    requires |e| == 4 * n && InTable(e, |e|) && PadLength(e) == Ok(p) && p <= 3 * n
    ensures Decode(e) == Ok(Groups(e, n)[..3 * n - p])
  {
    hide Groups, InTable, PadLength;
    assert |e| / 4 == n && DecLength(|e|, p) == 3 * n - p;
  }

  // ------------------------------------------------------------------
  // Transfers between streams

  /** A stream whose reads may return fewer bytes than asked for, but none only at the end. */
  class Input {
    const data: seq<Byte>
    var pos: nat

    /** What has not been read. */
    ghost function Rest(): seq<Byte>
      reads this
    {
      if pos <= |data| then data[pos..] else []
    }

    constructor (data: seq<Byte>)
      ensures Rest() == data
    {
      this.data, pos := data, 0;
    }

    method Read(n: nat) returns (chunk: seq<Byte>)
      modifies this
      ensures old(Rest()) == chunk + Rest() && |chunk| <= n
      ensures n > 0 && old(Rest()) != [] ==> chunk != []
    {
      if pos >= |data| {
        return [];
      }
      var most := if n <= |data| - pos then n else |data| - pos;
      var k: nat :| k <= most && (most > 0 ==> k > 0);
      chunk := data[pos..pos + k];
      pos := pos + k;
    }
  }

  class Output {
    var written: seq<Byte>

    constructor ()
      ensures written == []
    {
      written := [];
    }

    method Write(bytes: seq<Byte>)
      modifies this
      ensures written == old(written) + bytes
    {
      written := written + bytes;
    }
  }

  function First(data: seq<Byte>, n: nat): seq<Byte> { if n <= |data| then data[..n] else data }

  /** `_read_fully`: as many bytes as asked for, or all that are left, whatever the reads return. */
  method ReadFully(stream: Input, size: nat) returns (bytes: seq<Byte>)
    modifies stream
    ensures bytes == First(old(stream.Rest()), size) && stream.Rest() == old(stream.Rest())[|bytes|..]
  {
    hide Input.Rest;
    bytes := [];
    var remaining: nat := size;
    assert [] + stream.Rest() == stream.Rest();
    while remaining != 0
      invariant old(stream.Rest()) == bytes + stream.Rest() && |bytes| + remaining == size
    {
      var chunk := stream.Read(remaining);
      if chunk == [] {
        break;
      }
      assert bytes + (chunk + stream.Rest()) == bytes + chunk + stream.Rest();
      bytes := bytes + chunk;
      remaining := remaining - |chunk|;
    }
  }

  /** `_buffer_size`. */
  function BufferSize(size: int, multiple: int): Result<nat, Error>
    requires multiple > 0
  {
    if size < 0 || size % multiple != 0 then Err(ValueError) else Ok(size)
  }

  /** Encoding is by groups of three bytes. */
  lemma {:induction false} EncodeAppend(a: seq<Byte>, b: seq<Byte>)
    requires |a| % 3 == 0
    ensures Encode(a + b) == Encode(a) + Encode(b)
  {
    hide Quad;
    if a == [] {
      assert a + b == b;
    } else {
      var c := a + b;
      assert c[3..] == a[3..] + b;
      EncodeAppend(a[3..], b);
      if |c| == 3 {
        assert c == a && b == [];
      }
    }
  }

  /** What encoding chunk by chunk writes. */
  function EncodeChunks(data: seq<Byte>, size: nat): seq<Byte>
    decreases |data|
  {
    if data == [] || size == 0 then []
    else Encode(First(data, size)) + EncodeChunks(data[|First(data, size)|..], size)
  }

  /** Chunks of whole groups encode as the whole. */
  lemma {:induction false} ChunksEncode(data: seq<Byte>, size: nat)
    requires size > 0 && size % 3 == 0
    ensures EncodeChunks(data, size) == Encode(data)
    decreases |data|
  {
    if data != [] {
      var chunk := First(data, size);
      ChunksEncode(data[|chunk|..], size);
      if |chunk| == size {
        assert data == chunk + data[|chunk|..];
        EncodeAppend(chunk, data[|chunk|..]);
      } else {
        assert data[|chunk|..] == [];
      }
    }
  }

  lemma EncodeStep(written: seq<Byte>, left: seq<Byte>, size: nat)
    requires left != [] && size > 0
    ensures var chunk := First(left, size);
      written + EncodeChunks(left, size) == written + Encode(chunk) + EncodeChunks(left[|chunk|..], size)
  {
    hide Encode;
    var chunk := First(left, size);
    var (a, b) := (Encode(chunk), EncodeChunks(left[|chunk|..], size));
    assert EncodeChunks(left, size) == a + b;
    hide EncodeChunks, First;
    Regroup(written, a, b);
  }

  /** `encoding_transfer`: for every buffer size and every pattern of short reads, the encoding of the whole input. */
  method EncodingTransfer(input: Input, output: Output, bufferSize: int) returns (r: Result<(), Error>)
    modifies input, output
    ensures r.Err? <==> bufferSize < 0 || bufferSize % 3 != 0
    ensures r.Err? || bufferSize == 0 ==> output.written == old(output.written)
    ensures r.Ok? && bufferSize > 0 ==>
      output.written == old(output.written) + Encode(old(input.Rest())) && input.Rest() == []
  {
    var size := BufferSize(bufferSize, 3);
    if size.Err? {
      return Err(size.error);
    }
    ghost var left, all := input.Rest(), EncodeChunks(input.Rest(), size.value);
    if bufferSize > 0 {
      ChunksEncode(left, size.value);
    }
    hide Encode, EncodeChunks, Input.Rest;
    var data := ReadFully(input, size.value);
    while data != []
      invariant data == First(left, size.value) && input.Rest() == left[|data|..]
      invariant old(output.written) + all == output.written + EncodeChunks(left, size.value)
      invariant left == [] || size.value > 0 || output.written == old(output.written)
      decreases |left|
    {
      EncodeStep(output.written, left, size.value);
      output.Write(Encode(data));
      left := left[|data|..];
      data := ReadFully(input, size.value);
    }
    assert output.written + [] == output.written;
    r := Ok(());
  }

  /** What decoding chunk by chunk writes, and the error that ends it, if any. */
  function DecodeChunks(data: seq<Byte>, size: nat): (seq<Byte>, Option<Error>)
    decreases |data|
  {
    if data == [] || size == 0 then ([], None)
    else
      match Decode(First(data, size))
      case Err(e) => ([], Some(e))
      case Ok(bytes) =>
        var rest := DecodeChunks(data[|First(data, size)|..], size);
        (bytes + rest.0, rest.1)
  }

  /** `decoding_transfer`. */
  method DecodingTransfer(input: Input, output: Output, bufferSize: int) returns (r: Result<(), Error>)
    modifies input, output
    ensures bufferSize < 0 || bufferSize % 4 != 0 ==> r.Err? && output.written == old(output.written)
    ensures bufferSize >= 0 && bufferSize % 4 == 0 ==>
      var (bytes, error) := DecodeChunks(old(input.Rest()), bufferSize);
      output.written == old(output.written) + bytes && r == match error { case None => Ok(()) case Some(e) => Err(e) }
  {
    var size := BufferSize(bufferSize, 4);
    if size.Err? {
      return Err(size.error);
    }
    ghost var left, all := input.Rest(), DecodeChunks(input.Rest(), size.value);
    hide Decode;
    var data := ReadFully(input, size.value);
    while data != []
      invariant data == First(left, size.value) && input.Rest() == left[|data|..]
      invariant old(output.written) + all.0 == output.written + DecodeChunks(left, size.value).0
      invariant all.1 == DecodeChunks(left, size.value).1
      decreases |left|
    {
      var bytes := DecodeBytes(data);
      ChunkStep(output.written, left, size.value);
      if bytes.Err? {
        assert output.written + [] == output.written;
        return Err(bytes.error);
      }
      output.Write(bytes.value);
      left := left[|data|..];
      data := ReadFully(input, size.value);
    }
    assert output.written + [] == output.written;
    r := Ok(());
  }

  /** One chunk of a decoding, after what is written already. */
  lemma ChunkStep(written: seq<Byte>, left: seq<Byte>, size: nat)
    requires left != [] && size > 0
    ensures var (d, all) := (Decode(First(left, size)), DecodeChunks(left, size));
      && (d.Err? ==> all == ([], Some(d.error)))
      && (d.Ok? ==>
        && var rest := DecodeChunks(left[|First(left, size)|..], size);
        && written + all.0 == written + d.value + rest.0 && all.1 == rest.1)
  {
    hide Decode;
    var d := Decode(First(left, size));
    if d.Ok? {
      var rest := DecodeChunks(left[|First(left, size)|..], size);
      assert written + (d.value + rest.0) == written + d.value + rest.0;
    }
  }

  /** A full chunk of an encoding is the encoding of a part. */
  lemma FirstChunk(b: seq<Byte>, size: nat) returns (head: seq<Byte>, tail: seq<Byte>)
    requires size > 0 && size % 4 == 0 && |Encode(b)| > size
    ensures b == head + tail && head != [] && First(Encode(b), size) == Encode(head)
    ensures |Encode(head)| == size && Encode(b)[size..] == Encode(tail)
  {
    EncodeSize(b);
    var k := ChunkSizes(|b|, size);
    head, tail := b[..k], b[k..];
    EncodeSize(head);
    EncodeAppend(head, tail);
    assert b == head + tail;
    hide Encode, First;
  }

  lemma ChunkSizes(length: nat, size: nat) returns (k: nat)
    requires size > 0 && size % 4 == 0 && 4 * ((length + 2) / 3) > size
    ensures 0 < k <= length && k % 3 == 0 && 4 * ((k + 2) / 3) == size
  {
    k := 3 * (size / 4);
  }

  lemma EncodeSize(b: seq<Byte>)
    ensures |Encode(b)| == 4 * ((|b| + 2) / 3)
  {
    EncodeFacts(b);
  }

  /** Chunked decoding inverts encoding, for every chunk size the transfer accepts. */
  lemma {:induction false} ChunksInvert(b: seq<Byte>, size: nat)
    requires size > 0 && size % 4 == 0
    ensures DecodeChunks(Encode(b), size) == (b, None)
    decreases |b|
  {
    var e := Encode(b);
    EncodeFacts(b);
    hide Groups, InTable, PadLength, Quad, Decode;
    if b == [] {
    } else if |e| <= size {
      RoundTrip(b);
      assert First(e, size) == e && e[|e|..] == [] && e != [];
      assert DecodeChunks(e[|e|..], size) == ([], None);
      assert b + [] == b;
    } else {
      var head, tail := FirstChunk(b, size);
      RoundTrip(head);
      ChunksInvert(tail, size);
      hide Encode;
    }
  }

  // ------------------------------------------------------------------
  // The standard's alphabet, bit order and test vectors, and what the decoder refuses

  const UPPER := "ABCDEFGHIJKLMNOPQRSTUVWXYZ"
  const LOWER := "abcdefghijklmnopqrstuvwxyz"
  const DIGITS := "0123456789"
  const ALPHABET := UPPER + LOWER + DIGITS + "+/"

  lemma UpperTable(v: int)
    requires 0 <= v < 26
    ensures |UPPER| == 26 && Letter(v) == UPPER[v] as int
  {
  }

  lemma LowerTable(v: int)
    requires 26 <= v < 52
    ensures |LOWER| == 26 && Letter(v) == LOWER[v - 26] as int
  {
  }

  lemma DigitTable(v: int)
    requires 52 <= v < 62
    ensures |DIGITS| == 10 && Letter(v) == DIGITS[v - 52] as int
  {
  }

  lemma AlphabetParts()
    ensures |UPPER| == 26 && |LOWER| == 26 && |DIGITS| == 10 && |ALPHABET| == 64
  {
  }

  /** The encoder and the decoder use the alphabet of table 1 of RFC 4648. */
  lemma AlphabetTable(v: int)
    requires 0 <= v < 64
    ensures |ALPHABET| == 64 && Letter(v) == ALPHABET[v] as int && DecodeValue(ALPHABET[v] as int) == Ok(v)
  {
    AlphabetParts();
    LetterValue(v);
    if v < 26 {
      UpperTable(v);
    } else if v < 52 {
      LowerTable(v);
    } else if v < 62 {
      DigitTable(v);
    }
  }

  /** Four letters write three bytes as a number in base 64, the highest digit first. */
  lemma QuadIsNumber(a: Byte, b: Byte, c: Byte) returns (w: int, x: int, y: int, z: int)
    ensures 0 <= w < 64 && 0 <= x < 64 && 0 <= y < 64 && 0 <= z < 64 && |ALPHABET| == 64
    ensures Encode([a, b, c])
         == [ALPHABET[w] as int, ALPHABET[x] as int, ALPHABET[y] as int, ALPHABET[z] as int]
    ensures ((w * 64 + x) * 64 + y) * 64 + z == (a * 256 + b) * 256 + c
  {
    hide Letter, DecodeValue;
    w, x, y, z := a / 4, a % 4 * 16 + b / 16, b % 16 * 4 + c / 64, c % 64;
    Sextets(a, b, c);
    AlphabetTable(w);
    AlphabetTable(x);
    AlphabetTable(y);
    AlphabetTable(z);
    WholeGroup(a, b, c);
  }

  lemma WholeGroup(a: Byte, b: Byte, c: Byte)
    ensures Encode([a, b, c])
         == [Letter(a / 4), Letter(a % 4 * 16 + b / 16), Letter(b % 16 * 4 + c / 64), Letter(c % 64)]
  {
    hide Letter;
    assert [a, b, c][3..] == [];
  }

  lemma Sextets(a: Byte, b: Byte, c: Byte)
    ensures var (w, x, y, z) := (a / 4, a % 4 * 16 + b / 16, b % 16 * 4 + c / 64, c % 64);
      ((w * 64 + x) * 64 + y) * 64 + z == (a * 256 + b) * 256 + c
  {
  }

  /** The shorter final groups are the same letters of the bytes followed by zeros, with pads instead of the rest. */
  lemma FinalGroup(a: Byte, b: Byte)
    ensures Encode([a]) == Encode([a, 0, 0])[..2] + [PAD, PAD]
    ensures Encode([a, b]) == Encode([a, b, 0])[..3] + [PAD]
  {
    hide Letter;
    assert [a, 0, 0][3..] == [] && [a, b, 0][3..] == [];
  }

  function Text(s: string): seq<int> { seq(|s|, i requires 0 <= i < |s| => s[i] as int) }

  /** Section 10 of RFC 4648. */
  lemma TestVectors()
    ensures Encode([]) == Text("") && Encode(Text("f")) == Text("Zg==") && Encode(Text("fo")) == Text("Zm8=")
    ensures Encode(Text("foo")) == Text("Zm9v") && Encode(Text("foob")) == Text("Zm9vYg==")
    ensures Encode(Text("fooba")) == Text("Zm9vYmE=") && Encode(Text("foobar")) == Text("Zm9vYmFy")
  {
    OneGroupVectors();
    hide Encode;
    EncodeAppend(Text("foo"), Text("b"));
    EncodeAppend(Text("foo"), Text("ba"));
    EncodeAppend(Text("foo"), Text("bar"));
    assert Text("foob") == Text("foo") + Text("b") && Text("Zm9vYg==") == Text("Zm9v") + Text("Yg==");
    assert Text("fooba") == Text("foo") + Text("ba") && Text("Zm9vYmE=") == Text("Zm9v") + Text("YmE=");
    assert Text("foobar") == Text("foo") + Text("bar") && Text("Zm9vYmFy") == Text("Zm9v") + Text("YmFy");
  }

  lemma OneGroupVectors()
    ensures Encode([]) == Text("") && Encode(Text("f")) == Text("Zg==") && Encode(Text("fo")) == Text("Zm8=")
    ensures Encode(Text("foo")) == Text("Zm9v") && Encode(Text("b")) == Text("Yg==")
    ensures Encode(Text("ba")) == Text("YmE=") && Encode(Text("bar")) == Text("YmFy")
  {
    ShortVectors();
    hide Encode;
    WholeGroup(102, 111, 111);
    WholeGroup(98, 97, 114);
    assert Text("foo") == [102, 111, 111] && Text("bar") == [98, 97, 114];
  }

  lemma ShortVectors()
    ensures Encode([]) == Text("") && Encode(Text("f")) == Text("Zg==") && Encode(Text("fo")) == Text("Zm8=")
    ensures Encode(Text("b")) == Text("Yg==") && Encode(Text("ba")) == Text("YmE=")
  {
  }

  /** Quotients are truncated toward zero. */
  lemma QuotTruncates(n: int)
    ensures Quot(-n, 3) == -Quot(n, 3) && Quot(-n, 4) == -Quot(n, 4)
    ensures n >= 0 ==> Quot(n, 3) == n / 3 && Quot(n, 4) == n / 4
  {
  }

  /** The data ends in a pad but is too short to be a group. */
  predicate LonePad(data: seq<Byte>) { 2 <= |data| <= 3 && data[|data| - 1] == PAD }

  /** Some whole group has a byte beyond the letter z. */
  predicate BeyondTable(data: seq<Byte>) { exists i :: 0 <= i < |data| / 4 * 4 && data[i] > 'z' as int }

  lemma TableEnds(data: seq<Byte>)
    ensures BeyondTable(data) <==> !InTable(data, |data| / 4 * 4)
  {
    assert forall b: Byte :: DecodeValue(b).Ok? <==> b <= 122;
    hide DecodeValue;
  }

  function PadsAtEnd(data: seq<Byte>): nat {
    if data == [] || data[|data| - 1] != PAD then 0 else if |data| > 1 && data[|data| - 2] == PAD then 2 else 1
  }

  /**
    The decoder raises exactly on a single pad, on a pad without a group, and
    on bytes beyond the table in a whole group; all other data, letters or not,
    decode to three bytes a group, less one for each pad at the end.
  */
  lemma DecodesOrRaises(data: seq<Byte>)
    ensures match Decode(data)
            case Err(IndexError) => data == [PAD]
            case Err(ValueError) => data != [PAD] && (LonePad(data) || BeyondTable(data))
            case Ok(r) =>
              data != [PAD] && !LonePad(data) && !BeyondTable(data) && |r| == |data| / 4 * 3 - PadsAtEnd(data)
  {
    hide Groups, InTable, BeyondTable;
    TableEnds(data);
  }
}
