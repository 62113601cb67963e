/** Chunks and their framed stream form (src/pool/chunk.go, src/pool/kind.go). */
module Chunks {
  import opened Base

  /** A compressor and its inverse; zlib stands behind it. */
  datatype Codec = Codec(deflate: Bytes -> Bytes, inflate: Bytes -> Bytes)

  ghost predicate Lossless(z: Codec) {
    forall d :: z.inflate(z.deflate(d)) == d && (d != [] ==> z.deflate(d) != [])
  }

  /** What a chunk means, whatever its representation. */
  datatype Content = Content(kind: Kind, data: Bytes)

  /** `dataChunk` and `compressedChunk`. */
  datatype Chunk =
    | Plain(kind: Kind, oid: OID, data: Bytes)
    | Zipped(kind: Kind, oid: OID, dataLen: nat, zdata: Bytes)
  {
    function Data(z: Codec): Bytes {
      if Plain? then data else z.inflate(zdata)
    }

    /** The 32-bit length field: `uint32(len(data))` for plain data. */
    function DataLen(): nat {
      if Plain? then |data| % UINT32 else dataLen
    }

    /** `ZData`: compressed bytes, present for plain data only when they are shorter. */
    function ZData(z: Codec): Option<Bytes> {
      if Zipped? then Some(zdata)
      else if |z.deflate(data)| < |data| then Some(z.deflate(data))
      else None
    }

    function Meaning(z: Codec): Content {
      Content(kind, Data(z))
    }

    /** Decompression yields the recorded length, and the length fits its 32-bit field. */
    predicate Fits(z: Codec) {
      |Data(z)| < UINT32 && (Zipped? ==> dataLen == |Data(z)| && zdata != [])
    }
  }

  /** `NewChunk`; a kind that is not four bytes long makes the program panic. */
  function NewChunk(hash: Hash, kind: Bytes, data: Bytes): Option<Chunk> {
    if |kind| != 4 then None else Some(Plain(kind, hash(kind, data), data))
  }

  // ---- the stream --------------------------------------------------------------------------

  const MAGIC: Bytes := "adump-pool-v1.1\n"
  const UNCOMPRESSED := 0xFFFF_FFFF
  const HEADER_LEN := 48

  /** 15 & -n. */
  function PadLen(n: nat): nat {
    (16 - n % 16) % 16
  }

  function Zeros(n: nat): (b: Bytes)
    ensures |b| == n
  {
    seq(n, _ => '\0')
  }

  function Header(payloadLen: nat, dataLen: nat, kind: Kind, oid: OID): (b: Bytes)
    ensures |b| == HEADER_LEN
  {
    MAGIC + LE32(payloadLen) + LE32(dataLen) + kind + oid
  }

  /** What follows the header: the compressed bytes when there are any, else the data. */
  function Payload(z: Codec, ch: Chunk): Bytes {
    ch.ZData(z).GetOr(ch.Data(z))
  }

  function PayloadLenField(z: Codec, ch: Chunk): nat {
    if ch.ZData(z).Some? then |ch.ZData(z).value| else ch.DataLen()
  }

  function DataLenField(z: Codec, ch: Chunk): nat {
    if ch.ZData(z).Some? then ch.DataLen() else UNCOMPRESSED
  }

  /** The padding is the least that fills up to sixteen bytes. */
  lemma PadLenLeast(n: nat)
    ensures (n + PadLen(n)) % 16 == 0 && PadLen(n) < 16
  {
  }

  /** The bytes of one chunk in the stream: header, payload, padding. */
  function Frame(z: Codec, ch: Chunk): Bytes {
    Header(PayloadLenField(z, ch), DataLenField(z, ch), ch.kind, ch.oid)
    + Payload(z, ch) + Zeros(PadLen(|Payload(z, ch)|))
  }

  datatype ReadResult = ReadOk(chunk: Chunk, pad: nat, rest: Bytes) | ReadErr

  /** What reading one chunk from the front of a stream gives. */
  function Unframe(b: Bytes): ReadResult {
    if |b| < HEADER_LEN || b[..16] != MAGIC then ReadErr
    else
      var payloadLen, dataLen := UnLE32(b[16..20]), UnLE32(b[20..24]);
      var kind, oid, body := b[24..28], b[28..48], b[48..];
      if |body| < payloadLen then ReadErr
      else ReadOk(if dataLen == UNCOMPRESSED then Plain(kind, oid, body[..payloadLen])
                  else Zipped(kind, oid, dataLen, body[..payloadLen]),
                  PadLen(payloadLen), body[payloadLen..])
  }

  /** A byte stream with a read position: the io.Writer and the io.Reader of the source. */
  class Stream {
    var data: Bytes
    var pos: nat

    ghost predicate Valid()
      reads this
    {
      pos <= |data|
    }

    ghost function Ahead(): Bytes
      reads this
      requires Valid()
    {
      data[pos..]
    }

    constructor (initial: Bytes)
      ensures Valid() && data == initial && pos == 0
    {
      data, pos := initial, 0;
    }

    /** All bytes, or an error after some of them. */
    method Write(b: Bytes) returns (ok: bool)
      requires Valid()
      modifies this`data
      ensures Valid() && old(data) <= data <= old(data) + b
      ensures ok ==> data == old(data) + b
    {
      var failed := EnvFails();
      if failed {
        var n: nat :| n <= |b|;
        data := data + b[..n];
        return false;
      }
      data := data + b;
      ok := true;
    }

    /** `io.ReadFull`: all `n` bytes, or an error with what was left consumed. */
    method ReadFull(n: nat) returns (b: Option<Bytes>)
      requires Valid()
      modifies this`pos
      ensures Valid() && pos == if b.Some? then old(pos) + n else |data|
      ensures b == if |old(Ahead())| >= n then Some(old(Ahead())[..n]) else None
    {
      if |data| - pos < n {
        pos := |data|;
        return None;
      }
      b := Some(data[pos..pos + n]);
      assert data[pos..][..n] == data[pos..pos + n];
      pos := pos + n;
    }
  }

  lemma FrameStages(before: Bytes, header: Bytes, payload: Bytes, padding: Bytes, now: Bytes)
    ensures var all := before + (header + payload + padding);
      && before + header + payload + padding == all
      && (before <= now <= before + header ==> now <= all)
      && (before + header <= now <= before + header + payload ==> before <= now <= all)
      && (before + header + payload <= now <= before + header + payload + padding ==> before <= now <= all)
      && (padding == [] ==> before + header + payload == all)
  {
    var all := before + (header + payload + padding);
    assert before + header + payload + padding == all;
  }

  /** Appends the frame of a chunk, or an error after a part of it. */
  method ChunkWrite(z: Codec, ch: Chunk, w: Stream) returns (ok: bool)
    requires w.Valid()
    modifies w`data
    ensures w.Valid() && old(w.data) <= w.data <= old(w.data) + Frame(z, ch)
    ensures ok ==> w.data == old(w.data) + Frame(z, ch)
  {
    var zdata := ch.ZData(z);
    var payloadLen, dataLen, payload;
    if zdata.Some? {
      payloadLen, dataLen, payload := |zdata.value|, ch.DataLen(), zdata.value;
    } else {
      payloadLen, dataLen, payload := ch.DataLen(), UNCOMPRESSED, ch.Data(z);
    }
    hide Header, Zeros, PadLen;
    var header := Header(payloadLen, dataLen, ch.kind, ch.oid);
    ghost var before, padding := w.data, Zeros(PadLen(|payload|));
    ok := w.Write(header);
    FrameStages(before, header, payload, padding, w.data);
    if !ok {
      return;
    }
    ok := w.Write(payload);
    FrameStages(before, header, payload, padding, w.data);
    if !ok {
      return;
    }
    var padLen := PadLen(|payload|);
    if padLen > 0 {
      ok := w.Write(Zeros(padLen));
      FrameStages(before, header, payload, padding, w.data);
    }
  }

  method ChunkRead(rd: Stream) returns (r: Option<Chunk>, pad: nat)
    requires rd.Valid()
    modifies rd`pos
    ensures rd.Valid()
    ensures match Unframe(old(rd.Ahead()))
            case ReadOk(ch, p, rest) => r == Some(ch) && pad == p && rd.Ahead() == rest
            case ReadErr => r == None
  {
    pad := 0;
    ghost var b := rd.Ahead();
    var header := rd.ReadFull(HEADER_LEN);
    if header.None? || header.value[..16] != MAGIC {
      return None, 0;
    }
    var h := header.value;
    assert h[16..20] == b[16..20] && h[20..24] == b[20..24] && h[24..28] == b[24..28] && h[28..48] == b[28..48];
    var payloadLen, dataLen := UnLE32(h[16..20]), UnLE32(h[20..24]);
    var payload := rd.ReadFull(payloadLen);
    if payload.None? {
      return None, 0;
    }
    if dataLen == UNCOMPRESSED {
      r := Some(Plain(h[24..28], h[28..48], payload.value));
    } else {
      r := Some(Zipped(h[24..28], h[28..48], dataLen, payload.value));
    }
    pad := PadLen(payloadLen);
  }

  /** The chunks of a stream written back to back. */
  function Frames(z: Codec, chs: seq<Chunk>): Bytes {
    if chs == [] then [] else Frame(z, chs[0]) + Frames(z, chs[1..])
  }

  /** Reads chunks until the stream ends, skipping the padding after each. */
  function ReadAll(b: Bytes): Option<seq<Chunk>>
    decreases |b|
  {
    if b == [] then Some([])
    else match Unframe(b)
      case ReadErr => None
      case ReadOk(ch, pad, rest) =>
        if pad > |rest| then None
        else match ReadAll(rest[pad..])
          case Some(chs) => Some([ch] + chs)
          case None => None
  }

  /** A chunk the 32-bit fields can hold, in both of its forms. */
  predicate Writable(z: Codec, ch: Chunk) {
    && ch.Fits(z)
    && ch.DataLen() < UNCOMPRESSED
    && (ch.Zipped? ==> |ch.zdata| < UINT32)
  }

  /** What a reader gets for a written chunk: same kind, identifier and bytes, in the form of the payload. */
  function AsRead(z: Codec, ch: Chunk): Chunk {
    match ch.ZData(z)
    case Some(zdata) => Zipped(ch.kind, ch.oid, ch.DataLen(), zdata)
    case None => Plain(ch.kind, ch.oid, ch.Data(z))
  }

  lemma HeaderFields(payloadLen: nat, dataLen: nat, kind: Kind, oid: OID, rest: Bytes)
    requires payloadLen < UINT32 && dataLen < UINT32
    ensures var b := Header(payloadLen, dataLen, kind, oid) + rest;
      && b[..16] == MAGIC && UnLE32(b[16..20]) == payloadLen && UnLE32(b[20..24]) == dataLen
      && b[24..28] == kind && b[28..48] == oid && b[48..] == rest
  {
    hide LE32, UnLE32, Less;
    var b := Header(payloadLen, dataLen, kind, oid) + rest;
    assert b[16..20] == LE32(payloadLen);
    assert b[20..24] == LE32(dataLen);
    assert b[48..] == rest;
    LE32RoundTrip(payloadLen);
    LE32RoundTrip(dataLen);
  }

  /** The frame of plain data holds the shorter form, its length, and the length of the data if that is compressed. */
  lemma FramePayload(z: Codec, kind: Kind, oid: OID, data: Bytes)
    requires |data| < UNCOMPRESSED
    ensures var f, packed := Frame(z, Plain(kind, oid, data)), z.deflate(data);
      var payload := if |packed| < |data| then packed else data;
      FrameHolds(f, payload, if |packed| < |data| then |data| else 0xFFFF_FFFF)
  {
    hide Header, PadLen, Zeros, FrameHolds;
    var ch := Plain(kind, oid, data);
    FrameParts(PayloadLenField(z, ch), DataLenField(z, ch), kind, oid, Payload(z, ch));
  }

  predicate FrameHolds(f: Bytes, payload: Bytes, dataLen: nat) {
    && |f| % 16 == 0 && 48 + |payload| <= |f| < 64 + |payload| && f[48..48 + |payload|] == payload
    && UnLE32(f[16..20]) == |payload| && UnLE32(f[20..24]) == dataLen
  }

  lemma FrameParts(payloadLen: nat, dataLen: nat, kind: Kind, oid: OID, payload: Bytes)
    requires payloadLen == |payload| < UINT32 && dataLen < UINT32
    ensures FrameHolds(Header(payloadLen, dataLen, kind, oid) + payload + Zeros(PadLen(|payload|)), payload, dataLen)
  {
    hide Header, UnLE32;
    var pad := Zeros(PadLen(|payload|));
    var head := Header(payloadLen, dataLen, kind, oid);
    HeaderFields(payloadLen, dataLen, kind, oid, payload + pad);
    Assoc(head, payload, pad);
    var f := head + (payload + pad);
    assert f[48..48 + |payload|] == f[48..][..|payload|] == payload;
    PadLenLeast(|payload|);
  }

  lemma UnframeFields(dataLen: nat, kind: Kind, oid: OID, payload: Bytes, rest: Bytes)
    requires |payload| < UINT32 && dataLen < UINT32
    ensures Unframe(Header(|payload|, dataLen, kind, oid) + (payload + rest))
         == ReadOk(if dataLen == UNCOMPRESSED then Plain(kind, oid, payload) else Zipped(kind, oid, dataLen, payload),
                   PadLen(|payload|), rest)
  {
    HeaderFields(|payload|, dataLen, kind, oid, payload + rest);
    assert (payload + rest)[..|payload|] == payload && (payload + rest)[|payload|..] == rest;
  }

  /** Reading a written chunk gives its kind, identifier and data back, and leaves the padding and what follows. */
  lemma FrameRoundTrip(z: Codec, ch: Chunk, rest: Bytes)
    requires Writable(z, ch)
    ensures var pad := PadLen(|Payload(z, ch)|);
      Unframe(Frame(z, ch) + rest) == ReadOk(AsRead(z, ch), pad, Zeros(pad) + rest)
  {
    var pad := Zeros(PadLen(|Payload(z, ch)|));
    FieldsFit(z, ch);
    Regroup(Header(|Payload(z, ch)|, DataLenField(z, ch), ch.kind, ch.oid), Payload(z, ch), pad, rest);
    UnframeFields(DataLenField(z, ch), ch.kind, ch.oid, Payload(z, ch), pad + rest);
  }

  lemma FieldsFit(z: Codec, ch: Chunk)
    requires Writable(z, ch)
    ensures PayloadLenField(z, ch) == |Payload(z, ch)| < UINT32 && DataLenField(z, ch) < UINT32
  {
  }

  lemma Regroup(a: Bytes, b: Bytes, c: Bytes, d: Bytes)
    ensures a + b + c + d == a + (b + (c + d))
  {
  }

  lemma FrameAligned(z: Codec, ch: Chunk)
    ensures |Frame(z, ch)| % 16 == 0
  {
    var n := |Payload(z, ch)|;
    var pad := PadLen(n);
    assert |Frame(z, ch)| == HEADER_LEN + n + pad;
    PadAligns(n);
  }

  lemma PadAligns(n: nat)
    ensures (HEADER_LEN + n + PadLen(n)) % 16 == 0
  {
  }

  lemma AlignedSum(a: nat, b: nat)
    requires a % 16 == 0 && b % 16 == 0
    ensures (a + b) % 16 == 0
  {
  }

  /** The form read back stands for the same chunk and is written as the same bytes. */
  lemma RewriteIdentical(z: Codec, ch: Chunk)
    requires Writable(z, ch) && Lossless(z)
    ensures var r := AsRead(z, ch);
      Writable(z, r) && r.oid == ch.oid && r.Meaning(z) == ch.Meaning(z) && Frame(z, r) == Frame(z, ch)
  {
    if ch.Plain? {
      assert z.inflate(z.deflate(ch.data)) == ch.data;
    }
  }

  lemma {:induction false} FramesAligned(z: Codec, chs: seq<Chunk>)
    requires forall i :: 0 <= i < |chs| ==> Writable(z, chs[i])
    ensures |Frames(z, chs)| % 16 == 0
  {
    if chs != [] {
      FrameAligned(z, chs[0]);
      FramesAligned(z, chs[1..]);
      AlignedSum(|Frame(z, chs[0])|, |Frames(z, chs[1..])|);
    }
  }

  /** The chunks of a stream as a reader gets them. */
  function AllAsRead(z: Codec, chs: seq<Chunk>): (r: seq<Chunk>)
    ensures |r| == |chs| && forall i :: 0 <= i < |chs| ==> r[i] == AsRead(z, chs[i])
  {
    if chs == [] then [] else [AsRead(z, chs[0])] + AllAsRead(z, chs[1..])
  }

  lemma {:induction false} ReadAllFrames(z: Codec, chs: seq<Chunk>)
    requires Lossless(z)
    requires forall i :: 0 <= i < |chs| ==> Writable(z, chs[i])
    ensures ReadAll(Frames(z, chs)) == Some(AllAsRead(z, chs))
    ensures Frames(z, AllAsRead(z, chs)) == Frames(z, chs)
  {
    if chs != [] {
      RewriteIdentical(z, chs[0]);
      ReadAllFrames(z, chs[1..]);
      ReadAllStep(z, chs[0], Frames(z, chs[1..]));
      assert AllAsRead(z, chs)[1..] == AllAsRead(z, chs[1..]);
    }
  }

  /** For every list of chunks: the stream is 16-aligned, reads back to the same chunks, and writing
      what was read gives the same stream. */
  lemma StreamRoundTrip(z: Codec, chs: seq<Chunk>)
    requires Lossless(z)
    requires forall i :: 0 <= i < |chs| ==> Writable(z, chs[i])
    ensures |Frames(z, chs)| % 16 == 0
    ensures var r := ReadAll(Frames(z, chs));
      && r.Some? && |r.value| == |chs| && Frames(z, r.value) == Frames(z, chs)
      && forall i :: 0 <= i < |chs| ==>
           r.value[i].oid == chs[i].oid && r.value[i].Meaning(z) == chs[i].Meaning(z)
  {
    FramesAligned(z, chs);
    ReadAllFrames(z, chs);
    forall i | 0 <= i < |chs| {
      RewriteIdentical(z, chs[i]);
    }
  }

  lemma ReadAllStep(z: Codec, ch: Chunk, rest: Bytes)
    requires Writable(z, ch)
    ensures ReadAll(Frame(z, ch) + rest)
         == match ReadAll(rest) case Some(chs) => Some([AsRead(z, ch)] + chs) case None => None
  {
    FrameRoundTrip(z, ch, rest);
    var pad := PadLen(|Payload(z, ch)|);
    assert (Zeros(pad) + rest)[pad..] == rest;
  }
}
