/** Bitmaps, their digests, the decoder dispatch and the integrity verdict. */
module Blocks {
  import opened Basics
  import opened Fnv

  /** `dataLength` bytes of a non-null `data` are in use; the buffer may be longer. */
  datatype BitmapInfo = BitmapInfo(width: nat, height: nat, stride: nat, dataLength: nat, data: Option<seq<Byte>>)

  type Bitmap = b: BitmapInfo | b.data.Some? ==> b.dataLength <= |b.data.value|
    witness BitmapInfo(0, 0, 0, 0, None)

  datatype BlockDigest = BlockDigest(hash: Word, width: nat, height: nat, stride: nat, nbytes: nat, valid: bool)

  const NO_DIGEST := BlockDigest(0, 0, 0, 0, 0, false)

  /** The bytes of a bitmap that are in use. */
  function Bytes(b: Bitmap): (s: seq<Byte>)
    ensures b.data.Some? ==> |s| == b.dataLength
  {
    if b.data.Some? then b.data.value[..b.dataLength] else []
  }

  predicate Digestible(b: Bitmap) {
    b.data.Some? && b.width != 0 && b.height != 0
  }

  function DigestOf(b: Bitmap, doHash: bool): BlockDigest {
    if !Digestible(b) then NO_DIGEST
    else BlockDigest(if doHash then Digest(Bytes(b)) else 0, b.width, b.height, b.stride, b.dataLength, true)
  }

  function DigestOfBlock(b: Option<Bitmap>, doHash: bool): BlockDigest {
    if b.Some? then DigestOf(b.value, doHash) else NO_DIGEST
  }

  method MakeDigest(src: Bitmap, doHash: bool) returns (d: BlockDigest)
    ensures d == DigestOf(src, doHash)
    ensures d.valid <==> src.data.Some? && src.width != 0 && src.height != 0
    ensures d.valid ==> d.width == src.width && d.height == src.height && d.stride == src.stride && d.nbytes == src.dataLength
    ensures d.valid && doHash ==> d.hash == Digest(src.data.value[..src.dataLength])
    ensures !(d.valid && doHash) ==> d.hash == 0
  {
    d := NO_DIGEST;
    if src.data.None? || src.width == 0 || src.height == 0 {
      return;
    }
    d := d.(width := src.width, height := src.height, stride := src.stride, nbytes := src.dataLength, valid := true);
    if doHash {
      var h := Fnv1a64(src.data.value, d.nbytes);
      d := d.(hash := h);
    }
  }

  // ---- Decoding ----

  const RLE4K: int := 0x4
  const GZIP: int := 0x7
  const ZSTD: int := 0x8
  const SNAPPY: int := 0xA
  const LZO2: int := 0xB
  const BROTLI: int := 0xF

  const SLACK: nat := 4096  // decode buffers are this much larger than the block

  /** The decompressors, as deterministic functions from their input to a status and the bytes they write. */
  datatype Libraries = Libraries(
    rle4k: (seq<Byte>, nat, nat, nat) -> (int, seq<Byte>),  // payload, width, height, stride
    gzip: (seq<Byte>, nat) -> (int, seq<Byte>),             // payload, capacity; status 0 is success
    lzo2: (seq<Byte>, nat) -> (int, seq<Byte>),             // payload, capacity; status 0 is success
    snappy: seq<Byte> -> (bool, seq<Byte>),
    zstd: (seq<Byte>, nat) -> (bool, seq<Byte>))            // payload, capacity; whether the status is an error

  /** A buffer after a decompressor has written `written` at its start. */
  function Overwrite(dst: seq<Byte>, written: seq<Byte>): (r: seq<Byte>)
    ensures |r| == |dst|
  {
    if |written| >= |dst| then written[..|dst|] else written + dst[|written|..]
  }

  datatype Decoded = Decoded(ok: bool, dst: seq<Byte>)

  /** Dispatch on the format. `cap` bytes of `dst` may be used: callers must provide that many. */
  function DecodePayload(libs: Libraries, fmt: int, e: Option<Bitmap>, width: nat, height: nat, stride: nat,
                         dst: seq<Byte>, cap: nat): (r: Decoded)
    requires cap <= |dst|
    ensures |r.dst| == |dst|
    ensures fmt == BROTLI && e.Some? && cap > 0 ==> r == Decoded(true, dst)
    ensures fmt !in {RLE4K, GZIP, LZO2, SNAPPY, ZSTD, BROTLI} ==> r == Decoded(false, dst)
  {
    if e.None? || cap == 0 then Decoded(false, dst)
    else if fmt == RLE4K then
      var (status, written) := libs.rle4k(Bytes(e.value), width, height, stride);
      Decoded(status >= 0, Overwrite(dst, written))
    else if fmt == GZIP then
      var (status, written) := libs.gzip(Bytes(e.value), cap);
      Decoded(status == 0, Overwrite(dst, written))
    else if fmt == LZO2 then
      var (status, written) := libs.lzo2(Bytes(e.value), cap);
      Decoded(status == 0, Overwrite(dst, written))
    else if fmt == SNAPPY then
      var (ok, written) := libs.snappy(Bytes(e.value));
      Decoded(ok, Overwrite(dst, written))
    else if fmt == ZSTD then
      var (error, written) := libs.zstd(Bytes(e.value), cap);
      Decoded(!error, Overwrite(dst, written))
    else if fmt == BROTLI then Decoded(true, dst)
    else Decoded(false, dst)
  }

  function Zeros(n: nat): seq<Byte> {
    seq(n, _ => 0)
  }

  /** Decoding into a cleared buffer of the size the decode phase allots. */
  function DecodeFresh(libs: Libraries, fmt: int, dig: BlockDigest, e: Bitmap): (r: Decoded)
    ensures |r.dst| == dig.nbytes + SLACK
  {
    DecodePayload(libs, fmt, Some(e), dig.width, dig.height, dig.stride, Zeros(dig.nbytes + SLACK), dig.nbytes + SLACK)
  }

  // ---- What each decoder is given, and what becomes of its answer ----

  /** The bytes in use of an encoding. */
  predicate IsPayload(e: Bitmap, payload: seq<Byte>) {
    if e.data.Some? then |payload| == e.dataLength && payload <= e.data.value else payload == []
  }

  /** The outcome, and the buffer behind the bytes written, which it keeps. */
  predicate Wrote(r: Decoded, ok: bool, written: seq<Byte>, dst: seq<Byte>) {
    r.ok == ok && |r.dst| == |dst| && forall i :: 0 <= i < |dst| ==> r.dst[i] == if i < |written| then written[i] else dst[i]
  }

  lemma PayloadIsBytes(e: Bitmap, payload: seq<Byte>)
    requires IsPayload(e, payload)
    ensures Bytes(e) == payload
  {
  }

  /** RLE4K is told the geometry; any status from 0 up is success. */
  lemma Rle4kDecodes(libs: Libraries, e: Bitmap, payload: seq<Byte>, width: nat, height: nat, stride: nat,
                     dst: seq<Byte>, cap: nat)
    requires 0 < cap <= |dst| && IsPayload(e, payload)
    ensures var (status, written) := libs.rle4k(payload, width, height, stride);
            Wrote(DecodePayload(libs, 0x4, Some(e), width, height, stride, dst, cap), status >= 0, written, dst)
  {
    PayloadIsBytes(e, payload);
  }

  /** GZIP is told the capacity; only status 0 is success. */
  lemma GzipDecodes(libs: Libraries, e: Bitmap, payload: seq<Byte>, width: nat, height: nat, stride: nat,
                     dst: seq<Byte>, cap: nat)
    requires 0 < cap <= |dst| && IsPayload(e, payload)
    ensures var (status, written) := libs.gzip(payload, cap);
            Wrote(DecodePayload(libs, 0x7, Some(e), width, height, stride, dst, cap), status == 0, written, dst)
  {
    PayloadIsBytes(e, payload);
  }

  /** So is LZO2. */
  lemma Lzo2Decodes(libs: Libraries, e: Bitmap, payload: seq<Byte>, width: nat, height: nat, stride: nat,
                     dst: seq<Byte>, cap: nat)
    requires 0 < cap <= |dst| && IsPayload(e, payload)
    ensures var (status, written) := libs.lzo2(payload, cap);
            Wrote(DecodePayload(libs, 0xB, Some(e), width, height, stride, dst, cap), status == 0, written, dst)
  {
    PayloadIsBytes(e, payload);
  }

  /** Snappy answers with its success. */
  lemma SnappyDecodes(libs: Libraries, e: Bitmap, payload: seq<Byte>, width: nat, height: nat, stride: nat,
                     dst: seq<Byte>, cap: nat)
    requires 0 < cap <= |dst| && IsPayload(e, payload)
    ensures var (ok, written) := libs.snappy(payload);
            Wrote(DecodePayload(libs, 0xA, Some(e), width, height, stride, dst, cap), ok, written, dst)
  {
    PayloadIsBytes(e, payload);
  }

  /** Zstd is told the capacity; success is a status that is no error. */
  lemma ZstdDecodes(libs: Libraries, e: Bitmap, payload: seq<Byte>, width: nat, height: nat, stride: nat,
                     dst: seq<Byte>, cap: nat)
    requires 0 < cap <= |dst| && IsPayload(e, payload)
    ensures var (error, written) := libs.zstd(payload, cap);
            Wrote(DecodePayload(libs, 0x8, Some(e), width, height, stride, dst, cap), !error, written, dst)
  {
    PayloadIsBytes(e, payload);
  }

  /** No other library has a say in a format. */
  lemma OnlyItsLibrary(libs: Libraries, libs': Libraries, fmt: int, e: Option<Bitmap>, width: nat, height: nat, stride: nat,
                       dst: seq<Byte>, cap: nat)
    requires cap <= |dst|
    requires fmt == 0x4 ==> libs.rle4k == libs'.rle4k
    requires fmt == 0x7 ==> libs.gzip == libs'.gzip
    requires fmt == 0xB ==> libs.lzo2 == libs'.lzo2
    requires fmt == 0xA ==> libs.snappy == libs'.snappy
    requires fmt == 0x8 ==> libs.zstd == libs'.zstd
    ensures DecodePayload(libs, fmt, e, width, height, stride, dst, cap) ==
            DecodePayload(libs', fmt, e, width, height, stride, dst, cap)
  {
  }

  /** Without a buffer or an encoding nothing is decoded. */
  lemma NothingToDecode(libs: Libraries, fmt: int, e: Option<Bitmap>, width: nat, height: nat, stride: nat,
                        dst: seq<Byte>, cap: nat)
    requires cap <= |dst| && (e.None? || cap == 0)
    ensures DecodePayload(libs, fmt, e, width, height, stride, dst, cap) == Decoded(false, dst)
  {
  }

  /** For the encoding of a block the decoder is given the geometry of the block, or the capacity of a zeroed buffer
      that is 4096 bytes larger than the block; that buffer keeps its zeros behind the bytes written. */
  lemma BlockDecodes(libs: Libraries, b: Bitmap, doHash: bool, e: Bitmap, payload: seq<Byte>, zeros: seq<Byte>)
    requires b.data.Some? && b.width != 0 && b.height != 0 && IsPayload(e, payload)
    requires |zeros| == b.dataLength + 4096 && forall i :: 0 <= i < |zeros| ==> zeros[i] == 0
    ensures var (status, written) := libs.rle4k(payload, b.width, b.height, b.stride);
            Wrote(DecodeFresh(libs, 0x4, DigestOf(b, doHash), e), status >= 0, written, zeros)
    ensures var (status, written) := libs.gzip(payload, |zeros|);
            Wrote(DecodeFresh(libs, 0x7, DigestOf(b, doHash), e), status == 0, written, zeros)
    ensures var (status, written) := libs.lzo2(payload, |zeros|);
            Wrote(DecodeFresh(libs, 0xB, DigestOf(b, doHash), e), status == 0, written, zeros)
    ensures var (ok, written) := libs.snappy(payload);
            Wrote(DecodeFresh(libs, 0xA, DigestOf(b, doHash), e), ok, written, zeros)
    ensures var (error, written) := libs.zstd(payload, |zeros|);
            Wrote(DecodeFresh(libs, 0x8, DigestOf(b, doHash), e), !error, written, zeros)
  {
    assert zeros == Zeros(b.dataLength + 4096);
    Rle4kDecodes(libs, e, payload, b.width, b.height, b.stride, zeros, |zeros|);
    GzipDecodes(libs, e, payload, b.width, b.height, b.stride, zeros, |zeros|);
    Lzo2Decodes(libs, e, payload, b.width, b.height, b.stride, zeros, |zeros|);
    SnappyDecodes(libs, e, payload, b.width, b.height, b.stride, zeros, |zeros|);
    ZstdDecodes(libs, e, payload, b.width, b.height, b.stride, zeros, |zeros|);
  }

  // ---- The verdict ----

  /** A digest is met: there is an encoding, it decodes, and the decoded bytes hash to the digest again. */
  predicate DigestMet(libs: Libraries, fmt: int, dig: BlockDigest, e: Option<Bitmap>) {
    && e.Some?
    && DecodeFresh(libs, fmt, dig, e.value).ok
    && Digest(DecodeFresh(libs, fmt, dig, e.value).dst[..dig.nbytes]) == dig.hash
  }

  predicate WindowVerdict(libs: Libraries, fmt: int, check: bool, digests: seq<BlockDigest>, encoded: seq<Option<Bitmap>>)
    requires |digests| == |encoded|
  {
    check && fmt != BROTLI ==>
      forall i :: 0 <= i < |digests| && digests[i].valid ==> DigestMet(libs, fmt, digests[i], encoded[i])
  }

  /** What an accepted window is known to contain: every decoded block equals its source, or differs from it
      in two places at least four bytes apart. */
  lemma AcceptedBlocksAreClose(libs: Libraries, fmt: int, raw: seq<Option<Bitmap>>, encoded: seq<Option<Bitmap>>, i: nat)
    requires |raw| == |encoded| && i < |raw| && fmt != BROTLI
    requires WindowVerdict(libs, fmt, true, seq(|raw|, k requires 0 <= k < |raw| => DigestOfBlock(raw[k], true)), encoded)
    requires raw[i].Some? && Digestible(raw[i].value)
    ensures encoded[i].Some?
    ensures var d := DecodeFresh(libs, fmt, DigestOf(raw[i].value, true), encoded[i].value);
            d.ok && EqualOrFarApart(Bytes(raw[i].value), d.dst[..raw[i].value.dataLength])
  {
    var digests := seq(|raw|, k requires 0 <= k < |raw| => DigestOfBlock(raw[k], true));
    assert digests[i].valid && DigestMet(libs, fmt, digests[i], encoded[i]);
    EqualDigests(Bytes(raw[i].value), DecodeFresh(libs, fmt, digests[i], encoded[i].value).dst[..digests[i].nbytes]);
  }

  /** The codec undoes itself on `b`: decoding the encoding succeeds and gives the bytes of `b` back. */
  ghost predicate RoundTrips(libs: Libraries, fmt: int, encode: Bitmap -> Bitmap, b: Bitmap)
    requires Digestible(b)
  {
    var d := DecodeFresh(libs, fmt, DigestOf(b, true), encode(b));
    d.ok && d.dst[..b.dataLength] == Bytes(b)
  }

  /** Damage to a decoded block that stays within four neighbouring bytes is always reported. */
  lemma NearbyDamageIsReported(libs: Libraries, fmt: int, raw: seq<Option<Bitmap>>, encoded: seq<Option<Bitmap>>,
                               i: nat, at: nat, width: nat)
    requires |raw| == |encoded| && i < |raw| && fmt != BROTLI
    requires raw[i].Some? && Digestible(raw[i].value) && encoded[i].Some?
    requires width <= 4 && at + width <= raw[i].value.dataLength
    requires var s := Bytes(raw[i].value);
             var t := DecodeFresh(libs, fmt, DigestOf(raw[i].value, true), encoded[i].value).dst[..raw[i].value.dataLength];
             s != t && s[..at] == t[..at] && s[at + width..] == t[at + width..]
    ensures !WindowVerdict(libs, fmt, true, seq(|raw|, k requires 0 <= k < |raw| => DigestOfBlock(raw[k], true)), encoded)
  {
    var digests := seq(|raw|, k requires 0 <= k < |raw| => DigestOfBlock(raw[k], true));
    var t := DecodeFresh(libs, fmt, digests[i], encoded[i].value).dst[..digests[i].nbytes];
    BurstIsDetected(Bytes(raw[i].value), t, at, width);
    assert digests[i].valid && !DigestMet(libs, fmt, digests[i], encoded[i]);
  }
}
