/** The benchmark of one file: format, strip column, window of rows, repeats. */
module Bench {
  import opened Basics
  import opened Fnv
  import opened Blocks
  import opened Phases
  import opened Tiling

  // ---- Settings ----

  datatype Settings = Settings(
    rasterThreads: int, encodeThreads: int, decodeThreads: int, repeat: int,
    encodeEnabled: int, decodeEnabled: int, checkEnabled: int, cacheBlocksMin: int, cacheBlocksMax: int)

  function Clamp(n: int, low: int, high: int): int {
    Max(low, Min(n, high))
  }

  /** The range checks made once the configuration and the command line have been read. */
  method ClampSettings(cfg: Settings) returns (r: Settings)
    ensures r == Clamped(cfg)
  {
    r := cfg;
    if r.rasterThreads < 1 { r := r.(rasterThreads := 1); }
    if r.encodeThreads < 0 { r := r.(encodeThreads := 0); }
    if r.decodeThreads < 0 { r := r.(decodeThreads := 0); }
    if r.rasterThreads > MAX_WORKERS { r := r.(rasterThreads := MAX_WORKERS); }
    if r.encodeThreads > MAX_WORKERS { r := r.(encodeThreads := MAX_WORKERS); }
    if r.decodeThreads > MAX_WORKERS { r := r.(decodeThreads := MAX_WORKERS); }
    if r.cacheBlocksMin < 1 { r := r.(cacheBlocksMin := 1); }
    if r.cacheBlocksMax < r.cacheBlocksMin { r := r.(cacheBlocksMax := r.cacheBlocksMin); }
  }

  function Clamped(cfg: Settings): Settings {
    var low := Max(1, cfg.cacheBlocksMin);
    cfg.(rasterThreads := Clamp(cfg.rasterThreads, 1, MAX_WORKERS),
         encodeThreads := Clamp(cfg.encodeThreads, 0, MAX_WORKERS),
         decodeThreads := Clamp(cfg.decodeThreads, 0, MAX_WORKERS),
         cacheBlocksMin := low, cacheBlocksMax := Max(low, cfg.cacheBlocksMax))
  }

  // ---- What a run is expected to report ----

  /** The first `n` blocks of a strip column, from the top. */
  function Column(rasterize: (nat, nat) -> Option<Bitmap>, col: nat, n: nat): (blocks: seq<Option<Bitmap>>)
    ensures |blocks| == n
    ensures forall row :: 0 <= row < n ==> blocks[row] == rasterize(col, row)
  {
    seq(n, row requires 0 <= row < n => rasterize(col, row))
  }

  /** The `n` blocks of a strip column from row `row0` on. */
  function Rows(rasterize: (nat, nat) -> Option<Bitmap>, col: nat, row0: nat, n: nat): (blocks: seq<Option<Bitmap>>)
    ensures |blocks| == n
    ensures forall k :: 0 <= k < n ==> blocks[k] == rasterize(col, row0 + k)
  {
    seq(n, k requires 0 <= k < n => rasterize(col, row0 + k))
  }

  function Encoded(encode: Bitmap -> Bitmap, blocks: seq<Option<Bitmap>>): (r: seq<Option<Bitmap>>)
    ensures |r| == |blocks|
    ensures forall k :: 0 <= k < |r| ==> r[k] == if blocks[k].Some? then Some(encode(blocks[k].value)) else None
  {
    seq(|blocks|, k requires 0 <= k < |blocks| => if blocks[k].Some? then Some(encode(blocks[k].value)) else None)
  }

  function Digests(blocks: seq<Option<Bitmap>>, doHash: bool): (r: seq<BlockDigest>)
    ensures |r| == |blocks|
    ensures forall k :: 0 <= k < |r| ==> r[k] == DigestOfBlock(blocks[k], doHash)
  {
    seq(|blocks|, k requires 0 <= k < |blocks| => DigestOfBlock(blocks[k], doHash))
  }

  function ByteCount(blocks: seq<Option<Bitmap>>): nat {
    Sum(Lengths(blocks))
  }

  predicate BlocksPass(libs: Libraries, fmt: int, encode: Bitmap -> Bitmap, blocks: seq<Option<Bitmap>>, check: bool) {
    WindowVerdict(libs, fmt, check, Digests(blocks, check), Encoded(encode, blocks))
  }

  lemma ByteCountConcat(a: seq<Option<Bitmap>>, b: seq<Option<Bitmap>>)
    ensures ByteCount(a + b) == ByteCount(a) + ByteCount(b)
  {
    assert Lengths(a + b) == Lengths(a) + Lengths(b);
    SumConcat(Lengths(a), Lengths(b));
  }

  lemma EncodedConcat(encode: Bitmap -> Bitmap, a: seq<Option<Bitmap>>, b: seq<Option<Bitmap>>)
    ensures Encoded(encode, a + b) == Encoded(encode, a) + Encoded(encode, b)
  {
  }

  lemma BlocksPassConcat(libs: Libraries, fmt: int, encode: Bitmap -> Bitmap,
                         a: seq<Option<Bitmap>>, b: seq<Option<Bitmap>>, check: bool)
    ensures BlocksPass(libs, fmt, encode, a + b, check) <==>
            BlocksPass(libs, fmt, encode, a, check) && BlocksPass(libs, fmt, encode, b, check)
  {
    var d, e := Digests(a + b, check), Encoded(encode, a + b);
    if check && fmt != BROTLI && BlocksPass(libs, fmt, encode, a + b, check) {
      forall i | 0 <= i < |a| && Digests(a, check)[i].valid
        ensures DigestMet(libs, fmt, Digests(a, check)[i], Encoded(encode, a)[i])
      {
        assert (a + b)[i] == a[i] && d[i].valid;
      }
      forall i | 0 <= i < |b| && Digests(b, check)[i].valid
        ensures DigestMet(libs, fmt, Digests(b, check)[i], Encoded(encode, b)[i])
      {
        assert (a + b)[|a| + i] == b[i] && d[|a| + i].valid;
      }
    }
    if check && fmt != BROTLI && BlocksPass(libs, fmt, encode, a, check) && BlocksPass(libs, fmt, encode, b, check) {
      forall i | 0 <= i < |a + b| && d[i].valid
        ensures DigestMet(libs, fmt, d[i], e[i])
      {
        if i < |a| {
          assert Digests(a, check)[i].valid;
        } else {
          assert Digests(b, check)[i - |a|].valid;
        }
      }
    }
  }

  // ---- Time ----

  /** Elapsed times of the codec calls on one strip column, by row and repeat. */
  datatype Clock = Clock(encode: (nat, nat) -> nat, decode: (nat, nat) -> nat)

  function Times(clock: (nat, nat) -> nat, row0: nat, n: nat, rep: nat): seq<nat> {
    seq(n, k requires 0 <= k < n => clock(row0 + k, rep))
  }

  /** The time of `reps` passes over the blocks from row `row0` on, counting those worked on. */
  function RepeatedTime(on: seq<bool>, clock: (nat, nat) -> nat, row0: nat, reps: nat): nat {
    if reps == 0 then 0
    else RepeatedTime(on, clock, row0, reps - 1) + Sum(TimesWhere(on, Times(clock, row0, |on|, reps - 1)))
  }

  lemma {:induction false} RepeatedTimeConcat(a: seq<bool>, b: seq<bool>, clock: (nat, nat) -> nat, row0: nat, reps: nat)
    ensures RepeatedTime(a + b, clock, row0, reps) ==
            RepeatedTime(a, clock, row0, reps) + RepeatedTime(b, clock, row0 + |a|, reps)
  {
    if reps > 0 {
      RepeatedTimeConcat(a, b, clock, row0, reps - 1);
      var ta := TimesWhere(a, Times(clock, row0, |a|, reps - 1));
      var tb := TimesWhere(b, Times(clock, row0 + |a|, |b|, reps - 1));
      assert TimesWhere(a + b, Times(clock, row0, |a + b|, reps - 1)) == ta + tb;
      SumConcat(ta, tb);
    }
  }

  // ---- One window ----

  /** Encoding over an empty cache, or over the encodings themselves, leaves the encodings. */
  lemma EncodedOver(encode: Bitmap -> Bitmap, blocks: seq<Option<Bitmap>>, before: seq<Option<Bitmap>>, after: seq<Option<Bitmap>>)
    requires |before| == |after| == |blocks| && (Cleared(before) || before == Encoded(encode, blocks))
    requires forall k :: 0 <= k < |after| ==> after[k] == if blocks[k].Some? then Some(encode(blocks[k].value)) else before[k]
    ensures after == Encoded(encode, blocks)
  {
  }

  /** What one more pass over a window adds. */
  lemma EncodedOnceMore(encode: Bitmap -> Bitmap, blocks: seq<Option<Bitmap>>, clock: (nat, nat) -> nat, row0: nat, rep: nat,
                        before: seq<Option<Bitmap>>, after: seq<Option<Bitmap>>, bytes: nat, cpu: nat, encodes: seq<nat>,
                        pass: seq<nat>)
    requires |before| == |after| == |blocks| && if rep == 0 then Cleared(before) else before == Encoded(encode, blocks)
    requires forall k :: 0 <= k < |after| ==> after[k] == if blocks[k].Some? then Some(encode(blocks[k].value)) else before[k]
    requires bytes == rep * ByteCount(Encoded(encode, blocks)) && cpu == RepeatedTime(Present(blocks), clock, row0, rep)
    requires EachTimes(encodes, Present(blocks), rep) && EachTimes(pass, Present(blocks), 1)
    ensures after == Encoded(encode, blocks)
    ensures bytes + Sum(Lengths(after)) == (rep + 1) * ByteCount(Encoded(encode, blocks))
    ensures cpu + Sum(TimesWhere(Present(blocks), Times(clock, row0, |blocks|, rep))) ==
            RepeatedTime(Present(blocks), clock, row0, rep + 1)
    ensures EachTimes(encodes + pass, Present(blocks), rep + 1)
  {
    EncodedOver(encode, blocks, before, after);
    OneMore(rep, ByteCount(Encoded(encode, blocks)));
    EachTimesAppend(encodes, pass, Present(blocks), rep, 1);
  }

  /** Repeated encoding of one window. */
  method EncodeRepeatedly(encode: Bitmap -> Bitmap, blocks: seq<Option<Bitmap>>, encCache: array<Option<Bitmap>>,
                          repeat: nat, threads: int, row0: nat, clock: Clock)
    returns (encodedBytes: nat, cpu: nat, ghost encodes: seq<nat>)
    requires encCache.Length == |blocks| && repeat > 0
    requires Cleared(encCache[..])
    modifies encCache
    ensures EachTimes(encodes, Present(blocks), repeat)
    ensures encCache[..] == Encoded(encode, blocks)
    ensures encodedBytes == repeat * ByteCount(Encoded(encode, blocks))
    ensures cpu == RepeatedTime(Present(blocks), clock.encode, row0, repeat)
  {
    encodedBytes, cpu, encodes := 0, 0, [];
    for rep := 0 to repeat
      invariant if rep == 0 then Cleared(encCache[..]) else encCache[..] == Encoded(encode, blocks)
      invariant EachTimes(encodes, Present(blocks), rep)
      invariant encodedBytes == rep * ByteCount(Encoded(encode, blocks))
      invariant cpu == RepeatedTime(Present(blocks), clock.encode, row0, rep)
    {
      ghost var before := encCache[..];
      var us, bytes;
      ghost var pass;
      us, bytes, pass := EncodeWindow(encode, blocks, encCache, threads, Times(clock.encode, row0, |blocks|, rep));
      EncodedOnceMore(encode, blocks, clock.encode, row0, rep, before, encCache[..], encodedBytes, cpu, encodes, pass);
      encodedBytes, cpu, encodes := encodedBytes + bytes, cpu + us, encodes + pass;
    }
  }

  /** Repeated decoding of one window. `live` logs the decode buffers alive. */
  method DecodeRepeatedly(libs: Libraries, fmt: int, digests: seq<BlockDigest>, encCache: seq<Option<Bitmap>>,
                          repeat: nat, threads: int, check: bool, row0: nat, clock: Clock)
    returns (allOk: bool, cpu: nat, ghost decodes: seq<nat>, ghost live: seq<nat>)
    requires |digests| == |encCache| && repeat > 0
    ensures EachTimes(decodes, Decodable(digests, encCache), repeat)
    ensures |live| > 2 * |digests| && AtMost(live, BufferBound(check, |digests|))
    ensures allOk <==> WindowVerdict(libs, fmt, check, digests, encCache)
    ensures cpu == RepeatedTime(Decodable(digests, encCache), clock.decode, row0, repeat)
  {
    allOk, cpu, decodes, live := true, 0, [], [];
    for rep := 0 to repeat
      invariant EachTimes(decodes, Decodable(digests, encCache), rep)
      invariant rep > 0 ==> |live| > 2 * |digests|
      invariant AtMost(live, BufferBound(check, |digests|))
      invariant allOk <==> rep == 0 || WindowVerdict(libs, fmt, check, digests, encCache)
      invariant cpu == RepeatedTime(Decodable(digests, encCache), clock.decode, row0, rep)
    {
      var us, ok;
      ghost var pass, buffers;
      us, ok, pass, buffers :=
        DecodeWindow(libs, fmt, digests, encCache, threads, check, Times(clock.decode, row0, |digests|, rep));
      EachTimesAppend(decodes, pass, Decodable(digests, encCache), rep, 1);
      cpu, decodes, live := cpu + us, decodes + pass, live + buffers;
      if !ok {
        allOk := false;
      }
    }
  }

  /** What the phases of a window need to know of the run. */
  datatype Plan = Plan(
    rasterize: (nat, nat) -> Option<Bitmap>, libs: Libraries, fmt: int, encode: Bitmap -> Bitmap,
    rasterThreads: int, encodeThreads: int, decodeThreads: int, repeat: nat,
    doEncode: bool, doDecode: bool, doCheck: bool, cacheBlocks: nat)

  /** The totals of the first rows of a column: source bytes, encoded bytes and times over all repeats, verdict. */
  datatype Totals = Totals(source: nat, encoded: nat, encodeCpu: nat, decodeCpu: nat, allOk: bool)

  /** The totals a run over `blocks`, the top of a column, must arrive at. */
  function ExpectedTotals(p: Plan, clock: Clock, row0: nat, blocks: seq<Option<Bitmap>>): Totals {
    var e := Encoded(p.encode, blocks);
    Totals(ByteCount(blocks),
           if p.doEncode then p.repeat * ByteCount(e) else 0,
           if p.doEncode then RepeatedTime(Present(blocks), clock.encode, row0, p.repeat) else 0,
           if p.doDecode then RepeatedTime(Decodable(Digests(blocks, p.doCheck), e), clock.decode, row0, p.repeat) else 0,
           p.doDecode ==> BlocksPass(p.libs, p.fmt, p.encode, blocks, p.doCheck))
  }

  function Plus(a: Totals, b: Totals): Totals {
    Totals(a.source + b.source, a.encoded + b.encoded, a.encodeCpu + b.encodeCpu, a.decodeCpu + b.decodeCpu, a.allOk && b.allOk)
  }

  lemma TotalsConcat(p: Plan, clock: Clock, a: seq<Option<Bitmap>>, b: seq<Option<Bitmap>>)
    ensures ExpectedTotals(p, clock, 0, a + b) == Plus(ExpectedTotals(p, clock, 0, a), ExpectedTotals(p, clock, |a|, b))
  {
    ByteCountConcat(a, b);
    BytesConcat(p.encode, p.repeat, a, b);
    BlocksPassConcat(p.libs, p.fmt, p.encode, a, b, p.doCheck);
    EncodeTimeConcat(clock.encode, p.repeat, a, b);
    DecodeTimeConcat(p.encode, p.doCheck, clock.decode, p.repeat, a, b);
  }

  lemma BytesConcat(encode: Bitmap -> Bitmap, repeat: nat, a: seq<Option<Bitmap>>, b: seq<Option<Bitmap>>)
    ensures repeat * ByteCount(Encoded(encode, a + b)) ==
            repeat * ByteCount(Encoded(encode, a)) + repeat * ByteCount(Encoded(encode, b))
  {
    EncodedConcat(encode, a, b);
    ByteCountConcat(Encoded(encode, a), Encoded(encode, b));
    Distribute(repeat, ByteCount(Encoded(encode, a)), ByteCount(Encoded(encode, b)));
  }

  lemma EncodeTimeConcat(clock: (nat, nat) -> nat, repeat: nat,
                                            a: seq<Option<Bitmap>>, b: seq<Option<Bitmap>>)
    ensures RepeatedTime(Present(a + b), clock, 0, repeat) ==
            RepeatedTime(Present(a), clock, 0, repeat) + RepeatedTime(Present(b), clock, |a|, repeat)
  {
    assert Present(a + b) == Present(a) + Present(b);
    RepeatedTimeConcat(Present(a), Present(b), clock, 0, repeat);
  }

  lemma {:induction false} DecodeTimeConcat(encode: Bitmap -> Bitmap, check: bool, clock: (nat, nat) -> nat, repeat: nat,
                         a: seq<Option<Bitmap>>, b: seq<Option<Bitmap>>)
    ensures RepeatedTime(Decodable(Digests(a + b, check), Encoded(encode, a + b)), clock, 0, repeat) ==
            RepeatedTime(Decodable(Digests(a, check), Encoded(encode, a)), clock, 0, repeat) +
            RepeatedTime(Decodable(Digests(b, check), Encoded(encode, b)), clock, |a|, repeat)
  {
    var da, db := Decodable(Digests(a, check), Encoded(encode, a)), Decodable(Digests(b, check), Encoded(encode, b));
    DecodableConcat(encode, check, a, b);
    RepeatedTimeConcat(da, db, clock, 0, repeat);
  }

  lemma DecodableConcat(encode: Bitmap -> Bitmap, check: bool, a: seq<Option<Bitmap>>, b: seq<Option<Bitmap>>)
    ensures Decodable(Digests(a + b, check), Encoded(encode, a + b)) ==
            Decodable(Digests(a, check), Encoded(encode, a)) + Decodable(Digests(b, check), Encoded(encode, b))
  {
    assert Digests(a + b, check) == Digests(a, check) + Digests(b, check);
    EncodedConcat(encode, a, b);
  }

  lemma Distribute(k: nat, a: nat, b: nat)
    ensures k * (a + b) == k * a + k * b
  {
  }

  // ---- The memory of one window ----

  /** How many uncompressed bitmaps and how many decode buffers are alive at one moment. */
  datatype Moment = Moment(bitmaps: nat, buffers: nat)

  /** No more bitmaps than slots, no more buffers than slots or workers, and never both kinds at once. */
  predicate Frugal(moments: seq<Moment>, slots: nat, check: bool) {
    forall i :: 0 <= i < |moments| ==>
      && moments[i].bitmaps <= slots && moments[i].buffers <= BufferBound(check, slots)
      && (moments[i].bitmaps == 0 || moments[i].buffers == 0)
  }

  function Rastering(bitmaps: seq<nat>): seq<Moment> {
    seq(|bitmaps|, i requires 0 <= i < |bitmaps| => Moment(bitmaps[i], 0))
  }

  function Decoding(bitmaps: nat, buffers: seq<nat>): seq<Moment> {
    seq(|buffers|, i requires 0 <= i < |buffers| => Moment(bitmaps, buffers[i]))
  }

  /** The vectors of one window. `moments` is history: what was alive, from the first moment to the present one;
      `rastered` is the moment at which rasterizing ended. */
  class Window {
    const raw: array<Option<Bitmap>>
    const digests: array<BlockDigest>
    const encCache: array<Option<Bitmap>>
    const check: bool
    ghost var moments: seq<Moment>
    ghost var rastered: nat

    /** The bitmaps alive now. */
    ghost function Bitmaps(): nat
      reads raw
    {
      Alive(raw[..])
    }

    ghost predicate Valid()
      reads this, raw
    {
      && raw.Length == digests.Length == encCache.Length && raw != encCache
      && Frugal(moments, raw.Length, check)
      && rastered < |moments| && moments[0] == Moment(0, 0) && moments[|moments| - 1] == Moment(Bitmaps(), 0)
    }

    constructor (nwin: nat, check: bool)
      ensures raw.Length == nwin && this.check == check && Valid()
      ensures fresh(raw) && fresh(digests) && fresh(encCache)
      ensures raw[..] == encCache[..] == seq(nwin, _ => None)
    {
      raw := new Option<Bitmap>[nwin](_ => None);
      digests := new BlockDigest[nwin](_ => NO_DIGEST);
      encCache := new Option<Bitmap>[nwin](_ => None);
      this.check := check;
      moments, rastered := [Moment(0, 0)], 0;
      new;
      NoneAlive(raw[..]);
    }

    method Rasterize(rasterize: (nat, nat) -> Option<Bitmap>, col: nat, row0: nat, threads: int)
      returns (source: nat, ghost calls: seq<(nat, nat)>)
      requires Valid() && Cleared(raw[..])
      modifies this, raw, digests
      ensures Valid() && |moments| > 2 * raw.Length && moments[rastered] == Moment(Bitmaps(), 0)
      ensures raw[..] == Rows(rasterize, col, row0, raw.Length) && digests[..] == Digests(raw[..], check)
      ensures source == ByteCount(raw[..])
      ensures CalledOnce(calls, col, row0, raw.Length)
    {
      var cpu;
      ghost var live;
      cpu, source, calls, live :=
        RasterWindow(rasterize, col, row0, raw.Length, threads, check, raw, digests, seq(raw.Length, _ => 0));
      assert raw[..] == Rows(rasterize, col, row0, raw.Length) && digests[..] == Digests(raw[..], check);
      moments := moments + Rastering(live) + [Moment(Bitmaps(), 0)];
      rastered := |moments| - 1;
    }

    /** Encodes the window, if encoding is on. */
    method Encode(encode: Bitmap -> Bitmap, on: bool, repeat: nat, threads: int, row0: nat, clock: Clock)
      returns (encoded: nat, cpu: nat, ghost encodes: seq<nat>)
      requires Valid() && Cleared(encCache[..]) && repeat > 0
      modifies encCache
      ensures EachTimes(encodes, Present(raw[..]), if on then repeat else 0)
      ensures on ==> encCache[..] == Encoded(encode, raw[..])
      ensures encoded == if on then repeat * ByteCount(Encoded(encode, raw[..])) else 0
      ensures cpu == if on then RepeatedTime(Present(raw[..]), clock.encode, row0, repeat) else 0
    {
      encoded, cpu, encodes := 0, 0, [];
      if on {
        encoded, cpu, encodes := EncodeRepeatedly(encode, raw[..], encCache, repeat, threads, row0, clock);
      }
    }

    /** Frees the uncompressed bitmaps one by one. */
    method DropBitmaps()
      requires Valid()
      modifies this, raw
      ensures Valid() && Bitmaps() == 0
      ensures rastered == old(rastered) && moments[rastered] == old(moments[rastered]) && |moments| >= |old(moments)|
    {
      for i := 0 to raw.Length
        invariant Valid() && |moments| >= |old(moments)|
        invariant rastered == old(rastered) && moments[rastered] == old(moments[rastered])
        invariant forall k :: 0 <= k < i ==> raw[k] == None
      {
        raw[i] := None;
        moments := moments + [Moment(Bitmaps(), 0)];
      }
      NoneAlive(raw[..]);
    }

    /** Decodes the window, whose bitmaps must be gone, if decoding is on. */
    method Decode(libs: Libraries, fmt: int, on: bool, repeat: nat, threads: int, row0: nat, clock: Clock)
      returns (allOk: bool, cpu: nat, ghost decodes: seq<nat>)
      requires Valid() && Bitmaps() == 0 && repeat > 0
      modifies this
      ensures EachTimes(decodes, Decodable(digests[..], encCache[..]), if on then repeat else 0)
      ensures Valid() && |moments| >= |old(moments)| + (if on then 2 * raw.Length else 0)
      ensures rastered == old(rastered) && moments[rastered] == old(moments[rastered])
      ensures allOk <==> on ==> WindowVerdict(libs, fmt, check, digests[..], encCache[..])
      ensures cpu == if on then RepeatedTime(Decodable(digests[..], encCache[..]), clock.decode, row0, repeat) else 0
    {
      ghost var live;
      allOk, cpu, decodes := true, 0, [];
      if !on {
        return;
      }
      allOk, cpu, decodes, live := DecodeRepeatedly(libs, fmt, digests[..], encCache[..], repeat, threads, check, row0, clock);
      moments := moments + Decoding(Bitmaps(), live) + [Moment(Bitmaps(), 0)];
    }

    /** Encodes the window, drops its bitmaps and decodes it. The totals leave the source bytes to the caller. */
    method EncodeAndDecode(p: Plan, clock: Clock, row0: nat, ghost blocks: seq<Option<Bitmap>>)
      returns (t: Totals, ghost encodes: seq<nat>, ghost decodes: seq<nat>)
      requires Valid() && Cleared(encCache[..]) && p.repeat > 0 && (p.doDecode ==> p.doEncode)
      requires raw[..] == blocks && digests[..] == Digests(blocks, check) && check == p.doCheck
      modifies this, raw, encCache
      ensures Valid() && Bitmaps() == 0
      ensures |moments| >= |old(moments)| && rastered == old(rastered) && moments[rastered] == old(moments[rastered])
      ensures t == ExpectedTotals(p, clock, row0, blocks).(source := 0)
      ensures EachTimes(encodes, Present(blocks), if p.doEncode then p.repeat else 0)
      ensures EachTimes(decodes, Decodable(Digests(blocks, p.doCheck), Encoded(p.encode, blocks)),
                if p.doDecode then p.repeat else 0)
    {
      var encoded, encodeCpu, allOk, decodeCpu;
      encoded, encodeCpu, encodes := Encode(p.encode, p.doEncode, p.repeat, p.encodeThreads, row0, clock);
      // The uncompressed bitmaps go before decoding starts.
      DropBitmaps();
      allOk, decodeCpu, decodes := Decode(p.libs, p.fmt, p.doDecode, p.repeat, p.decodeThreads, row0, clock);
      t := Totals(0, encoded, encodeCpu, decodeCpu, allOk);
    }
  }

  /** How many of the blocks in these rows there are. */
  function AliveRows(rasterize: (nat, nat) -> Option<Bitmap>, col: nat, row0: nat, end: nat): nat {
    if end <= row0 then 0
    else AliveRows(rasterize, col, row0, end - 1) + if rasterize(col, end - 1).Some? then 1 else 0
  }

  lemma {:induction false} AliveRowsIs(rasterize: (nat, nat) -> Option<Bitmap>, col: nat, row0: nat, n: nat)
    ensures AliveRows(rasterize, col, row0, row0 + n) == Alive(Rows(rasterize, col, row0, n))
    decreases n
  {
    if n > 0 {
      AliveRowsIs(rasterize, col, row0, n - 1);
      assert Rows(rasterize, col, row0, n)[..n - 1] == Rows(rasterize, col, row0, n - 1);
    }
  }

  /** The run of one window: its rows, the slots encoded and decoded, what was alive from moment to moment, and the
      moment after rasterizing. */
  datatype WindowRun =
    WindowRun(row0: nat, end: nat, encodes: seq<nat>, decodes: seq<nat>, moments: seq<Moment>, rastered: nat)

  /** Every block that is there has been encoded, and every one with pixels decoded, as often as the repeats demand. */
  ghost predicate CodecCalls(p: Plan, col: nat, row0: nat, nwin: nat, encodes: seq<nat>, decodes: seq<nat>) {
    var blocks := Rows(p.rasterize, col, row0, nwin);
    && EachTimes(encodes, Present(blocks), if p.doEncode then p.repeat else 0)
    && EachTimes(decodes, Decodable(Digests(blocks, p.doCheck), Encoded(p.encode, blocks)), if p.doDecode then p.repeat else 0)
  }

  /** The log starts and ends with nothing alive, shows all blocks of the window once they have been rasterized, but
      never more than fit the window, and keeps bitmaps and decode buffers apart. */
  ghost predicate WindowLog(p: Plan, col: nat, run: WindowRun) {
    && run.row0 <= run.end && |run.moments| > 2 * (run.end - run.row0)
    && Frugal(run.moments, run.end - run.row0, p.doCheck)
    && run.moments[0] == run.moments[|run.moments| - 1] == Moment(0, 0)
    && run.rastered < |run.moments|
    && run.moments[run.rastered] == Moment(AliveRows(p.rasterize, col, run.row0, run.end), 0)
    && CodecCalls(p, col, run.row0, run.end - run.row0, run.encodes, run.decodes)
  }

  lemma LogIs(p: Plan, col: nat, row0: nat, nwin: nat, encodes: seq<nat>, decodes: seq<nat>, moments: seq<Moment>, rastered: nat)
    requires CodecCalls(p, col, row0, nwin, encodes, decodes)
    requires |moments| > 2 * nwin && Frugal(moments, nwin, p.doCheck) && rastered < |moments|
    requires moments[0] == moments[|moments| - 1] == Moment(0, 0)
    requires moments[rastered] == Moment(Alive(Rows(p.rasterize, col, row0, nwin)), 0)
    ensures WindowLog(p, col, WindowRun(row0, row0 + nwin, encodes, decodes, moments, rastered))
  {
    AliveRowsIs(p.rasterize, col, row0, nwin);
  }

  /** Rasterize, encode and decode one window of rows. */
  method RunWindow(p: Plan, clock: Clock, col: nat, row0: nat, nwin: nat)
    returns (t: Totals, ghost calls: seq<(nat, nat)>, ghost run: WindowRun)
    requires p.repeat > 0 && (p.doDecode ==> p.doEncode)
    ensures t == ExpectedTotals(p, clock, row0, Rows(p.rasterize, col, row0, nwin))
    ensures CalledOnce(calls, col, row0, nwin)
    ensures WindowLog(p, col, run) && run.row0 == row0 && run.end == row0 + nwin
  {
    var window := new Window(nwin, p.doCheck);
    var source;
    source, calls := window.Rasterize(p.rasterize, col, row0, p.rasterThreads);
    ghost var encodes, decodes;
    t, encodes, decodes := window.EncodeAndDecode(p, clock, row0, Rows(p.rasterize, col, row0, nwin));
    t := t.(source := source);
    LogIs(p, col, row0, nwin, encodes, decodes, window.moments, window.rastered);
    run := WindowRun(row0, row0 + nwin, encodes, decodes, window.moments, window.rastered);
  }

  // ---- Columns, formats, files ----

  lemma CallsAppend(a: seq<(nat, nat)>, b: seq<(nat, nat)>, col: nat, rows: nat, n: nat)
    requires CalledOnce(a, col, 0, rows) && CalledOnce(b, col, rows, n)
    ensures CalledOnce(a + b, col, 0, rows + n)
  {
    assert multiset(a + b) == multiset(a) + multiset(b);
  }

  function RowsDone(windows: seq<WindowRun>): nat {
    if windows == [] then 0 else windows[|windows| - 1].end
  }

  /** The windows run so far, from the top of a column: each starts where the one above ends. */
  ghost predicate WindowsLogged(p: Plan, col: nat, nrows: nat, windows: seq<WindowRun>) {
    windows == [] ||
    var above, run := windows[..|windows| - 1], windows[|windows| - 1];
    && WindowsLogged(p, col, nrows, above)
    && WindowLog(p, col, run)
    && RowsDone(above) == run.row0 < run.end == Min(run.row0 + p.cacheBlocks, nrows)
  }

  ghost predicate ColumnLog(p: Plan, col: nat, nrows: nat, windows: seq<WindowRun>) {
    WindowsLogged(p, col, nrows, windows) && RowsDone(windows) == nrows
  }

  lemma WindowsExtended(p: Plan, col: nat, nrows: nat, windows: seq<WindowRun>, run: WindowRun)
    requires WindowsLogged(p, col, nrows, windows) && WindowLog(p, col, run)
    requires RowsDone(windows) == run.row0 < run.end == Min(run.row0 + p.cacheBlocks, nrows)
    ensures WindowsLogged(p, col, nrows, windows + [run]) && RowsDone(windows + [run]) == run.end
  {
    assert (windows + [run])[..|windows|] == windows;
  }

  lemma {:induction false} LoggedWindow(p: Plan, col: nat, nrows: nat, windows: seq<WindowRun>, w: nat)
    requires WindowsLogged(p, col, nrows, windows) && w < |windows|
    ensures WindowLog(p, col, windows[w]) && windows[w].row0 < windows[w].end <= windows[w].row0 + p.cacheBlocks
    decreases |windows|
  {
    if w < |windows| - 1 {
      LoggedWindow(p, col, nrows, windows[..|windows| - 1], w);
    }
  }

  lemma {:induction false} WindowStarts(p: Plan, col: nat, nrows: nat, windows: seq<WindowRun>, w: nat)
    requires WindowsLogged(p, col, nrows, windows) && w < |windows|
    ensures windows[w].row0 == w * p.cacheBlocks && windows[w].end == Min(windows[w].row0 + p.cacheBlocks, nrows)
    decreases |windows|
  {
    var above := windows[..|windows| - 1];
    if w < |windows| - 1 {
      WindowStarts(p, col, nrows, above, w);
    } else if above != [] {
      WindowStarts(p, col, nrows, above, w - 1);
      assert w * p.cacheBlocks == (w - 1) * p.cacheBlocks + p.cacheBlocks;
    }
  }

  /** The windows run are those of the tiling: their slots are exactly the slots issued. */
  lemma WindowIsIssued(p: Plan, col: nat, nrows: nat, windows: seq<WindowRun>, row0: nat, local: nat)
    requires p.cacheBlocks > 0 && ColumnLog(p, col, nrows, windows)
    ensures Issued(row0, local, nrows, p.cacheBlocks) <==>
            exists w :: 0 <= w < |windows| && windows[w].row0 == row0 && row0 + local < windows[w].end
  {
    if Issued(row0, local, nrows, p.cacheBlocks) {
      var w := row0 / p.cacheBlocks;
      assert row0 == w * p.cacheBlocks;
      WindowCount(p, col, nrows, windows);
      BlockCountCovers(nrows, p.cacheBlocks, w);
      WindowStarts(p, col, nrows, windows, w);
    }
    forall w | 0 <= w < |windows| && windows[w].row0 == row0 && row0 + local < windows[w].end
      ensures Issued(row0, local, nrows, p.cacheBlocks)
    {
      WindowStarts(p, col, nrows, windows, w);
      MultipleOf(w, p.cacheBlocks);
    }
  }

  lemma MultipleOf(w: nat, size: nat)
    requires size > 0
    ensures w * size % size == 0
  {
    OnlyQuotient(w * size, size, w);
  }

  lemma OneMore(n: nat, size: nat)
    ensures (n + 1) * size == n * size + size
  {
  }

  lemma WindowCount(p: Plan, col: nat, nrows: nat, windows: seq<WindowRun>)
    requires p.cacheBlocks > 0 && ColumnLog(p, col, nrows, windows)
    ensures |windows| == BlockCount(nrows, p.cacheBlocks)
  {
    BlockCountCovers(nrows, p.cacheBlocks, |windows|);
    if windows != [] {
      WindowStarts(p, col, nrows, windows, |windows| - 1);
      OneMore(|windows| - 1, p.cacheBlocks);
      LoggedWindow(p, col, nrows, windows, |windows| - 1);
      BlockCountCovers(nrows, p.cacheBlocks, |windows| - 1);
    }
  }

  lemma TotalsExtended(p: Plan, clock: Clock, col: nat, row0: nat, nwin: nat)
    ensures ExpectedTotals(p, clock, 0, Column(p.rasterize, col, row0 + nwin)) ==
            Plus(ExpectedTotals(p, clock, 0, Column(p.rasterize, col, row0)),
                 ExpectedTotals(p, clock, row0, Rows(p.rasterize, col, row0, nwin)))
  {
    var top, window := Column(p.rasterize, col, row0), Rows(p.rasterize, col, row0, nwin);
    assert Column(p.rasterize, col, row0 + nwin) == top + window;
    TotalsConcat(p, clock, top, window);
  }

  /** The totals of the first rows of a column. */
  ghost predicate TotalsOf(p: Plan, clock: Clock, col: nat, rows: nat, t: Totals) {
    t == ExpectedTotals(p, clock, 0, Column(p.rasterize, col, rows))
  }

  /** What running the next window adds to what the rows above it have come to. */
  lemma RunFurther(p: Plan, clock: Clock, col: nat, nrows: nat, row0: nat, nwin: nat, t: Totals, w: Totals,
                   calls: seq<(nat, nat)>, windowCalls: seq<(nat, nat)>, windows: seq<WindowRun>, run: WindowRun)
    requires row0 < nrows && nwin == Min(p.cacheBlocks, nrows - row0) > 0
    requires TotalsOf(p, clock, col, row0, t)
    requires w == ExpectedTotals(p, clock, row0, Rows(p.rasterize, col, row0, nwin))
    requires CalledOnce(calls, col, 0, row0) && CalledOnce(windowCalls, col, row0, nwin)
    requires WindowsLogged(p, col, nrows, windows) && RowsDone(windows) == row0
    requires WindowLog(p, col, run) && run.row0 == row0 && run.end == row0 + nwin
    ensures TotalsOf(p, clock, col, Min(row0 + p.cacheBlocks, nrows), Plus(t, w))
    ensures CalledOnce(calls + windowCalls, col, 0, Min(row0 + p.cacheBlocks, nrows))
    ensures WindowsLogged(p, col, nrows, windows + [run])
    ensures RowsDone(windows + [run]) == Min(row0 + p.cacheBlocks, nrows)
  {
    assert Min(row0 + p.cacheBlocks, nrows) == row0 + nwin;
    TotalsExtended(p, clock, col, row0, nwin);
    CallsAppend(calls, windowCalls, col, row0, nwin);
    WindowsExtended(p, col, nrows, windows, run);
  }

  /** What the windows from the top of a column down to row `row0` have come to. */
  ghost predicate TopRun(p: Plan, clock: Clock, col: nat, nrows: nat, rows: nat, t: Totals, calls: seq<(nat, nat)>,
                         windows: seq<WindowRun>)
  {
    && TotalsOf(p, clock, col, rows, t)
    && CalledOnce(calls, col, 0, rows)
    && WindowsLogged(p, col, nrows, windows) && RowsDone(windows) == rows
  }

  /** The next window of a strip column. */
  method RunNext(p: Plan, clock: Clock, col: nat, nrows: nat, row0: nat, t: Totals, ghost calls: seq<(nat, nat)>,
                 ghost windows: seq<WindowRun>)
    returns (t': Totals, ghost calls': seq<(nat, nat)>, ghost windows': seq<WindowRun>)
    requires p.repeat > 0 && p.cacheBlocks > 0 && (p.doDecode ==> p.doEncode) && row0 < nrows
    requires TopRun(p, clock, col, nrows, row0, t, calls, windows)
    ensures TopRun(p, clock, col, nrows, Min(row0 + p.cacheBlocks, nrows), t', calls', windows')
  {
    var nwin := Min(p.cacheBlocks, nrows - row0);
    var w;
    ghost var windowCalls, run;
    w, windowCalls, run := RunWindow(p, clock, col, row0, nwin);
    RunFurther(p, clock, col, nrows, row0, nwin, t, w, calls, windowCalls, windows, run);
    t', calls', windows' := Plus(t, w), calls + windowCalls, windows + [run];
  }

  /** All windows of one strip column. */
  method RunColumn(p: Plan, clock: Clock, col: nat, nrows: nat)
    returns (t: Totals, ghost calls: seq<(nat, nat)>, ghost windows: seq<WindowRun>)
    requires p.repeat > 0 && p.cacheBlocks > 0 && (p.doDecode ==> p.doEncode)
    ensures t == ExpectedTotals(p, clock, 0, Column(p.rasterize, col, nrows))
    ensures CalledOnce(calls, col, 0, nrows)
    ensures ColumnLog(p, col, nrows, windows)
  {
    t, calls, windows := Totals(0, 0, 0, 0, true), [], [];
    var row0 := 0;
    NothingToDo(p, clock, col);
    while row0 < nrows
      invariant 0 <= row0
      invariant TopRun(p, clock, col, nrows, Min(row0, nrows), t, calls, windows)
    {
      t, calls, windows := RunNext(p, clock, col, nrows, row0, t, calls, windows);
      row0 := row0 + p.cacheBlocks;
    }
  }

  lemma {:induction false} NoTime(clock: (nat, nat) -> nat, row0: nat, reps: nat)
    ensures RepeatedTime([], clock, row0, reps) == 0
  {
    if reps > 0 {
      NoTime(clock, row0, reps - 1);
      assert TimesWhere([], Times(clock, row0, 0, reps - 1)) == [];
    }
  }

  lemma NothingToDo(p: Plan, clock: Clock, col: nat)
    ensures ExpectedTotals(p, clock, 0, Column(p.rasterize, col, 0)) == Totals(0, 0, 0, 0, true)
  {
    assert Column(p.rasterize, col, 0) == [];
    NoTime(clock.encode, 0, p.repeat);
    NoTime(clock.decode, 0, p.repeat);
    assert Present([]) == [] && Decodable(Digests([], p.doCheck), Encoded(p.encode, [])) == [];
    assert Lengths([]) == [] && Encoded(p.encode, []) == [];
  }

  /** A format's totals over the file; encoded bytes and times are averages over the repeats. */
  datatype FormatTotals = FormatTotals(source: nat, encoded: real, encodeCpu: real, decodeCpu: real, ok: bool)

  const NOTHING := FormatTotals(0, 0.0, 0.0, 0.0, true)

  function Average(n: nat, repeat: nat): real
    requires repeat > 0
  {
    n as real / repeat as real
  }

  function AddColumn(acc: FormatTotals, p: Plan, t: Totals): FormatTotals
    requires p.repeat > 0
  {
    FormatTotals(acc.source + t.source,
                 acc.encoded + (if p.doEncode then Average(t.encoded, p.repeat) else 0.0),
                 acc.encodeCpu + (if p.doEncode then Average(t.encodeCpu, p.repeat) else 0.0),
                 acc.decodeCpu + (if p.doDecode then Average(t.decodeCpu, p.repeat) else 0.0),
                 if p.doDecode && p.doCheck && !t.allOk then false else acc.ok)
  }

  function ExpectedFormat(p: Plan, clocks: nat -> Clock, ncols: nat, nrows: nat): FormatTotals
    requires p.repeat > 0
  {
    if ncols == 0 then NOTHING
    else AddColumn(ExpectedFormat(p, clocks, ncols - 1, nrows), p,
                   ExpectedTotals(p, clocks(ncols - 1), 0, Column(p.rasterize, ncols - 1, nrows)))
  }

  /** Each block of the grid has been rasterized exactly once, and nothing else has been. */
  ghost predicate GridCalledOnce(calls: seq<(nat, nat)>, ncols: nat, nrows: nat) {
    forall c: nat, r: nat :: multiset(calls)[(c, r)] == if c < ncols && r < nrows then 1 else 0
  }

  lemma GridExtended(calls: seq<(nat, nat)>, columnCalls: seq<(nat, nat)>, col: nat, nrows: nat)
    requires GridCalledOnce(calls, col, nrows) && CalledOnce(columnCalls, col, 0, nrows)
    ensures GridCalledOnce(calls + columnCalls, col + 1, nrows)
  {
    assert multiset(calls + columnCalls) == multiset(calls) + multiset(columnCalls);
  }

  ghost predicate FormatLog(p: Plan, ncols: nat, nrows: nat, columns: seq<seq<WindowRun>>)
    requires p.cacheBlocks > 0
  {
    |columns| == ncols && forall col :: 0 <= col < ncols ==> ColumnLog(p, col, nrows, columns[col])
  }

  lemma FormatLogExtended(p: Plan, col: nat, nrows: nat, columns: seq<seq<WindowRun>>, windows: seq<WindowRun>)
    requires p.cacheBlocks > 0 && FormatLog(p, col, nrows, columns) && ColumnLog(p, col, nrows, windows)
    ensures FormatLog(p, col + 1, nrows, columns + [windows])
  {
  }

  /** All strip columns in one format. */
  method RunFormat(p: Plan, clocks: nat -> Clock, ncols: nat, nrows: nat)
    returns (acc: FormatTotals, ghost calls: seq<(nat, nat)>, ghost columns: seq<seq<WindowRun>>)
    requires p.repeat > 0 && p.cacheBlocks > 0 && (p.doDecode ==> p.doEncode)
    ensures acc == ExpectedFormat(p, clocks, ncols, nrows)
    ensures GridCalledOnce(calls, ncols, nrows)
    ensures FormatLog(p, ncols, nrows, columns)
  {
    acc, calls, columns := NOTHING, [], [];
    for col := 0 to ncols
      invariant acc == ExpectedFormat(p, clocks, col, nrows)
      invariant GridCalledOnce(calls, col, nrows)
      invariant FormatLog(p, col, nrows, columns)
    {
      var t, columnCalls, windows := RunColumn(p, clocks(col), col, nrows);
      GridExtended(calls, columnCalls, col, nrows);
      calls := calls + columnCalls;
      FormatLogExtended(p, col, nrows, columns, windows);
      columns := columns + [windows];
      acc := AddColumn(acc, p, t);
    }
  }

  /** The plan the settings make for one format. */
  function PlanFor(cfg: Settings, rasterize: (nat, nat) -> Option<Bitmap>, libs: Libraries, fmt: int,
                   encode: Bitmap -> Bitmap): (p: Plan)
    ensures p.repeat > 0 && p.cacheBlocks > 0 && (p.doDecode ==> p.doEncode)
  {
    var threads := Max(1, cfg.rasterThreads);
    Plan(rasterize, libs, fmt, encode, threads,
         if cfg.encodeThreads > 0 then cfg.encodeThreads else threads,
         if cfg.decodeThreads > 0 then cfg.decodeThreads else threads,
         Max(1, cfg.repeat), cfg.encodeEnabled != 0, cfg.encodeEnabled != 0 && cfg.decodeEnabled != 0, cfg.checkEnabled != 0,
         Max(Max(1, cfg.cacheBlocksMin), cfg.cacheBlocksMax))
  }

  /** The totals a format must contribute to the report of a file: nothing if there is no encoder for it. */
  function ReportedTotals(cfg: Settings, ncols: nat, nrows: nat, fmt: int, encoders: map<int, Bitmap -> Bitmap>,
                          libs: Libraries, rasterize: (nat, nat) -> Option<Bitmap>, clocks: nat -> Clock): FormatTotals
  {
    if fmt in encoders then ExpectedFormat(PlanFor(cfg, rasterize, libs, fmt, encoders[fmt]), clocks, ncols, nrows)
    else NOTHING
  }

  /** What a format does to the grid: a full set of rasterize calls and logs within bounds, or nothing at all. */
  ghost predicate FormatRan(p: Option<Plan>, ncols: nat, nrows: nat, calls: seq<(nat, nat)>, columns: seq<seq<WindowRun>>)
    requires p.Some? ==> p.value.cacheBlocks > 0
  {
    if p.Some? then GridCalledOnce(calls, ncols, nrows) && FormatLog(p.value, ncols, nrows, columns)
    else calls == [] && columns == []
  }

  function PlanIfEncoder(cfg: Settings, fmt: int, encoders: map<int, Bitmap -> Bitmap>, libs: Libraries,
                         rasterize: (nat, nat) -> Option<Bitmap>): (p: Option<Plan>)
    ensures p.Some? <==> fmt in encoders
    ensures p.Some? ==> p.value.cacheBlocks > 0
  {
    if fmt in encoders then Some(PlanFor(cfg, rasterize, libs, fmt, encoders[fmt])) else None
  }

  // ---- The report, block by block ----

  /** What is summed up over the blocks of a file. */
  datatype Measure = SourceBytes | EncodedBytes | EncodeTime | DecodeTime

  /** What the blocks of a file go through in one format, apart from the decoder. */
  datatype Work = Work(rasterize: (nat, nat) -> Option<Bitmap>, encode: Bitmap -> Bitmap, clocks: nat -> Clock, repeat: nat)

  /** The elapsed times of the first `reps` calls on one block. */
  function CallTimes(clock: (nat, nat) -> nat, row: nat, reps: nat): nat {
    if reps == 0 then 0 else CallTimes(clock, row, reps - 1) + clock(row, reps - 1)
  }

  predicate HasPixels(b: Bitmap) {
    b.data.Some? && b.width != 0 && b.height != 0
  }

  /** What one block of the grid contributes; one that is missing contributes nothing, and only one that has pixels is
      decoded. */
  function BlockMeasure(m: Measure, g: Work, col: nat, row: nat): nat {
    var b := g.rasterize(col, row);
    if b.None? then 0
    else match m
      case SourceBytes => b.value.dataLength
      case EncodedBytes => g.encode(b.value).dataLength
      case EncodeTime => CallTimes(g.clocks(col).encode, row, g.repeat)
      case DecodeTime => if HasPixels(b.value) then CallTimes(g.clocks(col).decode, row, g.repeat) else 0
  }

  function ColumnSum(m: Measure, g: Work, col: nat, nrows: nat): nat {
    if nrows == 0 then 0 else ColumnSum(m, g, col, nrows - 1) + BlockMeasure(m, g, col, nrows - 1)
  }

  function GridSum(m: Measure, g: Work, ncols: nat, nrows: nat): nat {
    if ncols == 0 then 0 else GridSum(m, g, ncols - 1, nrows) + ColumnSum(m, g, ncols - 1, nrows)
  }

  lemma {:induction false} OneBlockTime(on: bool, clock: (nat, nat) -> nat, row: nat, reps: nat)
    ensures RepeatedTime([on], clock, row, reps) == if on then CallTimes(clock, row, reps) else 0
  {
    if reps > 0 {
      OneBlockTime(on, clock, row, reps - 1);
      var t := TimesWhere([on], Times(clock, row, 1, reps - 1));
      assert t == [if on then clock(row, reps - 1) else 0];
      SumOne(t[0]);
    }
  }

  lemma SumOne(n: nat)
    ensures Sum([n]) == n
  {
    assert [n][1..] == [];
  }

  /** The totals of one block of a column. */
  function BlockTotals(p: Plan, clocks: nat -> Clock, col: nat, row: nat): Totals {
    ExpectedTotals(p, clocks(col), row, Rows(p.rasterize, col, row, 1))
  }

  function WorkOf(p: Plan, clocks: nat -> Clock): Work {
    Work(p.rasterize, p.encode, clocks, p.repeat)
  }

  lemma LengthsOfOne(b: Option<Bitmap>)
    ensures ByteCount([b]) == if b.Some? then b.value.dataLength else 0
  {
    assert Lengths([b]) == [if b.Some? then b.value.dataLength else 0];
    SumOne(Lengths([b])[0]);
  }

  lemma BytesOfOne(p: Plan, clocks: nat -> Clock, col: nat, row: nat)
    ensures var g, t := WorkOf(p, clocks), BlockTotals(p, clocks, col, row);
            && t.source == BlockMeasure(SourceBytes, g, col, row)
            && (p.doEncode ==> t.encoded == p.repeat * BlockMeasure(EncodedBytes, g, col, row))
  {
    var b := p.rasterize(col, row);
    assert Rows(p.rasterize, col, row, 1) == [b];
    LengthsOfOne(b);
    var e := Encoded(p.encode, [b]);
    assert e == [e[0]];
    LengthsOfOne(e[0]);
  }

  lemma TimesOfOne(p: Plan, clocks: nat -> Clock, col: nat, row: nat)
    ensures var g, t := WorkOf(p, clocks), BlockTotals(p, clocks, col, row);
            && (p.doEncode ==> t.encodeCpu == BlockMeasure(EncodeTime, g, col, row))
            && (p.doDecode ==> t.decodeCpu == BlockMeasure(DecodeTime, g, col, row))
  {
    var b := p.rasterize(col, row);
    assert Rows(p.rasterize, col, row, 1) == [b];
    assert Present([b]) == [b.Some?];
    OneBlockTime(b.Some?, clocks(col).encode, row, p.repeat);
    var on := b.Some? && HasPixels(b.value);
    assert Decodable(Digests([b], p.doCheck), Encoded(p.encode, [b])) == [on];
    OneBlockTime(on, clocks(col).decode, row, p.repeat);
  }

  /** The totals of a column, without its verdict, are the sums over its blocks. */
  ghost predicate ColumnSums(p: Plan, clocks: nat -> Clock, col: nat, rows: nat, t: Totals) {
    var g := WorkOf(p, clocks);
    && t.source == ColumnSum(SourceBytes, g, col, rows)
    && (p.doEncode ==> t.encoded == p.repeat * ColumnSum(EncodedBytes, g, col, rows))
    && (p.doEncode ==> t.encodeCpu == ColumnSum(EncodeTime, g, col, rows))
    && (p.doDecode ==> t.decodeCpu == ColumnSum(DecodeTime, g, col, rows))
  }

  lemma ColumnSumsExtended(p: Plan, clocks: nat -> Clock, col: nat, rows: nat, t: Totals, b: Totals)
    requires ColumnSums(p, clocks, col, rows, t) && b == BlockTotals(p, clocks, col, rows)
    ensures ColumnSums(p, clocks, col, rows + 1, Plus(t, b))
  {
    BytesOfOne(p, clocks, col, rows);
    TimesOfOne(p, clocks, col, rows);
    var g := WorkOf(p, clocks);
    Distribute(p.repeat, ColumnSum(EncodedBytes, g, col, rows), BlockMeasure(EncodedBytes, g, col, rows));
  }

  lemma ColumnGrows(p: Plan, clocks: nat -> Clock, col: nat, rows: nat, t: Totals)
    requires rows > 0 && TotalsOf(p, clocks(col), col, rows, t)
    ensures t == Plus(ExpectedTotals(p, clocks(col), 0, Column(p.rasterize, col, rows - 1)), BlockTotals(p, clocks, col, rows - 1))
  {
    var top, last := Column(p.rasterize, col, rows - 1), Rows(p.rasterize, col, rows - 1, 1);
    assert Column(p.rasterize, col, rows) == top + last;
    TotalsConcat(p, clocks(col), top, last);
  }

  lemma {:induction false} ColumnIsSummed(p: Plan, clocks: nat -> Clock, col: nat, rows: nat, t: Totals)
    requires TotalsOf(p, clocks(col), col, rows, t)
    ensures ColumnSums(p, clocks, col, rows, t)
    decreases rows
  {
    if rows == 0 {
      NothingToDo(p, clocks(col), col);
    } else {
      var above := ExpectedTotals(p, clocks(col), 0, Column(p.rasterize, col, rows - 1));
      ColumnIsSummed(p, clocks, col, rows - 1, above);
      ColumnGrows(p, clocks, col, rows, t);
      ColumnSumsExtended(p, clocks, col, rows - 1, above, BlockTotals(p, clocks, col, rows - 1));
    }
  }

  /** A number added up so many times. */
  function TimesOver(x: real, n: nat): real {
    if n == 0 then 0.0 else TimesOver(x, n - 1) + x
  }

  lemma {:induction false} TimesOverIs(x: real, n: nat)
    ensures TimesOver(x, n) == x * n as real
  {
    if n > 0 {
      TimesOverIs(x, n - 1);
    }
  }

  lemma {:induction false} AverageUndone(n: nat, repeat: nat)
    requires repeat > 0
    ensures TimesOver(Average(n, repeat), repeat) == n as real
  {
    TimesOverIs(Average(n, repeat), repeat);
  }

  lemma {:induction false} TimesOverSum(x: real, y: real, n: nat)
    ensures TimesOver(x + y, n) == TimesOver(x, n) + TimesOver(y, n)
  {
    if n > 0 {
      TimesOverSum(x, y, n - 1);
    }
  }

  /** The totals of a format are sums over the grid; times the number of repeats, its averages are again the totals. */
  ghost predicate GridSums(p: Plan, clocks: nat -> Clock, ncols: nat, nrows: nat, t: FormatTotals) {
    var g := WorkOf(p, clocks);
    && t.source == GridSum(SourceBytes, g, ncols, nrows)
    && t.encoded == (if p.doEncode then GridSum(EncodedBytes, g, ncols, nrows) as real else 0.0)
    && TimesOver(t.encodeCpu, p.repeat) == (if p.doEncode then GridSum(EncodeTime, g, ncols, nrows) as real else 0.0)
    && TimesOver(t.decodeCpu, p.repeat) == (if p.doDecode then GridSum(DecodeTime, g, ncols, nrows) as real else 0.0)
  }

  lemma {:induction false} TimeAdded(on: bool, acc: real, sum: nat, n: nat, repeat: nat)
    requires repeat > 0 && TimesOver(acc, repeat) == if on then sum as real else 0.0
    ensures TimesOver(acc + (if on then Average(n, repeat) else 0.0), repeat) == if on then (sum + n) as real else 0.0
  {
    if on {
      AverageUndone(n, repeat);
      TimesOverSum(acc, Average(n, repeat), repeat);
    }
  }

  lemma BytesAdded(on: bool, acc: real, sum: nat, n: nat, total: nat, repeat: nat)
    requires repeat > 0 && acc == if on then sum as real else 0.0
    requires on ==> total == repeat * n
    ensures acc + (if on then Average(total, repeat) else 0.0) == if on then (sum + n) as real else 0.0
  {
    AverageOfRepeats(repeat, n);
  }

  lemma GridSumsExtended(p: Plan, clocks: nat -> Clock, col: nat, nrows: nat, acc: FormatTotals, t: Totals)
    requires p.repeat > 0 && GridSums(p, clocks, col, nrows, acc) && ColumnSums(p, clocks, col, nrows, t)
    ensures GridSums(p, clocks, col + 1, nrows, AddColumn(acc, p, t))
  {
    var g := WorkOf(p, clocks);
    BytesAdded(p.doEncode, acc.encoded, GridSum(EncodedBytes, g, col, nrows), ColumnSum(EncodedBytes, g, col, nrows),
      t.encoded, p.repeat);
    TimeAdded(p.doEncode, acc.encodeCpu, GridSum(EncodeTime, g, col, nrows), t.encodeCpu, p.repeat);
    TimeAdded(p.doDecode, acc.decodeCpu, GridSum(DecodeTime, g, col, nrows), t.decodeCpu, p.repeat);
  }

  /** What a format reports is summed over all blocks of the file, each counted once. */
  lemma {:induction false} FormatIsSummed(p: Plan, clocks: nat -> Clock, ncols: nat, nrows: nat)
    requires p.repeat > 0
    ensures GridSums(p, clocks, ncols, nrows, ExpectedFormat(p, clocks, ncols, nrows))
  {
    if ncols == 0 {
      TimesOverIs(0.0, p.repeat);
    } else {
      var t := ExpectedTotals(p, clocks(ncols - 1), 0, Column(p.rasterize, ncols - 1, nrows));
      FormatIsSummed(p, clocks, ncols - 1, nrows);
      ColumnIsSummed(p, clocks, ncols - 1, nrows, t);
      GridSumsExtended(p, clocks, ncols - 1, nrows, ExpectedFormat(p, clocks, ncols - 1, nrows), t);
    }
  }

  /** A block with pixels whose encoding does not decode, or decodes to bytes with another hash. */
  predicate BlockFails(libs: Libraries, fmt: int, encode: Bitmap -> Bitmap, block: Option<Bitmap>) {
    block.Some? && HasPixels(block.value) &&
    var b := block.value;
    var d := DecodeFresh(libs, fmt, DigestOf(b, true), encode(b));
    !d.ok || Digest(d.dst[..b.dataLength]) != Digest(b.data.value[..b.dataLength])
  }

  /** What a format must report of a file, said of the settings and the blocks alone. */
  ghost predicate IsReport(cfg: Settings, ncols: nat, nrows: nat, fmt: int, encode: Bitmap -> Bitmap, libs: Libraries,
                           rasterize: (nat, nat) -> Option<Bitmap>, clocks: nat -> Clock, t: FormatTotals)
  {
    var repeat := if cfg.repeat < 1 then 1 else cfg.repeat;
    var g := Work(rasterize, encode, clocks, repeat);
    var encodes, decodes := cfg.encodeEnabled != 0, cfg.encodeEnabled != 0 && cfg.decodeEnabled != 0;
    && t.source == GridSum(SourceBytes, g, ncols, nrows)
    && t.encoded == (if encodes then GridSum(EncodedBytes, g, ncols, nrows) as real else 0.0)
    && TimesOver(t.encodeCpu, repeat) == (if encodes then GridSum(EncodeTime, g, ncols, nrows) as real else 0.0)
    && TimesOver(t.decodeCpu, repeat) == (if decodes then GridSum(DecodeTime, g, ncols, nrows) as real else 0.0)
    && (!t.ok <==> decodes && cfg.checkEnabled != 0 && fmt != 0xF &&
                   exists col: nat, row: nat :: col < ncols && row < nrows && BlockFails(libs, fmt, encode, rasterize(col, row)))
  }

  lemma FailsUnlessMet(p: Plan, col: nat, row: nat)
    ensures BlockFails(p.libs, p.fmt, p.encode, p.rasterize(col, row)) <==> !BlockMet(p, col, row)
  {
  }

  lemma SomeFailsUnlessMet(p: Plan, ncols: nat, nrows: nat)
    ensures FileMet(p, ncols, nrows) <==>
            !exists col: nat, row: nat :: col < ncols && row < nrows && BlockFails(p.libs, p.fmt, p.encode, p.rasterize(col, row))
  {
    forall col: nat, row: nat ensures BlockFails(p.libs, p.fmt, p.encode, p.rasterize(col, row)) <==> !BlockMet(p, col, row) {
      FailsUnlessMet(p, col, row);
    }
  }

  lemma PlanSaysSo(cfg: Settings, rasterize: (nat, nat) -> Option<Bitmap>, libs: Libraries, fmt: int, encode: Bitmap -> Bitmap,
                   clocks: nat -> Clock)
    ensures var p := PlanFor(cfg, rasterize, libs, fmt, encode);
            && WorkOf(p, clocks) == Work(rasterize, encode, clocks, if cfg.repeat < 1 then 1 else cfg.repeat)
            && (p.doEncode <==> cfg.encodeEnabled != 0)
            && (p.doDecode <==> cfg.encodeEnabled != 0 && cfg.decodeEnabled != 0)
            && (p.doCheck <==> cfg.checkEnabled != 0)
            && p.libs == libs && p.fmt == fmt
  {
  }

  lemma VerdictIsExact(p: Plan, clocks: nat -> Clock, ncols: nat, nrows: nat)
    requires p.repeat > 0
    ensures !ExpectedFormat(p, clocks, ncols, nrows).ok <==>
            p.doDecode && p.doCheck && p.fmt != 0xF &&
            exists col: nat, row: nat :: col < ncols && row < nrows && BlockFails(p.libs, p.fmt, p.encode, p.rasterize(col, row))
  {
    FormatVerdict(p, clocks, ncols, nrows);
    SomeFailsUnlessMet(p, ncols, nrows);
  }

  /** The plan made from the settings leads to that report. */
  lemma ReportIsExact(cfg: Settings, ncols: nat, nrows: nat, fmt: int, encode: Bitmap -> Bitmap, libs: Libraries,
                      rasterize: (nat, nat) -> Option<Bitmap>, clocks: nat -> Clock, t: FormatTotals)
    requires t == ExpectedFormat(PlanFor(cfg, rasterize, libs, fmt, encode), clocks, ncols, nrows)
    ensures IsReport(cfg, ncols, nrows, fmt, encode, libs, rasterize, clocks, t)
  {
    var p := PlanFor(cfg, rasterize, libs, fmt, encode);
    PlanSaysSo(cfg, rasterize, libs, fmt, encode, clocks);
    FormatIsSummed(p, clocks, ncols, nrows);
    VerdictIsExact(p, clocks, ncols, nrows);
  }

  /** The same for a format that may have no encoder; nothing is reported of one that has none. */
  ghost predicate Reported(cfg: Settings, ncols: nat, nrows: nat, fmt: int, encoders: map<int, Bitmap -> Bitmap>, libs: Libraries,
                           rasterize: (nat, nat) -> Option<Bitmap>, clocks: nat -> Clock, t: FormatTotals)
  {
    if fmt in encoders then IsReport(cfg, ncols, nrows, fmt, encoders[fmt], libs, rasterize, clocks, t)
    else t == FormatTotals(0, 0.0, 0.0, 0.0, true)
  }

  lemma TotalsAreReported(cfg: Settings, ncols: nat, nrows: nat, fmt: int, encoders: map<int, Bitmap -> Bitmap>, libs: Libraries,
                          rasterize: (nat, nat) -> Option<Bitmap>, clocks: nat -> Clock, t: FormatTotals)
    requires t == ReportedTotals(cfg, ncols, nrows, fmt, encoders, libs, rasterize, clocks)
    ensures Reported(cfg, ncols, nrows, fmt, encoders, libs, rasterize, clocks, t)
  {
    if fmt in encoders {
      ReportIsExact(cfg, ncols, nrows, fmt, encoders[fmt], libs, rasterize, clocks, t);
    }
  }

  /** One file in all formats. `calls` lists the rasterize calls made for each format, `logs` what was alive meanwhile. */
  method RunFile(cfg: Settings, imgW: nat, imgH: nat, stripWidth: nat, blockLine: nat, fmts: seq<int>,
                 encoders: map<int, Bitmap -> Bitmap>, libs: Libraries, rasterize: (nat, nat) -> Option<Bitmap>,
                 clocks: nat -> nat -> Clock)
    returns (facc: seq<FormatTotals>, ghost calls: seq<seq<(nat, nat)>>, ghost logs: seq<seq<seq<WindowRun>>>)
    requires stripWidth > 0 && blockLine > 0
    ensures |facc| == |calls| == |logs| == |fmts|
    ensures forall fi: nat :: fi < |fmts| ==>
              Reported(cfg, BlockCount(imgW, stripWidth), BlockCount(imgH, blockLine), fmts[fi], encoders,
                       libs, rasterize, clocks(fi), facc[fi])
    ensures forall fi: nat :: fi < |fmts| ==>
              facc[fi] == ReportedTotals(cfg, BlockCount(imgW, stripWidth), BlockCount(imgH, blockLine), fmts[fi], encoders,
                                         libs, rasterize, clocks(fi))
    ensures forall fi: nat :: fi < |fmts| ==>
              FormatRan(PlanIfEncoder(cfg, fmts[fi], encoders, libs, rasterize),
                        BlockCount(imgW, stripWidth), BlockCount(imgH, blockLine), calls[fi], logs[fi])
  {
    var ncols, nrows := BlockCount(imgW, stripWidth), BlockCount(imgH, blockLine);
    facc := seq(|fmts|, _ => NOTHING);
    calls, logs := [], [];
    for fi := 0 to |fmts|
      invariant |facc| == |fmts| && |calls| == |logs| == fi
      invariant forall f: nat :: f < fi ==>
                  facc[f] == ReportedTotals(cfg, ncols, nrows, fmts[f], encoders, libs, rasterize, clocks(f))
      invariant forall f: nat :: f < fi ==>
                  FormatRan(PlanIfEncoder(cfg, fmts[f], encoders, libs, rasterize), ncols, nrows, calls[f], logs[f])
      invariant forall f :: fi <= f < |fmts| ==> facc[f] == NOTHING
    {
      if fmts[fi] !in encoders {
        calls, logs := calls + [[]], logs + [[]];
        continue;
      }
      var p := PlanFor(cfg, rasterize, libs, fmts[fi], encoders[fmts[fi]]);
      var acc, formatCalls, columns := RunFormat(p, clocks(fi), ncols, nrows);
      facc := facc[fi := acc];
      calls, logs := calls + [formatCalls], logs + [columns];
    }
    forall fi: nat | fi < |fmts|
      ensures Reported(cfg, ncols, nrows, fmts[fi], encoders, libs, rasterize, clocks(fi), facc[fi])
    {
      TotalsAreReported(cfg, ncols, nrows, fmts[fi], encoders, libs, rasterize, clocks(fi), facc[fi]);
    }
  }

  /** At no moment of a format's run are more uncompressed blocks alive than a window may hold, nor more decode buffers
      than that or than there are workers, and bitmaps and decode buffers are never alive together. */
  lemma FootprintBounded(p: Plan, ncols: nat, nrows: nat, columns: seq<seq<WindowRun>>, col: nat, w: nat, at: nat)
    requires p.cacheBlocks > 0 && FormatLog(p, ncols, nrows, columns)
    requires col < |columns| && w < |columns[col]| && at < |columns[col][w].moments|
    ensures var m := columns[col][w].moments[at];
            && m.bitmaps <= p.cacheBlocks && m.buffers <= BufferBound(p.doCheck, p.cacheBlocks)
            && (m.bitmaps == 0 || m.buffers == 0)
  {
    assert ColumnLog(p, col, nrows, columns[col]);
    LoggedWindow(p, col, nrows, columns[col], w);
  }

  /** Every pixel of the image is rasterized exactly once by a format: in one call, whose block contains it. */
  lemma EveryPixelOnce(imgW: nat, imgH: nat, width: nat, height: nat, calls: seq<(nat, nat)>, x: nat, y: nat, col: nat, row: nat)
    requires width > 0 && height > 0 && x < imgW && y < imgH
    requires GridCalledOnce(calls, BlockCount(imgW, width), BlockCount(imgH, height))
    ensures InBlock(col, row, width, height, x, y) <==> col == x / width && row == y / height
    ensures InBlock(col, row, width, height, x, y) ==> multiset(calls)[(col, row)] == 1
  {
    OnlyQuotient(x, width, col);
    OnlyQuotient(y, height, row);
    QuotientBounds(x, width);
    QuotientBounds(y, height);
    BlockCountCovers(imgW, width, x / width);
    BlockCountCovers(imgH, height, y / height);
  }

  /** For any settings: the footprint of a file is bounded by the largest window they ask for, and ten decode buffers
      do when the check is off. */
  lemma FileFootprint(cfg: Settings, fmt: int, encoders: map<int, Bitmap -> Bitmap>, libs: Libraries,
                      rasterize: (nat, nat) -> Option<Bitmap>, ncols: nat, nrows: nat, calls: seq<(nat, nat)>,
                      columns: seq<seq<WindowRun>>, col: nat, w: nat, at: nat, window: int)
    requires FormatRan(PlanIfEncoder(cfg, fmt, encoders, libs, rasterize), ncols, nrows, calls, columns)
    requires col < |columns| && w < |columns[col]| && at < |columns[col][w].moments|
    requires window >= 1 && window >= cfg.cacheBlocksMin && window >= cfg.cacheBlocksMax
    ensures var m := columns[col][w].moments[at];
            && m.bitmaps <= window && m.buffers <= (if cfg.checkEnabled != 0 then window else 10)
            && (m.bitmaps == 0 || m.buffers == 0)
  {
    var p := PlanIfEncoder(cfg, fmt, encoders, libs, rasterize);
    FootprintBounded(p.value, ncols, nrows, columns, col, w, at);
  }

  /** Once per repeat, and never more, each block there is is encoded and each block with pixels decoded, in every
      window of the file; with the switches off none is. */
  lemma BlocksCoded(cfg: Settings, fmt: int, encoders: map<int, Bitmap -> Bitmap>, libs: Libraries,
                    rasterize: (nat, nat) -> Option<Bitmap>, ncols: nat, nrows: nat, calls: seq<(nat, nat)>,
                    columns: seq<seq<WindowRun>>, col: nat, w: nat, local: nat)
    requires FormatRan(PlanIfEncoder(cfg, fmt, encoders, libs, rasterize), ncols, nrows, calls, columns)
    requires col < |columns| && w < |columns[col]| && columns[col][w].row0 + local < columns[col][w].end
    ensures var run, repeat := columns[col][w], if cfg.repeat < 1 then 1 else cfg.repeat;
            var block := rasterize(col, run.row0 + local);
            var encodes, decodes := cfg.encodeEnabled != 0, cfg.encodeEnabled != 0 && cfg.decodeEnabled != 0;
            && multiset(run.encodes)[local] == (if encodes && block.Some? then repeat else 0)
            && multiset(run.decodes)[local] == (if decodes && block.Some? && HasPixels(block.value) then repeat else 0)
  {
    CallsInWindow(PlanIfEncoder(cfg, fmt, encoders, libs, rasterize).value, ncols, nrows, columns, col, w, local);
  }

  lemma CallsInWindow(p: Plan, ncols: nat, nrows: nat, columns: seq<seq<WindowRun>>, col: nat, w: nat, local: nat)
    requires p.cacheBlocks > 0 && FormatLog(p, ncols, nrows, columns)
    requires col < |columns| && w < |columns[col]| && columns[col][w].row0 + local < columns[col][w].end
    ensures var run := columns[col][w];
            var block := p.rasterize(col, run.row0 + local);
            && multiset(run.encodes)[local] == (if p.doEncode && block.Some? then p.repeat else 0)
            && multiset(run.decodes)[local] == (if p.doDecode && block.Some? && HasPixels(block.value) then p.repeat else 0)
  {
    var run := columns[col][w];
    assert ColumnLog(p, col, nrows, columns[col]);
    LoggedWindow(p, col, nrows, columns[col], w);
    CallsOfBlock(p, col, run.row0, run.end - run.row0, run.encodes, run.decodes, local);
  }

  lemma CallsOfBlock(p: Plan, col: nat, row0: nat, nwin: nat, encodes: seq<nat>, decodes: seq<nat>, local: nat)
    requires CodecCalls(p, col, row0, nwin, encodes, decodes) && local < nwin
    ensures var block := p.rasterize(col, row0 + local);
            && multiset(encodes)[local] == (if p.doEncode && block.Some? then p.repeat else 0)
            && multiset(decodes)[local] == (if p.doDecode && block.Some? && HasPixels(block.value) then p.repeat else 0)
  {
  }

  /** What the range checks make of the thread counts, and the defaults applied per file of zero counts. */
  lemma ThreadsInRange(cfg: Settings, rasterize: (nat, nat) -> Option<Bitmap>, libs: Libraries, fmt: int,
                       encode: Bitmap -> Bitmap)
    ensures var p := PlanFor(Clamped(cfg), rasterize, libs, fmt, encode);
            && 1 <= p.rasterThreads <= 10 && 1 <= p.encodeThreads <= 10 && 1 <= p.decodeThreads <= 10
            && (1 <= cfg.rasterThreads <= 10 ==> p.rasterThreads == cfg.rasterThreads)
            && (1 <= cfg.encodeThreads <= 10 ==> p.encodeThreads == cfg.encodeThreads)
            && (1 <= cfg.decodeThreads <= 10 ==> p.decodeThreads == cfg.decodeThreads)
            && (cfg.rasterThreads < 1 ==> p.rasterThreads == 1)
            && (cfg.encodeThreads < 1 ==> p.encodeThreads == p.rasterThreads)
            && (cfg.decodeThreads < 1 ==> p.decodeThreads == p.rasterThreads)
            && (cfg.rasterThreads > 10 ==> p.rasterThreads == 10)
            && (cfg.encodeThreads > 10 ==> p.encodeThreads == 10)
            && (cfg.decodeThreads > 10 ==> p.decodeThreads == 10)
  {
  }

  /** The window is the largest of 1 and the two settings; switches and repeats pass the range checks as they are, a
      phase is on when its switches are not zero, and checking the ranges again changes nothing. */
  lemma SettingsInRange(cfg: Settings, rasterize: (nat, nat) -> Option<Bitmap>, libs: Libraries, fmt: int,
                        encode: Bitmap -> Bitmap)
    ensures var c := Clamped(cfg);
            var p := PlanFor(c, rasterize, libs, fmt, encode);
            && Clamped(c) == c
            && p.cacheBlocks >= 1 && p.cacheBlocks >= cfg.cacheBlocksMin && p.cacheBlocks >= cfg.cacheBlocksMax
            && (p.cacheBlocks == 1 || p.cacheBlocks == cfg.cacheBlocksMin || p.cacheBlocks == cfg.cacheBlocksMax)
            && p.cacheBlocks == PlanFor(cfg, rasterize, libs, fmt, encode).cacheBlocks
            && p.repeat >= 1 && p.repeat >= cfg.repeat && (p.repeat == 1 || p.repeat == cfg.repeat)
            && (p.doEncode <==> cfg.encodeEnabled != 0)
            && (p.doDecode <==> cfg.encodeEnabled != 0 && cfg.decodeEnabled != 0)
            && (p.doCheck <==> cfg.checkEnabled != 0)
  {
  }

  // ---- What the report does and does not depend on ----

  /** Source bytes are the same whatever the format, codec, switches, repeats, threads and window size. */
  lemma {:induction false} InputIdentity(p: Plan, q: Plan, clocks: nat -> Clock, clocks': nat -> Clock, ncols: nat, nrows: nat)
    requires p.repeat > 0 && q.repeat > 0 && p.rasterize == q.rasterize
    ensures ExpectedFormat(p, clocks, ncols, nrows).source == ExpectedFormat(q, clocks', ncols, nrows).source
  {
    if ncols > 0 {
      InputIdentity(p, q, clocks, clocks', ncols - 1, nrows);
    }
  }

  lemma AverageOfRepeats(repeat: nat, n: nat)
    requires repeat > 0
    ensures Average(repeat * n, repeat) == n as real
  {
    assert (repeat * n) as real == repeat as real * n as real;
  }

  /** Averaging over the repeats gives the encoded size of one pass, however many repeats there were. */
  lemma EncodedBytesIgnoreRepeat(p: Plan, clocks: nat -> Clock, ncols: nat, nrows: nat)
    requires p.repeat > 0 && p.doEncode
    ensures ExpectedFormat(p, clocks, ncols, nrows).encoded == GridSum(EncodedBytes, WorkOf(p, clocks), ncols, nrows) as real
  {
    FormatIsSummed(p, clocks, ncols, nrows);
  }

  /** A block's digest is met by what its encoding decodes to; blocks without pixels have nothing to meet. */
  predicate BlockMet(p: Plan, col: nat, row: nat) {
    var block := p.rasterize(col, row);
    block.Some? && Digestible(block.value) ==>
      DigestMet(p.libs, p.fmt, DigestOf(block.value, true), Some(p.encode(block.value)))
  }

  predicate ColumnMet(p: Plan, col: nat, nrows: nat) {
    forall row: nat :: row < nrows ==> BlockMet(p, col, row)
  }

  predicate FileMet(p: Plan, ncols: nat, nrows: nat) {
    forall col: nat, row: nat :: col < ncols && row < nrows ==> BlockMet(p, col, row)
  }

  lemma LastColumn(p: Plan, ncols: nat, nrows: nat)
    requires ncols > 0
    ensures FileMet(p, ncols, nrows) <==> FileMet(p, ncols - 1, nrows) && ColumnMet(p, ncols - 1, nrows)
  {
  }

  lemma ColumnVerdict(p: Plan, col: nat, nrows: nat)
    requires p.doCheck && p.fmt != BROTLI
    ensures BlocksPass(p.libs, p.fmt, p.encode, Column(p.rasterize, col, nrows), true) <==>
            ColumnMet(p, col, nrows)
  {
    var blocks := Column(p.rasterize, col, nrows);
    var d, e := Digests(blocks, true), Encoded(p.encode, blocks);
    assert forall row: nat :: row < nrows ==> (d[row].valid <==> blocks[row].Some? && Digestible(blocks[row].value));
    if BlocksPass(p.libs, p.fmt, p.encode, blocks, true) {
      forall row: nat | row < nrows ensures BlockMet(p, col, row) {
        assert d[row].valid ==> DigestMet(p.libs, p.fmt, d[row], e[row]);
      }
    }
    if ColumnMet(p, col, nrows) {
      forall row | 0 <= row < nrows && d[row].valid ensures DigestMet(p.libs, p.fmt, d[row], e[row]) {
        assert BlockMet(p, col, row);
      }
    }
  }

  /** The OK flag of a format is exact: with the check on it says that every block of the file is met. */
  lemma {:induction false} FormatVerdict(p: Plan, clocks: nat -> Clock, ncols: nat, nrows: nat)
    requires p.repeat > 0
    ensures ExpectedFormat(p, clocks, ncols, nrows).ok <==>
            (p.doDecode && p.doCheck && p.fmt != BROTLI ==> FileMet(p, ncols, nrows))
  {
    if ncols > 0 {
      FormatVerdict(p, clocks, ncols - 1, nrows);
      LastColumn(p, ncols, nrows);
      if p.doCheck && p.fmt != BROTLI {
        ColumnVerdict(p, ncols - 1, nrows);
      }
    }
  }

  /** A format reported OK with the check on has reproduced every block, up to damage spread over at least five bytes. */
  lemma OkMeansClose(p: Plan, clocks: nat -> Clock, ncols: nat, nrows: nat, col: nat, row: nat)
    requires p.repeat > 0 && p.doDecode && p.doCheck && p.fmt != BROTLI
    requires ExpectedFormat(p, clocks, ncols, nrows).ok && col < ncols && row < nrows
    requires p.rasterize(col, row).Some? && Digestible(p.rasterize(col, row).value)
    ensures var b := p.rasterize(col, row).value;
            var d := DecodeFresh(p.libs, p.fmt, DigestOf(b, true), p.encode(b));
            d.ok && EqualOrFarApart(Bytes(b), d.dst[..b.dataLength])
  {
    FormatVerdict(p, clocks, ncols, nrows);
    assert BlockMet(p, col, row);
    var b := p.rasterize(col, row).value;
    EqualDigests(Bytes(b), DecodeFresh(p.libs, p.fmt, DigestOf(b, true), p.encode(b)).dst[..b.dataLength]);
  }

  /** A codec that undoes itself on every block of the file is reported OK. */
  lemma FaithfulCodecIsOk(p: Plan, clocks: nat -> Clock, ncols: nat, nrows: nat)
    requires p.repeat > 0
    requires forall col: nat, row: nat ::
               col < ncols && row < nrows && p.rasterize(col, row).Some? && Digestible(p.rasterize(col, row).value) ==>
                 RoundTrips(p.libs, p.fmt, p.encode, p.rasterize(col, row).value)
    ensures ExpectedFormat(p, clocks, ncols, nrows).ok
  {
    FormatVerdict(p, clocks, ncols, nrows);
  }
}
