/** Seekable compression: data is cut into frames that are compressed one by one,
    and a seek table says where each frame lies.

    The compressor is a parameter.  Decoding is assumed to undo encoding; that a cut-off
    encoding does not decode to the whole is assumed only where it says so.  Table sizes
    are 32-bit and wrap as the casts in the code do. */
module SeekableFrames {
  import opened Basics

  datatype Codec = Codec(encode: Bytes -> Bytes, decode: Bytes -> Option<Bytes>)

  ghost predicate Faithful(c: Codec)
  {
    forall x :: c.decode(c.encode(x)) == Some(x)
  }

  datatype SeekEntry = SeekEntry(uncompressedSize: nat, compressedSize: nat, compressedOffset: nat)

  datatype Blob = Blob(compressed: Bytes, table: seq<SeekEntry>)

  /** What decoding gives: data, a decoder error, or a slice out of bounds. */
  datatype Decoded = Data(bytes: Bytes) | DecodeError | OutOfBounds

  const U32_RANGE: nat := 0x1_0000_0000

  /** A length cast to 32 bits: whole multiples of the range are dropped. */
  function U32(n: nat): (r: nat)
    ensures r < U32_RANGE && r <= n
    ensures r == n <==> n < U32_RANGE
  {
    if n < U32_RANGE then n else U32(n - U32_RANGE)
  }

  // ---- Compressing ----

  /** Consecutive frames of at most `n` bytes; only the last may be shorter. */
  function Frames(data: Bytes, n: nat): seq<Bytes>
    requires 0 < n
    decreases |data|
  {
    if data == [] then [] else
      var k := Min(n, |data|);
      [data[..k]] + Frames(data[k..], n)
  }

  function BlobOf(c: Codec, frames: seq<Bytes>): Blob
  {
    if frames == [] then Blob([], []) else
      var b := BlobOf(c, frames[..|frames| - 1]);
      var plain := frames[|frames| - 1];
      var frame := c.encode(plain);
      Blob(b.compressed + frame,
           b.table + [SeekEntry(U32(|plain|), U32(|frame|), |b.compressed|)])
  }

  function Compressed(c: Codec, data: Bytes, frameSize: nat): Blob
  {
    BlobOf(c, Frames(data, Max(frameSize, 1)))
  }

  lemma {:induction false} BlobAppend(c: Codec, frames: seq<Bytes>, plain: Bytes)
    ensures var b, frame := BlobOf(c, frames), c.encode(plain);
            BlobOf(c, frames + [plain]) ==
            Blob(b.compressed + frame, b.table + [SeekEntry(U32(|plain|), U32(|frame|), |b.compressed|)])
  {
    assert (frames + [plain])[..|frames|] == frames;
  }

  /** Cutting one more frame off what is left of the data. */
  lemma CutNext(data: Bytes, n: nat, cut: seq<Bytes>, pos: nat, k: nat)
    requires 0 < n && pos < |data| && k == Min(n, |data| - pos)
    requires Frames(data, n) == cut + Frames(data[pos..], n)
    ensures Frames(data, n) == cut + [data[pos..pos + k]] + Frames(data[pos + k..], n)
  {
    assert data[pos..][..k] == data[pos..pos + k] && data[pos..][k..] == data[pos + k..];
  }

  method Compress(c: Codec, data: Bytes, frameSize: nat) returns (blob: Blob)
    ensures blob == Compressed(c, data, frameSize)
  {
    var n := Max(frameSize, 1);
    var compressed: Bytes := [];
    var table: seq<SeekEntry> := [];
    var pos := 0;
    ghost var cut: seq<Bytes> := [];
    assert data[0..] == data;
    while pos < |data|
      invariant 0 <= pos <= |data|
      invariant Frames(data, n) == cut + Frames(data[pos..], n)
      invariant Blob(compressed, table) == BlobOf(c, cut)
    {
      var k := Min(n, |data| - pos);
      var chunk := data[pos..pos + k];
      var frame := c.encode(chunk);
      CutNext(data, n, cut, pos, k);
      BlobAppend(c, cut, chunk);
      table := table + [SeekEntry(U32(|chunk|), U32(|frame|), |compressed|)];
      compressed := compressed + frame;
      cut := cut + [chunk];
      pos := pos + k;
    }
    assert data[pos..] == [];
    assert cut + [] == cut;
    blob := Blob(compressed, table);
  }

  lemma {:induction false} FramesCoverData(data: Bytes, n: nat)
    requires 0 < n
    ensures FlattenFront(Frames(data, n)) == data
    ensures forall i | 0 <= i < |Frames(data, n)| :: 0 < |Frames(data, n)[i]| <= n
    decreases |data|
  {
    if data != [] {
      var k := Min(n, |data|);
      FramesCoverData(data[k..], n);
      assert data[..k] + data[k..] == data;
      assert Frames(data, n)[1..] == Frames(data[k..], n);
    }
  }

  /** The same as `Flatten`, taken from the front. */
  function FlattenFront(pieces: seq<Bytes>): Bytes
  {
    if pieces == [] then [] else pieces[0] + FlattenFront(pieces[1..])
  }

  lemma {:induction false} FlattenBothWays(pieces: seq<Bytes>)
    ensures FlattenFront(pieces) == Flatten(pieces)
  {
    if pieces != [] {
      var n := |pieces| - 1;
      if n == 0 {
        assert pieces[1..] == [] && pieces[..0] == [];
      } else {
        FlattenBothWays(pieces[1..]);
        FlattenBothWays(pieces[..n]);
        FlattenBothWays(pieces[1..n]);
        assert pieces[1..][..n - 1] == pieces[1..n];
        assert pieces[..n][1..] == pieces[1..n];
      }
    }
  }

  lemma FramesFlatten(data: Bytes, n: nat)
    requires 0 < n
    ensures Flatten(Frames(data, n)) == data
  {
    FramesCoverData(data, n);
    FlattenBothWays(Frames(data, n));
  }

  /** Cutting into frames: laid end to end they are the data, all but the last have exactly the frame size, and the
      last has some of it. */
  lemma {:induction false} FramesAreEven(data: Bytes, n: nat)
    requires 0 < n
    ensures var frames := Frames(data, n);
            && Flatten(frames) == data
            && (forall i | 0 <= i < |frames| - 1 :: |frames[i]| == n)
            && (frames != [] ==> 0 < |frames[|frames| - 1]| <= n)
    decreases |data|
  {
    FramesFlatten(data, n);
    if data != [] {
      var k := Min(n, |data|);
      FramesAreEven(data[k..], n);
      assert k < n ==> data[k..] == [];
    }
  }

  // ---- The seek table ----

  /** Every encoded frame is short enough for its 32-bit size. */
  ghost predicate EncodedFit(c: Codec, frames: seq<Bytes>)
  {
    forall i | 0 <= i < |frames| :: |c.encode(frames[i])| < U32_RANGE
  }

  ghost predicate PlainFit(frames: seq<Bytes>)
  {
    forall i | 0 <= i < |frames| :: |frames[i]| < U32_RANGE
  }

  function Encoded(c: Codec, frames: seq<Bytes>): (r: seq<Bytes>)
    ensures |r| == |frames|
    ensures forall i | 0 <= i < |frames| :: r[i] == c.encode(frames[i])
  {
    if frames == [] then [] else Encoded(c, frames[..|frames| - 1]) + [c.encode(frames[|frames| - 1])]
  }

  lemma EncodedPrefix(c: Codec, frames: seq<Bytes>, i: nat)
    requires i <= |frames|
    ensures Encoded(c, frames)[..i] == Encoded(c, frames[..i])
  {
  }

  /** Entry `i` records the sizes of frame `i` and, as offset, the exact sum of the earlier encoded sizes. */
  lemma {:induction false} SeekTableExact(c: Codec, frames: seq<Bytes>, i: nat)
    requires i < |frames|
    ensures var b := BlobOf(c, frames);
            && |b.table| == |frames|
            && b.compressed == Flatten(Encoded(c, frames))
            && b.table[i] == SeekEntry(U32(|frames[i]|), U32(|c.encode(frames[i])|),
                                       Offset(Encoded(c, frames), i))
  {
    var n := |frames| - 1;
    var front := frames[..n];
    EncodedPrefix(c, frames, n);
    if front != [] {
      SeekTableExact(c, front, if i < n then i else 0);
    }
    if i < n {
      assert front[i] == frames[i];
      assert Encoded(c, front)[..i] == Encoded(c, frames)[..i];
    }
  }

  lemma {:induction false} BlobLength(c: Codec, frames: seq<Bytes>)
    ensures |BlobOf(c, frames).table| == |frames|
  {
    if frames != [] {
      SeekTableExact(c, frames, 0);
    }
  }

  // ---- Decompressing ----

  function DecodeFrame(c: Codec, b: Blob, e: SeekEntry): Decoded
  {
    if |b.compressed| < e.compressedOffset + e.compressedSize then OutOfBounds else
      match c.decode(b.compressed[e.compressedOffset..e.compressedOffset + e.compressedSize])
      case Some(plain) => Data(plain)
      case None => DecodeError
  }

  function DecodeAll(c: Codec, b: Blob, n: nat): Decoded
    requires n <= |b.table|
  {
    if n == 0 then Data([]) else
      match DecodeAll(c, b, n - 1)
      case Data(out) =>
        (match DecodeFrame(c, b, b.table[n - 1])
         case Data(plain) => Data(out + plain)
         case bad => bad)
      case bad => bad
  }

  lemma {:induction false} DecodeFailurePersists(c: Codec, b: Blob, k: nat, n: nat)
    requires k <= n <= |b.table| && !DecodeAll(c, b, k).Data?
    ensures DecodeAll(c, b, n) == DecodeAll(c, b, k)
  {
    if k < n {
      DecodeFailurePersists(c, b, k, n - 1);
    }
  }

  method DecompressAll(c: Codec, b: Blob) returns (r: Decoded)
    ensures r == DecodeAll(c, b, |b.table|)
  {
    var out: Bytes := [];
    var i := 0;
    while i < |b.table|
      invariant 0 <= i <= |b.table|
      invariant DecodeAll(c, b, i) == Data(out)
    {
      match DecodeFrame(c, b, b.table[i]) {
        case Data(plain) =>
          out := out + plain;
        case DecodeError =>
          DecodeFailurePersists(c, b, i + 1, |b.table|);
          return DecodeError;
        case OutOfBounds =>
          DecodeFailurePersists(c, b, i + 1, |b.table|);
          return OutOfBounds;
      }
      i := i + 1;
    }
    r := Data(out);
  }

  /** An entry whose size did not wrap points at exactly its encoded frame. */
  lemma EntryLocatesFrame(c: Codec, frames: seq<Bytes>, i: nat)
    requires EncodedFit(c, frames) && i < |frames|
    ensures var b := BlobOf(c, frames);
            && |b.table| == |frames|
            && b.table[i].compressedOffset + b.table[i].compressedSize <= |b.compressed|
            && b.compressed[b.table[i].compressedOffset..b.table[i].compressedOffset + b.table[i].compressedSize]
               == c.encode(frames[i])
  {
    var pieces := Encoded(c, frames);
    SeekTableExact(c, frames, i);
    PieceIsSlice(pieces, i);
    assert pieces[i] == c.encode(frames[i]);
  }

  lemma DecodeOwnFrame(c: Codec, frames: seq<Bytes>, i: nat)
    requires Faithful(c) && EncodedFit(c, frames) && i < |frames|
    ensures |BlobOf(c, frames).table| == |frames|
    ensures DecodeFrame(c, BlobOf(c, frames), BlobOf(c, frames).table[i]) == Data(frames[i])
  {
    EntryLocatesFrame(c, frames, i);
    assert c.decode(c.encode(frames[i])) == Some(frames[i]);
  }

  lemma {:induction false} DecodePrefix(c: Codec, frames: seq<Bytes>, n: nat)
    requires Faithful(c) && EncodedFit(c, frames) && n <= |frames|
    ensures |BlobOf(c, frames).table| == |frames|
    ensures DecodeAll(c, BlobOf(c, frames), n) == Data(Flatten(frames[..n]))
  {
    BlobLength(c, frames);
    if 0 < n {
      DecodePrefix(c, frames, n - 1);
      DecodeOwnFrame(c, frames, n - 1);
      assert frames[..n] == frames[..n - 1] + [frames[n - 1]];
      FlattenAppend(frames[..n - 1], frames[n - 1]);
    }
  }

  /** A frame whose encoding is cut short does not decode, or decodes to less. */
  ghost predicate Truncates(c: Codec)
  {
    forall x, n | x != [] && 0 <= n < |c.encode(x)| ::
      var r := c.decode(c.encode(x)[..n]);
      r.None? || |r.value| < |x|
  }

  /** Whether or not its size wrapped, an entry points at the front of its encoded frame. */
  lemma {:induction false} EntryLocatesFront(c: Codec, frames: seq<Bytes>, i: nat)
    requires i < |frames|
    ensures var b := BlobOf(c, frames);
            && |b.table| == |frames|
            && b.table[i].compressedOffset + b.table[i].compressedSize <= |b.compressed|
            && b.compressed[b.table[i].compressedOffset..b.table[i].compressedOffset + b.table[i].compressedSize]
               == c.encode(frames[i])[..U32(|c.encode(frames[i])|)]
  {
    var pieces := Encoded(c, frames);
    SeekTableExact(c, frames, i);
    PieceIsSlice(pieces, i);
    assert pieces[i] == c.encode(frames[i]);
    FrontOfSlice(BlobOf(c, frames).compressed, Offset(pieces, i), |pieces[i]|, U32(|pieces[i]|));
  }

  lemma FrontOfSlice(data: Bytes, from: nat, n: nat, k: nat)
    requires k <= n && from + n <= |data|
    ensures data[from..from + k] == data[from..from + n][..k]
  {
  }

  lemma {:induction false} FrameDecodesToNoMore(c: Codec, frames: seq<Bytes>, i: nat)
    requires Faithful(c) && Truncates(c) && i < |frames| && frames[i] != []
    ensures |BlobOf(c, frames).table| == |frames|
    ensures var r := DecodeFrame(c, BlobOf(c, frames), BlobOf(c, frames).table[i]);
            r.Data? ==> |r.bytes| <= |frames[i]| && (U32_RANGE <= |c.encode(frames[i])| ==> |r.bytes| < |frames[i]|)
  {
    EntryLocatesFront(c, frames, i);
    var e := c.encode(frames[i]);
    if |e| < U32_RANGE {
      assert e[..|e|] == e;
      assert c.decode(e) == Some(frames[i]);
    }
  }

  lemma {:induction false} DecodedIsShort(c: Codec, frames: seq<Bytes>, n: nat, j: nat)
    requires Faithful(c) && Truncates(c) && (forall i | 0 <= i < |frames| :: frames[i] != [])
    requires n <= |frames| && j < |frames| && U32_RANGE <= |c.encode(frames[j])|
    ensures |BlobOf(c, frames).table| == |frames|
    ensures var r := DecodeAll(c, BlobOf(c, frames), n);
            r.Data? ==> |r.bytes| <= Offset(frames, n) && (j < n ==> |r.bytes| < Offset(frames, n))
  {
    BlobLength(c, frames);
    if 0 < n {
      DecodedIsShort(c, frames, n - 1, j);
      FrameDecodesToNoMore(c, frames, n - 1);
      OffsetStep(frames, n - 1);
    }
  }

  lemma {:induction false} FramesAreNotEmpty(data: Bytes, n: nat)
    requires 0 < n
    ensures forall i | 0 <= i < |Frames(data, n)| :: Frames(data, n)[i] != []
    decreases |data|
  {
    if data != [] {
      FramesAreNotEmpty(data[Min(n, |data|)..], n);
    }
  }

  /** Decompressing everything gives back the data, whatever the frame size, exactly when every encoded frame
      fits its 32-bit size. */
  lemma {:induction false} DecompressInvertsCompress(c: Codec, data: Bytes, frameSize: nat)
    requires Faithful(c) && Truncates(c)
    ensures var b := Compressed(c, data, frameSize);
            DecodeAll(c, b, |b.table|) == Data(data) <==> EncodedFit(c, Frames(data, Max(frameSize, 1)))
  {
    var frames := Frames(data, Max(frameSize, 1));
    FramesFlatten(data, Max(frameSize, 1));
    assert frames[..|frames|] == frames;
    if EncodedFit(c, frames) {
      DecodePrefix(c, frames, |frames|);
    } else {
      var j :| 0 <= j < |frames| && U32_RANGE <= |c.encode(frames[j])|;
      FramesAreNotEmpty(data, Max(frameSize, 1));
      DecodedIsShort(c, frames, |frames|, j);
    }
  }

  // ---- Ranges ----

  function Then(head: Bytes, rest: Decoded): Decoded
  {
    if rest.Data? then Data(head + rest.bytes) else rest
  }

  predicate Overlaps(frameStart: nat, frameEnd: nat, start: nat, end: nat)
  {
    start < frameEnd && frameStart < end
  }

  /** The part of an overlapping frame that lies in the range. */
  function Part(plain: Bytes, frameStart: nat, frameEnd: nat, start: nat, end: nat): Decoded
    requires frameStart <= Min(end, frameEnd)
  {
    var lo := if frameStart < start then start - frameStart else 0;
    var hi := Min(end, frameEnd) - frameStart;
    if hi < lo || |plain| < hi then OutOfBounds else Data(plain[lo..hi])
  }

  /** The contribution of frame `i`, which starts at `frameStart`. */
  function FramePart(c: Codec, b: Blob, i: nat, frameStart: nat, start: nat, end: nat): Decoded
    requires i < |b.table|
  {
    var e := b.table[i];
    var frameEnd := frameStart + e.uncompressedSize;
    if !Overlaps(frameStart, frameEnd, start, end) then Data([]) else
      match DecodeFrame(c, b, e)
      case Data(plain) => Part(plain, frameStart, frameEnd, start, end)
      case bad => bad
  }

  /** The loop from frame `i` on; it stops at the first frame that reaches the end of the range. */
  function RangeFrom(c: Codec, b: Blob, i: nat, frameStart: nat, start: nat, end: nat): Decoded
    requires i <= |b.table|
    decreases |b.table| - i
  {
    if i == |b.table| then Data([]) else
      var part := FramePart(c, b, i, frameStart, start, end);
      var frameEnd := frameStart + b.table[i].uncompressedSize;
      if !part.Data? then part
      else if end <= frameEnd then part
      else Then(part.bytes, RangeFrom(c, b, i + 1, frameEnd, start, end))
  }

  lemma {:induction false} RangeOneMore(c: Codec, b: Blob, out: Bytes, i: nat, frameStart: nat, start: nat, end: nat)
    requires i < |b.table| && FramePart(c, b, i, frameStart, start, end).Data?
    requires frameStart + b.table[i].uncompressedSize < end
    ensures var part := FramePart(c, b, i, frameStart, start, end);
            var frameEnd := frameStart + b.table[i].uncompressedSize;
            Then(out, RangeFrom(c, b, i, frameStart, start, end)) ==
            Then(out + part.bytes, RangeFrom(c, b, i + 1, frameEnd, start, end))
  {
    var part := FramePart(c, b, i, frameStart, start, end);
    var rest := RangeFrom(c, b, i + 1, frameStart + b.table[i].uncompressedSize, start, end);
    if rest.Data? {
      assert out + (part.bytes + rest.bytes) == (out + part.bytes) + rest.bytes;
    }
  }

  method DecompressRange(c: Codec, b: Blob, start: nat, end: nat) returns (r: Decoded)
    ensures r == RangeFrom(c, b, 0, 0, start, end)
  {
    var out: Bytes := [];
    var frameStart: nat := 0;
    var i := 0;
    while i < |b.table|
      invariant 0 <= i <= |b.table|
      invariant RangeFrom(c, b, 0, 0, start, end) == Then(out, RangeFrom(c, b, i, frameStart, start, end))
    {
      var part := FramePart(c, b, i, frameStart, start, end);
      if !part.Data? {
        return part;
      }
      var frameEnd := frameStart + b.table[i].uncompressedSize;
      if frameEnd < end {
        RangeOneMore(c, b, out, i, frameStart, start, end);
      }
      out := out + part.bytes;
      frameStart := frameEnd;
      if end <= frameStart {
        return Data(out);
      }
      i := i + 1;
    }
    r := Data(out);
  }

  lemma OffsetsMonotone(frames: seq<Bytes>, i: nat)
    requires i < |frames|
    ensures Offset(frames, i) + |frames[i]| == Offset(frames, i + 1) <= |Flatten(frames)|
  {
    OffsetStep(frames, i);
    PieceIsSlice(frames, i);
  }

  lemma SliceOfSlice(data: Bytes, from: nat, to: nat, lo: nat, hi: nat)
    requires from <= lo <= hi <= to <= |data|
    ensures data[from..to][lo - from..hi - from] == data[lo..hi]
  {
    var outer := data[from..to];
    var inner := outer[lo - from..hi - from];
    assert forall i | 0 <= i < hi - lo :: inner[i] == outer[lo - from + i] == data[lo + i];
  }

  lemma PartOfSlice(data: Bytes, from: nat, to: nat, start: nat, end: nat)
    requires from <= to <= |data| && Overlaps(from, to, start, end)
    ensures Part(data[from..to], from, to, start, end) ==
            if Min(end, to) < Max(start, from) then OutOfBounds else Data(data[Max(start, from)..Min(end, to)])
  {
    if Max(start, from) <= Min(end, to) {
      var lo, hi := Max(start, from), Min(end, to);
      SliceOfSlice(data, from, to, lo, hi);
    }
  }

  /** What a frame lying at `from..to` contributes, read off the flattened data. */
  function SlicePart(data: Bytes, from: nat, to: nat, start: nat, end: nat): Decoded
    requires to <= |data|
  {
    if !Overlaps(from, to, start, end) then Data([])
    else if Min(end, to) < Max(start, from) then OutOfBounds
    else Data(data[Max(start, from)..Min(end, to)])
  }

  lemma OwnEntry(c: Codec, frames: seq<Bytes>, i: nat)
    requires PlainFit(frames) && i < |frames|
    ensures |BlobOf(c, frames).table| == |frames|
    ensures BlobOf(c, frames).table[i].uncompressedSize == |frames[i]|
    ensures Offset(frames, i) + |frames[i]| == Offset(frames, i + 1) <= |Flatten(frames)|
    ensures Flatten(frames)[Offset(frames, i)..Offset(frames, i + 1)] == frames[i]
  {
    SeekTableExact(c, frames, i);
    OffsetsMonotone(frames, i);
    PieceIsSlice(frames, i);
  }

  lemma OwnFramePart(c: Codec, frames: seq<Bytes>, i: nat, start: nat, end: nat)
    requires Faithful(c) && EncodedFit(c, frames) && PlainFit(frames) && i < |frames|
    ensures |BlobOf(c, frames).table| == |frames|
    ensures BlobOf(c, frames).table[i].uncompressedSize == |frames[i]|
    ensures Offset(frames, i) + |frames[i]| == Offset(frames, i + 1) <= |Flatten(frames)|
    ensures FramePart(c, BlobOf(c, frames), i, Offset(frames, i), start, end) ==
            SlicePart(Flatten(frames), Offset(frames, i), Offset(frames, i + 1), start, end)
  {
    OwnEntry(c, frames, i);
    DecodeOwnFrame(c, frames, i);
    var from, to := Offset(frames, i), Offset(frames, i + 1);
    if Overlaps(from, to, start, end) {
      PartOfSlice(Flatten(frames), from, to, start, end);
    }
  }

  function Clamped(data: Bytes, from: nat, start: nat, end: nat): Bytes
    requires start <= end
  {
    data[Min(Max(start, from), |data|)..Min(Max(end, from), |data|)]
  }

  /** The part in one frame followed by what lies after that frame. */
  lemma {:induction false} Splice(data: Bytes, from: nat, to: nat, start: nat, end: nat)
    requires from <= to <= |data| && start <= end
    ensures SlicePart(data, from, to, start, end).Data?
    ensures var head := SlicePart(data, from, to, start, end).bytes;
            if end <= to then head == Clamped(data, from, start, end)
            else head + Clamped(data, to, start, end) == Clamped(data, from, start, end)
  {
    if to < end {
      var lo, mid, hi := Min(Max(start, from), |data|), Min(Max(start, to), |data|), Min(end, |data|);
      assert data[lo..mid] + data[mid..hi] == data[lo..hi];
    }
  }

  lemma {:induction false} RangeSlice(c: Codec, frames: seq<Bytes>, i: nat, start: nat, end: nat)
    requires Faithful(c) && EncodedFit(c, frames) && PlainFit(frames) && i <= |frames| && start <= end
    ensures |BlobOf(c, frames).table| == |frames|
    ensures RangeFrom(c, BlobOf(c, frames), i, Offset(frames, i), start, end) ==
            Data(Clamped(Flatten(frames), Offset(frames, i), start, end))
    decreases |frames| - i
  {
    BlobLength(c, frames);
    if i == |frames| {
      assert frames[..i] == frames;
    } else {
      OwnFramePart(c, frames, i, start, end);
      OwnEntry(c, frames, i);
      OffsetStep(frames, i);
      Splice(Flatten(frames), Offset(frames, i), Offset(frames, i + 1), start, end);
      if Offset(frames, i + 1) < end {
        RangeSlice(c, frames, i + 1, start, end);
      }
      RangeUnfolds(c, BlobOf(c, frames), i, Offset(frames, i), start, end);
    }
  }

  /** Reading a range is slicing the data, clamped to its length. */
  lemma RangeEqualsSlice(c: Codec, data: Bytes, frameSize: nat, start: nat, end: nat)
    requires var frames := Frames(data, Max(frameSize, 1));
             Faithful(c) && EncodedFit(c, frames) && PlainFit(frames)
    requires start <= end
    ensures RangeFrom(c, Compressed(c, data, frameSize), 0, 0, start, end) ==
            Data(data[Min(start, |data|)..Min(end, |data|)])
  {
    var frames := Frames(data, Max(frameSize, 1));
    RangeSlice(c, frames, 0, start, end);
    FramesFlatten(data, Max(frameSize, 1));
    assert frames[..0] == [];
  }

  /** With the ends swapped the read is empty, unless one frame holds both ends, where it runs out of bounds. */
  lemma {:induction false} ReversedRange(c: Codec, frames: seq<Bytes>, i: nat, start: nat, end: nat)
    requires Faithful(c) && EncodedFit(c, frames) && PlainFit(frames) && i <= |frames| && end < start
    ensures |BlobOf(c, frames).table| == |frames|
    ensures RangeFrom(c, BlobOf(c, frames), i, Offset(frames, i), start, end) ==
            if exists j :: i <= j < |frames| && Overlaps(Offset(frames, j), Offset(frames, j + 1), start, end)
            then OutOfBounds else Data([])
    decreases |frames| - i
  {
    BlobLength(c, frames);
    if i < |frames| {
      OwnFramePart(c, frames, i, start, end);
      if !Overlaps(Offset(frames, i), Offset(frames, i + 1), start, end) {
        if Offset(frames, i + 1) < end {
          ReversedRange(c, frames, i + 1, start, end);
          var rest := RangeFrom(c, BlobOf(c, frames), i + 1, Offset(frames, i + 1), start, end);
          assert rest.Data? ==> [] + rest.bytes == rest.bytes;
        } else {
          LaterFramesBeyond(frames, i, start, end);
        }
      }
    }
  }

  lemma LaterFramesBeyond(frames: seq<Bytes>, i: nat, start: nat, end: nat)
    requires i < |frames| && end <= Offset(frames, i + 1)
    requires !Overlaps(Offset(frames, i), Offset(frames, i + 1), start, end)
    ensures !exists j :: i <= j < |frames| && Overlaps(Offset(frames, j), Offset(frames, j + 1), start, end)
  {
    forall j | i < j < |frames|
      ensures end <= Offset(frames, j)
    {
      OffsetsGrow(frames, i + 1, j);
    }
  }

  lemma {:induction false} OffsetsGrow(frames: seq<Bytes>, i: nat, j: nat)
    requires i <= j <= |frames|
    ensures Offset(frames, i) <= Offset(frames, j)
  {
    if i < j {
      OffsetsGrow(frames, i, j - 1);
      OffsetStep(frames, j - 1);
    }
  }

  /** Where the table says frame `i` starts in the data. */
  function TableStart(table: seq<SeekEntry>, i: nat): nat
    requires i <= |table|
  {
    if i == 0 then 0 else TableStart(table, i - 1) + table[i - 1].uncompressedSize
  }

  /** By the table, frame `j` overlaps the range. */
  predicate Needed(table: seq<SeekEntry>, j: nat, start: nat, end: nat)
    requires j < |table|
  {
    Overlaps(TableStart(table, j), TableStart(table, j) + table[j].uncompressedSize, start, end)
  }

  /** Blobs with the same table that decode alike wherever a frame overlaps the range. */
  ghost predicate AgreeOnRange(c: Codec, b: Blob, b': Blob, start: nat, end: nat)
  {
    && b.table == b'.table
    && forall j {:trigger Needed(b.table, j, start, end)} | 0 <= j < |b.table| && Needed(b.table, j, start, end) ::
         DecodeFrame(c, b, b.table[j]) == DecodeFrame(c, b', b.table[j])
  }

  lemma SameFramePart(c: Codec, b: Blob, b': Blob, i: nat, start: nat, end: nat)
    requires AgreeOnRange(c, b, b', start, end) && i < |b.table|
    ensures FramePart(c, b, i, TableStart(b.table, i), start, end) ==
            FramePart(c, b', i, TableStart(b.table, i), start, end)
    ensures TableStart(b.table, i + 1) == TableStart(b.table, i) + b.table[i].uncompressedSize
  {
    if Needed(b.table, i, start, end) {
    }
  }

  /** Only overlapping frames are decoded: changing the bytes of the others does not change what is read. */
  lemma {:induction false} OnlyOverlappingDecoded(c: Codec, b: Blob, b': Blob, i: nat, start: nat, end: nat)
    requires AgreeOnRange(c, b, b', start, end) && i <= |b.table|
    ensures RangeFrom(c, b, i, TableStart(b.table, i), start, end) ==
            RangeFrom(c, b', i, TableStart(b.table, i), start, end)
    decreases |b.table| - i
  {
    if i < |b.table| {
      SameFramePart(c, b, b', i, start, end);
      OnlyOverlappingDecoded(c, b, b', i + 1, start, end);
      RangeUnfolds(c, b, i, TableStart(b.table, i), start, end);
      RangeUnfolds(c, b', i, TableStart(b.table, i), start, end);
    }
  }

  lemma RangeUnfolds(c: Codec, b: Blob, i: nat, frameStart: nat, start: nat, end: nat)
    requires i < |b.table|
    ensures var part := FramePart(c, b, i, frameStart, start, end);
            var frameEnd := frameStart + b.table[i].uncompressedSize;
            RangeFrom(c, b, i, frameStart, start, end) ==
            if !part.Data? || end <= frameEnd then part
            else Then(part.bytes, RangeFrom(c, b, i + 1, frameEnd, start, end))
  {
  }

  /** What is wrong with frame `j` for a read up to `end`: it lies outside the blob, does not decode, or decodes to less
      than the read needs of it. */
  function Fault(c: Codec, b: Blob, j: nat, end: nat): Option<Decoded>
    requires j < |b.table|
  {
    var e, from := b.table[j], TableStart(b.table, j);
    if |b.compressed| < e.compressedOffset + e.compressedSize then Some(OutOfBounds) else
      match c.decode(b.compressed[e.compressedOffset..e.compressedOffset + e.compressedSize])
      case None => Some(DecodeError)
      case Some(plain) => if |plain| < Min(end, from + e.uncompressedSize) - from then Some(OutOfBounds) else None
  }

  /** No frame from `i` up to `j` that overlaps the range has a fault. */
  ghost predicate Faultless(c: Codec, b: Blob, i: nat, j: nat, start: nat, end: nat)
    requires j <= |b.table|
  {
    forall k {:trigger Needed(b.table, k, start, end)} | i <= k < j && Needed(b.table, k, start, end) ::
      Fault(c, b, k, end).None?
  }

  lemma {:induction false} PartHasFault(c: Codec, b: Blob, i: nat, start: nat, end: nat)
    requires i < |b.table| && start <= end
    ensures var part := FramePart(c, b, i, TableStart(b.table, i), start, end);
            if Needed(b.table, i, start, end) && Fault(c, b, i, end).Some? then part == Fault(c, b, i, end).value
            else part.Data?
    ensures Fault(c, b, i, end).Some? ==> !Fault(c, b, i, end).value.Data?
  {
  }

  lemma {:induction false} TableGrows(table: seq<SeekEntry>, i: nat, k: nat)
    requires i <= k <= |table|
    ensures TableStart(table, i) <= TableStart(table, k)
    decreases k
  {
    if i < k {
      TableGrows(table, i, k - 1);
    }
  }

  /** On any blob, whatever its table and bytes: a read succeeds exactly if no frame it overlaps has a fault. */
  lemma {:induction false} RangeReadsIff(c: Codec, b: Blob, i: nat, start: nat, end: nat)
    requires i <= |b.table| && start <= end
    ensures RangeFrom(c, b, i, TableStart(b.table, i), start, end).Data? <==>
            Faultless(c, b, i, |b.table|, start, end)
    decreases |b.table| - i
  {
    if i < |b.table| {
      PartHasFault(c, b, i, start, end);
      RangeUnfolds(c, b, i, TableStart(b.table, i), start, end);
      RangeReadsIff(c, b, i + 1, start, end);
      assert TableStart(b.table, i + 1) == TableStart(b.table, i) + b.table[i].uncompressedSize;
      if end <= TableStart(b.table, i + 1) {
        forall k | i + 1 <= k < |b.table|
          ensures !Needed(b.table, k, start, end)
        {
          TableGrows(b.table, i + 1, k);
        }
      }
    }
  }

  /** And a read that fails reports the first fault it comes to. */
  lemma {:induction false} FirstFaultIsReported(c: Codec, b: Blob, i: nat, j: nat, start: nat, end: nat)
    requires i <= j < |b.table| && start <= end && Faultless(c, b, i, j, start, end)
    requires Needed(b.table, j, start, end) && Fault(c, b, j, end).Some?
    ensures RangeFrom(c, b, i, TableStart(b.table, i), start, end) == Fault(c, b, j, end).value
    decreases j - i
  {
    PartHasFault(c, b, i, start, end);
    RangeUnfolds(c, b, i, TableStart(b.table, i), start, end);
    assert TableStart(b.table, i + 1) == TableStart(b.table, i) + b.table[i].uncompressedSize;
    if i < j {
      FirstFaultIsReported(c, b, i + 1, j, start, end);
      TableGrows(b.table, i + 1, j);
      PartHasFault(c, b, j, start, end);
    }
  }

  lemma {:induction false} RangeWithinTable(c: Codec, b: Blob, i: nat, start: nat, end: nat)
    requires i <= |b.table|
    ensures var r := RangeFrom(c, b, i, TableStart(b.table, i), start, end);
            r.Data? ==> TableStart(b.table, i) + |r.bytes| <= TableStart(b.table, |b.table|)
    decreases |b.table| - i
  {
    if i < |b.table| {
      RangeWithinTable(c, b, i + 1, start, end);
      assert TableStart(b.table, i + 1) == TableStart(b.table, i) + b.table[i].uncompressedSize;
    }
  }

  lemma {:induction false} PlainFitStep(frames: seq<Bytes>, i: nat)
    requires i < |frames|
    ensures PlainFit(frames[..i + 1]) <==> PlainFit(frames[..i]) && |frames[i]| < U32_RANGE
  {
    assert frames[..i + 1] == frames[..i] + [frames[i]];
    if PlainFit(frames[..i + 1]) {
      assert frames[..i + 1][i] == frames[i];
      forall j | 0 <= j < i
        ensures |frames[..i][j]| < U32_RANGE
      {
        assert frames[..i][j] == frames[..i + 1][j];
      }
    }
  }

  /** The table's total falls short of the data as soon as one size wrapped. */
  lemma {:induction false} TableTotal(c: Codec, frames: seq<Bytes>, i: nat)
    requires i <= |frames|
    ensures |BlobOf(c, frames).table| == |frames|
    ensures TableStart(BlobOf(c, frames).table, i) <= Offset(frames, i)
    ensures TableStart(BlobOf(c, frames).table, i) == Offset(frames, i) <==> PlainFit(frames[..i])
  {
    BlobLength(c, frames);
    if 0 < i {
      TableTotal(c, frames, i - 1);
      SeekTableExact(c, frames, i - 1);
      OffsetStep(frames, i - 1);
      PlainFitStep(frames, i - 1);
    } else {
      assert frames[..0] == [];
    }
  }

  /** Reading the whole range gives the data back exactly when every frame fits its 32-bit size. */
  lemma {:induction false} WholeRangeIffFits(c: Codec, data: Bytes, frameSize: nat)
    requires Faithful(c) && EncodedFit(c, Frames(data, Max(frameSize, 1)))
    ensures RangeFrom(c, Compressed(c, data, frameSize), 0, 0, 0, |data|) == Data(data)
            <==> PlainFit(Frames(data, Max(frameSize, 1)))
  {
    var frames := Frames(data, Max(frameSize, 1));
    if PlainFit(frames) {
      RangeEqualsSlice(c, data, frameSize, 0, |data|);
    } else {
      TableTotal(c, frames, |frames|);
      FramesFlatten(data, Max(frameSize, 1));
      assert frames[..|frames|] == frames;
      RangeWithinTable(c, BlobOf(c, frames), 0, 0, |data|);
    }
  }

  // ---- Where it fails ----

  const BLOCK: Bytes := seq(U32_RANGE, _ => 0)

  /** A codec that stores one block of 2^32 bytes in nothing and everything else as it is. */
  const BLOCK_CODEC: Codec :=
    Codec(x => if x == BLOCK then [] else [0] + x, y => if y == [] then Some(BLOCK) else Some(y[1..]))

  /** A frame of 2^32 bytes, although it decompresses, reads back as something else through a range. */
  lemma {:induction false} WrappedFrameReadsWrong()
    ensures Faithful(BLOCK_CODEC) && EncodedFit(BLOCK_CODEC, Frames(BLOCK, U32_RANGE))
    ensures RangeFrom(BLOCK_CODEC, Compressed(BLOCK_CODEC, BLOCK, U32_RANGE), 0, 0, 0, |BLOCK|) != Data(BLOCK)
  {
    var c := BLOCK_CODEC;
    forall x
      ensures c.decode(c.encode(x)) == Some(x)
    {
      assert x != BLOCK ==> c.encode(x)[1..] == x;
    }
    assert BLOCK[U32_RANGE..] == [] && BLOCK[..U32_RANGE] == BLOCK;
    assert Frames(BLOCK, U32_RANGE) == [BLOCK];
    WholeRangeIffFits(c, BLOCK, U32_RANGE);
  }

  const PLAIN_CODEC: Codec := Codec(x => x, y => Some(y))

  /** A frame whose encoding takes 2^32 bytes does not decompress to the data. */
  lemma {:induction false} WrappedEncodingIsLost()
    ensures Faithful(PLAIN_CODEC) && Truncates(PLAIN_CODEC)
    ensures var b := Compressed(PLAIN_CODEC, BLOCK, U32_RANGE);
            DecodeAll(PLAIN_CODEC, b, |b.table|) != Data(BLOCK)
  {
    assert BLOCK[U32_RANGE..] == [] && BLOCK[..U32_RANGE] == BLOCK;
    assert Frames(BLOCK, U32_RANGE) == [BLOCK];
    DecompressInvertsCompress(PLAIN_CODEC, BLOCK, U32_RANGE);
  }

  /** Bytes 2 to 1 of three bytes that lie in one frame. */
  lemma {:induction false} ReversedRangeRunsOut()
    ensures RangeFrom(PLAIN_CODEC, Compressed(PLAIN_CODEC, [1, 2, 3], 3), 0, 0, 2, 1) == OutOfBounds
  {
    var data: Bytes := [1, 2, 3];
    var one: seq<Bytes> := [data];
    assert Frames(data, 3) == one by {
      assert data[..3] == data && data[3..] == [];
    }
    assert Offset(one, 0) == 0 && Offset(one, 1) == 3 by {
      OffsetStep(one, 0);
    }
    ReversedRange(PLAIN_CODEC, one, 0, 2, 1);
  }
}
