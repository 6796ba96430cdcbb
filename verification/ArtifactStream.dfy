/** The media share's stream splitter: decoded frames arrive as one byte stream of PNG files and sound
    as another of PCM, cut into pieces wherever the pipe happens to cut them.

    Both are cut by `Splitting.Split`. Every handler is proved against the cut of all the bytes received
    so far, so what is published cannot depend on the pieces. */
module ArtifactStream {
  import opened Base
  import opened Splitting

  const FRAME_CAP: nat := 262144
  const PIECE: nat := 65536
  const PCM_LIMIT: nat := 131072
  const AUDIO_BYTES: nat := 2560
  const SIGNATURE: Bytes := [137, 80, 78, 71, 13, 10, 26, 10]

  function ReadUInt32(s: Bytes, at: nat): (n: nat)
    requires at + 4 <= |s|
  {
    s[at] as nat * 0x1000000 + s[at + 1] as nat * 0x10000 + s[at + 2] as nat * 0x100 + s[at + 3] as nat
  }

  function UInt32(n: nat): (s: Bytes)
    requires n < 0x1_0000_0000
    ensures |s| == 4 && ReadUInt32(s, 0) == n
  {
    var high := n / 0x100;
    var higher := high / 0x100;
    [(higher / 0x100) as byte, (higher % 0x100) as byte, (high % 0x100) as byte, (n % 0x100) as byte]
  }

  /** Four bytes read as ASCII lose their top bit before they are compared. */
  predicate Reads(s: Bytes, at: nat, kind: Bytes)
    requires at + 4 <= |s| && |kind| == 4
  {
    && s[at] % 128 == kind[0] && s[at + 1] % 128 == kind[1]
    && s[at + 2] % 128 == kind[2] && s[at + 3] % 128 == kind[3]
  }

  const IHDR: Bytes := [73, 72, 68, 82]
  const IEND: Bytes := [73, 69, 78, 68]

  // ----- what a stream holds ----------------------------------------------------------------

  /** Where the picture at the front of a stream ends, looking at its chunks from `offset` on. */
  function Scan(s: Bytes, offset: nat): (e: Extent)
    ensures e.Complete? ==> offset + 12 <= e.size <= |s| && e.size <= FRAME_CAP
    ensures e.Incomplete? && offset <= FRAME_CAP ==> |s| < FRAME_CAP + 12
    decreases |s| - offset
  {
    if offset + 12 > |s| then Incomplete
    else
      var length := ReadUInt32(s, offset);
      if length > FRAME_CAP || offset + length + 12 > FRAME_CAP then Oversized
      else if offset + length + 12 > |s| then Incomplete
      else if Reads(s, offset + 4, IEND) then Complete(offset + length + 12)
      else Scan(s, offset + length + 12)
  }

  function FirstPicture(s: Bytes): (e: Extent)
    ensures e.Complete? ==> 20 <= e.size <= |s| && e.size <= FRAME_CAP
    ensures e.Incomplete? ==> |s| < FRAME_CAP + 12
  {
    if |s| < 8 then Incomplete else Scan(s, 8)
  }

  /** The frame schema: a PNG signature and a header chunk with dimensions from 1 to 4096. */
  predicate Admissible(frame: Bytes) {
    && 33 <= |frame| <= FRAME_CAP
    && frame[..8] == SIGNATURE
    && ReadUInt32(frame, 8) == 13 && Reads(frame, 12, IHDR)
    && 1 <= ReadUInt32(frame, 16) <= 4096 && 1 <= ReadUInt32(frame, 20) <= 4096
  }

  /** A header chunk's name, up to top bits. */
  predicate LikeIhdr(kind: Bytes)
    requires |kind| == 4
  {
    forall k :: 0 <= k < 4 ==> kind[k] == [73, 72, 68, 82][k] || kind[k] as int == [201, 200, 196, 210][k]
  }

  /** What is admitted, byte for byte: at most 262144 bytes that begin with the PNG signature and a header
      chunk of 13 bytes, for a picture of 1 to 4096 by 1 to 4096. */
  predicate IsImage(f: Bytes) {
    && 33 <= |f| <= 262144
    && f[..12] == [137, 80, 78, 71, 13, 10, 26, 10, 0, 0, 0, 13] && LikeIhdr(f[12..16])
    && f[16] == 0 && f[17] == 0 && 1 <= 256 * (f[18] as int) + f[19] as int <= 4096
    && f[20] == 0 && f[21] == 0 && 1 <= 256 * (f[22] as int) + f[23] as int <= 4096
  }

  lemma AdmissibleExactly(f: Bytes)
    ensures Admissible(f) <==> IsImage(f)
  {
    if 33 <= |f| {
      KindReads(f);
      assert f[..12] == f[..8] + [f[8], f[9], f[10], f[11]];
      assert f[..8] == f[..12][..8];
      assert f[..12] == [137, 80, 78, 71, 13, 10, 26, 10, 0, 0, 0, 13] <==>
             f[..8] == [137, 80, 78, 71, 13, 10, 26, 10] && [f[8], f[9], f[10], f[11]] == [0, 0, 0, 13];
    }
  }

  lemma KindReads(f: Bytes)
    requires 33 <= |f|
    ensures Reads(f, 12, IHDR) <==> LikeIhdr(f[12..16])
  {
    var kind := f[12..16];
    assert kind[0] == f[12] && kind[1] == f[13] && kind[2] == f[14] && kind[3] == f[15];
  }

  /** A picture that ends, or is too big, ends or is too big whatever follows. */
  lemma {:induction false} ScanIsLocal(s: Bytes, t: Bytes, offset: nat)
    ensures !Scan(s, offset).Incomplete? ==> Scan(s + t, offset) == Scan(s, offset)
    decreases |s| - offset
  {
    if offset + 12 <= |s| {
      assert ReadUInt32(s + t, offset) == ReadUInt32(s, offset);
      var next := offset + ReadUInt32(s, offset) + 12;
      if next <= FRAME_CAP && next <= |s| {
        assert Reads(s + t, offset + 4, IEND) == Reads(s, offset + 4, IEND);
        ScanIsLocal(s, t, next);
      }
    }
  }

  /** An unfinished picture of more than the cap can only be refused once enough bytes have come. */
  lemma {:induction false} ScanOverflows(s: Bytes, t: Bytes, offset: nat)
    requires Scan(s, offset).Incomplete? && offset <= FRAME_CAP < |s| && |s + t| >= FRAME_CAP + 12
    ensures Scan(s + t, offset).Oversized?
    decreases |s| - offset
  {
    if offset + 12 <= |s| {
      assert ReadUInt32(s + t, offset) == ReadUInt32(s, offset);
      var next := offset + ReadUInt32(s, offset) + 12;
      assert Reads(s + t, offset + 4, IEND) == Reads(s, offset + 4, IEND);
      ScanOverflows(s, t, next);
    }
  }

  const PICTURES: Form := Form(FirstPicture, Admissible)

  lemma PicturesAreLocal()
    ensures Local(PICTURES)
  {
    forall s, t | !FirstPicture(s).Incomplete?
      ensures FirstPicture(s + t) == FirstPicture(s)
    {
      ScanIsLocal(s, t, 8);
    }
  }

  /** The buffer limit refuses only what the frame cap refuses anyway, when no piece exceeds 64 KiB. */
  lemma LimitIsNeverFirst(rest: Bytes, piece: Bytes, room: nat)
    requires FirstPicture(rest).Incomplete? && |piece| <= PIECE && |rest| + |piece| > FRAME_CAP + PIECE
    ensures Split(PICTURES, rest + piece, room) == Cut([], rest + piece, true)
  {
    ScanOverflows(rest, piece, 8);
  }

  lemma Overflow(received: Bytes, piece: Bytes, units: seq<Bytes>, rest: Bytes, room: nat)
    requires Split(PICTURES, received, room) == Cut(units, rest, false)
    requires |piece| <= PIECE && |rest| + |piece| > FRAME_CAP + PIECE
    ensures Split(PICTURES, received + piece, room) == Cut(units, rest + piece, true)
  {
    PicturesAreLocal();
    CarryOver(PICTURES, received, piece, units, rest, room);
    LimitIsNeverFirst(rest, piece, room - |units|);
    assert units + [] == units;
  }

  // ----- streams of pictures ----------------------------------------------------------------

  /** A chunk as the walk sees it: length, kind, data and CRC. */
  datatype Chunk = Chunk(kind: Bytes, data: Bytes, crc: Bytes)

  predicate IsChunk(c: Chunk) {
    |c.kind| == 4 && |c.crc| == 4 && |c.data| <= 0x7fff_ffff
  }

  predicate IsLetter(b: byte) {
    65 <= b <= 90 || 97 <= b <= 122
  }

  /** A PNG chunk (PNG specification, section 5.3): its kind is four letters. */
  predicate IsPngChunk(c: Chunk) {
    IsChunk(c) && forall b :: b in c.kind ==> IsLetter(b)
  }

  function ChunkBytes(c: Chunk): (s: Bytes)
    requires IsChunk(c)
    ensures |s| == |c.data| + 12
  {
    UInt32(|c.data|) + c.kind + c.data + c.crc
  }

  predicate Ends(c: Chunk)
    requires IsChunk(c)
  {
    Reads(c.kind, 0, IEND)
  }

  /** PNG chunks of which exactly the last one is the IEND chunk. */
  predicate Closed(chunks: seq<Chunk>) {
    && chunks != [] && (forall c :: c in chunks ==> IsPngChunk(c))
    && forall k :: 0 <= k < |chunks| ==> (chunks[k].kind == IEND <==> k == |chunks| - 1)
  }

  function ChunksBytes(chunks: seq<Chunk>): (s: Bytes)
    requires forall c :: c in chunks ==> IsChunk(c)
  {
    if chunks == [] then [] else ChunkBytes(chunks[0]) + ChunksBytes(chunks[1..])
  }

  predicate IsPicture(chunks: seq<Chunk>) {
    && Closed(chunks) && 8 + |ChunksBytes(chunks)| <= FRAME_CAP
    && |chunks| > 1 && chunks[0].kind == IHDR && |chunks[0].data| == 13
    && 1 <= ReadUInt32(chunks[0].data, 0) <= 4096 && 1 <= ReadUInt32(chunks[0].data, 4) <= 4096
  }

  function PictureBytes(chunks: seq<Chunk>): Bytes
    requires IsPicture(chunks)
  {
    SIGNATURE + ChunksBytes(chunks)
  }

  lemma ChunkShows(before: Bytes, c: Chunk, after: Bytes)
    requires IsChunk(c)
    ensures var s := before + ChunkBytes(c) + after;
            && ReadUInt32(s, |before|) == |c.data|
            && (Reads(s, |before| + 4, IEND) <==> Ends(c))
  {
    var s := before + ChunkBytes(c) + after;
    var size := UInt32(|c.data|);
    assert s[|before|..|before| + 4] == size;
    assert s[|before| + 4..|before| + 8] == c.kind;
    assert forall k :: 0 <= k < 4 ==> s[|before| + 4 + k] == c.kind[k];
  }

  /** The walk passes one chunk. */
  lemma ScanPasses(before: Bytes, c: Chunk, after: Bytes)
    requires IsChunk(c) && |before| + |c.data| + 12 <= FRAME_CAP
    ensures var s, next := before + ChunkBytes(c) + after, |before| + |c.data| + 12;
            Scan(s, |before|) == if Ends(c) then Complete(next) else Scan(s, next)
  {
    hide Scan, ReadUInt32, Reads, ChunkBytes, Ends;
    ChunkShows(before, c, after);
    ScanStep(before + ChunkBytes(c) + after, |before|);
  }

  /** The walk takes one step over a chunk that is all there and within the cap. */
  lemma ScanStep(s: Bytes, offset: nat)
    requires offset + 12 <= |s|
    requires var next := offset + ReadUInt32(s, offset) + 12; next <= |s| && next <= FRAME_CAP
    ensures var next := offset + ReadUInt32(s, offset) + 12;
            Scan(s, offset) == if Reads(s, offset + 4, IEND) then Complete(next) else Scan(s, next)
  {
    hide ReadUInt32, Reads;
  }

  /** IEND with any of its top bits set. */
  predicate LikeIend(kind: Bytes)
    requires |kind| == 4
  {
    forall k :: 0 <= k < 4 ==> kind[k] == IEND[k] || kind[k] as int == IEND[k] as int + 128
  }

  lemma EndsExactly(c: Chunk)
    requires IsChunk(c)
    ensures Ends(c) <==> LikeIend(c.kind)
    ensures IsPngChunk(c) ==> (Ends(c) <==> c.kind == IEND)
  {
    assert forall k :: 0 <= k < 4 ==> c.kind[k] in c.kind;
    assert IEND == [IEND[0], IEND[1], IEND[2], IEND[3]];
    assert c.kind == [c.kind[0], c.kind[1], c.kind[2], c.kind[3]];
  }

  /** A chunk ends a picture if and only if its kind is IEND up to top bits; among the kinds that PNG
      has, if and only if it is IEND. */
  lemma WalkEndsExactly(before: Bytes, c: Chunk, after: Bytes)
    requires IsChunk(c) && |before| + |c.data| + 12 <= FRAME_CAP
    ensures var s, next := before + ChunkBytes(c) + after, |before| + |c.data| + 12;
            && (Scan(s, |before|) == Complete(next) <==> LikeIend(c.kind))
            && (IsPngChunk(c) ==> (Scan(s, |before|) == Complete(next) <==> c.kind == IEND))
  {
    EndsExactly(c);
    hide Scan, ChunkBytes, Ends, LikeIend;
    ScanPasses(before, c, after);
  }

  /** Another kind that ends a picture: the first letter of IEND with its top bit set. */
  lemma OtherKindEnds(before: Bytes, data: Bytes, crc: Bytes, after: Bytes)
    requires |crc| == 4 && |before| + |data| + 12 <= FRAME_CAP
    ensures var c := Chunk([201, 69, 78, 68], data, crc);
            && IsChunk(c) && c.kind != IEND
            && Scan(before + ChunkBytes(c) + after, |before|) == Complete(|before| + |data| + 12)
  {
    var c := Chunk([201, 69, 78, 68], data, crc);
    assert c.kind[0] != IEND[0] && LikeIend(c.kind);
    hide Scan, ChunkBytes, LikeIend;
    WalkEndsExactly(before, c, after);
  }

  /** The chunk walk stops exactly behind the closing chunk. */
  lemma {:induction false} ScanFinds(before: Bytes, chunks: seq<Chunk>, after: Bytes)
    requires Closed(chunks) && |before| + |ChunksBytes(chunks)| <= FRAME_CAP
    ensures Scan(before + ChunksBytes(chunks) + after, |before|) == Complete(|before| + |ChunksBytes(chunks)|)
    decreases |chunks|
  {
    hide Scan, ChunkBytes;
    var s := before + ChunksBytes(chunks) + after;
    var c, others := chunks[0], chunks[1..];
    assert s == before + ChunkBytes(c) + (ChunksBytes(others) + after);
    ScanPasses(before, c, ChunksBytes(others) + after);
    EndsExactly(c);
    assert Ends(c) <==> 0 == |chunks| - 1;
    if |chunks| == 1 {
      assert ChunksBytes(others) == [];
    } else {
      assert forall k :: 0 <= k < |others| ==> others[k] == chunks[k + 1];
      ScanFinds(before + ChunkBytes(c), others, after);
      assert s == before + ChunkBytes(c) + ChunksBytes(others) + after;
    }
  }

  lemma PictureIsAdmissible(chunks: seq<Chunk>)
    requires IsPicture(chunks)
    ensures Admissible(PictureBytes(chunks))
  {
    assert forall c :: c in chunks[1..] ==> c in chunks;
    var s, c, others := PictureBytes(chunks), chunks[0], ChunksBytes(chunks[1..]);
    assert |others| >= 12 by {
      assert chunks[1] in chunks;
      assert chunks[1..][0] == chunks[1];
    }
    assert s == SIGNATURE + ChunkBytes(c) + others;
    ChunkShows(SIGNATURE, c, others);
    assert s[12..16] == IHDR;
    assert forall k :: 0 <= k < 4 ==> s[12 + k] == IHDR[k];
    assert s[16..29] == c.data;
    assert forall k :: 0 <= k < 13 ==> s[16 + k] == c.data[k];
  }

  lemma PictureIsUnit(chunks: seq<Chunk>)
    requires IsPicture(chunks)
    ensures IsUnit(PICTURES, PictureBytes(chunks))
  {
    ScanFinds(SIGNATURE, chunks, []);
    PictureIsAdmissible(chunks);
    assert SIGNATURE + ChunksBytes(chunks) + [] == PictureBytes(chunks);
  }

  ghost predicate ArePictures(pictures: seq<Bytes>) {
    forall p :: p in pictures ==> exists chunks :: IsPicture(chunks) && p == PictureBytes(chunks)
  }

  /** Any stream of pictures within the cap is cut back into just those pictures. What is left over is
      what stands behind them: nothing, or the beginning of another. */
  lemma PicturesAreRecovered(pictures: seq<Bytes>, tail: Bytes, room: nat)
    requires ArePictures(pictures) && |pictures| <= room && FirstPicture(tail).Incomplete?
    ensures Split(PICTURES, Concat(pictures) + tail, room) == Cut(pictures, tail, false)
  {
    PicturesAreLocal();
    forall p | p in pictures
      ensures IsUnit(PICTURES, p)
    {
      var chunks :| IsPicture(chunks) && p == PictureBytes(chunks);
      PictureIsUnit(chunks);
    }
    UnitsAreFound(PICTURES, pictures, tail, room);
    assert pictures + [] == pictures;
  }

  lemma WholeStream(pictures: seq<Bytes>, room: nat)
    requires ArePictures(pictures) && |pictures| <= room
    ensures Split(PICTURES, Concat(pictures), room) == Cut(pictures, [], false)
  {
    PicturesAreRecovered(pictures, [], room);
    assert Concat(pictures) + [] == Concat(pictures);
  }

  /** While a stream of pictures is still coming in, nothing of it is refused. */
  lemma PrefixIsNotRefused(pictures: seq<Bytes>, s: Bytes, room: nat)
    requires ArePictures(pictures) && |pictures| <= room && s <= Concat(pictures)
    ensures !Split(PICTURES, s, room).failed
  {
    var t := Concat(pictures)[|s|..];
    assert s + t == Concat(pictures);
    WholeStream(pictures, room);
    PicturesAreLocal();
    SplitExtends(PICTURES, s, t, room);
  }

  // ----- sound ------------------------------------------------------------------------------

  function FirstPacket(s: Bytes): Extent {
    if |s| < AUDIO_BYTES then Incomplete else Complete(AUDIO_BYTES)
  }

  const PACKETS: Form := Form(FirstPacket, packet => true)

  lemma PacketsAreLocal()
    ensures Local(PACKETS)
  {
  }

  /** The units are the first slices of the stream, each behind the one before it. */
  predicate AreSlices(units: seq<Bytes>, s: Bytes) {
    AUDIO_BYTES * |units| <= |s| &&
    forall k :: 0 <= k < |units| ==> units[k] == s[AUDIO_BYTES * k..AUDIO_BYTES * (k + 1)]
  }

  lemma OneSliceMore(units: seq<Bytes>, s: Bytes)
    requires AUDIO_BYTES <= |s| && AreSlices(units, s[AUDIO_BYTES..])
    ensures AreSlices([s[..AUDIO_BYTES]] + units, s)
  {
    var t, more := s[AUDIO_BYTES..], [s[..AUDIO_BYTES]] + units;
    forall k | 0 <= k < |more|
      ensures more[k] == s[AUDIO_BYTES * k..AUDIO_BYTES * (k + 1)]
    {
      if k > 0 {
        assert more[k] == units[k - 1] == t[AUDIO_BYTES * (k - 1)..AUDIO_BYTES * k];
      }
    }
  }

  /** The packets are the successive slices of the stream, one for every 2560 bytes until the count
      runs out; less than one is left over otherwise. */
  lemma {:induction false} PacketsAreSlices(s: Bytes, room: nat)
    ensures var r, whole := Split(PACKETS, s, room), |s| / AUDIO_BYTES;
            && |r.units| == (if whole < room then whole else room)
            && (r.failed <==> whole > room)
            && AreSlices(r.units, s)
            && r.rest == s[AUDIO_BYTES * |r.units|..] && (!r.failed ==> |r.rest| < AUDIO_BYTES)
    decreases |s|
  {
    hide AreSlices;
    if room == 0 || |s| < AUDIO_BYTES {
      NoSlices(s);
    } else {
      var t := s[AUDIO_BYTES..];
      assert Front(PACKETS, s) == s[..AUDIO_BYTES] && Back(PACKETS, s) == t;
      PacketsAreSlices(t, room - 1);
      assert |t| / AUDIO_BYTES == |s| / AUDIO_BYTES - 1;
      var more := Split(PACKETS, t, room - 1);
      OneSliceMore(more.units, s);
      assert t[AUDIO_BYTES * |more.units|..] == s[AUDIO_BYTES * (|more.units| + 1)..];
    }
  }

  lemma NoSlices(s: Bytes)
    ensures AreSlices([], s)
  {
  }

  lemma LittleIsLeft(s: Bytes, room: nat, packets: seq<Bytes>, rest: Bytes)
    requires Split(PACKETS, s, room) == Cut(packets, rest, false)
    ensures |rest| < AUDIO_BYTES
  {
    RestIsUnfinished(PACKETS, s, room);
  }

  // ----- the handlers -----------------------------------------------------------------------

  function Ceiling(x: real): int { -((-x).Floor) }

  class Decoder {
    const maxFrames: nat
    const maxPackets: nat
    var ended: bool
    var png: Bytes
    var pcm: Bytes
    /** What reached the sink, in order; the sequence numbers are the positions, from 1. */
    var frames: seq<Bytes>
    var packets: seq<Bytes>
    var frameSequence: nat
    var audioSequence: nat
    /** Every byte the two pipes delivered while the share was live. */
    ghost var video: Bytes
    ghost var audio: Bytes

    ghost predicate Valid()
      reads this
    {
      && frames <= Split(PICTURES, video, maxFrames).units
      && packets <= Split(PACKETS, audio, maxPackets).units
      && (!ended ==>
        && Split(PICTURES, video, maxFrames) == Cut(frames, png, false)
        && Split(PACKETS, audio, maxPackets) == Cut(packets, pcm, false)
        && frameSequence == |frames| && audioSequence == |packets|)
    }

    constructor (duration: real)
      requires duration > 0.0
      ensures Valid() && !ended && video == [] && audio == [] && frames == [] && packets == []
      ensures duration * 5.0 <= maxFrames as real - 1.0 < duration * 5.0 + 1.0
      ensures duration * 50.0 <= maxPackets as real - 1.0 < duration * 50.0 + 1.0
    {
      maxFrames := Ceiling(duration * 5.0) + 1;
      maxPackets := Ceiling(duration * 50.0) + 1;
      ended, png, pcm, frames, packets := false, [], [], [], [];
      frameSequence, audioSequence := 0, 0;
      video, audio := [], [];
    }

    method Stop()
      modifies `ended, `png, `pcm
      ensures ended
    {
      if ended { return; }
      ended, png, pcm := true, [], [];
    }

    /** The chunk walk of one buffered picture. */
    method FindEnd() returns (e: Extent)
      requires |png| >= 8
      ensures e == FirstPicture(png)
    {
      var offset := 8;
      while offset + 12 <= |png|
        invariant 8 <= offset && Scan(png, 8) == Scan(png, offset)
        decreases |png| - offset
      {
        var length := ReadUInt32(png, offset);
        if length > FRAME_CAP || offset + length + 12 > FRAME_CAP { return Oversized; }
        if offset + length + 12 > |png| { break; }
        var last := Reads(png, offset + 4, IEND);
        offset := offset + length + 12;
        if last { return Complete(offset); }
      }
      e := Incomplete;
    }

    /** Pictures are published while the buffer holds whole ones. */
    method PublishPictures() returns (ok: bool)
      requires frameSequence == |frames| <= maxFrames
      modifies `png, `frames, `frameSequence
      ensures var r := Split(PICTURES, old(png), maxFrames - |old(frames)|);
              && frames == old(frames) + r.units && ok == !r.failed
              && (ok ==> png == r.rest && frameSequence == |frames|)
    {
      ghost var whole := Split(PICTURES, png, maxFrames - |frames|);
      while |png| >= 8
        invariant frameSequence == |frames| <= maxFrames
        invariant Taken(PICTURES, old(frames), whole, frames, png, maxFrames)
        decreases |png|
      {
        var e := FindEnd();
        if e.Incomplete? { break; }
        if e.Oversized? { TakenEnds(PICTURES, old(frames), whole, frames, png, maxFrames); return false; }
        frameSequence := frameSequence + 1;
        if frameSequence > maxFrames || !Admissible(png[..e.size]) {
          TakenEnds(PICTURES, old(frames), whole, frames, png, maxFrames);
          return false;
        }
        TakenStep(PICTURES, old(frames), whole, frames, png, maxFrames, e.size);
        frames, png := frames + [png[..e.size]], png[e.size..];
      }
      TakenEnds(PICTURES, old(frames), whole, frames, png, maxFrames);
      ok := true;
    }

    /** A piece of the picture stream. However the stream was cut, the frames published are those of the
        bytes received, and the share ends exactly when they hold something it refuses. */
    method OnPictures(piece: Bytes, connected: bool)
      requires Valid()
      modifies `ended, `png, `pcm, `frames, `frameSequence, `video
      ensures Valid()
      ensures if old(ended) || !connected then ended && frames == old(frames) && video == old(video)
              else if |piece| <= PIECE || |old(png)| + |piece| <= FRAME_CAP + PIECE then Shows(old(video) + piece)
              else ended && frames == old(frames)
    {
      hide Split, FirstPicture, Admissible;
      if ended || !connected { Stop(); return; }
      if |png| + |piece| > FRAME_CAP + PIECE {
        if |piece| <= PIECE { Overflow(video, piece, frames, png, maxFrames); }
        PicturesAreLocal();
        UnitsGrow(PICTURES, video, piece, maxFrames);
        video := video + piece;
        Stop();
        return;
      }
      AppendPictures(piece);
    }

    method AppendPictures(piece: Bytes)
      requires Valid() && !ended
      modifies `ended, `png, `pcm, `frames, `frameSequence, `video
      ensures Valid() && Shows(old(video) + piece)
    {
      hide Split, FirstPicture, Admissible;
      assert Carries(PICTURES, video, piece, frames, png, maxFrames) by {
        PicturesAreLocal();
        CarryOver(PICTURES, video, piece, frames, png, maxFrames);
      }
      video, png := video + piece, png + piece;
      var ok := PublishPictures();
      Concluded(PICTURES, old(video), piece, old(frames), old(png), frames, png, ok, maxFrames);
      if !ok { Stop(); }
    }

    /** The sink got the pictures of `received`, and the share goes on while nothing was refused. */
    ghost predicate Shows(received: Bytes)
      reads this
    {
      video == received && Outcome(PICTURES, received, maxFrames, frames, png, ended)
    }

    /** A piece of the sound stream, likewise. */
    method OnSound(piece: Bytes, connected: bool)
      requires Valid()
      modifies `ended, `png, `pcm, `packets, `audioSequence, `audio
      ensures Valid()
      ensures if old(ended) || !connected then ended && packets == old(packets) && audio == old(audio)
              else if |piece| <= PIECE || |old(pcm)| + |piece| <= PCM_LIMIT then Plays(old(audio) + piece)
              else ended && packets == old(packets)
    {
      hide Split, FirstPacket;
      if ended || !connected { Stop(); return; }
      LittleIsLeft(audio, maxPackets, packets, pcm);
      if |pcm| + |piece| > PCM_LIMIT {
        PacketsAreLocal();
        UnitsGrow(PACKETS, audio, piece, maxPackets);
        audio := audio + piece;
        Stop();
        return;
      }
      AppendSound(piece);
    }

    method AppendSound(piece: Bytes)
      requires Valid() && !ended
      modifies `ended, `png, `pcm, `packets, `audioSequence, `audio
      ensures Valid() && Plays(old(audio) + piece)
    {
      hide Split, FirstPacket;
      assert Carries(PACKETS, audio, piece, packets, pcm, maxPackets) by {
        PacketsAreLocal();
        CarryOver(PACKETS, audio, piece, packets, pcm, maxPackets);
      }
      audio, pcm := audio + piece, pcm + piece;
      var ok := PublishPackets();
      Concluded(PACKETS, old(audio), piece, old(packets), old(pcm), packets, pcm, ok, maxPackets);
      if !ok { Stop(); }
    }

    method PublishPackets() returns (ok: bool)
      requires audioSequence == |packets| <= maxPackets
      modifies `pcm, `packets, `audioSequence
      ensures var r := Split(PACKETS, old(pcm), maxPackets - |old(packets)|);
              && packets == old(packets) + r.units && ok == !r.failed
              && (ok ==> pcm == r.rest && audioSequence == |packets|)
    {
      ghost var whole := Split(PACKETS, pcm, maxPackets - |packets|);
      while |pcm| >= AUDIO_BYTES
        invariant audioSequence == |packets| <= maxPackets
        invariant Taken(PACKETS, old(packets), whole, packets, pcm, maxPackets)
        decreases |pcm|
      {
        audioSequence := audioSequence + 1;
        if audioSequence > maxPackets {
          TakenEnds(PACKETS, old(packets), whole, packets, pcm, maxPackets);
          return false;
        }
        TakenStep(PACKETS, old(packets), whole, packets, pcm, maxPackets, AUDIO_BYTES);
        packets, pcm := packets + [pcm[..AUDIO_BYTES]], pcm[AUDIO_BYTES..];
      }
      TakenEnds(PACKETS, old(packets), whole, packets, pcm, maxPackets);
      ok := true;
    }

    ghost predicate Plays(received: Bytes)
      reads this
    {
      audio == received && Outcome(PACKETS, received, maxPackets, packets, pcm, ended)
    }
  }

  /** Whatever the pipes delivered, and in whatever pieces: every frame published is an image, there are at most
      as many frames and packets as the length of the media allows, and every packet has 2560 bytes. */
  lemma PublishedIsAdmitted(d: Decoder)
    requires d.Valid()
    ensures forall k :: 0 <= k < |d.frames| ==> IsImage(d.frames[k])
    ensures forall k :: 0 <= k < |d.packets| ==> |d.packets[k]| == 2560
    ensures |d.frames| <= d.maxFrames && |d.packets| <= d.maxPackets
  {
    var pictures, sound := Split(PICTURES, d.video, d.maxFrames), Split(PACKETS, d.audio, d.maxPackets);
    forall k | 0 <= k < |d.frames|
      ensures IsImage(d.frames[k])
    {
      assert d.frames[k] == pictures.units[k];
      UnitsAreAdmitted(PICTURES, d.video, d.maxFrames, k);
      AdmissibleExactly(d.frames[k]);
    }
    PacketsAreSlices(d.audio, d.maxPackets);
    forall k | 0 <= k < |d.packets|
      ensures |d.packets[k]| == 2560
    {
      assert d.packets[k] == sound.units[k] == d.audio[AUDIO_BYTES * k..AUDIO_BYTES * (k + 1)];
    }
  }

  /** However a stream of PNGs is cut into pieces of at most 64 KiB, a new share publishes exactly those
      PNGs, is never ended by its limits, and is left holding nothing. */
  method PublishStream(d: Decoder, pieces: seq<Bytes>, ghost pictures: seq<Bytes>)
    requires d.Valid() && !d.ended && d.video == []
    requires ArePictures(pictures) && |pictures| <= d.maxFrames && Concat(pieces) == Concat(pictures)
    requires forall piece :: piece in pieces ==> |piece| <= PIECE
    modifies d
    ensures d.Valid() && !d.ended && d.frames == pictures && d.png == [] && d.video == Concat(pictures)
  {
    hide ArePictures, Split, FirstPicture, Admissible;
    for i := 0 to |pieces|
      invariant d.Valid() && !d.ended && d.video == Concat(pieces[..i])
    {
      d.OnPictures(pieces[i], true);
      ConcatLast(pieces[..i + 1]);
      assert pieces[..i + 1][..i] == pieces[..i];
      ConcatIsPrefix(pieces, i + 1);
      PrefixIsNotRefused(pictures, d.video, d.maxFrames);
    }
    assert pieces[..|pieces|] == pieces;
    WholeStream(pictures, d.maxFrames);
  }
}
