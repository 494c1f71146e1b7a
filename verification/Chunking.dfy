/** The arithmetic of prepareToSendFile of socket/info/InfoWebSocket.java, and the pieces into which it cuts
    the firmware for the upload frames. */
module Chunking {
  import opened Bytes
  import Base64
  import opened Frames

  /** The image arrives Base64-encoded in one string, whose length is an int. */
  type File = s: seq<Byte> | |s| < 0x6000_0000

  /** One call of prepareToSendFile: the buffer size the sink reported, the time that stamps
      the frames, the file name drawn and the firmware image. */
  datatype Job = Job(buffSize: Int, time: Millis, fileName: FileName, bytes: File)

  /** How the straight part of the loop ends, where `i` equals `offset`.  `Finished`: a step of zero.
      `Crashed`: a step beyond the file, which copyOfRange refuses.  `Strayed`: a negative step moves `i`
      away from `offset`; module Cutting follows the loop from there. */
  datatype End = Finished | Crashed | Strayed

  /** Java's division truncates toward zero. */
  function TruncDiv(x: int, y: int): int
    requires y > 0
  {
    if x >= 0 then x / y else -((-x) / y)
  }

  lemma {:induction false} QuotientTowardsZero(x: int, y: int)
    requires y > 0
    ensures x >= 0 ==> y * TruncDiv(x, y) <= x < y * TruncDiv(x, y) + y
    ensures x <= 0 ==> y * TruncDiv(x, y) - y < x <= y * TruncDiv(x, y)
  {
    if x >= 0 {
      QuotientOf(x, y, x / y);
    } else {
      QuotientOf(-x, y, -x / y);
    }
  }

  lemma {:induction false} QuotientOf(x: nat, y: nat, q: int)
    requires y > 0 && q == x / y
    ensures y * q <= x < y * q + y && y * -q == -(y * q)
  {
  }

  /** The three assignments to stepSize that precede the comparison with the file's end. */
  function Computed(buffSize: Int, jsonLength: Int): Int {
    var s := Wrap(buffSize - jsonLength);
    var m := Wrap(TruncDiv(Wrap(s * 3), 4) - 4);
    Wrap(m - LogTerm(Wrap(m + 1)))
  }

  function Template(job: Job, offset: nat): Frame {
    Frame(job.time, job.fileName, |job.bytes|, offset, 0, "")
  }

  /** What the helper answers for the frame that starts at `offset`. */
  function HeaderLength(job: Job, offset: nat): Int
    requires offset <= |job.bytes|
  {
    CalculateJsonLength(Size(Template(job, offset)), offset)
  }

  /** The step actually taken. */
  function Step(job: Job, offset: nat): Int
    requires offset <= |job.bytes|
  {
    var computed := Computed(job.buffSize, HeaderLength(job, offset));
    if Wrap(offset + computed) > |job.bytes| then |job.bytes| - offset else computed
  }

  /** A piece of the file, and the run of the loop as the pieces it cuts. */
  datatype Piece = Piece(offset: nat, size: nat)

  datatype Run = Run(pieces: seq<Piece>, end: End)

  /** The run from `offset` over a file of `length` bytes when
      the steps taken are given by `steps`. */
  function Pieces(length: nat, steps: int -> int, offset: nat): (run: Run)
    requires offset <= length
    ensures Within(length, run.pieces)
    decreases length - offset
  {
    var step := steps(offset);
    if step == 0 then Run([], Finished)
    else if step < 0 then Run([], Strayed)
    else if offset + step > length then Run([], Crashed)
    else
      var rest := Pieces(length, steps, offset + step);
      Run([Piece(offset, step)] + rest.pieces, rest.end)
  }

  lemma {:induction false} PiecesUnfold(length: nat, steps: int -> int, offset: nat)
    requires offset <= length
    ensures var step, run := steps(offset), Pieces(length, steps, offset);
            if step == 0 then run == Run([], Finished)
            else if step < 0 then run == Run([], Strayed)
            else if offset + step > length then run == Run([], Crashed)
            else
              var rest := Pieces(length, steps, offset + step);
              run == Run([Piece(offset, step)] + rest.pieces, rest.end)
  {
  }

  function Steps(job: Job): int -> int {
    (offset: int) => if 0 <= offset <= |job.bytes| then Step(job, offset) else 0
  }

  lemma {:induction false} StepsAre(job: Job, offset: nat)
    requires offset <= |job.bytes|
    ensures Steps(job)(offset) == Step(job, offset)
  {
    hide Step;
  }

  /** The frame for a piece as it is sent. */
  function Chunk(job: Job, piece: Piece): Frame
    requires piece.offset + piece.size <= |job.bytes|
  {
    Template(job, piece.offset).(
      dataSize := piece.size,
      data := Base64.Encode(job.bytes[piece.offset..piece.offset + piece.size]))
  }

  function Whole(job: Job): Run {
    Pieces(|job.bytes|, Steps(job), 0)
  }

  predicate Within(length: nat, pieces: seq<Piece>) {
    forall n :: 0 <= n < |pieces| ==> pieces[n].offset + pieces[n].size <= length
  }

  function Chunks(job: Job, pieces: seq<Piece>): (frames: seq<Frame>)
    requires Within(|job.bytes|, pieces)
    ensures |frames| == |pieces|
  {
    seq(|pieces|, n requires 0 <= n < |pieces| => Chunk(job, pieces[n]))
  }

  // ---------------------------------------------------------------------------
  // What the chunks carry.

  function Total(pieces: seq<Piece>): nat {
    if pieces == [] then 0 else pieces[0].size + Total(pieces[1..])
  }

  /** However the loop ends, the pieces are non-empty and follow one another without gap
      or overlap. */
  lemma {:induction false} PiecesAreContiguous(length: nat, steps: int -> int, offset: nat, n: nat)
    requires offset <= length
    ensures var pieces := Pieces(length, steps, offset).pieces;
            && offset + Total(pieces) <= length
            && (n < |pieces| ==>
                && pieces[n].offset == offset + Total(pieces[..n])
                && pieces[n].size > 0
                && pieces[n].size == steps(pieces[n].offset)
                && pieces[n].offset + pieces[n].size <= length)
    decreases length - offset
  {
    var pieces := Pieces(length, steps, offset).pieces;
    if pieces != [] {
      var end := offset + steps(offset);
      assert pieces[1..] == Pieces(length, steps, end).pieces;
      PiecesAreContiguous(length, steps, end, if n == 0 then 0 else n - 1);
      if 0 < n < |pieces| {
        assert pieces[..n][1..] == pieces[1..][..n - 1];
      }
    }
  }

  function Concat(parts: seq<seq<Byte>>): seq<Byte> {
    if parts == [] then [] else parts[0] + Concat(parts[1..])
  }

  /** The file a sink reassembles from the frames in the order they arrive. */
  function Payload(frames: seq<Frame>): seq<Byte> {
    Concat(seq(|frames|, n requires 0 <= n < |frames| => Base64.Decode(frames[n].data)))
  }

  lemma {:induction false} SlicesJoin(bytes: seq<Byte>, pieces: seq<Piece>, parts: seq<seq<Byte>>, offset: nat)
    requires |parts| == |pieces| && offset + Total(pieces) <= |bytes|
    requires forall n :: 0 <= n < |pieces| ==>
               && pieces[n].offset == offset + Total(pieces[..n])
               && pieces[n].offset + pieces[n].size <= |bytes|
               && parts[n] == bytes[pieces[n].offset..pieces[n].offset + pieces[n].size]
    ensures Concat(parts) == bytes[offset..offset + Total(pieces)]
    decreases |pieces|
  {
    hide Total;
    TotalOfNone();
    if pieces == [] {
      assert bytes[offset..offset] == [];
    } else {
      var rest, end := pieces[1..], offset + pieces[0].size;
      assert pieces[..0] == [] && pieces[0].offset == offset;
      TotalSplit(pieces);
      forall n | 0 <= n < |rest|
        ensures rest[n].offset == end + Total(rest[..n])
      {
        TotalOfTail(pieces, n);
        assert rest[n] == pieces[n + 1];
      }
      SlicesJoin(bytes, rest, parts[1..], end);
      JoinSlices(bytes, offset, end, end + Total(rest));
    }
  }

  lemma {:induction false} JoinSlices(bytes: seq<Byte>, low: nat, middle: nat, high: nat)
    requires low <= middle <= high <= |bytes|
    ensures bytes[low..middle] + bytes[middle..high] == bytes[low..high]
  {
  }

  lemma {:induction false} TotalOfNone()
    ensures Total([]) == 0
  {
  }

  lemma {:induction false} TotalOfMore(piece: Piece, rest: seq<Piece>)
    ensures Total([piece] + rest) == piece.size + Total(rest)
  {
    assert ([piece] + rest)[1..] == rest;
  }

  lemma {:induction false} TotalSplit(pieces: seq<Piece>)
    requires pieces != []
    ensures Total(pieces) == pieces[0].size + Total(pieces[1..])
  {
  }

  lemma {:induction false} TotalOfTail(pieces: seq<Piece>, n: nat)
    requires n + 1 < |pieces|
    ensures Total(pieces[..n + 1]) == pieces[0].size + Total(pieces[1..][..n])
  {
    assert pieces[..n + 1][1..] == pieces[1..][..n];
  }

  lemma {:induction false} ChunkCarries(job: Job, piece: Piece)
    requires piece.offset + piece.size <= |job.bytes|
    ensures Base64.Decode(Chunk(job, piece).data) == job.bytes[piece.offset..piece.offset + piece.size]
  {
    var slice := job.bytes[piece.offset..piece.offset + piece.size];
    assert Chunk(job, piece).data == Base64.Encode(slice);
    Base64.RoundTrip(slice);
  }

  /** However the loop ends, what the frames carry is a prefix of the file. */
  lemma {:induction false} PayloadIsPrefix(job: Job)
    ensures Total(Whole(job).pieces) <= |job.bytes|
    ensures Payload(Chunks(job, Whole(job).pieces)) == job.bytes[..Total(Whole(job).pieces)]
  {
    var pieces := Whole(job).pieces;
    PiecesAreContiguous(|job.bytes|, Steps(job), 0, 0);
    forall n | 0 <= n < |pieces|
      ensures pieces[n].offset == Total(pieces[..n])
    {
      PiecesAreContiguous(|job.bytes|, Steps(job), 0, n);
    }
    PayloadOfChunks(job, pieces);
  }

  lemma {:induction false} PayloadOfChunks(job: Job, pieces: seq<Piece>)
    requires Within(|job.bytes|, pieces) && Total(pieces) <= |job.bytes|
    requires forall n :: 0 <= n < |pieces| ==> pieces[n].offset == Total(pieces[..n])
    ensures Payload(Chunks(job, pieces)) == job.bytes[..Total(pieces)]
  {
    var uploads := Chunks(job, pieces);
    var parts := seq(|uploads|, n requires 0 <= n < |uploads| => Base64.Decode(uploads[n].data));
    forall n | 0 <= n < |pieces|
      ensures parts[n] == job.bytes[pieces[n].offset..pieces[n].offset + pieces[n].size]
    {
      ChunkCarries(job, pieces[n]);
    }
    SlicesJoin(job.bytes, pieces, parts, 0);
  }

  /** Every frame names the file, tells its size and the time, and starts where the frames before it end; it says
      how many bytes it carries. */
  lemma {:induction false} FramesBelong(job: Job, n: nat)
    requires n < |Whole(job).pieces|
    ensures var frames := Chunks(job, Whole(job).pieces);
            && frames[n].fileName == job.fileName
            && frames[n].fileSize == |job.bytes|
            && frames[n].time == job.time
            && frames[n].offset == |Payload(frames[..n])|
            && frames[n].dataSize == |Base64.Decode(frames[n].data)| > 0
            && frames[n].offset + frames[n].dataSize <= |job.bytes|
            && Base64.Decode(frames[n].data) == job.bytes[frames[n].offset..frames[n].offset + frames[n].dataSize]
  {
    var pieces := Whole(job).pieces;
    hide Steps, Step, Payload, Pieces, Base64.Decode, Base64.Encode;
    PiecesFromStart(job, n);
    ChunkCarries(job, pieces[n]);
    assert Chunks(job, pieces)[..n] == Chunks(job, pieces[..n]);
    forall m | 0 <= m < n
      ensures pieces[..n][m].offset == Total(pieces[..n][..m])
    {
      PiecesFromStart(job, m);
      assert pieces[..n][..m] == pieces[..m];
    }
    PayloadOfChunks(job, pieces[..n]);
  }

  lemma {:induction false} PiecesFromStart(job: Job, n: nat)
    requires n < |Whole(job).pieces|
    ensures var pieces := Whole(job).pieces;
            && pieces[n].offset == Total(pieces[..n]) <= |job.bytes|
            && pieces[n].size > 0 && pieces[n].offset + pieces[n].size <= |job.bytes|
  {
    PiecesAreContiguous(|job.bytes|, Steps(job), 0, n);
  }

  // ---------------------------------------------------------------------------
  // When a frame fits the sink's buffer.

  /** What is left of the buffer once the helper's header length is taken off. */
  function Room(job: Job, offset: nat): int
    requires offset <= |job.bytes|
  {
    job.buffSize - HeaderLength(job, offset)
  }

  /** Three quarters of the room, less four, in wrapping ints. */
  function Quota(job: Job, offset: nat): Int
    requires offset <= |job.bytes|
  {
    QuotaOf(job.buffSize, HeaderLength(job, offset))
  }

  function QuotaOf(buffSize: Int, jsonLength: Int): Int {
    Wrap(TruncDiv(TripleOf(buffSize, jsonLength), 4) - 4)
  }

  function TripleOf(buffSize: Int, jsonLength: Int): Int {
    Wrap(Wrap(buffSize - jsonLength) * 3)
  }

  /** The step that the arithmetic means to compute: the quota less the digits it can have. */
  function Sized(quota: int): (step: int)
    requires quota >= 2
    ensures 0 < step < quota
  {
    CeilLog10Small(quota + 1);
    CeilLog10Monotone(2, quota + 1);
    assert CeilLog10(2) == 1;
    quota - CeilLog10(quota + 1)
  }

  /** A quota of -1 takes the logarithm of zero, whose cast saturates, and the step becomes the largest int;
      below that it is negative, and from 2 on positive. */
  lemma {:induction false} ComputedByQuota(buffSize: Int, jsonLength: Int)
    ensures var quota, step := QuotaOf(buffSize, jsonLength), Computed(buffSize, jsonLength);
            && -0x2000_0004 <= quota < 0x2000_0000
            && (quota < -1 ==> step == quota)
            && (quota == -1 ==> step == INT_MAX)
            && (0 <= quota <= 1 ==> step == 0)
            && (quota >= 2 ==> 0 < step == Sized(quota) <= 0x2000_0000)
  {
    var quota := QuotaOf(buffSize, jsonLength);
    assert -0x2000_0004 <= quota < 0x2000_0000;
    if quota >= 0 {
      CeilLog10Bounded(quota + 1);
      assert CeilLog10(1) == 0 && CeilLog10(2) == 1;
    }
  }

  const LEAST_SIZE := -700_000_000

  /** For a buffer up to a third of the largest int, or almost as far below zero, nothing overflows. */
  lemma {:induction false} QuotaByRoom(job: Job, offset: nat)
    requires LEAST_SIZE <= job.buffSize <= INT_MAX / 3 && offset <= |job.bytes|
    ensures var room, quota := Room(job, offset), Quota(job, offset);
            && (room <= 3 <==> quota < -1)
            && (4 <= room <= 5 <==> quota == -1)
            && (6 <= room <= 7 <==> 0 <= quota <= 1)
            && (room >= 8 ==> quota == 3 * room / 4 - 4)
  {
    HeaderSmall(job, offset);
    hide HeaderLength;
  }

  lemma {:induction false} HeaderSmall(job: Job, offset: nat)
    requires offset <= |job.bytes|
    ensures 0 <= HeaderLength(job, offset) <= 1000
    ensures HeaderLength(job, offset)
         == Size(Template(job, offset)) + if offset == 0 then 0 else |Decimal(offset)|
  {
    DecimalShort(job.time);
    DecimalShort(|job.bytes|);
    DecimalShort(offset);
    JsonLengthCountsOffsetAgain(Size(Template(job, offset)), offset);
  }

  lemma {:induction false} DecimalShort(n: nat)
    requires n < 10_000_000_000_000
    ensures |Decimal(n)| <= 13
  {
    assert Pow10(13) == 10_000_000_000_000;
    hide *;
    DecimalLength(n);
    CeilLog10Monotone(n + 1, 10_000_000_000_000);
    CeilLog10OfPower(13);
  }

  /** The step taken from `offset`, case by case. */
  lemma {:induction false} StepByQuota(job: Job, offset: nat)
    requires offset <= |job.bytes|
    ensures var quota, step, left := Quota(job, offset), Step(job, offset), |job.bytes| - offset;
            && (quota < -1 ==> step == quota)
            && (quota == -1 ==> step == if offset == 0 then left else INT_MAX)
            && (0 <= quota <= 1 ==> step == 0)
            && (quota >= 2 ==> step == if Sized(quota) <= left then Sized(quota) else left)
  {
    ComputedByQuota(job.buffSize, HeaderLength(job, offset));
    hide Computed, HeaderLength, QuotaOf, Sized;
  }

  /** A chunk that the arithmetic sized fits. */
  lemma {:induction false} SizedChunkFits(job: Job, piece: Piece)
    requires job.buffSize >= 0 && piece.offset + piece.size <= |job.bytes| && piece.size > 0
    requires Quota(job, piece.offset) >= 2 && piece.size <= Sized(Quota(job, piece.offset))
    ensures |Json(Chunk(job, piece))| <= job.buffSize
  {
    hide *;
    var quota, header := Quota(job, piece.offset), HeaderLength(job, piece.offset);
    FilesAreShort(job);
    HeaderSmall(job, piece.offset);
    ChunkSize(job, piece);
    DigitsBound(quota, piece.size);
    QuotaIs(job, piece.offset);
    RoomForQuota(job.buffSize, header);
    FitsArithmetic(job.buffSize - Size(Template(job, piece.offset)), quota, CeilLog10(quota + 1),
                   |Decimal(piece.size)|, piece.size);
  }

  lemma {:induction false} QuotaIs(job: Job, offset: nat)
    requires offset <= |job.bytes|
    ensures Quota(job, offset) == QuotaOf(job.buffSize, HeaderLength(job, offset))
  {
    hide QuotaOf, HeaderLength;
  }

  lemma {:induction false} DigitsBound(quota: int, size: nat)
    requires quota >= 2 && 0 < size <= Sized(quota)
    ensures |Decimal(size)| <= CeilLog10(quota + 1) && size <= quota - CeilLog10(quota + 1)
  {
    DecimalLength(size);
    CeilLog10Monotone(size + 1, quota + 1);
    hide CeilLog10, Decimal;
  }

  lemma {:induction false} RoomForQuota(buffSize: Int, jsonLength: Int)
    requires buffSize >= 0 && 0 <= jsonLength <= 1000 && QuotaOf(buffSize, jsonLength) >= 0
    ensures 3 * (buffSize - jsonLength) >= 4 * (QuotaOf(buffSize, jsonLength) + 4)
  {
  }

  lemma {:induction false} FitsArithmetic(room: int, quota: int, digits: int, own: int, size: nat)
    requires 3 * room >= 4 * (quota + 4) && 0 <= own <= digits && size <= quota - digits
    ensures own - 1 + 4 * ((size + 2) / 3) <= room
  {
  }

  lemma {:induction false} ChunkSize(job: Job, piece: Piece)
    requires piece.offset + piece.size <= |job.bytes|
    ensures |Json(Chunk(job, piece))|
         == Size(Template(job, piece.offset)) - 1 + |Decimal(piece.size)| + 4 * ((piece.size + 2) / 3)
  {
    hide Json, Size, Base64.Encode;
    var slice := job.bytes[piece.offset..piece.offset + piece.size];
    JsonSize(Chunk(job, piece));
    Base64.EncodedLength(slice);
    FilledSize(Template(job, piece.offset), piece.size, Base64.Encode(slice));
  }

  lemma {:induction false} FilledSize(template: Frame, size: nat, data: string)
    requires template.dataSize == 0 && template.data == ""
    ensures Size(template.(dataSize := size, data := data)) == Size(template) - 1 + |Decimal(size)| + |data|
  {
    assert |Decimal(0)| == 1;
    hide Decimal;
  }

  predicate AllFit(job: Job) {
    var pieces := Whole(job).pieces;
    forall n :: 0 <= n < |pieces| ==> |Json(Chunk(job, pieces[n]))| <= job.buffSize
  }

  /** No frame is made at all. */
  predicate NoFrame(job: Job) {
    job.bytes == [] || Quota(job, 0) < -1 || 0 <= Quota(job, 0) <= 1
  }

  /** Every frame fits the sink's buffer, for every buffer size and every file, unless the size is negative or
      the very first frame takes the logarithm of zero; that frame holds the whole file, and fits exactly if
      the digits of the file's length and its Base64 text do. */
  lemma {:induction false} FramesFitExactly(job: Job)
    ensures AllFit(job)
       <==> || NoFrame(job)
            || (job.buffSize >= 0 && (Quota(job, 0) == -1 ==> SaturatedLength(|job.bytes|) <= Room(job, 0) + 1))
  {
    hide Json, Chunk, Quota, Room, SaturatedLength, Sized;
    if NoFrame(job) {
      NoPieces(job);
    } else if Quota(job, 0) == -1 {
      SaturatedFrame(job);
    } else {
      FirstPiece(job);
      assert |Json(Chunk(job, Whole(job).pieces[0]))| > -1;
      forall n | 0 <= n < |Whole(job).pieces| && job.buffSize >= 0
        ensures |Json(Chunk(job, Whole(job).pieces[n]))| <= job.buffSize
      {
        SizedFrame(job, n);
      }
    }
  }

  /** In the usual range of sizes: four or five characters are left at the start, and the file has more than
      three bytes. */
  lemma {:induction false} FramesFitBelowThird(job: Job)
    requires LEAST_SIZE <= job.buffSize <= INT_MAX / 3
    ensures AllFit(job) <==> !(4 <= Room(job, 0) <= 5 && |job.bytes| > 3)
  {
    hide AllFit, Quota, HeaderLength;
    HeaderSmall(job, 0);
    FramesFitExactly(job);
    QuotaByRoom(job, 0);
    ShortText(|job.bytes|);
  }

  function SaturatedLength(n: nat): nat {
    |Decimal(n)| + 4 * ((n + 2) / 3)
  }

  lemma {:induction false} ShortText(n: nat)
    ensures n <= 3 ==> SaturatedLength(n) <= 5
    ensures n > 3 ==> SaturatedLength(n) > 6
  {
  }

  lemma {:induction false} NoPieces(job: Job)
    requires NoFrame(job)
    ensures Whole(job).pieces == []
  {
    StepByQuota(job, 0);
    assert Steps(job)(0) == Step(job, 0);
    hide Step, Quota, Sized;
  }

  lemma {:induction false} FirstPiece(job: Job)
    requires !NoFrame(job)
    ensures Whole(job).pieces != []
  {
    StepByQuota(job, 0);
    assert Steps(job)(0) == Step(job, 0);
    hide Step, Quota;
  }

  /** The frame made when the step saturates holds the whole file. */
  lemma {:induction false} SaturatedFrame(job: Job)
    requires Quota(job, 0) == -1 && job.bytes != []
    ensures AllFit(job) <==> job.buffSize >= 0 && SaturatedLength(|job.bytes|) <= Room(job, 0) + 1
  {
    OnePieceOnly(job);
    HeaderSmall(job, 0);
    ChunkSize(job, Piece(0, |job.bytes|));
    hide Json, Chunk, HeaderLength;
    assert AllFit(job) <==> |Json(Chunk(job, Whole(job).pieces[0]))| <= job.buffSize;
  }

  lemma {:induction false} WholeStep(job: Job, n: nat)
    requires n < |Whole(job).pieces|
    ensures var piece := Whole(job).pieces[n];
            && piece.offset + piece.size <= |job.bytes|
            && 0 < piece.size == Step(job, piece.offset)
            && (piece.offset == 0 <==> n == 0)
  {
    hide Step, HeaderLength;
    PiecesAreContiguous(|job.bytes|, Steps(job), 0, n);
    var pieces := Whole(job).pieces;
    assert Steps(job)(pieces[n].offset) == Step(job, pieces[n].offset);
    if n > 0 {
      PiecesAreContiguous(|job.bytes|, Steps(job), 0, 0);
      TotalPositive(pieces[..n]);
    }
  }

  lemma {:induction false} SizedFrame(job: Job, n: nat)
    requires job.buffSize >= 0 && Quota(job, 0) != -1 && n < |Whole(job).pieces|
    ensures |Json(Chunk(job, Whole(job).pieces[n]))| <= job.buffSize
  {
    assert |job.bytes| < 0x6000_0000;
    hide *;
    WholeStep(job, n);
    var piece := Whole(job).pieces[n];
    StepByQuota(job, piece.offset);
    FilesAreShort(job);
    SizedChunkFits(job, piece);
  }

  lemma {:induction false} FilesAreShort(job: Job)
    ensures |job.bytes| < INT_MAX
  {
  }

  lemma {:induction false} TotalPositive(pieces: seq<Piece>)
    requires pieces != [] && pieces[0].size > 0
    ensures Total(pieces) > 0
  {
  }

  lemma {:induction false} OnePieceOnly(job: Job)
    requires Quota(job, 0) == -1 && job.bytes != []
    ensures Whole(job).pieces == [Piece(0, |job.bytes|)]
  {
    var length := |job.bytes|;
    StepByQuota(job, 0);
    StepByQuota(job, length);
    assert Steps(job)(0) == Step(job, 0) && Steps(job)(length) == Step(job, length);
    hide Step, Quota;
    assert Pieces(length, Steps(job), length).pieces == [];
  }

  // ---------------------------------------------------------------------------
  // When the whole file is cut.

  /** The header grows with the digits of the offset, each of them counted twice. */
  lemma {:induction false} HeaderGrows(job: Job, offset: nat, more: nat)
    requires offset + more <= |job.bytes| && more > 0
    ensures 0 <= HeaderLength(job, offset + more) - HeaderLength(job, offset) <= 2 * |Decimal(more)|
    ensures more == 1 && offset == 0 ==> HeaderLength(job, 1) - HeaderLength(job, 0) == 1
  {
    HeaderSmall(job, offset);
    HeaderSmall(job, offset + more);
    DecimalMonotone(offset, offset + more);
    DigitsAdd(offset, more);
    assert |Decimal(0)| == |Decimal(1)| == 1;
    hide HeaderLength, Decimal;
  }

  lemma {:induction false} DigitsAdd(m: nat, n: nat)
    requires n > 0
    ensures |Decimal(m + n)| <= |Decimal(m)| + |Decimal(n)|
  {
    var most := if m <= n then n else m;
    assert |Decimal(10 * most)| == |Decimal(most)| + 1;
    DecimalMonotone(m + n, 10 * most);
  }

  lemma {:induction false} DigitsFew(n: nat)
    ensures |Decimal(n)| <= 1 + n / 10
  {
    if n >= 10 {
      DigitsFew(n / 10);
    }
  }

  /** The room shrinks as the offset gains digits, so it is least at the end of the file. */
  lemma {:induction false} RoomShrinks(job: Job, offset: nat, later: nat)
    requires offset <= later <= |job.bytes|
    ensures Room(job, offset) >= Room(job, later)
  {
    if offset < later {
      HeaderGrows(job, offset, later - offset);
    }
    hide HeaderLength;
  }

  /** After a positive step, whole or cut, the next step is never negative: the digits gained take less than
      the step left over. */
  lemma {:induction false} NextQuota(job: Job, offset: nat, size: nat)
    requires offset + size <= |job.bytes| && Quota(job, offset) >= 2 && 0 < size <= Sized(Quota(job, offset))
    ensures Quota(job, offset + size) >= 0
    ensures 0 <= job.buffSize <= INT_MAX / 3 && Room(job, offset) >= 10 ==> Room(job, offset + size) >= 8
    ensures 0 <= job.buffSize <= INT_MAX / 3 && Room(job, offset) >= 8 ==> Room(job, offset + size) >= 6
  {
    HeaderSmall(job, offset);
    HeaderSmall(job, offset + size);
    HeaderGrows(job, offset, size);
    DigitsFew(size);
    hide HeaderLength, Decimal, Sized;
    QuotaDrops(job.buffSize, HeaderLength(job, offset), HeaderLength(job, offset + size), size);
  }

  lemma {:induction false} QuotaDrops(buffSize: Int, before: Int, after: Int, size: nat)
    requires 0 <= before <= after <= 1000 && size > 0
    requires QuotaOf(buffSize, before) > size
    requires after - before <= 2 + 2 * (size / 10)
    ensures QuotaOf(buffSize, after) >= 0
    ensures 0 <= buffSize <= INT_MAX / 3 && buffSize - before >= 10 ==> buffSize - after >= 8
    ensures 0 <= buffSize <= INT_MAX / 3 && buffSize - before >= 8 ==> buffSize - after >= 6
  {
    var triple, drop := TripleOf(buffSize, before), 3 * (after - before);
    assert triple >= 4 * (size + 5);
    assert drop <= 6 + 6 * (size / 10) <= 6 + size;
    assert TripleOf(buffSize, after) == triple - drop;
  }

  /** A run whose steps are positive up to the end of the file, and zero there, cuts it all. */
  lemma {:induction false} PositiveStepsCover(length: nat, steps: int -> int, offset: nat)
    requires offset <= length && steps(length) == 0
    requires forall o :: 0 <= o < length ==> 0 < steps(o) <= length - o
    ensures Pieces(length, steps, offset).end == Finished
    ensures offset + Total(Pieces(length, steps, offset).pieces) == length
    decreases length - offset
  {
    if offset < length {
      PositiveStepsCover(length, steps, offset + steps(offset));
      assert Pieces(length, steps, offset).pieces[1..] == Pieces(length, steps, offset + steps(offset)).pieces;
    }
  }

  /** From every byte of the file the computed step is positive. */
  ghost predicate Roomy(job: Job) {
    forall o :: 0 <= o < |job.bytes| ==> Quota(job, o) >= 2
  }

  /** Room for eight characters at the file's last byte is enough. */
  lemma {:induction false} RoomAtEnd(job: Job)
    requires job.bytes != [] && job.buffSize <= INT_MAX / 3 && Room(job, |job.bytes| - 1) >= 8
    ensures Roomy(job)
  {
    HeaderSmall(job, |job.bytes| - 1);
    forall o | 0 <= o < |job.bytes| ensures Quota(job, o) >= 2 {
      RoomShrinks(job, o, |job.bytes| - 1);
      QuotaByRoom(job, o);
    }
  }

  /** With a positive step from every byte the loop finishes, and the frames carry the whole file. */
  lemma {:induction false} CutsWholeFile(job: Job)
    requires Roomy(job) && job.bytes != []
    ensures Whole(job).end == Finished
    ensures Payload(Chunks(job, Whole(job).pieces)) == job.bytes
  {
    hide *;
    var length, steps := |job.bytes|, Steps(job);
    WholeIs(job);
    PayloadIsPrefix(job);
    forall o | 0 <= o <= length
      ensures if o < length then 0 < steps(o) <= length - o else steps(o) == 0
    {
      StepAtLeastOne(job, o);
    }
    PositiveStepsCover(length, steps, 0);
    assert job.bytes[..length] == job.bytes;
  }

  lemma {:induction false} WholeIs(job: Job)
    ensures Whole(job) == Pieces(|job.bytes|, Steps(job), 0)
  {
    hide Pieces, Steps;
  }

  lemma {:induction false} StepAtLeastOne(job: Job, offset: nat)
    requires Roomy(job) && job.bytes != [] && offset <= |job.bytes|
    ensures var step, left := Steps(job)(offset), |job.bytes| - offset;
            if left > 0 then 0 < step <= left else step == 0
  {
    assert Steps(job)(offset) == Step(job, offset);
    var last := |job.bytes| - 1;
    assert Quota(job, last) >= 2 && (offset <= last ==> Quota(job, offset) >= 2);
    hide *;
    NextQuota(job, last, 1);
    StepByQuota(job, offset);
  }

  ghost predicate Finishes(job: Job, offset: nat)
    requires offset <= |job.bytes|
  {
    Pieces(|job.bytes|, Steps(job), offset).end == Finished
  }

  lemma {:induction false} FinishesWith(job: Job, offset: nat)
    requires offset <= |job.bytes|
    ensures var step := Step(job, offset);
            && (step == 0 ==> Finishes(job, offset))
            && (0 < step <= |job.bytes| - offset ==> (Finishes(job, offset) <==> Finishes(job, offset + step)))
  {
    hide Step, Steps, Pieces;
    StepsAre(job, offset);
    PiecesUnfold(|job.bytes|, Steps(job), offset);
  }

  lemma {:induction false} StepKeepsQuota(job: Job, offset: nat)
    requires offset <= |job.bytes| && Quota(job, offset) >= 0
    ensures var step := Step(job, offset); 0 <= step <= |job.bytes| - offset && Quota(job, offset + step) >= 0
  {
    hide *;
    StepByQuota(job, offset);
    if Step(job, offset) > 0 {
      NextQuota(job, offset, Step(job, offset));
    }
  }

  /** Once the quota is not negative the loop ends with a zero step. */
  lemma {:induction false} NeverStrays(job: Job, offset: nat)
    requires offset <= |job.bytes| && Quota(job, offset) >= 0
    ensures Finishes(job, offset)
    decreases |job.bytes| - offset
  {
    hide *;
    StepKeepsQuota(job, offset);
    FinishesWith(job, offset);
    if Step(job, offset) > 0 {
      NeverStrays(job, offset + Step(job, offset));
    }
  }

  /** Three times the room, in wrapping ints. */
  function Triple(job: Job, offset: nat): Int
    requires offset <= |job.bytes|
  {
    TripleOf(job.buffSize, HeaderLength(job, offset))
  }

  lemma {:induction false} TripleIs(job: Job, offset: nat)
    requires offset <= |job.bytes|
    ensures var triple, quota := Triple(job, offset), Quota(job, offset);
            && (triple >= 0 ==> quota == triple / 4 - 4)
            && (quota >= 0 <==> triple >= 16) && (quota >= 2 <==> triple >= 24)
    ensures LEAST_SIZE <= job.buffSize <= INT_MAX / 3 ==> Triple(job, offset) == 3 * Room(job, offset)
  {
    HeaderSmall(job, offset);
    hide HeaderLength;
  }

  /** It falls with the header, and by six for each digit of a step at most. */
  lemma {:induction false} TripleFalls(job: Job, offset: nat, more: nat)
    requires offset + more <= |job.bytes| && Triple(job, offset) >= 16
    ensures Triple(job, offset) - 6 - 6 * (more / 10) <= Triple(job, offset + more) <= Triple(job, offset)
  {
    hide HeaderLength, Decimal, TripleOf;
    HeaderSmall(job, offset);
    HeaderSmall(job, offset + more);
    if more > 0 {
      HeaderGrows(job, offset, more);
    }
    DigitsFew(more);
    TripleDrop(job.buffSize, HeaderLength(job, offset), HeaderLength(job, offset + more));
  }

  lemma {:induction false} TripleDrop(buffSize: Int, before: Int, after: Int)
    requires 0 <= before <= after <= 1000 && TripleOf(buffSize, before) >= 16
    ensures TripleOf(buffSize, after) == TripleOf(buffSize, before) - 3 * (after - before)
  {
  }

  /** A loop that can go on from an offset in front of the last byte, but not from there, stops in between. */
  lemma {:induction false} StopsShort(job: Job, offset: nat)
    requires offset < |job.bytes| && Triple(job, offset) >= 16 && Triple(job, |job.bytes| - 1) < 22
    ensures offset + Total(Pieces(|job.bytes|, Steps(job), offset).pieces) < |job.bytes|
    decreases |job.bytes| - offset
  {
    var length, steps, step := |job.bytes|, Steps(job), Step(job, offset);
    hide *;
    StepsAre(job, offset);
    StepBeforeLast(job, offset);
    PiecesUnfold(length, steps, offset);
    TotalOfNone();
    if step > 0 {
      StopsShort(job, offset + step);
      TotalOfMore(Piece(offset, step), Pieces(length, steps, offset + step).pieces);
    }
  }

  /** A step that reached the end would leave too much at the last byte: of one, nothing is lost on the way, one of
      two leaves 22 or more, and any longer one leaves 24. */
  lemma {:induction false} StepBeforeLast(job: Job, offset: nat)
    requires offset < |job.bytes| && Triple(job, offset) >= 16 && Triple(job, |job.bytes| - 1) < 22
    ensures var step := Step(job, offset);
            0 <= step < |job.bytes| - offset && Triple(job, offset + step) >= 16
  {
    hide *;
    TripleIs(job, offset);
    StepKeepsQuota(job, offset);
    TripleIs(job, offset + Step(job, offset));
    NotOver(job, offset);
  }

  lemma {:induction false} NotOver(job: Job, offset: nat)
    requires offset < |job.bytes| && Triple(job, offset) >= 16 && Triple(job, |job.bytes| - 1) < 22
    ensures Step(job, offset) < |job.bytes| - offset
  {
    hide *;
    var quota, more := Quota(job, offset), |job.bytes| - 1 - offset;
    TripleIs(job, offset);
    StepByQuota(job, offset);
    if quota >= 2 {
      TripleFalls(job, offset, more);
      SizedBelow(quota);
      JumpLeaves(Triple(job, offset), quota, more, Sized(quota));
    }
  }

  lemma {:induction false} JumpLeaves(triple: int, quota: int, more: nat, size: int)
    requires triple >= 24 && quota == triple / 4 - 4 && size <= quota - 1 && (quota == 2 ==> size == 1)
    ensures size > more ==> more == 0 || triple - 6 - 6 * (more / 10) >= 22
  {
  }

  lemma {:induction false} SizedBelow(quota: int)
    requires quota >= 2
    ensures Sized(quota) <= quota - 1 && (quota == 2 ==> Sized(quota) == 1)
  {
    assert CeilLog10(3) == 1;
  }

  /** For every buffer size: the pieces carry the whole file exactly when it is empty, when the first step saturates,
      or when the quotas at the first and at the last byte make a positive step.  With 22 or 23 left of three times
      the room at the last byte, which takes an overflow, a step of two may or may not jump over it. */
  lemma {:induction false} CoverByQuota(job: Job)
    requires job.bytes == [] || !(22 <= Triple(job, |job.bytes| - 1) <= 23)
    ensures Payload(Chunks(job, Whole(job).pieces)) == job.bytes
       <==> || job.bytes == [] || Quota(job, 0) == -1
            || (Quota(job, 0) >= 2 && Quota(job, |job.bytes| - 1) >= 2)
  {
    hide *;
    PayloadIsPrefix(job);
    WholeIs(job);
    if job.bytes != [] {
      var last := |job.bytes| - 1;
      TripleIs(job, 0);
      TripleIs(job, last);
      NoFrameIs(job);
      TotalOfNone();
      if Quota(job, 0) == -1 {
        OnePieceOnly(job);
        TotalOfMore(Piece(0, |job.bytes|), []);
        assert [Piece(0, |job.bytes|)] + [] == [Piece(0, |job.bytes|)];
        assert job.bytes[..|job.bytes|] == job.bytes;
      } else if Quota(job, 0) < 2 {
        NoPieces(job);
      } else if Quota(job, last) >= 2 {
        RoomyBetween(job);
        CutsWholeFile(job);
      } else {
        StopsShort(job, 0);
      }
    }
  }

  lemma {:induction false} RoomyBetween(job: Job)
    requires job.bytes != [] && Quota(job, 0) >= 2 && Quota(job, |job.bytes| - 1) >= 2
    ensures Roomy(job)
  {
    hide Quota, Triple;
    forall o | 0 <= o < |job.bytes|
      ensures Quota(job, o) >= 2
    {
      QuotaBetween(job, o);
    }
  }

  lemma {:induction false} QuotaBetween(job: Job, offset: nat)
    requires offset < |job.bytes| && Quota(job, 0) >= 2 && Quota(job, |job.bytes| - 1) >= 2
    ensures Quota(job, offset) >= 2
  {
    var last := |job.bytes| - 1;
    hide HeaderLength, TripleOf, Quota;
    HeaderSmall(job, 0);
    HeaderSmall(job, offset);
    HeaderSmall(job, last);
    RoomShrinks(job, 0, offset);
    RoomShrinks(job, offset, last);
    TripleIs(job, 0);
    TripleIs(job, offset);
    TripleIs(job, last);
    TripleDrop(job.buffSize, HeaderLength(job, 0), HeaderLength(job, offset));
    TripleDrop(job.buffSize, HeaderLength(job, 0), HeaderLength(job, last));
  }

  /** Where nothing overflows: when it is empty, when four or five characters are left at the start, or at least
      eight at the last byte. */
  lemma {:induction false} PiecesCoverExactly(job: Job)
    requires LEAST_SIZE <= job.buffSize <= INT_MAX / 3
    ensures Payload(Chunks(job, Whole(job).pieces)) == job.bytes
       <==> job.bytes == [] || 4 <= Room(job, 0) <= 5 || Room(job, |job.bytes| - 1) >= 8
  {
    hide Payload, Chunks, Whole, Room, Quota, Triple;
    QuotaByRoom(job, 0);
    if job.bytes != [] {
      var last := |job.bytes| - 1;
      RoomShrinks(job, 0, last);
      QuotaByRoom(job, last);
      TripleIs(job, last);
    }
    CoverByQuota(job);
  }

  lemma {:induction false} NoFrameIs(job: Job)
    ensures NoFrame(job) <==> job.bytes == [] || Quota(job, 0) < -1 || 0 <= Quota(job, 0) <= 1
  {
    hide Quota;
  }

  /** A buffer whose room is used up by the offset's second digit ends the loop with a zero
      step: the upload is cut short and nothing reports it. */
  lemma {:induction false} ShortBufferTruncates(job: Job)
    requires Room(job, 0) == 8 && |job.bytes| >= 2
    ensures Whole(job).end == Finished
    ensures Payload(Chunks(job, Whole(job).pieces)) == job.bytes[..1]
  {
    HeaderSmall(job, 0);
    HeaderSmall(job, 1);
    QuotaByRoom(job, 0);
    QuotaByRoom(job, 1);
    StepByQuota(job, 0);
    StepByQuota(job, 1);
    assert CeilLog10(3) == 1;
    hide Step, Quota, HeaderLength;
    TwoSteps(job);
    PayloadIsPrefix(job);
  }

  lemma {:induction false} TwoSteps(job: Job)
    requires |job.bytes| >= 2 && Step(job, 0) == 1 && Step(job, 1) == 0
    ensures Whole(job) == Run([Piece(0, 1)], Finished) && Total(Whole(job).pieces) == 1
  {
    assert Steps(job)(0) == 1 && Steps(job)(1) == 0;
    hide Step;
    assert Pieces(|job.bytes|, Steps(job), 1) == Run([], Finished);
    assert Whole(job).pieces == [Piece(0, 1)];
    assert Total([Piece(0, 1)][1..]) == 0;
  }
}
