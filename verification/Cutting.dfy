/** The loop of prepareToSendFile of socket/info/InfoWebSocket.java, followed to its end whatever the steps
    are: after a negative step its index `i` and the offset of the next frame are no longer the same. */
module Cutting {
  import opened Bytes
  import Base64
  import opened Frames
  import opened Chunking

  /** What a call comes to: the list, an exception, or a loop without end. */
  datatype Outcome = Returned(uploads: seq<Frame>) | Thrown | Hung

  /** The loop's variables before a pass, or how it ended. */
  datatype Loop =
    | Looping(i: Int, offset: nat, uploads: seq<Frame>)
    | Ended(outcome: Outcome)

  /** copyOfRange works on a range that starts inside the file or at its end; an array of the largest int is
      beyond what can be allocated. */
  predicate Copies(job: Job, i: Int, size: nat) {
    0 <= i <= |job.bytes| && size < INT_MAX
  }

  /** The bytes of the range, padded with zeros beyond the end of the file. */
  function CopyOfRange(bytes: File, i: nat, size: nat): seq<Byte>
    requires i <= |bytes|
  {
    if i + size <= |bytes| then bytes[i..i + size]
    else bytes[i..] + seq(i + size - |bytes|, _ => 0)
  }

  function Filled(job: Job, i: Int, offset: nat, size: nat): Frame
    requires Copies(job, i, size)
  {
    Template(job, offset).(dataSize := size, data := Base64.Encode(CopyOfRange(job.bytes, i, size)))
  }

  /** The step of one pass, for an index and an offset that may differ. */
  function StepAt(job: Job, i: Int, offset: nat): (step: Int)
    requires offset <= |job.bytes|
    ensures 0 < step < INT_MAX ==> offset + step <= |job.bytes|
  {
    var jsonLength := CalculateJsonLength(Size(Template(job, offset)), i);
    var computed := Computed(job.buffSize, jsonLength);
    ComputedByQuota(job.buffSize, jsonLength);
    if Wrap(offset + computed) > |job.bytes| then |job.bytes| - offset else computed
  }

  function Pass(job: Job, i: Int, offset: nat, uploads: seq<Frame>): (next: Loop)
    requires offset <= |job.bytes|
    ensures next.Looping? ==> next.offset <= |job.bytes|
  {
    var step := StepAt(job, i, offset);
    if step == 0 then Ended(Returned(uploads))
    else if step < 0 then Looping(Wrap(i + step), offset, uploads)
    else if !Copies(job, i, step) then Ended(Thrown)
    else Looping(Wrap(i + step), offset + step, uploads + [Filled(job, i, offset, step)])
  }

  predicate Inside(job: Job, at: Loop) {
    at.Looping? ==> at.offset <= |job.bytes|
  }

  function Passes(job: Job, at: Loop, n: nat): (end: Loop)
    requires Inside(job, at)
    ensures Inside(job, end)
    decreases n
  {
    if n == 0 || at.Ended? then at else Passes(job, Pass(job, at.i, at.offset, at.uploads), n - 1)
  }

  ghost predicate Ends(job: Job, at: Loop)
    requires Inside(job, at)
  {
    exists n: nat :: Passes(job, at, n).Ended?
  }

  ghost function OutcomeFrom(job: Job, at: Loop): Outcome
    requires Inside(job, at)
  {
    if Ends(job, at) then
      var n: nat :| Passes(job, at, n).Ended?;
      Passes(job, at, n).outcome
    else Hung
  }

  /** What a call of prepareToSendFile comes to. */
  ghost function Prepared(job: Job): Outcome {
    OutcomeFrom(job, Looping(0, 0, []))
  }

  lemma {:induction false} PassesAgree(job: Job, at: Loop, m: nat, n: nat)
    requires Inside(job, at) && Passes(job, at, m).Ended? && Passes(job, at, n).Ended?
    ensures Passes(job, at, m) == Passes(job, at, n)
    decreases m
  {
    hide Pass;
    if at.Looping? {
      PassesAgree(job, Pass(job, at.i, at.offset, at.uploads), m - 1, n - 1);
    }
  }

  /** After any number of passes it is the same outcome that lies ahead. */
  lemma {:induction false} OutcomeIs(job: Job, at: Loop, n: nat)
    requires Inside(job, at) && Passes(job, at, n).Ended?
    ensures Ends(job, at) && OutcomeFrom(job, at) == Passes(job, at, n).outcome
  {
    var m: nat :| Passes(job, at, m).Ended? && OutcomeFrom(job, at) == Passes(job, at, m).outcome;
    PassesAgree(job, at, m, n);
  }

  lemma {:induction false} OnePass(job: Job, i: Int, offset: nat, uploads: seq<Frame>)
    requires offset <= |job.bytes|
    ensures var at, next := Looping(i, offset, uploads), Pass(job, i, offset, uploads);
            && (Ends(job, at) <==> Ends(job, next))
            && OutcomeFrom(job, at) == OutcomeFrom(job, next)
  {
    var at, next := Looping(i, offset, uploads), Pass(job, i, offset, uploads);
    hide Pass, OutcomeFrom;
    forall n: nat | Passes(job, at, n).Ended?
      ensures n > 0 && Passes(job, next, n - 1).Ended?
    {
    }
    forall n: nat | Passes(job, next, n).Ended?
      ensures Passes(job, at, n + 1) == Passes(job, next, n)
    {
    }
    if Ends(job, next) {
      var n: nat :| Passes(job, next, n).Ended?;
      OutcomeIs(job, at, n + 1);
      OutcomeIs(job, next, n);
    } else {
      NeverEnds(job, at);
      NeverEnds(job, next);
    }
  }

  lemma {:induction false} NeverEnds(job: Job, at: Loop)
    requires Inside(job, at)
    ensures !Ends(job, at) ==> OutcomeFrom(job, at) == Hung
  {
    hide Passes;
  }

  lemma {:induction false} EndedIs(job: Job, outcome: Outcome)
    ensures Ends(job, Ended(outcome)) && OutcomeFrom(job, Ended(outcome)) == outcome
  {
    assert Passes(job, Ended(outcome), 0) == Ended(outcome);
  }

  lemma {:induction false} PassOutcome(job: Job, i: Int, offset: nat, uploads: seq<Frame>)
    requires offset <= |job.bytes|
    ensures var step, outcome := StepAt(job, i, offset), OutcomeFrom(job, Looping(i, offset, uploads));
            if step == 0 then outcome == Returned(uploads)
            else if step < 0 then outcome == OutcomeFrom(job, Looping(Wrap(i + step), offset, uploads))
            else if !Copies(job, i, step) then outcome == Thrown
            else outcome == OutcomeFrom(job, Looping(Wrap(i + step), offset + step,
                                                     uploads + [Filled(job, i, offset, step)]))
  {
    hide StepAt, OutcomeFrom, Ends, Filled, Wrap, Copies;
    OnePass(job, i, offset, uploads);
    var next := Pass(job, i, offset, uploads);
    if next.Ended? {
      EndedIs(job, next.outcome);
    }
  }

  // ---------------------------------------------------------------------------
  // The loop itself.

  /** A call that never returns has no outcome to state; OutcomeExactly says which calls these are. */
  method PrepareToSendFile(job: Job) returns (outcome: Outcome)
    requires Prepared(job) != Hung
    ensures outcome == Prepared(job)
  {
    hide Ahead, StepAt, Pass, Passes, OutcomeFrom, Prepared, Ends, Filled, Template, Copies, Wrap;
    ghost var left := PassesLeft(job);
    var uploads: seq<Frame> := [];
    var stepSize: Int, offset: nat, i: Int := -1, 0, 0;
    while stepSize != 0
      invariant offset <= |job.bytes|
      invariant stepSize != 0 ==> Ahead(job, i, offset, uploads, left)
      invariant stepSize == 0 ==> Prepared(job) == Returned(uploads)
      decreases if stepSize == 0 then 0 else 1, left
    {
      PassCases(job, i, offset, uploads, left);
      var upload := Template(job, offset);
      stepSize := NextStep(job, upload, offset, i);
      if stepSize > 0 {
        if i < 0 || i > |job.bytes| || stepSize == INT_MAX {
          return Thrown;
        }
        upload := Fill(job, upload, offset, i, stepSize);
        offset := offset + stepSize;
        uploads := uploads + [upload];
      }
      i := Sum(i, stepSize);
      left := if stepSize == 0 then left else left - 1;
    }
    outcome := Returned(uploads);
  }

  /** The arithmetic of one pass. */
  method NextStep(job: Job, upload: Frame, offset: Int, i: Int) returns (stepSize: Int)
    requires 0 <= offset <= |job.bytes| && upload == Template(job, offset)
    ensures stepSize == StepAt(job, i, offset)
  {
    JsonSize(upload);
    stepSize := Computed(job.buffSize, CalculateJsonLength(|Json(upload)|, i));
    if Wrap(offset + stepSize) > |job.bytes| {
      stepSize := |job.bytes| - offset;
    }
  }

  method Sum(i: Int, stepSize: Int) returns (sum: Int)
    ensures sum == Wrap(i + stepSize)
  {
    sum := Wrap(i + stepSize);
  }

  method Fill(job: Job, upload: Frame, offset: nat, i: Int, stepSize: nat) returns (filled: Frame)
    requires Copies(job, i, stepSize) && upload == Template(job, offset)
    ensures filled == Filled(job, i, offset, stepSize)
  {
    filled := upload.(dataSize := stepSize, data := Base64.Encode(CopyOfRange(job.bytes, i, stepSize)));
  }

  /** The call's outcome lies `left` passes ahead. */
  ghost predicate Ahead(job: Job, i: Int, offset: nat, uploads: seq<Frame>, left: nat) {
    && offset <= |job.bytes|
    && OutcomeFrom(job, Looping(i, offset, uploads)) == Prepared(job)
    && Passes(job, Looping(i, offset, uploads), left).Ended?
  }

  lemma {:induction false} PassesLeft(job: Job) returns (left: nat)
    requires Prepared(job) != Hung
    ensures Ahead(job, 0, 0, [], left)
  {
    hide Pass;
    left :| Passes(job, Looping(0, 0, []), left).Ended?;
  }

  lemma {:induction false} PassCases(job: Job, i: Int, offset: nat, uploads: seq<Frame>, left: nat)
    requires Ahead(job, i, offset, uploads, left) && offset <= |job.bytes|
    ensures left > 0
    ensures var step := StepAt(job, i, offset);
            if step == 0 then Prepared(job) == Returned(uploads)
            else if step < 0 then Ahead(job, Wrap(i + step), offset, uploads, left - 1)
            else if i < 0 || i > |job.bytes| || step == INT_MAX then Prepared(job) == Thrown
            else
              && Copies(job, i, step)
              && Ahead(job, Wrap(i + step), offset + step, uploads + [Filled(job, i, offset, step)], left - 1)
  {
    hide StepAt, OutcomeFrom, Ends, Filled, Wrap, Prepared;
    OnePass(job, i, offset, uploads);
    var next := Pass(job, i, offset, uploads);
    if next.Ended? {
      EndedIs(job, next.outcome);
    }
  }

  // ---------------------------------------------------------------------------
  // While the index is the offset the loop cuts the pieces.

  lemma {:induction false} StraightPass(job: Job, offset: nat, uploads: seq<Frame>)
    requires offset <= |job.bytes|
    ensures var step, outcome := Step(job, offset), OutcomeFrom(job, Looping(offset, offset, uploads));
            if step == 0 then outcome == Returned(uploads)
            else if step < 0 then true
            else if offset + step > |job.bytes| then outcome == Thrown
            else outcome == OutcomeFrom(job, Looping(offset + step, offset + step,
                                                     uploads + [Chunk(job, Piece(offset, step))]))
  {
    hide StepAt, Step, OutcomeFrom, Filled, Chunk, Copies, Wrap, Inside;
    StraightStep(job, offset);
    PassOutcome(job, offset, offset, uploads);
  }

  lemma {:induction false} StraightStep(job: Job, offset: nat)
    requires offset <= |job.bytes|
    ensures var step, left := Step(job, offset), |job.bytes| - offset;
            && StepAt(job, offset, offset) == step
            && (step > left ==> step == INT_MAX && !Copies(job, offset, step))
            && (0 < step <= left ==>
                && Copies(job, offset, step) && Wrap(offset + step) == offset + step
                && Filled(job, offset, offset, step) == Chunk(job, Piece(offset, step)))
  {
    hide StepAt, Step, HeaderLength, Template, Quota, Sized, Base64.Encode;
    StepIs(job, offset);
    StepByQuota(job, offset);
  }

  lemma {:induction false} StepIs(job: Job, offset: nat)
    requires offset <= |job.bytes|
    ensures StepAt(job, offset, offset) == Step(job, offset)
  {
    hide Computed, CalculateJsonLength, Size, Template;
  }

  /** What the straight part from `offset` on leads to, after the frames `uploads`. */
  ghost predicate LeadsTo(job: Job, run: Run, offset: nat, uploads: seq<Frame>, outcome: Outcome)
    requires Within(|job.bytes|, run.pieces)
  {
    var end, made := offset + Total(run.pieces), uploads + Chunks(job, run.pieces);
    match run.end
    case Finished => outcome == Returned(made)
    case Crashed => outcome == Thrown
    case Strayed =>
      && end <= |job.bytes| && Step(job, end) < 0
      && outcome == OutcomeFrom(job, Looping(end, end, made))
  }

  ghost predicate StraightLeads(job: Job, offset: nat, uploads: seq<Frame>)
    requires offset <= |job.bytes|
  {
    LeadsTo(job, Pieces(|job.bytes|, Steps(job), offset), offset, uploads,
            OutcomeFrom(job, Looping(offset, offset, uploads)))
  }

  /** The straight part of the loop makes the frames of its pieces; with a negative step the rest of the loop
      decides from there on. */
  lemma {:induction false} StraightRun(job: Job, offset: nat, uploads: seq<Frame>)
    requires offset <= |job.bytes|
    ensures StraightLeads(job, offset, uploads)
    decreases |job.bytes| - offset
  {
    hide *;
    if 0 < Step(job, offset) <= |job.bytes| - offset {
      StraightRun(job, offset + Step(job, offset), uploads + [Chunk(job, Piece(offset, Step(job, offset)))]);
      StraightOn(job, offset, uploads);
    } else {
      StraightEnds(job, offset, uploads);
    }
  }

  lemma {:induction false} StraightOn(job: Job, offset: nat, uploads: seq<Frame>)
    requires offset <= |job.bytes| && 0 < Step(job, offset) <= |job.bytes| - offset
    requires StraightLeads(job, offset + Step(job, offset),
                           uploads + [Chunk(job, Piece(offset, Step(job, offset)))])
    ensures StraightLeads(job, offset, uploads)
  {
    hide LeadsTo, OutcomeFrom, Step, Chunk, Pieces, Steps;
    var length, steps, step := |job.bytes|, Steps(job), Step(job, offset);
    StepsAre(job, offset);
    StraightPass(job, offset, uploads);
    PiecesUnfold(length, steps, offset);
    LeadsOn(job, Pieces(length, steps, offset + step), Piece(offset, step), uploads,
            OutcomeFrom(job, Looping(offset, offset, uploads)));
  }

  lemma {:induction false} StraightEnds(job: Job, offset: nat, uploads: seq<Frame>)
    requires offset <= |job.bytes| && !(0 < Step(job, offset) <= |job.bytes| - offset)
    ensures StraightLeads(job, offset, uploads)
  {
    hide LeadsTo, OutcomeFrom, Step, Pieces, Steps;
    StepsAre(job, offset);
    StraightPass(job, offset, uploads);
    PiecesUnfold(|job.bytes|, Steps(job), offset);
    LeadsNow(job, Pieces(|job.bytes|, Steps(job), offset), offset, uploads,
             OutcomeFrom(job, Looping(offset, offset, uploads)));
  }

  lemma {:induction false} LeadsOn(job: Job, rest: Run, piece: Piece, uploads: seq<Frame>, outcome: Outcome)
    requires Within(|job.bytes|, rest.pieces) && piece.offset + piece.size <= |job.bytes|
    requires LeadsTo(job, rest, piece.offset + piece.size, uploads + [Chunk(job, piece)], outcome)
    ensures Within(|job.bytes|, [piece] + rest.pieces)
    ensures LeadsTo(job, Run([piece] + rest.pieces, rest.end), piece.offset, uploads, outcome)
  {
    hide Chunk, Step, OutcomeFrom, Total;
    TotalOfMore(piece, rest.pieces);
    assert uploads + Chunks(job, [piece] + rest.pieces) == uploads + [Chunk(job, piece)] + Chunks(job, rest.pieces);
  }

  lemma {:induction false} LeadsNow(job: Job, run: Run, offset: nat, uploads: seq<Frame>, outcome: Outcome)
    requires run.pieces == [] && offset <= |job.bytes|
    requires match run.end
             case Finished => outcome == Returned(uploads)
             case Crashed => outcome == Thrown
             case Strayed => Step(job, offset) < 0 && outcome == OutcomeFrom(job, Looping(offset, offset, uploads))
    ensures LeadsTo(job, run, offset, uploads, outcome)
  {
    hide Step, OutcomeFrom;
    assert uploads + Chunks(job, []) == uploads;
    assert Total([]) == 0;
  }

  // ---------------------------------------------------------------------------
  // After a negative step no frame is made any more.

  /** The straight part ends with a step of zero, or at an offset where the quota is negative: at the start, or
      after the one frame of a saturated step. */
  lemma {:induction false} StraightExactly(job: Job)
    ensures var length, end := |job.bytes|, Whole(job).end;
            && (end == Finished <==> Quota(job, 0) >= 0 || (job.bytes == [] && Quota(job, 0) == -1))
            && (end == Crashed <==> job.bytes != [] && Quota(job, 0) == -1 == Quota(job, length))
            && (end == Strayed && Quota(job, 0) == -1 ==> Total(Whole(job).pieces) == length)
            && (end == Strayed && Quota(job, 0) != -1 ==> Whole(job).pieces == [])
  {
    var length, steps := |job.bytes|, Steps(job);
    hide *;
    StepsAre(job, 0);
    StepsAre(job, length);
    WholeIs(job);
    StepByQuota(job, 0);
    StepByQuota(job, length);
    PiecesUnfold(length, steps, 0);
    PiecesUnfold(length, steps, length);
    if Quota(job, 0) >= 0 {
      NeverStrays(job, 0);
      FinishesIs(job);
    } else if Quota(job, 0) == -1 && length > 0 {
      QuotaFalls(job, length);
      TotalOfNone();
      TotalOfMore(Piece(0, length), []);
    }
  }

  lemma {:induction false} FinishesIs(job: Job)
    ensures Finishes(job, 0) <==> Whole(job).end == Finished
  {
    hide Pieces, Steps;
  }

  lemma {:induction false} QuotaFalls(job: Job, offset: nat)
    requires Quota(job, 0) == -1 && offset <= |job.bytes|
    ensures Quota(job, offset) <= -1
  {
    HeaderSmall(job, offset);
    HeaderSmall(job, 0);
    RoomShrinks(job, 0, offset);
    hide HeaderLength;
  }

  lemma {:induction false} PassesUnfold(job: Job, i: Int, offset: nat, uploads: seq<Frame>, n: nat)
    requires offset <= |job.bytes|
    ensures Passes(job, Looping(i, offset, uploads), 0) == Looping(i, offset, uploads)
    ensures var step := StepAt(job, i, offset);
            n > 0 && (step <= 0 || !Copies(job, i, step)) ==>
              Passes(job, Looping(i, offset, uploads), n) ==
                if step == 0 then Ended(Returned(uploads))
                else if step > 0 then Ended(Thrown)
                else Passes(job, Looping(Wrap(i + step), offset, uploads), n - 1)
  {
    hide StepAt, Copies, Wrap;
  }

  ghost predicate NothingAdded(end: Loop, offset: nat, uploads: seq<Frame>) {
    if end.Looping? then end.offset == offset && end.uploads == uploads
    else end.outcome == Returned(uploads) || end.outcome == Thrown
  }

  lemma {:induction false} StepAtEnd(job: Job, i: Int)
    ensures var step := StepAt(job, i, |job.bytes|); step <= 0 || !Copies(job, i, step)
  {
  }

  /** At the end of the file every step is cut to zero, negative, or saturated. */
  lemma {:induction false} AtEnd(job: Job, i: Int, uploads: seq<Frame>, n: nat)
    ensures NothingAdded(Passes(job, Looping(i, |job.bytes|, uploads), n), |job.bytes|, uploads)
    decreases n
  {
    hide Passes, StepAt, Copies, Wrap;
    PassesUnfold(job, i, |job.bytes|, uploads, n);
    StepAtEnd(job, i);
    var step := StepAt(job, i, |job.bytes|);
    if n > 0 && step < 0 {
      AtEnd(job, Wrap(i + step), uploads, n - 1);
    }
  }

  /** Where an index that left the file at its start can be: anywhere, unless a difference of up to ten
      characters overflows; then it falls below -1 and, when it wraps around, arrives beyond the file. */
  predicate Astray(job: Job, i: Int) {
    || TripleOf(job.buffSize, HeaderLength(job, 0)) >= INT_MIN + 30
    || i == 0 || i < -1 || i >= 0x6000_0000
  }

  lemma {:induction false} AstrayStep(job: Job, i: Int)
    requires Quota(job, 0) < -1 && Astray(job, i)
    ensures var step := StepAt(job, i, 0);
            && (step > 0 ==> !Copies(job, i, step))
            && (step < 0 ==> Astray(job, Wrap(i + step)))
  {
    StartHeader(job);
    var header := HeaderLength(job, 0);
    StepAtStart(job, i);
    HeaderAt(header, i);
    QuotaIs(job, 0);
    assert TripleOf(job.buffSize, header) <= 11;
    hide HeaderLength, CalculateJsonLength, Computed, StepAt, Copies, Quota, QuotaOf, TripleOf;
    ComputedAstray(job.buffSize, header, CalculateJsonLength(header, i));
  }

  lemma {:induction false} StartHeader(job: Job)
    ensures HeaderLength(job, 0) == Size(Template(job, 0))
    ensures 101 <= HeaderLength(job, 0) <= 1000
  {
    HeaderSmall(job, 0);
  }

  lemma {:induction false} StepAtStart(job: Job, i: Int)
    ensures var step := StepAt(job, i, 0);
            var computed := Computed(job.buffSize, CalculateJsonLength(HeaderLength(job, 0), i));
            && (computed <= 0 ==> step == computed)
            && (computed > 0 ==> step >= 0)
            && (computed > 0 && job.bytes != [] ==> step > 0)
            && (job.bytes == [] ==> step <= 0)
            && (step > 0 && (i < 0 || i > |job.bytes|) ==> !Copies(job, i, step))
  {
    StartHeader(job);
    hide CalculateJsonLength, Computed, HeaderLength, Size;
  }

  lemma {:induction false} HeaderAt(size: nat, i: Int)
    requires size <= 1000
    ensures var jsonLength := CalculateJsonLength(size, i);
            && (i >= 0 && i < INT_MAX ==> size <= jsonLength <= size + 10)
            && (i == 0 ==> jsonLength == size)
            && (0x6000_0000 <= i < INT_MAX ==> jsonLength == size + 10)
            && (i < -1 || i == INT_MAX ==> jsonLength == 0)
  {
    if 0 <= i < INT_MAX {
      CeilLog10Bounded(i + 1);
      if i >= 0x6000_0000 {
        TenDigits(i);
      }
    }
  }

  lemma {:induction false} TenDigits(i: Int)
    requires 1_000_000_000 <= i < INT_MAX
    ensures CeilLog10(i + 1) == 10
  {
    CeilLog10Bounded(i + 1);
    CeilLog10IsLeast(i + 1);
    assert Pow10(9) == 1_000_000_000;
    if CeilLog10(i + 1) <= 9 {
      Pow10Monotone(CeilLog10(i + 1), 9);
    }
  }

  lemma {:induction false} Pow10Monotone(j: nat, k: nat)
    requires j <= k
    ensures Pow10(j) <= Pow10(k)
  {
    if j < k {
      Pow10Monotone(j, k - 1);
    }
  }

  /** Three times the room less `more`, which may overflow once more. */
  lemma {:induction false} TripleShift(buffSize: Int, jsonLength: Int, more: nat)
    requires 0 <= jsonLength <= 1000 && more <= 1000
    ensures TripleOf(buffSize, jsonLength + more) == Wrap(TripleOf(buffSize, jsonLength) - 3 * more)
  {
  }

  lemma {:induction false} ComputedAstray(buffSize: Int, header: Int, jsonLength: Int)
    requires 101 <= header <= 1000 && TripleOf(buffSize, header) <= 11
    ensures var triple, computed := TripleOf(buffSize, header), Computed(buffSize, jsonLength);
            && (triple >= INT_MIN + 30 && header <= jsonLength <= header + 10 ==> computed < 0)
            && (triple < INT_MIN + 30 && jsonLength == 0 ==> -0x2000_0000 + 71 <= computed < -1)
            && (triple < INT_MIN + 30 && jsonLength == header ==> computed < -1)
            && (triple < INT_MIN + 30 && jsonLength == header + 10 ==> computed > 0)
  {
    ComputedByQuota(buffSize, jsonLength);
    if header <= jsonLength <= header + 10 {
      TripleShift(buffSize, header, jsonLength - header);
    } else if jsonLength == 0 {
      TripleShift(buffSize, 0, header);
    }
    hide Computed, TripleOf, Sized;
  }

  lemma {:induction false} AtStart(job: Job, i: Int, n: nat)
    requires Quota(job, 0) < -1 && Astray(job, i)
    ensures NothingAdded(Passes(job, Looping(i, 0, []), n), 0, [])
    decreases n
  {
    hide Passes, StepAt, Copies, Wrap, Astray, Quota;
    PassesUnfold(job, i, 0, [], n);
    AstrayStep(job, i);
    var step := StepAt(job, i, 0);
    if n > 0 && step < 0 {
      AtStart(job, Wrap(i + step), n - 1);
    }
  }

  lemma {:induction false} NothingAddedAfter(job: Job, i: Int, offset: nat, uploads: seq<Frame>)
    requires offset <= |job.bytes|
    requires forall n: nat :: NothingAdded(Passes(job, Looping(i, offset, uploads), n), offset, uploads)
    ensures var outcome := OutcomeFrom(job, Looping(i, offset, uploads));
            outcome == Returned(uploads) || outcome == Thrown || outcome == Hung
  {
    hide Passes;
  }

  lemma {:induction false} OutcomeAtEnd(job: Job, i: Int, uploads: seq<Frame>)
    ensures var outcome := OutcomeFrom(job, Looping(i, |job.bytes|, uploads));
            outcome == Returned(uploads) || outcome == Thrown || outcome == Hung
  {
    hide Passes, OutcomeFrom, Quota, Astray;
    forall n: nat
      ensures NothingAdded(Passes(job, Looping(i, |job.bytes|, uploads), n), |job.bytes|, uploads)
    {
      AtEnd(job, i, uploads, n);
    }
    NothingAddedAfter(job, i, |job.bytes|, uploads);
  }

  lemma {:induction false} OutcomeAtStart(job: Job, i: Int)
    requires Quota(job, 0) < -1 && Astray(job, i)
    ensures var outcome := OutcomeFrom(job, Looping(i, 0, []));
            outcome == Returned([]) || outcome == Thrown || outcome == Hung
  {
    hide Passes, OutcomeFrom, Quota, Astray;
    forall n: nat
      ensures NothingAdded(Passes(job, Looping(i, 0, []), n), 0, [])
    {
      AtStart(job, i, n);
    }
    NothingAddedAfter(job, i, 0, []);
  }

  /** For every buffer size and every file, a list that is returned holds exactly the frames of the pieces, and a
      loop that ends while its index is the offset returns them, or throws. */
  lemma {:induction false} ReturnsTheCut(job: Job)
    ensures var run, outcome := Whole(job), Prepared(job);
            && (outcome.Returned? ==> outcome.uploads == Chunks(job, run.pieces))
            && (run.end == Finished ==> outcome.Returned?)
            && (run.end == Crashed ==> outcome == Thrown)
  {
    var run, length: Int := Whole(job), |job.bytes|;
    var made := Chunks(job, run.pieces);
    assert Astray(job, 0) && Total([]) == 0 && [] + made == made;
    hide Whole, Quota, OutcomeFrom, Step, Chunk, Astray, Pieces;
    WholeIs(job);
    StraightRun(job, 0, []);
    StraightExactly(job);
    if run.end == Strayed {
      if Quota(job, 0) == -1 {
        OutcomeAtEnd(job, length, made);
      } else {
        OutcomeAtStart(job, 0);
      }
    }
  }

  /** Whatever list is returned, each of its frames is the file's own: it carries the name drawn, the file's size and
      the time, and the bytes of the file at its offset, which is where the frames before it end. */
  lemma {:induction false} ReturnedFramesBelong(job: Job, n: nat)
    requires Prepared(job).Returned? && n < |Prepared(job).uploads|
    ensures var frames := Prepared(job).uploads;
            && frames[n].fileName == job.fileName
            && frames[n].fileSize == |job.bytes|
            && frames[n].time == job.time
            && frames[n].offset == |Payload(frames[..n])|
            && frames[n].dataSize == |Base64.Decode(frames[n].data)| > 0
            && frames[n].offset + frames[n].dataSize <= |job.bytes|
            && Base64.Decode(frames[n].data) == job.bytes[frames[n].offset..frames[n].offset + frames[n].dataSize]
  {
    hide Prepared, Whole, Payload, Base64.Decode;
    ReturnsTheCut(job);
    FramesBelong(job, n);
  }

  // ---------------------------------------------------------------------------
  // Which outcome it is, for a buffer up to a third of the largest int.

  /** Whether the index, on its way back from the end of the file after a saturated step, meets an offset where
      the step saturates again. */
  predicate Refused(room: int, length: nat) {
    || (room == 5 && (length <= 9 || (length <= 99 && length % 3 == 2)))
    || (room == 4 && length <= 9 && length % 2 == 0)
  }

  /** What is left of the buffer for a header at the end of the file, before the digits of the index. */
  function RoomAtLength(job: Job): int {
    job.buffSize - Size(Template(job, |job.bytes|))
  }

  lemma {:induction false} RoomAtLengthIs(job: Job)
    ensures RoomAtLength(job) == Room(job, 0) + 1 - |Decimal(|job.bytes|)|
  {
    StartHeader(job);
    assert |Decimal(0)| == 1;
    hide HeaderLength, Decimal;
  }

  /** The steps at the end of the file by the room that the digits of the index leave. */
  lemma {:induction false} StepBack(job: Job, i: Int)
    requires 24 <= 3 * job.buffSize <= INT_MAX && job.bytes != [] && i <= |job.bytes|
    ensures var step, room := StepAt(job, i, |job.bytes|), RoomAtLength(job) - if i <= 0 then 0 else |Decimal(i)|;
            && (step < 0 && -1 <= i ==> Wrap(i + step) == i + step)
            && (i >= 0 && 4 <= room <= 5 ==> step == INT_MAX)
            && (i >= 0 && room <= 3 ==> step <= -2)
            && (i >= 0 && 2 <= room <= 3 ==> step == room - 5)
            && (i == -1 ==> step < 0)
            && (i < -1 ==> step == 0)
  {
    var size := Size(Template(job, |job.bytes|));
    HeaderSmall(job, |job.bytes|);
    StepAtLength(job, i);
    assert 0 <= size <= 1000;
    HeaderBehind(size, i);
    hide StepAt, Size, CalculateJsonLength, Decimal, Computed, HeaderLength;
    ComputedBack(job.buffSize, CalculateJsonLength(size, i));
  }

  lemma {:induction false} HeaderBehind(size: nat, i: Int)
    requires size <= 1000 && i < INT_MAX
    ensures CalculateJsonLength(size, i) ==
              if i > 0 then size + |Decimal(i)| else if i == 0 then size else if i == -1 then INT_MIN else 0
    ensures i >= 0 ==> |Decimal(i)| <= 10
  {
    if i >= 0 {
      JsonLengthCountsOffsetAgain(size, i);
      DecimalLength(i);
      CeilLog10Bounded(i + 1);
    }
  }

  lemma {:induction false} StepAtLength(job: Job, i: Int)
    requires job.bytes != []
    ensures var step := StepAt(job, i, |job.bytes|);
            var computed := Computed(job.buffSize, CalculateJsonLength(Size(Template(job, |job.bytes|)), i));
            step == if 0 < computed < INT_MAX then 0 else computed
  {
    var jsonLength := CalculateJsonLength(Size(Template(job, |job.bytes|)), i);
    var computed := Computed(job.buffSize, jsonLength);
    ComputedByQuota(job.buffSize, jsonLength);
    hide CalculateJsonLength, Computed, Size, QuotaOf, Sized;
    var step := StepAt(job, i, |job.bytes|);
    assert computed < 0 ==> Wrap(|job.bytes| + computed) == |job.bytes| + computed;
    assert computed == INT_MAX ==> Wrap(|job.bytes| + computed) < 0;
    assert computed <= 0 || computed == INT_MAX ==> step == computed;
    assert 0 < computed < INT_MAX ==> step == 0;
  }

  lemma {:induction false} ComputedBack(buffSize: Int, jsonLength: Int)
    requires 24 <= 3 * buffSize <= INT_MAX
    ensures var room, computed := buffSize - jsonLength, Computed(buffSize, jsonLength);
            && -0x2000_0004 <= computed
            && (0 <= jsonLength && 4 <= room <= 5 ==> computed == INT_MAX)
            && (0 <= jsonLength <= 2000 && room <= 3 ==> computed <= -2)
            && (0 <= jsonLength <= 2000 && 2 <= room <= 3 ==> computed == room - 5)
            && (jsonLength == INT_MIN ==> computed < 0)
            && (jsonLength == 0 ==> 0 < computed < INT_MAX)
  {
    ComputedByQuota(buffSize, jsonLength);
    hide Computed, Sized;
  }

  lemma {:induction false} BackOnce(job: Job, i: Int, uploads: seq<Frame>)
    requires job.bytes != []
    ensures var step, outcome := StepAt(job, i, |job.bytes|), OutcomeFrom(job, Looping(i, |job.bytes|, uploads));
            && (step == 0 ==> outcome == Returned(uploads))
            && (step < 0 ==> outcome == OutcomeFrom(job, Looping(Wrap(i + step), |job.bytes|, uploads)))
            && (step == INT_MAX ==> outcome == Thrown)
  {
    hide StepAt, OutcomeFrom, Wrap, Filled;
    PassOutcome(job, i, |job.bytes|, uploads);
  }

  /** With no saturated step on its way the index falls below -1, where the step is cut to zero. */
  lemma {:induction false} FallsThrough(job: Job, i: Int, uploads: seq<Frame>)
    requires 24 <= 3 * job.buffSize <= INT_MAX && job.bytes != [] && i <= |job.bytes|
    requires RoomAtLength(job) <= 3 || i < 0
    ensures OutcomeFrom(job, Looping(i, |job.bytes|, uploads)) == Returned(uploads)
    decreases i - INT_MIN
  {
    hide StepAt, OutcomeFrom, RoomAtLength, Decimal, Wrap;
    StepBack(job, i);
    BackOnce(job, i, uploads);
    if i >= -1 {
      FallsThrough(job, i + StepAt(job, i, |job.bytes|), uploads);
    }
  }

  /** With four characters at index zero the steps are -3 over two digits and -2 over one. */
  lemma {:induction false} WalksBack(job: Job, i: Int, uploads: seq<Frame>)
    requires 24 <= 3 * job.buffSize <= INT_MAX && job.bytes != [] && i <= |job.bytes|
    requires RoomAtLength(job) == 4 && -1 <= i <= 99
    ensures OutcomeFrom(job, Looping(i, |job.bytes|, uploads)) ==
              if i >= 0 && (if i <= 9 then i % 2 == 0 else i % 3 == 2) then Thrown else Returned(uploads)
    decreases i + 1
  {
    hide StepAt, OutcomeFrom, RoomAtLength, Decimal, Wrap;
    if i < 0 {
      FallsThrough(job, i, uploads);
    } else {
      StepsOfThree(job, i, uploads);
      if i > 0 {
        WalksBack(job, if i <= 9 then i - 2 else i - 3, uploads);
      }
    }
  }

  lemma {:induction false} StepsOfThree(job: Job, i: Int, uploads: seq<Frame>)
    requires 24 <= 3 * job.buffSize <= INT_MAX && job.bytes != [] && i <= |job.bytes|
    requires RoomAtLength(job) == 4 && 0 <= i <= 99
    ensures var outcome := OutcomeFrom(job, Looping(i, |job.bytes|, uploads));
            if i == 0 then outcome == Thrown
            else outcome == OutcomeFrom(job, Looping(if i <= 9 then i - 2 else i - 3, |job.bytes|, uploads))
  {
    var next: Int := if i == 0 then 0 else if i <= 9 then i - 2 else i - 3;
    hide *;
    ThreeOrTwo(job, i);
    BackOnce(job, i, uploads);
  }

  lemma {:induction false} ThreeOrTwo(job: Job, i: Int)
    requires 24 <= 3 * job.buffSize <= INT_MAX && job.bytes != [] && i <= |job.bytes|
    requires RoomAtLength(job) == 4 && 0 <= i <= 99
    ensures var step := StepAt(job, i, |job.bytes|);
            if i == 0 then step == INT_MAX
            else step == (if i <= 9 then -2 else -3) && Wrap(i + step) == if i <= 9 then i - 2 else i - 3
  {
    hide StepAt, RoomAtLength, Decimal, Wrap;
    TwoDigits(i);
    StepBack(job, i);
  }

  /** The one frame of a saturated step is returned, unless the way back of the index is refused. */
  lemma {:induction false} SingleFrameExactly(job: Job)
    requires 0 <= job.buffSize <= INT_MAX / 3 && job.bytes != [] && 4 <= Room(job, 0) <= 5
    ensures Prepared(job) ==
              if Refused(Room(job, 0), |job.bytes|) then Thrown else Returned([Chunk(job, Piece(0, |job.bytes|))])
  {
    hide *;
    FirstPassSaturates(job);
    BackFromEnd(job, [Chunk(job, Piece(0, |job.bytes|))]);
  }

  lemma {:induction false} FirstPassSaturates(job: Job)
    requires 0 <= job.buffSize <= INT_MAX / 3 && job.bytes != [] && 4 <= Room(job, 0) <= 5
    ensures Prepared(job)
         == OutcomeFrom(job, Looping(|job.bytes|, |job.bytes|, [Chunk(job, Piece(0, |job.bytes|))]))
  {
    var made := [Chunk(job, Piece(0, |job.bytes|))];
    assert [] + made == made;
    hide OutcomeFrom, Chunk, Quota, Step, Room, Sized;
    QuotaByRoom(job, 0);
    StepByQuota(job, 0);
    StraightPass(job, 0, []);
  }

  lemma {:induction false} BackFromEnd(job: Job, made: seq<Frame>)
    requires 0 <= job.buffSize <= INT_MAX / 3 && job.bytes != [] && 4 <= Room(job, 0) <= 5
    ensures OutcomeFrom(job, Looping(|job.bytes|, |job.bytes|, made)) ==
              if Refused(Room(job, 0), |job.bytes|) then Thrown else Returned(made)
  {
    var length: Int := |job.bytes|;
    TwoDigits(length);
    hide OutcomeFrom, StepAt, RoomAtLength, Decimal, HeaderLength;
    StartHeader(job);
    RoomAtLengthIs(job);
    if RoomAtLength(job) <= 3 {
      FallsThrough(job, length, made);
    } else if RoomAtLength(job) == 4 {
      WalksBack(job, length, made);
    } else {
      StepBack(job, length);
      BackOnce(job, length, made);
    }
  }

  lemma {:induction false} TwoDigits(n: nat)
    ensures |Decimal(n)| == 1 <==> n <= 9
    ensures |Decimal(n)| == 2 <==> 10 <= n <= 99
  {
    if n >= 100 {
      assert |Decimal(100)| == 3;
      DecimalMonotone(100, n);
    }
  }

  /** With less than four characters left at the start the index falls below -1, where nothing is taken from the
      buffer for the header.  A buffer of six or seven then ends the loop, one of up to three never does, and any
      other asks for bytes in front of the file. */
  lemma {:induction false} NoRoomExactly(job: Job)
    requires 0 <= job.buffSize <= INT_MAX / 3 && Room(job, 0) <= 3
    ensures Prepared(job) ==
              if job.buffSize <= 3 then Hung
              else if job.bytes != [] && !(6 <= job.buffSize <= 7) then Thrown
              else Returned([])
  {
    assert Prepared(job) == OutcomeFrom(job, Looping(0, 0, []));
    hide OutcomeFrom, Prepared, StepAt, Room, Copies, Filled;
    if job.buffSize <= 3 {
      HangsWithout(job);
    } else {
      var first := FirstPass(job);
      SecondPass(job, first);
    }
  }

  lemma {:induction false} FirstPass(job: Job)
    returns (first: Int)
    requires 0 <= job.buffSize <= INT_MAX / 3 && Room(job, 0) <= 3
    ensures first < -1 && OutcomeFrom(job, Looping(0, 0, [])) == OutcomeFrom(job, Looping(first, 0, []))
  {
    hide OutcomeFrom, StepAt, Room, Copies, Filled;
    first := StepAt(job, 0, 0);
    StepInFront(job, 0);
    PassOutcome(job, 0, 0, []);
  }

  lemma {:induction false} SecondPass(job: Job, first: Int)
    requires 4 <= job.buffSize <= INT_MAX / 3 && Room(job, 0) <= 3 && first < -1
    ensures OutcomeFrom(job, Looping(first, 0, [])) ==
              if job.bytes != [] && !(6 <= job.buffSize <= 7) then Thrown else Returned([])
  {
    hide OutcomeFrom, StepAt, Room, Copies, Filled, Wrap;
    StepInFront(job, first);
    PassOutcome(job, first, 0, []);
  }

  lemma {:induction false} StepInFront(job: Job, i: Int)
    requires 0 <= job.buffSize <= INT_MAX / 3 && Room(job, 0) <= 3
    ensures var step, b := StepAt(job, i, 0), job.buffSize;
            && (i >= 0 && i < INT_MAX ==> step <= -2)
            && (i == -1 ==> step < 0)
            && (i < -1 || i == INT_MAX ==>
                && (b <= 3 ==> step < 0)
                && (b >= 4 ==> (step > 0 <==> job.bytes != [] && !(6 <= b <= 7)))
                && (b >= 4 ==> step >= 0))
            && (step > 0 && i < 0 ==> !Copies(job, i, step))
  {
    StartHeader(job);
    var header := HeaderLength(job, 0);
    StepAtStart(job, i);
    HeaderAt(header, i);
    assert i == -1 ==> CalculateJsonLength(header, i) == INT_MIN;
    hide StepAt, Copies, HeaderLength, CalculateJsonLength;
    ComputedInFront(job.buffSize, CalculateJsonLength(header, i));
  }

  lemma {:induction false} ComputedInFront(buffSize: Int, jsonLength: Int)
    requires 0 <= buffSize <= INT_MAX / 3
    ensures var computed := Computed(buffSize, jsonLength);
            && (0 <= jsonLength <= 2000 && buffSize - jsonLength <= 3 ==> computed <= -2)
            && (jsonLength == INT_MIN ==> computed < 0)
            && (jsonLength == 0 && 6 <= buffSize <= 7 ==> computed == 0)
            && (jsonLength == 0 && (4 <= buffSize <= 5 || buffSize >= 8) ==> computed > 0)
  {
    ComputedByQuota(buffSize, jsonLength);
    hide Computed, Sized;
  }

  lemma {:induction false} HangsWithout(job: Job)
    requires 0 <= job.buffSize <= 3
    ensures OutcomeFrom(job, Looping(0, 0, [])) == Hung
  {
    hide Passes;
    forall n: nat
      ensures Passes(job, Looping(0, 0, []), n).Looping?
    {
      KeepsLooping(job, 0, n);
    }
  }

  lemma {:induction false} KeepsLooping(job: Job, i: Int, n: nat)
    requires 0 <= job.buffSize <= 3
    ensures Passes(job, Looping(i, 0, []), n).Looping?
    decreases n
  {
    hide Passes, StepAt, Wrap;
    StepsBack(job, i);
    PassesUnfold(job, i, 0, [], n);
    if n > 0 {
      KeepsLooping(job, Wrap(i + StepAt(job, i, 0)), n - 1);
    }
  }

  lemma {:induction false} StepsBack(job: Job, i: Int)
    requires 0 <= job.buffSize <= 3
    ensures StepAt(job, i, 0) < 0
  {
    hide StepAt, HeaderLength;
    StartHeader(job);
    StepInFront(job, i);
  }

  /** The outcome of a call: from six characters on the pieces are returned, as far as they go. */
  lemma {:induction false} OutcomeExactly(job: Job)
    requires 0 <= job.buffSize <= INT_MAX / 3
    ensures var room, cut := Room(job, 0), Chunks(job, Whole(job).pieces);
            Prepared(job) ==
              if room >= 6 then Returned(cut)
              else if room >= 4 then if job.bytes != [] && Refused(room, |job.bytes|) then Thrown else Returned(cut)
              else if job.buffSize <= 3 then Hung
              else if job.bytes != [] && !(6 <= job.buffSize <= 7) then Thrown
              else Returned(cut)
  {
    hide Prepared, Room, Whole, Quota, Refused, Chunk;
    QuotaByRoom(job, 0);
    ReturnsTheCut(job);
    StraightExactly(job);
    if Room(job, 0) <= 3 {
      NoRoomExactly(job);
    } else if Room(job, 0) <= 5 && job.bytes != [] {
      SingleFrameExactly(job);
    }
  }

  /** With a negative buffer size and a file that is not empty no list is ever returned: the step is negative
      wherever the index is, except at -1, in front of the file, where it is positive and the call throws. */
  lemma {:induction false} NegativeNeverReturns(job: Job)
    requires LEAST_SIZE <= job.buffSize < 0 && job.bytes != []
    ensures Prepared(job) == Thrown || Prepared(job) == Hung
  {
    hide Passes;
    forall n: nat
      ensures var end := Passes(job, Looping(0, 0, []), n); end.Looping? || end.outcome == Thrown
    {
      NeverZero(job, 0, n);
    }
  }

  lemma {:induction false} NeverZero(job: Job, i: Int, n: nat)
    requires LEAST_SIZE <= job.buffSize < 0 && job.bytes != []
    ensures var end := Passes(job, Looping(i, 0, []), n); end.Looping? || end.outcome == Thrown
    decreases n
  {
    hide Passes, StepAt, Wrap, Copies;
    StepNotZero(job, i);
    PassesUnfold(job, i, 0, [], n);
    if n > 0 && StepAt(job, i, 0) < 0 {
      NeverZero(job, Wrap(i + StepAt(job, i, 0)), n - 1);
    }
  }

  lemma {:induction false} StepNotZero(job: Job, i: Int)
    requires LEAST_SIZE <= job.buffSize < 0 && job.bytes != []
    ensures var step := StepAt(job, i, 0); step != 0 && (step > 0 ==> !Copies(job, i, step))
  {
    StartHeader(job);
    var header := HeaderLength(job, 0);
    StepAtStart(job, i);
    HeaderAt(header, i);
    assert i == -1 ==> CalculateJsonLength(header, i) == INT_MIN;
    hide StepAt, Copies, HeaderLength, CalculateJsonLength;
    ComputedNegative(job.buffSize, CalculateJsonLength(header, i));
  }

  lemma {:induction false} ComputedNegative(buffSize: Int, jsonLength: Int)
    requires LEAST_SIZE <= buffSize < 0
    ensures var computed := Computed(buffSize, jsonLength);
            && (0 <= jsonLength <= 2000 ==> computed < 0)
            && (jsonLength == INT_MIN ==> computed > 0)
  {
    ComputedByQuota(buffSize, jsonLength);
    hide Computed, Sized;
  }

  /** The list is returned and carries the whole file exactly in these cases; in all others an exception ends the
      call, or it never ends, or the list stops short of the end of the file. */
  lemma {:induction false} ReturnsWholeExactly(job: Job)
    requires LEAST_SIZE <= job.buffSize <= INT_MAX / 3 && (job.bytes == [] ==> job.buffSize >= 0)
    ensures Prepared(job).Returned? && Payload(Prepared(job).uploads) == job.bytes
       <==> if job.bytes == [] then job.buffSize >= 4
            else || Room(job, |job.bytes| - 1) >= 8
                 || (4 <= Room(job, 0) <= 5 && !Refused(Room(job, 0), |job.bytes|))
  {
    hide Prepared, Whole, HeaderLength, Payload, Refused;
    StartHeader(job);
    if job.bytes != [] {
      RoomShrinks(job, 0, |job.bytes| - 1);
    }
    if job.buffSize < 0 {
      NegativeNeverReturns(job);
    } else {
      OutcomeExactly(job);
      PiecesCoverExactly(job);
    }
  }
}
