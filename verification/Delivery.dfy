/** Delivering a firmware image to a sink (socket/info/InfoWebSocket.java): freeing space,
    sending the frames under acknowledgement, and checking what the sink stored. */
module Delivery {
  import opened Bytes
  import opened Frames
  import opened Chunking
  import opened Cutting
  import Crc16

  datatype FileDetails = FileDetails(path: string, size: nat, created: int, md5: string, crc: int)

  datatype Summary = Summary(buffSize: Int, freeSpace: int, files: seq<FileDetails>)

  /** What one delivery works with; the digest function is left uninterpreted. */
  datatype Firmware = Firmware(bytes: File, fileName: FileName, time: Millis, md5: seq<Byte> -> string)

  datatype Message =
    | AskList
    | Delete(path: string)
    | Upload(frame: Frame)
    | StartUpgrade(path: string)
    | ErrorCode(code: string)

  datatype Phase =
    | AwaitSpace      // the early list callback is registered
    | AwaitDeleted
    | Sending(uploads: seq<Frame>, index: nat)
    | AwaitCheck      // the late list callback is registered
    | Done            // a start command, an error code or an exception ended the delivery
    | Stuck           // the loop that cuts the firmware never ends

  datatype State = State(phase: Phase, sent: seq<Message>)

  datatype Event =
    | FileList(summary: Summary)
    | Deleted(success: bool)
    | Ack(offset: int, dataSize: int)
    | Timeout

  // ---------------------------------------------------------------------------
  // The stable sort by creation time.

  function Insert(f: FileDetails, sorted: seq<FileDetails>): seq<FileDetails> {
    if sorted == [] || f.created <= sorted[0].created then [f] + sorted
    else [sorted[0]] + Insert(f, sorted[1..])
  }

  function OldestFirst(files: seq<FileDetails>): (sorted: seq<FileDetails>)
    ensures |sorted| == |files|
  {
    if files == [] then [] else
      var rest := OldestFirst(files[1..]);
      InsertLength(files[0], rest);
      Insert(files[0], rest)
  }

  lemma {:induction false} InsertLength(f: FileDetails, sorted: seq<FileDetails>)
    ensures |Insert(f, sorted)| == |sorted| + 1
    decreases |sorted|
  {
    if sorted != [] && f.created > sorted[0].created {
      InsertLength(f, sorted[1..]);
    }
  }

  // ---------------------------------------------------------------------------
  // The callbacks.

  function JobFor(fw: Firmware, summary: Summary): Job {
    Job(summary.buffSize, fw.time, fw.fileName, fw.bytes)
  }

  /** The frames of the pieces cut; a call that returns, returns these (Cutting.ReturnsTheCut). */
  function Uploads(fw: Firmware, summary: Summary): seq<Frame> {
    Chunks(JobFor(fw, summary), Whole(JobFor(fw, summary)).pieces)
  }

  /** sendFilePart: an index outside the list is an exception. */
  function SendPart(st: State, uploads: seq<Frame>, index: nat): State {
    if index < |uploads| then State(Sending(uploads, index), st.sent + [Upload(uploads[index])])
    else st.(phase := Done)
  }

  function Find(files: seq<FileDetails>, path: string): (found: seq<FileDetails>)
    ensures |found| <= 1
  {
    if files == [] then [] else if files[0].path == path then [files[0]] else Find(files[1..], path)
  }

  /** The checksum the server computes, as the int that Java compares. */
  function Crc(bytes: seq<Byte>): int {
    Crc16.Value(Crc16.Zeros(16) + Crc16.Checksum(Crc16.Low16(Crc16.IntBits(0x1021, 32)), bytes))
  }

  ghost function Next(fw: Firmware, st: State, event: Event): State {
    match (st.phase, event)
    case (AwaitSpace, FileList(summary)) =>
      if summary.freeSpace >= |fw.bytes| then
        match Prepared(JobFor(fw, summary))
        case Returned(uploads) => SendPart(st, uploads, 0)
        case Thrown => st.(phase := Done)
        case Hung => st.(phase := Stuck)
      else if summary.files == [] then st.(phase := Done)
      else State(AwaitDeleted, st.sent + [Delete(OldestFirst(summary.files)[0].path)])
    case (AwaitDeleted, Deleted(success)) =>
      if success then State(AwaitSpace, st.sent + [AskList])
      else State(Done, st.sent + [ErrorCode("IWS_005")])
    case (Sending(uploads, index), Ack(offset, dataSize)) =>
      if offset + dataSize < |fw.bytes| then SendPart(st, uploads, index + 1)
      else State(AwaitCheck, st.sent + [AskList])
    case (Sending(_, _), Timeout) => State(Done, st.sent + [ErrorCode("IWS_004")])
    case (AwaitCheck, FileList(summary)) =>
      var found := Find(summary.files, fw.fileName);
      if found == [] then st.(phase := Done)
      else if found[0].md5 == fw.md5(fw.bytes) && found[0].crc == Crc(fw.bytes) then
        State(Done, st.sent + [StartUpgrade(found[0].path)])
      else State(Done, st.sent + [ErrorCode("IWS_006")])
    case _ => st
  }

  /** The network's part of the state, changed by the callbacks. */
  class Network {
    const firmware: Firmware
    var phase: Phase
    var sent: seq<Message>

    function Snapshot(): State
      reads this
    {
      State(phase, sent)
    }

    constructor (firmware: Firmware)
      ensures this.firmware == firmware && Snapshot() == State(AwaitSpace, [])
    {
      this.firmware := firmware;
      phase, sent := AwaitSpace, [];
    }

    /** Both applyOnAskListResponse callbacks, told apart by the stage of the delivery. */
    method OnFileList(summary: Summary)
      requires phase == AwaitSpace && summary.freeSpace >= |firmware.bytes|
               ==> Prepared(JobFor(firmware, summary)) != Hung
      modifies this
      ensures Snapshot() == Next(firmware, old(Snapshot()), FileList(summary))
    {
      if phase == AwaitSpace {
        if summary.freeSpace >= |firmware.bytes| {
          DoUpload(summary);
        } else {
          phase := AwaitDeleted;
          RemoveRedundantFile(summary);
        }
      } else if phase == AwaitCheck {
        CheckStoredFile(summary);
      }
    }

    method DoUpload(summary: Summary)
      requires phase == AwaitSpace && summary.freeSpace >= |firmware.bytes|
      requires Prepared(JobFor(firmware, summary)) != Hung
      modifies this
      ensures Snapshot() == Next(firmware, old(Snapshot()), FileList(summary))
    {
      var outcome := PrepareToSendFile(JobFor(firmware, summary));
      if outcome.Returned? {
        SendFilePart(outcome.uploads, 0);
      } else {
        phase := Done;
      }
    }

    method SendFilePart(uploads: seq<Frame>, currentIndex: nat)
      modifies this
      ensures Snapshot() == SendPart(old(Snapshot()), uploads, currentIndex)
    {
      if currentIndex < |uploads| {
        sent := sent + [Upload(uploads[currentIndex])];
        phase := Sending(uploads, currentIndex);
      } else {
        phase := Done;
      }
    }

    method RemoveRedundantFile(summary: Summary)
      requires phase == AwaitDeleted
      modifies this
      ensures Snapshot() == if summary.files == [] then State(Done, old(sent))
                            else State(AwaitDeleted, old(sent) + [Delete(OldestFirst(summary.files)[0].path)])
    {
      var files := OldestFirst(summary.files);
      if files == [] {
        phase := Done;
      } else {
        sent := sent + [Delete(files[0].path)];
      }
    }

    method OnDeleted(success: bool)
      modifies this
      ensures Snapshot() == Next(firmware, old(Snapshot()), Deleted(success))
    {
      if phase == AwaitDeleted {
        if success {
          phase := AwaitSpace;
          sent := sent + [AskList];
        } else {
          phase := Done;
          sent := sent + [ErrorCode("IWS_005")];
        }
      }
    }

    method OnAck(offset: int, dataSize: int)
      modifies this
      ensures Snapshot() == Next(firmware, old(Snapshot()), Ack(offset, dataSize))
    {
      match phase {
        case Sending(uploads, index) =>
          if offset + dataSize < |firmware.bytes| {
            SendFilePart(uploads, index + 1);
          } else {
            phase := AwaitCheck;
            sent := sent + [AskList];
          }
        case _ =>
      }
    }

    method OnTimeout()
      modifies this
      ensures Snapshot() == Next(firmware, old(Snapshot()), Timeout)
    {
      if phase.Sending? {
        phase := Done;
        sent := sent + [ErrorCode("IWS_004")];
      }
    }

    method CheckStoredFile(summary: Summary)
      requires phase == AwaitCheck
      modifies this
      ensures Snapshot() == Next(firmware, old(Snapshot()), FileList(summary))
    {
      var found := Find(summary.files, firmware.fileName);
      phase := Done;
      if found != [] {
        var crc := new Crc16.Crc16(Crc16.IntBits(0x1021, 32));
        var file := new Byte[|firmware.bytes|](i requires 0 <= i < |firmware.bytes| => firmware.bytes[i]);
        assert file[..] == firmware.bytes;
        var calculated := crc.Calculate(file);
        if found[0].md5 == firmware.md5(firmware.bytes) && found[0].crc == Crc16.Value(calculated) {
          sent := sent + [StartUpgrade(found[0].path)];
        } else {
          sent := sent + [ErrorCode("IWS_006")];
        }
      }
    }
  }

  // ---------------------------------------------------------------------------
  // The sort is a sort.

  ghost predicate Sorted(files: seq<FileDetails>) {
    forall i, j :: 0 <= i < j < |files| ==> files[i].created <= files[j].created
  }

  lemma {:induction false} InsertKeepsSorted(f: FileDetails, sorted: seq<FileDetails>)
    requires Sorted(sorted)
    ensures Sorted(Insert(f, sorted)) && multiset(Insert(f, sorted)) == multiset{f} + multiset(sorted)
    decreases |sorted|
  {
    if sorted == [] || f.created <= sorted[0].created {
    } else {
      assert sorted == [sorted[0]] + sorted[1..];
      InsertKeepsSorted(f, sorted[1..]);
      HeadIsLeast(sorted[0], f, sorted[1..], Insert(f, sorted[1..]));
    }
  }

  lemma {:induction false} HeadIsLeast(head: FileDetails, f: FileDetails, tail: seq<FileDetails>,
                                       rest: seq<FileDetails>)
    requires Sorted([head] + tail) && head.created <= f.created
    requires Sorted(rest) && multiset(rest) == multiset{f} + multiset(tail)
    ensures Sorted([head] + rest)
  {
    forall i | 0 <= i < |rest|
      ensures head.created <= rest[i].created
    {
      assert rest[i] in multiset(rest);
      if rest[i] != f {
        var j :| 0 <= j < |tail| && tail[j] == rest[i];
        assert ([head] + tail)[0].created <= ([head] + tail)[j + 1].created;
      }
    }
  }

  lemma {:induction false} OldestFirstSorts(files: seq<FileDetails>)
    ensures Sorted(OldestFirst(files)) && multiset(OldestFirst(files)) == multiset(files)
    decreases |files|
  {
    if files != [] {
      OldestFirstSorts(files[1..]);
      InsertKeepsSorted(files[0], OldestFirst(files[1..]));
      assert files == [files[0]] + files[1..];
    }
  }

  // ---------------------------------------------------------------------------
  // A sink that obeys, and the space conversation with it.

  datatype Sink = Sink(buffSize: Int, free: int, files: seq<FileDetails>)

  function Report(sink: Sink): Summary {
    Summary(sink.buffSize, sink.free, sink.files)
  }

  predicate DistinctPaths(files: seq<FileDetails>) {
    forall i, j :: 0 <= i < j < |files| ==> files[i].path != files[j].path
  }

  function Without(files: seq<FileDetails>, path: string): seq<FileDetails> {
    if files == [] then []
    else if files[0].path == path then files[1..]
    else [files[0]] + Without(files[1..], path)
  }

  /** The sink removes the file and gains its size. */
  function Remove(sink: Sink, path: string): Sink {
    var found := Find(sink.files, path);
    if found == [] then sink
    else Sink(sink.buffSize, sink.free + found[0].size, Without(sink.files, path))
  }

  lemma {:induction false} OldestIsMember(files: seq<FileDetails>)
    requires files != []
    ensures OldestFirst(files)[0] in files
    decreases |files|
  {
    if files[1..] != [] {
      OldestIsMember(files[1..]);
      assert OldestFirst(files[1..])[0] in files[1..];
    }
  }

  lemma {:induction false} FindMember(files: seq<FileDetails>, f: FileDetails)
    requires f in files && DistinctPaths(files)
    ensures Find(files, f.path) == [f]
    decreases |files|
  {
    var i :| 0 <= i < |files| && files[i] == f;
    if i > 0 {
      assert files[1..][i - 1] == f;
      assert files[0].path != files[i].path;
      assert DistinctPaths(files[1..]);
      FindMember(files[1..], f);
    }
  }

  lemma {:induction false} WithoutKeepsDistinct(files: seq<FileDetails>, path: string)
    requires DistinctPaths(files)
    ensures DistinctPaths(Without(files, path))
    ensures forall f :: f in Without(files, path) ==> f in files
    decreases |files|
  {
    if files != [] && files[0].path != path {
      WithoutKeepsDistinct(files[1..], path);
      var w := Without(files[1..], path);
      forall j | 0 <= j < |w|
        ensures files[0].path != w[j].path
      {
        assert w[j] in files[1..];
      }
    }
  }

  /** Removing the file that the sort puts first is dropping the sort's head. */
  lemma {:induction false} RemoveOldest(files: seq<FileDetails>)
    requires files != [] && DistinctPaths(files)
    ensures OldestFirst(Without(files, OldestFirst(files)[0].path)) == OldestFirst(files)[1..]
    decreases |files|
  {
    var f, rest := files[0], OldestFirst(files[1..]);
    assert OldestFirst(files) == Insert(f, rest);
    if rest == [] || f.created <= rest[0].created {
      assert OldestFirst(files)[1..] == rest;
    } else {
      var head := rest[0];
      OldestIsMember(files[1..]);
      assert DistinctPaths(files[1..]);
      RemoveOldest(files[1..]);
      var w := Without(files[1..], head.path);
      assert head in files[1..] && f.path != head.path;
      assert Without(files, head.path) == [f] + w;
      assert ([f] + w)[1..] == w;
      assert OldestFirst([f] + w) == Insert(f, rest[1..]);
      assert Insert(f, rest) == [head] + Insert(f, rest[1..]);
    }
  }

  /** Obeying a deletion of the oldest file. */
  lemma {:induction false} RemoveStep(sink: Sink)
    requires sink.files != [] && DistinctPaths(sink.files)
    ensures var oldest := OldestFirst(sink.files)[0];
            var left := Remove(sink, oldest.path);
            && left.buffSize == sink.buffSize
            && left.free == sink.free + oldest.size
            && OldestFirst(left.files) == OldestFirst(sink.files)[1..]
            && DistinctPaths(left.files)
            && |left.files| == |sink.files| - 1
  {
    var oldest := OldestFirst(sink.files)[0];
    OldestIsMember(sink.files);
    FindMember(sink.files, oldest);
    WithoutKeepsDistinct(sink.files, oldest.path);
    RemoveOldest(sink.files);
    assert |OldestFirst(Remove(sink, oldest.path).files)| == |sink.files| - 1;
  }

  function Sizes(files: seq<FileDetails>): nat {
    if files == [] then 0 else files[0].size + Sizes(files[1..])
  }

  /** How many of the sorted files have to go. */
  function Needed(sorted: seq<FileDetails>, free: int, need: nat): (k: nat)
    ensures k <= |sorted|
  {
    if free >= need || sorted == [] then 0 else 1 + Needed(sorted[1..], free + sorted[0].size, need)
  }

  /** It is the least number of oldest files that makes room, if any number does. */
  lemma {:induction false} NeededIsLeast(sorted: seq<FileDetails>, free: int, need: nat, j: nat)
    requires j <= |sorted|
    ensures j < Needed(sorted, free, need) ==> free + Sizes(sorted[..j]) < need
    ensures free + Sizes(sorted) >= need
            ==> free + Sizes(sorted[..Needed(sorted, free, need)]) >= need
    decreases |sorted|
  {
    if free < need && sorted != [] {
      var k := Needed(sorted, free, need);
      NeededIsLeast(sorted[1..], free + sorted[0].size, need, if j == 0 then 0 else j - 1);
      assert sorted[..k][1..] == sorted[1..][..k - 1];
      if j > 0 {
        assert sorted[..j][1..] == sorted[1..][..j - 1];
      }
    }
  }

  /** The conversation: the sink reports, and while the answer is a deletion it obeys and is
      asked again.  It ends because every round removes a file. */
  ghost function MakeRoom(fw: Firmware, st: State, sink: Sink): (State, Sink)
    requires st.phase == AwaitSpace && DistinctPaths(sink.files)
    decreases |sink.files|
  {
    var answer := Next(fw, st, FileList(Report(sink)));
    if answer.phase == AwaitDeleted then
      RemoveStep(sink);
      MakeRoom(fw, Next(fw, answer, Deleted(true)), Remove(sink, answer.sent[|answer.sent| - 1].path))
    else (answer, sink)
  }

  function Deletions(files: seq<FileDetails>): seq<Message> {
    if files == [] then [] else [Delete(files[0].path), AskList] + Deletions(files[1..])
  }

  /** The conversation deletes the first `k` of the sorted files and no more; then comes the
      answer to a report that shows the room, or, with every file gone, none. */
  ghost predicate RoomMade(fw: Firmware, sent: seq<Message>, sink: Sink, k: nat, end: State, left: Sink) {
    var sorted := OldestFirst(sink.files);
    && k <= |sorted|
    && OldestFirst(left.files) == sorted[k..]
    && DistinctPaths(left.files)
    && left.buffSize == sink.buffSize
    && left.free == sink.free + Sizes(sorted[..k])
    && (left.free < |fw.bytes| ==> left.files == [])
    && end == Next(fw, State(AwaitSpace, sent + Deletions(sorted[..k])), FileList(Report(left)))
    && end.phase != AwaitDeleted
  }

  /** What is deleted is exactly the shortest oldest-first prefix that makes room. */
  lemma {:induction false} DeletesShortestPrefix(fw: Firmware, st: State, sink: Sink)
    requires st.phase == AwaitSpace && DistinctPaths(sink.files)
    ensures var (end, left) := MakeRoom(fw, st, sink);
            RoomMade(fw, st.sent, sink, Needed(OldestFirst(sink.files), sink.free, |fw.bytes|), end, left)
    decreases |sink.files|
  {
    hide *;
    if sink.free >= |fw.bytes| || sink.files == [] {
      NothingToDelete(fw, st, sink);
    } else {
      RemoveStep(sink);
      RoundTrip(fw, st, sink);
      NeededOneMore(sink, |fw.bytes|);
      var oldest := OldestFirst(sink.files)[0];
      var asked, left := State(AwaitSpace, st.sent + [Delete(oldest.path), AskList]), Remove(sink, oldest.path);
      DeletesShortestPrefix(fw, asked, left);
      var (end, final) := MakeRoom(fw, asked, left);
      OneMoreDeleted(fw, st.sent, sink, Needed(OldestFirst(left.files), left.free, |fw.bytes|), end, final);
    }
  }

  lemma {:induction false} NothingToDelete(fw: Firmware, st: State, sink: Sink)
    requires st.phase == AwaitSpace && DistinctPaths(sink.files)
    requires sink.free >= |fw.bytes| || sink.files == []
    ensures var (end, left) := MakeRoom(fw, st, sink);
            RoomMade(fw, st.sent, sink, Needed(OldestFirst(sink.files), sink.free, |fw.bytes|), end, left)
  {
    var sorted := OldestFirst(sink.files);
    assert st.sent + Deletions(sorted[..0]) == st.sent;
    assert st == State(AwaitSpace, st.sent);
    assert MakeRoom(fw, st, sink) == (Next(fw, st, FileList(Report(sink))), sink);
    hide OldestFirst, Uploads, Whole;
  }

  lemma {:induction false} NeededOneMore(sink: Sink, need: nat)
    requires sink.files != [] && sink.free < need
    ensures var sorted := OldestFirst(sink.files);
            Needed(sorted, sink.free, need) == Needed(sorted[1..], sink.free + sorted[0].size, need) + 1
  {
  }

  lemma {:induction false} OneMoreDeleted(fw: Firmware, sent: seq<Message>, sink: Sink, k: nat, end: State, left: Sink)
    requires sink.files != [] && DistinctPaths(sink.files)
    requires var path := OldestFirst(sink.files)[0].path;
             RoomMade(fw, sent + [Delete(path), AskList], Remove(sink, path), k, end, left)
    ensures RoomMade(fw, sent, sink, k + 1, end, left)
  {
    RemoveStep(sink);
    hide Next, Remove, DistinctPaths, OldestFirst, Sizes, Deletions;
    PrefixGrows(OldestFirst(sink.files), k, sent);
  }

  lemma {:induction false} PrefixGrows(sorted: seq<FileDetails>, k: nat, sent: seq<Message>)
    requires k < |sorted|
    ensures sorted[1..][k..] == sorted[k + 1..]
    ensures Sizes(sorted[..k + 1]) == sorted[0].size + Sizes(sorted[1..][..k])
    ensures sent + Deletions(sorted[..k + 1])
         == sent + [Delete(sorted[0].path), AskList] + Deletions(sorted[1..][..k])
  {
    assert sorted[..k + 1][1..] == sorted[1..][..k];
  }

  lemma {:induction false} RoundTrip(fw: Firmware, st: State, sink: Sink)
    requires st.phase == AwaitSpace && DistinctPaths(sink.files)
    requires sink.free < |fw.bytes| && sink.files != []
    ensures var path := OldestFirst(sink.files)[0].path;
            && DistinctPaths(Remove(sink, path).files)
            && MakeRoom(fw, st, sink)
            == MakeRoom(fw, State(AwaitSpace, st.sent + [Delete(path), AskList]), Remove(sink, path))
  {
    RemoveStep(sink);
    var path := OldestFirst(sink.files)[0].path;
    var answer := Next(fw, st, FileList(Report(sink)));
    assert answer == State(AwaitDeleted, st.sent + [Delete(path)]);
    assert Next(fw, answer, Deleted(true)).sent == st.sent + [Delete(path), AskList];
  }

  // ---------------------------------------------------------------------------
  // Sending under acknowledgements that echo the frame just sent.

  ghost function Echo(fw: Firmware, st: State): State {
    match st.phase
    case Sending(uploads, index) =>
      if index < |uploads| then Next(fw, st, Ack(uploads[index].offset, uploads[index].dataSize)) else st
    case _ => st
  }

  ghost function EchoRun(fw: Firmware, st: State, n: nat): State {
    if n == 0 then st else Echo(fw, EchoRun(fw, st, n - 1))
  }

  function Parts(uploads: seq<Frame>): (messages: seq<Message>)
    ensures |messages| == |uploads|
  {
    seq(|uploads|, n requires 0 <= n < |uploads| => Upload(uploads[n]))
  }

  /** The frames of a complete cut: an acknowledgement of the n-th one reaches the end of the
      file exactly when it is the last. */
  ghost predicate CompleteCut(fw: Firmware, uploads: seq<Frame>) {
    && uploads != []
    && forall n :: 0 <= n < |uploads| ==>
         (uploads[n].offset + uploads[n].dataSize < |fw.bytes| <==> n + 1 < |uploads|)
  }

  lemma {:induction false} CutIsComplete(fw: Firmware, summary: Summary)
    requires var job := JobFor(fw, summary);
             fw.bytes != [] && Roomy(job)
    ensures CompleteCut(fw, Uploads(fw, summary))
    ensures Prepared(JobFor(fw, summary)) == Returned(Uploads(fw, summary))
    ensures Payload(Uploads(fw, summary)) == fw.bytes
  {
    var job := JobFor(fw, summary);
    hide Prepared, Roomy, Payload, Whole, Chunks, CompleteCut;
    CutsWholeFile(job);
    ReturnsTheCut(job);
    WholeIsComplete(fw, summary);
  }

  lemma {:induction false} WholeIsComplete(fw: Firmware, summary: Summary)
    requires fw.bytes != [] && Payload(Uploads(fw, summary)) == fw.bytes
    ensures CompleteCut(fw, Uploads(fw, summary))
  {
    var job := JobFor(fw, summary);
    PayloadIsPrefix(job);
    hide Payload;
    var pieces, uploads := Whole(job).pieces, Uploads(fw, summary);
    assert Total(pieces) == |fw.bytes| by {
      assert |fw.bytes[..Total(pieces)]| == |fw.bytes|;
    }
    forall n | 0 <= n < |uploads|
      ensures uploads[n].offset + uploads[n].dataSize < |fw.bytes| <==> n + 1 < |uploads|
    {
      PieceEnds(job, n);
    }
  }

  lemma {:induction false} PieceEnds(job: Job, n: nat)
    requires Total(Whole(job).pieces) == |job.bytes| && n < |Whole(job).pieces|
    ensures var frame := Chunk(job, Whole(job).pieces[n]);
            frame.offset + frame.dataSize < |job.bytes| <==> n + 1 < |Whole(job).pieces|
  {
    var pieces := Whole(job).pieces;
    hide Step, HeaderLength;
    PiecesAreContiguous(|job.bytes|, Steps(job), 0, n);
    if n + 1 < |pieces| {
      PiecesAreContiguous(|job.bytes|, Steps(job), 0, n + 1);
    } else {
      assert pieces[..n + 1] == pieces;
    }
    TotalOfPrefix(pieces, n);
  }

  lemma {:induction false} TotalOfPrefix(pieces: seq<Piece>, n: nat)
    requires n < |pieces|
    ensures Total(pieces[..n + 1]) == Total(pieces[..n]) + pieces[n].size
    decreases n
  {
    if n > 0 {
      TotalOfPrefix(pieces[1..], n - 1);
      assert pieces[..n + 1][1..] == pieces[1..][..n] && pieces[..n][1..] == pieces[1..][..n - 1];
    } else {
      assert pieces[..1][1..] == [];
    }
  }

  lemma {:induction false} PartsMore(sent: seq<Message>, uploads: seq<Frame>, n: nat)
    requires n < |uploads|
    ensures sent + Parts(uploads[..n + 1]) == sent + Parts(uploads[..n]) + [Upload(uploads[n])]
  {
    assert Parts(uploads[..n + 1]) == Parts(uploads[..n]) + [Upload(uploads[n])];
  }

  /** Frames go out once each and in order, the index never leaves the list, and the list is
      asked for only after the acknowledgement of the last one. */
  lemma {:induction false} SendsInOrder(fw: Firmware, st: State, uploads: seq<Frame>, n: nat)
    requires CompleteCut(fw, uploads) && n <= |uploads|
    ensures EchoRun(fw, SendPart(st, uploads, 0), n) ==
              if n < |uploads| then State(Sending(uploads, n), st.sent + Parts(uploads[..n + 1]))
              else State(AwaitCheck, st.sent + Parts(uploads) + [AskList])
    decreases n
  {
    assert uploads != [];
    hide Next, Echo, Parts, CompleteCut;
    if n == 0 {
      FirstPart(st, uploads);
    } else {
      SendsInOrder(fw, st, uploads, n - 1);
      SendStep(fw, st.sent + Parts(uploads[..n]), uploads, n);
      assert uploads[..|uploads|] == uploads;
      if n < |uploads| {
        PartsMore(st.sent, uploads, n);
      }
    }
  }

  lemma {:induction false} FirstPart(st: State, uploads: seq<Frame>)
    requires uploads != []
    ensures SendPart(st, uploads, 0) == State(Sending(uploads, 0), st.sent + Parts(uploads[..1]))
  {
    assert Parts(uploads[..1]) == [Upload(uploads[0])];
  }

  lemma {:induction false} SendStep(fw: Firmware, sent: seq<Message>, uploads: seq<Frame>, n: nat)
    requires CompleteCut(fw, uploads) && 1 <= n <= |uploads|
    ensures Echo(fw, State(Sending(uploads, n - 1), sent))
         == if n < |uploads| then State(Sending(uploads, n), sent + [Upload(uploads[n])])
            else State(AwaitCheck, sent + [AskList])
  {
  }

  /** No frame reaches the end of the file. */
  ghost predicate CutShort(fw: Firmware, uploads: seq<Frame>) {
    forall n :: 0 <= n < |uploads| ==> uploads[n].offset + uploads[n].dataSize < |fw.bytes|
  }

  lemma {:induction false} PrefixIsCutShort(fw: Firmware, summary: Summary)
    requires Payload(Uploads(fw, summary)) != fw.bytes
    ensures CutShort(fw, Uploads(fw, summary))
  {
    var job := JobFor(fw, summary);
    PayloadIsPrefix(job);
    hide Payload;
    var pieces, uploads := Whole(job).pieces, Uploads(fw, summary);
    assert Total(pieces) < |fw.bytes| by {
      assert fw.bytes[..|fw.bytes|] == fw.bytes;
    }
    forall n | 0 <= n < |uploads|
      ensures uploads[n].offset + uploads[n].dataSize < |fw.bytes|
    {
      PieceWithin(pieces, n);
      hide Step, HeaderLength;
      PiecesAreContiguous(|job.bytes|, Steps(job), 0, n);
    }
  }

  lemma {:induction false} PieceWithin(pieces: seq<Piece>, n: nat)
    requires n < |pieces|
    ensures Total(pieces[..n]) + pieces[n].size <= Total(pieces)
    decreases n
  {
    if n > 0 {
      PieceWithin(pieces[1..], n - 1);
      assert pieces[..n][1..] == pieces[1..][..n - 1];
    }
  }

  /** Then the index leaves the list after the last frame: all frames go out, and nothing after them. */
  lemma {:induction false} ShortCutEndsSilently(fw: Firmware, st: State, uploads: seq<Frame>, n: nat)
    requires CutShort(fw, uploads) && n <= |uploads|
    ensures EchoRun(fw, SendPart(st, uploads, 0), n) ==
              if n < |uploads| then State(Sending(uploads, n), st.sent + Parts(uploads[..n + 1]))
              else State(Done, st.sent + Parts(uploads))
    decreases n
  {
    hide Next, Echo, Parts, CutShort;
    if n == 0 {
      if uploads == [] {
        NoParts(st);
      } else {
        FirstPart(st, uploads);
      }
    } else {
      ShortCutEndsSilently(fw, st, uploads, n - 1);
      ShortStep(fw, st.sent + Parts(uploads[..n]), uploads, n);
      assert uploads[..|uploads|] == uploads;
      if n < |uploads| {
        PartsMore(st.sent, uploads, n);
      }
    }
  }

  lemma {:induction false} NoParts(st: State)
    ensures SendPart(st, [], 0) == State(Done, st.sent + Parts([]))
  {
    assert st.sent + Parts([]) == st.sent;
  }

  lemma {:induction false} ShortStep(fw: Firmware, sent: seq<Message>, uploads: seq<Frame>, n: nat)
    requires CutShort(fw, uploads) && 1 <= n <= |uploads|
    ensures Echo(fw, State(Sending(uploads, n - 1), sent))
         == if n < |uploads| then State(Sending(uploads, n), sent + [Upload(uploads[n])]) else State(Done, sent)
  {
  }

  lemma {:induction false} NothingToEcho(fw: Firmware, st: State, n: nat)
    requires st.phase == Done || st.phase == Stuck
    ensures EchoRun(fw, st, n) == st
  {
    if n > 0 {
      NothingToEcho(fw, st, n - 1);
    }
  }

  /** With a sink that reports room and echoes every frame, the stored file comes to be checked exactly when the
      list is returned and carries the whole firmware.  In every other case the delivery ends with the frames
      that were made, and neither the sink nor the user is told. */
  lemma {:induction false} ReachesCheckExactly(fw: Firmware, st: State, summary: Summary)
    requires st.phase == AwaitSpace && summary.freeSpace >= |fw.bytes| > 0
    requires LEAST_SIZE <= summary.buffSize <= INT_MAX / 3
    ensures var job, uploads := JobFor(fw, summary), Uploads(fw, summary);
            var end := EchoRun(fw, Next(fw, st, FileList(summary)), |uploads|);
            if || Room(job, |fw.bytes| - 1) >= 8
               || (4 <= Room(job, 0) <= 5 && !Refused(Room(job, 0), |fw.bytes|))
            then end == State(AwaitCheck, st.sent + Parts(uploads) + [AskList])
            else
              && (end.phase == Done || end.phase == Stuck)
              && end.sent == st.sent + if Prepared(job).Returned? then Parts(uploads) else []
  {
    var job, uploads := JobFor(fw, summary), Uploads(fw, summary);
    ReturnsWholeExactly(job);
    ReturnsTheCut(job);
    hide EchoRun, Room, Refused, Prepared, Parts, Payload, CompleteCut, CutShort;
    if !Prepared(job).Returned? {
      assert st.sent + [] == st.sent;
      NothingToEcho(fw, Next(fw, st, FileList(summary)), |uploads|);
    } else if Payload(uploads) == fw.bytes {
      WholeIsComplete(fw, summary);
      SendsInOrder(fw, st, uploads, |uploads|);
    } else {
      PrefixIsCutShort(fw, summary);
      ShortCutEndsSilently(fw, st, uploads, |uploads|);
    }
  }

  /** An acknowledgement that falls short of the end after the last frame drives the index
      out of the list, and the delivery ends in an exception. */
  lemma {:induction false} ShortAckCrashes(fw: Firmware, st: State, uploads: seq<Frame>, offset: int, dataSize: int)
    requires uploads != [] && st.phase == Sending(uploads, |uploads| - 1)
    ensures Next(fw, st, Ack(offset, dataSize)) == State(Done, st.sent) <==> offset + dataSize < |fw.bytes|
  {
  }

  // ---------------------------------------------------------------------------
  // The check of the stored file.

  /** What a sink that computes its figures honestly reports for stored contents. */
  function Details(fw: Firmware, path: string, stored: seq<Byte>, created: int): FileDetails {
    FileDetails(path, |stored|, created, fw.md5(stored), Crc(stored))
  }

  /** The name under which a sink stores what it receives: the one that the frames carry. */
  function ReceivedName(frames: seq<Frame>): string {
    if frames == [] then "" else frames[|frames| - 1].fileName
  }

  lemma {:induction false} FindAppended(files: seq<FileDetails>, f: FileDetails)
    requires forall g :: g in files ==> g.path != f.path
    ensures Find(files + [f], f.path) == [f]
    decreases |files|
  {
    if files == [] {
      assert files + [f] == [f];
    } else {
      assert (files + [f])[1..] == files[1..] + [f];
      FindAppended(files[1..], f);
    }
  }

  /** The generator is odd, so a burst of up to sixteen bits changes the checksum. */
  lemma {:induction false} CrcSeesBursts(x: seq<Byte>, y: seq<Byte>, start: nat)
    requires Crc16.Burst(x, y, start)
    ensures Crc(x) != Crc(y)
  {
    var poly := Crc16.Low16(Crc16.IntBits(0x1021, 32));
    PolynomialIsOdd();
    Crc16.BurstDetected(poly, x, y, start);
    hide *;
    CrcBits(x);
    CrcBits(y);
  }

  lemma {:induction false} PolynomialIsOdd()
    ensures Crc16.Low16(Crc16.IntBits(0x1021, 32))[15]
  {
    Crc16.LowestBit(0x1021, 32);
    hide Crc16.IntBits;
  }

  /** The int determines the register. */
  lemma {:induction false} CrcBits(bytes: seq<Byte>)
    ensures Crc16.IntBits(Crc(bytes), 32)[16..] == Crc16.Checksum(Crc16.Low16(Crc16.IntBits(0x1021, 32)), bytes)
  {
    hide Crc16.Checksum, Crc16.IntBits;
    var sum := Crc16.Checksum(Crc16.Low16(Crc16.IntBits(0x1021, 32)), bytes);
    Crc16.BitsOfValue(Crc16.Zeros(16) + sum);
    assert (Crc16.Zeros(16) + sum)[16..] == sum;
  }

  /** An intact file starts the upgrade; a burst of up to sixteen flipped bits is refused,
      whatever the digest says. */
  lemma {:induction false} CheckDecides(fw: Firmware, st: State, summary: Summary, stored: seq<Byte>, created: int,
                                        start: nat)
    requires st.phase == AwaitCheck
    requires Find(summary.files, fw.fileName) == [Details(fw, fw.fileName, stored, created)]
    ensures stored == fw.bytes
            ==> Next(fw, st, FileList(summary)) == State(Done, st.sent + [StartUpgrade(fw.fileName)])
    ensures Crc16.Burst(fw.bytes, stored, start)
            ==> Next(fw, st, FileList(summary)) == State(Done, st.sent + [ErrorCode("IWS_006")])
  {
    hide Crc;
    if Crc16.Burst(fw.bytes, stored, start) {
      CrcSeesBursts(fw.bytes, stored, start);
    }
  }

  // ---------------------------------------------------------------------------
  // The verdict on a delivery, over every run.

  predicate FirstNamed(files: seq<FileDetails>, path: string, k: nat) {
    k < |files| && files[k].path == path && forall j :: 0 <= j < k ==> files[j].path != path
  }

  lemma {:induction false} FindExactly(files: seq<FileDetails>, path: string)
    ensures Find(files, path) == [] <==> forall f :: f in files ==> f.path != path
    ensures forall k: nat :: FirstNamed(files, path, k) ==> Find(files, path) == [files[k]]
    ensures Find(files, path) != [] ==> exists k: nat :: FirstNamed(files, path, k)
  {
    if files != [] {
      var rest := files[1..];
      FindExactly(rest, path);
      assert files == [files[0]] + rest;
      if files[0].path == path {
        assert FirstNamed(files, path, 0);
      } else {
        forall k: nat ensures FirstNamed(files, path, k + 1) <==> FirstNamed(rest, path, k) {
          if FirstNamed(rest, path, k) {
            assert forall j :: 0 < j < k + 1 ==> files[j] == rest[j - 1];
          }
          if FirstNamed(files, path, k + 1) {
            assert forall j :: 0 <= j < k ==> rest[j] == files[j + 1];
          }
        }
        forall k: nat | FirstNamed(files, path, k) ensures Find(files, path) == [files[k]] {
          assert k > 0 && FirstNamed(rest, path, k - 1);
        }
        if k: nat :| FirstNamed(rest, path, k) {
          assert FirstNamed(files, path, k + 1);
        }
      }
    }
  }

  /** The sink's first file of that name has the digest and the checksum of the firmware. */
  ghost predicate Intact(fw: Firmware, files: seq<FileDetails>) {
    exists k: nat :: FirstNamed(files, fw.fileName, k) && files[k].md5 == fw.md5(fw.bytes)
                     && files[k].crc == Crc(fw.bytes)
  }

  /** There is such a file, but one of the two differs. */
  ghost predicate Spoiled(fw: Firmware, files: seq<FileDetails>) {
    exists k: nat :: FirstNamed(files, fw.fileName, k)
                     && !(files[k].md5 == fw.md5(fw.bytes) && files[k].crc == Crc(fw.bytes))
  }

  predicate Verdict(m: Message) {
    m.ErrorCode? || m.StartUpgrade?
  }

  /** What brings each verdict about. */
  ghost predicate Cause(fw: Firmware, st: State, event: Event, m: Message) {
    || (m == ErrorCode("IWS_004") && st.phase.Sending? && event == Timeout)
    || (m == ErrorCode("IWS_005") && st.phase == AwaitDeleted && event == Deleted(false))
    || (m == ErrorCode("IWS_006") && st.phase == AwaitCheck && event.FileList? && Spoiled(fw, event.summary.files))
    || (m == StartUpgrade(fw.fileName) && st.phase == AwaitCheck && event.FileList?
        && Intact(fw, event.summary.files))
  }

  /** A verdict is given exactly for one of these causes, and ends the delivery; any other event adds at most one
      message, which is no verdict. */
  lemma {:induction false} VerdictExactly(fw: Firmware, st: State, event: Event)
    ensures var after := Next(fw, st, event);
            && (forall m :: Verdict(m) ==>
                  (after == State(Done, st.sent + [m]) <==> Cause(fw, st, event, m)))
            && ((exists m :: Cause(fw, st, event, m))
                || after.sent == st.sent
                || (|after.sent| == |st.sent| + 1 && after.sent[..|st.sent|] == st.sent
                    && !Verdict(after.sent[|st.sent|])))
  {
    hide Crc, Uploads, Prepared, OldestFirst;
    if st.phase == AwaitCheck && event.FileList? {
      FindExactly(event.summary.files, fw.fileName);
      CheckCause(fw, st, event.summary);
    } else {
      NoCheckCause(fw, st, event);
    }
  }

  lemma {:induction false} CheckCause(fw: Firmware, st: State, summary: Summary)
    requires st.phase == AwaitCheck
    ensures var after, event := Next(fw, st, FileList(summary)), FileList(summary);
            && (forall m :: Verdict(m) ==> (after == State(Done, st.sent + [m]) <==> Cause(fw, st, event, m)))
            && ((exists m :: Cause(fw, st, event, m)) || after.sent == st.sent)
  {
    FindExactly(summary.files, fw.fileName);
    hide Crc, Find;
    var after, event := Next(fw, st, FileList(summary)), FileList(summary);
    if Find(summary.files, fw.fileName) != [] {
      var k: nat :| FirstNamed(summary.files, fw.fileName, k);
      var m := if summary.files[k].md5 == fw.md5(fw.bytes) && summary.files[k].crc == Crc(fw.bytes)
               then StartUpgrade(fw.fileName) else ErrorCode("IWS_006");
      assert after == State(Done, st.sent + [m]);
      assert Cause(fw, st, event, m);
      forall n | Verdict(n) ensures after == State(Done, st.sent + [n]) <==> Cause(fw, st, event, n) {
        assert (st.sent + [n])[|st.sent|] == n && (st.sent + [m])[|st.sent|] == m;
      }
    }
  }

  lemma {:induction false} NoCheckCause(fw: Firmware, st: State, event: Event)
    requires !(st.phase == AwaitCheck && event.FileList?)
    ensures var after := Next(fw, st, event);
            && (forall m :: Verdict(m) ==> (after == State(Done, st.sent + [m]) <==> Cause(fw, st, event, m)))
            && ((exists m :: Cause(fw, st, event, m))
                || after.sent == st.sent
                || (|after.sent| == |st.sent| + 1 && after.sent[..|st.sent|] == st.sent
                    && !Verdict(after.sent[|st.sent|])))
  {
    hide Crc, Uploads, Prepared, OldestFirst, Find;
    var after := Next(fw, st, event);
    forall m | Verdict(m) ensures after == State(Done, st.sent + [m]) <==> Cause(fw, st, event, m) {
      assert (st.sent + [m])[|st.sent|] == m;
    }
    if st.phase.Sending? && event == Timeout {
      assert Cause(fw, st, event, ErrorCode("IWS_004"));
    } else if st.phase == AwaitDeleted && event == Deleted(false) {
      assert Cause(fw, st, event, ErrorCode("IWS_005"));
    }
  }

  /** What ends a delivery without a word: no file left to delete, a cut that throws or makes no frame, an
      acknowledgement short of the end after the last frame, and a list without the file. */
  ghost predicate FallsSilent(fw: Firmware, st: State, event: Event) {
    || (st.phase == AwaitSpace && event.FileList?
        && if event.summary.freeSpace >= |fw.bytes|
           then Prepared(JobFor(fw, event.summary)) in {Thrown, Returned([])}
           else event.summary.files == [])
    || (st.phase.Sending? && event.Ack? && event.offset + event.dataSize < |fw.bytes|
        && st.phase.index + 1 >= |st.phase.uploads|)
    || (st.phase == AwaitCheck && event.FileList? && forall f :: f in event.summary.files ==> f.path != fw.fileName)
  }

  /** A delivery ends at exactly these events and at verdicts. */
  lemma {:induction false} SilentEndExactly(fw: Firmware, st: State, event: Event)
    requires st.phase != Done
    ensures Next(fw, st, event).phase == Done && Next(fw, st, event).sent == st.sent <==> FallsSilent(fw, st, event)
  {
    hide Crc, Uploads, Prepared, OldestFirst, Find;
    if st.phase == AwaitCheck && event.FileList? {
      FindExactly(event.summary.files, fw.fileName);
    }
  }

  ghost function Run(fw: Firmware, st: State, events: seq<Event>): State
    decreases |events|
  {
    if events == [] then st else Run(fw, Next(fw, st, events[0]), events[1..])
  }

  lemma {:induction false} DoneStays(fw: Firmware, st: State, events: seq<Event>)
    requires st.phase == Done
    ensures Run(fw, st, events) == st
    decreases |events|
  {
    if events != [] {
      DoneStays(fw, st, events[1..]);
    }
  }

  predicate Undecided(sent: seq<Message>) {
    forall k :: 0 <= k < |sent| ==> !Verdict(sent[k])
  }

  /** The delivery ended with a verdict at the i-th event, which is its cause; nothing is sent after it. */
  ghost predicate DecidedAt(fw: Firmware, st: State, events: seq<Event>, i: nat, end: State) {
    && end.phase == Done && end.sent != [] && Undecided(end.sent[..|end.sent| - 1])
    && i < |events| && Cause(fw, Run(fw, st, events[..i]), events[i], end.sent[|end.sent| - 1])
    && Run(fw, st, events[..i + 1]) == end
  }

  /** Over every run of reports, answers, acknowledgements and timeouts there is at most one verdict, the last
      message of all; it is given at the event that causes it, and nothing happens after it. */
  lemma {:induction false} OneVerdict(fw: Firmware, st: State, events: seq<Event>)
    returns (i: nat)
    requires Undecided(st.sent)
    ensures var end := Run(fw, st, events); Undecided(end.sent) || DecidedAt(fw, st, events, i, end)
    decreases |events|
  {
    hide *;
    i := 0;
    if events == [] {
      RunNone(fw, st);
    } else {
      var next := Next(fw, st, events[0]);
      RunFirst(fw, st, events, |events|);
      assert events[..|events|] == events && events[1..][..|events| - 1] == events[1..];
      VerdictExactly(fw, st, events[0]);
      if m :| Cause(fw, st, events[0], m) {
        CauseIsVerdict(fw, st, events[0], m);
        DoneStays(fw, next, events[1..]);
        DecidedFirst(fw, st, events, m);
      } else {
        StillUndecided(st.sent, next.sent);
        i := OneVerdict(fw, next, events[1..]);
        DecidedLater(fw, st, events, i);
        i := i + 1;
      }
    }
  }

  lemma {:induction false} RunNone(fw: Firmware, st: State)
    ensures Run(fw, st, []) == st
  {
    hide Next;
  }

  lemma {:induction false} RunFirst(fw: Firmware, st: State, events: seq<Event>, n: nat)
    requires 1 <= n <= |events|
    ensures Run(fw, st, events[..n]) == Run(fw, Next(fw, st, events[0]), events[1..][..n - 1])
  {
    hide Next;
    assert events[..n][1..] == events[1..][..n - 1];
  }

  lemma {:induction false} StillUndecided(before: seq<Message>, after: seq<Message>)
    requires Undecided(before)
    requires after == before || (|after| == |before| + 1 && after[..|before|] == before && !Verdict(after[|before|]))
    ensures Undecided(after)
  {
    hide Verdict;
    assert after != before ==> after == before + [after[|before|]];
  }

  lemma {:induction false} DecidedFirst(fw: Firmware, st: State, events: seq<Event>, m: Message)
    requires events != [] && Undecided(st.sent) && Cause(fw, st, events[0], m)
    requires Next(fw, st, events[0]) == State(Done, st.sent + [m]) == Run(fw, st, events)
    ensures DecidedAt(fw, st, events, 0, Run(fw, st, events))
  {
    hide Next, Cause, Verdict, Run;
    RunFirst(fw, st, events, 1);
    RunNone(fw, st);
    RunNone(fw, Next(fw, st, events[0]));
    assert events[1..][..0] == [] && events[..0] == [];
    assert (st.sent + [m])[..|st.sent|] == st.sent;
  }

  lemma {:induction false} DecidedLater(fw: Firmware, st: State, events: seq<Event>, i: nat)
    requires events != []
    ensures var next := Next(fw, st, events[0]);
            DecidedAt(fw, next, events[1..], i, Run(fw, next, events[1..])) ==>
              DecidedAt(fw, st, events, i + 1, Run(fw, next, events[1..]))
  {
    hide Next, Cause, Verdict, Run, Undecided;
    if i + 1 < |events| {
      RunFirst(fw, st, events, i + 1);
      RunFirst(fw, st, events, i + 2);
    }
  }

  lemma {:induction false} CauseIsVerdict(fw: Firmware, st: State, event: Event, m: Message)
    requires Cause(fw, st, event, m)
    ensures Verdict(m)
  {
  }

  // ---------------------------------------------------------------------------
  // The whole delivery.

  /** From the first report to the start command: the sink obeys deletions, echoes every
      frame, and stores what it received under the name that the frames carry. */
  lemma {:induction false} DeliversFirmware(fw: Firmware, sink: Sink, created: int)
    requires fw.bytes != [] && DistinctPaths(sink.files)
    requires sink.free + Sizes(OldestFirst(sink.files)) >= |fw.bytes|
    requires var job := JobFor(fw, Report(sink)); Roomy(job)
    requires forall f :: f in sink.files ==> f.path != fw.fileName
    ensures var uploads := Uploads(fw, Report(sink));
            var k := Needed(OldestFirst(sink.files), sink.free, |fw.bytes|);
            var (sending, left) := MakeRoom(fw, State(AwaitSpace, []), sink);
            var checking := EchoRun(fw, sending, |uploads|);
            var stored := Details(fw, ReceivedName(uploads), Payload(uploads), created);
            Next(fw, checking, FileList(Report(left.(files := left.files + [stored]))))
            == State(Done, Deletions(OldestFirst(sink.files)[..k]) + Parts(uploads)
                           + [AskList, StartUpgrade(fw.fileName)])
  {
    hide Next, MakeRoom, EchoRun, Echo, Needed, Sizes, OldestFirst, Deletions, Parts, Payload, Uploads, Find,
         Crc, DistinctPaths;
    var uploads, sorted := Uploads(fw, Report(sink)), OldestFirst(sink.files);
    var k := Needed(sorted, sink.free, |fw.bytes|);
    var (sending, left) := MakeRoom(fw, State(AwaitSpace, []), sink);
    var start := State(AwaitSpace, Deletions(sorted[..k]));
    RoomThenFirstPart(fw, sink);
    CutIsComplete(fw, Report(sink));
    SendsInOrder(fw, start, uploads, |uploads|);
    LeftAreOld(sink, left, k);
    ReceivedUnderOwnName(fw, Report(sink));
    var stored := Details(fw, ReceivedName(uploads), Payload(uploads), created);
    var summary := Report(left.(files := left.files + [stored]));
    assert stored.path == fw.fileName && summary.files == left.files + [stored];
    FindAppended(left.files, stored);
    CheckDecides(fw, EchoRun(fw, sending, |uploads|), summary, fw.bytes, created, 0);
    hide *;
    assert Deletions(sorted[..k]) + Parts(uploads) + [AskList] + [StartUpgrade(fw.fileName)]
        == Deletions(sorted[..k]) + Parts(uploads) + [AskList, StartUpgrade(fw.fileName)];
  }

  lemma {:induction false} ReceivedUnderOwnName(fw: Firmware, summary: Summary)
    requires Uploads(fw, summary) != []
    ensures ReceivedName(Uploads(fw, summary)) == fw.fileName
  {
    var job := JobFor(fw, summary);
    assert Uploads(fw, summary) == Chunks(job, Whole(job).pieces);
    hide Whole;
    FramesBelong(job, |Whole(job).pieces| - 1);
  }

  lemma {:induction false} RoomThenFirstPart(fw: Firmware, sink: Sink)
    requires fw.bytes != [] && DistinctPaths(sink.files)
    requires sink.free + Sizes(OldestFirst(sink.files)) >= |fw.bytes|
    requires var job := JobFor(fw, Report(sink)); Roomy(job)
    ensures var sorted := OldestFirst(sink.files);
            var k := Needed(sorted, sink.free, |fw.bytes|);
            var (sending, left) := MakeRoom(fw, State(AwaitSpace, []), sink);
            && OldestFirst(left.files) == sorted[k..]
            && sending == SendPart(State(AwaitSpace, Deletions(sorted[..k])), Uploads(fw, Report(sink)), 0)
  {
    var sorted := OldestFirst(sink.files);
    var k := Needed(sorted, sink.free, |fw.bytes|);
    var (sending, left) := MakeRoom(fw, State(AwaitSpace, []), sink);
    DeletesShortestPrefix(fw, State(AwaitSpace, []), sink);
    NeededIsLeast(sorted, sink.free, |fw.bytes|, 0);
    CutIsComplete(fw, Report(sink));
    assert [] + Deletions(sorted[..k]) == Deletions(sorted[..k]);
    assert JobFor(fw, Report(left)) == JobFor(fw, Report(sink));
    assert left.free >= |fw.bytes|;
    assert sending == Next(fw, State(AwaitSpace, Deletions(sorted[..k])), FileList(Report(left)));
    hide Needed, MakeRoom, Sizes, OldestFirst, Roomy, Deletions, CompleteCut;
  }

  lemma {:induction false} LeftAreOld(sink: Sink, left: Sink, k: nat)
    requires k <= |sink.files| && OldestFirst(left.files) == OldestFirst(sink.files)[k..]
    ensures forall f :: f in left.files ==> f in sink.files
  {
    OldestFirstSorts(left.files);
    OldestFirstSorts(sink.files);
    forall f | f in left.files
      ensures f in sink.files
    {
      assert f in multiset(OldestFirst(left.files));
      assert f in OldestFirst(sink.files)[k..];
      assert f in multiset(OldestFirst(sink.files));
    }
  }
}
