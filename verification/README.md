# Verification of the indoor positioning backend

A Dafny model of the hardest parts of the UWB positioning system, with proofs. `dafny verify
dfyconfig.toml` checks everything. Each module follows one component.

**Firmware delivery** (`Crc16`, `Base64`, `Frames`, `Chunking`, `Cutting`, `Delivery`, `Upgrade`). The server frees
space on a sink, cuts the image into frames, sends them under acknowledgement, checks the stored copy
and then walks the devices of the sink through their restart, one by one. Integers of the original are
bit sequences where it shifts them and wrapped ints where it adds them. A protocol is a function from
state and event to state; a class with the original's fields is proved equal to it. The chain ends in
`Delivery.DeliversFirmware`: from the first file list to the Start command, for every firmware and every
sink that obeys; `Delivery.OneVerdict` says over every run, obeying sink or not, how a delivery can end and why.

**Area events** (`AreaEvents`). The (tag, area) history that is updated while an unordered map is
iterated. Two conditions are exact: a list of configurations tracks containment if and only if ON_ENTER
stands first and ON_LEAVE is among them, and the result is free of the map's order if and only if
ON_ENTER stands first in every list (or there is one area only). Over whole runs enters and leaves
alternate, except where a sweep evicted the entry.

**Geometry and positions** (`Geometry`, `Spheres`, `PlanarPoints`, `Threshold`, `GeoN3d`, `GeoN2d`, `ExactReadings`,
`PlaneReadings`). Doubles are reals, and the square root is a parameter that satisfies its defining equation. The
intersection formulas are proved sound and complete: what they return lies on the circles or spheres, and nothing else does. On top
of them the two position algorithms never index out of range, divide by at least the number of anchors or
pairs, and stay inside the box of the points they count. Given exact readings of one
point, that point is among those of every triple of anchors in space, and of every pair on the plane but one kind; with
all anchors in one plane the position in space is the foot of the point on it.

**Measurement window** (`Storage`, `Windows`). The bounded lists per tag and anchor agree with the full history of
arrivals, exactly when is shown for arrivals in any order of times.

**Map configurations** (`Configurations`). Versions over runs of save, publish and undo, and what
publishing does to the devices of all floors: after every run, what was saved last is what a publication places.

**Template compiler** (`HandlebarsCompiler`, `HandlebarsMachine`, `JavaScriptCompilers`,
`HandlebarsMeaning`, `HandlebarsPrograms`, `HandlebarsOptions`, `HandlebarsRefusals`). The vendored compiler in two
stages, with its mutable objects, against a meaning read off the syntax tree without stacks. `HandlebarsPrograms.CompilerCorrect` says that
every template the compiler accepts compiles without a stack error, and has the intended meaning if and
only if its statements are plain at every depth. `HandlebarsOptions.EveryStatementWritten` says of each statement of a
compiled template what it writes, and which nested programs the call in it is handed.

## Where the code does not do what was intended

Each is stated as a lemma, most of them with the exact condition.

- The cut into frames takes the logarithm of zero when four or five characters are left in the buffer at
  the first frame, or where an overflow comes to the same value: the step saturates and the whole file
  goes into one frame (`Chunking.FramesFitExactly`). The index then walks back in front of the file; either
  that one frame is returned and sent, or an exception ends the upload (`Cutting.SingleFrameExactly`).
- With less than four characters left the index leaves the file at once; the call then throws, returns no
  frame, or, for a buffer of up to three characters, never ends (`Cutting.NoRoomExactly`).
- A buffer that is too small by the time the offset gains a digit ends the upload early. The file arrives whole
  if and only if eight characters are left at its last byte, or the step saturates and the one frame is returned
  (`Chunking.PiecesCoverExactly`, `Cutting.ReturnsWholeExactly`); otherwise no one is told
  (`Delivery.ReachesCheckExactly`).
- A future that a late restart completed makes the next wait for the same device end at once. A started device
  ends in the partition its Start command named if and only if its future was not completed by then
  (`Upgrade.EndsInPartitionSentExactly`); the one step that can lead there is a wait that times out while its
  device is restarting (`Upgrade.FreshStepExactly`, `Upgrade.StaleFutureReachable`).
- An unknown id at the head of the queue makes the server forget the file and the rest of the queue, unless
  another device is updating (`Upgrade.HandOverKeepsQueueExactly`).
- ON_LEAVE in front of ON_ENTER turns an enter into a leave when the tag comes from another area
  (`AreaEvents.EntersWithLeave`).
- Where one circle lies inside the other, the point returned has equal gaps but is the best one only if
  the first circle is the inner one (`Geometry.NearestExactly`).
- A tag on the line of two anchors, on the far side of the second as seen from the first, is put on the wrong side of the
  first: the point is found if and only if the second circle does not touch the first from within
  (`PlaneReadings.PointFoundExactly`).
- Anchors that all hang in one plane give no height over that plane, even from exact readings: each triple yields the
  tag and its mirror image, all points count, and the position is the foot of the tag on the plane
  (`ExactReadings.FlatAnchorsLoseHeight`).
- A measurement time that goes back can lose a measure: the stored list is the window of the history if and only
  if every measure of the window survived all arrivals since, none of them more than ten seconds later and never
  four newer ones of its anchor still standing (`Windows.WindowExactly`).
- Heron's formula takes the distance to the middle without its sign: the two points lie on the second sphere if and
  only if the foot of the height is not behind the first centre. The point between nested spheres is the best one
  only if the second is the inner one (`PlanarPoints.EveryPoint`).
- The report before publishing fails when a device on another floor carries no floor in the configuration
  (`Configurations.ReportExactly`).
- A dynamic partial without parameters changes places with its context under explicitPartialContext, and
  an ambiguous block without any program passes on the options of another block
  (`HandlebarsPrograms.CompilerCorrect`).

## Model

| member | source | states |
|---|---|---|
| Crc16.Crc16.constructor | src/main/java/co/blastlab/indoornavi/socket/info/helper/Crc16.java:7-22 | The filled table is valid: each of its 256 entries holds, in its low 16 bits, the register after clocking the entry's index bit by bit |
| Crc16.Crc16.Calculate | src/main/java/co/blastlab/indoornavi/socket/info/helper/Crc16.java:24-31 | The table-driven loop over signed bytes equals the bit-serial MSB-first CRC started at all ones, for every polynomial and message |
| Crc16.IndexInRange | src/main/java/co/blastlab/indoornavi/socket/info/helper/Crc16.java:28 | The table index is always 0 to 255, and is the register's high byte plus the message byte |
| Crc16.LookupIsByte | src/main/java/co/blastlab/indoornavi/socket/info/helper/Crc16.java:28 | One shift, lookup and mask is eight clocks of the serial register, although entries keep bits above 16 |
| Crc16.SerialAffine | src/main/java/co/blastlab/indoornavi/socket/info/helper/Crc16.java:7-31 | The checksum is affine over exclusive or |
| Crc16.IdleKeepsNonzero | src/main/java/co/blastlab/indoornavi/socket/info/helper/Crc16.java:7-22 | With an odd polynomial no number of clocks brings a nonzero register to zero |
| Crc16.BurstDetected | src/main/java/co/blastlab/indoornavi/socket/info/helper/Crc16.java:7-31 | Every odd polynomial tells apart any two messages of equal length that differ within 16 consecutive bits, at any alignment |
| Crc16.EvenMissesBurst | src/main/java/co/blastlab/indoornavi/socket/info/helper/Crc16.java:7-31 | Every even polynomial misses some such difference, so oddness is exactly what is needed |
| Base64.EncodedLength | src/main/java/co/blastlab/indoornavi/socket/info/InfoWebSocket.java:495 | Encoded data has four characters for every three bytes begun |
| Base64.RoundTrip | src/main/java/co/blastlab/indoornavi/socket/info/InfoWebSocket.java:495 | Decoding what was encoded gives the bytes back |
| Base64.LeftoverIsZero | src/main/java/co/blastlab/indoornavi/socket/info/InfoWebSocket.java:495 | The last group is filled up with padding, and the bits left over in it are zero, as section 4 of RFC 4648 demands |
| Frames.CeilLog10IsLeast | src/main/java/co/blastlab/indoornavi/socket/info/helper/JsonHelper.java:4-6 | The rounded logarithm is the least exponent whose power of ten reaches the number |
| Frames.DecimalReads | src/main/java/co/blastlab/indoornavi/socket/info/InfoWebSocket.java:486 | A number in a frame is written in digits without leading zeros, and reads back as itself |
| Frames.DecimalLength | src/main/java/co/blastlab/indoornavi/socket/info/helper/JsonHelper.java:4-6 | The digits of a number are counted by the rounded logarithm of its successor, zero excepted |
| Frames.JsonLengthCountsOffsetAgain | src/main/java/co/blastlab/indoornavi/socket/info/helper/JsonHelper.java:4-6 | The helper adds the offset's own digits once more, except at offset zero |
| Chunking.PiecesAreContiguous | src/main/java/co/blastlab/indoornavi/socket/info/InfoWebSocket.java:482-498 | For any steps, the pieces cut while the index is the offset are non-empty and follow one another without gap or overlap inside the file |
| Chunking.PayloadIsPrefix | src/main/java/co/blastlab/indoornavi/socket/info/InfoWebSocket.java:482-499 | However the loop ends, the decoded frames put together are a prefix of the file |
| Chunking.FramesBelong | src/main/java/co/blastlab/indoornavi/socket/info/InfoWebSocket.java:480-495 | Every frame of the cut names the file, its whole length and the one time stamp, starts where the frames before it end, and decodes to its own slice of the file |
| Chunking.ComputedByQuota | src/main/java/co/blastlab/indoornavi/socket/info/InfoWebSocket.java:486-488 | For every int buffer size, overflow included: the step by three quarters of the room is negative, saturated at the largest int, zero, or positive and bounded |
| Chunking.StepByQuota | src/main/java/co/blastlab/indoornavi/socket/info/InfoWebSocket.java:486-491 | The same after the cut at the end of the file |
| Chunking.QuotaByRoom | src/main/java/co/blastlab/indoornavi/socket/info/InfoWebSocket.java:486-488 | Below a third of the largest int these cases are: up to three characters left, four or five, six or seven, and eight or more |
| Chunking.SizedChunkFits | src/main/java/co/blastlab/indoornavi/socket/info/InfoWebSocket.java:486-497 | A chunk sized by the arithmetic makes a frame whose JSON fits the sink's buffer, with its data and the digits of its size filled in |
| Chunking.FramesFitExactly | src/main/java/co/blastlab/indoornavi/socket/info/InfoWebSocket.java:476-500 | For every buffer size and file, all frames fit if and only if no frame is made, or the buffer size is not negative and the first step does not saturate or the whole file fits in one frame |
| Chunking.FramesFitBelowThird | src/main/java/co/blastlab/indoornavi/socket/info/InfoWebSocket.java:476-500 | From minus 700 million up to a third of the largest int all frames fit if and only if it is not the case that four or five characters are left at the start and the file has more than three bytes |
| Chunking.SaturatedFrame | src/main/java/co/blastlab/indoornavi/socket/info/InfoWebSocket.java:488-491 | When the step saturates the single frame fits if and only if the digits of the length and the Base64 text fit in the room; Cutting.SingleFrameExactly says when it is returned |
| Chunking.RoomShrinks | src/main/java/co/blastlab/indoornavi/socket/info/InfoWebSocket.java:486 | The characters left never grow from one offset to a later one |
| Chunking.NextQuota | src/main/java/co/blastlab/indoornavi/socket/info/InfoWebSocket.java:484-497 | After a positive step the next one is never negative: from eight characters on at least six are left, from ten on at least eight |
| Chunking.CutsWholeFile | src/main/java/co/blastlab/indoornavi/socket/info/InfoWebSocket.java:476-500 | With a positive step from every byte the loop ends and the decoded frames are the whole file |
| Chunking.RoomAtEnd | src/main/java/co/blastlab/indoornavi/socket/info/InfoWebSocket.java:476-500 | Eight characters left at the last byte are enough for that |
| Chunking.CoverByQuota | src/main/java/co/blastlab/indoornavi/socket/info/InfoWebSocket.java:476-500 | For every buffer size, overflow included, the pieces carry the whole file if and only if it is empty, the first step saturates, or the quotas at the first and the last byte make a positive step; excepted are sizes at which three times the room at the last byte wraps around to 22 or 23 |
| Chunking.PiecesCoverExactly | src/main/java/co/blastlab/indoornavi/socket/info/InfoWebSocket.java:476-500 | From minus 700 million up to a third of the largest int the pieces carry the whole file if and only if it is empty, or four or five characters are left at the start, or at least eight at the last byte |
| Chunking.ShortBufferTruncates | src/main/java/co/blastlab/indoornavi/socket/info/InfoWebSocket.java:482-498 | An instance of the other case: with exactly eight characters left at the start only the first byte of a longer file is sent |
| Cutting.PrepareToSendFile | src/main/java/co/blastlab/indoornavi/socket/info/InfoWebSocket.java:476-500 | The loop, with wrapping ints and with index and offset apart after a negative step, returns the list or throws as its passes lead to, for every call that ends at all; calls that never end are in Cutting.OutcomeExactly |
| Cutting.StraightExactly | src/main/java/co/blastlab/indoornavi/socket/info/InfoWebSocket.java:482-498 | For every buffer size and file: the part of the loop where the index is the offset ends with a zero step, with a refused range, or with a negative step at the start or at the end of the file, told apart by the quotas there |
| Cutting.StraightRun | src/main/java/co/blastlab/indoornavi/socket/info/InfoWebSocket.java:482-498 | This part makes exactly the frames of the pieces, and what the loop comes to is what it comes to from there |
| Cutting.ReturnsTheCut | src/main/java/co/blastlab/indoornavi/socket/info/InfoWebSocket.java:482-499 | For every buffer size and file, overflow included, a returned list holds exactly the frames of the pieces: no frame is made after a negative step |
| Cutting.ReturnedFramesBelong | src/main/java/co/blastlab/indoornavi/socket/info/InfoWebSocket.java:476-500 | So does every frame of a list that the call returns |
| Cutting.SingleFrameExactly | src/main/java/co/blastlab/indoornavi/socket/info/InfoWebSocket.java:482-498 | With four or five characters left at the start the one frame of the whole file is returned, except for the listed lengths, at which the index walking back meets the logarithm of zero again and copyOfRange throws |
| Cutting.NoRoomExactly | src/main/java/co/blastlab/indoornavi/socket/info/InfoWebSocket.java:482-498 | With up to three characters left the call never ends for a buffer of up to three, returns nothing for six or seven or an empty file, and throws otherwise |
| Cutting.OutcomeExactly | src/main/java/co/blastlab/indoornavi/socket/info/InfoWebSocket.java:476-500 | Below a third of the largest int: for every file and buffer, whether the call returns and what, throws, or never ends |
| Cutting.NegativeNeverReturns | src/main/java/co/blastlab/indoornavi/socket/info/InfoWebSocket.java:482-498 | For a negative buffer size and a file that is not empty no list is returned: the call throws or never ends |
| Cutting.ReturnsWholeExactly | src/main/java/co/blastlab/indoornavi/socket/info/InfoWebSocket.java:476-500 | The list is returned and carries the whole file if and only if at least eight characters are left at the last byte, or four or five at the start and the length is none of the refused ones (for an empty file: the buffer is at least four) |
| Delivery.Network.OnFileList | src/main/java/co/blastlab/indoornavi/socket/info/InfoWebSocket.java:389-448 | A file list drives the delivery as the state machine says, in either stage, for every call of prepareToSendFile that ends |
| Delivery.Network.OnAck | src/main/java/co/blastlab/indoornavi/socket/info/InfoWebSocket.java:508-519 | An acknowledgement leads to the next frame or to the final file list |
| Delivery.Network.RemoveRedundantFile | src/main/java/co/blastlab/indoornavi/socket/info/InfoWebSocket.java:720-726 | The oldest file is asked to be deleted; with no file at all the delivery ends |
| Delivery.Network.CheckStoredFile | src/main/java/co/blastlab/indoornavi/socket/info/InfoWebSocket.java:421-448 | The upgrade starts only for a stored file with equal digest and equal table-driven CRC |
| Delivery.OldestFirstSorts | src/main/java/co/blastlab/indoornavi/socket/info/InfoWebSocket.java:721 | The list sorted by creation is ordered and a permutation |
| Delivery.NeededIsLeast | src/main/java/co/blastlab/indoornavi/socket/info/InfoWebSocket.java:395-403 | The number of files to delete is the least prefix, oldest first, that makes room |
| Delivery.DeletesShortestPrefix | src/main/java/co/blastlab/indoornavi/socket/info/InfoWebSocket.java:389-414 | If deletions succeed, exactly the shortest oldest-first prefix that makes room is deleted, and then the upload begins or nothing is left to delete |
| Delivery.CutIsComplete | src/main/java/co/blastlab/indoornavi/socket/info/InfoWebSocket.java:467-500 | With enough buffer the call returns, and the uploads are a complete cut of the firmware |
| Delivery.SendsInOrder | src/main/java/co/blastlab/indoornavi/socket/info/InfoWebSocket.java:502-524 | Under echoing acknowledgements frames go out once each and in order, the index stays in the list, and the final list is asked for only after the last frame |
| Delivery.ShortCutEndsSilently | src/main/java/co/blastlab/indoornavi/socket/info/InfoWebSocket.java:502-524 | When no frame reaches the end of the file, all frames go out in order and the index leaves the list after the last one, without an error code |
| Delivery.ReachesCheckExactly | src/main/java/co/blastlab/indoornavi/socket/info/InfoWebSocket.java:389-524 | With a sink that has room and echoes every frame, the stored file comes to be checked if and only if Cutting.ReturnsWholeExactly holds; in every other case the delivery ends, or hangs, after the frames made, without an error code |
| Delivery.CrcSeesBursts | src/main/java/co/blastlab/indoornavi/socket/info/InfoWebSocket.java:431-432 | The generator used here changes the checksum for every burst of up to 16 bits |
| Delivery.CheckDecides | src/main/java/co/blastlab/indoornavi/socket/info/InfoWebSocket.java:421-448 | An intact stored file starts the upgrade, and one with a burst of up to 16 flipped bits is refused whatever its digest |
| Delivery.VerdictExactly | src/main/java/co/blastlab/indoornavi/socket/info/InfoWebSocket.java:389-524 | At every event: IWS_004 if and only if a frame times out, IWS_005 if and only if a deletion is refused, IWS_006 if and only if the first stored file of that name differs in digest or checksum, Start if and only if both agree; anything else adds at most one message, which is none of these |
| Delivery.SilentEndExactly | src/main/java/co/blastlab/indoornavi/socket/info/InfoWebSocket.java:389-524 | A delivery ends without a message if and only if there is no file left to delete, the cut throws or makes no frame, an acknowledgement stops short of the end after the last frame, or the list lacks the file |
| Delivery.OneVerdict | src/main/java/co/blastlab/indoornavi/socket/info/InfoWebSocket.java:389-524 | Over every run of file lists, answers, acknowledgements and timeouts at most one of these is sent, as the last message, at the event that causes it, and nothing happens afterwards |
| Delivery.DeliversFirmware | src/main/java/co/blastlab/indoornavi/socket/info/InfoWebSocket.java:389-524 | End to end: deletions, all frames in order, the final list and the Start command; the sink stores what it received under the name that the frames carry, and that is the firmware under its name |
| Upgrade.Network.OnDeviceTurnOn | src/main/java/co/blastlab/indoornavi/socket/info/InfoWebSocket.java:270-318 | A turn-on changes status, counter, stored minor and future as the state machine says |
| Upgrade.Network.CheckOutdatedDeviceStatus | src/main/java/co/blastlab/indoornavi/socket/info/InfoWebSocket.java:320-341 | A periodic check of an outdated device |
| Upgrade.Network.FinishUpdate | src/main/java/co/blastlab/indoornavi/socket/info/InfoWebSocket.java:632-656 | The end of a wait whose future completed: ONLINE, the next Start, perhaps a cleared queue, and a fresh future |
| Upgrade.Network.StartUpgrade | src/main/java/co/blastlab/indoornavi/socket/info/InfoWebSocket.java:806-825 | The head of the queue is taken and, if known, started towards the other partition |
| Upgrade.CountersBounded | src/main/java/co/blastlab/indoornavi/socket/info/InfoWebSocket.java:270-333 | In every run the restart counter is 0 or 1 and the check counter 0 to 2 between events |
| Upgrade.SilentGoesOffline | src/main/java/co/blastlab/indoornavi/socket/info/InfoWebSocket.java:320-333 | Over every run in which nothing is heard from a restarting device outside the queue, it is asked for its version by the first two outdated checks and OFFLINE from the third on, whatever happens elsewhere |
| Upgrade.OnlineUntilFoundSilent | src/main/java/co/blastlab/indoornavi/socket/info/InfoWebSocket.java:320-333 | Over every run in which nothing is heard from an ONLINE device outside the queue, it is OFFLINE if and only if some check came more than half a minute after the last sign of it |
| Upgrade.StatusLeftExactly | src/main/java/co/blastlab/indoornavi/socket/info/InfoWebSocket.java:270-341 | At every event of a network: a device becomes UPDATING only if it is the head of the queue and a checked file or the end of another update starts it, RESTARTING only by its own acknowledgement, and OFFLINE if and only if a check finds it ONLINE and silent for half a minute, or RESTARTING for so long and asked twice |
| Upgrade.GoesOnlineExactly | src/main/java/co/blastlab/indoornavi/socket/info/InfoWebSocket.java:270-318 | A device becomes ONLINE if and only if it turns on when OFFLINE, turns on the second time in a restart without reporting another partition, aborts, or its update ends and it is not itself the next one |
| Upgrade.RestartCountExactly | src/main/java/co/blastlab/indoornavi/socket/info/InfoWebSocket.java:270-318 | The restart counter rises if and only if it is zero and a RESTARTING device turns on; it is zero after the second turn-on, a turn-on when OFFLINE, an answered version and the end of a wait, and nothing else lowers it |
| Upgrade.CheckCountExactly | src/main/java/co/blastlab/indoornavi/socket/info/InfoWebSocket.java:320-341 | The check counter rises by one at checks only, and is zero after a turn-on when OFFLINE, an answered version and a check that gives a restart up |
| Upgrade.LastSignExactly | src/main/java/co/blastlab/indoornavi/socket/info/InfoWebSocket.java:320-341 | The time a device was last heard of is that of its last beacon, or of the start or end of its update |
| Upgrade.FutureReplacedExactly | src/main/java/co/blastlab/indoornavi/socket/info/InfoWebSocket.java:632-656 | A future is replaced by the next one if and only if a wait for it ends, completed or timed out |
| Upgrade.StoredVersionExactly | src/main/java/co/blastlab/indoornavi/socket/info/InfoWebSocket.java:270-318 | The stored version changes if and only if a version message, an answer when ONLINE or RESTARTING, or a turn-on when ONLINE, OFFLINE or second in a restart into the other partition reports one, and is then the reported one |
| Upgrade.CompletesExactly | src/main/java/co/blastlab/indoornavi/socket/info/InfoWebSocket.java:270-289 | The future completes if and only if the event is the second counted turn-on of a restart that reports the other partition; the stored minor is then the reported one |
| Upgrade.EndsInPartitionSentExactly | src/main/java/co/blastlab/indoornavi/socket/info/InfoWebSocket.java:619-656 | Over every wait, from the Start command to its task resuming, without version messages, timeouts, turn-ons outside the update or after the completion: the stored version ends in the partition sent if and only if the future was not completed when the command was sent |
| Upgrade.LateTaskFlipsBack | src/main/java/co/blastlab/indoornavi/socket/info/InfoWebSocket.java:270-289 | Why turn-ons after the completion are excluded: two more take the device back under the same completed future |
| Upgrade.FreshStepExactly | src/main/java/co/blastlab/indoornavi/socket/info/InfoWebSocket.java:619-656 | In a network whose completed current futures all have a task, the only event that breaks this is a wait timing out at a RESTARTING device, and it always does |
| Upgrade.NoStaleFuture | src/main/java/co/blastlab/indoornavi/socket/info/InfoWebSocket.java:619-656 | Over every run without such a timeout no future goes stale at any device |
| Upgrade.InTimeEndsInPartitionSent | src/main/java/co/blastlab/indoornavi/socket/info/InfoWebSocket.java:619-656 | After every such run a device that is started while no task waits for it ends in the partition its Start command named |
| Upgrade.StaleFutureEndsAtOnce | src/main/java/co/blastlab/indoornavi/socket/info/InfoWebSocket.java:619-656 | With a future completed before the Start command the wait ends with the acknowledgement, and the device is ONLINE in its old partition |
| Upgrade.StaleFutureReachable | src/main/java/co/blastlab/indoornavi/socket/info/InfoWebSocket.java:619-656 | From a network in which nothing is under way, five events lead to such a future: checked file, acknowledgement, timeout, and two turn-ons |
| Upgrade.UpgradesInOrder | src/main/java/co/blastlab/indoornavi/socket/info/InfoWebSocket.java:619-660 | In every run where updates succeed, Start commands follow the queue with one per id, every one of them naming the file that was checked, at most one device is UPDATING or RESTARTING, and the file is cleared only when the queue is empty |
| Upgrade.StaysInOrder | src/main/java/co/blastlab/indoornavi/socket/info/InfoWebSocket.java:619-660 | Every single event keeps that order |
| Upgrade.HandOverKeepsQueueExactly | src/main/java/co/blastlab/indoornavi/socket/info/InfoWebSocket.java:632-656 | Whenever something is queued, handing over keeps the rest of the queue and the file if and only if the next device is in the database and connected, or another device is UPDATING; otherwise both are cleared |
| AreaEvents.AreaEventController.UpdateData | src/main/java/co/blastlab/indoornavi/socket/area/AreaEventController.java:66-80 | The sweep removes exactly the entries older than a minute, in whatever order it meets them |
| AreaEvents.AreaEventController.CheckCoordinates | src/main/java/co/blastlab/indoornavi/socket/area/AreaEventController.java:81-120 | A position changes the history and tells events as the passes over the areas do, for the order in which the map was iterated |
| AreaEvents.AreaEventController.GetFilteredAreas | src/main/java/co/blastlab/indoornavi/socket/area/AreaEventController.java:166-187 | The map holds exactly the areas with a configuration for the tag, with these configurations in order |
| AreaEvents.TracksExactly | src/main/java/co/blastlab/indoornavi/socket/area/AreaEventController.java:90-112 | A list of configurations tracks containment from every history if and only if it starts with ON_ENTER and has an ON_LEAVE |
| AreaEvents.EntersWithLeave | src/main/java/co/blastlab/indoornavi/socket/area/AreaEventController.java:91-102 | With ON_LEAVE in front it does not: an enter is told as a leave |
| AreaEvents.RunSeparates | src/main/java/co/blastlab/indoornavi/socket/area/AreaEventController.java:89-113 | With ON_ENTER in front each area is treated as if it were alone |
| AreaEvents.RowIsContainment | src/main/java/co/blastlab/indoornavi/socket/area/AreaEventController.java:81-120 | After any position the tag's row, on the floor's areas, is exactly the set of areas containing the point, all seen now; other entries are untouched |
| AreaEvents.RowByHeight | src/main/java/co/blastlab/indoornavi/socket/area/AreaEventController.java:81-136 | Such an area is one that the point is near enough to on the plane and neither too low nor too high for: a bound given alone excludes its own value, two bounds include both |
| AreaEvents.EnterFirstIsOrderFree | src/main/java/co/blastlab/indoornavi/socket/area/AreaEventController.java:89-113 | History and event multiset are then the same for any two orders of the map |
| AreaEvents.OrderFreeExactly | src/main/java/co/blastlab/indoornavi/socket/area/AreaEventController.java:89-113 | They are the same for all orders if and only if every list starts with ON_ENTER or there is one area at most |
| AreaEvents.EventsAlternate | src/main/java/co/blastlab/indoornavi/socket/area/AreaEventController.java:66-149 | Over every run of positions and sweeps, enters and leaves per tag and area alternate except across an eviction |
| Geometry.BothPointsOnBothCircles | coordinates-calculator/src/main/java/pl/indoornavi/coordinatescalculator/shared/IntersectionsCalculator.java:15-58 | When the circles meet, both points are at exactly the two given distances |
| Geometry.NoOtherCommonPoint | coordinates-calculator/src/main/java/pl/indoornavi/coordinatescalculator/shared/IntersectionsCalculator.java:38-56 | No other point of the plane is |
| Geometry.NearestExactly | coordinates-calculator/src/main/java/pl/indoornavi/coordinatescalculator/shared/IntersectionsCalculator.java:24-36 | When they do not meet, the single point has equal gaps to both; these are the least possible if and only if the circles are apart or the first is not the larger |
| Geometry.NoPointIsNearer | coordinates-calculator/src/main/java/pl/indoornavi/coordinatescalculator/shared/IntersectionsCalculator.java:24-36 | No point of the plane has a smaller largest gap than the least gap |
| Spheres.FrameFits | coordinates-calculator/src/main/java/pl/indoornavi/coordinatescalculator/shared/IntersectionsCalculator.java:165-171 | The axes are orthonormal, and the centres have the coordinates that the formulas use |
| Spheres.CoordinatesExactly | coordinates-calculator/src/main/java/pl/indoornavi/coordinatescalculator/shared/IntersectionsCalculator.java:173-175 | A point is at the three distances if and only if it has the computed coordinates |
| Spheres.SpheresMeetExactly | coordinates-calculator/src/main/java/pl/indoornavi/coordinatescalculator/shared/IntersectionsCalculator.java:158-193 | Each returned point is at exactly the three given distances if and only if the squared height is not negative |
| Spheres.NoOtherPointOnAllThree | coordinates-calculator/src/main/java/pl/indoornavi/coordinatescalculator/shared/IntersectionsCalculator.java:158-193 | Every point at the three distances is one of the two returned |
| PlanarPoints.PairExactly | coordinates-calculator/src/main/java/pl/indoornavi/coordinatescalculator/shared/IntersectionsCalculator.java:113-156 | Where two spheres meet, both points of the planar pair lie in the plane of the centres and on the first sphere; on the second if and only if the squared distance of the centres plus the first squared radius is at least the second |
| PlanarPoints.MiddleExactly | coordinates-calculator/src/main/java/pl/indoornavi/coordinatescalculator/shared/IntersectionsCalculator.java:93-111 | Where two spheres do not meet, the point between them has equal gaps to both; they are the least possible if and only if the spheres are apart or the second is the inner one |
| PlanarPoints.NoPointIsNearer3 | coordinates-calculator/src/main/java/pl/indoornavi/coordinatescalculator/shared/IntersectionsCalculator.java:93-111 | No point of space has smaller gaps to both spheres than the least one |
| PlanarPoints.EveryPoint | coordinates-calculator/src/main/java/pl/indoornavi/coordinatescalculator/shared/IntersectionsCalculator.java:195-229 | Every point returned for three centres that are not collinear is of one of these kinds, or of the two common ones where all spheres meet in pairs |
| Threshold.CalculateThres | coordinates-calculator/src/main/java/pl/indoornavi/coordinatescalculator/shared/IntersectionsCalculator.java:73-86 | The loop finds the specified threshold, its index in range whenever the list is as long as the count |
| Threshold.ThresExactly | coordinates-calculator/src/main/java/pl/indoornavi/coordinatescalculator/shared/IntersectionsCalculator.java:73-86 | It lets through exactly the sums up to the count-th smallest and those less than a tenth over it, at least `count` of them |
| GeoN3d.Calculate | coordinates-calculator/src/main/java/pl/indoornavi/coordinatescalculator/algorithms/GeoN3d.java:35-108 | A position comes out if and only if four anchors are connected and known; it is the rounded mean of the counted points, no fewer than anchors |
| GeoN3d.EnoughPoints | coordinates-calculator/src/main/java/pl/indoornavi/coordinatescalculator/algorithms/GeoN3d.java:47-68 | The triple loop over n anchors yields 2 to 5 points for each of n(n-1)(n-2)/6 triples, at least 2n for n from 4 on |
| GeoN3d.CountedExactly | coordinates-calculator/src/main/java/pl/indoornavi/coordinatescalculator/algorithms/GeoN3d.java:78-99 | Counted are exactly the points with a sum of distances among the n smallest or less than a tenth over these; at least n |
| GeoN3d.FixInBox | coordinates-calculator/src/main/java/pl/indoornavi/coordinatescalculator/algorithms/GeoN3d.java:89-107 | The position lies in every box around the counted points, up to rounding |
| ExactReadings.TripleExactly | coordinates-calculator/src/main/java/pl/indoornavi/coordinatescalculator/algorithms/GeoN3d.java:49-64 | Every point that a triple of anchors contributes is on the spheres of these anchors with their own readings, if and only if these have a common point; where some two do not meet it comes from two of them and their own readings |
| ExactReadings.EveryTripleVisited | coordinates-calculator/src/main/java/pl/indoornavi/coordinatescalculator/algorithms/GeoN3d.java:49-67 | The points are those of all triples of different anchors, and no others |
| ExactReadings.PointsExactly | coordinates-calculator/src/main/java/pl/indoornavi/coordinatescalculator/algorithms/GeoN3d.java:49-76 | With the previous position, if there is one, these are all points of a position |
| ExactReadings.CommonPointFound | coordinates-calculator/src/main/java/pl/indoornavi/coordinatescalculator/algorithms/GeoN3d.java:49-67 | A point at its own reading from every anchor is among the points of every triple of anchors that are not on a line |
| ExactReadings.SpherePointsMirrored | coordinates-calculator/src/main/java/pl/indoornavi/coordinatescalculator/shared/IntersectionsCalculator.java:158-193 | The two points of three spheres are mirror images in the plane of the centres |
| ExactReadings.FlatAnchorsLoseHeight | coordinates-calculator/src/main/java/pl/indoornavi/coordinatescalculator/algorithms/GeoN3d.java:35-108 | For any number of anchors in one plane, no three on a line, and exact readings of one point, without a previous position: the position is the foot of that point on the plane |
| GeoN2d.Calculate | src/main/java/co/blastlab/indoornavi/socket/measures/algorithms/GeoN2d.java:33-83 | The position is a function of the connected anchors, although the set of pairs is iterated in any order |
| GeoN2d.GetAnchorDistancePairs | src/main/java/co/blastlab/indoornavi/socket/measures/algorithms/GeoN2d.java:85-109 | The pairs are every anchor with every later one |
| GeoN2d.PairPoints | src/main/java/co/blastlab/indoornavi/socket/measures/algorithms/GeoN2d.java:44-57 | A valid pair contributes one or two points, an invalid one none |
| GeoN2d.PlaneIsClose | src/main/java/co/blastlab/indoornavi/socket/measures/IntersectionsCalculator.java:14-56 | The integer points are those of the exact formula up to less than two units in each coordinate |
| GeoN2d.TallyOfAnyOrder | src/main/java/co/blastlab/indoornavi/socket/measures/algorithms/GeoN2d.java:65-80 | Threshold, divisor and sums depend on the points only, not on their order |
| GeoN2d.EnoughPoints | src/main/java/co/blastlab/indoornavi/socket/measures/algorithms/GeoN2d.java:60-80 | With three valid pairs the threshold index is in range and the divisor is at least the number of valid pairs |
| GeoN2d.FixInBox | src/main/java/co/blastlab/indoornavi/socket/measures/algorithms/GeoN2d.java:71-82 | The truncated average lies in the bounding box of the counted points |
| PlaneReadings.PointFoundExactly | coordinates-calculator/src/main/java/pl/indoornavi/coordinatescalculator/shared/IntersectionsCalculator.java:15-58 | A point at both distances is among the points computed if and only if the circles cross, or the first touches the second from within, or the point is the first centre |
| PlaneReadings.RadiusExactly | src/main/java/co/blastlab/indoornavi/socket/measures/algorithms/GeoN2d.java:111-116 | The radius of a circle is the distance on the plane of every tag at one metre that is as far as measured, and zero where the measured distance does not reach that height |
| PlaneReadings.PairsExactly | src/main/java/co/blastlab/indoornavi/socket/measures/algorithms/GeoN2d.java:85-109 | Every anchor is paired with every later one, and no other pairs are made |
| PlaneReadings.TagAmongPoints | src/main/java/co/blastlab/indoornavi/socket/measures/algorithms/GeoN2d.java:43-57 | For every two connected anchors that read the distance of a tag at one metre, one of the points is the tag up to less than two units in each coordinate, unless the second circle touches the first from within |
| Storage.Storage.SetConnection | coordinates-calculator/src/main/java/pl/indoornavi/coordinatescalculator/shared/Storage.java:66-86 | A measurement goes to the front of its anchor's list, or starts it |
| Storage.Storage.CleanOldData | coordinates-calculator/src/main/java/pl/indoornavi/coordinatescalculator/shared/Storage.java:127-139 | Lists of the tag are trimmed and empty ones dropped; an unknown tag is an error |
| Storage.Storage.RemoveOld | coordinates-calculator/src/main/java/pl/indoornavi/coordinatescalculator/shared/Storage.java:129-134 | Both loops over one list keep the first four that are not too old |
| Storage.Storage.GetConnectedAnchors | coordinates-calculator/src/main/java/pl/indoornavi/coordinatescalculator/shared/Storage.java:88-95 | The anchors are those with measures left after cleaning |
| Storage.Storage.GetDistance | coordinates-calculator/src/main/java/pl/indoornavi/coordinatescalculator/shared/Storage.java:32-42 | The mean times the number of measures is their sum; zero where nothing is stored |
| Storage.MeanBetween | coordinates-calculator/src/main/java/pl/indoornavi/coordinatescalculator/shared/Storage.java:32-42 | This mean lies between the least and the greatest of the stored distances |
| Storage.Storage.GetTimeOfLastMeasure | coordinates-calculator/src/main/java/pl/indoornavi/coordinatescalculator/shared/Storage.java:54-64 | No anchor's latest time is earlier, and it is one of them unless it is now |
| Storage.AfterMeasurement | coordinates-calculator/src/main/java/pl/indoornavi/coordinatescalculator/shared/Storage.java:66-139 | Whatever the times, every list of the tag has one to four entries and that of the reported anchor starts with the new one; its polynomial is fitted to the measures that were there before, and is the one distance where there was at most one; other tags are untouched |
| Storage.WindowOfHistory | coordinates-calculator/src/main/java/pl/indoornavi/coordinatescalculator/shared/Storage.java:66-139 | With times that do not go back for a tag, each list equals the newest four, at most, of all arrivals no older than ten seconds |
| Windows.KeptExactly | coordinates-calculator/src/main/java/pl/indoornavi/coordinatescalculator/shared/Storage.java:66-139 | After any arrivals, in any order of times, the measures stored for an anchor are exactly those of its arrivals that survive: at no arrival of the tag since was one more than ten seconds later, or were four newer ones of the anchor still standing |
| Windows.StoredAreKept | coordinates-calculator/src/main/java/pl/indoornavi/coordinatescalculator/shared/Storage.java:66-139 | The stored list is the list of these measures, newest first |
| Windows.WindowExactly | coordinates-calculator/src/main/java/pl/indoornavi/coordinatescalculator/shared/Storage.java:66-139 | For any number of arrivals and any times: the stored list equals that window of the whole history if and only if every arrival in the window survives |
| Configurations.ConfigurationBean.SaveDraft | src/main/java/co/blastlab/indoornavi/rest/facade/configuration/ConfigurationBean.java:110-134 | A draft over a published version gets the next version, else the newest is edited; unknown floors are refused |
| Configurations.ConfigurationBean.Undo | src/main/java/co/blastlab/indoornavi/rest/facade/configuration/ConfigurationBean.java:137-161 | The newest version is removed, or the only one made blank; the version then newest is returned |
| Configurations.ConfigurationBean.PrePublish | src/main/java/co/blastlab/indoornavi/rest/facade/configuration/ConfigurationBean.java:56-72 | The report is that of the newest configuration's placements, in order |
| Configurations.ConfigurationBean.Publish | src/main/java/co/blastlab/indoornavi/rest/facade/configuration/ConfigurationBean.java:75-107 | Devices are reset and extracted and the newest version is stamped, or nothing at all changes |
| Configurations.ConfigurationBean.ResetAnchors | src/main/java/co/blastlab/indoornavi/utils/ConfigurationExtractor.java:96-108 | Exactly the devices of the floor lose floor, place and sink |
| Configurations.ConfigurationBean.ExtractSinks | src/main/java/co/blastlab/indoornavi/utils/ConfigurationExtractor.java:51-74 | Sinks and their anchors are placed in order, up to the first unknown one |
| Configurations.VersionsOverRuns | src/main/java/co/blastlab/indoornavi/rest/facade/configuration/ConfigurationBean.java:75-161 | Over every run of saves, publications and undos a floor's versions are exactly 0 to n-1 and all but possibly the newest are published |
| Configurations.SaveShows | src/main/java/co/blastlab/indoornavi/rest/facade/configuration/ConfigurationBean.java:110-134 | What is saved is what the floor then shows, unpublished and stamped, as the next version over a published one or else in place of the draft; all other versions stay |
| Configurations.PublishShows | src/main/java/co/blastlab/indoornavi/rest/facade/configuration/ConfigurationBean.java:75-107 | A publication stamps the version shown, keeps its data, and changes no other |
| Configurations.UndoDrops | src/main/java/co/blastlab/indoornavi/rest/facade/configuration/ConfigurationBean.java:137-161 | An undo drops the newest version; the only one becomes blank and loses both stamps |
| Configurations.UndoRestoresExactly | src/main/java/co/blastlab/indoornavi/rest/facade/configuration/ConfigurationBean.java:110-161 | Undo after saving restores the history if and only if the newest version was published, or was the blank one an undo leaves |
| Configurations.ExtractExactly | src/main/java/co/blastlab/indoornavi/utils/ConfigurationExtractor.java:51-74 | Extraction succeeds if and only if all named devices are known and named sinks are sinks; the last mention counts |
| Configurations.PublishExactly | src/main/java/co/blastlab/indoornavi/rest/facade/configuration/ConfigurationBean.java:75-107 | After publishing exactly the named devices are on the floor, at their last named place; unnamed devices of other floors are unchanged |
| Configurations.PublishesWhatWasSaved | src/main/java/co/blastlab/indoornavi/rest/facade/configuration/ConfigurationBean.java:75-134 | After every run of saves, publications and undos that ends with a save, a publication succeeds if and only if the devices in the data just saved exist and its sinks are sinks; then the floor holds exactly the devices in that data, each at the last place written for it and under the last sink that lists it |
| Configurations.ReportExactly | src/main/java/co/blastlab/indoornavi/utils/ConfigurationExtractor.java:116-134 | The report names exactly the named devices on another floor, and fails if and only if one of these carries no floor |
| Configurations.ReportedAreTaken | src/main/java/co/blastlab/indoornavi/rest/facade/configuration/ConfigurationBean.java:56-107 | Reported are exactly the devices that publishing moves from another floor to this one |
| HandlebarsCompiler.Compiler.Accept | src/main/webapp/api/lib/handlebars-4.0.5.js:4361-4453 | The visitor emits the specified opcodes for an expression, or throws exactly where specified |
| HandlebarsCompiler.Compiler.PathExpression | src/main/webapp/api/lib/handlebars-4.0.5.js:4414-4433 | A path becomes a context and one lookup, by block parameter, data or context |
| HandlebarsCompiler.Compiler.AcceptHash | src/main/webapp/api/lib/handlebars-4.0.5.js:4455-4468 | Values are pushed first to last, keys assigned last to first |
| HandlebarsCompiler.Compiler.HelperSexpr | src/main/webapp/api/lib/handlebars-4.0.5.js:4396-4412 | A helper call, or the exception for an unknown helper |
| HandlebarsCompiler.Compiler.AcceptStatement | src/main/webapp/api/lib/handlebars-4.0.5.js:4254-4359 | A statement becomes the specified opcodes and nested programs |
| HandlebarsCompiler.Compiler.PartialStatement | src/main/webapp/api/lib/handlebars-4.0.5.js:4299-4334 | A partial with at most one parameter, its context and its dynamic name |
| HandlebarsCompiler.Compiler.CompileProgram | src/main/webapp/api/lib/handlebars-4.0.5.js:4211-4223 | A nested program is compiled by a fresh compiler and numbered by its place |
| HandlebarsCompiler.Compiler.Program | src/main/webapp/api/lib/handlebars-4.0.5.js:4237-4252 | A program's environment, with its block parameters in scope and out of scope again |
| HandlebarsCompiler.InnermostWins | src/main/webapp/api/lib/handlebars-4.0.5.js:4583-4592 | A name is a block parameter if and only if some scope binds it; the innermost such scope wins, and in it the first parameter of that name |
| HandlebarsCompiler.ClassifiedExactly | src/main/webapp/api/lib/handlebars-4.0.5.js:4484-4515 | A head is a helper if and only if it is no block parameter and has arguments or is a known bare name; it is left to run time if and only if it is a bare name, neither bound nor known, without arguments, and other helpers are allowed |
| JavaScriptCompilers.JavaScriptCompiler.SelectTop | src/main/webapp/api/lib/handlebars-4.0.5.js:5558-5596 | replaceStack leaves the slots as they were |
| JavaScriptCompilers.JavaScriptCompiler.ResolvePath | src/main/webapp/api/lib/handlebars-4.0.5.js:5175-5203 | The path is looked up segment by segment |
| JavaScriptCompilers.JavaScriptCompiler.FlushInline | src/main/webapp/api/lib/handlebars-4.0.5.js:5607-5621 | Inline items move to the compiled stack, literals as they are |
| JavaScriptCompilers.JavaScriptCompiler.SetupParams | src/main/webapp/api/lib/handlebars-4.0.5.js:5700-5768 | Hash, inverse, program and the parameters, popped backwards and put in order |
| JavaScriptCompilers.JavaScriptCompiler.Step | src/main/webapp/api/lib/handlebars-4.0.5.js:5021-5455 | Every opcode acts on the machine as specified, and fails exactly where specified |
| JavaScriptCompilers.JavaScriptCompiler.Compile | src/main/webapp/api/lib/handlebars-4.0.5.js:4766-4818 | The whole run over an environment, with the check for content left on the stack |
| JavaScriptCompilers.Precompile | src/main/webapp/api/lib/handlebars-4.0.5.js:4594-4609 | Both compilers in a row: refused templates are exactly the illegal ones, and the rest mean what was intended if and only if they are plain |
| HandlebarsMeaning.ParamsInOrder | src/main/webapp/api/lib/handlebars-4.0.5.js:4520-4524 | Each parameter of a call is the value of the source parameter at the same place |
| HandlebarsMeaning.PathLooksUp | src/main/webapp/api/lib/handlebars-4.0.5.js:4414-4433 | A path is looked up segment by segment, from the innermost block parameter of its first segment, or else from the data or the context at its depth |
| HandlebarsMeaning.KeysHoldTheirValues | src/main/webapp/api/lib/handlebars-4.0.5.js:4455-4468 | The hash under construction, before it is printed, has exactly the source keys, each with its own value, the first where a key is repeated |
| HandlebarsMeaning.ExprRuns | src/main/webapp/api/lib/handlebars-4.0.5.js:4361-4433 | The opcodes of any expression, however nested, push exactly its value and leave stacks, hashes, slots and output as they were |
| HandlebarsMeaning.HashLiteralRuns | src/main/webapp/api/lib/handlebars-4.0.5.js:5237-5266 | A hash under construction is saved while an inner one is built, and restored |
| HandlebarsMeaning.HelperRuns | src/main/webapp/api/lib/handlebars-4.0.5.js:4396-4412 | A helper call finds its parameters in order, its programs and its hash |
| HandlebarsPrograms.StatementRuns | src/main/webapp/api/lib/handlebars-4.0.5.js:4254-4359 | Every legal statement runs from empty stacks to empty stacks and writes its lines |
| HandlebarsPrograms.ProgramRuns | src/main/webapp/api/lib/handlebars-4.0.5.js:4766-4818 | Every legal program, with those nested in it, compiles without an invalid pop or content left on a stack |
| HandlebarsPrograms.CompilerCorrect | src/main/webapp/api/lib/handlebars-4.0.5.js:4594-4609 | The compiled template means what its syntax tree means if and only if no statement, at any depth, is a dynamic partial without parameters under explicitPartialContext or an ambiguous block without any program |
| HandlebarsOptions.EveryStatementWritten | src/main/webapp/api/lib/handlebars-4.0.5.js:5700-5768 | In every compiled template, each statement writes after the lines of those before it: a block a call whose fn is the nested program that means its own program and whose inverse the one that means its else part, a no-op for one missing beside the other and neither where none is written, with name, hash and parameters of the source; likewise partials, mustaches and text |
| HandlebarsOptions.EveryDecoratorRegistered | src/main/webapp/api/lib/handlebars-4.0.5.js:5306-5326 | Each decorator block registers its decorator with its name, parameters, hash and program |
| HandlebarsOptions.SubExpressionCalled | src/main/webapp/api/lib/handlebars-4.0.5.js:4396-4412 | A sub-expression is called with its own name, parameters and hash, and without programs |
| HandlebarsRefusals.RefusedExactly | src/main/webapp/api/lib/handlebars-4.0.5.js:4299-4412 | A template is refused if and only if some partial in it, at any depth, has more than one parameter, or only known helpers are allowed and some call compiled as a helper, at any depth of expressions and programs, is of an unknown one |

## Left out

- WebSocket sessions, Jackson, JPA, timers, executors and loggers: they are events, maps and time parameters here; a transaction that fails leaves the state as it was.
- Races between threads: events and methods run one after another, and a wait is an event of its own.
- The MD5 digest is an uninterpreted function, and the random file name a given string.
- One time stamp is given to all frames of an upload, and one to all history entries of a position; the original reads the clock again each time.
- Firmware longer than 1.5 GiB: it arrives Base64-encoded in one string.
- Cutting.PrepareToSendFile: a call that never ends has no result to state, so the method asks for one that does; Delivery shows such a call as a phase of its own. An array of the largest int is refused; memory does not run out for smaller ones.
- Cutting.OutcomeExactly: buffers above a third of the largest int, where the arithmetic overflows, and negative ones, where the index may or may not meet -1 on its way round the ints; Cutting.ReturnsTheCut, Cutting.StraightExactly and Cutting.NegativeNeverReturns cover these in part.
- Cutting.ReturnsWholeExactly: an empty file with a negative buffer size, and sizes that overflow.
- Delivery.OneVerdict: IWS_007 and IWS_010, sent for a file list that fails and for errors of input and output, which are no events here.
- Delivery.Next: an acknowledgement that arrives while no frame is out is dropped here; in the original it completes the future that the next frame waits on, and is taken for that frame's.
- HandlebarsMeaning.KeysHoldTheirValues: the printed object omits a key whose value is the literal undefined.
- The remaining handlers of both Network classes, each an assignment or two, are proved equal to the same state machines and have no rows.
- The registry of sessions and sinks, registration of new devices, devices without a stored minor, and the battery, command and wizard messages of the same socket.
- The check of the image's first bytes, which also keeps empty images out: the end-to-end theorem asks for a non-empty one.
- AreaEvents.OrderFreeExactly: containment is any set of areas, so that polygons and height ranges that exclude each other are not used; areas with several offsets for one tag are modelled but not covered by the theorems.
- The distance of a point from a polygon: near or not is given per area and offset; the height range is modelled.
- An area edited between two positions is a different key in the history, as in the original, where equality covers all fields.
- Rounding, overflow and not-a-number of doubles; for coincident or collinear anchors the formulas give some real number here.
- Geometry.NearestExactly: asks for distinct centres and distances that are not negative.
- ExactReadings.FlatAnchorsLoseHeight: a previous position, which counts as one more point, is left out, and so are three anchors on a line.
- PlaneReadings.TagAmongPoints: the tag is at the height of one metre that the original assumes, TAG_Z.
- PlanarPoints.EveryPoint: centres that are not collinear, and distances that are not negative.
- GeoN2d.Calculate: casts of numbers beyond the range of an int saturate in the original; here they do not.
- Interpolated distances: the fitted polynomial is an opaque value; the Taylor algorithm needs a matrix library that is not part of this model.
- Configurations.ConfigurationBean.Publish: scale, areas and publications of the floor, and the cache of the calculator.
- Handlebars: the lexer, the grammar, the runtime and the JavaScript text; the options strict, assumeObjects, compat, stringParams, trackIds and preventIndent, which stay off.
- JavaScriptCompilers.JavaScriptCompiler.Compile: equal nested programs are compiled once and shared in the original; here each is compiled.
- The other vendored libraries, the REST beans, the bridges and the frontend.
