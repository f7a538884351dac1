# Verified model of the Reolink client's core logic

The client shows cameras on a live grid, plays recordings, talks back through the camera, downloads
clips and keeps an event inbox. Underneath are pieces of logic that promise something about every
input or every run. This project models them in Dafny and proves those promises:

- **Tile policy** (`TilePolicy`, `TickProperties`, `RunProperties`, `TileLaws`, `WaitingLaws`,
  `ActivityPolicyObject`): which camera each live-grid tile shows while activity happens. Nobody waiting is
  forgotten or overtaken, or held back below the cap on starts; no tile flickers, a held camera stays unless
  AI activity may take its tile, no window holds more starts per NVR than the cap, and a quiet grid serves its
  queue.
- **Baichuan media path** (`Bytes`, `MediaStream`, `BcMediaParserObject`, `BcCrypto`, `BcMessages`,
  `PumpTurns`, `MediaPumpObject`, `PictureGate`, `FrameRing`, `SeekToPicture`): TCP bytes become BC
  messages, their media parts are decrypted and become frames, and the frames reach the decoder through a
  bounded ring. It does not matter how the network cuts the bytes or where seeks fall, well-formed frames come out exactly, the
  ring neither loses, reorders, overflows nor deadlocks, and what the decoder reads after a seek is the
  new position from its first key frame on.
- **Talk codec** (`ImaCodec`, `TalkBlocks`, `TalkEncoderObject`): IMA ADPCM. Encoder and decoder stay in
  step, the quantisation error is bounded, overload ends, and blocks depend only on the samples. The
  scheme is that of section 4.5.1 of RFC 3551 with the differences the code documents.
- **Video playout clock** (`PlayoutClock`, `VideoPlayoutQueueObject`): arrival jitter leaves the
  presentation schedule alone exactly when it stays in a band that is stated, and does not show at all when
  frames are there by the time they are due.
- **Audio jitter buffer** (`JitterQueue`, `AudioJitterBufferObject`): an offset buffer that compacts,
  drops and learns, proved to be a plain byte queue with an exact ledger.
- **Token protocol** (`TokenProtocol`, `ValidTokens`): two locks, login on demand, relogin once, compare-and-clear, for
  any number of threads and every interleaving: no login is wasted, none that is needed is skipped.
- **Download queue** (`DownloadPlan`, `DownloadRuns`, `DownloadQueueObject`): one job per NVR, workers that
  report by message, cancel and retry.
- **Event inbox** (`EventInbox`, `EventManagerObject`): an index kept up to date by small edits, and its
  agreement with the events table.

## How it is built

Code that changes objects in place is a class here too: its methods have the loops and assignments of
the original and are proved equal to a function of the old state, and the theorems are about those
functions, so they hold of the methods. Threads are modelled as state machines whose steps are the
critical sections; a theorem about `Runs` holds for every interleaving. `Wrappers`, `Arithmetic` and
`Sequences` (Common.dfy) hold what several modules share. Functions without a row of
their own below (`Push`, `Parse`, `Drain`, `Serve`, …) are those specifications. Lemmas without a row tie them
down call by call in the program's own fields and numbers (`TileLaws.DetectionHoldsTheTile`,
`TileLaws.DetectionQueuesOnce`, `TileLaws.RearrangedTiles`, `MediaStream.FramesStartAtMagics`,
`ImaCodec.MovesByCode`, `DownloadRuns.RemoveTakesOnlyThatItem`, `EventInbox.StoredKeepsTheNewest`, …); the rows
are about what follows for whole calls, sessions and runs.

## Where code and comments disagree

The model follows the code.

- src/device/ActivityPolicy.h:73-75 says a held tile returns to the new baseline when released, and
  line 59 reserves `activity == false` for that. A released tile keeps its camera
  (src/device/ActivityPolicy.cpp:136-148), as lines 22-24 of the header say, and no change ever has
  `activity == false` (`TickProperties.ChangesAreEntitled`). So a tile shows its baseline after its release
  exactly if it did before (`TickProperties.UnnamedTileKeepsItsCamera`), and a tile that no activity takes does
  so all along exactly if it is never given another camera while held
  (`RunProperties.UntakenTileShowsTheArrangement`); `RunProperties.ReleasedTileNeedNotReturn` is an input on
  which it does not return.
- src/protocol/BaichuanClient.h:67-69 says `read` returns 0 on a clean end. The code returns the end-of-file
  code there, and for a positive size never 0 (`FrameRing.ReadReturnsBytesOrTheEnd`).
- src/media/TalkCodec.h:62-63 says decoding appends one block of samples. A block without data bytes is
  shorter than five bytes and decodes to nothing (`TalkBlocks.BlockDecodesToTheTrajectory`).
- src/media/AudioJitterBuffer.h:28 calls `maxBytes` a hard ceiling. Two things break it. Under one
  configuration it is one exactly when the third cut away by a drop has room for the rest of a frame
  (`JitterQueue.CeilingIsHardExactlyWithRoom`). And `configure` keeps what is queued
  (src/media/AudioJitterBuffer.h:85-92), so a smaller ceiling can come below it
  (`JitterQueue.ConfigureCanLeaveTooMuch`): with room, a session stays within the ceiling exactly if no
  configuration comes with one below what is queued (`JitterQueue.CeilingHoldsThroughoutExactly`), and otherwise
  the next write brings it back (`JitterQueue.EveryWriteLandsWithinTheCeiling`).
- src/media/VideoPlayoutQueue.h:34-35 calls both caps hard. Every push keeps them
  (`PlayoutClock.PushKeepsTheCaps`), but `setConfig` (line 47) trims nothing, so a new configuration can come with
  a cap below what is queued (`PlayoutClock.ConfigCanLeaveTooMany`); they hold throughout a run exactly if none
  does (`PlayoutClock.CapsHoldThroughoutExactly`). One frame alone may exceed the byte cap.
- src/media/VideoPlayoutQueue.h:11-15 says a stall shorter than the delay is invisible. It is for frames that are
  there when they are due (`PlayoutClock.JitterDoesNotShow`); one that comes later, within the tolerance, leaves
  the schedule alone but is missed by the poll at its time (`PlayoutClock.LaterThanTheDelayShows`).
- src/device/EventManager.cpp puts a new event in front of the list while the table orders by timestamp, so
  after a clock that went back the two disagree (`EventInbox.ClockThatWentBack`): they agree throughout a run
  exactly if no event is stamped before the newest one (`EventInbox.InboxIsTheNewestExactlyIfTimely`).

## Model

| member | source | states |
|---|---|---|
| TilePolicy.PickTile | src/device/ActivityPolicy.cpp:100-122 | A free tile idle longest is taken first; only AI activity may take a tile held for motion and shown its minimum time, and then the one whose hold ends first; the first such tile among equals; -1 exactly when there is none |
| TilePolicy.TileShowing | src/device/ActivityPolicy.cpp:61-67 | The first tile showing the camera; -1 means no tile does |
| TilePolicy.PrunedIsAnEnd | src/device/ActivityPolicy.cpp:124-130 | Only a front part of the start list is dropped, all of it outside the window, and what is kept begins inside it |
| TickProperties.OrderedIsTheQueueSorted | src/device/ActivityPolicy.cpp:151-156 | The serving order is a rearrangement of the queue in which AI activity stands before motion and, of two alike, the one with the lower sequence number first |
| TickProperties.NothingWaitingIsLost | src/device/ActivityPolicy.h:20 | After a tick every entry that waited still waits unchanged or its camera is on an active tile |
| TickProperties.NoOvertaking | src/device/ActivityPolicy.cpp:150-194 | An entry left waiting while one behind it (motion behind AI activity, or alike and with a higher sequence number) gets a tile is on another NVR, and its own NVR's budget is spent |
| TickProperties.NoTileIdlesWithoutReason | src/device/ActivityPolicy.cpp:150-194 | If after a tick an unpinned tile is idle, or is held for motion and was shown minShownMs while AI activity waits, then the entry still waiting belongs to an NVR whose start budget is spent |
| TickProperties.ChangesAreEntitled | src/device/ActivityPolicy.h:15-20 | Every change serves one waiting entry with its kind, trigger and replay start, on a tile that was free or, for AI activity, on one held for motion and shown its minimum time |
| TickProperties.TilesAreTakenInOrder | src/device/ActivityPolicy.cpp:100-122 | Over a whole tick each change takes a tile that goes before the tile of every later change, as they were before the tick: free before held, the longest idle of the free, the soonest hold of the held, the first among equals |
| TickProperties.LongestIdleTileIsTakenFirst | src/device/ActivityPolicy.h:22-24 | A tile left free goes after every tile taken: those were free too and idle longer, or as long and in front |
| RunProperties.SoonestHoldIsTakenFirst | src/device/ActivityPolicy.cpp:114-120 | A tile held for motion that is left takeable goes after every held tile taken: their holds end sooner, or as soon and they stand in front |
| TickProperties.UnnamedTileKeepsItsCamera | src/device/ActivityPolicy.cpp:136-148 | A tile no change names keeps camera and baseline through a tick, its own release included, so it shows the baseline afterwards exactly if it did before |
| TickProperties.PinnedAndHeldTilesStay | src/device/ActivityPolicy.h:16-20 | A pinned tile, or one held for AI activity, keeps its camera through a tick, gets no change, and stays held while its hold lasts |
| TickProperties.ReplayingTheChangesGivesThePicture | src/device/ActivityPolicy.h:25-26 | The changes name each tile at most once, and applying them to the old picture gives the new picture |
| TickProperties.TickMakesNoTwins | src/device/ActivityPolicy.cpp:157-171 | Two tiles showing one camera after a tick both showed it before: a tick never puts a camera on a second tile |
| TickProperties.RestedTickServesSomeone | src/device/ActivityPolicy.cpp:132-197 | Once all holds and start windows have run out and a tile is unpinned, a tick shortens any non-empty queue |
| RunProperties.RunKeepsPolicyOk | src/device/ActivityPolicy.cpp:69-98 | After any calls, waiting cameras and sequence numbers are pairwise distinct and only counted kinds wait |
| RunProperties.NoCameraIsOnTwoTiles | src/device/ActivityPolicy.cpp:75-76 | As long as the user leaves the arrangement alone, two tiles that show the same after any run (two empty panes, or a camera arranged twice) showed just that from the start |
| RunProperties.UntakenTileShowsTheArrangement | src/device/ActivityPolicy.cpp:15-18 | A tile no activity takes shows the user's camera in every state of a run, through detections, holds, releases and new arrangements, exactly if it is never given another camera while held |
| RunProperties.ReleasedTileNeedNotReturn | src/device/ActivityPolicy.cpp:136-148 | The input: arranged, detected on, rearranged while held and released, a tile still shows the old camera |
| RunProperties.PinnedTilesAreLeftAlone | src/device/ActivityPolicy.h:20 | A tile pinned throughout a run never gets a change and, unless the user rearranges the grid, shows what it did |
| RunProperties.ResetRestoresTheArrangement | src/device/ActivityPolicy.cpp:36-45 | After reset every tile shows the user's camera and is not held; queue and start times are empty |
| RunProperties.NoFlicker | src/device/ActivityPolicy.h:16-17 | Over any run with a clock that does not go back, two changes of one tile are at least min(holdMs, minShownMs) apart |
| RunProperties.DetectedCameraIsHeld | src/device/ActivityPolicy.cpp:75-88 | After an AI detection on a shown camera, or any detection that counts on a tile already held for AI activity, the tile keeps that camera, active and unchanged, through any calls before holdMs has passed |
| RunProperties.GrantedCameraIsHeld | src/device/ActivityPolicy.h:16-20 | A tile granted for AI activity keeps its camera, active and unchanged, through any calls before holdMs has passed |
| RunProperties.StartBudgetHoldsInEveryWindow | src/device/ActivityPolicy.h:21 | Between resets every half-open window of length startWindowMs contains at most maxStartsPerHost starts for each NVR, although the code keeps a pruned list |
| RunProperties.DetectionIsNotDropped | src/device/ActivityPolicy.cpp:69-98 | A detection that counts leaves its camera on an active tile or in the queue |
| RunProperties.NobodyIsForgotten | src/device/ActivityPolicy.h:20 | A waiting camera waits through any run until a tick of it that puts it on an active tile |
| RunProperties.QuietQueueDrains | src/device/ActivityPolicy.cpp:132-197 | n ticks spaced by the longer of hold and start window serve at least n waiting entries, given an unpinned tile and a cap of at least 1 |
| RunProperties.AnyQueueDrains | src/device/ActivityPolicy.cpp:132-197 | The queue built up by any run from a new policy is empty after as many spaced ticks as it has entries |
| TileLaws.TileKeepsItsCamera | src/device/ActivityPolicy.cpp:14-18 | Through any calls, new arrangements included, a tile keeps its camera, an activity camera long after its hold too, until a change names it or the user gives it another camera |
| TileLaws.EveryTileAfterATick | src/device/ActivityPolicy.cpp:132-197 | After a tick a tile named by a change is held for holdMs from now for that camera, kind and trigger; any other keeps its camera and is either marked for a waiting entry of that camera or only released, exactly if its hold is over and idle since now unless pinned |
| TileLaws.WaitingCameraIsMarkedWhereItShows | src/device/ActivityPolicy.cpp:157-171 | The first tile that shows the camera of a waiting entry, unless a change takes it, is marked for that entry: held until holdMs from now or longer, with the higher of the two kinds |
| TileLaws.HeldTileKeepsItsCamera | src/device/ActivityPolicy.h:16-19 | Whatever is called before its hold ends, a tile held for any kind keeps its camera, active and without a change, unless its first change is for AI activity and comes when the camera has been shown for minShownMs |
| TileLaws.DetectionKeepsTheCamera | src/device/ActivityPolicy.h:16-19 | So after any detection that counts on a shown camera, motion too, until holdMs after it |
| TileLaws.GrantKeepsTheCamera | src/device/ActivityPolicy.h:16-19 | So after any change a tick makes, until holdMs after that tick |
| WaitingLaws.WaitingKeepsItsPlace | src/device/ActivityPolicy.cpp:90-97 | After any calls every waiting entry either waited before, with the same camera, number and trigger and at least its kind, or has a number above all given out before |
| WaitingLaws.FirstQueuedGoesFirst | src/device/ActivityPolicy.cpp:150-156 | Of two cameras that wait for activity of one class after any run, the one whose wait began while the other did not wait yet stands first in the serving order, and a tick that gives the other a tile and not to it finds them on different NVRs and its own NVR's budget spent |
| WaitingLaws.HeldBackOnlyAtTheCap | src/device/ActivityPolicy.h:18-21 | Over any run from a new or reset policy: an entry that a tick leaves waiting beside a tile it may have belongs to an NVR that was asked for at least maxStartsPerHost streams in the window ending with that tick, counted in the log of all changes |
| ActivityPolicyObject.ActivityPolicy.constructor | src/device/ActivityPolicy.h:107-115 | A new policy has no tiles, an empty queue, no starts and counts every kind |
| ActivityPolicyObject.ActivityPolicy.SetBaseline | src/device/ActivityPolicy.cpp:7-20 | The in-place resize and loop give the tiles of the policy's SetBaseline: each has the new camera as baseline, and a tile given another camera shows it at once unless it is held |
| ActivityPolicyObject.ActivityPolicy.SetPinned | src/device/ActivityPolicy.cpp:22-26 | Sets the flag of that tile only; an index out of range changes nothing |
| ActivityPolicyObject.ActivityPolicy.SetExcluded | src/device/ActivityPolicy.cpp:28-34 | Adds the camera to, or removes it from, the excluded set and changes nothing else |
| ActivityPolicyObject.ActivityPolicy.SetTracked | src/device/ActivityPolicy.h:79-80 | From then on exactly these kinds count |
| ActivityPolicyObject.ActivityPolicy.Reset | src/device/ActivityPolicy.cpp:36-45 | The loop gives the state that ResetRestoresTheArrangement describes |
| ActivityPolicyObject.ActivityPolicy.QueuedRows | src/device/ActivityPolicy.cpp:47-59 | The waiting cameras in the serving order of OrderedIsTheQueueSorted, without changing the queue |
| ActivityPolicyObject.ActivityPolicy.FindShowing | src/device/ActivityPolicy.cpp:61-67 | The loop finds TileShowing |
| ActivityPolicyObject.ActivityPolicy.Detect | src/device/ActivityPolicy.cpp:69-98 | Updates tiles or queue in place exactly as the policy's Detect on the old state |
| ActivityPolicyObject.ActivityPolicy.ChooseTile | src/device/ActivityPolicy.cpp:102-122 | The two loops find PickTile |
| ActivityPolicyObject.ActivityPolicy.StartAllowed | src/device/ActivityPolicy.cpp:124-130 | Leaves exactly the starts inside the window and says whether they are fewer than the cap |
| ActivityPolicyObject.ActivityPolicy.ServeEntry | src/device/ActivityPolicy.cpp:157-194 | One turn of the loop does to tiles, queue, starts and changes what Serve says |
| ActivityPolicyObject.ActivityPolicy.Tick | src/device/ActivityPolicy.cpp:132-197 | The new state and the returned changes are those of the policy's Tick on the old state, which the tick laws of TickProperties and TileLaws are about |
| MediaStream.NextMagic | src/media/BcMediaParser.cpp:105-112 | The first position where a frame could start; -1 exactly when there is none |
| MediaStream.ParseLeavesALeftover | src/media/BcMediaParser.cpp:49-121 | What stays in the buffer is under four bytes or a recognised frame that is not complete, and parsing it again does nothing |
| MediaStream.ParseIsSegmentationIndependent | src/media/BcMediaParser.h:10-13 | For all buffers and all a, b: feeding a and then b gives the frames, leftover and declared size of feeding a + b |
| MediaStream.AnyCutParsesAlike | src/media/BcMediaParser.h:10-13 | However many pieces the stream comes in, the outcome is that of the whole at once |
| MediaStream.WellFormedStreamIsRecovered | src/media/BcMediaParser.cpp:44-123 | A stream of well-formed info, video and audio frames, with garbage in which no frame seems to start before any of them, yields exactly those frames and leaves nothing |
| MediaStream.LastInfoFrameGivesTheSize | src/media/BcMediaParser.cpp:54-61 | The declared size after such a stream is that of its last info frame, as signed 32-bit values |
| BcMediaParserObject.BcMediaParser.constructor | src/media/BcMediaParser.h:55-58 | A new parser has an empty buffer and no declared size |
| BcMediaParserObject.BcMediaParser.Append | src/media/BcMediaParser.cpp:44-123 | Buffer, size and reported frames are those of Parse on the old buffer and the new bytes; the count returned is that of the video frames; everything told since reset is the parse of everything fed |
| BcMediaParserObject.BcMediaParser.TakeInfo | src/media/BcMediaParser.cpp:54-61 | A complete info frame is removed and sets the size; an incomplete one changes nothing |
| BcMediaParserObject.BcMediaParser.TakeVideo | src/media/BcMediaParser.cpp:63-88 | A complete video frame is removed with its padding and reported; an incomplete one changes nothing |
| BcMediaParserObject.BcMediaParser.TakeAudio | src/media/BcMediaParser.cpp:90-103 | A complete audio frame is removed, and reported if it is non-empty AAC and someone listens; an incomplete one changes nothing |
| BcMediaParserObject.BcMediaParser.FindMagic | src/media/BcMediaParser.cpp:105-112 | The search loop finds NextMagic from position 1 |
| BcMediaParserObject.BcMediaParser.Reset | src/media/BcMediaParser.h:51-53 | The buffer is emptied and the declared size kept |
| BcCrypto.XorCryptIsItsOwnInverse | src/protocol/BcCrypto.cpp:22-30 | Applying it twice with one offset gives the input back |
| Bytes.XorIsBitByBit | src/protocol/BcCrypto.cpp:27 | In each of the eight bits the result is one exactly if the bits of the two bytes differ |
| BcCrypto.XorCryptByByte | src/protocol/BcCrypto.cpp:22-30 | Each byte is the exclusive or, bit by bit, of the input byte, the byte of the eight-byte key at its position counted from the offset, and the offset |
| BcCrypto.XorCryptLoop | src/protocol/BcCrypto.cpp:22-30 | The loop computes the function XorCrypt that XorCryptByByte states byte by byte and the inverse law is about |
| BcCrypto.CfbUndoes | src/protocol/BcCrypto.cpp:53-73 | For every block function, start value and length, each direction undoes the other |
| BcCrypto.CfbOfPrefix | src/protocol/BcCrypto.cpp:62-73 | In both directions the transform of a prefix is the prefix of the transform |
| BcCrypto.CfbMatchesTheStandard | src/protocol/BcCrypto.cpp:53-73 | Each byte is the exclusive or, bit by bit, of the input byte and the byte at its place in the enciphered previous ciphertext segment (the initial value for the first): section 6.3 of NIST SP 800-38A with 128-bit segments, the last of which may be short |
| BcCrypto.AesCfbByByte | src/protocol/BcCrypto.cpp:46-76 | With a key of at least 16 bytes that holds of the cipher under that key, from the initial value "0123456789abcdef"; with a shorter key the input comes back |
| BcCrypto.AesCfbUndoes | src/protocol/BcCrypto.cpp:46-76 | With any key, a short one (which leaves the data alone) included, each direction undoes the other |
| BcCrypto.AesCfbOfPrefix | src/protocol/BcCrypto.cpp:46-76 | The transform of a prefix is the prefix of the transform, with any key |
| BcCrypto.AesCfbLoop | src/protocol/BcCrypto.cpp:46-76 | The loop with its running feedback register computes AesCfb, which AesCfbByByte states byte by byte |
| BcMessages.SerializedParses | src/protocol/BaichuanClient.cpp:54-97 | Parsing a serialised message followed by any bytes gives the message back and leaves exactly those bytes |
| BcMessages.MessageLayout | src/protocol/BaichuanClient.cpp:54-72 | Every field of a message at its place on the wire, number by number in little-endian bytes: magic, id, body length, channel, stream type, message number, code, class, and for the two classes that have one the payload offset; then the body |
| BcMessages.CutMessageIsIncomplete | src/protocol/BaichuanClient.cpp:75-97 | No proper prefix of a serialised message is taken for a message |
| BcMessages.DrainIsSegmentationIndependent | src/protocol/BaichuanClient.cpp:410-443 | For all a, b: receiving a and then b delivers the media, and leaves the bytes, of receiving a + b |
| BcMessages.AnyCutDrainsAlike | src/protocol/BaichuanClient.cpp:410-443 | However TCP cuts the bytes, media and leftover are those of the whole |
| BcMessages.SealedMediaIsRecovered | src/protocol/BaichuanClient.cpp:427-441 | A media piece whose first encryptLen bytes the camera encrypted, behind its encrypted extension, is recovered exactly |
| MediaPumpObject.MediaPump.constructor | src/protocol/BaichuanClient.cpp:319-382 | The loop starts with the tail of the login exchange and a fresh parser |
| MediaPumpObject.MediaPump.TakeMessage | src/protocol/BaichuanClient.cpp:74-97 | Consumes exactly one message from the buffer, or nothing |
| MediaPumpObject.MediaPump.OpenPayload | src/protocol/BaichuanClient.cpp:427-441 | The media bytes of a message as MediaOf defines them, which SealedMediaIsRecovered is about |
| MediaPumpObject.MediaPump.Turn | src/protocol/BaichuanClient.cpp:385-443 | One turn of the loop: a seek first if one is asked for, then one message handled, or the bytes of the socket taken in if there is no whole message |
| PumpTurns.MessagesSurviveSeeks | src/protocol/BaichuanClient.cpp:386-388 | Whatever seeks fall between any two turns, the media taken and still buffered are those of all bytes that came in: a seek loses no message and tears none |
| PumpTurns.SeekStartsAfresh | src/protocol/BaichuanClient.cpp:397-405 | What is reported after a seek is the parse of the media taken since, with nothing left of the frame that was coming in |
| PumpTurns.FramesSurviveASeek | src/protocol/BaichuanClient.cpp:386-443 | Hence well-formed frames taken since a seek, behind the rest of an old one in which no frame seems to start, are exactly the frames reported |
| PumpTurns.MediaSurvivesTheNetwork | src/protocol/BaichuanClient.cpp:383-443 | For any media messages, any messages of other numbers between them, any TCP cut behind the tail of the login, and any seeks: once no whole message is buffered, the media the turns took are exactly those sent and nothing is left |
| PumpTurns.FramesSurviveEndToEnd | src/protocol/BaichuanClient.cpp:383-443 | Hence, without a seek, the turns of the loop report exactly the frames the camera sent, garbage between them included, in order, with the declared size |
| MediaPumpObject.MediaPump.Seek | src/protocol/BaichuanClient.cpp:386-399 | A seek empties the parser's buffer and leaves the message buffer alone |
| PictureGate.PictureOpensOnTheFirstGoodFrame | src/protocol/BaichuanClient.cpp:324-355 | Until the first key frame (after a seek: one stamped within 120 s of the target, or unstamped) only sound comes out, and none if it is held back; from that frame on everything does |
| SeekToPicture.PicturesStartAtTheKeyFrame | src/protocol/BaichuanClient.cpp:331-355 | Whatever frames and garbage the camera sends, what passes the gate into the ring are their elementary streams from the first key frame at the requested time (or without a time) on |
| SeekToPicture.SeekShowsTheNewPosition | src/protocol/BaichuanClient.cpp:386-409 | Loop, gate and ring together: after a seek, in every interleaving of reader, producer and stop, what is read is a front part of those streams of the frames sent since, with nothing of the old position; once all are pushed and stop was not called, what is not read yet is queued |
| FrameRing.PushesArriveInOrder | src/protocol/BaichuanClient.cpp:169-179 | In every interleaving without a clear, what the ring was given are the bytes of the pushes called, in order and without a gap; all of them unless stop was called, but for a push that still waits |
| FrameRing.RingIsFaithfulBoundedAndLive | src/protocol/BaichuanClient.cpp:139-192 | In every reachable state what was read since the last clear is a prefix of what was pushed and the rest is queued, the ring holds at most its cap plus one push, reader and producer never both sleep, and after stop neither does |
| FrameRing.SleepersAreWoken | src/protocol/BaichuanClient.cpp:153-179 | A reader sleeps only on an empty unfinished ring and a producer only on an overfull one, and a push or read that changes the ring wakes the other |
| FrameRing.NothingIsQueuedAfterAbort | src/protocol/BaichuanClient.cpp:169-179 | From the moment the abort flag is stored, whatever follows, what is queued is an end part of what was; without a seek's clear nothing counts as pushed any more |
| FrameRing.ReaderDrainsThenSeesTheEnd | src/protocol/BaichuanClient.cpp:153-167 | After stop or the end of the stream the reader never sleeps again and, whatever the other threads do in between, its reads return what is queued, in order (all of it unless a seek clears it), and once they have asked for that much they see the end |
| FrameRing.ReadReturnsBytesOrTheEnd | src/protocol/BaichuanClient.cpp:153-167 | A read sleeps exactly when there is nothing and more may come, reports the end exactly when there is nothing and it is over, and otherwise returns a non-empty front part of the ring |
| FrameRing.FrameRingObject.Read | src/protocol/BaichuanClient.cpp:153-167 | Takes the bytes returned off the front, in order, and wakes the producer if there were any |
| FrameRing.FrameRingObject.Push | src/protocol/BaichuanClient.cpp:169-179 | Does to the ring what the producer's step does, and sleeps and wakes exactly when it does |
| FrameRing.FrameRingObject.FinishUnderLock | src/protocol/BaichuanClient.cpp:142-144 | Marks the stream finished and wakes both sides |
| FrameRing.FrameRingObject.Clear | src/protocol/BaichuanClient.cpp:406-408 | Empties the ring and wakes both sides |
| ImaCodec.EncodeSample | src/media/TalkCodec.cpp:71-99 | The successive comparisons compute the code, and update predictor and index exactly as a decoder fed that code does |
| ImaCodec.StepsGrowByATenth | src/media/TalkCodec.cpp:18-25 | The steps run from 7 to 32767, each a tenth more than the one before to within a unit, the last cut to 16 bits |
| ImaCodec.StepError | src/media/TalkCodec.cpp:62-99 | If the error is under two steps, eight times the new error is at most the step plus 10; otherwise the error shrinks by at least 13 without changing sign and the index rises by 8, capped at 88 |
| ImaCodec.InRangeStaysInRange | src/media/TalkCodec.cpp:62-99 | On a constant input, a state out of overload never goes back into it |
| ImaCodec.OverloadEndsWithinElevenSamples | src/media/TalkCodec.cpp:18-26 | From every state a constant input is out of overload after 11 samples and ever after |
| ImaCodec.ConstantInputIsReached | src/media/TalkCodec.cpp:18-26 | From every state, after 101 samples of a constant input the error is at most 2 and stays so |
| TalkBlocks.DecoderFollowsTheEncoder | src/media/TalkCodec.cpp:62-65 | For every state and input, decoding the codes gives the encoder's own predictor trajectory |
| TalkBlocks.BlockDecodesToTheTrajectory | src/media/TalkCodec.cpp:153-191 | Decoding an encoded block gives its first sample and then the encoder's trajectory; a block of one sample decodes to nothing |
| TalkBlocks.BlockLayout | src/media/TalkCodec.h:43-48 | The predictor little-endian, the index and a zero, then two codes to a byte, low nibble first |
| TalkBlocks.TrajectoryIsClose | src/media/TalkCodec.cpp:71-99 | Each decoded sample is within an eighth of the step plus 10 of the original, unless the encoder was in overload there |
| TalkBlocks.DrainIsSegmentationIndependent | src/media/TalkCodec.cpp:195-205 | For all a, b: pushing a and then b gives the blocks, codec state and pending tail of pushing a + b |
| TalkBlocks.BlocksDependOnlyOnTheSamples | src/media/TalkCodec.cpp:195-205 | However the PCM is cut into pushes, blocks and tail are those of the whole |
| TalkBlocks.OnlyPartOfABlockWaits | src/media/TalkCodec.cpp:195-205 | All samples go into blocks of dataBytes * 2 + 1 samples and dataBytes + 4 bytes as soon as a block is full; what waits is the end of them and less than a block |
| TalkBlocks.EveryBlockRestartsExactly | src/media/TalkCodec.h:46-48 | Block k encodes the samples from k times the block length on, and a receiver that starts there gets the first of them and then the encoder's own trajectory over the others |
| TalkEncoderObject.ImaAdpcm.constructor | src/media/TalkCodec.h:66-69 | A new codec has predictor and index 0 |
| TalkEncoderObject.ImaAdpcm.EncodeBlock | src/media/TalkCodec.cpp:153-171 | Returns EncodedBlock for the old index, and leaves the state the encoder's trajectory ends in |
| TalkEncoderObject.DecodeBlock | src/media/TalkCodec.cpp:173-191 | The loop over bytes and nibbles computes DecodedBlock for every byte string, malformed ones included |
| TalkEncoderObject.TalkEncoder.constructor | src/media/TalkCodec.h:76-89 | A new encoder has nothing pending |
| TalkEncoderObject.TalkEncoder.Push | src/media/TalkCodec.cpp:195-205 | Returned blocks and new state are those of Drain on the pending and new samples; all blocks sent are the drain of all samples given |
| PlayoutClock.DueCount | src/media/VideoPlayoutQueue.h:80-94 | Exactly the frames up to the first that is not due |
| PlayoutClock.RunKeepsOk | src/media/VideoPlayoutQueue.h:51-105 | After any calls the queued timestamps do not decrease, none is after the last pushed one, and the byte count is the exact sum |
| PlayoutClock.PushKeepsTheCaps | src/media/VideoPlayoutQueue.h:70-75 | After a push, whatever was queued before, the queue holds at most maxFrames frames and, with a byte cap, at most that many bytes or one frame |
| PlayoutClock.PushedFrameIsDue | src/media/VideoPlayoutQueue.h:51-76 | A pushed frame is due one delay after it arrives if it is the first, after a jump, a step back or a stall beyond the tolerance, or if its slot is further ahead than maxDepth; otherwise at its slot. Queued frames are flushed exactly in the three cases that restart the schedule, which are counted, and the caps drop from the front no more than they must |
| PlayoutClock.ClearForgetsTheSchedule | src/media/VideoPlayoutQueue.h:99-105 | After clear nothing is queued or shown, statistics stay, and the next frame is due one delay after it arrives without counting as a restart |
| PlayoutClock.CapsHoldThroughoutExactly | src/media/VideoPlayoutQueue.h:34-35 | The caps hold in every state of a run if and only if they hold at its start and no configuration comes with a cap below what is queued |
| PlayoutClock.ConfigCanLeaveTooMany | src/media/VideoPlayoutQueue.h:47 | The input: two frames queued, then a cap of one frame |
| PlayoutClock.PollShowsTheNewestDueFrame | src/media/VideoPlayoutQueue.h:78-94 | Nothing is shown exactly when nothing is due; otherwise the newest due frame is shown, the older ones count as late, and no due frame stays queued |
| PlayoutClock.QueuedFramesAreNeverPutOff | src/media/VideoPlayoutQueue.h:61-65 | No call makes a frame that stays queued due later (delay at most maxDepth) |
| PlayoutClock.EveryFrameIsDueSoon | src/media/VideoPlayoutQueue.h:16-21 | After any run every queued frame is due no later than its arrival plus max(delay, maxDepth) |
| PlayoutClock.EveryFrameIsAccountedFor | src/media/VideoPlayoutQueue.h:38-43 | Pushed = presented + dropped late + dropped by a cap + flushed by a fresh schedule or clear + still queued |
| PlayoutClock.JitterIsAbsorbedExactlyInBand | src/media/VideoPlayoutQueue.h:11-21 | For a steady source the schedule is kept through the whole run if and only if every frame arrives between delay - maxDepth and delay + lateTolerance off its nominal time, whatever the polls between |
| PlayoutClock.CadenceSurvivesJitter | src/media/VideoPlayoutQueue.h:11-21 | In that band there is no fresh schedule, and each frame is due exactly at first arrival + delay + its timestamp difference |
| PlayoutClock.PictureFollowsTheTimestamps | src/media/VideoPlayoutQueue.h:11-21 | For a steady source whose frames arrive in band and by the time they are due, and while no cap is reached, every poll shows what it would with all frames at hand from the start: the newest one due that was not shown or skipped before |
| PlayoutClock.JitterDoesNotShow | src/media/VideoPlayoutQueue.h:11-15 | Two such runs with the same frames and poll times show the same pictures, however differently the network delivered them |
| PlayoutClock.LaterThanTheDelayShows | src/media/VideoPlayoutQueue.h:57-61 | The input for a frame later than the delay but within the tolerance: the schedule is kept, and the poll at its time still shows the frame before |
| VideoPlayoutQueueObject.VideoPlayoutQueue.constructor | src/media/VideoPlayoutQueue.h:136-143 | A new queue is empty and not anchored |
| VideoPlayoutQueueObject.VideoPlayoutQueue.SetConfig | src/media/VideoPlayoutQueue.h:47 | Replaces the configuration and nothing else |
| VideoPlayoutQueueObject.VideoPlayoutQueue.Anchor | src/media/VideoPlayoutQueue.h:120-125 | Makes this frame due one delay from now |
| VideoPlayoutQueueObject.VideoPlayoutQueue.StartOver | src/media/VideoPlayoutQueue.h:127-134 | Flushes the queue, anchors anew and counts it |
| VideoPlayoutQueueObject.VideoPlayoutQueue.Push | src/media/VideoPlayoutQueue.h:51-76 | The new state is Push on the old state |
| VideoPlayoutQueueObject.VideoPlayoutQueue.Poll | src/media/VideoPlayoutQueue.h:80-94 | The loop gives the state and the frame of Poll on the old state |
| VideoPlayoutQueueObject.VideoPlayoutQueue.NextDueUs | src/media/VideoPlayoutQueue.h:96-97 | When the front frame is due, or -1 for an empty queue |
| VideoPlayoutQueueObject.VideoPlayoutQueue.Clear | src/media/VideoPlayoutQueue.h:99-105 | Empties the queue and forgets the schedule; the statistics stay |
| JitterQueue.DropFor | src/media/AudioJitterBuffer.h:42-50 | What is dropped is a whole number of sample frames and never more than is queued |
| JitterQueue.EveryByteIsAccountedFor | src/media/AudioJitterBuffer.h:36-104 | Over any session, the bytes written since reset are those played, those dropped and those queued, and the queue is the end of what was written |
| JitterQueue.ReadPlaysTheNextBytes | src/media/AudioJitterBuffer.h:57-83 | A read brings sound exactly if something is queued and playback is under way or the head start is queued: then the bytes that follow what was played or dropped, as many as are there, and silence for the rest; playback goes on exactly if nothing was missing, and dry runs and silence are counted |
| JitterQueue.SoundBeginsWithTheHeadStart | src/media/AudioJitterBuffer.h:15-18 | In any session of writes and reads of a new buffer: until the head start is written every read is silent and nothing is lost, and the first read after the write that completes it plays from the very first byte |
| JitterQueue.WriteDropsToTwoThirds | src/media/AudioJitterBuffer.h:36-50 | A write that fits drops nothing; any other drops whole frames off the front, so many that two thirds of maxBytes and less than a frame more are left |
| JitterQueue.ConfigurationDoesNotInterrupt | src/media/AudioJitterBuffer.h:85-92 | A read after a configuration during playback brings the same sound as without it; where nothing plays it brings sound exactly if the new head start is queued |
| JitterQueue.ResetIsAsNew | src/media/AudioJitterBuffer.h:94-104 | A reset buffer is a new one with its configuration and learned head start |
| JitterQueue.CeilingHolds | src/media/AudioJitterBuffer.h:36-55 | With room for a frame in the third that is cut, a write of anything at all leaves at most maxBytes queued, whatever was queued before |
| JitterQueue.CeilingIsHardExactlyWithRoom | src/media/AudioJitterBuffer.h:28 | All sessions of one configuration stay within its ceiling in every state if and only if there is that room |
| JitterQueue.CeilingHoldsThroughoutExactly | src/media/AudioJitterBuffer.h:85-92 | Where every configuration has room, a session stays within the ceiling in every state if and only if it starts so and no configuration comes with a ceiling below what is queued |
| JitterQueue.EveryWriteLandsWithinTheCeiling | src/media/AudioJitterBuffer.h:19-20 | In any session whose configurations have room, every non-empty write leaves the queue within the ceiling |
| JitterQueue.ConfigureCanLeaveTooMuch | src/media/AudioJitterBuffer.h:85-92 | The input: 2000 bytes queued under a ceiling of 4000, then one of 1500, both with room |
| JitterQueue.CeilingFailsWithoutRoom | src/media/AudioJitterBuffer.h:42-50 | Without that room there is a first write that leaves more than maxBytes queued |
| JitterQueue.ThreeFramesSuffice | src/media/AudioJitterBuffer.h:28-29 | A ceiling of three frames has that room |
| JitterQueue.OverflowKeepsTheHeadStart | src/media/AudioJitterBuffer.h:43-50 | A drop never cuts the queue below a head start of at most two thirds of the ceiling |
| JitterQueue.AlignmentIsKept | src/media/AudioJitterBuffer.h:29 | If all writes and reads are whole frames, queue and play position stay on frame boundaries through any session |
| JitterQueue.HeadStartOnlyGrows | src/media/AudioJitterBuffer.h:30-31 | Between configure calls the learned head start never shrinks and never exceeds the larger of its start value and maxPrebufferBytes |
| JitterQueue.HeadStartFollowsTheUnderruns | src/media/AudioJitterBuffer.h:70-77 | From a new buffer on, until configured or reset, the head start is the configured one plus half of it for each underrun, up to the maximum |
| AudioJitterBufferObject.AudioJitterBuffer.constructor | src/media/AudioJitterBuffer.h:34 | A new buffer is an empty queue with the configured head start |
| AudioJitterBufferObject.AudioJitterBuffer.Write | src/media/AudioJitterBuffer.h:36-55 | Dropping by offset and compacting give the plain queue's Write; compaction is invisible |
| AudioJitterBufferObject.AudioJitterBuffer.Read | src/media/AudioJitterBuffer.h:57-83 | State and output are those of the plain queue's Read, which ReadPlaysTheNextBytes states |
| AudioJitterBufferObject.AudioJitterBuffer.Configure | src/media/AudioJitterBuffer.h:85-92 | Keeps the queued audio and the playing state; the head start begins anew |
| AudioJitterBufferObject.AudioJitterBuffer.Reset | src/media/AudioJitterBuffer.h:94-104 | Empties queue and counters; the learned head start is kept |
| TokenProtocol.TokensBalance | src/protocol/ReolinkHttpClient.cpp:304-371 | In every reachable state successful logins = tokens dropped (rejected, expired, logged out) + 1 if one is held |
| TokenProtocol.OneReloginPerRejectedToken | src/protocol/ReolinkHttpClient.cpp:420-429 | However many threads are refused with one token and in whatever order they clear and log in, their refusals cause at most one drop, of that very token, and at most one successful login |
| TokenProtocol.TokensFollowEachOther | src/protocol/ReolinkHttpClient.cpp:337-344 | Each token is issued once and dropped at most once, and the next is issued only after that |
| TokenProtocol.OnlyARefusedCallerClears | src/protocol/ReolinkHttpClient.cpp:420-429 | In every reachable state each token dropped as rejected was dropped by a thread whose own request with that very token had been refused before, and each dropped as expired had run out before |
| TokenProtocol.IssuedTokenIsKept | src/protocol/ReolinkHttpClient.cpp:421-428 | A token once issued is still held in every later state, however many threads are refused with others, unless a request with it was refused, it ran out, or there was a logout |
| TokenProtocol.RetryUsesANewerToken | src/protocol/ReolinkHttpClient.cpp:420-429 | In every reachable state a second request under way belongs to a refused call, and the token it carries, if any, was issued after the one refused |
| ValidTokens.LoginsAreExactlyOnDemand | src/protocol/ReolinkHttpClient.cpp:349-355 | In every interleaving a login is under way only while no token is held or the held one has run out, and ensureLogin returns only while there is a token that was issued and neither dropped nor run out: no login is wasted and none that is needed is skipped |
| ValidTokens.RequestsCarryAValidToken | src/protocol/ReolinkHttpClient.cpp:399-412 | In every interleaving each request comes after a check of its own thread since that thread's last request, and carries a token issued and neither dropped nor run out unless one was dropped or ran out after that check |
| ValidTokens.RefusedCallsTryOnceMore | src/protocol/ReolinkHttpClient.cpp:399-432 | In every reachable state a call that has returned posted twice if and only if its first request was refused and no login of it failed; and a second request under way comes after a second check of its own and carries a valid token issued after the refused one, unless a token was dropped or ran out after that check |
| TokenProtocol.CallsAreSerialAndPostAtMostTwice | src/protocol/ReolinkHttpClient.h:19-25 | In every reachable state each call has posted at most twice, two serial commands or snapshots are never in their exchange at once, no other call waits for the request lock, and the token lock has one holder |
| TokenProtocol.NoDeadlock | src/protocol/ReolinkHttpClient.h:103-104 | From any state whose locks are consistent, while a thread is inside a call some step that advances a call is possible |
| TokenProtocol.CallsFinish | src/protocol/ReolinkHttpClient.cpp:384-434 | Every run of advancing steps is bounded by the threads' remaining work, so calls finish |
| DownloadPlan.NextRunnable | src/device/DownloadPlan.h:24-42 | The first queued item whose NVR is idle; every queued item before it, or every one if there is none, has a busy NVR |
| DownloadPlan.PumpOnlyClaims | src/device/DownloadQueue.cpp:248-265 | Pump turns some queued items to preparing and changes nothing else, leaves nothing that may start, and keeps one active item per NVR |
| DownloadPlan.PumpStartsTheOldest | src/device/DownloadPlan.h:24-26 | An item is started only if its NVR was idle and no item of that NVR queued before it in the list |
| DownloadPlan.PumpReportsWhatItStarts | src/device/DownloadQueue.cpp:258-263 | One worker is started for each item claimed and for no other |
| DownloadRuns.EveryRunKeepsOneWorkerPerActiveItem | src/device/DownloadQueue.cpp:222-265 | After any order of user calls, worker messages and deliveries: no two active items share an NVR, every active item has exactly one worker (alive, or its last message under way) and every other none, nothing runs for items off the list, and nothing may start: every queued item's NVR is busy |
| DownloadRuns.EnqueueStartsAtOnceIfIdle | src/device/DownloadQueue.cpp:126-147 | A usable camera and a range of at least 2 s append one item, cut to 6 hours, under a new id, started at once exactly if its NVR is idle, and change no other item; anything else changes nothing and returns -1 |
| DownloadRuns.RetryStartsAtOnceIfIdle | src/device/DownloadQueue.cpp:163-175 | A failed or cancelled item loses its cancel mark and is started at once exactly if its NVR is idle, queued otherwise; no other item changes, and any other call changes nothing |
| DownloadRuns.CancelTouchesOnlyThatItem | src/device/DownloadQueue.cpp:149-161 | A queued item is cancelled on the spot, an active one only marked for its worker, a finished or unknown one left alone; nothing else changes and nothing is started |
| DownloadRuns.DeliveryTakesEffect | src/device/DownloadQueue.cpp:222-246 | A message delivered gives its item exactly the state reported; if that ends it, the first item waiting for its NVR is started at once; nothing else changes |
| DownloadRuns.ClearKeepsTheRest | src/device/DownloadQueue.cpp:188-199 | What is queued, preparing or downloading stays, in its order, and nothing else |
| DownloadRuns.EveryMessageIsForAnActiveItem | src/device/DownloadQueue.cpp:267-287 | After any run every message waiting is about an item that is in the list and still active, and a final one is the last for its item |
| DownloadRuns.NextKeepsInv | src/device/DownloadQueue.cpp:126-265 | Every single call, message and delivery keeps that invariant |
| DownloadQueueObject.DownloadQueue.constructor | src/device/DownloadQueue.cpp:126-147 | A new queue is empty and numbers its items from 1 |
| DownloadQueueObject.DownloadQueue.FindIndex | src/device/DownloadQueue.cpp:118-124 | The first item with that id, or -1 |
| DownloadQueueObject.DownloadQueue.FindRunnable | src/device/DownloadPlan.h:27-42 | The two nested loops find NextRunnable |
| DownloadQueueObject.DownloadQueue.Update | src/device/DownloadQueue.cpp:222-246 | Items and workers started are those of the plan's Update; it and Pump call each other and terminate |
| DownloadQueueObject.DownloadQueue.Pump | src/device/DownloadQueue.cpp:248-265 | The loop claims and starts exactly what the plan's Pump does, in its order |
| DownloadQueueObject.DownloadQueue.Enqueue | src/device/DownloadQueue.cpp:126-147 | New items, id returned and workers started are those of the plan's Enqueue |
| DownloadQueueObject.DownloadQueue.Cancel | src/device/DownloadQueue.cpp:149-161 | A queued item is cancelled at once, an active one only marked; as the plan's Cancel |
| DownloadQueueObject.DownloadQueue.Retry | src/device/DownloadQueue.cpp:163-175 | A failed or cancelled item is queued again unmarked and started if its NVR is idle; as the plan's Retry |
| DownloadQueueObject.DownloadQueue.Remove | src/device/DownloadQueue.cpp:177-186 | Only a finished item is removed; as the plan's Remove |
| DownloadQueueObject.DownloadQueue.ClearFinished | src/device/DownloadQueue.cpp:188-199 | The backward loop leaves exactly the unfinished items, in order |
| EventInbox.IndicesAreTheMatches | src/device/EventManager.cpp:60-77 | The view recomputed from scratch is ascending and holds an index if and only if its record has the type and the camera asked for, an empty filter asking for none |
| EventInbox.UnreadCountsSinceLastRead | src/device/EventManager.cpp:170-300 | After any run the unread count is the number of events recorded since the inbox was last marked read or cleared |
| EventInbox.IndicesOfPrepended | src/device/EventManager.cpp:159-168 | Shifting every index and putting 0 in front if the new record matches is recomputing the view |
| EventInbox.IndicesOfCut | src/device/EventManager.cpp:190-199 | Dropping the indices past a cut is recomputing the view of the cut list |
| EventInbox.InsertedStaysSorted | src/core/Database.cpp:161-167 | The table read back newest first stays ordered by descending timestamp and, among equal ones, descending id, and gains exactly the new row |
| EventInbox.InSyncExactlyUnlessTheClockWentBack | src/device/EventManager.cpp:144-203 | After a successful write the inbox is the table's newest 100 rows if and only if the new timestamp is not below the newest one |
| EventInbox.InboxIsTheNewestExactlyIfTimely | src/device/EventManager.cpp:144-300 | Over any run of events, thumbnails, filter changes and clears whose writes succeed, the inbox is the table's newest 100 rows in every state if and only if no event is stamped before the newest one |
| EventInbox.ClockThatWentBack | src/device/EventManager.cpp:144-203 | The input: events stamped 10 and then 5 leave the inbox and the table in opposite orders |
| EventManagerObject.EventManager.constructor | src/device/EventManager.cpp:17-22 | Starts with the stored events, no filter and nothing unread |
| EventManagerObject.EventManager.Reload | src/device/EventManager.cpp:67-77 | The list is what the table returned and the view its matches |
| EventManagerObject.EventManager.SetFilter | src/device/EventManager.cpp:126-142 | A new type or camera filter reloads and the view is the matches under it; the same filter changes nothing |
| EventManagerObject.EventManager.Record | src/device/EventManager.cpp:144-203 | The event goes in front, the list keeps its newest 100, one more is unread, and the edited view equals the recomputed one |
| EventManagerObject.EventManager.OnThumbnailReady | src/device/EventManager.cpp:250-264 | Only the first record with that id gets the path; an unknown id changes nothing; the view stays right |
| EventManagerObject.EventManager.MarkAllRead | src/device/EventManager.cpp:282-288 | Nothing is unread and nothing else changes |
| EventManagerObject.EventManager.Clear | src/device/EventManager.cpp:290-300 | List, view and unread count are empty |

## Left out

- FrameRing and TokenProtocol: the protocols are state machines over critical sections, not classes; a step of the model is one hold of a mutex, wake-ups may come spuriously, and fairness of the scheduler is not modelled. `FrameRingObject` shows the ring's sections as methods; `TokenProtocol` has no such object because its sections are separated by network exchanges.
- FrameRing.RingIsFaithfulBoundedAndLive: the size of one push is a parameter, since a frame is as large as the camera makes it.
- TokenProtocol and ValidTokens: the device never issues one token twice, and a token is only known to be refused or expired through the steps given; lease arithmetic, the failure-kind values and the classification of replies as "login required" are not modelled.
- MediaStream and BcMessages: totals of a frame or message are exact integers, so lengths that overflow a 32-bit int are not modelled; a frame's time is read only once the frame is complete, which is when the code uses it.
- PumpTurns.MediaSurvivesTheNetwork: the connection carries whole, well-formed messages; the code has no resynchronisation on a bad message magic, and the model takes none either.
- BcCrypto: the AES block cipher is an arbitrary function from 16 bytes to 16 bytes for each key, and the failure to allocate it is not modelled; the MD5 key derivations are left out.
- BcMessages.Session: finding `<encryptLen>` in the decrypted extension is an arbitrary function.
- PictureGate: pacing of recorded playback against the clock, and the stream's format name, are left out; that a seek is asked for is an input of a turn.
- TilePolicy: the host lookup and the parameters are fixed for a run; times are exact integers; the library's stable sort is an insertion sort. Theorems over a clock assume it does not go back, and those about one tile that the number of tiles does not change (a smaller grid forgets tiles).
- RunProperties.NoCameraIsOnTwoTiles: assumes no new arrangement within the run, because the user's own arrangement may show a camera twice.
- ImaCodec and TalkBlocks: the index is always within the step table and samples within 16 bits, as the code's clamps and types make them; microphone resampling and the pacing of talk packets are left out.
- PlayoutClock: maxFrames and the sizes of frames are not negative; the clock of `EveryFrameIsDueSoon` and of the jitter theorems is whatever the caller passes.
- PlayoutClock.CadenceSurvivesJitter: a steady source only (timestamp steps between 0 and jumpUs, one configuration, no clear), since anything else starts a fresh schedule by design.
- JitterQueue.CeilingHoldsThroughoutExactly: assumes room in every configuration; without room a session may or may not stay within the ceiling.
- JitterQueue: sizes are not negative and a sample frame has at least one byte; the mutex around each call is left out, each call being one atomic step.
- DownloadRuns: how long a worker takes and why it fails are arbitrary; progress, detail texts, file paths and names, free-space checks and list signals are left out. A worker may end as done, failed or cancelled whether or not cancellation was asked for, since the flag is read some time before the message is posted.
- EventInbox.InboxIsTheNewestExactlyIfTimely: every write succeeds and gets an id above those in the table.
- EventManagerObject: connectivity events take the same path as detections and share `Record`; the type and the camera filter are one value, and setting either is a `SetFilter`. Notifications, thumbnail files, view signals and the timeline query are left out.
- Device management, the HTTP reply parsers, discovery, settings, SQL, sockets, FFmpeg, audio devices and the user interface: foreign calls, I/O or field-by-field parsing.
- The audio a stream carries as ADPCM ("01wb") is framed and skipped, as in the code.
