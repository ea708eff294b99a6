# Verified models of openpilot engines

This project models nine small engines of sunnypilot/openpilot in Dafny and proves what they promise,
for every input and every run. Each engine has specification functions, imperative code in the form
of the original (loops, arrays, objects with fields) proved against them, and lemmas over whole runs.

| file | engine |
|---|---|
| `Framing.dfy`, `CanCodec.dfy`, `CanWire.dfy`, `Panda.dfy` | CAN packets between pandad and the panda: encoding, batching, reassembly in one buffer |
| `Tlv.dfy`, `BoundProfile.dfy`, `Es10x.dfy` | BER-TLV, splitting a bound profile package, the segmenting eSIM transport |
| `DriverMonitoring.dfy`, `MonitoringRuns.dfy`, `MonitoringTiming.dfy`, `MonitoringPolicies.dfy`, `MonitoringLockout.dfy` | driver-monitoring policy |
| `FftSize.dfy` | next transform length with prime factors 2, 3, 5, 7, 11 |
| `PointBuckets.dfy` | bounded row queue and torque buckets with their cache |
| `Rotation.dfy`, `RotationProduct.dfy` | quaternions and rotation matrices |
| `Calibrator.dfy`, `CalibratorReports.dfy` | camera calibration blocks |
| `Engagement.dfy` | engagement state machine |
| `RunningStat.dfy` | running mean and variance |
| `Yuv.dfy` | NV12/I420 conversion and point scaling |
| `Sequences.dfy`, `Bits.dfy`, `Arithmetic.dfy` | bytes, options, sequence facts, exclusive or and named products shared by the others |

`dafny verify dfyconfig.toml` checks everything.

## How the models relate to the code

- CAN: bytes are integers 0..255 and the checksum is an 8-bit vector. The unsigned subtraction in the
  unpack loop guard is modelled with its 64-bit wrap-around, so a tail shorter than a header enters
  the loop as it does in the original. The code table `dlc_to_len` is the one of ISO 11898-1. What the
  transport delivers and whether it is healthy are parameters.
- The sender's assertions on payload length are the precondition `AllSendable`; messages for other
  buses are skipped before those assertions and carry no condition.
- The address field has 29 bits: a longer address is cut. `AddressKept` gives the exact condition and
  `AddressCut` an address that changes.
- eSIM: the card is a list of replies, one per APDU; when it is used up the call fails, as a transport
  error would. `EncodeTlv` needs a length that the long form can count; `LengthAlwaysFits` shows that
  every byte string of a 64-bit Python has one.
- A well-formed tag is one that the two-byte writer can express; `EncodeRoundTripIff` shows that a list
  survives exactly when all its tags are, and `BadTagLost` is an element that does not. `ChunksRetile`
  gives the exact condition for the chunks of a package to concatenate to it; a child with another tag
  (`UnknownChildLost`), or a nested value that is not fully tiled, loses bytes without an error.
- Driver monitoring: every perception result is a free input at every update, including the value of
  the distraction filter; the policy target may be absent, as when the face data is empty. The always-on
  toggle, which the daemon reloads between updates, is an input of every update as well. Time is in
  updates of 50 ms and arithmetic is over exact reals.
- Engagement: a disable request that arrives in the same update as an accepted enable request, in the
  disabled state, does not disable. `DisableRequest` states exactly when a request takes effect and
  `DisableRequestIgnoredWhenEnabling` shows the exception.
- Torque cache: each bucket is a ring queue object, and the saved rows come from the getters of the
  rings. The round trip does not need disjoint bounds, because the first matching bucket decides
  both when storing and when loading; the steer bounds are shown to be a partition all the same.
- Rotation: a square root is a non-negative number with the right square, given as a parameter; no
  square root function is assumed. The code's documentation does not say which sign it returns; the
  scalar part of the result is never negative.
- YUV: memory is one array of bytes and a pointer is an index into it, so planes may share a buffer, as
  the encoder's do (`EncoderBuffer`), or lie in several. The conversions ask that written planes have no
  byte in common with each other or with what is still to be read (`Apart`; `RangesApart` gives it for
  separate address ranges). The source of the luma copy may be overwritten by chroma afterwards.
- Calibration: a stored block count above 50 makes start-up read blocks that do not exist;
  `StoredBlocksFit` gives the condition and `StartUp` the failure.
- Where speed of verification needs it, products are named (`Mul`, `Times`) and definitions are hidden
  locally; this removes facts from a proof and adds none.

## Model

| member | source | states |
|---|---|---|
| `Framing.DecodeSplit` | openpilot/selfdrive/pandad/panda.cc:242-282 | decoding a ++ b equals decoding a and then its tail ++ b; a corrupt packet hides all that follows it in the same decode |
| `Framing.TailIsIncomplete` | openpilot/selfdrive/pandad/panda.cc:277-281 | the carried-over tail is a suffix of the stream without a whole packet, and empty after a corruption |
| `Framing.FragmentationIndependence` | openpilot/selfdrive/pandad/panda.cc:216-282 | for every fragmentation a run reports no failure exactly when the unfragmented stream has none, and then frames and tail agree; with a corrupt packet the frames before it still come first and in order |
| `CanCodec.LenToDlcRoundsUp` | openpilot/selfdrive/pandad/panda.cc:157-166 | the length code names the smallest table entry that holds the payload, and is exact only on table lengths, which is what the sender asserts |
| `CanCodec.ChecksumFill` | openpilot/selfdrive/pandad/panda.cc:195-196 | storing the XOR of a packet in its zero checksum byte makes the XOR of the packet zero |
| `CanCodec.ChecksumOnly` | openpilot/selfdrive/pandad/panda.cc:255-260 | no other checksum byte makes the XOR of a packet zero |
| `CanCodec.HeaderRoundTrip` | openpilot/selfdrive/pandad/panda.h:28-37 | the bit-packed header gives back length code, bus and address, with no rejected or returned mark |
| `CanCodec.SrcIdentifies` | openpilot/selfdrive/pandad/panda.cc:262-270 | equal reported sources mean equal bus, rejected and returned fields |
| `CanCodec.NextPacketWellBehaved` | openpilot/selfdrive/pandad/panda.cc:245-260 | a decision about the packet at the front never changes when more bytes arrive, and accepted packets lie within the bytes |
| `CanCodec.EncodedPacket` | openpilot/selfdrive/pandad/panda.cc:184-196 | a sent packet is accepted whole and yields the message |
| `CanCodec.TailBound` | openpilot/selfdrive/pandad/panda.cc:277-279 | the tail left after any decode is at most 69 bytes and holds no whole packet |
| `CanCodec.PackDecode` | openpilot/selfdrive/pandad/panda.cc:168-208 | the bytes of any message list decode to exactly the messages with bus below 4, in order, without failure or tail |
| `CanCodec.AddressKept` | openpilot/selfdrive/pandad/panda.cc:185 | an address survives exactly when it fits in 29 bits |
| `CanCodec.AddressCut` | openpilot/selfdrive/pandad/panda.cc:185 | an address of 30 bits that arrives as another one |
| `CanCodec.SendReceive` | openpilot/selfdrive/pandad/panda.cc:168-290 | any messages, sent and cut into any fragments, are received exactly, with no failure and an empty tail |
| `CanWire.WireDecodes` | openpilot/selfdrive/pandad/panda.cc:242-275 | a stream of frames with any header fields decodes to exactly them: the address, the payload, and the bus reported as itself, plus 0x80 for returned, plus 0xC0 for rejected, plus 0x140 for both |
| `CanWire.WireReceived` | openpilot/selfdrive/pandad/panda.cc:216-282 | the same through the receiver, however the stream is cut |
| `CanWire.WireHeaderFields` | openpilot/selfdrive/pandad/panda.h:28-37 | length code, bus and the flag and address word stand where the packed struct has them |
| `CanWire.EncodeIsWire` | openpilot/selfdrive/pandad/panda.cc:184-196 | the sender fills the struct with no flag but `extended`, for addresses from 0x800 on |
| `CanWire.AcceptedIsWire` | openpilot/selfdrive/pandad/panda.cc:245-260 | the receiver accepts nothing else: every accepted packet is the packet of some frame |
| `CanWire.CorruptionDetected` | openpilot/selfdrive/pandad/panda.cc:255-260 | one wrong byte in a packet is always rejected, as long as the length code survives |
| `PandaLink.CalculateChecksum` | openpilot/selfdrive/pandad/panda.cc:284-290 | the loop computes the XOR of the given bytes |
| `PandaLink.WritePacket` | openpilot/selfdrive/pandad/panda.cc:184-196 | the in-place header, payload and checksum writes leave the packet at its position and earlier bytes alone |
| `PandaLink.PackCanBuffer` | openpilot/selfdrive/pandad/panda.cc:168-208 | writes concatenate to the packets of all messages; each is 1..325 bytes of whole packets, and all but the last reach the soft limit |
| `PandaLink.UnpackCanBuffer` | openpilot/selfdrive/pandad/panda.cc:242-282 | result, delivered frames and the moved tail equal the decoding of the buffer, also when the guard wraps |
| `PandaLink.Panda.constructor` | openpilot/selfdrive/pandad/panda.h:88-93 | the buffer starts empty and satisfies the invariant |
| `PandaLink.Panda.CanReceive` | openpilot/selfdrive/pandad/panda.cc:216-236 | keeps the tail at most 69 bytes, so the space assertion holds in every run; delivers the decoding of tail and new bytes; changes nothing when the link is unhealthy |
| `PandaLink.Panda.ReceiveRun` | openpilot/selfdrive/pandad/panda.cc:216-236 | a run of rounds on the in-place buffer equals the run of the stream decoder |
| `FftSize.FftNextGoodSize` | openpilot/selfdrive/locationd/helpers.py:11-34 | for every n >= 1 the five nested loops end with the smallest number >= n whose prime factors are among 2, 3, 5, 7, 11 |
| `FftSize.LoopExit` | openpilot/selfdrive/locationd/helpers.py:19-33 | leaving a loop means that no product with a further power of its factor lies below the bound |
| `FftSize.CoveredExcludes` | openpilot/selfdrive/locationd/helpers.py:12-15 | covered products exclude every number with only these prime factors from [n, best) |
| `FftSize.SearchDone` | openpilot/selfdrive/locationd/helpers.py:18-34 | the starting value 2n never survives as a spurious answer |
| `FftSize.SmoothTimes` | openpilot/selfdrive/locationd/helpers.py:28-33 | multiplying by one of the factors adds no other prime factor |
| `PointBuckets.NPQueue.constructor` | openpilot/selfdrive/locationd/helpers.py:56-61 | a new queue of any maximum length, zero included, is empty |
| `PointBuckets.NPQueue.Arr` | openpilot/selfdrive/locationd/helpers.py:66-72 | the stored rows are the last maxlen rows of the plain list |
| `PointBuckets.NPQueue.SetArr` | openpilot/selfdrive/locationd/helpers.py:74-89 | a matrix of the right row size replaces the list and anything else is refused without change |
| `PointBuckets.NPQueue.Append` | openpilot/selfdrive/locationd/helpers.py:91-97 | appends to the plain list and keeps that a queue that is not full starts at slot 0 |
| `PointBuckets.LastNAppend` | openpilot/selfdrive/locationd/helpers.py:91-97 | dropping the oldest row on overflow is the same as taking the last maxlen rows |
| `PointBuckets.AddAllStored` | openpilot/selfdrive/locationd/torqued.py:55-60 | after any points every stored row belongs to its bucket and no bucket is over capacity |
| `PointBuckets.BucketContents` | openpilot/selfdrive/locationd/torqued.py:55-60 | every bucket holds the last rows x, 1, y of its own points, in order of arrival |
| `PointBuckets.SaveLoadRoundTrip` | openpilot/selfdrive/locationd/torqued.py:137-140 | saving (x, y) of all rows and loading them into fresh buckets rebuilds identical buckets in identical order, for every history |
| `PointBuckets.SteerBucketsPartition` | openpilot/selfdrive/locationd/torqued.py:35 | the steer bounds are a partition of [-0.5, 0.5), and which bucket a torque lands in |
| `PointBuckets.AppendTo` | openpilot/selfdrive/locationd/torqued.py:59 | appending to the ring of one bucket keeps its last rows and leaves the rings of the others alone |
| `PointBuckets.TorqueBuckets.constructor` | openpilot/selfdrive/locationd/helpers.py:101-106 | every bucket gets an empty ring queue of its own |
| `PointBuckets.TorqueBuckets.Add` | openpilot/selfdrive/locationd/torqued.py:55-60 | the loop appends a point to the ring of the first bucket that takes it, or drops it |
| `PointBuckets.TorqueBuckets.LoadPoints` | openpilot/selfdrive/locationd/helpers.py:134-136 | loading adds the points in order |
| `PointBuckets.TorqueBuckets.GetPoints` | openpilot/selfdrive/locationd/helpers.py:128-131 | stacking what the ring getters return gives all rows, bucket by bucket, oldest first |
| `PointBuckets.SaveAndRestore` | openpilot/selfdrive/locationd/torqued.py:326-327 | the cache path through the ring queues restores the contents of the live buckets exactly, for every history of points |
| `Tlv.NextTag` | openpilot/common/esim/lpa.py:264-277 | the tag loop reads the one- or multi-byte tag and stops after it or at the end |
| `Tlv.NextLength` | openpilot/common/esim/lpa.py:280-287 | reads short and long lengths and reports a length field that does not fit |
| `Tlv.IterTlv` | openpilot/common/esim/lpa.py:262-292 | the index loop ends and returns exactly the elements of the bytes with their positions |
| `Tlv.ItemsTile` | openpilot/common/esim/lpa.py:262-292 | on arbitrary bytes the items tile a prefix without gaps, carry their own bytes as values, and no whole element is left behind it |
| `Tlv.ElementAlone` | openpilot/common/esim/lpa.py:262-292 | the bytes of an element, without what follows them, are read as that element |
| `Tlv.LengthAlwaysFits` | openpilot/common/esim/lpa.py:320-321 | every possible length has at most eight length bytes |
| `Tlv.LengthIsMinimal` | openpilot/common/esim/lpa.py:317-321 | lengths take one byte up to 127 and no leading zero byte beyond |
| `Tlv.ReadEncodedHead` | openpilot/common/esim/lpa.py:315-321 | a written element is read back at the front of any bytes |
| `Tlv.EncodeItems` | openpilot/common/esim/lpa.py:262-321 | reading the concatenation of any written elements gives exactly that list, contiguous and complete |
| `Tlv.EncodeRoundTripIff` | openpilot/common/esim/lpa.py:315-321 | a written list is read back with its positions if and only if all its tags are well formed |
| `Tlv.BadTagMisread` | openpilot/common/esim/lpa.py:315-316 | whatever follows it, a badly formed tag is read as another tag or as no element |
| `Tlv.BadTagLost` | openpilot/common/esim/lpa.py:315-316 | an element with tag 1F that is not found again |
| `BoundProfile.HeaderLenAgrees` | openpilot/common/esim/lpa.py:515-518 | the header length shortcut agrees with the parser for every tag of at most two bytes |
| `BoundProfile.ItemsAreElements` | openpilot/common/esim/lpa.py:262-292 | each item is what the parser finds at its start position, right after the previous one |
| `BoundProfile.SplitChild` | openpilot/common/esim/lpa.py:534-542 | the pieces appended for one child |
| `BoundProfile.SplitPackage` | openpilot/common/esim/lpa.py:521-543 | the loops return the chunks of the first package element, or an error without one |
| `BoundProfile.ChildPieces` | openpilot/common/esim/lpa.py:536-542 | a child yields at most its own bytes, and all of them exactly when it is A0..A3 and, if nested, fully tiled |
| `BoundProfile.ChunksRetile` | openpilot/common/esim/lpa.py:515-543 | with one BF23 child first, the chunks concatenate to the package byte for byte if and only if package and nested values are fully tiled and all other children are A0..A3 |
| `BoundProfile.SplitCuts` | openpilot/common/esim/lpa.py:533-543 | where the cuts fall, for every package: the number of chunks, and for each child in its place the chunk up to the command, one chunk for A0 and A2, and for A1 and A3 the header and then one whole element per chunk |
| `BoundProfile.PackageIsFirst` | openpilot/common/esim/lpa.py:523-531 | splitting fails exactly without an element BF36, and otherwise the first of them is the package |
| `BoundProfile.UnknownChildLost` | openpilot/common/esim/lpa.py:534-543 | a package whose A4 child is dropped without an error |
| `Es10x.PayloadsCarryCommand` | openpilot/common/esim/lpa.py:357-361 | the block payloads concatenate to the command |
| `Es10x.Es10xCommand` | openpilot/common/esim/lpa.py:353-373 | STORE DATA blocks go out in order, a GET RESPONSE follows exactly the replies that announce more data, success needs every block accepted and returns all segments in order, failure means a bad status or a silent card |
| `Es10x.CommandDelivered` | openpilot/common/esim/lpa.py:357-372 | after success the payloads concatenate to the command, each is 1..120 bytes behind 80 E2, only the last has P1 0x91, and blocks are numbered modulo 256 |
| `Es10x.ConversationExact` | openpilot/common/esim/lpa.py:362-373 | after 61xx the next command is 80 C0 00 00 xx, otherwise a STORE DATA; all replies are 61xx or 9xxx, the last is 9xxx, and the result is what they carried, in order |
| `DriverMonitoring.Monitor.constructor` | openpilot/selfdrive/monitoring/policy.py:131-171 | start-up state with the restored lockout |
| `DriverMonitoring.Monitor.Reset` | openpilot/selfdrive/monitoring/policy.py:173-176 | all three awareness values become one |
| `DriverMonitoring.Monitor.SelectPolicy` | openpilot/selfdrive/monitoring/policy.py:178-206 | the in-place policy switch equals its specification |
| `DriverMonitoring.Monitor.BeginLockout` | openpilot/selfdrive/monitoring/policy.py:314-319 | the in-place start of a lockout equals its specification |
| `DriverMonitoring.Monitor.AdvanceLockout` | openpilot/selfdrive/monitoring/policy.py:314-328 | the in-place lockout bookkeeping equals its specification |
| `DriverMonitoring.Monitor.RaiseAlerts` | openpilot/selfdrive/monitoring/policy.py:361-381 | countdown, alert level and alert-3 counters equal their specification |
| `DriverMonitoring.Monitor.JudgeDriver` | openpilot/selfdrive/monitoring/policy.py:338-381 | exemptions, recovery, touch reset and alerts equal their specification |
| `DriverMonitoring.Monitor.HandleEvents` | openpilot/selfdrive/monitoring/policy.py:310-381 | the whole event update equals its specification |
| `DriverMonitoring.Monitor.Step` | openpilot/selfdrive/monitoring/policy.py:451-468 | one update is policy selection and then events |
| `DriverMonitoring.Monitor.Run` | openpilot/selfdrive/monitoring/dmonitoringd.py:20-38 | a run of updates on the object, with the always-on toggle free to change between them, equals the run that the lemmas speak of |
| `MonitoringRuns.InitialSound` | openpilot/selfdrive/monitoring/policy.py:159-171 | the start-up state satisfies the invariant, under vision policy at full awareness |
| `MonitoringRuns.RunSound` | openpilot/selfdrive/monitoring/policy.py:178-206 | in every run stored vision awareness stays above 5/13, stored wheel-touch awareness above 0, and thresholds and step belong to the active policy |
| `MonitoringRuns.SwitchKeepsRed` | openpilot/selfdrive/monitoring/policy.py:178-206 | a policy switch neither enters nor leaves red, and below orange the vision policy cannot be left; what it restores is in `MonitoringPolicies` |
| `MonitoringRuns.RaisedBounds` | openpilot/selfdrive/monitoring/policy.py:350-351 | recovery moves up by 1.25 to 5 steps and stops at one |
| `MonitoringRuns.UpdateRed` | openpilot/selfdrive/monitoring/policy.py:330-381 | an update enters red if and only if the countdown takes the last step while engaged, above the alert speed and without recovery or touch reset; alert three is shown exactly in red |
| `MonitoringRuns.RedLatched` | openpilot/selfdrive/monitoring/policy.py:330-376 | while engaged, red stays: every later update shows alert three and awareness never rises, whatever the inputs |
| `MonitoringRuns.RedNotBefore260` | openpilot/selfdrive/monitoring/policy.py:31-36 | with any mix of policies red is at least 260 updates after a full reset |
| `MonitoringTiming.VisionCountdown` | openpilot/selfdrive/monitoring/policy.py:338-381 | under certain distraction alerts one, two and three begin exactly at updates 100, 160 and 260 |
| `MonitoringTiming.WheelTouchCountdown` | openpilot/selfdrive/monitoring/policy.py:31-33 | without a face they begin exactly at updates 100, 300 and 500 |
| `MonitoringTiming.AlwaysOnCountdown` | openpilot/selfdrive/monitoring/policy.py:342-365 | not engaged under always-on monitoring, alerts one and two begin at updates 100 and 160, and the countdown stops one step short of red |
| `MonitoringTiming.SlowCountdown` | openpilot/selfdrive/monitoring/policy.py:339-365 | below the alert speed the countdown runs up to the update before the first alert and then turns back |
| `MonitoringTiming.UndecidedHolds` | openpilot/selfdrive/monitoring/policy.py:344-365 | between the thresholds 0.37 and 0.63 no awareness value moves, however long that lasts |
| `MonitoringTiming.RecoveryCurve` | openpilot/selfdrive/monitoring/policy.py:350-351 | recovery follows one exact curve: the distance to 4/3 shrinks by 205/208 per update until awareness is full |
| `MonitoringTiming.WatchingRecovers` | openpilot/selfdrive/monitoring/policy.py:344-356 | from any state short of red, watching the road restores full awareness within 208 updates |
| `MonitoringTiming.WatchingRestoresWheelTouch` | openpilot/selfdrive/monitoring/policy.py:352-353 | at full awareness the stored wheel-touch awareness recovers one step per update |
| `MonitoringTiming.NoAlertAtLowSpeed` | openpilot/selfdrive/monitoring/policy.py:341-345 | below the alert speed vision policy never raises an alert |
| `MonitoringTiming.FullReset` | openpilot/selfdrive/monitoring/policy.py:330-348 | all three values are full after an update if and only if it was a requested reset (disengaging, with always-on only from red; or a touch short of red under wheel-touch policy, while attentive or exempt at low speed) or nothing was missing or lost; nothing else touches the stored vision awareness |
| `MonitoringPolicies.VisionRemembered` | openpilot/selfdrive/monitoring/policy.py:187-206 | above orange, leaving the vision policy and coming back restores its awareness, and wheel touch gets its stored one meanwhile |
| `MonitoringPolicies.WheelTouchRemembered` | openpilot/selfdrive/monitoring/policy.py:187-206 | the same for wheel touch, short of red |
| `MonitoringPolicies.VisionRememberedOverRun` | openpilot/selfdrive/monitoring/policy.py:178-206 | however long wheel touch is active, without a reset the vision awareness is on return what it was |
| `MonitoringPolicies.WheelTouchRememberedOverRun` | openpilot/selfdrive/monitoring/policy.py:352-353 | over any run under vision the stored wheel-touch awareness gains exactly one step per update of full recovery, and is restored on return |
| `MonitoringPolicies.NoTargetKeepsPolicy` | openpilot/selfdrive/monitoring/policy.py:178-206 | without face data the policy stays what it is |
| `MonitoringLockout.InitialLockoutSound` | openpilot/selfdrive/monitoring/policy.py:155-158 | the monitor starts with the saved lockout and count, their duration, no time elapsed and no alerts counted, so the lockout invariant holds from the first update |
| `MonitoringLockout.UpdateCounters` | openpilot/selfdrive/monitoring/policy.py:367-376 | an entry into red is counted once, time in red is measured from it, and the hundredth update in red is a no-response |
| `MonitoringLockout.StartsWhen` | openpilot/selfdrive/monitoring/policy.py:314-319 | a lockout starts exactly after two red alerts or one no-response and is counted once |
| `MonitoringLockout.LockoutVisibleExactly` | openpilot/selfdrive/monitoring/policy.py:321-328 | the k-th lockout is visible for exactly 1, 5, 15, 30, 30, ... minutes and cannot restart on the update after its expiry |
| `MonitoringLockout.ExpiryForgets` | openpilot/selfdrive/monitoring/policy.py:321-328 | an expiry forgets all red alerts: only one that begins with it counts, and time in red starts anew |
| `MonitoringLockout.LockoutsCounted` | openpilot/selfdrive/monitoring/policy.py:41-44 | over a run the count grows by one per lockout, and the durations are 1200, 6000, 18000, 36000, 36000, ... updates of 50 ms |
| `MonitoringLockout.LadderMinutes` | openpilot/selfdrive/monitoring/policy.py:41-44 | durations are the minutes of the ladder, which never goes down |
| `MonitoringLockout.Alert3CountsEntries` | openpilot/selfdrive/monitoring/policy.py:367-374 | the alert-3 count is the number of entries into red since the last lockout expired |
| `MonitoringLockout.UnansweredRedLocksOut` | openpilot/selfdrive/monitoring/policy.py:314-376 | a driver who never reacts is locked out exactly at update 361 |
| `Rotation.RadicandIsPivot` | openpilot/common/transformations/transformations.py:109-130 | for unit quaternions the number under each root is four times the square of a component that is not zero |
| `Rotation.QuatRoundTrip` | openpilot/common/transformations/transformations.py:88-138 | matrix and back gives q for positive scalar part, -q for negative, one of them for zero; every divisor is non-zero |
| `Rotation.MatRoundTrip` | openpilot/common/transformations/transformations.py:88-138 | on every orthogonal matrix of determinant one the conversion gives a unit quaternion that converts back to the matrix, through all four branches |
| `Rotation.QuatGivesRotation` | openpilot/common/transformations/transformations.py:88-102 | the matrix of a unit quaternion is orthogonal with determinant one |
| `Rotation.DoubleCover` | openpilot/common/transformations/transformations.py:88-102 | two unit quaternions give the same matrix if and only if they are equal or opposite |
| `RotationProduct.ProductComposes` | openpilot/common/transformations/transformations.py:88-102 | the matrix of a product of unit quaternions turns every vector by the second factor and then by the first, which fixes the direction |
| `RotationProduct.Sandwich` | openpilot/common/transformations/transformations.py:88-102 | turning a vector u by the matrix of q is q u q* |
| `RotationProduct.QuarterTurn` | openpilot/common/transformations/transformations.py:88-102 | a quarter turn about the third axis takes the first axis to the second |
| `Calibrator.ClippedInRange` | openpilot/selfdrive/locationd/calibrationd.py:54-59 | clipped samples are in range, also when they were not numbers |
| `Calibrator.DeviceLimits` | openpilot/selfdrive/locationd/calibrationd.py:41-46 | the limits of both devices contain zero, as the fallback seed needs |
| `Calibrator.MovingAverageInRange` | openpilot/selfdrive/locationd/calibrationd.py:61-62 | averaging with decay stays in range |
| `Calibrator.ValidIdxsExact` | openpilot/selfdrive/locationd/calibrationd.py:132-136 | the valid blocks are exactly 0..valid_blocks-1 without the current one, in order |
| `Calibrator.InitialSound` | openpilot/selfdrive/locationd/calibrationd.py:89-130 | an in-range seed gives a state that satisfies the invariant |
| `Calibrator.RunInRange` | openpilot/selfdrive/locationd/calibrationd.py:138-232 | in every run, restarts included, all held and reported pitch and yaw stay in the clip range and block_idx <= valid_blocks <= 50 |
| `Calibrator.RestartIsSmooth` | openpilot/selfdrive/locationd/calibrationd.py:161-167 | a restart keeps the last block only and does not make the reported angles jump |
| `Calibrator.OldMeanFades` | openpilot/selfdrive/locationd/calibrationd.py:176-188 | after a restart the reported angles move a tenth of the way per odometry message from the old mean to the new one, with no second restart in between |
| `Calibrator.BlockStartsAfresh` | openpilot/selfdrive/locationd/calibrationd.py:219 | the first sample of a block replaces what the block held |
| `CalibratorReports.ReportIsMean` | openpilot/selfdrive/locationd/calibrationd.py:138-144 | without a restart the number of valid blocks times the reported angles is the sum over those blocks; without a block the report stays |
| `CalibratorReports.SpreadIsWidest` | openpilot/selfdrive/locationd/calibrationd.py:145-149 | the spread is the largest difference between two valid blocks, attained by some two |
| `CalibratorReports.StatusExact` | openpilot/selfdrive/locationd/calibrationd.py:151-167 | calibrated exactly with five blocks, a mean strictly inside the limits and a spread within bounds; when it restarts, is invalid, uncalibrated or recalibrating |
| `CalibratorReports.DecayShrinksGap` | openpilot/selfdrive/locationd/calibrationd.py:61-62 | the distance to a new sample shrinks to exactly idx hundredths |
| `CalibratorReports.NotAccepted` | openpilot/selfdrive/locationd/calibrationd.py:188-202 | messages that fail the gates change nothing but the weight of the old mean |
| `CalibratorReports.BlocksFill` | openpilot/selfdrive/locationd/calibrationd.py:219-230 | over any run of accepted samples without a restart a block takes 100 samples and fifty blocks are used in turn |
| `CalibratorReports.ClipIsNearest` | openpilot/selfdrive/locationd/calibrationd.py:54-59 | clipping keeps what is in range and moves anything else to the nearest value in range |
| `CalibratorReports.DeviceRanges` | openpilot/selfdrive/locationd/calibrationd.py:41-59 | the clip ranges of both devices in numbers |
| `CalibratorReports.SeedIsReported` | openpilot/selfdrive/locationd/calibrationd.py:65-130 | start-up holds and reports the stored angles, or zero when they were not numbers, and takes a negative count as none |
| `CalibratorReports.ResetForgets` | openpilot/selfdrive/locationd/calibrationd.py:92-130 | a reset forgets everything but status and spread |
| `Calibrator.Estimator.constructor` | openpilot/selfdrive/locationd/calibrationd.py:65-90 | start-up from a stored calibration |
| `Calibrator.Estimator.Restart` | openpilot/selfdrive/locationd/calibrationd.py:92-130 | the in-place reset equals its specification |
| `Calibrator.Estimator.Evaluate` | openpilot/selfdrive/locationd/calibrationd.py:138-167 | the in-place status update equals its specification |
| `Calibrator.Estimator.Handle` | openpilot/selfdrive/locationd/calibrationd.py:182-232 | the in-place handling of one odometry message equals its specification |
| `Calibrator.Estimator.Store` | openpilot/selfdrive/locationd/calibrationd.py:219-228 | the in-place storing of a sample and the turn of blocks equal their specification |
| `Calibrator.Estimator.Run` | openpilot/selfdrive/locationd/calibrationd.py:182-232 | a run of messages on the object equals the run that the lemmas speak of |
| `Calibrator.StoredBlocksFit` | openpilot/selfdrive/locationd/calibrationd.py:132-141 | at start-up the valid blocks all exist if and only if the stored count is at most 50 |
| `Calibrator.StartUp` | openpilot/selfdrive/locationd/calibrationd.py:65-90 | start-up fails exactly for a larger stored count, and otherwise gives the specified state |
| `Engagement.StateMachine.constructor` | openpilot/selfdrive/selfdrived/state.py:12-15 | the machine starts disabled |
| `Engagement.StateMachine.Step` | openpilot/selfdrive/selfdrived/state.py:17-97 | the in-place update equals its specification, and reports enabled and active |
| `Engagement.StateMachine.Run` | openpilot/selfdrive/selfdrived/state.py:17-97 | a run of updates on the object equals the run that the lemmas speak of |
| `Engagement.RunTimerSound` | openpilot/selfdrive/selfdrived/state.py:17-57 | in every run soft disabling has a timer between 1 and 300 |
| `Engagement.SoftDisableTakes300` | openpilot/selfdrive/selfdrived/state.py:37-57 | a soft-disable condition that is held disables at exactly the 300th update after entry, with its alerts until then |
| `Engagement.EnabledSince` | openpilot/selfdrive/selfdrived/state.py:78-90 | every enabled interval begins at an update with an enable request and no refusal |
| `Engagement.DisableRequest` | openpilot/selfdrive/selfdrived/state.py:25-33 | a user or immediate disable leaves the system disabled if and only if that update does not enable it |
| `Engagement.DisableRequestIgnoredWhenEnabling` | openpilot/selfdrive/selfdrived/state.py:78-90 | an immediate disable together with an enable request in the disabled state does not disable |
| `Engagement.ModeAfter` | openpilot/selfdrive/selfdrived/state.py:17-90 | for every mode, exactly when an update leads to it |
| `Engagement.AlertsAfter` | openpilot/selfdrive/selfdrived/state.py:21-90 | for every alert type, exactly when an update shows it |
| `Engagement.WarningWhenActive` | openpilot/selfdrive/selfdrived/state.py:92-97 | the warning alert type is shown exactly in the active states, after the permanent one |
| `RunningStat.Tracker.constructor` | openpilot/common/stat_live.py:5-16 | starts from priors |
| `RunningStat.Tracker.Reset` | openpilot/common/stat_live.py:18-23 | forgets everything |
| `RunningStat.Tracker.PushData` | openpilot/common/stat_live.py:25-37 | the in-place update equals its specification |
| `RunningStat.Tracker.PushRun` | openpilot/common/stat_live.py:25-37 | pushing any data on the object equals the run that the lemmas speak of |
| `RunningStat.MomentsConserved` | openpilot/common/stat_live.py:25-37 | without a cap, weight, first and second moment of prior and data add up exactly |
| `RunningStat.WelfordIsBatch` | openpilot/common/stat_live.py:25-37 | without a cap M is the mean of prior and data and S the prior's sum plus all squared deviations from it |
| `RunningStat.StaysInHull` | openpilot/common/stat_live.py:25-37 | with any cap S never becomes negative, M stays in the hull of prior mean and data, and the weight is bounded |
| `RunningStat.AtCap` | openpilot/common/stat_live.py:25-37 | at the cap the mean moves by one part in cap of the way to the sample, and the sum grows by the product of both distances |
| `RunningStat.CapZero` | openpilot/common/stat_live.py:29-32 | with a cap of zero the mean is the latest sample |
| `Yuv.BlockIsRows` | openpilot/common/yuv.cc:17-23 | without padding one block copy has the effect of the row loop |
| `Yuv.TightApart` | openpilot/common/yuv.cc:17-19 | planes without padding that share no byte are disjoint blocks, so the block copy never overlaps |
| `Yuv.HoldsNext` | openpilot/common/yuv.cc:21-23 | writing the next row of a plane keeps the rows already there |
| `Yuv.WrittenUnique` | openpilot/common/yuv.cc:14-24 | what is stated about writing an image determines the whole memory |
| `Yuv.RowsUntouched` | openpilot/common/yuv.cc:54-94 | planes that share no byte with what is written keep their images |
| `Yuv.RangesApart` | openpilot/common/yuv.cc:54-59 | planes in separate address ranges share no byte |
| `Yuv.EncoderBuffer` | openpilot/system/loggerd/encoder/ffmpeg_encoder.cc:86-94 | the three planes that the encoder lays out in one buffer fit it and share no byte |
| `Yuv.CopyPlane` | openpilot/common/yuv.cc:14-24 | both paths make the target hold the source image and change nothing else |
| `Yuv.InterleaveInverse` | openpilot/common/yuv.cc:68-92 | taking a chroma row apart and putting it together restores it |
| `Yuv.SplitRow` | openpilot/common/yuv.cc:68-71 | the loop over columns writes the even bytes to U and the odd bytes to V |
| `Yuv.JoinRow` | openpilot/common/yuv.cc:89-92 | the loop over columns writes U and V alternately |
| `Yuv.SplitChroma` | openpilot/common/yuv.cc:62-72 | afterwards U holds the even and V the odd bytes of the chroma image, also in one buffer |
| `Yuv.JoinChroma` | openpilot/common/yuv.cc:83-93 | afterwards the chroma plane holds U and V alternately |
| `Yuv.Nv12ToI420` | openpilot/common/yuv.cc:54-73 | the three target planes hold the source image, wherever they lie, and nothing else changes |
| `Yuv.I420ToNv12` | openpilot/common/yuv.cc:75-94 | the two target planes hold the source image, wherever they lie, and nothing else changes |
| `Yuv.ThereAndBack` | openpilot/common/yuv.cc:54-94 | for all sizes, strides and placements the conversion back restores every luma and chroma byte and leaves padding alone |
| `Yuv.Nearest` | openpilot/common/yuv.cc:33-37 | the sampled position is the source cell that holds the target position, and lies inside the source |
| `Yuv.NearestMonotone` | openpilot/common/yuv.cc:33-37 | positions keep their order |
| `Yuv.ScaledPixel` | openpilot/common/yuv.cc:32-39 | every scaled byte is the source byte whose cell holds its position, in both directions |
| `Yuv.ScaleSameSize` | openpilot/common/yuv.cc:28-31 | scaling to the same size is the identity, so the copy shortcut is no special case |
| `Yuv.ScalePlanePoint` | openpilot/common/yuv.cc:26-40 | every target byte is the nearest source byte, no read leaves the source plane, and padding is kept |

## Left out

- SPI and USB transfers, retries, locking and logging of pandad; the junk reads of `PANDAD_MAXOUT`.
- Serial AT client, HTTPS, base64, hashing and the download sequence of the eSIM code; TBCD digits and field decoders.
- Perception in driver monitoring: pose, blink and phone thresholds, the distraction filter, offset learning and the state packet; their results are free inputs.
- Floating-point rounding, NaN arithmetic inside averages and float32 message storage: arithmetic is over exact reals.
- PointBuckets.NPQueue.Append: asks for a positive maximum length, because the original divides by it.
- PointBuckets.NPQueue.SetArr: asks for a positive maximum length; the original then stores a length that its empty buffer cannot hold.
- PointBuckets.TorqueBuckets.Add: asks for a positive bucket size, because the original divides by it; LoadPoints, Collect and SaveAndRestore ask for the same.
- PointBuckets.TorqueBuckets.GetPoints: returns no rows when there are no buckets at all, where stacking nothing fails in the original.
- Bucket validity percentages, the random choice of fit points and the fit itself.
- Calibrator.Estimator.constructor: asks for a stored block count of at most 50, because a constructor cannot fail here; StartUp models the failure.
- Calibrator: height and wide-camera angles, which go through the same averages without clipping or spread checks; the odometry gates are inputs.
- Yuv.ScalePlanePoint: asks for a source that is not empty when the target is not, because the original reads the first source byte then; 32-bit overflow of index products is not modelled.
- Euler angle conversions, RGB conversion, the variance getter of the running statistics and the filter that pushes only samples lowering the spread.
- The replay shortcut that sets the engagement state directly, and MADS.
