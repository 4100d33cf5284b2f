# Verified model of the Motion SDK and the fibre, inertial and beam-shape scripts

This project models, in Dafny, the parts of the repository that carry the most state and arithmetic,
and proves what they promise. `dafny verify dfyconfig.toml` checks all of it.

- **Framing client** (`Bytes`, `Framing`, `Client`). Messages travel behind a four-byte length in
  network order. `Framing` gives the meaning of one read, one write and one data read for any schedule
  of received chunks, time-outs, interruptions and failures, and of whole runs of them over one
  schedule; the class `ClientSide.Client` has the fields and loops of the C++ client and is proved
  against that meaning. Both builds are covered: with exceptions an error is the flag `threw`, without
  them it closes the client.
- **Samplers, manager and reader threads** (`Sampler`, `Manager`, `Protocol*`, `Refinement`). The
  classes hold the critical sections. `Protocol` is a step system: each reader thread has a program
  counter, each mutex section is one step, a blocked step changes nothing, and a run is any sequence of
  steps. `Refinement` proves that the methods of the classes are those steps, by a relation between a
  manager with its objects and a state of the protocol. The build is the buffered one, and samplers do
  not filter by node id, since nothing in the sources sets a filter.
- **Packed messages** (`PackedFormat`, `PackedTheorems`). The greedy loop that reads an id, perhaps a
  length, and an array, and the loop over whole elements of a fixed length. Values are words of a given
  size in little-endian order.
- **Fibre strain** (`Fibre*`). Column selection, repair of out-of-band runs, deletion of samples and
  separation into regions, each loop proved against a declared meaning, then the composition of all four.
- **Orientation filter** (`Linear`, `Elimination`, `Covariance`, `Kalman`, `Prediction`) and **beam shape**
  (`LeastSquares`, `ShapeQuad`, `ShapeTheorems`). Real matrices of any size. A division by a matrix is
  a parameter: for the filter it solves systems with a positive definite matrix, for the beam the
  results hold whenever it solves the system; that such divisions exist is proved by elimination.
- **Quaternions** (`Reals`, `Quaternion`, `Rotation`, `Orientation`, `Fqa`, `Heading`). The square root
  is a parameter: non-negative, and its square is the argument. Products of reals go by the name
  `Product` so that proofs can treat them as opaque.

## Findings

Where the code does not keep what one would expect, the code was modelled as it is:

- A send that fails in the no-exceptions build is counted as 2^32 - 1 bytes, so a write can complete
  and still have repeated a byte (`Framing.FailedSendRepeatsAByte`; `Framing.WrittenExactlyOnce` gives
  the exact condition).
- A read breaks when the bytes at hand (those kept, and those that arrive before the first event
  without data) begin with an invalid header or run out within a frame (`Framing.BrokenExactly`). With
  exceptions, or when shutting the socket fails, such a read leaves the client connected in the middle
  of a frame, and no other read does (`Framing.FrameBoundaryOrClosed`); `Framing.LeftInsideAFrame` is
  one, a time-out within a message of five bytes.
- Time-outs between frames change which messages the data reads divert if and only if one lies in
  front of an XML message that would be handed out, right behind a diverted one: the client then diverts
  that message too (`Framing.DisturbedExactly`, `Framing.PauseDiverts`). What is handed out and what is
  put aside under any such time-outs is given exactly (`Framing.DataRunExactly`).
- A sampler whose queue of two or more overflows is put out of its node but keeps its id, so it can
  never be attached again (`ProtocolLosses.RefusalEvicts`, `ProtocolTheorems.EvictedForever`). The
  final empty batch, sent when the service hangs up, is pushed like any other: a queue that is merely
  full is enough (`ProtocolRuns.HangUpStrands`).
- The address of a node can never be used again if and only if, in the run so far, its thread set quit
  after a refusal with no sampler left and no client waiting for it, or published with quit set, the
  final empty batch above all, when every sampler refused (`ProtocolLosses.OverflowStrands`,
  `DeadExactly`, `ProtocolTheorems.DeadForever`). The mutex is free between the refusal and quit, so a
  sampler that attaches in between saves the address (`ProtocolRuns.AttachedInBetween`). Both losses
  happen in runs from the start, for any maximum of two or more (`ProtocolRuns.OverflowHappens`).
- Detaching the last sampler of a node joins its thread with the mutex held. If the thread is just then
  at `set_data_slot` the two wait for each other for ever; if it is before its final callback it calls a
  callback it no longer has. In every other case the join can return (`ProtocolJoins.JoinReturns`,
  `ProtocolRuns.DetachDeadlocks`).
- An empty batch at the front of a queue, such as the final one, blocks `get_data`
  (`SamplerSide.Sampler.GetData`). `waitForData` drops the message it waited for. `writeData` says
  true without exceptions even when the write was cut short.
- The strain repair never uses the last column as the neighbour on the right; a lone bad entry in a
  single column is an index error, and with two columns one bad entry zeroes the sample.
- The comment on the rotation matrix promises the identity for a quaternion of length zero; the code
  gives it up to a squared length of 1e-6, where it still turns (`Rotation.AgreementExactly`).
- The quotient divides by the length of its divisor, not by the square, so rotations also scale
  (`Rotation.RotationScales`, `Fqa.QuotTimesDivisor`).
- To find the azimuth the magnetic field is turned by the inverse of roll times elevation, while the
  orientation is elevation times roll. So the orientation takes the horizontal part of the measured
  field onto the reference heading if and only if, in the axes of the sensor, the field has no z
  component, or it lies in one plane with the z axis and the acceleration and is less steep than the
  acceleration: `m.z^2 a.h^2 < a.z^2 m.h^2` for z components `m.z`, `a.z` and horizontal parts `m.h`,
  `a.h` (`HeadingTheorems.HeadingExactly`). In that plane a steeper field is turned exactly the other
  way, and nothing else is (`HeadingTheorems.HeadingReversedExactly`); the acceleration (0.6, 0, -0.8)
  with the field (0, 0, 1) is such a measurement (`HeadingTheorems.HeadingCanReverse`).
- The cost of the filter is bounded by the trace of the measurement noise, 0.0304, in every row of
  every run.

## Model

| member | source | states |
|---|---|---|
| Bytes.NetworkOrderRoundTrip | Motion Node Software/sdk/cpp/src/Client.cpp:539-540 | a length header has its most significant byte first and reads back as the length written, for every 32-bit length |
| Bytes.LittleEndianIsWeighted | Motion Node Software/sdk/python/MotionSDK.py:711-730 | a packed word counts its byte i with 256 to the i |
| Bytes.FourLittleBytes | Motion Node Software/sdk/python/MotionSDK.py:711-716 | an id or a length is its four bytes, the least significant first |
| Framing.NoDataExactly | Motion Node Software/sdk/cpp/src/Client.cpp:492-504 | with nothing kept, an event without data leaves the read idle if and only if it is a time-out, raises if and only if it is a failure with exceptions, and is the end of the connection in every other case, an orderly shutdown or no event at all included; the client stays connected in the first two, and otherwise only when the socket does not shut |
| Framing.FirstChunkExactly | Motion Node Software/sdk/cpp/src/Client.cpp:536-548 | the first four bytes of a chunk announce the length, most significant first; a length from 1 to 65535 takes that many of the bytes behind it and keeps the others, any other length breaks the read |
| Framing.FrameBytes | Motion Node Software/sdk/cpp/src/Client.cpp:598-608 | a frame is two zero bytes, the length in two bytes and the message |
| Framing.ReadAccounts | Motion Node Software/sdk/cpp/src/Client.cpp:476-583 | every byte of a schedule is in exactly one place: in the message returned, in the bytes kept for the next read, or still to come; a read that ends with a protocol error has thrown away exactly what it took in, and one that ends idle, closed or failed has taken none |
| Framing.BrokenIsNoBoundary | Motion Node Software/sdk/cpp/src/Client.cpp:512-563 | what a read has thrown away when it ends with a protocol error is never a sequence of whole frames |
| Framing.BrokenExactly | Motion Node Software/sdk/cpp/src/Client.cpp:497-563 | a read ends with a protocol error if and only if the bytes at hand, those kept and those that arrive before the first event without data, begin with an invalid header or run out within a frame |
| Framing.BrokenCopies | Motion Node Software/sdk/cpp/src/Client.cpp:548-563 | such a read has copied out what came behind a valid header, and nothing behind an invalid or incomplete one |
| Framing.FrameBoundaryOrClosed | Motion Node Software/sdk/cpp/src/Client.cpp:497-563 | under any mix of data, time-outs and errors a read ends disconnected with nothing kept, or at a frame boundary, if and only if not both: the bytes at hand cut a frame, and a protocol error does not close the client (exceptions build, or a failing shutdown) |
| Framing.LeftInsideAFrame | Motion Node Software/sdk/cpp/src/Client.cpp:557-563 | a concrete schedule, a time-out within a frame, that leaves such a client connected in the middle of the frame |
| Framing.NoExceptionsNeverOffBoundary | Motion Node Software/sdk/cpp/src/Client.cpp:298-332 | without exceptions and with a socket that shuts, no schedule leaves the client connected off a frame boundary |
| Framing.ReadCarried | Motion Node Software/sdk/cpp/src/Client.cpp:476-583 | one read of a well-framed stream returns the first frame or idles between frames, and what it leaves carries exactly the other frames |
| Framing.ChunkingIndependence | Motion Node Software/sdk/cpp/src/Client.cpp:476-583 | for every list of messages and every cut of their encoding into received chunks, with time-outs only between frames, successive reads return exactly the messages in order |
| Framing.WriteIsPrefix | Motion Node Software/sdk/cpp/src/Client.cpp:608-630 | without a failed send, what is on the wire is always a prefix of header and message, and all of it exactly when the write is complete |
| Framing.WrittenExactlyOnce | Motion Node Software/sdk/cpp/src/Client.cpp:585-642 | a complete write has put header and message on the wire exactly once if and only if no send in it failed |
| Framing.FailedSendRepeatsAByte | Motion Node Software/sdk/cpp/src/Client.cpp:622-629 | a concrete schedule in the no-exceptions build whose failed send, counted as 2^32 - 1 bytes, makes a complete write repeat a byte on the wire |
| Framing.WriteNeedsRoom | Motion Node Software/sdk/cpp/src/Client.cpp:610-638 | without a failed send a write is complete if and only if the sends before the first one that accepts nothing, be it a time-out or an interruption, have room for it, and the wire holds what they accepted |
| Framing.FailedSendStepsBack | Motion Node Software/sdk/cpp/src/Client.cpp:622-629 | in the no-exceptions build a failed send takes the write back by one byte, and at the first byte it ends it |
| Framing.PositiveSendsComplete | Motion Node Software/sdk/cpp/src/Client.cpp:610-638 | a schedule of positive partial sends that can hold the frame always completes the write |
| Framing.WriteRunAccounts | Motion Node Software/sdk/cpp/src/Client.cpp:585-642 | messages written one after the other over one schedule of sends, all reported as sent, put one byte too many on the wire for each failed send |
| Framing.WireIsEncodeAll | Motion Node Software/sdk/cpp/src/Client.cpp:585-642 | such writes put exactly the concatenated frames of all messages on the wire if and only if none of their sends failed |
| Framing.PositiveRunCompletes | Motion Node Software/sdk/cpp/src/Client.cpp:610-638 | a schedule of positive partial sends, at least one for every byte, completes all writes and puts exactly the frames on the wire |
| Framing.WriteReadRoundTrip | Motion Node Software/sdk/cpp/src/Client.cpp:476-642 | messages of 1 to 65535 bytes, written one after the other over one schedule of sends without a failure and cut into any chunks, with time-outs between frames only, are read back in order |
| Framing.DataReadCarried | Motion Node Software/sdk/cpp/src/Client.cpp:380-421 | one data read of a well-framed stream puts aside at most one XML message and hands out the next message, or times out between two frames, or finds the stream at its end behind a diverted message |
| Framing.DataRunExactly | Motion Node Software/sdk/cpp/src/Client.cpp:380-421 | for every cut of the stream into chunks and every time-out between frames, successive data reads divert exactly the XML messages that do not come right behind a diverted one without a time-out in between, and hand out all others in order |
| Framing.DisturbedExactly | Motion Node Software/sdk/cpp/src/Client.cpp:402-408 | the messages diverted are those diverted without any time-out if and only if no time-out lies in front of an XML message that would be handed out right behind a diverted one |
| Framing.DataRunOf | Motion Node Software/sdk/cpp/src/Client.cpp:380-421 | then what is handed out and what is put aside is one pure function of the list of messages |
| Framing.CalmStreams | Motion Node Software/sdk/cpp/src/Client.cpp:402-408 | so it is in every stream without time-outs, and in every stream in which no XML message follows another |
| Framing.PauseDiverts | Motion Node Software/sdk/cpp/src/Client.cpp:402-408 | a time-out between two XML messages changes the division: both are diverted |
| Framing.DataRunConserves | Motion Node Software/sdk/cpp/src/Client.cpp:402-414 | no run loses or invents anything: together data and diverted messages are the messages of the stream, and only messages with the XML mark are diverted |
| Framing.PlainDataRun | Motion Node Software/sdk/cpp/src/Client.cpp:402-408 | without interception data reads hand out exactly what plain reads return, and divert nothing |
| Framing.MarkDiverts | Motion Node Software/sdk/cpp/src/Client.cpp:402-408 | a message is diverted if and only if it begins with the five characters of an XML declaration |
| ClientSide.Client.Open | Motion Node Software/sdk/cpp/src/Client.cpp:246-270 | taking a connected socket keeps host and port and reads the service description; a read that closes leaves a reset client, and an error that does not close (exceptions build, or a failing shutdown) leaves it connected with what was read |
| ClientSide.Client.Close | Motion Node Software/sdk/cpp/src/Client.cpp:298-332 | closing resets everything kept of the connection when the socket shuts, and changes nothing otherwise |
| ClientSide.Client.Receive | Motion Node Software/sdk/cpp/src/Client.cpp:682-726 | one receive consumes one event: a chunk gives its data, a time-out is reported if and only if it is one, and a failure raises if and only if there are exceptions |
| ClientSide.Client.ReadMessage | Motion Node Software/sdk/cpp/src/Client.cpp:476-583 | a read refines the pure parse of leftover bytes and coming events: message, kept bytes, connection state and exception; when nothing is kept and no data comes, a time-out or a raised failure leaves everything as it was, and everything else leaves a reset client if the socket shuts |
| ClientSide.Client.ReadFrame | Motion Node Software/sdk/cpp/src/Client.cpp:506-543 | so does the part behind the first bytes, whose loop gathers the header (three extra receives always suffice) |
| ClientSide.Client.ReadChunks | Motion Node Software/sdk/cpp/src/Client.cpp:554-572 | the loop over the chunks of a payload returns the announced bytes and those that follow, or what had come when a receive brought nothing |
| ClientSide.Client.ReadBody | Motion Node Software/sdk/cpp/src/Client.cpp:548-580 | the body loop returns the announced bytes and keeps exactly those that follow |
| ClientSide.Client.Send | Motion Node Software/sdk/cpp/src/Client.cpp:644-679 | one send transmits a prefix and reports its size, 2^32 - 1 for a failure without exceptions |
| ClientSide.Client.SendAll | Motion Node Software/sdk/cpp/src/Client.cpp:610-638 | the send loop puts on the wire what the pure write does, with the same outcome |
| ClientSide.Client.WriteMessage | Motion Node Software/sdk/cpp/src/Client.cpp:585-642 | a write transmits length header and message, refuses messages over 65535 bytes, and closes on an incomplete write without exceptions |
| ClientSide.Client.WaitForData | Motion Node Software/sdk/cpp/src/Client.cpp:343-378 | waiting reads one message and drops it, keeping XML aside |
| ClientSide.Client.ReadData | Motion Node Software/sdk/cpp/src/Client.cpp:380-421 | a data read returns the message after at most one diverted XML message |
| ClientSide.Client.WriteData | Motion Node Software/sdk/cpp/src/Client.cpp:423-456 | the result says that there was data and a connection and no exception, not that the write was complete; more than 65535 bytes put nothing on the wire and end as a protocol error does |
| SamplerSide.Sampler.SetData | Motion Node Software/sdk/cpp/plugin/Device.hpp:450-503 | a publish leaves the newest batches, as many as the maximum allows, in order, and is refused if and only if it overflows a maximum of two or more |
| Buffering.KeptNewest | Motion Node Software/sdk/cpp/plugin/Device.hpp:486-501 | what is queued after a publish, refused or not, is the longest suffix of the queue and the new batch that the maximum allows |
| SamplerSide.Sampler.GetData | Motion Node Software/sdk/cpp/plugin/Device.hpp:304-326 | a take returns the front batch and removes it, unless the queue or the batch is empty |
| Buffering.AcceptedDiscards | Motion Node Software/sdk/cpp/plugin/Device.hpp:486-501 | an accepted publish loses data only under a maximum of one, and exactly when something is queued |
| ManagerSide.Manager.Distribute | Motion Node Software/sdk/cpp/plugin/Device.hpp:1052-1060 | every sampler of a node gets the batch, and exactly those that accept it stay, in order |
| ManagerSide.Manager.SetDataSlot | Motion Node Software/sdk/cpp/plugin/Device.hpp:1033-1065 | the slot serves its own node only, an empty message only once the reader quits, and reports whether a sampler is left |
| ManagerSide.Manager.Attach | Motion Node Software/sdk/cpp/plugin/Device.hpp:789-896 | attaching lists the sampler under a fresh id in the node of its address, and fails without any change for an attached sampler, port 0, a quitting reader or a thread that did not start |
| ManagerSide.Manager.Detach | Motion Node Software/sdk/cpp/plugin/Device.hpp:898-947 | detaching removes exactly the sampler's entry, and with the last one the node, whose reader is told to quit; a sampler whose entry is gone keeps its id |
| ManagerSide.ServedStaysValid | Motion Node Software/sdk/cpp/plugin/Device.hpp:1053-1060 | dropping entries keeps ids unique and every entry under its own address |
| ManagerSide.GrownStaysValid | Motion Node Software/sdk/cpp/plugin/Device.hpp:886-893 | listing a sampler under the next id keeps ids unique and every node with a reader of its own |
| ProtocolInvariants.NextInv | Motion Node Software/sdk/cpp/plugin/Device.hpp:608-1065 | every step of every thread and client keeps the invariant of the protocol |
| ProtocolInvariants.Reachable | Motion Node Software/sdk/cpp/plugin/Device.hpp:608-1065 | the invariant holds after every run from the start |
| ProtocolTheorems.AttachedMeansLossless | Motion Node Software/sdk/cpp/plugin/Device.hpp:304-518 | in every interleaving, while a sampler is attached, all batches given to it since are delivered or queued, in order, if and only if no publish under a maximum of one squeezed a batch out |
| ProtocolTheorems.NeverOneNeverLoses | Motion Node Software/sdk/cpp/plugin/Device.hpp:486-501 | with no maximum of one in the run, an attached sampler never loses a batch |
| ProtocolTheorems.MaximumOneKeepsNewest | Motion Node Software/sdk/cpp/plugin/Device.hpp:450-503 | with a maximum of one a publish leaves exactly the newest batch queued and the sampler attached |
| ProtocolTheorems.MaximumHolds | Motion Node Software/sdk/cpp/plugin/Device.hpp:417-503 | in every run that does not set it again, a positive maximum bounds the queue, or what was queued already does, and from the first publish on the maximum itself does |
| ProtocolTheorems.QueueHoldsNewest | Motion Node Software/sdk/cpp/plugin/Device.hpp:304-503 | in every run every sampler, also one that was refused or put out, holds the newest of the batches given to it, and what its client took comes from the older ones, in order |
| ProtocolThreads.EveryReadIsHanded | Motion Node Software/sdk/cpp/plugin/Device.hpp:650-667 | in every interleaving, as long as a thread has its callback and was not told to quit, the batches it reads are exactly those it hands to set_data_slot, in order and once, but for the one it may still hold |
| ProtocolThreads.HandedToAll | Motion Node Software/sdk/cpp/plugin/Device.hpp:1047-1064 | what it hands on is given to every sampler attached under its address and to no other, and it reads on if and only if a sampler is left |
| ProtocolThreads.ConnectsUp | Motion Node Software/sdk/cpp/plugin/Device.hpp:618-637 | a new thread that connects says so, reports that it runs, and waits |
| ProtocolThreads.WaitReads | Motion Node Software/sdk/cpp/plugin/Device.hpp:639-650 | a wait that ends with data drops them and the thread goes on to read, a wait that times out is repeated |
| ProtocolThreads.TimeOutWaits | Motion Node Software/sdk/cpp/plugin/Device.hpp:646-671 | a read that times out sends the thread back to waiting and publishes nothing |
| ProtocolThreads.ThrowEnds | Motion Node Software/sdk/cpp/plugin/Device.hpp:674-687 | a blocking call that throws, in any phase, makes the thread say it is no longer connected or reading and set quit, before its final callback |
| ProtocolThreads.QuitEnds | Motion Node Software/sdk/cpp/plugin/Device.hpp:637-687 | a thread told to quit leaves its loop at the next test of the flag |
| ProtocolThreads.QuitWhileWaiting | Motion Node Software/sdk/cpp/plugin/Device.hpp:641-641 | a thread told to quit while it waited does not go on to read, even when data come |
| ProtocolThreads.RefusedQuits | Motion Node Software/sdk/cpp/plugin/Device.hpp:661-672 | a thread whose batch nobody took tells itself to quit, stops reading and leaves its loop |
| ProtocolThreads.FinalEmpty | Motion Node Software/sdk/cpp/plugin/Device.hpp:689-699 | at its end a thread with a callback hands exactly one empty batch to set_data_slot, and one without is done |
| ProtocolThreads.AttachedCameUp | Motion Node Software/sdk/cpp/plugin/Device.hpp:826-858 | in every run a sampler is attached only to a thread that has reported that it runs |
| ProtocolTheorems.PublishesToOwnSamplers | Motion Node Software/sdk/cpp/plugin/Device.hpp:1047-1060 | a thread's batches reach only samplers attached under its own address |
| ProtocolTheorems.NodeLifecycle | Motion Node Software/sdk/cpp/plugin/Device.hpp:819-943 | whenever the mutex is free, a node without samplers has a thread told to quit, or one that sets its quit flag with its next step |
| ProtocolTheorems.SlotReportsSurvivors | Motion Node Software/sdk/cpp/plugin/Device.hpp:1033-1065 | for a live thread's data the slot works on that thread's own node, keeps exactly the samplers that accept, and is true exactly when one does |
| ProtocolTheorems.NextKeepsQuit | Motion Node Software/sdk/cpp/plugin/Device.hpp:637-686 | quit never returns to false, and no other thread's step changes what a quitting thread has begun |
| ProtocolTheorems.BoundedAfterQuit | Motion Node Software/sdk/cpp/plugin/Device.hpp:637-699 | once quit is set, in every continuation the thread begins at most one more data callback and at most one final empty one |
| ProtocolLosses.RefusalEvicts | Motion Node Software/sdk/cpp/plugin/Device.hpp:608-1065 | of all steps of threads and clients, exactly one kind puts an attached sampler out of its node: a publish to that node, the final empty one included, that its queue refuses |
| ProtocolLosses.EvictedExactly | Motion Node Software/sdk/cpp/plugin/Device.hpp:608-1065 | at the end of every run from the start the evicted samplers are exactly those that some step of the run put out so |
| ProtocolTheorems.EvictedForever | Motion Node Software/sdk/cpp/plugin/Device.hpp:1054-1059 | a sampler put out by overflow is never attached again and never given another batch |
| ProtocolTheorems.DeadForever | Motion Node Software/sdk/cpp/plugin/Device.hpp:865-874 | a node emptied by overflow is never removed, and no sampler for its address can be attached again |
| ProtocolLosses.OverflowStrands | Motion Node Software/sdk/cpp/plugin/Device.hpp:608-1065 | of all steps of threads and clients, exactly two kinds leave an address dead, both of the node's own thread: setting quit after a refusal while the node is empty and no client waits for the thread, and publishing with quit set, the final empty batch above all, when every sampler of the node refuses |
| ProtocolLosses.DeadExactly | Motion Node Software/sdk/cpp/plugin/Device.hpp:608-1065 | at the end of every run from the start an address is dead if and only if some step of the run was one of these |
| ProtocolRuns.OverflowHappens | Motion Node Software/sdk/cpp/plugin/Device.hpp:486-501 | from the start, one sampler with any maximum of two or more attached in the ordinary way is evicted after one batch more than fits, and when the thread goes on at once its address is dead, in every continuation |
| ProtocolRuns.AttachedInBetween | Motion Node Software/sdk/cpp/plugin/Device.hpp:661-665 | after the same refusal, another sampler that attaches before the thread sets quit saves the address: it is attached to the quitting node, which is not dead |
| ProtocolRuns.HangUpStrands | Motion Node Software/sdk/cpp/plugin/Device.hpp:690-692 | a queue that is just full, with no batch refused or lost, is enough: when the service hangs up, the final empty batch evicts the sampler and leaves the address dead for good |
| ProtocolJoins.JoinReturns | Motion Node Software/sdk/cpp/plugin/Device.hpp:860-943 | in every reachable state in which a client joins a thread with the mutex held, some continuation frees the mutex if and only if the thread does not stand at set_data_slot, or before its final callback with none left to call |
| ProtocolJoins.DeadlockForever | Motion Node Software/sdk/cpp/plugin/Device.hpp:898-947 | a join of such a thread keeps the mutex in every continuation |
| ProtocolRuns.DetachDeadlocks | Motion Node Software/sdk/cpp/plugin/Device.hpp:927-943 | from the start there is a run in which detaching the last sampler never returns, and no client can attach or detach any more |
| ManagerRefinement.RepresentsValid | Motion Node Software/sdk/cpp/plugin/Device.hpp:789-947 | a manager that stands for a protocol state with the invariant is well formed, and each sampler's id names its own entry |
| ManagerRefinement.ServeNode | Motion Node Software/sdk/cpp/plugin/Device.hpp:1033-1065 | the section of set_data_slot takes a manager that stands for a state to one that stands for the state after the protocol's step, with the same result |
| ManagerRefinement.ServeThread | Motion Node Software/sdk/cpp/plugin/Device.hpp:650-692 | for a thread at set_data_slot, with its data or with the final empty batch, this is the step of that thread, which goes on by the result, so the invariant is kept |
| ManagerRefinement.AttachToNode | Motion Node Software/sdk/cpp/plugin/Device.hpp:789-896 | so does attaching to an address that has a node |
| ManagerRefinement.AttachNewNode | Motion Node Software/sdk/cpp/plugin/Device.hpp:819-893 | attaching to an address without a node is a run of the protocol: the client spawns the thread and stops waiting, and either lists the sampler, or tells the thread to quit and joins it; it succeeds exactly when that run is enabled and the thread came up |
| ManagerRefinement.Detach | Motion Node Software/sdk/cpp/plugin/Device.hpp:898-947 | detaching is the protocol's step and, for a node's last sampler, the run in which its thread goes to its end and the join returns; the state reached has the invariant and a free mutex |
| ManagerRefinement.DetachReturns | Motion Node Software/sdk/cpp/plugin/Device.hpp:927-943 | a detach comes back exactly when it leaves a sampler in the node, or the thread it joins does not stand where a join never ends |
| ManagerRefinement.Take | Motion Node Software/sdk/cpp/plugin/Device.hpp:304-326 | get_data is the protocol's step |
| ManagerRefinement.SetMaximum | Motion Node Software/sdk/cpp/plugin/Device.hpp:417-428 | set_list_maximum is the protocol's step |
| PackedFormat.IdToValueArray | Motion Node Software/sdk/python/MotionSDK.py:691-740 | the greedy cursor loop returns the meaning of the buffer: its items with later ones winning, or nothing when bytes are left over |
| PackedFormat.IdToShortArray | Motion Node Software/sdk/java/Format.java:700-729 | the whole-element loop returns the table of the whole elements, or nothing when bytes are left over |
| PackedFormat.WordsRoundTrip | Motion Node Software/sdk/python/MotionSDK.py:726-730 | values packed as little-endian words are read back |
| PackedTheorems.TwoLoopsOneMeaning | Motion Node Software/sdk/java/Format.java:651-729 | for a fixed positive length the key-skipping loop and the whole-element loop give the same table on every buffer |
| PackedTheorems.FixedAcceptance | Motion Node Software/sdk/python/MotionSDK.py:711-738 | a fixed-length buffer is fully consumed exactly when its size is a multiple of four plus the size of the values, and then means the table of all its elements |
| PackedTheorems.ElementBytes | Motion Node Software/sdk/java/Format.java:700-721 | an element is four bytes of key, least significant first, and a word of the given size for each value |
| PackedTheorems.LastWins | Motion Node Software/sdk/java/Format.java:713-721 | each key has the values of the last element that bears it, and no other key is there |
| PackedTheorems.VariableAcceptance | Motion Node Software/sdk/python/MotionSDK.py:711-738 | a buffer with announced lengths is accepted exactly when it is a sequence of complete arrays and headers that announce nothing or too much, ending with an array at the last byte; it then means its arrays, and anything else means nothing |
| PackedTheorems.VariableRoundTrip | Motion Node Software/sdk/python/MotionSDK.py:691-740 | any non-empty arrays under distinct ids come back exactly |
| FibreColumns.SelectColumns | MATLAB Softtware/luna_CCP4.m:83-102 | the deleting loops leave, in every row alike, the columns of a pure scan of the position row, or stop with an index error |
| FibreColumns.DropRest | MATLAB Softtware/luna_CCP4.m:93-99 | after the last region everything but the last column goes, in every row alike |
| FibreTheorems.SelectionExact | MATLAB Softtware/luna_CCP4.m:83-102 | for positions and regions in order, selection succeeds exactly when a position lies beyond the last region, and keeps exactly the columns in some (initial, final], in order |
| FibreRepair.MendRun | MATLAB Softtware/luna_CCP4.m:110-142 | the search from a bad entry overwrites its whole run from the neighbours of the run, or zeroes the sample |
| FibreRepair.RepairRow | MATLAB Softtware/luna_CCP4.m:106-146 | the repair loop over a sample gives the declared sample, in which each bad entry is made from its nearest good ones, and the count of bad entries |
| FibreRepair.RepairedOnLine | MATLAB Softtware/luna_CCP4.m:135-140 | a bad run between two good entries before the last becomes the straight line through them |
| FibreRepair.RepairedInFront | MATLAB Softtware/luna_CCP4.m:125-129 | a bad run at the front becomes a copy of the first good entry |
| FibreRepair.RepairedBehind | MATLAB Softtware/luna_CCP4.m:130-134 | a bad run that reaches the end becomes a copy of the good entry before it, and a good last entry is kept but never used |
| FibreRepair.SmallSamples | MATLAB Softtware/luna_CCP4.m:110-142 | with fewer than three entries a sample is kept when all are good, an index error when the only one is bad, and zero with both counted as bad otherwise |
| FibreRepair.MendedInBand | MATLAB Softtware/luna_CCP4.m:125-141 | every repaired entry is in band |
| FibreRepair.CountBadIsCardinality | MATLAB Softtware/luna_CCP4.m:143 | the count is the number of bad entries |
| FibreRepair.RepairMeaning | MATLAB Softtware/luna_CCP4.m:105-146 | for three or more entries repair never fails; the sample is zeroed and counted wholly bad exactly when nothing before the last entry is good; otherwise good entries stay, bad ones end between their nearest good neighbours, all is in band and the count is exact |
| FibreRepair.RepairSettles | MATLAB Softtware/luna_CCP4.m:105-146 | repairing a repaired sample changes nothing and finds nothing bad, unless the sample was zeroed and zero is out of band |
| FibreSamples.DropSamples | MATLAB Softtware/luna_CCP4.m:166-179 | the deletion loop cuts all four lists down to the same samples |
| FibreSamples.UsableExact | MATLAB Softtware/luna_CCP4.m:169 | the samples kept are, in order, exactly those that are not mostly bad and have a cycle |
| FibreRegions.SeparateRegions | MATLAB Softtware/luna_CCP4.m:181-202 | the separation loop cuts the columns into consecutive stretches, one per region, or stops with an index error |
| FibreRegions.TakeRegion | MATLAB Softtware/luna_CCP4.m:184-201 | one region takes columns as long as they lie within its closed bounds |
| FibreRegions.RegionHolds | MATLAB Softtware/luna_CCP4.m:188 | although columns are compared with closed bounds, each region gets exactly the columns in its (initial, final] |
| FibreRegions.SeparationSucceeds | MATLAB Softtware/luna_CCP4.m:195-197 | separation succeeds exactly when the last region is not empty |
| FibrePipeline.RepairAll | MATLAB Softtware/luna_CCP4.m:105-149 | every sample is repaired and counted, the position row is not touched |
| FibrePipeline.Principal | MATLAB Softtware/luna_CCP4.m:84-202 | the whole run is the composition of selection, repair, deletion and separation, with every index error as a failure |
| FibreTheorems.RunSucceeds | MATLAB Softtware/luna_CCP4.m:84-202 | a run succeeds exactly when a position lies beyond the last region, the last region has a column, and no sample is out of band at a column that is alone |
| FibreTheorems.RegionPositions | MATLAB Softtware/luna_CCP4.m:183-190 | each region's positions are exactly the measured positions in its (initial, final], in order |
| FibreTheorems.RegionStrain | MATLAB Softtware/luna_CCP4.m:190-193 | each region's strain is, for every surviving sample, the repaired strain at the region's columns, and all of it is in band |
| FibreTheorems.SurvivorsExact | MATLAB Softtware/luna_CCP4.m:166-179 | the survivors are exactly the samples with at most half their entries bad and a load cycle |
| FibreTheorems.SamplesInStep | MATLAB Softtware/luna_CCP4.m:143-179 | each surviving sample keeps its own repaired row, its share of bad entries in percent, cycle and timestamp, behind the positions, which count as wholly bad |
| Linear.Adjoint | MATLAB Softtware/mems_Kalman_postprocess.m:167 | a matrix moves across a dot product as its transpose, for any size |
| Linear.MulApplies | MATLAB Softtware/mems_Kalman_postprocess.m:167 | a product of matrices applies as the composition |
| Elimination.Divisible | MATLAB Softtware/mems_Kalman_postprocess.m:177 | division from the right by a positive definite matrix has a solution, by elimination, for any size |
| Covariance.PrioriIsCovariance | MATLAB Softtware/mems_Kalman_postprocess.m:167 | A P A' + Q is symmetric and positive semidefinite when P and Q are, for any A and any size |
| Covariance.GainForm | MATLAB Softtware/mems_Kalman_postprocess.m:176-177 | what the gain equation says about the quadratic form of the prior covariance |
| Covariance.GainExists | MATLAB Softtware/mems_Kalman_postprocess.m:177 | for positive definite noise the gain equation has a solution |
| Covariance.GainUnique | MATLAB Softtware/mems_Kalman_postprocess.m:177 | it has only one, so the update does not depend on how the division is done |
| Covariance.JosephForm | MATLAB Softtware/mems_Kalman_postprocess.m:181 | (I - K H) P equals Joseph's symmetric form, derived from the gain equation |
| Covariance.PosteriorIsCovariance | MATLAB Softtware/mems_Kalman_postprocess.m:181 | the update keeps the covariance symmetric and positive semidefinite |
| Covariance.PosteriorBelow | MATLAB Softtware/mems_Kalman_postprocess.m:181 | in the order of quadratic forms the posterior lies below the prior and below the measurement noise |
| Covariance.UpdateLowersTrace | MATLAB Softtware/mems_Kalman_postprocess.m:181-184 | the cost is at most the trace of the prior and at most the trace of the measurement noise |
| Kalman.DivisionExists | MATLAB Softtware/mems_Kalman_postprocess.m:177 | a division as the filter needs it exists |
| Kalman.KfNode | MATLAB Softtware/mems_Kalman_postprocess.m:97-190 | the loop over the data file records, per row, rates, quaternion and cost of the filtered estimate; the first row stays zero |
| Kalman.FilterIsPlain | MATLAB Softtware/mems_Kalman_postprocess.m:172-181 | with the identity as measurement matrix the step is the plain gain equation and update |
| Kalman.CovarianceOverRuns | MATLAB Softtware/mems_Kalman_postprocess.m:108-184 | from the all-0.1 start, after any number of rows and whatever is measured, the covariance is symmetric and positive semidefinite, its trace never rises in an update, and the cost never exceeds the trace of the measurement noise |
| Kalman.RatesDamped | MATLAB Softtware/mems_Kalman_postprocess.m:149-153 | the Runge-Kutta prediction damps each rate by the fourth-order Taylor polynomial of exp(-2 dt) |
| Prediction.PredictionExactly | MATLAB Softtware/mems_Kalman_postprocess.m:147-153 | the prediction in closed form, from the state before alone: each rate times one factor, and the quaternion times a quaternion whose scalar and vector parts are explicit polynomials in the squared rate |
| Prediction.RowExactly | MATLAB Softtware/mems_Kalman_postprocess.m:101-182 | every row: from the state before, at rest in the first filtered row, the prediction in closed form, corrected so that for some u it moves by P u and leaves each rate of that row 0.01 u and each quaternion part 0.0001 u away |
| Prediction.PriorExactly | MATLAB Softtware/mems_Kalman_postprocess.m:104-167 | every row: the covariance before the measurement is that of the row before, 0.1 everywhere at the start, carried by the transition at the state before, plus 0.4 (1 - exp(-2 dt / 0.5)) on the three rates |
| Prediction.PosteriorExactly | MATLAB Softtware/mems_Kalman_postprocess.m:176-181 | every row: the covariance after the measurement is the gain times the measurement noise, column by column |
| Kalman.UpdateBalances | MATLAB Softtware/mems_Kalman_postprocess.m:176-179 | the correction balances prediction and measurement: for some u it moves the prediction by P u and leaves the measurement R u away, the optimality condition of the estimate |
| Kalman.NoiseTrace | MATLAB Softtware/mems_Kalman_postprocess.m:113-120 | that bound is 0.0304 |
| Kalman.RateIsHalfProduct | MATLAB Softtware/mems_Kalman_postprocess.m:192-198 | the quaternion rows of the state rate are half the product of quaternion and angular rate |
| Kalman.RateKeepsLength | MATLAB Softtware/mems_Kalman_postprocess.m:192-198 | they are orthogonal to the quaternion |
| Kalman.LinearizationExact | MATLAB Softtware/mems_Kalman_postprocess.m:156-164 | the state rate at x + h is that at x, plus the matrix A at x applied to h, plus half the product of the deviations, exactly |
| Kalman.TransitionExact | MATLAB Softtware/mems_Kalman_postprocess.m:165 | the scaled matrix dt A + I carries a deviation through an Euler step exactly up to the same remainder |
| LeastSquares.BlockMeans | MATLAB Softtware/shape_quad.m:40 | a vector solves the block system exactly when its first part meets the constraints and the first-order conditions, for any matrices |
| LeastSquares.MisfitGrows | MATLAB Softtware/shape_quad.m:40-41 | along the constraints the squared error grows by exactly the squared change of the fit |
| LeastSquares.ConstrainedOptimum | MATLAB Softtware/shape_quad.m:40-41 | a solution of the block system meets the constraints and no other point that meets them fits better, for any matrices |
| LeastSquares.BlockSolvable | MATLAB Softtware/shape_quad.m:40 | the block system is solvable when fit and constraints determine the coefficients and the constraints are independent |
| ShapeQuad.FillSegments | MATLAB Softtware/shape_quad.m:22-33 | the double loop fills both matrices and the data vector cell by cell, with positions and slopes indexed alike and in bounds |
| ShapeQuad.FillConstraints | MATLAB Softtware/shape_quad.m:34-38 | the loop over the joints fills the constraint matrix |
| ShapeQuad.Shape | MATLAB Softtware/shape_quad.m:6-57 | coefficients from the solved system and the merged deflections; an even number of points loses the last, fewer than three is an error |
| ShapeQuad.SensorRow | MATLAB Softtware/shape_quad.m:28-30 | each row of the fit is the slope of its segment at its sensor, and the same row of the other matrix its deflection |
| ShapeQuad.DeflectionIntegratesSlope | MATLAB Softtware/shape_quad.m:28-30 | between any two places the deflection of a segment grows by the integral of its slope |
| ShapeQuad.ConstraintsMean | MATLAB Softtware/shape_quad.m:34-38 | the constraints hold exactly when the deflection is continuous at every joint and zero at the root |
| ShapeQuad.MergedIs | MATLAB Softtware/shape_quad.m:56-57 | whatever the coefficients, each kept deflection is that of the segment its sensor begins, or of the last one at its end |
| ShapeQuad.MergedAgrees | MATLAB Softtware/shape_quad.m:56-57 | every kept deflection is that of each segment its sensor belongs to, and zero at the root |
| ShapeQuad.ShapeIsOptimal | MATLAB Softtware/shape_quad.m:22-42 | when the division solves the system, the beam is continuous and fixed at the root, and no other such beam fits the slopes better, for any number of segments |
| ShapeTheorems.SystemIsRegular | MATLAB Softtware/shape_quad.m:40 | with three different positions in each segment the system has a solution |
| ShapeTheorems.ShapeIsUnique | MATLAB Softtware/shape_quad.m:40-41 | and the best continuous beam is the only one |
| ShapeTheorems.ExactSlopesRecovered | MATLAB Softtware/shape_quad.m:6-42 | slopes measured exactly on a continuous beam give back its coefficients |
| Quaternion.ProdAssociative | MATLAB Softtware/q_prod.m:4-7 | the product is associative |
| Quaternion.SquaredProd | MATLAB Softtware/q_prod.m:4-7 | lengths multiply |
| Quaternion.QuotIsProd | MATLAB Softtware/q_quot.m:4-9 | the quotient is the product with the conjugate over the length, not over its square |
| Fqa.QuotTimesDivisor | MATLAB Softtware/q_quot.m:4-9 | multiplying back leaves the length of the divisor behind: only a unit divisor is undone |
| Rotation.RotationIsPure | MATLAB Softtware/vq.m:3-9 | the scalar part that the rotation drops is always zero |
| Rotation.RotationScales | MATLAB Softtware/vq.m:3-9 | the rotation operator scales lengths by the length of the quaternion |
| Rotation.RotationComposes | MATLAB Softtware/vq.m:3-9 | rotating by a product is rotating by the right factor, then by the left one, for any non-zero quaternions |
| Rotation.MatrixIsRotation | Motion Node Software/sdk/cpp/src/Format.cpp:173-216 | whatever the input, the 3-by-3 block is orthogonal with determinant 1 and the rest is the identity |
| Rotation.RotationAgreement | Motion Node Software/sdk/cpp/src/Format.cpp:187-216 | above the threshold the matrix, scaled by the length of the quaternion, rotates as the operator does |
| Rotation.AgreementExactly | Motion Node Software/sdk/cpp/src/Format.cpp:203-216 | a non-zero quaternion has a matrix that agrees with the operator exactly when it is above the threshold or a pure scalar |
| Rotation.UnitRotation | Motion Node Software/sdk/cpp/src/Format.cpp:203-216 | the matrix of a unit quaternion rotates every vector as the operator does |
| Rotation.IdentityOtherwise | Motion Node Software/sdk/cpp/src/Format.cpp:176-216 | any other number of entries than four, and a squared length of at most 1e-6, give the identity matrix |
| Orientation.HalfAnglesOf | MATLAB Softtware/fqa.m:24-42 | the signed half-angle roots have the given cosine and sine as double angle and unit length |
| Orientation.ElevationAngles | MATLAB Softtware/fqa.m:23-27 | elevation has the measured x component as its sine |
| Orientation.RollAngles | MATLAB Softtware/fqa.m:29-36 | roll brings the measured y component to zero, also when the x axis is vertical |
| Fqa.ElevationForward | MATLAB Softtware/fqa.m:22-27 | the elevation quaternion is the half-angle quaternion about y, with a positive scalar part |
| Fqa.RollForward | MATLAB Softtware/fqa.m:29-41 | the roll quaternion is about x with a scalar part that is not negative, i for half a turn, and one when the x axis is vertical |
| Fqa.RollTurns | MATLAB Softtware/fqa.m:29-41 | otherwise it is the half-angle quaternion of the turn with cosine -z and sine -y over their length |
| Fqa.TiltLevels | MATLAB Softtware/fqa.m:17-41 | elevation after roll takes the measured acceleration to (0, 0, -1) |
| Fqa.AzimuthIsUnit | MATLAB Softtware/fqa.m:52-56 | the azimuth quaternion is a unit quaternion about the vertical, except for the heading exactly opposite to the reference, where it is zero |
| Fqa.HeadingAligned | MATLAB Softtware/fqa.m:46-56 | it takes the horizontal part of the field, as the code turns it, onto the reference heading, keeping its strength and its vertical part |
| Fqa.NorthExactly | MATLAB Softtware/fqa.m:11-15 | the reference heading is 19.1083 north for 0.2264 east |
| Fqa.HeadingExactlyNorth | MATLAB Softtware/fqa.m:46-56 | in numbers: the turned field ends 19.1083 north for 0.2264 east, with its horizontal strength and its vertical part unchanged |
| HeadingTheorems.RightByFields | MATLAB Softtware/fqa.m:46-63 | the orientation takes the measured field onto the reference heading if and only if the field under its own tilt and the field under the inverse of roll times elevation have the same horizontal direction |
| HeadingTheorems.HeadingExactly | MATLAB Softtware/fqa.m:46-63 | for every measurement with a heading, that holds if and only if the field has no z component, or lies in one plane with the z axis and the acceleration and is less steep than the acceleration |
| HeadingTheorems.HeadingReversedExactly | MATLAB Softtware/fqa.m:46-63 | the orientation points the field exactly the other way if and only if the field is in that plane and steeper than the acceleration |
| HeadingTheorems.TiltedFields | MATLAB Softtware/fqa.m:17-49 | for the acceleration (0.6, 0, -0.8) and the field (0, 0, 1) the azimuth is taken from (-0.6, 0, 0.8), while the tilt of the orientation turns the field to (0.6, 0, 0.8) |
| HeadingTheorems.HeadingCanReverse | MATLAB Softtware/fqa.m:46-63 | so there are measurements whose orientation points the field exactly away from the reference heading |
| HeadingTheorems.RowIsRelative | MATLAB Softtware/fqa.m:58-63 | turning a returned row by the azimuth of the first gives the row's own orientation, so what holds of it holds of the rows up to the first heading |
| Fqa.GravityLevelled | MATLAB Softtware/fqa.m:17-63 | each row is a unit quaternion that takes the measured acceleration to (0, 0, -1), or zero for the opposite heading |
| Fqa.FirstRowIsTilt | MATLAB Softtware/fqa.m:58-63 | the first row sets the heading: its orientation is its tilt alone |
| Fqa.Fqa | MATLAB Softtware/fqa.m:1-64 | the loop gives every row relative to the azimuth of the first, and each one is levelled or lost |

## Left out

- Socket creation, address parsing, socket options, time-out values and Winsock: a connection is a schedule of received and sent events, and whether shutting the socket succeeds is a constant of the environment.
- The texts of error messages, and the zeroing of the receive buffer on closing.
- The 1024-byte limit of one receive: chunks of any positive size are allowed, which includes it.
- ManagerSide.Manager.Attach: the failures that throw in the exceptions build are its result false, and whether the new thread reports a connection in time is a parameter; Protocol interleaves the two.
- ManagerSide.Manager.Detach: joining the thread is not a wait inside this method; Protocol has the join as a blocking step, and ManagerRefinement.Detach takes the two together.
- ManagerRefinement.Detach: nothing is promised of the call when the joined thread is stuck, since it does not come back.
- Fairness: that a join can return is proved, not that a scheduler lets the thread run, nor that its blocking reads end.
- The unsynchronised access to the data callback of a reader: read and written as a whole, each access in one step.
- The destructor of the manager, time-outs of the running flag, samplers copied by the user, callbacks from `set_data`, and the XML string in the shared state.
- The unbuffered build and filtering by node id.
- PackedFormat.IdToValueArray: ids and lengths are unbounded naturals from four bytes, without the 32-bit wrap-around of the Java product; values are words, not decoded to floats or signed shorts, and in little-endian order, which for the values the Python code leaves to the machine; the factory that wraps the values is left out.
- The C# parser, which fails on empty results and repeated ids.
- FibrePipeline.Principal: reading the file and replacing invalid values are left out; the positions row, the time stamps (one per sample) and the region bounds (at least one region) are given; the cycle of a sample is a parameter.
- In the strain repair, the test for a wholly bad sample inside the search repeats the guard around it and is not a branch of its own.
- A region to which no column was assigned is an empty region here; in the script its fields may be missing.
- Kalman.KfNode: reading, scaling and sign changes of the measured columns are left out; rates and sensed quaternions are given row by row, and exp(-2 dt / 0.5) is a parameter between 0 and 1.
- Euler angles, relative orientation to the reference node and output files of the post-processing script.
- ShapeQuad.Shape: the beam drawn in the plot is left out; positions and slopes have the same length.
- Fqa.Fqa: rows with zero acceleration, zero field or a turned field that is exactly vertical, where the script divides by zero, and a first row whose heading is exactly opposite to the reference, are excluded by precondition.
- The singular elevation handling that is commented out in the orientation script.
- Rounding: all arithmetic is over exact reals.
- The cubic and quartic shape scripts, the unscented filter, fitting and smoothing, plots, graphics, COMSOL models, import scripts and the Lua, JavaScript and Java user interfaces.
