# ReactiveSocket, modelled in Dafny

This project models the stateful parts of the ReactiveSocket client and server library and proves what they keep.
It follows the library from the bottom up.

| part of the library | files |
|---|---|
| frame writers and parser | `Bytes`, `Frames`, `Writers`, `Parsing`, `Parser`, `RoundTrip`, `Layouts` |
| reassembly of frames from chunks, and the wire path from end to end | `Framing`, `Pipeline` |
| latency estimation | `Medians`, `SlidingMedian`, `WeightedSocket` |
| streams and connections as a protocol between two ends | `Endpoints`, `Protocol`, `Effects`, `Delivery`, `ReactiveSocket` |
| connection pool | `Pools`, `TcpLoadBalancer` |
| load balancer | `Selection`, `LoadBalancer` |
| draining and retrying wrappers | `Draining`, `ReEnqueue` |

`Results` holds `Option` and `Result`, `Numbers` a few functions on numbers. Code that updates objects in place is a class
whose methods are proved against functions on values; what the library promises is proved about those functions, mostly
for whole runs.

## Main results

- **Wire path.** The seven writers fill their buffer with exactly `Frames.Encode` of the frame, which has every number
  big-endian at its place. A written frame comes back complete if and only if it is `Faithful`, a test on the frame
  itself; and it is stated for all bytes which of them the parser accepts, and with which error it rejects the others. The framing stream pushes, after every
  chunk, exactly the complete frames received so far. Together: any list of frames, cut into chunks anywhere, is
  delivered complete and in order, and before the end what has been delivered is a prefix of what was sent.
- **Estimation.** Insertion into the ring, with its aliased slots and negative indices, is insertion into a sorted
  window. The constant-time sum of request ages is the sum over the outstanding requests, on every run.
- **Protocol.** Two ends with a first-in first-out channel in each direction, with timeouts, cancels from either side,
  late and repeated answers, errors of every code, and loss of the transport, without any restriction on the runs:
  responses are genuine, ids are never used twice, no request overtakes SETUP, and it is stated exactly when a request
  terminates twice, when it terminates without an outcome, and what a late frame does. Nothing is lost: what an end has
  sent while its connection was open is under way or has had its effect, and timeouts reach the peer. What each step of
  a run sends, announces, remembers and hands over is stated without the handlers.
- **Pools.** Every state the connection pool reaches is saturated, also when connections close in the middle of a change
  of the host list, and every host is in exactly one of four places, one of which is being lost. The balancer's mutual
  recursion ends, meets its target, keeps its bounds, and accounts for every factory; under sustained load its target
  reaches the bound it should.
- **Wrappers.** How often a draining socket closes, and when it is available, is stated exactly for every run with one
  close; retries are invisible to the caller, whatever the underlying streams do.

## Where the code does less than it says

Each of these is a property that fails of the code. The model keeps the code as it is, and lemmas say for all inputs or
runs when the property does hold, and show that it does fail.

- A METADATA flag without metadata makes the parser take data for metadata; a lease or cancel loses its data, a
  keepalive its metadata (`RoundTrip.RoundTripExactly`).
- `lib/streams/parseStream.js:51` passes the encodings to `parse` in the opposite order of
  `lib/protocol/frame/parseFrame.js:31` (`Pipeline.EncodingsSwapped`).
- A request terminates twice if and only if the peer cancels it and its timer fires afterwards
  (`Protocol.RequestLifetime`; a run: `Protocol.CancelledByResponder`).
- A request ends without an outcome if and only if what ends it is a cancel or a CONNECTION_ERROR of the peer
  (`Protocol.EndsSilently`; a run: `Protocol.ConnectionErrorIsSilent`). CONNECTION_ERROR is announced on the connection only.
- A late error is harmless if and only if its code is one of the five that concern the stream. Setup and connection
  errors close the connection unless the application listens for them there; any other code is emitted as 'error' on a
  stream that nobody can listen to, and is thrown (`Protocol.LateFramesExactly`; runs: `Protocol.LateErrorArrives`).
- After the first change of the host list the host of a closed connection is compared by reference with copies, is not
  put back on the free list, and stays lost until the list drops it (`Pools.CloseLosesHost`, `Pools.LostWhileListed`; a
  run: `Pools.HostsGetLost`).
- An error or close of a socket that is no longer in the balancer adds its factory a second time
  (`Balancing.LoadBalancer.OnSocketError`), which one error of an idle socket brings about
  (`Balancing.LoadBalancer.OnErrorOfIdleSocket`); a failed build loses its factory
  (`Balancing.LoadBalancer.OnBuildError`).
- A close without callback, which is how the balancer closes its sockets, waits for the drain timer even when every
  request has terminated; one with a callback closes the underlying socket again whenever later requests have terminated
  (`Draining.DrainExactly`), and reports no availability ever after (`Draining.AvailabilityExactly`). Without later
  requests the underlying close runs at most once if and only if there is no second close (`Draining.AtMostOnceExactly`;
  runs: `Draining.ClosesTwice`).

Where code and comments disagree the model follows the code:

- The comment above `lib/connection/reactiveSocket.js:130` gives even ids to clients and odd ones to servers; the code
  does the opposite.
- The comment on `cancel` (`lib/connection/stream.js:159-165`) says later responses are ignored; they are not
  (`Protocol.AbandonedIsAnswered`).

## Conventions

- On the wire, metadata, data and encoding names are byte sequences, in the protocol they are strings; an absent one is
  the empty one.
- Clocks, random choices, reported latencies and availabilities, and the moment a timer fires are arbitrary. What the
  balancer reads at one moment is a parameter, `Balancing.Readings`; latencies and availabilities are not negative, and
  during one selection a candidate reports the same each time it is asked.
- Times and loads are real numbers. A shift by one is division rounded down, a mask is the remainder, within the
  32-bit range of the source's indices.
- `Draining`, `ReEnqueue`, `WeightedSocket` and `LoadBalancer` assume that a stream below them terminates once, which
  `Protocol.RequestLifetime` proves of every request but those the peer cancels and whose timer fires afterwards.
- An error thrown out of a handler halts its end for good, as an uncaught exception ends a Node process. What an end
  writes after it closed its connection, or after its transport closed, goes nowhere.
- Ghost fields, and the `lost` hosts of a pool, record what no field of the source does, so that properties can be stated.

## Model

| member | source | states |
|---|---|---|
| Bytes.ReadBackU16 | lib/protocol/frame/parseFrame.js:119-125 | a two-byte integer written big-endian anywhere in a buffer is read back |
| Bytes.ReadBackU32 | lib/protocol/frame/parseFrame.js:107-129 | the same for four bytes |
| Bytes.ReadsBigEndian | lib/protocol/frame/parseFrame.js:107-129 | what is read at a place is the big-endian number of the bytes there |
| Bytes.WritesBigEndian | lib/protocol/frame/writeFrameHeader.js:21-24 | the bytes written for a number are that number, big-endian |
| Frames.WithMetadataFlag | lib/protocol/frame/getSetupFrame.js:40-44 | adding METADATA sets that flag, leaves the shared flag alone, and changes nothing if it was set |
| Frames.FlagBits | lib/protocol/constants/index.js:9-20 | the two flags that are tested are the second and third highest of the sixteen bits |
| Frames.HasWriter | lib/streams/serializeStream.js:54-86 | the seven types that have a writer, by number |
| Frames.Encode | lib/protocol/frame/computeFrameLength.js:16-54 | the wire image is exactly as long as the computed frame length |
| Frames.WritingTwice | lib/protocol/frame/getReqResFrame.js:36-45 | a writer changes the frame object, but writing the changed object gives the same bytes and changes it no further |
| Frames.SizeIgnoresHeader | lib/protocol/frame/computeFrameLength.js:16-54 | the size does not depend on flags, stream id or the old length, so the writers may compute it last |
| Writers.ComputeFrameLength | lib/protocol/frame/computeFrameLength.js:16-54 | the size is the length of header, type fields and payload; four bytes more for the three types that no writer produces |
| Writers.WriteFrameHeader | lib/protocol/frame/writeFrameHeader.js:14-26 | twelve bytes follow what was already written: length, type, flags, stream id |
| Writers.WriteMetadata | lib/protocol/frame/writeFrameData.js:23-35 | the metadata, if any, follows what was already written, behind a length that counts itself |
| Writers.WriteFrameData | lib/protocol/frame/writeFrameData.js:16-45 | the payload follows what was already written and ends exactly at the end of the buffer |
| Writers.StampFrame | lib/protocol/frame/getSetupFrame.js:46-49 | the frame object is completed and otherwise unchanged |
| Writers.BeginFrame | lib/protocol/frame/getSetupFrame.js:51-53 | the buffer has the size of the wire image, and its written part, the type fields and the payload make up that image |
| Writers.WriteEncodingName | lib/protocol/frame/getSetupFrame.js:66-76 | a name follows what was already written, behind its length byte |
| Writers.WriteSetupFields | lib/protocol/frame/getSetupFrame.js:54-76 | version, intervals and both names follow what was already written |
| Writers.GetSetupFrame | lib/protocol/frame/getSetupFrame.js:27-82 | the buffer is filled with the wire image of a SETUP frame, nothing missing and nothing over; the frame object is completed |
| Writers.GetErrorFrame | lib/protocol/frame/getErrorFrame.js:26-53 | the same for ERROR |
| Writers.GetLeaseFrame | lib/protocol/frame/getLeaseFrame.js:22-47 | the same for LEASE |
| Writers.GetReqResFrame | lib/protocol/frame/getReqResFrame.js:25-55 | the same for REQUEST_RESPONSE |
| Writers.GetResponseFrame | lib/protocol/frame/getResponseFrame.js:23-52 | the same for RESPONSE |
| Writers.GetKeepaliveFrame | lib/protocol/frame/getKeepaliveFrame.js:23-43 | the same for KEEPALIVE |
| Writers.GetCancelFrame | lib/protocol/frame/getCancelFrame.js:22-42 | the same for CANCEL |
| Parser.ParseHeader | lib/protocol/frame/parseFrame.js:107-147 | the header is read, or the read past the end or the length mismatch is reported |
| Parser.ParseSetupFrame | lib/protocol/frame/parseFrame.js:180-231 | setup fields, both encodings and the new position, or the error, for any bytes |
| Parser.ParseErrorCode | lib/protocol/frame/parseFrame.js:149-174 | the code after the header, or the error |
| Parser.ParseLeaseFrame | lib/protocol/frame/parseFrame.js:234-241 | time to live, budget and metadata, or the error |
| Parser.ParseKeepaliveFrame | lib/protocol/frame/parseFrame.js:243-248 | the response flag and the data |
| Parser.ParseMetadata | lib/protocol/frame/parseFrame.js:250-266 | metadata under its flag, for any length prefix, also one smaller than the prefix itself |
| Parser.ParseData | lib/protocol/frame/parseFrame.js:268-277 | everything from the position to the end |
| Parser.ParseBody | lib/protocol/frame/parseFrame.js:50-87 | the dispatch on the type, with both ways to reject one |
| Parser.Parse | lib/protocol/frame/parseFrame.js:31-91 | for any bytes: the parsed object, or the error, of the parse relation the round trip is about |
| RoundTrip.HeaderReads | lib/protocol/frame/parseFrame.js:107-147 | the length check never rejects a written frame, and the header comes back |
| RoundTrip.MetadataReads | lib/protocol/frame/parseFrame.js:250-266 | metadata written under its flag comes back, and the position is where the data starts |
| RoundTrip.PayloadReads | lib/protocol/frame/parseFrame.js:250-277 | when flag and payload agree both parts come back |
| RoundTrip.FlagWithoutMetadata | lib/protocol/frame/parseFrame.js:255-263 | a flag without metadata is harmless if and only if the data starts with four zero bytes |
| RoundTrip.SetupReads | lib/protocol/frame/parseFrame.js:180-231 | the setup fields written are the setup fields read |
| RoundTrip.LeaseReads | lib/protocol/frame/parseFrame.js:234-238 | time to live and budget written are read back |
| RoundTrip.Layout | lib/protocol/frame/writeFrameData.js:16-45 | where type fields and payload sit in a written frame |
| RoundTrip.WrittenParses | lib/protocol/frame/parseFrame.js:48-90 | parsing a written frame is parsing its payload with all other fields recovered |
| RoundTrip.PayloadExactly | lib/protocol/frame/parseFrame.js:250-277 | metadata and data come back if and only if the frame is faithful |
| RoundTrip.RoundTripExactly | lib/protocol/frame/parseFrame.js:31-91 | for every writable frame of the seven types: type, flags, stream id, length, type fields, metadata and data all come back, as `RoundTrip.SentAsStated` says they were sent, if and only if the frame is faithful |
| RoundTrip.SentAsStated | lib/protocol/frame/getResponseFrame.js:38-46 | on the wire, stream id 0 for SETUP, LEASE and KEEPALIVE and the caller's for the others; the caller's flags for SETUP, REQUEST_RESPONSE and RESPONSE and none for the others; METADATA with metadata |
| Layouts.FitsIsSerializable | lib/protocol/frame/computeFrameLength.js:16-54 | every frame of the seven types whose numbers fit their fields can be written |
| Layouts.WireLayout | lib/protocol/frame/writeFrameHeader.js:14-26 | the position of every number and string of a written frame, each number big-endian |
| Layouts.StampedIsWritten | lib/protocol/frame/getResponseFrame.js:38-48 | the frame object a writer leaves behind has the length, flags and stream id that were written, and is otherwise unchanged |
| Layouts.KeepaliveBytes | lib/protocol/frame/getKeepaliveFrame.js:23-43 | one frame, byte for byte |
| Layouts.HeaderStepExactly | lib/protocol/frame/parseFrame.js:107-147 | for all bytes, the header is accepted if and only if there are twelve and the first four give the length; its numbers, or the error |
| Layouts.AcceptsExactly | lib/protocol/frame/parseFrame.js:31-91 | for all bytes: they are accepted if and only if the length field is right, the type is one of the seven, and the fixed fields are there; otherwise which error is reported |
| Framing.Split | lib/streams/framingStream.js:66-78 | after cutting, no complete frame is left at the front |
| Framing.SplitResumes | lib/streams/framingStream.js:66-78 | cutting can be resumed: the frames do not depend on where a chunk ended |
| Framing.SoundResumes | lib/streams/framingStream.js:66-78 | well-formed lengths stay well-formed in what is left over |
| Framing.SplitConserves | lib/streams/framingStream.js:79-138 | frames and rest together are the bytes received |
| Framing.SplitOfFrames | lib/streams/framingStream.js:66-78 | a list of frames that start with their own length is recovered from its bytes, with the start of the next frame left over |
| Framing.SplitExactly | lib/streams/framingStream.js:79-138 | the cut is the only way to write the bytes as frames that carry their own length, followed by a rest that does not start with one |
| Framing.FramesAreSound | lib/streams/framingStream.js:66-78 | such a list has well-formed lengths |
| Framing.FramingStream.constructor | lib/streams/framingStream.js:38-55 | nothing received, nothing pushed, nothing buffered |
| Framing.FramingStream.StartFrame | lib/streams/framingStream.js:83-107 | with nothing buffered: progress is made, and one frame is pushed or none |
| Framing.FramingStream.FinishLength | lib/streams/framingStream.js:108-123 | with part of a length buffered: no byte is lost, and the length becomes known or the chunk ends |
| Framing.FramingStream.ContinueFrame | lib/streams/framingStream.js:124-137 | with a known length: progress is made, and the frame is pushed when complete |
| Framing.FramingStream.Advance | lib/streams/framingStream.js:80-137 | the assertion on line 111 holds; an iteration that consumes nothing makes the length known, so the loop ends |
| Framing.FramingStream.Consume | lib/streams/framingStream.js:79-138 | the loop ends with all frames of the chunk pushed |
| Framing.FramingStream.Transform | lib/streams/framingStream.js:60-140 | after every chunk the frames pushed so far are exactly the complete frames in the bytes received so far, and the buffer holds the rest |
| Pipeline.SerializeStream.Transform | lib/streams/serializeStream.js:50-92 | the wire image with this stream's encodings is pushed; a type without writer is reported and pushes nothing |
| Pipeline.SerializeStream.SetEncoding | lib/streams/serializeStream.js:102-115 | an encoding learnt later never replaces a configured one, unless that is empty |
| Pipeline.ParseStream.Transform | lib/streams/parseStream.js:49-54 | the chunk is parsed with the two encodings exchanged |
| Pipeline.ParseStream.SetEncoding | lib/streams/parseStream.js:64-77 | an encoding learnt later never replaces a configured one, unless that is empty |
| Pipeline.EncodingStays | lib/streams/parseStream.js:64-77 | on every run of SETUP frames, an encoding that is not empty is never replaced |
| Pipeline.FirstEncodingTaken | lib/streams/parseStream.js:64-77 | without one, the first that is not empty is taken, and kept |
| Pipeline.EncodingsSwapped | lib/streams/parseStream.js:51-51 | a parsed frame carries the right encodings if and only if it is a SETUP or the two encodings are equal |
| Pipeline.EncodedIsFrame | lib/protocol/frame/writeFrameHeader.js:14-26 | a written frame starts with its own length |
| Pipeline.EndToEnd | lib/streams/framingStream.js:60-140 | any list of frames, serialized, joined, cut into chunks anywhere, framed and parsed: as many results, in order, each complete if and only if that frame is faithful, and nothing left over |
| Pipeline.PrefixDelivered | lib/streams/framingStream.js:60-140 | at any moment the frames delivered are a prefix of the frames sent |
| Pipeline.Send | lib/streams/serializeStream.js:50-92 | the sending stream emits the wire images of the frames in order |
| Pipeline.ReceiveChunk | lib/connection/reactiveSocket.js:243-254 | after each chunk everything pushed has been parsed, in order |
| Pipeline.Receive | lib/connection/reactiveSocket.js:243-254 | the receiving streams yield the parsed frames of the joined chunks |
| Medians.InsertSorts | lib/common/slidingMedian.js:33-66 | inserting keeps the window sorted |
| Medians.InsertContents | lib/common/slidingMedian.js:33-66 | inserting adds exactly the value |
| Medians.SlideExactly | lib/common/slidingMedian.js:33-66 | the window stays sorted and bounded; its contents change by the new value and, once full, by its minimum if the value is above the estimate and by its maximum otherwise |
| Medians.EstimateMovesTowards | lib/common/slidingMedian.js:33-83 | each insertion leaves the estimate between its old value and the inserted one |
| Medians.RunKeepsWindow | lib/common/slidingMedian.js:33-66 | on every run the window is a sorted part of everything inserted, and all of it until it is full |
| Medians.EstimateIsRank | lib/common/slidingMedian.js:74-83 | until the window is full the estimate is the element of rank n/2 of everything inserted |
| Medians.EstimateIsMiddle | lib/common/slidingMedian.js:74-83 | on every run, full or not, the estimate is the element of rank n/2 of the window |
| MedianRing.Slot | lib/common/slidingMedian.js:38-38 | a logical index, also a negative one, has a slot in the ring |
| MedianRing.SlotIsRemainder | lib/common/slidingMedian.js:19-19 | that slot is the remainder by the size |
| MedianRing.SlotsDiffer | lib/common/slidingMedian.js:33-66 | indices less than a turn apart never share a slot |
| MedianRing.SlotsAlias | lib/common/slidingMedian.js:50-64 | indices a turn apart do: in a full ring the new end is the slot of the evicted element |
| MedianRing.SlidingMedian.constructor | lib/common/slidingMedian.js:13-23 | an empty window for any power of two |
| MedianRing.SlidingMedian.Search | lib/common/slidingMedian.js:100-112 | the binary search ends where all before are smaller and none after is |
| MedianRing.SlidingMedian.MoveUp | lib/common/slidingMedian.js:114-118 | every element from the insertion point on is one place higher, the others where they were |
| MedianRing.SlidingMedian.MoveDown | lib/common/slidingMedian.js:149-153 | the mirror image |
| MedianRing.SlidingMedian.PlaceUp | lib/common/slidingMedian.js:47-55 | the ring holds the window with the value spliced in; of a full one only the first element is lost |
| MedianRing.SlidingMedian.PlaceDown | lib/common/slidingMedian.js:56-65 | the mirror image: only the last element is lost |
| MedianRing.SlidingMedian.InsertRight | lib/common/slidingMedian.js:46-55 | above the estimate the ring does what the sorted window does |
| MedianRing.SlidingMedian.InsertLeft | lib/common/slidingMedian.js:56-65 | otherwise as well |
| MedianRing.SlidingMedian.Insert | lib/common/slidingMedian.js:33-66 | the ring refines the sorted window: after any insertion it holds the slid window |
| MedianRing.SlidingMedian.Estimate | lib/common/slidingMedian.js:74-83 | the middle of the window, 0 when it is empty |
| Weighted.InstantaneousIsAges | lib/connection/weightedSocket.js:47-50 | the constant-time formula is the sum of the ages of the outstanding requests; 0 when there is none |
| Weighted.StartKeepsBooks | lib/connection/weightedSocket.js:52-60 | a new request keeps the books right |
| Weighted.EndKeepsBooks | lib/connection/weightedSocket.js:64-72 | a request that ends, in any order, keeps the books right |
| Weighted.BooksAlwaysRight | lib/connection/weightedSocket.js:47-117 | on every run of requests, ends and idle decays the formula is the sum of the ages |
| Weighted.AgesAreAges | lib/connection/weightedSocket.js:47-50 | the ages add up to the present time for each outstanding request, less their start times |
| Weighted.WeightedSocket.constructor | lib/connection/weightedSocket.js:33-43 | balanced books, empty history |
| Weighted.WeightedSocket.Incr | lib/connection/weightedSocket.js:52-60 | the request is outstanding from now on; books and stamps updated |
| Weighted.WeightedSocket.Decr | lib/connection/weightedSocket.js:64-72 | the request is no longer outstanding; books updated |
| Weighted.WeightedSocket.Request | lib/connection/weightedSocket.js:81-93 | the request is outstanding, its start time remembered |
| Weighted.WeightedSocket.OnResponse | lib/connection/weightedSocket.js:84-88 | the round trip time, never negative, goes into the median |
| Weighted.WeightedSocket.OnTerminate | lib/connection/weightedSocket.js:89-91 | the request is no longer outstanding |
| Weighted.WeightedSocket.Loaded | lib/connection/weightedSocket.js:118-129 | under load the weight is at least the median and at least the mean age, and equal to one of them; nothing is divided by zero |
| Weighted.WeightedSocket.Idle | lib/connection/weightedSocket.js:109-117 | idle for long: the median decays by at most a fifth, and the books stay right |
| Weighted.WeightedSocket.GetPredictedLatency | lib/connection/weightedSocket.js:95-132 | never negative; without history 0, or the penalty and the number of requests; idle for longer than the period, a decay by at most a fifth that restarts the clock; otherwise the larger of median and mean age; history, books and clock change only when the median decays |
| Weighted.WeightedSocket.Unknown | lib/connection/weightedSocket.js:102-108 | without history, 0 for a first request and otherwise the penalty 2^52 - 1 and the number outstanding |
| Weighted.DecayBounds | lib/connection/weightedSocket.js:113-117 | inserting four fifths of the estimate leaves the new estimate between that and the old one |
| Sockets.RSStream.SetResponse | lib/connection/stream.js:213-252 | nothing after a timeout; otherwise the timer stops, the response grows, and response and terminate are announced |
| Sockets.RSStream.SetError | lib/connection/stream.js:299-359 | nothing after a timeout; otherwise the timer stops; an error of the connection is reported there; an unlisted one is thrown, before the stream terminates, if nobody listens; in all other cases the error, unless it concerns the connection only, and terminate are announced |
| Sockets.RSStream.SetCancel | lib/connection/stream.js:367-372 | cancel and terminate are announced, the timer goes on |
| Sockets.StreamTable.constructor | lib/connection/reactiveSocket.js:126-132 | last id and setup stream of a new client or server |
| Sockets.StreamTable.GetStream | lib/connection/reactiveSocket.js:634-647 | the stream in the table, or a fresh one put there, to which nobody listens |
| Sockets.StreamTable.DeleteStream | lib/connection/reactiveSocket.js:650-654 | the stream leaves the table, the others stay |
| Sockets.StreamTable.GetNewStream | lib/connection/reactiveSocket.js:610-631 | a fresh stream with its timer running, under the next id of this end's parity |
| Sockets.StreamTable.Expires | lib/connection/stream.js:101-109 | timeout and terminate are announced and the table forgets the stream in between; no other request changes |
| Sockets.StreamTable.Serve | lib/connection/reactiveSocket.js:542-550 | the connection listens to the stream of the peer's request; no own request changes |
| Sockets.StreamTable.TellResponse | lib/connection/reactiveSocket.js:553-568 | the stream found is told and forgotten; at most that one request changes |
| Sockets.StreamTable.TellCancel | lib/connection/reactiveSocket.js:580-588 | the same for a cancel |
| Sockets.StreamTable.TellAndForget | lib/connection/reactiveSocket.js:570-578 | the same for an error; a thrown one leaves its stream in the table, and is thrown exactly for an unlisted code on a stream without listeners |
| Sockets.StreamTable.CloseStream | lib/connection/reactiveSocket.js:159-171 | one stream is told; a stream of the peer leaves the table, an own one stays |
| Sockets.StreamTable.CloseAll | lib/connection/reactiveSocket.js:152-175 | every stream but the setup stream is told, no other is, whatever the order |
| Sockets.ReactiveSocket.constructor | lib/connection/reactiveSocket.js:109-132 | the initial endpoint; a client has sent SETUP |
| Sockets.ReactiveSocket.Announce | lib/connection/reactiveSocket.js:145-149 | an error announced on the connection closes it unless somebody listens |
| Sockets.ReactiveSocket.Request | lib/connection/reactiveSocket.js:317-341 | refines the endpoint's request: stream, timer, table entry, frame sent |
| Sockets.ReactiveSocket.OnTimeOut | lib/connection/stream.js:101-109 | refines the endpoint's timeout: cancel sent, timeout and terminate announced, table entry gone |
| Sockets.ReactiveSocket.Respond | lib/connection/stream.js:119-133 | refines the endpoint's answer |
| Sockets.ReactiveSocket.HandleRequest | lib/connection/reactiveSocket.js:532-551 | refines the endpoint's reception: ignored by a server before SETUP, served otherwise |
| Sockets.ReactiveSocket.HandleResponse | lib/connection/reactiveSocket.js:553-568 | refines the endpoint's reception: at most the one request is touched |
| Sockets.ReactiveSocket.HandleError | lib/connection/reactiveSocket.js:570-578 | refines the endpoint's reception of any error: whether it is announced on the connection, closes it, or is thrown; at most the one request is touched |
| Sockets.ReactiveSocket.HandleCancel | lib/connection/reactiveSocket.js:580-588 | the same for a cancel |
| Sockets.ReactiveSocket.HandleSetup | lib/connection/reactiveSocket.js:466-509 | set up once; a second SETUP, or one to a client, is rejected with an error of the connection and changes no request |
| Sockets.ReactiveSocket.OnTransportClose | lib/connection/reactiveSocket.js:152-175 | every stream in the table but the setup stream is told, no other is, whatever the order |
| Protocol.AskKeeps | lib/connection/reactiveSocket.js:317-341 | making a request keeps the invariant between the two ends |
| Protocol.TimeOutKeeps | lib/connection/stream.js:101-109 | so does a timeout |
| Protocol.AbandonKeeps | lib/connection/stream.js:166-177 | so does a cancel by the requester |
| Protocol.CancelPeerKeeps | lib/connection/stream.js:166-177 | so does a cancel by the responder |
| Protocol.AnswerKeeps | lib/connection/stream.js:119-133 | so does an answer, late or repeated ones included |
| Protocol.RefuseKeeps | lib/connection/stream.js:144-157 | so does an answer with an error |
| Protocol.HearKeeps | lib/connection/reactiveSocket.js:197-238 | so does receiving any frame the peer can have sent |
| Protocol.LoseKeeps | lib/connection/reactiveSocket.js:152-175 | so does losing the transport |
| Protocol.StepKeepsInv | lib/connection/reactiveSocket.js:152-341 | every step at either end keeps the invariant |
| Protocol.RunKeepsInv | lib/connection/reactiveSocket.js:127-341 | hence every state of every run satisfies it |
| Protocol.ResponsesAreGenuine | lib/connection/reactiveSocket.js:532-568 | on every run a response event carries a payload the peer's application gave for that request, which it was handed as it was made |
| Protocol.RequestLifetime | lib/connection/stream.js:101-372 | on every run each request is untouched with its timer armed and its stream in the table, or has ended: it has terminated twice if and only if it was cancelled and then timed out, and once otherwise; its timer is armed only between the two; it has one outcome, unless all it saw is terminate, or a cancel without a timeout |
| Protocol.TableIsPending | lib/connection/reactiveSocket.js:553-588 | until its transport closes, and as long as no error has been thrown, the own ids in an end's table are exactly the unresolved requests |
| Protocol.EndsSilently | lib/connection/stream.js:299-372 | on every run, at the step that ends it, a request ends without an outcome if and only if that step is the reception of its cancel or of a CONNECTION_ERROR for it |
| Protocol.EndedForGood | lib/connection/stream.js:101-109 | on every run, once a request has ended nothing more happens to it, but for the timer of a cancelled one |
| Protocol.CancelThenTimeOut | lib/connection/stream.js:367-372 | in every reachable state, a cancel received for a pending request terminates it with its timer armed, and the timer terminates it again |
| Protocol.CancelledByResponder | lib/connection/stream.js:166-177 | there is a run in which this happens |
| Protocol.ConnectionErrorIsSilent | lib/connection/stream.js:323-332 | there is a run in which a request ends with terminate alone, and the connection closes itself |
| Protocol.AbandonedIsAnswered | lib/connection/stream.js:159-177 | there is a run in which a request its requester has cancelled gets its response all the same |
| Protocol.IdsAreFresh | lib/connection/reactiveSocket.js:610-631 | the next id was never used by either end, and the ids of the two ends never meet |
| Protocol.RequestsAreServed | lib/connection/reactiveSocket.js:259-292 | no request reaches the server before SETUP; each is handed over at most once, as it was made |
| Protocol.LateFramesExactly | lib/connection/reactiveSocket.js:553-578 | on every run, a response or error for a request that has ended changes nothing if and only if it is a response or its code is 0x201 to 0x204 or 0xFFFFFFFF; a code of the connection closes it unless the application listens; any other is thrown; no request changes in any case |
| Protocol.LateErrorArrives | lib/connection/reactiveSocket.js:634-647 | for every code there is a run in which such an error arrives late, with exactly that effect |
| Effects.SendsExactly | lib/connection/stream.js:101-177 | on every run, what each step sends: a timeout and either cancel one CANCEL, a request one REQUEST under the next id, an answer one RESPONSE or ERROR, anything else nothing; after a close nothing |
| Effects.PeerUntouched | lib/connection/reactiveSocket.js:197-238 | a step changes nothing at the peer, and of what is under way to its own end only the frame it hears |
| Effects.NewsExactly | lib/connection/stream.js:101-372 | on every run, exactly the events each step adds to those of each request |
| Effects.AskExactly | lib/connection/reactiveSocket.js:317-341 | on every run, only a request adds a stream: untouched, armed, under the next id, with its payload remembered |
| Effects.FragmentsJoin | lib/connection/stream.js:213-252 | of several fragments told to one stream, each response event carries everything that has come so far |
| Effects.ExpiredIsDeaf | lib/connection/stream.js:213-219 | after a timeout fragments change nothing |
| Effects.TableExactly | lib/connection/reactiveSocket.js:542-588 | on every run, whether an id is in the stream table after each step: an answer takes the id of the peer's request off the table, and so on for every step and frame |
| Effects.HandedExactly | lib/connection/reactiveSocket.js:259-292 | on every run, what each step hands to the application, and which answers are on record |
| Effects.NoRequestIsEarly | lib/connection/reactiveSocket.js:532-551 | on no run is a request ignored: each one heard is handed over, for the first time |
| Effects.EarlyRequest | lib/connection/reactiveSocket.js:532-551 | in any state, a request changes nothing at a server that is not set up, and is handed over otherwise |
| Effects.ConnectionExactly | lib/connection/stream.js:299-359 | on every run, when an error is announced on the connection, closes it, or is thrown, by the number of its code |
| Effects.ErrorElsewhere | lib/connection/reactiveSocket.js:570-578 | in any state, what an error does that is not about a request of this end |
| Effects.SecondSetup | lib/connection/reactiveSocket.js:466-509 | in any state, what SETUP does: a second one, or one to a client, is announced with code 3 and closes the connection unless somebody listens |
| Delivery.NothingIsLost | lib/connection/reactiveSocket.js:197-341 | on every run, while an end is open, each request it has made has been handed over as made or is under way, and each answer it has given has found its request resolved or is under way |
| Delivery.TimeoutsReachThePeer | lib/connection/stream.js:101-109 | on every run, while an end is open and nothing is under way to the peer, the peer remembers no request of it that has timed out |
| Pools.TakenKeeps | lib/connection/tcpLoadBalancer.js:246-257 | taking a free host keeps the partition and adds one connection |
| Pools.ConnectKeeps | lib/connection/tcpLoadBalancer.js:218-257 | connecting, or not, keeps the partition |
| Pools.CloseKeeps | lib/connection/tcpLoadBalancer.js:260-282 | a close with its reconnect keeps partition and saturation |
| Pools.ReadyKeeps | lib/connection/tcpLoadBalancer.js:284-289 | so does a connection that becomes ready |
| Pools.InitialSettles | lib/connection/tcpLoadBalancer.js:81-102 | seeding settles |
| Pools.UpdateSettles | lib/connection/tcpLoadBalancer.js:159-211 | a change of the host list settles, with all the closes and reconnects in its middle |
| Pools.NextSettles | lib/connection/tcpLoadBalancer.js:159-316 | every event settles |
| Pools.AlwaysSettled | lib/connection/tcpLoadBalancer.js:81-316 | on every run: connected and connecting at most the size, and while open equal to it or no free host; no host in two places, all on the list, each in one of them or lost |
| Pools.InitialExactly | lib/connection/tcpLoadBalancer.js:81-102 | at first, as many connections are being made as the size and the list allow, none is ready, and all other hosts are free |
| Pools.CloseExactly | lib/connection/tcpLoadBalancer.js:260-282 | on every run, a close in a closed pool connects to nothing; in an open one to exactly one free host if there is one, and to none otherwise |
| Pools.ReadyExactly | lib/connection/tcpLoadBalancer.js:284-289 | on every run, a connection that becomes ready moves from one list to the other, and nothing else changes |
| Pools.UpdateExactly | lib/connection/tcpLoadBalancer.js:159-211 | on every run, a change of the host list closes exactly the connections to hosts that left; afterwards the pool, closed or not, is full or has no free host |
| Pools.HostsAccountedFor | lib/connection/tcpLoadBalancer.js:159-316 | on every run: free, connecting, connected and lost hosts are disjoint and make up the host list; none is lost while the list is the original one |
| Pools.CloseLosesHost | lib/connection/tcpLoadBalancer.js:260-282 | a close with its reconnect loses the host if and only if the list was changed before: the host is then in no place where it could be used |
| Pools.LostWhileListed | lib/connection/tcpLoadBalancer.js:159-316 | on every run, a lost host stays lost for as long as it stays on the list |
| Pools.HostsGetLost | lib/connection/tcpLoadBalancer.js:267-269 | there is a run that ends with an open pool, a listed host and no connection |
| TcpPool.Difference | lib/connection/tcpLoadBalancer.js:169-176 | exactly the hosts of one list that are not in the other |
| TcpPool.TcpLoadBalancer.GetActiveConnCount | lib/connection/tcpLoadBalancer.js:320-329 | the number of connections that are open or opening |
| TcpPool.TcpLoadBalancer.constructor | lib/connection/tcpLoadBalancer.js:59-102 | an initial state of the state machine |
| TcpPool.TcpLoadBalancer.Connect | lib/connection/tcpLoadBalancer.js:218-257 | refines the state machine's connect, for any random choice |
| TcpPool.TcpLoadBalancer.OnClose | lib/connection/tcpLoadBalancer.js:260-282 | refines its close; 'close' is announced with the last connection of a closed pool |
| TcpPool.TcpLoadBalancer.OnReady | lib/connection/tcpLoadBalancer.js:284-313 | refines its ready; the connection moves over, and 'connected' is announced when the pool is full |
| TcpPool.TcpLoadBalancer.CloseEach | lib/connection/tcpLoadBalancer.js:184-192 | the dead connections close one by one, each with its reconnect before the next |
| TcpPool.TcpLoadBalancer.FillUp | lib/connection/tcpLoadBalancer.js:198-210 | as many further connects as are missing and possible |
| TcpPool.TcpLoadBalancer.UpdateHosts | lib/connection/tcpLoadBalancer.js:159-211 | refines the state machine's change of the host list |
| TcpPool.TcpLoadBalancer.Close | lib/connection/tcpLoadBalancer.js:133-149 | the pool is closed and nothing else changes, as the tests on lines 140 and 145 never hold |
| TcpPool.KeepsSettled | lib/connection/tcpLoadBalancer.js:159-316 | whichever call comes next, a settled pool object is settled afterwards |
| Selection.PickBest | lib/connection/loadBalancer.js:623-630 | the best of a sample, none only if it is empty |
| Selection.TwoIndices | lib/connection/loadBalancer.js:604-610 | two different candidates, for any random numbers |
| Selection.ThreeIndices | lib/connection/loadBalancer.js:538-561 | three pairwise different candidates, for any random numbers |
| Selection.P2C | lib/connection/loadBalancer.js:587-631 | a candidate whenever there is one, at least as good as two different ones |
| Selection.P3C | lib/connection/loadBalancer.js:513-585 | a candidate whenever there is one, at least as good as three different ones |
| Selection.PNC | lib/connection/loadBalancer.js:481-487 | three choices above ten candidates, two otherwise |
| Selection.GoodExactly | lib/connection/loadBalancer.js:513-631 | a choice that may come out, exactly, by counting: of more than ten candidates at least two others are not better, of fewer at least one |
| Selection.ChosenIsNotWorst | lib/connection/loadBalancer.js:481-487 | the same of an object and the loads of all the objects |
| Selection.BestOfTwo | lib/connection/loadBalancer.js:587-631 | of two candidates the better one is chosen, whatever the random numbers |
| Balancing.Adjusted | lib/connection/loadBalancer.js:293-318 | the target moves by at most one: down if and only if the mean is below 1.5 and it is above the minimum, up if and only if the mean is above 2.5, it is below the maximum, and a socket could be added |
| Balancing.AdjustedStaysInBounds | lib/connection/loadBalancer.js:277-319 | the target stays between the smaller of initial and minimum and the larger of initial and maximum, and outside its bounds only moves inwards |
| Balancing.AverageExactly | lib/connection/loadBalancer.js:287-291 | the mean against 1.5 and 2.5, in whole numbers; no socket counts as a mean of 0 |
| Balancing.SustainedHighLoad | lib/connection/loadBalancer.js:303-318 | under sustained high load the target rises by one at each update up to the smaller of the maximum and the connectable number, and stays there |
| Balancing.SustainedLowLoad | lib/connection/loadBalancer.js:293-302 | under sustained low load it falls by one at each update down to the minimum, and stays there |
| Balancing.SteadyLoad | lib/connection/loadBalancer.js:293-318 | in between it never moves |
| Balancing.Score | lib/connection/loadBalancer.js:325-331 | the score times the cost, one and latency times one more than the pending requests, is the availability |
| Balancing.ScoreOrders | lib/connection/loadBalancer.js:325-331 | a socket that is as fast, as free and as available as another, or more so, scores at least as high |
| Balancing.SlowFirstIsSlow | lib/connection/loadBalancer.js:342-349 | the first socket shut is by predicted latency at least as slow as another one, or two others of more than ten |
| Balancing.BegunIsAvailable | lib/connection/loadBalancer.js:425-443 | the factory whose build starts has left the list, and is at least as available as another one, or two others of more than ten |
| Balancing.LoadBalancer.constructor | lib/connection/loadBalancer.js:75-89 | an empty balancer that aims at the initial aperture |
| Balancing.LoadBalancer.UpdateAperture | lib/connection/loadBalancer.js:277-319 | when the target falls and when it rises, both exactly, from the outstanding requests, the number of sockets and the clock; the clock restarts if and only if the mean is outside its bounds |
| Balancing.LoadBalancer.SelectFactory | lib/connection/loadBalancer.js:425-443 | the first entry of one factory is taken off the list, none only if the list is empty; by its reported availability it beats two different candidates, or three if there are more than ten |
| Balancing.LoadBalancer.SelectSlowSocket | lib/connection/loadBalancer.js:342-349 | there is a slow socket whenever there is a socket, and by its predicted latency it is at least as slow as two or three different ones |
| Balancing.LoadBalancer.SelectSocket | lib/connection/loadBalancer.js:321-340 | after a refresh, one of the sockets whose score beats two or three different ones; none only if there is none |
| Balancing.LoadBalancer.AddSocket | lib/connection/loadBalancer.js:351-364 | one more build under way, unless closed |
| Balancing.LoadBalancer.RefreshSockets | lib/connection/loadBalancer.js:250-275 | ends, and unless closed with sockets and builds at most the target or no socket left; below the target the build of a well available factory starts if there is one, above it sockets are shut, a slow one first; no factory is gained or lost |
| Balancing.LoadBalancer.ShutAt | lib/connection/loadBalancer.js:409-415 | exactly that socket is told to close and forgotten |
| Balancing.LoadBalancer.RemoveSocket | lib/connection/loadBalancer.js:401-420 | what happens to sockets and factories, for a socket that is there and one that is not, keeping its factory or not, open or closed; one that is there is shut before any other |
| Balancing.LoadBalancer.AddFactory | lib/connection/loadBalancer.js:445-457 | one factory more, unless closed; settled afterwards |
| Balancing.LoadBalancer.ShutSocketsOf | lib/connection/loadBalancer.js:471-477 | no socket of the factory is left, those of others are |
| Balancing.LoadBalancer.RemoveFactory | lib/connection/loadBalancer.js:459-479 | one idle entry and all sockets of the factory go, its builds under way do not, other factories are kept |
| Balancing.LoadBalancer.OnBuilt | lib/connection/loadBalancer.js:364-394 | a build becomes a socket: the total, the bound and the factories stay; the first one makes the balancer ready |
| Balancing.LoadBalancer.OnBuildError | lib/connection/loadBalancer.js:395-398 | a failed build loses its factory |
| Balancing.LoadBalancer.OnSocketError | lib/connection/loadBalancer.js:371-373 | while open, factories are conserved if and only if the socket is still there |
| Balancing.LoadBalancer.OnSocketClose | lib/connection/loadBalancer.js:374-380 | the same for a close |
| Balancing.LoadBalancer.OnErrorOfIdleSocket | lib/connection/reactiveSocket.js:145-149 | an error of a socket that closes at once removes the socket once and adds its factory twice |
| Balancing.LoadBalancer.OnRefreshTimer | lib/connection/loadBalancer.js:231-242 | a slow socket goes if there is one and an idle factory; factories are conserved |
| Balancing.LoadBalancer.OnRequest | lib/connection/loadBalancer.js:140-156 | the request goes to a socket that was there before and still is, and whose score beats two or three different ones; it is counted, unless closed |
| Balancing.LoadBalancer.OnTerminate | lib/connection/loadBalancer.js:151-153 | it is no longer counted |
| Balancing.LoadBalancer.Close | lib/connection/loadBalancer.js:186-198 | closed from then on, and every socket is told to close |
| Draining.PendingsAreUnterminated | lib/connection/drainingReactiveSocket.js:30-44 | on every run the counter is the number of requests that have not terminated |
| Draining.EventExactly | lib/connection/drainingReactiveSocket.js:30-66 | after any run, with any number of closes, what each event does to the underlying closes, the callback kept and the timers, by the number of requests outstanding |
| Draining.ReturnsExactly | lib/connection/drainingReactiveSocket.js:33-42 | a return to 0 is a terminate at which as many requests have terminated as were made |
| Draining.WaitingStep | lib/connection/drainingReactiveSocket.js:30-66 | what each event does to a socket that waits to be drained |
| Draining.DrainExactly | lib/connection/drainingReactiveSocket.js:30-66 | for every run with one close, later requests included: with nothing outstanding the underlying close runs once, at once; otherwise once if the timer fires, else each time the count returns to 0 if there is a callback, and not at all without one |
| Draining.AvailabilityExactly | lib/connection/drainingReactiveSocket.js:46-52 | for every such run: 0 from a close with callback that had to wait until the timer fires, and what the underlying socket reports at any other time |
| Draining.AtMostOnceExactly | lib/connection/drainingReactiveSocket.js:54-66 | without later requests, after one close the underlying close runs at most once on every continuation; after a second close, at any moment, there is one on which it runs twice |
| Draining.ClosesTwice | lib/connection/drainingReactiveSocket.js:33-66 | two runs in which it does: two closes, and one close with a later request |
| Draining.DrainingReactiveSocket.OnRequest | lib/connection/drainingReactiveSocket.js:30-32 | refines the request event |
| Draining.DrainingReactiveSocket.OnRequestComplete | lib/connection/drainingReactiveSocket.js:33-42 | refines the terminate event, with the close it may cause |
| Draining.DrainingReactiveSocket.CloseWith | lib/connection/drainingReactiveSocket.js:54-66 | refines the close event |
| Draining.DrainingReactiveSocket.OnDrainTimeout | lib/connection/drainingReactiveSocket.js:60-64 | refines the timer event |
| ReEnqueue.NextKeepsInv | lib/connection/reEnqueueFilter.js:48-101 | whichever way an underlying stream ends, the caller has seen nothing or one complete story |
| ReEnqueue.RetriesAreInvisible | lib/connection/reEnqueueFilter.js:48-101 | for every run of one filtered request: at most the allowed number of underlying requests, never two at once; the caller sees nothing while one is running and then exactly one terminate, last, all of it from the last underlying stream |
| ReEnqueue.BrakeExactly | lib/connection/reEnqueueFilter.js:74-81 | a rejected request is tried again if and only if tries are left and the retry rate weighted by the tries made is below the allowed rate |
| ReEnqueue.RejectionExactly | lib/connection/reEnqueueFilter.js:72-96 | on every run, a rejection adds one underlying request and shows the caller nothing if and only if tries are left and the weighted rate is below the allowed one; otherwise it adds none, and the caller sees the failure and terminate |
| ReEnqueue.OutcomeExactly | lib/common/bridgeStream.js:43-53 | on every run, any other ending reaches the caller as it is, with terminate behind it, and nothing is tried again |
| ReEnqueue.BridgeStream.constructor | lib/common/bridgeStream.js:23-30 | attached to its first stream |
| ReEnqueue.BridgeStream.Detach | lib/common/bridgeStream.js:35-41 | no listener is left on the old stream |
| ReEnqueue.BridgeStream.Attach | lib/common/bridgeStream.js:43-53 | listening to the new stream |
| ReEnqueue.FilteredRequest.constructor | lib/connection/reEnqueueFilter.js:51-53 | one try, one underlying stream, nothing seen |
| ReEnqueue.FilteredRequest.Retry | lib/connection/reEnqueueFilter.js:72-96 | refines the reaction to a rejection, and the bridge listens to one stream only |
| ReEnqueue.FilteredRequest.OnEnding | lib/connection/stream.js:299-359 | refines the end of an underlying stream: its outcome first, then its terminate, heard only if the bridge still listens |

## Left out

- Transports, sockets and stream back-pressure, WebSocket support, the command line tools, logging, metrics and debug output.
- Character encodings.
- Writers.WriteFrameData: the returned byte count, which adds characters to bytes; nothing depends on it.
- `Ewma` (the retry rate is a parameter), `FailureAccrualSocket`, `FrugalMedian`, `getSemaphore`, `TcpConnection` and `ReactiveSocketFactory`: little state or none that another part relies on.
- Numbers that Node's `write` calls reject: writers are modelled for values in range, encoding names of at most 255 bytes and frames shorter than 2^32 bytes.
- Flags other than METADATA and the bit shared by LEASE, FOLLOWS and KEEPALIVE_RESPONSE have no meaning in the model, but are written and read back.
- Framing.FramingStream.Transform: length fields below 5 are excluded. With 0 the loop never ends, and with 1 to 4 what has been pushed depends on the chunks. The protocol's frames have at least 12 bytes.
- Pipeline.ReceiveChunk: the same streams are excluded.
- Pipeline.Receive: the same streams are excluded.
- Pushed frames share memory with the chunk in the source; they are values here.
- MedianRing.SlidingMedian.constructor: sizes that are not powers of two are excluded; because of operator precedence the guard in the source rejects only odd sizes above 1, and an omitted size makes the mask NaN.
- Weighted.WeightedSocket.constructor: the same buffer sizes are excluded.
- Floating point rounding: ages, medians and loads are real numbers.
- Lease and keepalive frames and `availability` in the protocol model; the codec does cover both frame types.
- FOLLOWS fragments: responses and requests have one fragment.
- Exhaustion of stream ids, the second SETUP an application could send through `setup`, and frames that arrive after the transport closed.
- Sockets.RSStream.SetError: an application is taken to listen for 'error' on the streams of its own requests; without that listener an unlisted code is thrown there too.
- Sockets.ReactiveSocket.Respond: the 'response' and 'terminate' events on the responder's own stream, beyond the table forgetting it.
- Sockets.ReactiveSocket.HandleRequest: requests under id 0, or under an id this end has used itself, are excluded. `Protocol.IdsAreFresh` shows that a peer of the other type never sends one.
- Sockets.ReactiveSocket.HandleSetup: the encodings learnt from SETUP (modelled with the streams in `Pipeline`), the lease timer and the 'setup' event.
- Application callbacks that call back into the object while it emits an event.
- TcpPool.TcpLoadBalancer.UpdateHosts: assumes that a host and port name one host, that closing a connection announces it at once, and that its TCP socket is up: before that `close()` throws, because `_rsConnection` is still null (`lib/connection/tcpConnection.js:118-127`).
- TcpPool.TcpLoadBalancer.OnReady: assumes that no connection becomes ready after it closed.
- The strategy that hands out connections, and the 'connect' event of the pool.
- Balancing.LoadBalancer.SelectSlowSocket: asking a socket for its latency may let its median decay; here what a socket reports does not change during one selection.
- Balancing.LoadBalancer.OnBuilt: assumes that each build resolves once.
- Balancing.LoadBalancer.Close: the semaphore that collects the callbacks of the sockets and announces 'close'.
- The average availability of the balancer.
- ReEnqueue.BridgeStream.Attach: that `cancel` and the getters are forwarded to the new stream.
- ReEnqueue.FilteredRequest.Retry: the insertion into the moving average of the retry rate, which is any non-negative number here; limits are natural numbers.
