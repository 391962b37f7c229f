/** The serializing and parsing streams, and the wire path from end to end. */
module Pipeline {
  import opened Results
  import opened Bytes
  import opened Frames
  import opened Parsing
  import opened RoundTrip
  import Framing
  import Parser
  import Writers

  type Outcome = Result<Parsed, ParseError>

  /** The names a stream attaches before it writes a frame. */
  function WithEncodings(f: Frame, metadataEncoding: Option<Text>, dataEncoding: Option<Text>): Frame {
    f.(metadataEncoding := metadataEncoding.GetOr([]), dataEncoding := dataEncoding.GetOr([]))
  }

  /** A configured encoding is kept; without one, or with an empty one, the encoding named by SETUP is taken. */
  function Learnt(configured: Option<Text>, named: Text): Option<Text> {
    if configured.GetOr([]) == [] then Some(named) else configured
  }

  /** What is left of an encoding after any number of SETUP frames. */
  function LearntFrom(configured: Option<Text>, named: seq<Text>): Option<Text>
    decreases |named|
  {
    if named == [] then configured else LearntFrom(Learnt(configured, named[0]), named[1..])
  }

  /** On every run of SETUP frames, an encoding that is not empty is never replaced. */
  lemma {:induction false} EncodingStays(configured: Option<Text>, named: seq<Text>)
    requires configured.GetOr([]) != []
    ensures LearntFrom(configured, named) == configured
    decreases |named|
  {
    if named != [] {
      EncodingStays(configured, named[1..]);
    }
  }

  /** Without one, the first that is not empty is taken, and kept. */
  lemma {:induction false} FirstEncodingTaken(configured: Option<Text>, named: seq<Text>, i: nat)
    requires configured.GetOr([]) == [] && i < |named| && named[i] != [] && forall j | 0 <= j < i :: named[j] == []
    ensures LearntFrom(configured, named) == Some(named[i])
    decreases i
  {
    if i == 0 {
      EncodingStays(Some(named[0]), named[1..]);
    } else {
      assert named[0] == [];
      FirstEncodingTaken(Some([]), named[1..], i - 1);
    }
  }

  class SerializeStream {
    var metadataEncoding: Option<Text>
    var dataEncoding: Option<Text>
    var output: seq<Text>

    constructor (metadataEncoding: Option<Text>, dataEncoding: Option<Text>)
      ensures this.metadataEncoding == metadataEncoding && this.dataEncoding == dataEncoding && output == []
    {
      this.metadataEncoding, this.dataEncoding := metadataEncoding, dataEncoding;
      output := [];
    }

    /** What will be written for `f`. */
    function Dressed(f: Frame): Frame
      reads this
    {
      WithEncodings(f, metadataEncoding, dataEncoding)
    }

    /** The assertions on the encodings: a writer may insist on them, and a payload cannot be written without. */
    predicate EncodingsGiven(f: Frame)
      reads this
    {
      && (f.typ !in {LEASE, CANCEL, KEEPALIVE} || f.metadata != [] ==> metadataEncoding.Some?)
      && (f.typ !in {LEASE, CANCEL} || f.data != [] ==> dataEncoding.Some?)
    }

    /** Pushes the wire image of the frame, or reports a type that has no writer and pushes nothing. */
    method Transform(f: Writers.FrameObject) returns (unsupported: bool)
      requires HasWriter(f.typ) ==> EncodingsGiven(f.Value()) && Serializable(Dressed(f.Value()))
      modifies f, this`output
      ensures unsupported <==> !HasWriter(old(f.typ))
      ensures unsupported ==> output == old(output)
      ensures !unsupported ==> output == old(output) + [Encode(Dressed(old(f.Value())))]
    {
      f.metadataEncoding := metadataEncoding.GetOr([]);
      f.dataEncoding := dataEncoding.GetOr([]);
      var buf: array<Byte>;
      var typ := f.typ;
      if typ == REQUEST_RESPONSE {
        buf := Writers.GetReqResFrame(f);
      } else if typ == SETUP {
        buf := Writers.GetSetupFrame(f);
      } else if typ == LEASE {
        buf := Writers.GetLeaseFrame(f);
      } else if typ == CANCEL {
        buf := Writers.GetCancelFrame(f);
      } else if typ == ERROR {
        buf := Writers.GetErrorFrame(f);
      } else if typ == KEEPALIVE {
        buf := Writers.GetKeepaliveFrame(f);
      } else if typ == RESPONSE {
        buf := Writers.GetResponseFrame(f);
      } else {
        return true;
      }
      output := output + [buf[..]];
      unsupported := false;
    }

    /** Encodings learnt from a SETUP frame never replace configured ones. */
    method SetEncoding(metadataEncoding: Text, dataEncoding: Text)
      modifies this`metadataEncoding, this`dataEncoding
      ensures this.metadataEncoding == Learnt(old(this.metadataEncoding), metadataEncoding)
      ensures this.dataEncoding == Learnt(old(this.dataEncoding), dataEncoding)
    {
      if this.dataEncoding.GetOr([]) == [] { this.dataEncoding := Some(dataEncoding); }
      if this.metadataEncoding.GetOr([]) == [] { this.metadataEncoding := Some(metadataEncoding); }
    }
  }

  class ParseStream {
    var metadataEncoding: Option<Text>
    var dataEncoding: Option<Text>
    var output: seq<Outcome>

    constructor (metadataEncoding: Option<Text>, dataEncoding: Option<Text>)
      ensures this.metadataEncoding == metadataEncoding && this.dataEncoding == dataEncoding && output == []
    {
      this.metadataEncoding, this.dataEncoding := metadataEncoding, dataEncoding;
      output := [];
    }

    /** The parser expects the data encoding first; this stream passes the metadata encoding first. */
    method Transform(chunk: Text)
      modifies this`output
      ensures output == old(output) + [Parse(chunk, dataEncoding, metadataEncoding)]
    {
      var frame, error := Parser.Parse(chunk, metadataEncoding, dataEncoding);
      if error.None? {
        output := output + [Success(frame.Value())];
      } else {
        output := output + [Failure(error.value)];
      }
    }

    method SetEncoding(metadataEncoding: Text, dataEncoding: Text)
      modifies this`metadataEncoding, this`dataEncoding
      ensures this.metadataEncoding == Learnt(old(this.metadataEncoding), metadataEncoding)
      ensures this.dataEncoding == Learnt(old(this.dataEncoding), dataEncoding)
    {
      if this.dataEncoding.GetOr([]) == [] { this.dataEncoding := Some(dataEncoding); }
      if this.metadataEncoding.GetOr([]) == [] { this.metadataEncoding := Some(metadataEncoding); }
    }
  }

  /** The encodings a parsed frame is labelled with are the ones the two ends agreed on, unless metadata and data
      use different ones: then every frame but SETUP, which names its own, has them the wrong way round. */
  lemma EncodingsSwapped(f: Frame, metadataEncoding: Text, dataEncoding: Text)
    requires Serializable(f) && f.metadataEncoding == metadataEncoding && f.dataEncoding == dataEncoding
    ensures var r := ParseWritten(f, Some(dataEncoding), Some(metadataEncoding));
            r.Success? ==>
              ((r.value.metadataEncoding == Some(metadataEncoding) && r.value.dataEncoding == Some(dataEncoding))
               <==> (f.typ == SETUP || metadataEncoding == dataEncoding))
  {
    WrittenParses(f, Some(dataEncoding), Some(metadataEncoding));
    PayloadKeepsFields(f.typ, Encode(f), AtPayload(f, Some(dataEncoding), Some(metadataEncoding)));
  }

  /** A list of frames as the bytes that go on the wire. */
  function Wire(fs: seq<Frame>): seq<Text>
    requires forall i | 0 <= i < |fs| :: Serializable(fs[i])
  {
    seq(|fs|, i requires 0 <= i < |fs| => Encode(fs[i]))
  }

  function ParseAll(frames: seq<Text>, metadataEncoding: Option<Text>, dataEncoding: Option<Text>): seq<Outcome> {
    seq(|frames|, i requires 0 <= i < |frames| => Parse(frames[i], metadataEncoding, dataEncoding))
  }

  lemma EncodedIsFrame(f: Frame)
    requires Serializable(f)
    ensures Framing.IsFrame(Encode(f))
  {
    Cut3(Header(FrameLength(f), f.typ, WireFlags(f), WireStreamId(f)), TypeFields(f), Payload(f));
    HeaderParts(FrameLength(f), f.typ, WireFlags(f), WireStreamId(f), Encode(f));
  }

  /** End to end: however the bytes of a list of frames are cut into chunks, framing and parsing yield the same
      frames in the same order, each one complete exactly when it is Faithful, and nothing is left over. */
  lemma EndToEnd(fs: seq<Frame>, chunks: seq<Text>, metadataEncoding: Option<Text>, dataEncoding: Option<Text>)
    requires forall i | 0 <= i < |fs| :: Serializable(fs[i])
    requires Framing.Concat(chunks) == Framing.Concat(Wire(fs))
    ensures Framing.Sound(Framing.Concat(chunks))
    ensures var cut := Framing.Split(Framing.Concat(chunks));
            var out := ParseAll(cut.frames, metadataEncoding, dataEncoding);
            && cut.rest == []
            && |out| == |fs|
            && forall i | 0 <= i < |fs| :: (out[i].Success? && Recovers(fs[i], out[i].value)) <==> Faithful(fs[i])
  {
    var wire := Wire(fs);
    forall i | 0 <= i < |wire|
      ensures Framing.IsFrame(wire[i])
    {
      EncodedIsFrame(fs[i]);
    }
    Framing.FramesAreSound(wire);
    Framing.SplitOfFrames(wire, []);
    EmptyIsUnit([], Framing.Concat(wire));
    forall i | 0 <= i < |fs|
      ensures var r := Parse(wire[i], metadataEncoding, dataEncoding);
              (r.Success? && Recovers(fs[i], r.value)) <==> Faithful(fs[i])
    {
      RoundTripExactly(fs[i], metadataEncoding, dataEncoding);
    }
  }

  /** Before everything has arrived, the frames delivered are a prefix of the frames sent: never a wrong one,
      never one out of order. */
  lemma PrefixDelivered(fs: seq<Frame>, received: Text, missing: Text)
    requires forall i | 0 <= i < |fs| :: Serializable(fs[i])
    requires received + missing == Framing.Concat(Wire(fs))
    ensures Framing.Sound(received)
    ensures Framing.Split(received).frames <= Wire(fs)
  {
    var wire := Wire(fs);
    forall i | 0 <= i < |wire|
      ensures Framing.IsFrame(wire[i])
    {
      EncodedIsFrame(fs[i]);
    }
    Framing.FramesAreSound(wire);
    Framing.SplitOfFrames(wire, []);
    EmptyIsUnit([], Framing.Concat(wire));
    Framing.SplitResumes(received, missing);
    Framing.SoundResumes(received, missing);
  }

  method SendOne(s: SerializeStream, f: Frame)
    requires Serializable(f) && s.metadataEncoding == Some(f.metadataEncoding) && s.dataEncoding == Some(f.dataEncoding)
    modifies s`output
    ensures s.output == old(s.output) + [Encode(f)]
  {
    var frame := new Writers.FrameObject(f);
    assert s.Dressed(f) == f;
    var unsupported := s.Transform(frame);
    assert !unsupported;
  }

  lemma WireGrows(fs: seq<Frame>, n: nat)
    requires n < |fs| && forall i | 0 <= i < |fs| :: Serializable(fs[i])
    ensures Wire(fs)[..n + 1] == Wire(fs)[..n] + [Encode(fs[n])]
  {
    var wire := Wire(fs);
    assert wire[n] == Encode(fs[n]);
    assert wire[..n + 1] == wire[..n] + [wire[n]];
  }

  /** The sending side: one serialize stream fed with frame objects. */
  method Send(fs: seq<Frame>, metadataEncoding: Text, dataEncoding: Text) returns (wire: seq<Text>)
    requires forall i | 0 <= i < |fs| ::
      Serializable(fs[i]) && fs[i].metadataEncoding == metadataEncoding && fs[i].dataEncoding == dataEncoding
    ensures wire == Wire(fs)
  {
    var s := new SerializeStream(Some(metadataEncoding), Some(dataEncoding));
    for n := 0 to |fs|
      invariant s.metadataEncoding == Some(metadataEncoding) && s.dataEncoding == Some(dataEncoding)
      invariant s.output == Wire(fs)[..n]
      invariant fresh(s)
    {
      SendOne(s, fs[n]);
      WireGrows(fs, n);
    }
    assert Wire(fs)[..|fs|] == Wire(fs);
    wire := s.output;
  }

  /** The parse stream takes the pushed frames it has not parsed yet. */
  method ParsePushed(parser: ParseStream, frames: seq<Text>, already: nat)
    requires already <= |frames|
    requires parser.output == ParseAll(frames[..already], parser.dataEncoding, parser.metadataEncoding)
    modifies parser`output
    ensures parser.output == ParseAll(frames, parser.dataEncoding, parser.metadataEncoding)
  {
    for n := already to |frames|
      invariant parser.output == ParseAll(frames[..n], parser.dataEncoding, parser.metadataEncoding)
    {
      parser.Transform(frames[n]);
    }
    assert frames[..|frames|] == frames;
  }

  /** The two receiving streams agree: everything pushed so far has been parsed. */
  ghost predicate InStep(framing: Framing.FramingStream, parser: ParseStream)
    reads framing, framing.buffer, parser
  {
    framing.Valid() && parser.output == ParseAll(framing.output, parser.dataEncoding, parser.metadataEncoding)
  }

  method ReceiveChunk(framing: Framing.FramingStream, parser: ParseStream, chunk: Text)
    requires InStep(framing, parser) && Framing.Sound(framing.received + chunk)
    modifies framing, framing.buffer, parser`output
    ensures InStep(framing, parser) && framing.received == old(framing.received) + chunk
    ensures framing.buffer == null || framing.buffer == old(framing.buffer) || fresh(framing.buffer)
  {
    var already := |framing.output|;
    ghost var before := framing.output;
    Framing.SplitResumes(framing.received, chunk);
    framing.Transform(chunk);
    assert framing.output[..already] == before;
    ParsePushed(parser, framing.output, already);
  }

  /** The two receiving streams of a new connection. */
  method Connect(metadataEncoding: Text, dataEncoding: Text)
    returns (framing: Framing.FramingStream, parser: ParseStream)
    ensures fresh(framing) && fresh(parser) && InStep(framing, parser)
    ensures framing.buffer == null && framing.received == []
    ensures parser.metadataEncoding == Some(metadataEncoding) && parser.dataEncoding == Some(dataEncoding)
  {
    framing := new Framing.FramingStream();
    parser := new ParseStream(Some(metadataEncoding), Some(dataEncoding));
  }

  method ReceiveNext(framing: Framing.FramingStream, parser: ParseStream, chunks: seq<Text>, n: nat, ghost whole: Text)
    requires InStep(framing, parser) && n < |chunks| && Framing.Sound(whole)
    requires whole == framing.received + Framing.Concat(chunks[n..])
    modifies framing, framing.buffer, parser`output
    ensures InStep(framing, parser) && whole == framing.received + Framing.Concat(chunks[n + 1..])
    ensures framing.buffer == null || framing.buffer == old(framing.buffer) || fresh(framing.buffer)
  {
    OneMoreChunk(whole, framing.received, chunks, n);
    ReceiveChunk(framing, parser, chunks[n]);
  }

  /** The receiving side: the transport hands over chunks, the framing stream pushes frames, the parse stream
      parses each of them as soon as it is pushed. */
  method Receive(chunks: seq<Text>, metadataEncoding: Text, dataEncoding: Text) returns (parsed: seq<Outcome>)
    requires Framing.Sound(Framing.Concat(chunks))
    ensures parsed == ParseAll(Framing.Split(Framing.Concat(chunks)).frames, Some(dataEncoding), Some(metadataEncoding))
  {
    var framing, parser := Connect(metadataEncoding, dataEncoding);
    ghost var whole := Framing.Concat(chunks);
    assert chunks[0..] == chunks;
    EmptyIsUnit(framing.received, whole);
    for n := 0 to |chunks|
      invariant fresh(framing) && fresh(parser) && InStep(framing, parser)
      invariant framing.buffer == null || fresh(framing.buffer)
      invariant parser.metadataEncoding == Some(metadataEncoding) && parser.dataEncoding == Some(dataEncoding)
      invariant whole == framing.received + Framing.Concat(chunks[n..])
    {
      ReceiveNext(framing, parser, chunks, n, whole);
    }
    EmptyIsUnit(Framing.Concat(chunks[|chunks|..]), framing.received);
    parsed := parser.output;
  }

  lemma OneMoreChunk(whole: Text, received: Text, chunks: seq<Text>, n: nat)
    requires n < |chunks| && Framing.Sound(whole) && whole == received + Framing.Concat(chunks[n..])
    ensures whole == received + chunks[n] + Framing.Concat(chunks[n + 1..])
    ensures Framing.Sound(received + chunks[n])
  {
    assert chunks[n..][1..] == chunks[n + 1..];
    Assoc(received, chunks[n], Framing.Concat(chunks[n + 1..]));
    Framing.SoundResumes(received + chunks[n], Framing.Concat(chunks[n + 1..]));
  }
}
