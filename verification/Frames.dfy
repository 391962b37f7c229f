/** The frames of the ReactiveSocket protocol and the byte layout each writer must produce. */
module Frames {
  import opened Bytes

  // Frame types.
  const SETUP := 0x0001
  const LEASE := 0x0002
  const KEEPALIVE := 0x0003
  const REQUEST_RESPONSE := 0x0004
  const REQUEST_FNF := 0x0005
  const REQUEST_STREAM := 0x0006
  const REQUEST_SUB := 0x0007
  const REQUEST_CHANNEL := 0x0008
  const REQUEST_N := 0x0009
  const CANCEL := 0x000A
  const RESPONSE := 0x000B
  const ERROR := 0x000C
  const NEXT := 0x000E
  const COMPLETE := 0x000F
  const NEXT_COMPLETE := 0x0010

  // Flags. The lease, follows and keepalive-response flags share one bit.
  const NO_FLAGS := 0x0000
  const METADATA := 0x4000
  const SHARED_FLAG := 0x2000

  const FRAME_HEADER_LENGTH := 12
  const METADATA_LENGTH := 4

  /** The object handed to the serializer. A field the caller leaves out is 0, false or empty;
      an empty metadata or data string is falsy in the source, hence the same as an absent one. */
  datatype Frame = Frame(
    typ: nat, flags: nat, streamId: nat, length: nat,
    version: nat, keepalive: nat, maxLifetime: nat,
    ttl: nat, budget: nat, errorCode: nat, response: bool,
    metadataEncoding: Text, dataEncoding: Text,
    metadata: Text, data: Text)

  /** `flags & METADATA`. */
  predicate HasMetadataFlag(flags: nat) {
    flags / 0x4000 % 2 == 1
  }

  /** `flags & LEASE`, `flags & KEEPALIVE_RESPONSE`. */
  predicate HasSharedFlag(flags: nat) {
    flags / 0x2000 % 2 == 1
  }

  /** `flags | METADATA`. */
  function WithMetadataFlag(flags: nat): (r: nat)
    requires flags < U16_LIMIT
    ensures r < U16_LIMIT && HasMetadataFlag(r)
    ensures HasSharedFlag(r) == HasSharedFlag(flags)
    ensures r == if flags / 0x4000 % 2 == 1 then flags else flags + 0x4000
  {
    if HasMetadataFlag(flags) then flags else flags + METADATA
  }

  /** The two flags are single bits of the sixteen. */
  lemma FlagBits(high: nat, metadata: nat, shared: nat, low: nat)
    requires high < 2 && metadata < 2 && shared < 2 && low < 0x2000
    ensures var flags := high * 0x8000 + metadata * 0x4000 + shared * 0x2000 + low;
            && (HasMetadataFlag(flags) <==> metadata == 1)
            && (HasSharedFlag(flags) <==> shared == 1)
  {
    var flags := high * 0x8000 + metadata * 0x4000 + shared * 0x2000 + low;
    assert flags / 0x4000 == high * 2 + metadata;
    assert flags / 0x2000 == high * 4 + metadata * 2 + shared;
  }

  predicate HasWriter(typ: nat): (yes: bool)
    ensures yes <==> typ == 1 || typ == 2 || typ == 3 || typ == 4 || typ == 10 || typ == 11 || typ == 12
  {
    typ in {SETUP, LEASE, KEEPALIVE, REQUEST_RESPONSE, CANCEL, RESPONSE, ERROR}
  }

  predicate KeepsCallerFlags(typ: nat) {
    typ in {SETUP, REQUEST_RESPONSE, RESPONSE}
  }

  /** The flags that go on the wire. */
  function WireFlags(f: Frame): (flags: nat)
    requires f.flags < U16_LIMIT
    ensures flags < U16_LIMIT
  {
    if f.typ == KEEPALIVE then (if f.response then SHARED_FLAG else NO_FLAGS)
    else
      var own := if KeepsCallerFlags(f.typ) then f.flags else NO_FLAGS;
      if f.metadata != [] then WithMetadataFlag(own) else own
  }

  function WireStreamId(f: Frame): nat {
    if f.typ in {SETUP, LEASE, KEEPALIVE} then 0 else f.streamId
  }

  /** The bytes between header and payload. */
  function TypeFields(f: Frame): Text
    requires InRange(f)
  {
    if f.typ == SETUP then
      SetupNumbers(f) + EncodingName(f.metadataEncoding) + EncodingName(f.dataEncoding)
    else if f.typ == LEASE then U32(f.ttl) + U32(f.budget)
    else if f.typ == ERROR then U32(f.errorCode)
    else []
  }

  function SetupNumbers(f: Frame): (s: Text)
    requires InRange(f)
    ensures |s| == 12
  {
    U32(f.version) + U32(f.keepalive) + U32(f.maxLifetime)
  }

  function EncodingName(name: Text): Text
    requires |name| < 256
  {
    [|name|] + name
  }

  /** Length-prefixed metadata, if any, then data. The prefix counts itself. */
  function Payload(f: Frame): Text
    requires |f.metadata| + METADATA_LENGTH < U32_LIMIT
  {
    MetadataSection(f) + f.data
  }

  function MetadataSection(f: Frame): Text
    requires |f.metadata| + METADATA_LENGTH < U32_LIMIT
  {
    if f.metadata == [] then [] else U32(|f.metadata| + METADATA_LENGTH) + f.metadata
  }

  /** What Node's `write...` calls demand of the numbers they are given. */
  predicate InRange(f: Frame) {
    && f.flags < U16_LIMIT && f.streamId < U32_LIMIT
    && f.version < U32_LIMIT && f.keepalive < U32_LIMIT && f.maxLifetime < U32_LIMIT
    && f.ttl < U32_LIMIT && f.budget < U32_LIMIT && f.errorCode < U32_LIMIT
    && |f.metadataEncoding| < 256 && |f.dataEncoding| < 256
    && |f.metadata| + METADATA_LENGTH < U32_LIMIT
  }

  function FrameLength(f: Frame): nat
    requires InRange(f)
  {
    FRAME_HEADER_LENGTH + |TypeFields(f)| + |Payload(f)|
  }

  predicate Serializable(f: Frame) {
    HasWriter(f.typ) && InRange(f) && FrameLength(f) < U32_LIMIT
  }

  function Header(length: nat, typ: nat, flags: nat, streamId: nat): (s: Text)
    requires length < U32_LIMIT && typ < U16_LIMIT && flags < U16_LIMIT && streamId < U32_LIMIT
    ensures |s| == FRAME_HEADER_LENGTH
  {
    U32(length) + U16(typ) + U16(flags) + U32(streamId)
  }

  /** The wire image of a frame. */
  function Encode(f: Frame): (s: Text)
    requires Serializable(f)
    ensures |s| == FrameLength(f)
  {
    Header(FrameLength(f), f.typ, WireFlags(f), WireStreamId(f)) + TypeFields(f) + Payload(f)
  }

  /** The frame object as a writer leaves it: flags, stream id and length filled in. */
  function Stamped(f: Frame): (r: Frame)
    requires Serializable(f)
  {
    f.(flags := WireFlags(f), streamId := WireStreamId(f), length := FrameLength(f))
  }

  /** Writers mutate the frame they are given; writing the mutated object again gives the same bytes,
      so a frame object may be sent twice. */
  lemma WritingTwice(f: Frame)
    requires Serializable(f)
    ensures Serializable(Stamped(f)) && Encode(Stamped(f)) == Encode(f)
    ensures Stamped(Stamped(f)) == Stamped(f)
  {
    var g := Stamped(f);
    assert TypeFields(g) == TypeFields(f);
    assert Payload(g) == Payload(f);
  }

  /** Flags, stream id and length do not influence the size. */
  lemma SizeIgnoresHeader(f: Frame, g: Frame)
    requires InRange(f) && g == f.(flags := g.flags, streamId := g.streamId, length := g.length)
    requires g.flags < U16_LIMIT && g.streamId < U32_LIMIT
    ensures InRange(g) && TypeFields(g) == TypeFields(f) && Payload(g) == Payload(f)
    ensures FrameLength(g) == FrameLength(f)
  {}

  /** The wire image read off the completed frame object. */
  lemma EncodeByStamp(f: Frame, g: Frame)
    requires Serializable(f) && g == Stamped(f)
    ensures InRange(g) && g.length < U32_LIMIT && g.typ < U16_LIMIT
    ensures Encode(f) == Header(g.length, g.typ, g.flags, g.streamId) + TypeFields(g) + Payload(g)
    ensures g.length == FRAME_HEADER_LENGTH + |TypeFields(g)| + |Payload(g)|
  {
    assert TypeFields(g) == TypeFields(f);
    assert Payload(g) == Payload(f);
  }
}
