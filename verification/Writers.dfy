/** The seven frame writers: they complete the frame object in place and fill a fresh buffer with a moving offset. */
module Writers {
  import opened Bytes
  import opened Frames

  class FrameObject {
    var typ: nat
    var flags: nat
    var streamId: nat
    var length: nat
    var version: nat
    var keepalive: nat
    var maxLifetime: nat
    var ttl: nat
    var budget: nat
    var errorCode: nat
    var response: bool
    var metadataEncoding: Text
    var dataEncoding: Text
    var metadata: Text
    var data: Text

    constructor (f: Frame)
      ensures Value() == f
    {
      typ, flags, streamId, length := f.typ, f.flags, f.streamId, f.length;
      version, keepalive, maxLifetime := f.version, f.keepalive, f.maxLifetime;
      ttl, budget, errorCode, response := f.ttl, f.budget, f.errorCode, f.response;
      metadataEncoding, dataEncoding := f.metadataEncoding, f.dataEncoding;
      metadata, data := f.metadata, f.data;
    }

    function Value(): Frame
      reads this
    {
      Frame(typ, flags, streamId, length, version, keepalive, maxLifetime, ttl, budget, errorCode, response,
            metadataEncoding, dataEncoding, metadata, data)
    }
  }

  /** The size of the buffer to allocate; also defined for the types that have no writer. */
  method ComputeFrameLength(frame: FrameObject) returns (length: nat)
    requires InRange(frame.Value())
    ensures frame.typ !in {REQUEST_STREAM, REQUEST_SUB, REQUEST_N} ==> length == FrameLength(frame.Value())
    ensures frame.typ in {REQUEST_STREAM, REQUEST_SUB, REQUEST_N} ==> length == 4 + FrameLength(frame.Value())
  {
    length := FRAME_HEADER_LENGTH;
    if frame.typ == SETUP {
      length := length + 12;
      length := length + 1 + |frame.metadataEncoding|;
      length := length + 1 + |frame.dataEncoding|;
    } else if frame.typ == LEASE {
      length := length + 8;
    } else if frame.typ in {REQUEST_STREAM, REQUEST_SUB, REQUEST_N, ERROR} {
      length := length + 4;
    }
    if frame.metadata != [] {
      length := length + METADATA_LENGTH;
      length := length + |frame.metadata|;
    }
    if frame.data != [] {
      length := length + |frame.data|;
    }
  }

  method WriteFrameHeader(frame: FrameObject, output: array<Byte>, start: nat) returns (written: nat)
    requires start + FRAME_HEADER_LENGTH <= output.Length
    requires frame.length < U32_LIMIT && frame.typ < U16_LIMIT
    requires frame.flags < U16_LIMIT && frame.streamId < U32_LIMIT
    modifies output
    ensures written == FRAME_HEADER_LENGTH
    ensures output[..start + written]
         == old(output[..start]) + Header(frame.length, frame.typ, frame.flags, frame.streamId)
  {
    var offset := start;
    offset := WriteUInt32BE(output, frame.length, offset);
    offset := WriteUInt16BE(output, frame.typ, offset);
    offset := WriteUInt16BE(output, frame.flags, offset);
    offset := WriteUInt32BE(output, frame.streamId, offset);
    written := 12;
  }

  method WriteMetadata(frame: FrameObject, output: array<Byte>, start: nat) returns (offset: nat)
    requires |frame.metadata| + METADATA_LENGTH < U32_LIMIT
    requires start + |MetadataSection(frame.Value())| <= output.Length
    modifies output
    ensures offset == start + |MetadataSection(frame.Value())|
    ensures output[..offset] == old(output[..start]) + MetadataSection(frame.Value())
  {
    offset := start;
    if frame.metadata == [] {
      EmptyIsUnit(MetadataSection(frame.Value()), output[..start]);
      return;
    }
    var mdLength := |frame.metadata|;
    offset := WriteUInt32BE(output, mdLength + METADATA_LENGTH, offset);
    CopyInto(frame.metadata, output, offset);
    offset := offset + mdLength;
    Assoc(old(output[..start]), U32(mdLength + METADATA_LENGTH), frame.metadata);
  }

  /** Fills the rest of the buffer exactly: the caller must leave room for the payload and nothing more. */
  method WriteFrameData(frame: FrameObject, output: array<Byte>, start: nat)
    requires |frame.metadata| + METADATA_LENGTH < U32_LIMIT
    requires start + |Payload(frame.Value())| == output.Length
    modifies output
    ensures output[..] == old(output[..start]) + Payload(frame.Value())
  {
    var offset := WriteMetadata(frame, output, start);
    if frame.data != [] {
      CopyInto(frame.data, output, offset);
      offset := offset + |frame.data|;
    } else {
      EmptyIsUnit(frame.data, output[..offset]);
    }
    Assoc(old(output[..start]), MetadataSection(frame.Value()), frame.data);
    assert output[..] == output[..offset];
  }

  /** What every writer starts with: fill in type, flags, stream id and length on the frame object. */
  method StampFrame(frame: FrameObject, typ: nat, flags: nat, streamId: nat)
    requires Serializable(frame.Value().(typ := typ))
    requires flags == WireFlags(frame.Value().(typ := typ))
    requires streamId == WireStreamId(frame.Value().(typ := typ))
    modifies frame
    ensures frame.Value() == Stamped(old(frame.Value()).(typ := typ))
  {
    ghost var f := frame.Value().(typ := typ);
    frame.typ := typ;
    frame.flags := flags;
    frame.streamId := streamId;
    SizeIgnoresHeader(f, frame.Value());
    frame.length := ComputeFrameLength(frame);
  }

  /** Then allocate the buffer and write the header; what is left to write is named by the contract. */
  method BeginFrame(frame: FrameObject, ghost f: Frame) returns (buffer: array<Byte>, offset: nat)
    requires Serializable(f) && frame.Value() == Stamped(f)
    ensures fresh(buffer) && offset <= buffer.Length == |Encode(f)|
    ensures InRange(frame.Value())
    ensures Encode(f) == buffer[..offset] + TypeFields(frame.Value()) + Payload(frame.Value())
  {
    EncodeByStamp(f, frame.Value());
    buffer := new Byte[frame.length];
    EmptyIsUnit(buffer[..0], Header(frame.length, frame.typ, frame.flags, frame.streamId));
    offset := WriteFrameHeader(frame, buffer, 0);
  }

  method GetReqResFrame(frame: FrameObject) returns (buffer: array<Byte>)
    requires Serializable(frame.Value().(typ := REQUEST_RESPONSE))
    modifies frame
    ensures fresh(buffer)
    ensures buffer[..] == Encode(old(frame.Value()).(typ := REQUEST_RESPONSE))
    ensures frame.Value() == Stamped(old(frame.Value()).(typ := REQUEST_RESPONSE))
  {
    var flags := if frame.metadata != [] then METADATA else NO_FLAGS;
    if frame.flags != 0 {
      flags := if flags == METADATA then WithMetadataFlag(frame.flags) else frame.flags;
    }
    ghost var f := frame.Value().(typ := REQUEST_RESPONSE);
    StampFrame(frame, REQUEST_RESPONSE, flags, frame.streamId);
    var offset;
    buffer, offset := BeginFrame(frame, f);
    EmptyIsUnit(TypeFields(frame.Value()), buffer[..offset]);
    WriteFrameData(frame, buffer, offset);
  }

  method GetResponseFrame(frame: FrameObject) returns (buffer: array<Byte>)
    requires Serializable(frame.Value().(typ := RESPONSE))
    modifies frame
    ensures fresh(buffer)
    ensures buffer[..] == Encode(old(frame.Value()).(typ := RESPONSE))
    ensures frame.Value() == Stamped(old(frame.Value()).(typ := RESPONSE))
  {
    var flags := if frame.metadata != [] then METADATA else NO_FLAGS;
    if frame.flags != 0 {
      flags := if flags == METADATA then WithMetadataFlag(frame.flags) else frame.flags;
    }
    ghost var f := frame.Value().(typ := RESPONSE);
    StampFrame(frame, RESPONSE, flags, frame.streamId);
    var offset;
    buffer, offset := BeginFrame(frame, f);
    EmptyIsUnit(TypeFields(frame.Value()), buffer[..offset]);
    WriteFrameData(frame, buffer, offset);
  }

  method GetCancelFrame(frame: FrameObject) returns (buffer: array<Byte>)
    requires Serializable(frame.Value().(typ := CANCEL))
    modifies frame
    ensures fresh(buffer)
    ensures buffer[..] == Encode(old(frame.Value()).(typ := CANCEL))
    ensures frame.Value() == Stamped(old(frame.Value()).(typ := CANCEL))
  {
    var flags := if frame.metadata != [] then METADATA else NO_FLAGS;
    ghost var f := frame.Value().(typ := CANCEL);
    StampFrame(frame, CANCEL, flags, frame.streamId);
    var offset;
    buffer, offset := BeginFrame(frame, f);
    EmptyIsUnit(TypeFields(frame.Value()), buffer[..offset]);
    WriteFrameData(frame, buffer, offset);
  }

  method GetKeepaliveFrame(frame: FrameObject) returns (buffer: array<Byte>)
    requires Serializable(frame.Value().(typ := KEEPALIVE))
    modifies frame
    ensures fresh(buffer)
    ensures buffer[..] == Encode(old(frame.Value()).(typ := KEEPALIVE))
    ensures frame.Value() == Stamped(old(frame.Value()).(typ := KEEPALIVE))
  {
    var flags := if frame.response then SHARED_FLAG else NO_FLAGS;
    ghost var f := frame.Value().(typ := KEEPALIVE);
    StampFrame(frame, KEEPALIVE, flags, 0);
    var offset;
    buffer, offset := BeginFrame(frame, f);
    EmptyIsUnit(TypeFields(frame.Value()), buffer[..offset]);
    WriteFrameData(frame, buffer, offset);
  }

  method GetErrorFrame(frame: FrameObject) returns (buffer: array<Byte>)
    requires Serializable(frame.Value().(typ := ERROR))
    modifies frame
    ensures fresh(buffer)
    ensures buffer[..] == Encode(old(frame.Value()).(typ := ERROR))
    ensures frame.Value() == Stamped(old(frame.Value()).(typ := ERROR))
  {
    var flags := if frame.metadata != [] then METADATA else NO_FLAGS;
    ghost var f := frame.Value().(typ := ERROR);
    StampFrame(frame, ERROR, flags, frame.streamId);
    var offset;
    buffer, offset := BeginFrame(frame, f);
    offset := WriteUInt32BE(buffer, frame.errorCode, offset);
    WriteFrameData(frame, buffer, offset);
  }

  method GetLeaseFrame(frame: FrameObject) returns (buffer: array<Byte>)
    requires Serializable(frame.Value().(typ := LEASE))
    modifies frame
    ensures fresh(buffer)
    ensures buffer[..] == Encode(old(frame.Value()).(typ := LEASE))
    ensures frame.Value() == Stamped(old(frame.Value()).(typ := LEASE))
  {
    var flags := if frame.metadata != [] then METADATA else NO_FLAGS;
    ghost var f := frame.Value().(typ := LEASE);
    StampFrame(frame, LEASE, flags, 0);
    var offset;
    buffer, offset := BeginFrame(frame, f);
    ghost var header := buffer[..offset];
    offset := WriteUInt32BE(buffer, frame.ttl, offset);
    offset := WriteUInt32BE(buffer, frame.budget, offset);
    Assoc(header, U32(frame.ttl), U32(frame.budget));
    WriteFrameData(frame, buffer, offset);
  }

  method WriteEncodingName(name: Text, output: array<Byte>, start: nat) returns (offset: nat)
    requires |name| < 256 && start + |EncodingName(name)| <= output.Length
    modifies output
    ensures offset == start + |EncodingName(name)|
    ensures output[..offset] == old(output[..start]) + EncodingName(name)
  {
    offset := WriteUInt8(output, |name|, start);
    CopyInto(name, output, offset);
    offset := offset + |name|;
  }

  /** Version, intervals and the two length-prefixed encoding names. */
  method WriteSetupFields(frame: FrameObject, output: array<Byte>, start: nat) returns (offset: nat)
    requires frame.typ == SETUP && InRange(frame.Value())
    requires start + |TypeFields(frame.Value())| <= output.Length
    modifies output
    ensures offset == start + |TypeFields(frame.Value())|
    ensures output[..offset] == old(output[..start]) + TypeFields(frame.Value())
  {
    offset := WriteUInt32BE(output, frame.version, start);
    offset := WriteUInt32BE(output, frame.keepalive, offset);
    offset := WriteUInt32BE(output, frame.maxLifetime, offset);
    Assoc(old(output[..start]), U32(frame.version), U32(frame.keepalive));
    Assoc(old(output[..start]), U32(frame.version) + U32(frame.keepalive), U32(frame.maxLifetime));
    assert output[..offset] == old(output[..start]) + SetupNumbers(frame.Value());
    offset := WriteEncodingName(frame.metadataEncoding, output, offset);
    offset := WriteEncodingName(frame.dataEncoding, output, offset);
    ghost var names := EncodingName(frame.metadataEncoding);
    Assoc(old(output[..start]), SetupNumbers(frame.Value()), names);
    Assoc(old(output[..start]), SetupNumbers(frame.Value()) + names, EncodingName(frame.dataEncoding));
  }

  method GetSetupFrame(frame: FrameObject) returns (buffer: array<Byte>)
    requires Serializable(frame.Value().(typ := SETUP))
    modifies frame
    ensures fresh(buffer)
    ensures buffer[..] == Encode(old(frame.Value()).(typ := SETUP))
    ensures frame.Value() == Stamped(old(frame.Value()).(typ := SETUP))
  {
    var flags := if frame.metadata != [] then METADATA else NO_FLAGS;
    if frame.flags != 0 {
      flags := if flags == METADATA then WithMetadataFlag(frame.flags) else frame.flags;
    }
    ghost var f := frame.Value().(typ := SETUP);
    StampFrame(frame, SETUP, flags, 0);
    var offset;
    buffer, offset := BeginFrame(frame, f);
    offset := WriteSetupFields(frame, buffer, offset);
    WriteFrameData(frame, buffer, offset);
  }
}
