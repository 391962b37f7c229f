/** The parser as it runs: a cursor that moves and a frame object that fills up. */
module Parser {
  import opened Results
  import opened Bytes
  import opened Frames
  import opened Parsing

  class Cursor {
    const buffer: Text
    var offset: nat

    constructor (buffer: Text)
      ensures this.buffer == buffer && offset == 0
    {
      this.buffer := buffer;
      offset := 0;
    }
  }

  class ParsedFrame {
    var header: HeaderFields
    var setup: Option<SetupFields>
    var errorCode: Option<nat>
    var ttl: Option<nat>
    var budget: Option<nat>
    var response: Option<bool>
    var metadata: Option<Text>
    var data: Option<Text>
    var metadataEncoding: Option<Text>
    var dataEncoding: Option<Text>

    constructor (metadataEncoding: Option<Text>, dataEncoding: Option<Text>)
      ensures Value() == Blank(metadataEncoding, dataEncoding)
    {
      header := HeaderFields(0, 0, 0, 0);
      setup, errorCode, ttl, budget, response, metadata, data := None, None, None, None, None, None, None;
      this.metadataEncoding, this.dataEncoding := metadataEncoding, dataEncoding;
    }

    function Value(): Parsed
      reads this
    {
      Parsed(header, setup, errorCode, ttl, budget, response, metadata, data, metadataEncoding, dataEncoding)
    }
  }

  /** Cursor and frame stand where `step` says, or `error` is what it throws. */
  ghost predicate Reached(step: Step, b: Cursor, frame: ParsedFrame, error: Option<ParseError>)
    reads b, frame
  {
    match step
    case Success(p) => error == None && p == Progress(b.offset, frame.Value())
    case Failure(e) => error == Some(e)
  }

  ghost function At(b: Cursor, frame: ParsedFrame): Progress
    reads b, frame
  {
    Progress(b.offset, frame.Value())
  }

  method ParseHeader(b: Cursor, frame: ParsedFrame) returns (error: Option<ParseError>)
    modifies b, frame
    ensures Reached(HeaderStep(b.buffer, old(At(b, frame))), b, frame, error)
  {
    var buffer := b.buffer;
    if |buffer| < 4 { return Some(OutOfRange); }
    var length := GetU32(buffer, 0);
    if |buffer| != length { return Some(LengthMismatch(length, |buffer|)); }
    if |buffer| < 12 { return Some(OutOfRange); }
    frame.header := HeaderFields(length, GetU16(buffer, 4), GetU16(buffer, 6), GetU32(buffer, 8));
    b.offset := b.offset + FRAME_HEADER_LENGTH;
    error := None;
  }

  method ParseNumbers(b: Cursor)
    returns (version: nat, keepalive: nat, maxLifetime: nat, error: Option<ParseError>)
    modifies b
    ensures match NumbersAt(b.buffer, old(b.offset))
            case Success(n) => error == None && n == (version, keepalive, maxLifetime) && b.offset == old(b.offset) + 12
            case Failure(e) => error == Some(e)
  {
    if |b.buffer| < b.offset + 12 { return 0, 0, 0, Some(OutOfRange); }
    version := GetU32(b.buffer, b.offset);
    b.offset := b.offset + 4;
    keepalive := GetU32(b.buffer, b.offset);
    b.offset := b.offset + 4;
    maxLifetime := GetU32(b.buffer, b.offset);
    b.offset := b.offset + 4;
    error := None;
  }

  method ParseName(b: Cursor) returns (name: Text, error: Option<ParseError>)
    modifies b
    ensures match NameAt(b.buffer, old(b.offset))
            case Success((n, next)) => error == None && name == n && b.offset == next
            case Failure(e) => error == Some(e)
  {
    if |b.buffer| <= b.offset { return [], Some(OutOfRange); }
    var length := b.buffer[b.offset];
    b.offset := b.offset + 1;
    name := Slice(b.buffer, b.offset, b.offset + length);
    b.offset := b.offset + length;
    error := None;
  }

  method ParseNames(b: Cursor) returns (metadataEncoding: Text, dataEncoding: Text, error: Option<ParseError>)
    modifies b
    ensures match NamesAt(b.buffer, old(b.offset))
            case Success((m, d, next)) =>
              error == None && metadataEncoding == m && dataEncoding == d && b.offset == next
            case Failure(e) => error == Some(e)
  {
    dataEncoding := [];
    metadataEncoding, error := ParseName(b);
    if error.None? {
      dataEncoding, error := ParseName(b);
    }
  }

  method ParseSetupFields(b: Cursor, lease: bool) returns (setup: SetupFields, error: Option<ParseError>)
    modifies b
    ensures match SetupAt(b.buffer, old(b.offset), lease)
            case Success((s, next)) => error == None && setup == s && b.offset == next
            case Failure(e) => error == Some(e)
  {
    var version, keepalive, maxLifetime;
    var metadataEncoding, dataEncoding: Text := [], [];
    version, keepalive, maxLifetime, error := ParseNumbers(b);
    if error.None? {
      metadataEncoding, dataEncoding, error := ParseNames(b);
    }
    setup := SetupFields(version, keepalive, maxLifetime, lease, metadataEncoding, dataEncoding);
  }

  method ParseSetupFrame(b: Cursor, frame: ParsedFrame) returns (error: Option<ParseError>)
    modifies b, frame
    ensures Reached(SetupStep(b.buffer, old(At(b, frame))), b, frame, error)
  {
    var setup;
    setup, error := ParseSetupFields(b, HasSharedFlag(frame.header.flags));
    if error.None? {
      frame.setup := Some(setup);
      frame.metadataEncoding := Some(setup.metadataEncoding);
      frame.dataEncoding := Some(setup.dataEncoding);
    }
  }

  method ParseErrorCode(b: Cursor, frame: ParsedFrame) returns (error: Option<ParseError>)
    modifies b, frame
    ensures Reached(ErrorCodeStep(b.buffer, old(At(b, frame))), b, frame, error)
  {
    if |b.buffer| < FRAME_HEADER_LENGTH + 4 { return Some(OutOfRange); }
    frame.errorCode := Some(GetU32(b.buffer, FRAME_HEADER_LENGTH));
    b.offset := b.offset + 4;
    error := None;
  }

  method ParseMetadata(b: Cursor, frame: ParsedFrame) returns (error: Option<ParseError>)
    modifies b, frame
    ensures Reached(MetadataStep(b.buffer, old(At(b, frame))), b, frame, error)
  {
    error := None;
    if HasMetadataFlag(frame.header.flags) {
      if |b.buffer| < b.offset + 4 { return Some(OutOfRange); }
      var mdLength: int := GetU32(b.buffer, b.offset) - METADATA_LENGTH;
      var start := b.offset + METADATA_LENGTH;
      frame.metadata := Some(Slice(b.buffer, start, start + mdLength));
      b.offset := start + mdLength;
    }
  }

  method ParseData(b: Cursor, frame: ParsedFrame)
    modifies b, frame
    ensures At(b, frame) == DataStep(b.buffer, old(At(b, frame)))
  {
    frame.data := Some(Slice(b.buffer, b.offset, |b.buffer|));
    b.offset := |b.buffer|;
  }

  method ParseLeaseFrame(b: Cursor, frame: ParsedFrame) returns (error: Option<ParseError>)
    requires frame.header.typ == LEASE
    modifies b, frame
    ensures Reached(BodyStep(b.buffer, old(At(b, frame))), b, frame, error)
  {
    if |b.buffer| < b.offset + 8 { return Some(OutOfRange); }
    frame.ttl := Some(GetU32(b.buffer, b.offset));
    b.offset := b.offset + 4;
    frame.budget := Some(GetU32(b.buffer, b.offset));
    b.offset := b.offset + 4;
    error := ParseMetadata(b, frame);
  }

  method ParseKeepaliveFrame(b: Cursor, frame: ParsedFrame)
    requires frame.header.typ == KEEPALIVE
    modifies b, frame
    ensures Reached(BodyStep(b.buffer, old(At(b, frame))), b, frame, None)
  {
    frame.response := Some(HasSharedFlag(frame.header.flags));
    ParseData(b, frame);
  }

  method ParseBody(b: Cursor, frame: ParsedFrame) returns (error: Option<ParseError>)
    modifies b, frame
    ensures Reached(BodyStep(b.buffer, old(At(b, frame))), b, frame, error)
  {
    error := None;
    var typ := frame.header.typ;
    if typ == SETUP {
      error := ParseSetupFrame(b, frame);
      if error.None? { error := ParseMetadata(b, frame); }
      if error.None? { ParseData(b, frame); }
    } else if typ == ERROR {
      error := ParseErrorCode(b, frame);
      if error.None? { error := ParseMetadata(b, frame); }
      if error.None? { ParseData(b, frame); }
    } else if typ == LEASE {
      error := ParseLeaseFrame(b, frame);
    } else if typ == KEEPALIVE {
      ParseKeepaliveFrame(b, frame);
    } else if typ == CANCEL {
      error := ParseMetadata(b, frame);
    } else if typ == RESPONSE || typ == REQUEST_RESPONSE {
      error := ParseMetadata(b, frame);
      if error.None? { ParseData(b, frame); }
    } else if typ in {NEXT, COMPLETE, NEXT_COMPLETE, REQUEST_CHANNEL, REQUEST_N} {
      error := Some(NotImplemented(typ));
    } else {
      error := Some(UnknownType(typ));
    }
  }

  method Parse(buf: Text, dataEncoding: Option<Text>, metadataEncoding: Option<Text>)
    returns (frame: ParsedFrame, error: Option<ParseError>)
    ensures fresh(frame)
    ensures match Parsing.Parse(buf, metadataEncoding, dataEncoding)
            case Success(p) => error == None && frame.Value() == p
            case Failure(e) => error == Some(e)
  {
    var b := new Cursor(buf);
    frame := new ParsedFrame(metadataEncoding, dataEncoding);
    error := ParseHeader(b, frame);
    if error.None? { error := ParseBody(b, frame); }
  }
}
