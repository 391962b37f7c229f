/** What `parse` does to any byte string: the frame it builds, or the error it throws. */
module Parsing {
  import opened Results
  import opened Bytes
  import opened Frames

  datatype HeaderFields = HeaderFields(length: nat, typ: nat, flags: nat, streamId: nat)

  datatype SetupFields = SetupFields(
    version: nat, keepalive: nat, maxLifetime: nat, lease: bool,
    metadataEncoding: Text, dataEncoding: Text)

  /** The object returned by `parse`; a property the parser does not set is None. */
  datatype Parsed = Parsed(
    header: HeaderFields,
    setup: Option<SetupFields>,
    errorCode: Option<nat>,
    ttl: Option<nat>,
    budget: Option<nat>,
    response: Option<bool>,
    metadata: Option<Text>,
    data: Option<Text>,
    metadataEncoding: Option<Text>,
    dataEncoding: Option<Text>)

  datatype ParseError =
    | OutOfRange                                  // a read past the end of the buffer
    | LengthMismatch(length: nat, actual: nat)
    | NotImplemented(typ: nat)
    | UnknownType(typ: nat)

  /** How far the parser has come: the read position and the frame built so far. */
  datatype Progress = Progress(offset: nat, frame: Parsed)

  type Step = Result<Progress, ParseError>

  function Blank(metadataEncoding: Option<Text>, dataEncoding: Option<Text>): Parsed {
    Parsed(HeaderFields(0, 0, 0, 0), None, None, None, None, None, None, None, metadataEncoding, dataEncoding)
  }

  function ReadU8(buf: Text, i: nat): Result<nat, ParseError> {
    if i < |buf| then Success(buf[i]) else Failure(OutOfRange)
  }

  function ReadU16(buf: Text, i: nat): Result<nat, ParseError> {
    if i + 2 <= |buf| then Success(GetU16(buf, i)) else Failure(OutOfRange)
  }

  function ReadU32(buf: Text, i: nat): Result<nat, ParseError> {
    if i + 4 <= |buf| then Success(GetU32(buf, i)) else Failure(OutOfRange)
  }

  function HeaderStep(buf: Text, p: Progress): Step {
    var length :- ReadU32(buf, 0);
    if |buf| != length then Failure(LengthMismatch(length, |buf|))
    else
      var typ :- ReadU16(buf, 4);
      var flags :- ReadU16(buf, 6);
      var streamId :- ReadU32(buf, 8);
      Success(Progress(p.offset + FRAME_HEADER_LENGTH, p.frame.(header := HeaderFields(length, typ, flags, streamId))))
  }

  /** A name with a one-byte length, and the position after it. The length byte must exist;
      the name itself is cut short by the end of the buffer. */
  function NameAt(buf: Text, i: nat): Result<(Text, nat), ParseError> {
    var length :- ReadU8(buf, i);
    Success((Slice(buf, i + 1, i + 1 + length), i + 1 + length))
  }

  /** Protocol version, keepalive interval and maximum lifetime. */
  function NumbersAt(buf: Text, i: nat): Result<(nat, nat, nat), ParseError> {
    if |buf| < i + 12 then Failure(OutOfRange)
    else Success((GetU32(buf, i), GetU32(buf, i + 4), GetU32(buf, i + 8)))
  }

  function NamesAt(buf: Text, i: nat): Result<(Text, Text, nat), ParseError> {
    var (metadataEncoding, j) :- NameAt(buf, i);
    var (dataEncoding, k) :- NameAt(buf, j);
    Success((metadataEncoding, dataEncoding, k))
  }

  function SetupAt(buf: Text, i: nat, lease: bool): Result<(SetupFields, nat), ParseError> {
    var (version, keepalive, maxLifetime) :- NumbersAt(buf, i);
    var (metadataEncoding, dataEncoding, next) :- NamesAt(buf, i + 12);
    Success((SetupFields(version, keepalive, maxLifetime, lease, metadataEncoding, dataEncoding), next))
  }

  function SetupStep(buf: Text, p: Progress): Step {
    var (setup, next) :- SetupAt(buf, p.offset, HasSharedFlag(p.frame.header.flags));
    Success(Progress(next, p.frame.(setup := Some(setup),
                                    metadataEncoding := Some(setup.metadataEncoding),
                                    dataEncoding := Some(setup.dataEncoding))))
  }

  /** The error code is always read right after the header. */
  function ErrorCodeStep(buf: Text, p: Progress): Step {
    var code :- ReadU32(buf, FRAME_HEADER_LENGTH);
    Success(Progress(p.offset + 4, p.frame.(errorCode := Some(code))))
  }

  function LeaseStep(buf: Text, p: Progress): Step {
    if |buf| < p.offset + 8 then Failure(OutOfRange)
    else Success(Progress(p.offset + 8, p.frame.(ttl := Some(GetU32(buf, p.offset)),
                                                 budget := Some(GetU32(buf, p.offset + 4)))))
  }

  function KeepaliveStep(p: Progress): Progress {
    p.(frame := p.frame.(response := Some(HasSharedFlag(p.frame.header.flags))))
  }

  /** The length prefix counts its own four bytes; a smaller one makes the cursor stand still or step back. */
  function MetadataStep(buf: Text, p: Progress): Step {
    if !HasMetadataFlag(p.frame.header.flags) then Success(p)
    else
      var prefix :- ReadU32(buf, p.offset);
      var start := p.offset + METADATA_LENGTH;
      Success(Progress(p.offset + prefix, p.frame.(metadata := Some(Slice(buf, start, p.offset + prefix)))))
  }

  function DataStep(buf: Text, p: Progress): Progress {
    Progress(|buf|, p.frame.(data := Some(Slice(buf, p.offset, |buf|))))
  }

  function MetadataAndData(buf: Text, p: Progress): Step {
    var q :- MetadataStep(buf, p);
    Success(DataStep(buf, q))
  }

  function BodyStep(buf: Text, p: Progress): Step {
    var typ := p.frame.header.typ;
    if typ == SETUP then
      var q :- SetupStep(buf, p);
      MetadataAndData(buf, q)
    else if typ == ERROR then
      var q :- ErrorCodeStep(buf, p);
      MetadataAndData(buf, q)
    else if typ == LEASE then
      var q :- LeaseStep(buf, p);
      MetadataStep(buf, q)
    else if typ == KEEPALIVE then Success(DataStep(buf, KeepaliveStep(p)))
    else if typ == CANCEL then MetadataStep(buf, p)
    else if typ in {RESPONSE, REQUEST_RESPONSE} then MetadataAndData(buf, p)
    else if typ in {NEXT, COMPLETE, NEXT_COMPLETE, REQUEST_CHANNEL, REQUEST_N} then Failure(NotImplemented(typ))
    else Failure(UnknownType(typ))
  }

  function Parse(buf: Text, metadataEncoding: Option<Text>, dataEncoding: Option<Text>): Result<Parsed, ParseError> {
    var p :- HeaderStep(buf, Progress(0, Blank(metadataEncoding, dataEncoding)));
    var q :- BodyStep(buf, p);
    Success(q.frame)
  }
}
