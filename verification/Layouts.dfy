/** The bytes of a written frame, position by position, and the byte strings the parser accepts. */
module Layouts {
  import opened Results
  import opened Bytes
  import opened Frames
  import opened Parsing
  import opened RoundTrip

  /// What is written

  /** Where the payload starts. */
  function PayloadStart(f: Frame): nat {
    if f.typ == SETUP then 26 + |f.metadataEncoding| + |f.dataEncoding|
    else if f.typ == LEASE then 20
    else if f.typ == ERROR then 16
    else 12
  }

  /** The type fields, at their places. */
  predicate FieldsAt(s: Text, f: Frame)
    requires PayloadStart(f) <= |s|
  {
    if f.typ == SETUP then
      var m := |f.metadataEncoding|;
      && BigEndian(s[12..16]) == f.version
      && BigEndian(s[16..20]) == f.keepalive
      && BigEndian(s[20..24]) == f.maxLifetime
      && s[24] == m && s[25..25 + m] == f.metadataEncoding
      && s[25 + m] == |f.dataEncoding| && s[26 + m..PayloadStart(f)] == f.dataEncoding
    else if f.typ == LEASE then BigEndian(s[12..16]) == f.ttl && BigEndian(s[16..20]) == f.budget
    else if f.typ == ERROR then BigEndian(s[12..16]) == f.errorCode
    else true
  }

  /** Metadata behind a length that counts itself, if there is any, then data up to the end. */
  predicate PayloadAt(s: Text, start: nat, f: Frame)
    requires start <= |s|
  {
    if f.metadata == [] then s[start..] == f.data
    else
      var end := start + 4 + |f.metadata|;
      && end <= |s| && BigEndian(s[start..start + 4]) == |f.metadata| + 4
      && s[start + 4..end] == f.metadata && s[end..] == f.data
  }

  /** Every frame whose numbers fit their fields can be written. */
  lemma FitsIsSerializable(f: Frame)
    requires f.typ in {0x1, 0x2, 0x3, 0x4, 0xA, 0xB, 0xC}
    requires f.flags < 0x1_0000 && f.streamId < 0x1_0000_0000
    requires f.version < 0x1_0000_0000 && f.keepalive < 0x1_0000_0000 && f.maxLifetime < 0x1_0000_0000
    requires f.ttl < 0x1_0000_0000 && f.budget < 0x1_0000_0000 && f.errorCode < 0x1_0000_0000
    requires |f.metadataEncoding| < 256 && |f.dataEncoding| < 256
    requires PayloadStart(f) + 4 + |f.metadata| + |f.data| < 0x1_0000_0000
    ensures Serializable(f)
  {}

  lemma HeaderAt(f: Frame)
    requires Serializable(f)
    ensures var s := Encode(f);
            && BigEndian(s[0..4]) == |s| && BigEndian(s[4..6]) == f.typ
            && FlagsAsSent(f, BigEndian(s[6..8])) && StreamIdAsSent(f, BigEndian(s[8..12]))
  {
    Cut3(Header(FrameLength(f), f.typ, WireFlags(f), WireStreamId(f)), TypeFields(f), Payload(f));
    HeaderNumbersAt(Encode(f), FrameLength(f), f.typ, WireFlags(f), WireStreamId(f));
    SentAsStated(f);
  }

  lemma HeaderNumbersAt(s: Text, length: nat, typ: nat, flags: nat, streamId: nat)
    requires length < U32_LIMIT && typ < U16_LIMIT && flags < U16_LIMIT && streamId < U32_LIMIT
    requires |s| >= FRAME_HEADER_LENGTH && s[..FRAME_HEADER_LENGTH] == Header(length, typ, flags, streamId)
    ensures BigEndian(s[0..4]) == length && BigEndian(s[4..6]) == typ
    ensures BigEndian(s[6..8]) == flags && BigEndian(s[8..12]) == streamId
  {
    HeaderParts(length, typ, flags, streamId, s);
    ReadsBigEndian(s, 0);
    ReadsBigEndian(s, 4);
    ReadsBigEndian(s, 6);
    ReadsBigEndian(s, 8);
  }

  /** What a writer leaves in the frame object is what it has written: the numbers of the header, and nothing else. */
  lemma StampedIsWritten(f: Frame)
    requires Serializable(f)
    ensures var (s, r) := (Encode(f), Stamped(f));
            && r.length == BigEndian(s[0..4]) == |s| && r.typ == BigEndian(s[4..6])
            && r.flags == BigEndian(s[6..8]) && r.streamId == BigEndian(s[8..12])
            && r == f.(flags := r.flags, streamId := r.streamId, length := r.length)
  {
    Cut3(Header(FrameLength(f), f.typ, WireFlags(f), WireStreamId(f)), TypeFields(f), Payload(f));
    HeaderNumbersAt(Encode(f), FrameLength(f), f.typ, WireFlags(f), WireStreamId(f));
  }

  lemma NumberAt(s: Text, i: nat, n: nat)
    requires n < U32_LIMIT && i + 4 <= |s| && s[i..i + 4] == U32(n)
    ensures BigEndian(s[i..i + 4]) == n
  {
    WritesBigEndian(n);
  }

  lemma NamesAtPlaces(s: Text, f: Frame)
    requires InRange(f) && SetupSits(s, 12, f)
    ensures var m := |f.metadataEncoding|;
            && SetupEnd(12, f) == 26 + m + |f.dataEncoding| <= |s|
            && s[24] == m && s[25..25 + m] == f.metadataEncoding
            && s[25 + m] == |f.dataEncoding| && s[26 + m..26 + m + |f.dataEncoding|] == f.dataEncoding
  {
    var m, d := |f.metadataEncoding|, |f.dataEncoding|;
    var e1, e2 := s[24..25 + m], s[25 + m..26 + m + d];
    assert s[24] == e1[0] && s[25..25 + m] == e1[1..];
    assert s[25 + m] == e2[0] && s[26 + m..26 + m + d] == e2[1..];
  }

  lemma SetupNumbersAt(s: Text, f: Frame)
    requires InRange(f) && 24 <= |s| && s[12..24] == SetupNumbers(f)
    ensures BigEndian(s[12..16]) == f.version
    ensures BigEndian(s[16..20]) == f.keepalive
    ensures BigEndian(s[20..24]) == f.maxLifetime
  {
    Cut3(U32(f.version), U32(f.keepalive), U32(f.maxLifetime));
    SubSlice(s, 12, 24, 0, 4);
    SubSlice(s, 12, 24, 4, 8);
    SubSlice(s, 12, 24, 8, 12);
    NumberAt(s, 12, f.version);
    NumberAt(s, 16, f.keepalive);
    NumberAt(s, 20, f.maxLifetime);
  }

  lemma LeaseNumbersAt(s: Text, f: Frame)
    requires InRange(f) && 20 <= |s| && s[12..20] == U32(f.ttl) + U32(f.budget)
    ensures BigEndian(s[12..16]) == f.ttl && BigEndian(s[16..20]) == f.budget
  {
    var e := s[12..20];
    assert s[12..16] == e[..4] == U32(f.ttl) && s[16..20] == e[4..] == U32(f.budget);
    NumberAt(s, 12, f.ttl);
    NumberAt(s, 16, f.budget);
  }

  lemma FieldsPlaced(s: Text, f: Frame)
    requires Serializable(f) && FieldsSit(s, f)
    ensures FRAME_HEADER_LENGTH + |TypeFields(f)| == PayloadStart(f) <= |s| && FieldsAt(s, f)
  {
    if f.typ == SETUP {
      SetupFieldsSit(s, 12, f);
      NamesAtPlaces(s, f);
      SetupNumbersAt(s, f);
    } else if f.typ == LEASE {
      LeaseNumbersAt(s, f);
    } else if f.typ == ERROR {
      NumberAt(s, 12, f.errorCode);
    }
  }

  lemma PayloadPlaced(s: Text, start: nat, f: Frame)
    requires InRange(f) && start <= |s| && s[start..] == Payload(f)
    ensures PayloadAt(s, start, f)
  {
    if f.metadata != [] {
      PayloadParts(s, start, f);
      NumberAt(s, start, |f.metadata| + METADATA_LENGTH);
    }
  }

  /** The wire format: every number of a written frame is big-endian at its place, and every string at its. */
  lemma WireLayout(f: Frame)
    requires Serializable(f)
    ensures var s := Encode(f);
            && PayloadStart(f) <= |s|
            && BigEndian(s[0..4]) == |s| && BigEndian(s[4..6]) == f.typ
            && FlagsAsSent(f, BigEndian(s[6..8])) && StreamIdAsSent(f, BigEndian(s[8..12]))
            && FieldsAt(s, f) && PayloadAt(s, PayloadStart(f), f)
  {
    HeaderAt(f);
    Layout(f);
    FieldsPlaced(Encode(f), f);
    PayloadPlaced(Encode(f), PayloadStart(f), f);
  }

  /** A keepalive that asks for an answer, byte for byte. */
  lemma KeepaliveBytes(f: Frame)
    requires f.typ == 0x3 && f.response && f.metadata == [] && f.data == [7] && InRange(f)
    ensures Serializable(f)
    ensures Encode(f) == [0, 0, 0, 13, 0, 3, 0x20, 0, 0, 0, 0, 0, 7]
  {
    assert U32(13) == [0, 0, 0, 13] && U16(3) == [0, 3] && U16(0x2000) == [0x20, 0] && U32(0) == [0, 0, 0, 0];
  }

  /// What is accepted

  predicate MetadataBit(buf: Text)
    requires |buf| >= 12
  {
    BigEndian(buf[6..8]) / 0x4000 % 2 == 1
  }

  /** The bytes up to the payload, and the length of the metadata if it is announced, must be there. The names of a SETUP
      may be cut short. */
  predicate BodyAcceptable(buf: Text, typ: nat)
    requires |buf| >= 12
  {
    var prefix := if MetadataBit(buf) then 4 else 0;
    if typ == 0x1 then
      && |buf| > 24
      && var second := 25 + buf[24] as int;
         |buf| > second && (MetadataBit(buf) ==> second + 1 + buf[second] as int + 4 <= |buf|)
    else if typ == 0x2 then 20 + prefix <= |buf|
    else if typ == 0x3 then true
    else if typ == 0xC then 16 + prefix <= |buf|
    else typ in {0x4, 0xA, 0xB} && 12 + prefix <= |buf|
  }

  predicate Acceptable(buf: Text) {
    |buf| >= 12 && BigEndian(buf[0..4]) == |buf| && BodyAcceptable(buf, BigEndian(buf[4..6]))
  }

  lemma HeaderStepExactly(buf: Text, p: Progress)
    ensures var r := HeaderStep(buf, p);
            && (r.Success? <==> |buf| >= 12 && BigEndian(buf[0..4]) == |buf|)
            && (r.Success? ==>
                  r.value == Progress(p.offset + 12, p.frame.(header := HeaderFields(
                    |buf|, BigEndian(buf[4..6]), BigEndian(buf[6..8]), BigEndian(buf[8..12])))))
            && (r.Failure? ==>
                  r.error == if |buf| >= 4 && BigEndian(buf[0..4]) != |buf| then
                               LengthMismatch(BigEndian(buf[0..4]), |buf|)
                             else OutOfRange)
  {
    ReadsBigEndian(buf, 0);
    ReadsBigEndian(buf, 4);
    ReadsBigEndian(buf, 6);
    ReadsBigEndian(buf, 8);
  }

  lemma MetadataStepExactly(buf: Text, p: Progress)
    ensures MetadataStep(buf, p).Success? <==> (HasMetadataFlag(p.frame.header.flags) ==> p.offset + 4 <= |buf|)
    ensures MetadataStep(buf, p).Failure? ==> MetadataStep(buf, p).error == OutOfRange
  {}

  lemma SetupStepExactly(buf: Text, p: Progress)
    requires p.offset == 12
    ensures var r := SetupStep(buf, p);
            && (r.Success? <==> |buf| > 24 && |buf| > 25 + buf[24] as int)
            && (r.Success? ==> r.value.offset == 26 + buf[24] as int + buf[25 + buf[24] as int] as int
                               && r.value.frame.header == p.frame.header)
            && (r.Failure? ==> r.error == OutOfRange)
  {}

  predicate Pending(typ: nat) {
    typ in {0x8, 0x9, 0xE, 0xF, 0x10}
  }

  predicate Known(typ: nat) {
    typ in {0x1, 0x2, 0x3, 0x4, 0xA, 0xB, 0xC}
  }

  lemma BodyStepExactly(buf: Text, p: Progress)
    requires |buf| >= 12 && p.offset == 12
    requires p.frame.header.typ == BigEndian(buf[4..6]) && p.frame.header.flags == BigEndian(buf[6..8])
    ensures var (r, typ) := (BodyStep(buf, p), p.frame.header.typ);
            && (r.Success? <==> BodyAcceptable(buf, typ))
            && (r.Failure? ==>
                  r.error == if Known(typ) then OutOfRange
                             else if Pending(typ) then NotImplemented(typ) else UnknownType(typ))
  {
    var typ := p.frame.header.typ;
    if typ == SETUP {
      SetupStepExactly(buf, p);
      if SetupStep(buf, p).Success? { MetadataStepExactly(buf, SetupStep(buf, p).value); }
    } else if typ == ERROR {
      if ErrorCodeStep(buf, p).Success? { MetadataStepExactly(buf, ErrorCodeStep(buf, p).value); }
    } else if typ == LEASE {
      if LeaseStep(buf, p).Success? { MetadataStepExactly(buf, LeaseStep(buf, p).value); }
    } else {
      MetadataStepExactly(buf, p);
    }
  }

  /** For every byte string: the parser accepts it if and only if the length field is right, the type is one of the seven,
      and the fixed fields are there; and the error says which of these fails. */
  lemma AcceptsExactly(buf: Text, metadataEncoding: Option<Text>, dataEncoding: Option<Text>)
    ensures var r := Parse(buf, metadataEncoding, dataEncoding);
            && (r.Success? <==> Acceptable(buf))
            && (r.Failure? ==>
                  r.error ==
                    if |buf| >= 4 && BigEndian(buf[0..4]) != |buf| then LengthMismatch(BigEndian(buf[0..4]), |buf|)
                    else if |buf| < 12 || Known(BigEndian(buf[4..6])) then OutOfRange
                    else if Pending(BigEndian(buf[4..6])) then NotImplemented(BigEndian(buf[4..6]))
                    else UnknownType(BigEndian(buf[4..6])))
  {
    var start := Progress(0, Blank(metadataEncoding, dataEncoding));
    HeaderStepExactly(buf, start);
    if HeaderStep(buf, start).Success? {
      BodyStepExactly(buf, HeaderStep(buf, start).value);
    }
  }
}
