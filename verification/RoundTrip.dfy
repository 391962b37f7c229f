/** Parsing what a writer wrote: for which frames every field comes back, and what happens to the others. */
module RoundTrip {
  import opened Results
  import opened Bytes
  import opened Frames
  import opened Parsing

  function SentSetup(f: Frame, lease: bool): SetupFields {
    SetupFields(f.version, f.keepalive, f.maxLifetime, lease, f.metadataEncoding, f.dataEncoding)
  }

  /** Connection-wide frames travel on stream 0, all others on the stream of their sender. */
  predicate StreamIdAsSent(f: Frame, streamId: nat) {
    streamId == if f.typ == SETUP || f.typ == LEASE || f.typ == KEEPALIVE then 0 else f.streamId
  }

  /** SETUP, requests and responses carry all bits of the caller, and METADATA whenever metadata is sent; keepalives carry
      the response bit only, and the others METADATA only. */
  predicate FlagsAsSent(f: Frame, flags: nat) {
    if f.typ == SETUP || f.typ == REQUEST_RESPONSE || f.typ == RESPONSE then
      if f.metadata == [] || f.flags / 0x4000 % 2 == 1 then flags == f.flags else flags == f.flags + 0x4000
    else if f.typ == KEEPALIVE then flags == if f.response then 0x2000 else 0
    else flags == if f.metadata != [] then 0x4000 else 0
  }

  lemma SentAsStated(f: Frame)
    requires Serializable(f)
    ensures FlagsAsSent(f, WireFlags(f)) && StreamIdAsSent(f, WireStreamId(f))
  {}

  /** The parsed object says everything the sender said. Absent and empty payload parts are the same. */
  predicate Recovers(f: Frame, p: Parsed)
    requires Serializable(f)
  {
    && p.header.length == |Encode(f)| && p.header.typ == f.typ
    && StreamIdAsSent(f, p.header.streamId) && FlagsAsSent(f, p.header.flags)
    && (f.typ == SETUP ==>
          p.setup == Some(SentSetup(f, HasSharedFlag(f.flags))))
    && (f.typ == ERROR ==> p.errorCode == Some(f.errorCode))
    && (f.typ == LEASE ==> p.ttl == Some(f.ttl) && p.budget == Some(f.budget))
    && (f.typ == KEEPALIVE ==> p.response == Some(f.response))
    && p.metadata.GetOr([]) == f.metadata
    && p.data.GetOr([]) == f.data
  }

  /** The frames that survive the wire. A sender can check this before the call: no data on a lease or
      cancel, no metadata on a keepalive, and no METADATA flag without metadata (harmless only when the data
      happens to start with four zero bytes). */
  predicate Faithful(f: Frame)
    requires InRange(f)
  {
    if f.typ in {LEASE, CANCEL} then f.data == []
    else if f.typ == KEEPALIVE then f.metadata == []
    else if KeepsCallerFlags(f.typ) then
      f.metadata == [] && HasMetadataFlag(f.flags) ==> |f.data| >= 4 && GetU32(f.data, 0) == 0
    else true
  }

  function ParseWritten(f: Frame, metadataEncoding: Option<Text>, dataEncoding: Option<Text>)
    : Result<Parsed, ParseError>
    requires Serializable(f)
  {
    Parse(Encode(f), metadataEncoding, dataEncoding)
  }

  function WrittenHeader(f: Frame): HeaderFields
    requires Serializable(f)
  {
    HeaderFields(FrameLength(f), f.typ, WireFlags(f), WireStreamId(f))
  }

  lemma HeaderParts(length: nat, typ: nat, flags: nat, streamId: nat, s: Text)
    requires length < U32_LIMIT && typ < U16_LIMIT && flags < U16_LIMIT && streamId < U32_LIMIT
    requires |s| >= FRAME_HEADER_LENGTH && s[..FRAME_HEADER_LENGTH] == Header(length, typ, flags, streamId)
    ensures GetU32(s, 0) == length && GetU16(s, 4) == typ && GetU16(s, 6) == flags && GetU32(s, 8) == streamId
  {
    var h := Header(length, typ, flags, streamId);
    var a, b, c, d := U32(length), U16(typ), U16(flags), U32(streamId);
    Cut4(a, b, c, d);
    assert s[0..4] == s[..12][0..4];
    assert s[4..6] == s[..12][4..6];
    assert s[6..8] == s[..12][6..8];
    assert s[8..12] == s[..12][8..12];
    ReadBackU32(s, 0, length);
    ReadBackU16(s, 4, typ);
    ReadBackU16(s, 6, flags);
    ReadBackU32(s, 8, streamId);
  }

  lemma Cut4(a: Text, b: Text, c: Text, d: Text)
    ensures var s := a + b + c + d;
            && s[..|a|] == a
            && s[|a|..|a| + |b|] == b
            && s[|a| + |b|..|a| + |b| + |c|] == c
            && s[|a| + |b| + |c|..] == d
  {}

  lemma Cut3(a: Text, b: Text, c: Text)
    ensures var s := a + b + c;
            && s[..|a|] == a
            && s[|a|..|a| + |b|] == b
            && s[|a| + |b|..] == c
  {}

  lemma SubSlice(s: Text, i: nat, j: nat, a: nat, b: nat)
    requires i <= j <= |s| && a <= b <= j - i
    ensures s[i..j][a..b] == s[i + a..i + b]
  {
    forall k | 0 <= k < b - a
      ensures s[i..j][a..b][k] == s[i + a..i + b][k]
    {
      assert s[i..j][a + k] == s[i + a + k];
    }
  }

  lemma SubTail(s: Text, i: nat, a: nat)
    requires i <= |s| && a <= |s| - i
    ensures s[i..][a..] == s[i + a..] == s[i + a..|s|]
  {}

  /** The header comes back, and the length check never throws on a written frame. */
  lemma HeaderReads(f: Frame, blank: Parsed)
    requires Serializable(f)
    ensures HeaderStep(Encode(f), Progress(0, blank))
         == Success(Progress(FRAME_HEADER_LENGTH, blank.(header := WrittenHeader(f))))
  {
    var s := Encode(f);
    Cut3(Header(FrameLength(f), f.typ, WireFlags(f), WireStreamId(f)), TypeFields(f), Payload(f));
    HeaderParts(FrameLength(f), f.typ, WireFlags(f), WireStreamId(f), s);
  }

  lemma PayloadParts(s: Text, i: nat, f: Frame)
    requires InRange(f) && f.metadata != [] && i <= |s| && s[i..] == Payload(f)
    ensures var n := |f.metadata| + METADATA_LENGTH;
            i + n <= |s| && s[i..i + 4] == U32(n) && s[i + 4..i + n] == f.metadata && s[i + n..] == f.data
  {
    var n := |f.metadata| + METADATA_LENGTH;
    var prefix := U32(n);
    assert |Payload(f)| == n + |f.data|;
    Cut3(prefix, f.metadata, f.data);
    assert s[i..] == s[i..|s|];
    SubSlice(s, i, |s|, 0, 4);
    SubSlice(s, i, |s|, 4, n);
    SubTail(s, i, n);
  }

  lemma MetadataReads(s: Text, p: Progress, f: Frame)
    requires InRange(f) && f.metadata != []
    requires p.offset <= |s| && s[p.offset..] == Payload(f)
    requires HasMetadataFlag(p.frame.header.flags)
    ensures var next := p.offset + METADATA_LENGTH + |f.metadata|;
            && MetadataStep(s, p) == Success(Progress(next, p.frame.(metadata := Some(f.metadata))))
            && next <= |s| && s[next..] == f.data
  {
    var n := |f.metadata| + METADATA_LENGTH;
    PayloadParts(s, p.offset, f);
    ReadBackU32(s, p.offset, n);
    MetadataTaken(s, p, n);
  }

  lemma MetadataTaken(s: Text, p: Progress, n: nat)
    requires METADATA_LENGTH <= n && p.offset + n <= |s| && GetU32(s, p.offset) == n
    requires HasMetadataFlag(p.frame.header.flags)
    ensures MetadataStep(s, p)
         == Success(Progress(p.offset + n, p.frame.(metadata := Some(s[p.offset + 4..p.offset + n]))))
  {}

  /** Flag and payload agree: metadata and data both come back. */
  lemma PayloadReads(s: Text, p: Progress, f: Frame)
    requires InRange(f)
    requires p.offset <= |s| && s[p.offset..] == Payload(f)
    requires HasMetadataFlag(p.frame.header.flags) <==> f.metadata != []
    requires p.frame.metadata == None
    ensures MetadataAndData(s, p)
         == Success(Progress(|s|, p.frame.(metadata := if f.metadata == [] then None else Some(f.metadata),
                                           data := Some(f.data))))
  {
    if f.metadata == [] {
      SubTail(s, p.offset, 0);
    } else {
      MetadataReads(s, p, f);
      var next := p.offset + METADATA_LENGTH + |f.metadata|;
      assert s[next..] == s[next..|s|];
    }
  }

  /** The flag promises metadata that was never written: the first data bytes are taken for its length. */
  lemma FlagWithoutMetadata(s: Text, p: Progress, data: Text)
    requires p.offset <= |s| && s[p.offset..] == data
    requires HasMetadataFlag(p.frame.header.flags) && p.frame.metadata == None
    ensures var r := MetadataAndData(s, p);
            (r.Success? && r.value.frame.metadata.GetOr([]) == [] && r.value.frame.data.GetOr([]) == data)
            <==> |data| >= 4 && GetU32(data, 0) == 0
  {
    if |data| >= 4 {
      assert s[p.offset..p.offset + 4] == data[..4];
      assert s[p.offset] == data[0] && s[p.offset + 1] == data[1]
          && s[p.offset + 2] == data[2] && s[p.offset + 3] == data[3];
      assert GetU32(s, p.offset) == GetU32(data, 0);
    }
  }

  lemma NameReads(s: Text, i: nat, name: Text)
    requires |name| < 256 && i + |EncodingName(name)| <= |s|
    requires s[i..i + |EncodingName(name)|] == EncodingName(name)
    ensures NameAt(s, i) == Success((name, i + 1 + |name|))
  {
    var e := s[i..i + 1 + |name|];
    assert s[i] == e[0];
    assert s[i + 1..i + 1 + |name|] == e[1..];
  }

  lemma NumbersRead(s: Text, i: nat, f: Frame)
    requires InRange(f) && i + 12 <= |s| && s[i..i + 12] == SetupNumbers(f)
    ensures NumbersAt(s, i) == Success((f.version, f.keepalive, f.maxLifetime))
  {
    Cut3(U32(f.version), U32(f.keepalive), U32(f.maxLifetime));
    SubSlice(s, i, i + 12, 0, 4);
    SubSlice(s, i, i + 12, 4, 8);
    SubSlice(s, i, i + 12, 8, 12);
    ReadBackU32(s, i, f.version);
    ReadBackU32(s, i + 4, f.keepalive);
    ReadBackU32(s, i + 8, f.maxLifetime);
  }

  lemma NamesRead(s: Text, i: nat, a: Text, b: Text)
    requires |a| < 256 && |b| < 256
    requires i + |EncodingName(a)| + |EncodingName(b)| <= |s|
    requires s[i..i + |EncodingName(a)|] == EncodingName(a)
    requires var j := i + |EncodingName(a)|; s[j..j + |EncodingName(b)|] == EncodingName(b)
    ensures NamesAt(s, i) == Success((a, b, i + |EncodingName(a)| + |EncodingName(b)|))
  {
    NameReads(s, i, a);
    NameReads(s, i + |EncodingName(a)|, b);
  }

  lemma SetupCombines(s: Text, i: nat, lease: bool, f: Frame, next: nat)
    requires NumbersAt(s, i) == Success((f.version, f.keepalive, f.maxLifetime))
    requires NamesAt(s, i + 12) == Success((f.metadataEncoding, f.dataEncoding, next))
    ensures SetupAt(s, i, lease) == Success((SentSetup(f, lease), next))
  {}

  /** The setup fields written are the setup fields read. */
  lemma SetupReads(s: Text, i: nat, lease: bool, f: Frame)
    requires InRange(f) && SetupSits(s, i, f)
    ensures SetupAt(s, i, lease) == Success((SentSetup(f, lease), SetupEnd(i, f)))
  {
    NumbersRead(s, i, f);
    NamesRead(s, i + 12, f.metadataEncoding, f.dataEncoding);
    SetupCombines(s, i, lease, f, SetupEnd(i, f));
  }

  function SetupEnd(i: nat, f: Frame): nat
    requires InRange(f)
  {
    i + 12 + |EncodingName(f.metadataEncoding)| + |EncodingName(f.dataEncoding)|
  }

  /** The three parts of the setup fields stand one after the other from `i` on. */
  ghost predicate SetupSits(s: Text, i: nat, f: Frame)
    requires InRange(f)
  {
    var (j, k) := (i + 12 + |EncodingName(f.metadataEncoding)|, SetupEnd(i, f));
    && k <= |s|
    && s[i..i + 12] == SetupNumbers(f)
    && s[i + 12..j] == EncodingName(f.metadataEncoding)
    && s[j..k] == EncodingName(f.dataEncoding)
  }

  lemma SetupFieldsSit(s: Text, i: nat, f: Frame)
    requires InRange(f) && f.typ == SETUP
    requires i + |TypeFields(f)| <= |s| && s[i..i + |TypeFields(f)|] == TypeFields(f)
    ensures SetupEnd(i, f) == i + |TypeFields(f)| && SetupSits(s, i, f)
  {
    SetupParts(s, i, SetupNumbers(f), EncodingName(f.metadataEncoding), EncodingName(f.dataEncoding));
  }

  lemma SetupParts(s: Text, i: nat, a: Text, b: Text, c: Text)
    requires i + |a| + |b| + |c| <= |s| && s[i..i + |a| + |b| + |c|] == a + b + c
    ensures var (j, k) := (i + |a|, i + |a| + |b|);
            s[i..j] == a && s[j..k] == b && s[k..k + |c|] == c
  {
    var end := i + |a| + |b| + |c|;
    Cut3(a, b, c);
    SubSlice(s, i, end, 0, |a|);
    SubSlice(s, i, end, |a|, |a| + |b|);
    SubSlice(s, i, end, |a| + |b|, |a| + |b| + |c|);
  }

  lemma LeaseReads(s: Text, p: Progress, f: Frame)
    requires InRange(f) && p.offset + 8 <= |s| && s[p.offset..p.offset + 8] == U32(f.ttl) + U32(f.budget)
    ensures LeaseStep(s, p) == Success(Progress(p.offset + 8, p.frame.(ttl := Some(f.ttl), budget := Some(f.budget))))
  {
    var e := s[p.offset..p.offset + 8];
    assert s[p.offset..p.offset + 4] == e[..4] == U32(f.ttl);
    assert s[p.offset + 4..p.offset + 8] == e[4..] == U32(f.budget);
    ReadBackU32(s, p.offset, f.ttl);
    ReadBackU32(s, p.offset + 4, f.budget);
  }

  lemma ErrorCodeReads(s: Text, p: Progress, f: Frame)
    requires InRange(f) && p.offset == FRAME_HEADER_LENGTH && p.offset + 4 <= |s|
    requires s[p.offset..p.offset + 4] == U32(f.errorCode)
    ensures ErrorCodeStep(s, p) == Success(Progress(p.offset + 4, p.frame.(errorCode := Some(f.errorCode))))
  {
    ReadBackU32(s, FRAME_HEADER_LENGTH, f.errorCode);
  }

  /** Where the parts of a written frame sit. */
  lemma Layout(f: Frame)
    requires Serializable(f)
    ensures var s := Encode(f);
            var start := FRAME_HEADER_LENGTH + |TypeFields(f)|;
            && start <= |s|
            && s[FRAME_HEADER_LENGTH..start] == TypeFields(f)
            && s[start..] == Payload(f)
  {
    Cut3(Header(FrameLength(f), f.typ, WireFlags(f), WireStreamId(f)), TypeFields(f), Payload(f));
  }

  /** The parser's state when it reaches the payload of a written frame. */
  function AtPayload(f: Frame, metadataEncoding: Option<Text>, dataEncoding: Option<Text>): Progress
    requires Serializable(f)
  {
    var p := Blank(metadataEncoding, dataEncoding);
    Progress(
      FRAME_HEADER_LENGTH + |TypeFields(f)|,
      p.(header := WrittenHeader(f),
         setup := if f.typ == SETUP then Some(SentSetup(f, HasSharedFlag(WireFlags(f)))) else None,
         metadataEncoding := if f.typ == SETUP then Some(f.metadataEncoding) else metadataEncoding,
         dataEncoding := if f.typ == SETUP then Some(f.dataEncoding) else dataEncoding,
         errorCode := if f.typ == ERROR then Some(f.errorCode) else None,
         ttl := if f.typ == LEASE then Some(f.ttl) else None,
         budget := if f.typ == LEASE then Some(f.budget) else None,
         response := if f.typ == KEEPALIVE then Some(f.response) else None))
  }

  function PayloadStep(typ: nat, s: Text, p: Progress): Step {
    if typ == KEEPALIVE then Success(DataStep(s, p))
    else if typ in {LEASE, CANCEL} then MetadataStep(s, p)
    else MetadataAndData(s, p)
  }

  function AtFields(f: Frame, metadataEncoding: Option<Text>, dataEncoding: Option<Text>): Progress
    requires Serializable(f)
  {
    Progress(FRAME_HEADER_LENGTH, Blank(metadataEncoding, dataEncoding).(header := WrittenHeader(f)))
  }

  function FilledIn(p: Parsed, setup: SetupFields): Parsed {
    p.(setup := Some(setup), metadataEncoding := Some(setup.metadataEncoding), dataEncoding := Some(setup.dataEncoding))
  }

  lemma SetupFills(s: Text, p: Progress, setup: SetupFields, next: nat)
    requires SetupAt(s, p.offset, HasSharedFlag(p.frame.header.flags)) == Success((setup, next))
    ensures SetupStep(s, p) == Success(Progress(next, FilledIn(p.frame, setup)))
  {}

  lemma SetupStepReads(s: Text, p: Progress, f: Frame, lease: bool)
    requires InRange(f) && SetupSits(s, p.offset, f) && lease == HasSharedFlag(p.frame.header.flags)
    ensures SetupStep(s, p) == Success(Progress(SetupEnd(p.offset, f), FilledIn(p.frame, SentSetup(f, lease))))
  {
    SetupReads(s, p.offset, lease, f);
    SetupFills(s, p, SentSetup(f, lease), SetupEnd(p.offset, f));
  }

  lemma SetupFieldsRead(s: Text, p: Progress, f: Frame, lease: bool, end: nat)
    requires InRange(f) && f.typ == SETUP && lease == HasSharedFlag(p.frame.header.flags)
    requires end == p.offset + |TypeFields(f)| <= |s| && s[p.offset..end] == TypeFields(f)
    ensures SetupStep(s, p) == Success(Progress(end, FilledIn(p.frame, SentSetup(f, lease))))
  {
    assert SetupEnd(p.offset, f) == end && SetupSits(s, p.offset, f) by { SetupFieldsSit(s, p.offset, f); }
    SetupStepReads(s, p, f, lease);
  }

  /** The part of the parser between header and payload. */
  function FieldsStep(typ: nat, s: Text, p: Progress): Step {
    if typ == SETUP then SetupStep(s, p)
    else if typ == ERROR then ErrorCodeStep(s, p)
    else if typ == LEASE then LeaseStep(s, p)
    else if typ == KEEPALIVE then Success(KeepaliveStep(p))
    else Success(p)
  }

  lemma BodySplits(s: Text, p: Progress, q: Progress)
    requires HasWriter(p.frame.header.typ) && FieldsStep(p.frame.header.typ, s, p) == Success(q)
    ensures BodyStep(s, p) == PayloadStep(p.frame.header.typ, s, q)
  {}

  /** The type fields of a written frame stand behind the header. */
  ghost predicate FieldsSit(s: Text, f: Frame)
    requires Serializable(f)
  {
    var end := FRAME_HEADER_LENGTH + |TypeFields(f)|;
    end <= |s| && s[FRAME_HEADER_LENGTH..end] == TypeFields(f)
  }

  lemma SetupFrameReads(s: Text, f: Frame, metadataEncoding: Option<Text>, dataEncoding: Option<Text>)
    requires Serializable(f) && f.typ == SETUP && FieldsSit(s, f)
    ensures SetupStep(s, AtFields(f, metadataEncoding, dataEncoding))
         == Success(AtPayload(f, metadataEncoding, dataEncoding))
  {
    var p, lease := AtFields(f, metadataEncoding, dataEncoding), HasSharedFlag(WireFlags(f));
    var end := FRAME_HEADER_LENGTH + |TypeFields(f)|;
    SetupFieldsRead(s, p, f, lease, end);
    SetupPayload(f, metadataEncoding, dataEncoding, lease, end);
  }

  lemma SetupPayload(f: Frame, metadataEncoding: Option<Text>, dataEncoding: Option<Text>, lease: bool, end: nat)
    requires Serializable(f) && f.typ == SETUP
    requires lease == HasSharedFlag(WireFlags(f)) && end == FRAME_HEADER_LENGTH + |TypeFields(f)|
    ensures AtPayload(f, metadataEncoding, dataEncoding)
         == Progress(end, FilledIn(AtFields(f, metadataEncoding, dataEncoding).frame, SentSetup(f, lease)))
  {}

  lemma ErrorFrameReads(s: Text, f: Frame, metadataEncoding: Option<Text>, dataEncoding: Option<Text>)
    requires Serializable(f) && f.typ == ERROR && FieldsSit(s, f)
    ensures ErrorCodeStep(s, AtFields(f, metadataEncoding, dataEncoding))
         == Success(AtPayload(f, metadataEncoding, dataEncoding))
  {
    ErrorCodeReads(s, AtFields(f, metadataEncoding, dataEncoding), f);
  }

  lemma LeaseFrameReads(s: Text, f: Frame, metadataEncoding: Option<Text>, dataEncoding: Option<Text>)
    requires Serializable(f) && f.typ == LEASE && FieldsSit(s, f)
    ensures LeaseStep(s, AtFields(f, metadataEncoding, dataEncoding))
         == Success(AtPayload(f, metadataEncoding, dataEncoding))
  {
    LeaseReads(s, AtFields(f, metadataEncoding, dataEncoding), f);
  }

  lemma FieldsRead(s: Text, f: Frame, metadataEncoding: Option<Text>, dataEncoding: Option<Text>)
    requires Serializable(f) && FieldsSit(s, f)
    ensures FieldsStep(f.typ, s, AtFields(f, metadataEncoding, dataEncoding))
         == Success(AtPayload(f, metadataEncoding, dataEncoding))
  {
    if f.typ == SETUP {
      SetupFrameReads(s, f, metadataEncoding, dataEncoding);
    } else if f.typ == ERROR {
      ErrorFrameReads(s, f, metadataEncoding, dataEncoding);
    } else if f.typ == LEASE {
      LeaseFrameReads(s, f, metadataEncoding, dataEncoding);
    }
  }

  lemma WrittenParses(f: Frame, metadataEncoding: Option<Text>, dataEncoding: Option<Text>)
    requires Serializable(f)
    ensures ParseWritten(f, metadataEncoding, dataEncoding)
         == var q := PayloadStep(f.typ, Encode(f), AtPayload(f, metadataEncoding, dataEncoding));
            if q.Success? then Success(q.value.frame) else Failure(q.error)
  {
    HeaderReads(f, Blank(metadataEncoding, dataEncoding));
    Layout(f);
    FieldsRead(Encode(f), f, metadataEncoding, dataEncoding);
    BodySplits(Encode(f), AtFields(f, metadataEncoding, dataEncoding), AtPayload(f, metadataEncoding, dataEncoding));
  }

  predicate PayloadRecovered(f: Frame, r: Step) {
    r.Success? && r.value.frame.metadata.GetOr([]) == f.metadata && r.value.frame.data.GetOr([]) == f.data
  }

  /** Of a keepalive only the data is read, of a lease or cancel only the metadata. */
  lemma HalfExactly(s: Text, p: Progress, f: Frame)
    requires f.typ in {KEEPALIVE, LEASE, CANCEL} && InRange(f)
    requires p.offset <= |s| && s[p.offset..] == Payload(f)
    requires p.frame.header.flags == WireFlags(f) && p.frame.metadata == None && p.frame.data == None
    ensures PayloadRecovered(f, PayloadStep(f.typ, s, p)) <==> Faithful(f)
  {
    SubTail(s, p.offset, 0);
    if f.typ != KEEPALIVE && f.metadata != [] {
      MetadataReads(s, p, f);
    }
  }

  /** The payload alone comes back exactly for the faithful frames. */
  lemma PayloadExactly(s: Text, p: Progress, f: Frame)
    requires HasWriter(f.typ) && InRange(f)
    requires p.offset <= |s| && s[p.offset..] == Payload(f)
    requires p.frame.header.flags == WireFlags(f) && p.frame.metadata == None && p.frame.data == None
    ensures PayloadRecovered(f, PayloadStep(f.typ, s, p)) <==> Faithful(f)
  {
    if f.typ in {KEEPALIVE, LEASE, CANCEL} {
      HalfExactly(s, p, f);
    } else if f.metadata == [] && HasMetadataFlag(WireFlags(f)) {
      FlagWithoutMetadata(s, p, f.data);
    } else {
      PayloadReads(s, p, f);
    }
  }

  lemma PayloadKeepsFields(typ: nat, s: Text, p: Progress)
    ensures var r := PayloadStep(typ, s, p);
            r.Success? ==> r.value.frame == p.frame.(metadata := r.value.frame.metadata, data := r.value.frame.data)
  {}

  /** Round trip, exactly: a written frame comes back complete if and only if it is Faithful. */
  lemma RoundTripExactly(f: Frame, metadataEncoding: Option<Text>, dataEncoding: Option<Text>)
    requires Serializable(f)
    ensures var r := ParseWritten(f, metadataEncoding, dataEncoding);
            (r.Success? && Recovers(f, r.value)) <==> Faithful(f)
  {
    var p := AtPayload(f, metadataEncoding, dataEncoding);
    WrittenParses(f, metadataEncoding, dataEncoding);
    Layout(f);
    PayloadExactly(Encode(f), p, f);
    PayloadKeepsFields(f.typ, Encode(f), p);
    SentAsStated(f);
  }
}
