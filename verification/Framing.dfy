/** Cutting a byte stream into frames: what the cut must be, and the stream that finds it chunk by chunk. */
module Framing {
  import opened Bytes

  /** The shortest length field the framing loop handles whatever the chunks. Protocol frames have at least 12 bytes. */
  const MIN_LENGTH := 5

  datatype Cut = Cut(frames: seq<Text>, rest: Text)

  predicate Complete(s: Text) {
    |s| >= 4 && MIN_LENGTH <= GetU32(s, 0) <= |s|
  }

  /** Every complete frame at the front of the stream, and the bytes after the last one. */
  function Split(s: Text): (r: Cut)
    ensures !Complete(r.rest)
    decreases |s|
  {
    if Complete(s) then
      var length := GetU32(s, 0);
      var tail := Split(s[length..]);
      Cut([s[..length]] + tail.frames, tail.rest)
    else Cut([], s)
  }

  /** Every length field met on the way is at least the minimum. */
  predicate Sound(s: Text)
    decreases |s|
  {
    |s| >= 4 ==>
      var length := GetU32(s, 0);
      length >= MIN_LENGTH && (length <= |s| ==> Sound(s[length..]))
  }

  function Concat(parts: seq<Text>): Text {
    if parts == [] then [] else parts[0] + Concat(parts[1..])
  }

  /** A frame that starts with its own length. */
  predicate IsFrame(s: Text) {
    |s| >= MIN_LENGTH && GetU32(s, 0) == |s|
  }

  lemma SamePrefix(a: Text, b: Text)
    requires |a| >= 4
    ensures GetU32(a + b, 0) == GetU32(a, 0)
  {}

  /** Splitting can be resumed: cut what came first, then put the rest in front of what comes next. */
  lemma {:induction false} SplitResumes(a: Text, b: Text)
    ensures Split(a + b).frames == Split(a).frames + Split(Split(a).rest + b).frames
    ensures Split(a + b).rest == Split(Split(a).rest + b).rest
    decreases |a|
  {
    if Complete(a) {
      SamePrefix(a, b);
      var length := GetU32(a, 0);
      assert (a + b)[..length] == a[..length];
      assert (a + b)[length..] == a[length..] + b;
      SplitResumes(a[length..], b);
    }
  }

  lemma {:induction false} SoundResumes(a: Text, b: Text)
    requires Sound(a + b)
    ensures Sound(a) && Sound(Split(a).rest + b)
    decreases |a|
  {
    if |a| >= 4 {
      SamePrefix(a, b);
      var length := GetU32(a, 0);
      if length <= |a| {
        assert (a + b)[length..] == a[length..] + b;
        SoundResumes(a[length..], b);
      }
    }
  }

  /** No byte is lost, none invented: the frames followed by the rest are the stream. */
  lemma {:induction false} SplitConserves(s: Text)
    ensures Concat(Split(s).frames) + Split(s).rest == s
    decreases |s|
  {
    if Complete(s) {
      var length := GetU32(s, 0);
      SplitConserves(s[length..]);
      assert Split(s).frames[1..] == Split(s[length..]).frames;
      assert s == s[..length] + s[length..];
    }
  }

  lemma SplitFirst(f: Text, rest: Text)
    requires IsFrame(f)
    ensures Split(f + rest) == Cut([f] + Split(rest).frames, Split(rest).rest)
  {
    SamePrefix(f, rest);
    assert (f + rest)[..|f|] == f && (f + rest)[|f|..] == rest;
  }

  /** Any list of self-delimiting frames is recovered from its concatenation, with the start of the next one left over. */
  lemma {:induction false} SplitOfFrames(frames: seq<Text>, partial: Text)
    requires forall i | 0 <= i < |frames| :: IsFrame(frames[i])
    requires !Complete(partial)
    ensures Split(Concat(frames) + partial) == Cut(frames, partial)
  {
    if frames == [] {
      assert Concat(frames) + partial == partial;
    } else {
      var rest := Concat(frames[1..]) + partial;
      Assoc(frames[0], Concat(frames[1..]), partial);
      SplitFirst(frames[0], rest);
      SplitOfFrames(frames[1..], partial);
      assert frames == [frames[0]] + frames[1..];
    }
  }

  lemma {:induction false} FramesOfSplit(s: Text, i: nat)
    requires i < |Split(s).frames|
    ensures IsFrame(Split(s).frames[i])
    decreases |s|
  {
    var length := GetU32(s, 0);
    assert s == s[..length] + s[length..];
    SamePrefix(s[..length], s[length..]);
    if i > 0 {
      FramesOfSplit(s[length..], i - 1);
    }
  }

  /** The cut, exactly: the only way to write the stream as frames that carry their own length and a rest that does not
      start with one. */
  lemma SplitExactly(s: Text, c: Cut)
    ensures c == Split(s)
       <==> && Concat(c.frames) + c.rest == s
            && (forall i | 0 <= i < |c.frames| :: |c.frames[i]| >= 5 && BigEndian(c.frames[i][..4]) == |c.frames[i]|)
            && !(|c.rest| >= 4 && 5 <= BigEndian(c.rest[..4]) <= |c.rest|)
  {
    SplitConserves(s);
    forall i: nat | i < |Split(s).frames|
      ensures IsFrame(Split(s).frames[i])
    {
      FramesOfSplit(s, i);
    }
    LengthFields(c);
    if (forall i | 0 <= i < |c.frames| :: IsFrame(c.frames[i])) && !Complete(c.rest) {
      SplitOfFrames(c.frames, c.rest);
    }
  }

  lemma LengthFields(c: Cut)
    ensures forall i | 0 <= i < |c.frames| ::
      IsFrame(c.frames[i]) <==> |c.frames[i]| >= 5 && BigEndian(c.frames[i][..4]) == |c.frames[i]|
    ensures Complete(c.rest) <==> |c.rest| >= 4 && 5 <= BigEndian(c.rest[..4]) <= |c.rest|
  {
    forall i | 0 <= i < |c.frames| && |c.frames[i]| >= 4
      ensures GetU32(c.frames[i], 0) == BigEndian(c.frames[i][..4])
    {
      ReadsBigEndian(c.frames[i], 0);
    }
    if |c.rest| >= 4 {
      ReadsBigEndian(c.rest, 0);
    }
  }

  lemma {:induction false} FramesAreSound(frames: seq<Text>)
    requires forall i | 0 <= i < |frames| :: IsFrame(frames[i])
    ensures Sound(Concat(frames))
  {
    if frames != [] {
      var f := frames[0];
      assert IsFrame(f);
      SamePrefix(f, Concat(frames[1..]));
      assert (f + Concat(frames[1..]))[|f|..] == Concat(frames[1..]);
      FramesAreSound(frames[1..]);
    }
  }

  /** The framing stream. `output` collects what it pushes downstream. */
  class FramingStream {
    var buffer: array?<Byte>
    var frameLength: nat
    var pos: nat
    var output: seq<Text>
    ghost var received: Text

    function Buffered(): Text
      reads this, buffer
      requires buffer != null ==> pos <= buffer.Length
    {
      if buffer == null then [] else buffer[..pos]
    }

    /** Nothing buffered; up to four length bytes buffered; or a frame of known length under way. */
    ghost predicate Shape()
      reads this, buffer
    {
      if buffer == null then frameLength == 0 && pos == 0
      else if frameLength == 0 then buffer.Length == 4 && 1 <= pos <= 4
      else
        && buffer.Length == frameLength >= MIN_LENGTH
        && 4 <= pos < frameLength
        && GetU32(buffer[..], 0) == frameLength
    }

    /** The frames pushed so far are exactly the complete frames received so far, and what is buffered is the rest. */
    ghost predicate Valid()
      reads this, buffer
    {
      Shape() && Sound(received) && Split(received) == Cut(output, Buffered())
    }

    constructor ()
      ensures Valid() && received == [] && output == []
    {
      buffer := null;
      frameLength, pos, output, received := 0, 0, [], [];
    }

    /** First branch: nothing is buffered. A whole frame is pushed, a partial one starts the buffer. */
    method StartFrame(chunk: Text, i: nat) returns (next: nat)
      requires Shape() && buffer == null && i < |chunk| && Sound(chunk[i..])
      modifies this
      ensures Shape() && i < next <= |chunk|
      ensures buffer == null || (fresh(buffer) && next == |chunk|)
      ensures Advanced(chunk[i..], Buffered() + chunk[next..], old(output), output)
      ensures received == old(received)
    {
      var chunkLen := |chunk| - i;
      if chunkLen > 4 {
        assert GetU32(chunk[i..], 0) == GetU32(chunk, i);
        var msgLen := GetU32(chunk, i);
        if chunkLen >= msgLen {
          var frame := chunk[i..i + msgLen];
          assert frame == chunk[i..][..msgLen];
          next := i + msgLen;
          output := output + [frame];
        } else {
          buffer := new Byte[msgLen];
          CopyInto(chunk[i..], buffer, 0);
          frameLength := msgLen;
          pos := chunkLen;
          next := i + chunkLen;
          assert buffer[..pos] == chunk[i..];
          assert GetU32(buffer[..], 0) == GetU32(buffer[..pos], 0);
        }
      } else {
        buffer := new Byte[4];
        CopyInto(chunk[i..], buffer, 0);
        pos := chunkLen;
        next := i + chunkLen;
        assert buffer[..pos] == chunk[i..];
      }
    }

    /** Second branch: part of the length field is buffered. May consume nothing, when all four bytes are there. */
    method FinishLength(chunk: Text) returns (k: nat)
      requires Shape() && buffer != null && frameLength == 0 && |chunk| > 0
      requires Sound(Buffered() + chunk)
      modifies this, buffer
      ensures Shape() && k <= |chunk|
      ensures buffer != null && (buffer == old(buffer) || fresh(buffer))
      ensures frameLength == 0 ==> k == |chunk|
      ensures output == old(output) && Buffered() + chunk[k..] == old(Buffered()) + chunk
      ensures received == old(received)
    {
      k := if 4 - pos < |chunk| then 4 - pos else |chunk|;
      ghost var kept := buffer[..pos];
      CopyInto(chunk[..k], buffer, pos);
      pos := pos + k;
      assert chunk == chunk[..k] + chunk[k..];
      Assoc(kept, chunk[..k], chunk[k..]);
      if pos == 4 {
        SamePrefix(buffer[..4], chunk[k..]);
        var msgLen := GetU32(buffer[..], 0);
        var larger := new Byte[msgLen];
        CopyInto(buffer[..4], larger, 0);
        assert larger[..4] == buffer[..4];
        assert GetU32(larger[..], 0) == GetU32(larger[..4], 0);
        buffer := larger;
        frameLength := msgLen;
      }
    }

    /** Third branch: keep filling a frame of known length; push it when it is complete. */
    method ContinueFrame(chunk: Text, i: nat) returns (next: nat)
      requires Shape() && buffer != null && frameLength > 0 && i < |chunk|
      modifies this, buffer
      ensures Shape() && i < next <= |chunk|
      ensures buffer == null || (buffer == old(buffer) && frameLength > 0)
      ensures Advanced(old(Buffered()) + chunk[i..], Buffered() + chunk[next..], old(output), output)
      ensures received == old(received)
    {
      var chunkLen := |chunk| - i;
      var n := if frameLength - pos < chunkLen then frameLength - pos else chunkLen;
      ghost var kept := buffer[..pos];
      assert GetU32(kept, 0) == GetU32(buffer[..], 0);
      CopyInto(chunk[i..i + n], buffer, pos);
      pos := pos + n;
      next := i + n;
      assert chunk[i..] == chunk[i..i + n] + chunk[next..];
      Assoc(kept, chunk[i..i + n], chunk[next..]);
      SamePrefix(kept, chunk[i..i + n]);
      assert GetU32(buffer[..], 0) == GetU32(buffer[..pos], 0) == frameLength;
      if pos == frameLength {
        SamePrefix(buffer[..], chunk[next..]);
        assert (buffer[..] + chunk[next..])[..frameLength] == buffer[..];
        assert buffer[..pos] == buffer[..];
        output := output + [buffer[..]];
        buffer := null;
        frameLength := 0;
        pos := 0;
      }
    }

    /** The body of the loop. An iteration that consumes nothing makes the length known. */
    method Advance(chunk: Text, i: nat, ghost goal: Cut) returns (next: nat)
      requires Shape() && i < |chunk| && InProgress(goal, output, Buffered() + chunk[i..])
      requires buffer != null && frameLength == 0 ==> i == 0
      modifies this, buffer
      ensures Shape() && i <= next <= |chunk|
      ensures next == i ==> old(frameLength) == 0 < frameLength
      ensures buffer == null || buffer == old(buffer) || fresh(buffer)
      ensures buffer != null && frameLength == 0 ==> next == |chunk|
      ensures InProgress(goal, output, Buffered() + chunk[next..])
      ensures received == old(received)
    {
      ghost var pending, pushed := Buffered() + chunk[i..], output;
      assert Sound(pending);
      if buffer == null {
        EmptyIsUnit([], chunk[i..]);
        next := StartFrame(chunk, i);
      } else if frameLength == 0 {
        assert i == 0;
        assert chunk[i..] == chunk;
        next := FinishLength(chunk);
      } else {
        next := ContinueFrame(chunk, i);
      }
      StillInProgress(goal, pending, Buffered() + chunk[next..], pushed, output);
    }

    method Transform(chunk: Text)
      requires Valid() && Sound(received + chunk)
      modifies this, buffer
      ensures Valid() && received == old(received) + chunk
      ensures buffer == null || buffer == old(buffer) || fresh(buffer)
    {
      ghost var goal := Split(received + chunk);
      ResumesInProgress(received, chunk, output, Buffered());
      received := received + chunk;
      Consume(chunk, goal);
      BufferIncomplete();
      DoneInProgress(goal, output, Buffered());
    }

    /** The loop over the chunk. */
    method Consume(chunk: Text, ghost goal: Cut)
      requires Shape() && InProgress(goal, output, Buffered() + chunk)
      modifies this, buffer
      ensures Shape() && InProgress(goal, output, Buffered())
      ensures received == old(received)
      ensures buffer == null || buffer == old(buffer) || fresh(buffer)
    {
      var i := 0;
      assert chunk[0..] == chunk;
      while i < |chunk|
        invariant i <= |chunk|
        invariant Shape()
        invariant buffer == null || buffer == old(buffer) || fresh(buffer)
        invariant received == old(received)
        invariant InProgress(goal, output, Buffered() + chunk[i..])
        invariant buffer != null && frameLength == 0 ==> i == 0 || i == |chunk|
        decreases |chunk| - i, if frameLength == 0 then 1 else 0
      {
        i := Advance(chunk, i, goal);
      }
      EmptyIsUnit(chunk[i..], Buffered());
    }

    lemma BufferIncomplete()
      requires Shape()
      ensures !Complete(Buffered())
    {
      if buffer != null && frameLength > 0 {
        assert GetU32(buffer[..pos], 0) == GetU32(buffer[..], 0);
      }
    }
  }

  /** What one step of the framing loop does to the bytes not yet pushed and to the pushed frames:
      nothing, or one frame moves from the front of the former to the end of the latter. */
  predicate Advanced(before: Text, after: Text, pushed: seq<Text>, pushedNow: seq<Text>) {
    || (after == before && pushedNow == pushed)
    || (Complete(before)
        && after == before[GetU32(before, 0)..]
        && pushedNow == pushed + [before[..GetU32(before, 0)]])
  }

  /** What has been pushed and what is still to be cut add up to the goal. */
  ghost predicate InProgress(goal: Cut, pushed: seq<Text>, pending: Text) {
    Sound(pending) && goal == Cut(pushed + Split(pending).frames, Split(pending).rest)
  }

  lemma ResumesInProgress(received: Text, chunk: Text, pushed: seq<Text>, buffered: Text)
    requires Sound(received + chunk) && Split(received) == Cut(pushed, buffered)
    ensures InProgress(Split(received + chunk), pushed, buffered + chunk)
  {
    SplitResumes(received, chunk);
    SoundResumes(received, chunk);
  }

  lemma DoneInProgress(goal: Cut, pushed: seq<Text>, pending: Text)
    requires InProgress(goal, pushed, pending) && !Complete(pending)
    ensures goal == Cut(pushed, pending)
  {}

  lemma StillInProgress(goal: Cut, before: Text, after: Text, pushed: seq<Text>, pushedNow: seq<Text>)
    requires InProgress(goal, pushed, before) && Advanced(before, after, pushed, pushedNow)
    ensures InProgress(goal, pushedNow, after)
  {
    if after != before {
      assert pushedNow + Split(after).frames == pushed + Split(before).frames;
    }
  }
}
