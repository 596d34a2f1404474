/** Input recordings (rzx.c): frames that repeat the inputs of the last one, their playback, their form in a file, and
    the joining of recordings. */
module Rzx {
  import opened Bytes

  /** A frame as it is kept. A frame that repeats has no inputs of its own. */
  datatype Frame = Frame(instructions: nat, count: nat, inBytes: seq<byte>, repeatLast: bool)

  /** A frame as it was played, and as it is to be played again. */
  datatype Played = Played(instructions: nat, inBytes: seq<byte>)

  const REPEAT_FRAME: nat := 0xffff

  /** A frame has as many inputs as it says, unless it repeats: then it has none of its own. */
  predicate Plain(f: Frame) {
    if f.repeatLast then f.inBytes == [] else f.count == |f.inBytes|
  }

  /** The frames played, given the inputs of the last frame before them that has its own. */
  function Expanded(frames: seq<Frame>, last: seq<byte>): (r: seq<Played>)
    ensures |r| == |frames|
  {
    if frames == [] then []
    else
      var bytes := if frames[0].repeatLast then last else frames[0].inBytes;
      [Played(frames[0].instructions, bytes)] + Expanded(frames[1..], bytes)
  }

  /** The inputs of the last frame that has its own. */
  function LastBytes(frames: seq<Frame>, last: seq<byte>): seq<byte> {
    if frames == [] then last
    else LastBytes(frames[1..], if frames[0].repeatLast then last else frames[0].inBytes)
  }

  lemma {:induction false} ExpandedAppend(one: seq<Frame>, other: seq<Frame>, last: seq<byte>)
    ensures Expanded(one + other, last) == Expanded(one, last) + Expanded(other, LastBytes(one, last))
    ensures LastBytes(one + other, last) == LastBytes(other, LastBytes(one, last))
  {
    if one == [] {
      assert one + other == other;
    } else {
      assert (one + other)[1..] == one[1..] + other;
      ExpandedAppend(one[1..], other, if one[0].repeatLast then last else one[0].inBytes);
    }
  }

  lemma {:induction false} LastOwnBytes(frames: seq<Frame>, n: nat, last: seq<byte>)
    requires n < |frames| && !frames[n].repeatLast
    requires forall i :: n < i < |frames| ==> frames[i].repeatLast
    ensures LastBytes(frames, last) == frames[n].inBytes
  {
    if n == 0 {
      OnlyRepeats(frames[1..], frames[0].inBytes);
    } else {
      LastOwnBytes(frames[1..], n - 1, if frames[0].repeatLast then last else frames[0].inBytes);
    }
  }

  lemma {:induction false} OnlyRepeats(frames: seq<Frame>, last: seq<byte>)
    requires forall i :: 0 <= i < |frames| ==> frames[i].repeatLast
    ensures LastBytes(frames, last) == last
  {
    if frames != [] {
      OnlyRepeats(frames[1..], last);
    }
  }

  // ----- Recording -----

  /** The last frame with its own inputs is known. */
  predicate Sound(frames: seq<Frame>, nonRepeat: nat) {
    && (forall i :: 0 <= i < |frames| ==> Plain(frames[i]))
    && (frames != [] ==>
          && nonRepeat < |frames| && !frames[0].repeatLast && !frames[nonRepeat].repeatLast
          && forall i :: nonRepeat < i < |frames| ==> frames[i].repeatLast)
  }

  lemma KnownBytes(frames: seq<Frame>, nonRepeat: nat)
    requires Sound(frames, nonRepeat) && frames != []
    ensures nonRepeat < |frames|
    ensures var f := frames[nonRepeat]; f.inBytes == LastBytes(frames, []) && f.count == |f.inBytes|
  {
    assert Plain(frames[nonRepeat]);
    LastOwnBytes(frames, nonRepeat, []);
  }

  lemma SoundAppend(frames: seq<Frame>, nonRepeat: nat, f: Frame)
    requires Sound(frames, nonRepeat) && Plain(f) && (frames == [] ==> !f.repeatLast)
    ensures Sound(frames + [f], if f.repeatLast then nonRepeat else |frames|)
  {
    hide Plain;
  }

  class InputBlock {
    var frames: array<Frame>
    var count: nat
    var nonRepeat: nat
    const tstates: dword

    constructor (tstates: dword)
      ensures Valid() && fresh(frames) && this.tstates == tstates && Frames() == []
    {
      this.tstates := tstates;
      frames, count, nonRepeat := new Frame[0], 0, 0;
    }

    ghost predicate Valid()
      reads this, frames
    {
      count <= frames.Length && Sound(frames[..count], nonRepeat)
    }

    ghost function Frames(): seq<Frame>
      requires count <= frames.Length
      reads this, frames
    {
      frames[..count]
    }

    /** The recording so far, as it will be played. */
    ghost function Recorded(): seq<Played>
      requires Valid()
      reads this, frames
    {
      Expanded(Frames(), [])
    }

    method Resize(newCount: nat)
      requires count <= frames.Length
      modifies this`frames
      ensures newCount <= frames.Length && count <= frames.Length && Frames() == old(Frames())
      ensures frames == old(frames) || fresh(frames)
    {
      if newCount > frames.Length {
        var newAllocated := if frames.Length >= 25 then 2 * frames.Length else 50;
        if newAllocated < newCount {
          newAllocated := newCount;
        }
        var ptr := new Frame[newAllocated](_ => Frame(0, 0, [], false));
        var i := 0;
        while i < count
          modifies ptr
          invariant i <= count && ptr[..i] == frames[..i]
        {
          ptr[i] := frames[i];
          i := i + 1;
        }
        frames := ptr;
      }
    }

    /** A frame is recorded; how it is kept makes no difference to what is played. */
    method StoreFrame(instructions: nat, inBytes: seq<byte>)
      requires Valid()
      modifies this, frames
      ensures Valid() && (frames == old(frames) || fresh(frames))
      ensures Recorded() == old(Recorded()) + [Played(instructions, inBytes)]
      ensures Frames() == old(Frames()) +
              [if old(count) != 0 && inBytes != [] && inBytes == LastBytes(old(Frames()), [])
               then Frame(instructions, 0, [], true) else Frame(instructions, |inBytes|, inBytes, false)]
    {
      hide Expanded, LastBytes, Sound;
      ghost var was := Frames();
      if count != 0 {
        KnownBytes(was, nonRepeat);
      }
      if frames.Length == count {
        Resize(count + 1);
      }
      assert count != 0 ==> frames[nonRepeat] == was[nonRepeat];
      if count != 0 && |inBytes| != 0 && |inBytes| == frames[nonRepeat].count && inBytes == frames[nonRepeat].inBytes {
        frames[count] := Frame(instructions, 0, [], true);
      } else {
        nonRepeat := count;
        frames[count] := Frame(instructions, |inBytes|, inBytes, false);
      }
      count := count + 1;
      var f := frames[count - 1];
      assert Frames() == was + [f];
      ExpandedAppend(was, [f], []);
      OneExpanded(f, LastBytes(was, []));
      SoundAppend(was, old(nonRepeat), f);
    }
  }

  lemma OneExpanded(f: Frame, last: seq<byte>)
    ensures Expanded([f], last) == [Played(f.instructions, if f.repeatLast then last else f.inBytes)]
  {
  }

  // ----- Frames in a file -----

  function FrameBytes(f: Frame): seq<byte> {
    WordBytes(f.instructions) + if f.repeatLast then WordBytes(REPEAT_FRAME) else WordBytes(f.count) + f.inBytes
  }

  /** What the fields of the file can hold. A count of 0xffff says that the frame repeats. */
  predicate Fits(f: Frame) {
    f.instructions < WORD_MODULUS && (!f.repeatLast ==> f.count < REPEAT_FRAME)
  }

  /** The instructions, the count of the inputs, and the inputs in the order in which they were read; a repeat has a
      count of ffff and none. */
  lemma FrameLayout(f: Frame)
    requires Fits(f)
    ensures FrameBytes(f)
         == [f.instructions % 256, f.instructions / 256]
            + if f.repeatLast then [0xff, 0xff] else [f.count % 256, f.count / 256] + f.inBytes
  {
    assert WordBytes(REPEAT_FRAME) == [0xff, 0xff];
    assert WordBytes(f.instructions) == [f.instructions % 256, f.instructions / 256];
    assert f.count < WORD_MODULUS ==> WordBytes(f.count) == [f.count % 256, f.count / 256];
  }

  function FramesBytes(frames: seq<Frame>): seq<byte> {
    if frames == [] then [] else FrameBytes(frames[0]) + FramesBytes(frames[1..])
  }

  /** A frame as it comes out of a file: one that repeats keeps the count that says so. */
  function AsRead(f: Frame): Frame {
    if f.repeatLast then Frame(f.instructions, REPEAT_FRAME, [], true) else f
  }

  function AllAsRead(frames: seq<Frame>): (r: seq<Frame>)
    ensures |r| == |frames|
  {
    seq(|frames|, i requires 0 <= i < |frames| => AsRead(frames[i]))
  }

  function ReadFrame(data: seq<byte>): Result<Read<Frame>> {
    if |data| < 4 then Err(Corrupt)
    else
      var instructions, count := WordAt(data, 0), WordAt(data, 2);
      if count == REPEAT_FRAME then Ok(Read(Frame(instructions, count, [], true), data[4..]))
      else if |data| - 4 < count then Err(Corrupt)
      else Ok(Read(Frame(instructions, count, data[4..4 + count], false), data[4 + count..]))
  }

  function FramesRead(n: nat, data: seq<byte>): Result<Read<seq<Frame>>> {
    if n == 0 then Ok(Read([], data))
    else
      var first := ReadFrame(data);
      if first.Err? then Err(first.error)
      else
        var rest := FramesRead(n - 1, first.value.rest);
        Behind([first.value.value], rest)
  }

  lemma FrameIsRead(f: Frame, more: seq<byte>)
    requires Plain(f)
    ensures var r := ReadFrame(FrameBytes(f) + more);
            Fits(f) <==> r.Ok? && r.value.value == AsRead(f)
    ensures Fits(f) ==> ReadFrame(FrameBytes(f) + more) == Ok(Read(AsRead(f), more))
  {
    var data := FrameBytes(f) + more;
    assert data[0..2] == WordBytes(f.instructions);
    WordRoundTrip(f.instructions, data, 0);
    var count := if f.repeatLast then REPEAT_FRAME else f.count;
    assert data[2..4] == WordBytes(count);
    WordRoundTrip(count, data, 2);
    if f.repeatLast {
      assert data[4..] == more;
    } else if f.count < REPEAT_FRAME {
      assert data[4..] == f.inBytes + more;
      assert data[4..4 + f.count] == f.inBytes;
    }
  }

  predicate AllFit(frames: seq<Frame>) {
    forall i :: 0 <= i < |frames| ==> Fits(frames[i])
  }

  /** Frames that are written and read come back exactly when every one of them fits its fields. */
  lemma {:induction false} FramesRoundTrip(frames: seq<Frame>, more: seq<byte>)
    requires forall i :: 0 <= i < |frames| ==> Plain(frames[i])
    ensures AllFit(frames) <==> FramesRead(|frames|, FramesBytes(frames) + more) == Ok(Read(AllAsRead(frames), more))
  {
    hide ReadFrame, FrameBytes, FramesBytes, Fits, AsRead, AllFit, AllAsRead, FramesRead, Plain;
    FirstOfFrames(frames, more);
    if frames != [] {
      var f, rest := frames[0], frames[1..];
      var data := FramesBytes(rest) + more;
      FrameIsRead(f, data);
      FramesRoundTrip(rest, more);
      NextRead(|frames|, [], FramesBytes(frames) + more);
      var first := ReadFrame(FramesBytes(frames) + more);
      if first.Ok? {
        var r := FramesRead(|rest|, first.value.rest);
        if r.Ok? {
          SameParts(first.value.value, r.value.value, AsRead(f), AllAsRead(rest));
        }
      } else {
        NothingBehind(FramesRead(|frames|, FramesBytes(frames) + more));
      }
    } else {
      NoneToRead([], more);
      NothingBehind(FramesRead(0, more));
    }
  }

  lemma FirstOfFrames(frames: seq<Frame>, more: seq<byte>)
    ensures frames == [] ==> FramesBytes(frames) + more == more && AllFit(frames) && AllAsRead(frames) == []
    ensures frames != [] ==>
            && FramesBytes(frames) + more == FrameBytes(frames[0]) + (FramesBytes(frames[1..]) + more)
            && (AllFit(frames) <==> Fits(frames[0]) && AllFit(frames[1..]))
            && AllAsRead(frames) == [AsRead(frames[0])] + AllAsRead(frames[1..])
  {
    hide FrameBytes, Fits, AsRead, AllFit;
    if frames == [] {
      assert FramesBytes(frames) + more == more;
      assert AllFit(frames) by { FirstFits(frames); }
    } else {
      Assoc(FrameBytes(frames[0]), FramesBytes(frames[1..]), more);
      FirstFits(frames);
    }
  }

  lemma FirstFits(frames: seq<Frame>)
    ensures AllFit(frames) <==> frames == [] || (Fits(frames[0]) && AllFit(frames[1..]))
  {
    hide Fits;
    if frames != [] && Fits(frames[0]) && AllFit(frames[1..]) {
      forall i | 0 <= i < |frames| ensures Fits(frames[i]) {
        assert i > 0 ==> frames[i] == frames[1..][i - 1];
      }
    }
  }

  /** A recording that was written and read plays as before. */
  lemma {:induction false} ReadFramesPlayTheSame(frames: seq<Frame>, last: seq<byte>)
    ensures Expanded(AllAsRead(frames), last) == Expanded(frames, last)
  {
    if frames != [] {
      assert AllAsRead(frames)[1..] == AllAsRead(frames[1..]);
      ReadFramesPlayTheSame(frames[1..], if frames[0].repeatLast then last else frames[0].inBytes);
    }
  }

  /** rzx_write_input, without compression: the frames one after the other. */
  method WriteFrames(frames: seq<Frame>) returns (data: seq<byte>)
    ensures data == FramesBytes(frames)
  {
    hide WordBytes;
    data := [];
    var i := 0;
    while i < |frames|
      invariant i <= |frames| && data + FramesBytes(frames[i..]) == FramesBytes(frames)
    {
      ghost var before := data;
      assert frames[i..][1..] == frames[i + 1..];
      Assoc(data, FrameBytes(frames[i]), FramesBytes(frames[i + 1..]));
      data := data + WordBytes(frames[i].instructions);
      if frames[i].repeatLast {
        data := data + WordBytes(REPEAT_FRAME);
      } else {
        data := data + WordBytes(frames[i].count);
        data := data + frames[i].inBytes;
      }
      assert data == before + FrameBytes(frames[i]);
      i := i + 1;
    }
  }

  lemma ReadFrameAt(data: seq<byte>, p: nat)
    requires p <= |data|
    ensures ReadFrame(data[p..]) ==
            if |data| - p < 4 then Err(Corrupt)
            else if WordAt(data, p + 2) == REPEAT_FRAME
            then Ok(Read(Frame(WordAt(data, p), REPEAT_FRAME, [], true), data[p + 4..]))
            else if |data| - p - 4 < WordAt(data, p + 2) then Err(Corrupt)
            else Ok(Read(Frame(WordAt(data, p), WordAt(data, p + 2), data[p + 4..p + 4 + WordAt(data, p + 2)], false),
                         data[p + 4 + WordAt(data, p + 2)..]))
  {
    var d := data[p..];
    if |d| >= 4 {
      assert WordAt(d, 0) == WordAt(data, p) && WordAt(d, 2) == WordAt(data, p + 2);
      assert d[4..] == data[p + 4..];
      var count := WordAt(d, 2);
      if count <= |d| - 4 {
        assert d[4..4 + count] == data[p + 4..p + 4 + count];
        assert d[4 + count..] == data[p + 4 + count..];
      }
    }
  }

  lemma NextRead(n: nat, frames: seq<Frame>, data: seq<byte>)
    requires n > 0
    ensures var first := ReadFrame(data);
            && (first.Err? ==> Behind(frames, FramesRead(n, data)) == Err(first.error))
            && (first.Ok? ==> FramesRead(n, data) == Behind([first.value.value], FramesRead(n - 1, first.value.rest)))
  {
    hide ReadFrame;
  }

  lemma NoneToRead(frames: seq<Frame>, data: seq<byte>)
    ensures Behind(frames, FramesRead(0, data)) == Ok(Read(frames, data))
  {
    assert frames + [] == frames;
  }

  /** rzx_read_frames. */
  method ReadFrames(count: nat, data: seq<byte>) returns (r: Result<Read<seq<Frame>>>)
    ensures r == FramesRead(count, data)
  {
    hide ReadFrame, FramesRead, Behind, WordAt;
    var frames: seq<Frame>, ptr: nat := [], 0;
    var i := 0;
    ghost var whole := FramesRead(count, data);
    assert data[0..] == data;
    NothingBehind(whole);
    while i < count
      invariant i <= count && ptr <= |data| && |frames| == i
      invariant whole == Behind(frames, FramesRead(count - i, data[ptr..]))
    {
      ghost var before, from := frames, data[ptr..];
      ReadFrameAt(data, ptr);
      NextRead(count - i, before, from);
      if ReadFrame(from).Ok? {
        OneMoreBehind(before, ReadFrame(from).value.value, FramesRead(count - i - 1, ReadFrame(from).value.rest));
      }
      if |data| - ptr < 4 {
        return Err(Corrupt);
      }
      var instructions, count' := WordAt(data, ptr), WordAt(data, ptr + 2);
      ptr := ptr + 4;
      if count' == REPEAT_FRAME {
        frames := frames + [Frame(instructions, count', [], true)];
      } else {
        if |data| - ptr < count' {
          return Err(Corrupt);
        }
        frames := frames + [Frame(instructions, count', data[ptr..ptr + count'], false)];
        ptr := ptr + count';
      }
      i := i + 1;
    }
    NoneToRead(frames, data[ptr..]);
    r := Ok(Read(frames, data[ptr..]));
  }
}
