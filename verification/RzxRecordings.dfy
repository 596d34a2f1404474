/** Whole recordings (rzx.c): blocks of frames between snapshots, played back one after the other, or joined. */
module RzxRecordings {
  import opened Bytes
  import opened Rzx

  datatype Block =
    | Input(frames: seq<Frame>, nonRepeat: nat, tstates: dword)
    | Snapshot(id: nat)
    | Other(id: nat)

  /** One thing played after another; an error ends it. */
  function Then(a: Result<seq<Played>>, b: Result<seq<Played>>): Result<seq<Played>> {
    if a.Err? then a else if b.Err? then b else Ok(a.value + b.value)
  }

  lemma ThenAssoc(a: Result<seq<Played>>, b: Result<seq<Played>>, c: Result<seq<Played>>)
    ensures Then(Then(a, b), c) == Then(a, Then(b, c))
  {
    if a.Ok? && b.Ok? && c.Ok? {
      Assoc(a.value, b.value, c.value);
    }
  }

  lemma NothingThen(a: Result<seq<Played>>)
    ensures Then(Ok([]), a) == a && Then(a, Ok([])) == a
  {
    if a.Ok? {
      assert [] + a.value == a.value == a.value + [];
    }
  }

  /** What the frames of a block play. The first one is played with the inputs that it has, even if it is said to
      repeat, and its count has to agree with them. */
  function Plays(frames: seq<Frame>): Result<seq<Played>> {
    if frames == [] then Ok([])
    else if frames[0].count != |frames[0].inBytes| then Err(Corrupt)
    else Ok([Played(frames[0].instructions, frames[0].inBytes)] + Expanded(frames[1..], frames[0].inBytes))
  }

  /** The frames of all blocks, as they are played. Every input block starts anew. */
  function Stream(blocks: seq<Block>): Result<seq<Played>> {
    if blocks == [] then Ok([])
    else Then(if blocks[0].Input? then Plays(blocks[0].frames) else Ok([]), Stream(blocks[1..]))
  }

  /** What the player makes of a block: it takes the first frame for granted. */
  function BlockPlays(b: Block): Result<seq<Played>> {
    if !b.Input? then Ok([])
    else if b.frames == [] then Err(Undefined)
    else Plays(b.frames)
  }

  function Playing(blocks: seq<Block>): Result<seq<Played>> {
    if blocks == [] then Ok([]) else Then(BlockPlays(blocks[0]), Playing(blocks[1..]))
  }

  predicate NoneEmpty(blocks: seq<Block>) {
    forall i :: 0 <= i < |blocks| ==> blocks[i].Input? ==> blocks[i].frames != []
  }

  /** The player plays the frames of all blocks, when there are any in each. */
  lemma {:induction false} PlayingIsStream(blocks: seq<Block>)
    requires NoneEmpty(blocks)
    ensures Playing(blocks) == Stream(blocks)
  {
    hide Plays;
    if blocks != [] {
      PlayingIsStream(blocks[1..]);
    }
  }

  predicate AllPlain(b: Block) {
    b.Input? ==> forall i :: 0 <= i < |b.frames| ==> Plain(b.frames[i])
  }

  // ----- Finding blocks -----

  /** The next input block, or the end. */
  function NextInput(blocks: seq<Block>, i: nat): (j: nat)
    requires i <= |blocks|
    ensures i <= j <= |blocks| && (j < |blocks| ==> blocks[j].Input?)
    ensures forall k :: i <= k < j ==> !blocks[k].Input?
    decreases |blocks| - i
  {
    if i == |blocks| || blocks[i].Input? then i else NextInput(blocks, i + 1)
  }

  /** The last snapshot before the next input block. */
  function SnapshotAfter(blocks: seq<Block>, i: nat, last: Option<nat>): Option<nat>
    requires i <= |blocks|
    decreases |blocks| - i
  {
    if i == |blocks| || blocks[i].Input? then last
    else SnapshotAfter(blocks, i + 1, if blocks[i].Snapshot? then Some(blocks[i].id) else last)
  }

  /** The input block with some others before it, or the end. */
  function NthInput(blocks: seq<Block>, i: nat, n: nat): (j: nat)
    requires i <= |blocks|
    ensures i <= j <= |blocks| && (j < |blocks| ==> blocks[j].Input?)
    decreases |blocks| - i
  {
    if i == |blocks| then i
    else if !blocks[i].Input? then NthInput(blocks, i + 1, n)
    else if n == 0 then i
    else NthInput(blocks, i + 1, n - 1)
  }

  /** Of the blocks from one to another, the last that is a snapshot. */
  predicate LastSnapshot(blocks: seq<Block>, from: nat, end: nat, k: nat) {
    && from <= k < end <= |blocks| && blocks[k].Snapshot?
    && forall m :: k < m < end ==> !blocks[m].Snapshot?
  }

  lemma {:induction false} NoSnapshotAfter(blocks: seq<Block>, i: nat, last: Option<nat>)
    requires i <= |blocks| && forall k :: i <= k < NextInput(blocks, i) ==> !blocks[k].Snapshot?
    ensures SnapshotAfter(blocks, i, last) == last
    decreases |blocks| - i
  {
    if i < |blocks| && !blocks[i].Input? {
      NoSnapshotAfter(blocks, i + 1, last);
    }
  }

  lemma {:induction false} LastSnapshotCounts(blocks: seq<Block>, i: nat, last: Option<nat>, k: nat)
    requires i <= |blocks| && LastSnapshot(blocks, i, NextInput(blocks, i), k)
    ensures SnapshotAfter(blocks, i, last) == Some(blocks[k].id)
    decreases |blocks| - i
  {
    var next := if blocks[i].Snapshot? then Some(blocks[i].id) else last;
    if k == i {
      NoSnapshotAfter(blocks, i + 1, next);
    } else {
      LastSnapshotCounts(blocks, i + 1, next, k);
    }
  }

  lemma {:induction false} SomeSnapshotIsLast(blocks: seq<Block>, from: nat, end: nat, some: nat) returns (k: nat)
    requires from <= some < end <= |blocks| && blocks[some].Snapshot?
    ensures LastSnapshot(blocks, from, end, k)
    decreases end
  {
    k := end - 1;
    if !blocks[k].Snapshot? {
      k := SomeSnapshotIsLast(blocks, from, end - 1, some);
    }
  }

  /** What comes between two input blocks: the last snapshot there is handed over, and none exactly when there is none
      there. */
  lemma WhichSnapshot(blocks: seq<Block>, i: nat)
    requires i <= |blocks|
    ensures var j, r := NextInput(blocks, i), SnapshotAfter(blocks, i, None);
            && (r == None <==> forall k :: i <= k < j ==> !blocks[k].Snapshot?)
            && (forall id :: r == Some(id) <==> exists k: nat :: LastSnapshot(blocks, i, j, k) && blocks[k].id == id)
  {
    var j, r := NextInput(blocks, i), SnapshotAfter(blocks, i, None);
    if some :| i <= some < j && blocks[some].Snapshot? {
      var last := SomeSnapshotIsLast(blocks, i, j, some);
      LastSnapshotCounts(blocks, i, None, last);
    } else {
      NoSnapshotAfter(blocks, i, None);
    }
  }

  function InputsBetween(blocks: seq<Block>, from: nat, end: nat): nat
    requires from <= end <= |blocks|
    decreases end - from
  {
    if from == end then 0 else (if blocks[from].Input? then 1 else 0) + InputsBetween(blocks, from + 1, end)
  }

  /** The block that is chosen has as many input blocks before it as the number says; without it, there are no more
      than that. */
  lemma {:induction false} WhichInput(blocks: seq<Block>, i: nat, n: nat)
    requires i <= |blocks|
    ensures var j := NthInput(blocks, i, n);
            if j < |blocks| then blocks[j].Input? && InputsBetween(blocks, i, j) == n
            else InputsBetween(blocks, i, |blocks|) <= n
    decreases |blocks| - i
  {
    if i < |blocks| {
      if !blocks[i].Input? {
        WhichInput(blocks, i + 1, n);
      } else if n > 0 {
        WhichInput(blocks, i + 1, n - 1);
      }
    }
  }

  lemma {:induction false} PlayingFromNextInput(blocks: seq<Block>, i: nat)
    requires i <= |blocks|
    ensures Playing(blocks[i..]) == Playing(blocks[NextInput(blocks, i)..])
    decreases |blocks| - i
  {
    if i < |blocks| && !blocks[i].Input? {
      assert blocks[i..][1..] == blocks[i + 1..];
      NothingThen(Playing(blocks[i + 1..]));
      PlayingFromNextInput(blocks, i + 1);
    }
  }

  lemma PlayingFromInput(blocks: seq<Block>, i: nat)
    requires i < |blocks| && blocks[i].Input?
    ensures Playing(blocks[i..]) == Then(BlockPlays(blocks[i]), Playing(blocks[i + 1..]))
  {
    assert blocks[i..][1..] == blocks[i + 1..];
  }

  lemma ExpandedFrom(frames: seq<Frame>, i: nat, last: seq<byte>)
    requires i < |frames|
    ensures var bytes := if frames[i].repeatLast then last else frames[i].inBytes;
            Expanded(frames[i..], last) == [Played(frames[i].instructions, bytes)] + Expanded(frames[i + 1..], bytes)
  {
    assert frames[i..][1..] == frames[i + 1..];
  }

  // ----- Playback -----

  lemma CountsAreLengths(b: Block, i: nat)
    requires AllPlain(b) && b.Input? && i < |b.frames|
    ensures var f := b.frames[i];
            if f.repeatLast then f.inBytes == [] else f.count == |f.inBytes|
  {
    assert Plain(b.frames[i]);
  }

  class Player {
    const blocks: seq<Block>
    var active: bool
    var currentBlock: nat
    var currentFrame: nat
    var dataFrame: nat
    var inCount: nat

    constructor (blocks: seq<Block>)
      requires forall i :: 0 <= i < |blocks| ==> AllPlain(blocks[i])
      ensures this.blocks == blocks && Valid() && !active
    {
      this.blocks := blocks;
      active, currentBlock, currentFrame, dataFrame, inCount := false, 0, 0, 0, 0;
    }

    ghost predicate Valid()
      reads this
    {
      && (forall i :: 0 <= i < |blocks| ==> AllPlain(blocks[i]))
      && (active ==>
            && currentBlock < |blocks| && blocks[currentBlock].Input?
            && dataFrame <= currentFrame <= |blocks[currentBlock].frames|
            && (currentFrame < |blocks[currentBlock].frames| || blocks[currentBlock].frames == [])
            && inCount <= |CurrentBytes()|)
    }

    /** The inputs of the current frame. */
    ghost function CurrentBytes(): seq<byte>
      requires currentBlock < |blocks| && blocks[currentBlock].Input?
      reads this
    {
      var frames := blocks[currentBlock].frames;
      if dataFrame < |frames| then frames[dataFrame].inBytes else []
    }

    /** The current frame and those that come after it, as they are going to be played. */
    ghost function Left(): Result<seq<Played>>
      requires Valid()
      reads this
    {
      if !active then Ok([])
      else
        var frames := blocks[currentBlock].frames;
        if frames == [] then Err(Undefined)
        else if frames[dataFrame].count != |CurrentBytes()| then Err(Corrupt)
        else
          Then(Ok([Played(frames[currentFrame].instructions, CurrentBytes())]
                  + Expanded(frames[currentFrame + 1..], CurrentBytes())),
               Playing(blocks[currentBlock + 1..]))
    }

    /** Where the player is. */
    ghost function Position(): (nat, nat, nat)
      reads this
    {
      (currentBlock, currentFrame, dataFrame)
    }

    method EnterBlock(i: nat)
      requires (forall i :: 0 <= i < |blocks| ==> AllPlain(blocks[i])) && i < |blocks| && blocks[i].Input?
      modifies this
      ensures Valid() && active && Position() == (i, 0, 0) && inCount == 0
      ensures Left() == Playing(blocks[i..])
    {
      hide AllPlain;
      active, currentBlock, currentFrame, dataFrame, inCount := true, i, 0, 0, 0;
      PlayingFromInput(blocks, i);
    }

    /** Start with one of the input blocks. A snapshot is returned if it stands right before it. */
    method StartPlayback(which: nat) returns (r: Result<Option<nat>>)
      requires Valid()
      modifies this
      ensures Valid()
      ensures var j := NthInput(blocks, 0, which);
              if j == |blocks| then r == Err(Invalid) && active == old(active)
              else
                && active && Position() == (j, 0, 0) && inCount == 0 && Left() == Playing(blocks[j..])
                && r == Ok(if j > 0 && blocks[j - 1].Snapshot? then Some(blocks[j - 1].id) else None)
    {
      var i, list := which, 0;
      while list < |blocks|
        invariant list <= |blocks| && Valid() && active == old(active)
        invariant NthInput(blocks, 0, which) == NthInput(blocks, list, i)
      {
        if blocks[list].Input? {
          if i == 0 {
            EnterBlock(list);
            return Ok(if list > 0 && blocks[list - 1].Snapshot? then Some(blocks[list - 1].id) else None);
          }
          i := i - 1;
        }
        list := list + 1;
      }
      return Err(Invalid);
    }

    /** One IN. */
    method Playback() returns (r: Result<byte>)
      requires Valid() && active
      modifies this`inCount
      ensures Valid()
      ensures if old(inCount) < |CurrentBytes()|
              then r == Ok(CurrentBytes()[old(inCount)]) && inCount == old(inCount) + 1
              else r.Err? && inCount == old(inCount)
      ensures r == Err(Corrupt) <==> dataFrame < |blocks[currentBlock].frames|
                                     && old(inCount) >= blocks[currentBlock].frames[dataFrame].count
      ensures r.Err? ==> r.error == Corrupt || r.error == Undefined
    {
      hide AllPlain;
      if dataFrame >= |blocks[currentBlock].frames| {
        return Err(Undefined);
      }
      var frame := blocks[currentBlock].frames[dataFrame];
      CountsAreLengths(blocks[currentBlock], dataFrame);
      if inCount >= frame.count {
        return Err(Corrupt);
      }
      if inCount >= |frame.inBytes| {
        return Err(Undefined);
      }
      r := Ok(frame.inBytes[inCount]);
      inCount := inCount + 1;
    }

    /** The end of a frame: as many INs must have been read as the frame says that it has. */
    method PlaybackFrame() returns (r: Result<Option<nat>>)
      requires Valid() && active
      modifies this
      ensures Valid()
      ensures var frames := blocks[old(currentBlock)].frames;
              if frames == [] then r == Err(Undefined) && Position() == old(Position()) && inCount == old(inCount)
              else if old(inCount) != frames[old(dataFrame)].count
              then r == Err(Corrupt) && active && Position() == old(Position()) && inCount == old(inCount)
              else
                && r.Ok? && (active ==> inCount == 0)
                && old(Left())
                   == Then(Ok([Played(frames[old(currentFrame)].instructions, old(CurrentBytes()))]), Left())
      ensures var frames, next := blocks[old(currentBlock)].frames, old(currentFrame) + 1;
              r.Ok? && next < |frames| ==>
                && active && r == Ok(None)
                && Position() == (old(currentBlock), next, if frames[next].repeatLast then old(dataFrame) else next)
      ensures r.Ok? && old(currentFrame) + 1 == |blocks[old(currentBlock)].frames| ==>
                var it := old(currentBlock) + 1;
                && r == Ok(SnapshotAfter(blocks, it, None))
                && (active <==> NextInput(blocks, it) < |blocks|)
                && (active ==> Position() == (NextInput(blocks, it), 0, 0))
    {
      hide Expanded, Playing, AllPlain, SnapshotAfter, NextInput;
      var frames := blocks[currentBlock].frames;
      if frames == [] {
        return Err(Undefined);
      }
      CountsAreLengths(blocks[currentBlock], dataFrame);
      if inCount != frames[dataFrame].count {
        return Err(Corrupt);
      }
      ghost var bytes := CurrentBytes();
      ghost var now := Ok([Played(frames[currentFrame].instructions, bytes)]);
      ghost var rest := Expanded(frames[currentFrame + 1..], bytes);
      ThenAssoc(now, Ok(rest), Playing(blocks[currentBlock + 1..]));
      currentFrame := currentFrame + 1;
      if currentFrame >= |frames| {
        NothingExpanded(frames[currentFrame..], bytes);
        NothingThen(Playing(blocks[currentBlock + 1..]));
        r := NextBlock();
        return;
      }
      ExpandedFrom(frames, currentFrame, bytes);
      if !frames[currentFrame].repeatLast {
        dataFrame := currentFrame;
        CountsAreLengths(blocks[currentBlock], dataFrame);
      }
      inCount := 0;
      r := Ok(None);
    }

    /** Go on to the next input block, if there is one. */
    method NextBlock() returns (r: Result<Option<nat>>)
      requires (forall i :: 0 <= i < |blocks| ==> AllPlain(blocks[i])) && currentBlock < |blocks|
      modifies this
      ensures Valid() && Left() == Playing(blocks[old(currentBlock) + 1..]) && (active ==> inCount == 0)
      ensures var j := NextInput(blocks, old(currentBlock) + 1);
              && (active <==> j < |blocks|)
              && (active ==> Position() == (j, 0, 0))
      ensures r == Ok(SnapshotAfter(blocks, old(currentBlock) + 1, None))
    {
      hide Playing, AllPlain;
      var it := currentBlock + 1;
      ghost var from := it;
      active := false;
      var snap: Option<nat> := None;
      PlayingFromNextInput(blocks, from);
      while it < |blocks| && !blocks[it].Input?
        invariant from <= it <= |blocks|
        invariant NextInput(blocks, from) == NextInput(blocks, it)
        invariant SnapshotAfter(blocks, from, None) == SnapshotAfter(blocks, it, snap)
      {
        if blocks[it].Snapshot? {
          snap := Some(blocks[it].id);
        }
        it := it + 1;
      }
      if it < |blocks| {
        EnterBlock(it);
      } else {
        NothingPlays(blocks[it..]);
      }
      r := Ok(snap);
    }

    /** All the INs of a frame. */
    method ReadInputs() returns (bytes: seq<byte>)
      requires Valid() && active && inCount == 0 && blocks[currentBlock].frames != []
      modifies this`inCount
      ensures Valid() && bytes == CurrentBytes() && inCount == |bytes|
    {
      hide AllPlain;
      bytes := [];
      while inCount < |blocks[currentBlock].frames[dataFrame].inBytes|
        invariant Valid() && inCount == |bytes| <= |CurrentBytes()|
        invariant bytes == CurrentBytes()[..|bytes|]
      {
        var b := Playback();
        bytes := bytes + [b.value];
      }
    }

    /** One frame played to its end. */
    method ReplayFrame() returns (played: Result<Played>)
      requires Valid() && active && inCount == 0
      modifies this
      ensures Valid() && (played.Ok? && active ==> inCount == 0)
      ensures played.Ok? ==> old(Left()) == Then(Ok([played.value]), Left())
      ensures played.Err? ==> old(Left()) == Err(played.error)
      ensures played.Ok? && active ==>
                || currentBlock > old(currentBlock)
                || (currentBlock == old(currentBlock) && currentFrame > old(currentFrame))
    {
      hide Expanded, Playing, AllPlain, SnapshotAfter;
      if blocks[currentBlock].frames == [] {
        return Err(Undefined);
      }
      var instructions := blocks[currentBlock].frames[currentFrame].instructions;
      var bytes := ReadInputs();
      CountsAreLengths(blocks[currentBlock], dataFrame);
      var end := PlaybackFrame();
      played := if end.Ok? then Ok(Played(instructions, bytes)) else Err(end.error);
    }

    /** A whole playback, every frame read to its end, gives the frames that were recorded from a block on. */
    method Replay(which: nat) returns (r: Result<seq<Played>>)
      requires Valid()
      modifies this
      ensures Valid()
      ensures var j := NthInput(blocks, 0, which);
              r == if j == |blocks| then Err(Invalid) else Playing(blocks[j..])
    {
      hide Expanded, Playing, AllPlain, NthInput;
      var start := StartPlayback(which);
      if start.Err? {
        return Err(Invalid);
      }
      ghost var whole := Left();
      NothingThen(whole);
      var played := [];
      while active
        invariant Valid() && (active ==> inCount == 0) && Then(Ok(played), Left()) == whole
        decreases if active then |blocks| - currentBlock else 0,
                  if active then |blocks[currentBlock].frames| - currentFrame else 0, active
      {
        var next := ReplayFrame();
        if next.Err? {
          return Err(next.error);
        }
        ThenAssoc(Ok(played), Ok([next.value]), Left());
        played := played + [next.value];
      }
      NothingThen(Ok(played));
      r := Ok(played);
    }
  }

  lemma NothingPlays(blocks: seq<Block>)
    requires blocks == []
    ensures Playing(blocks) == Ok([])
  {
  }

  lemma NothingExpanded(frames: seq<Frame>, last: seq<byte>)
    requires frames == []
    ensures Expanded(frames, last) == []
  {
  }

  // ----- A recording kept in a file -----

  /** What a recording can hold so that its file can. */
  predicate Writable(played: seq<Played>) {
    forall i :: 0 <= i < |played| ==>
      played[i].instructions < WORD_MODULUS && |played[i].inBytes| < REPEAT_FRAME
  }

  lemma {:induction false} ReadFramesFit(n: nat, data: seq<byte>)
    requires FramesRead(n, data).Ok?
    ensures var frames := FramesRead(n, data).value.value;
            && |frames| == n
            && forall i :: 0 <= i < |frames| ==> Plain(frames[i]) && Fits(frames[i])
  {
    if n > 0 {
      var first := ReadFrame(data).value;
      ReadFramesFit(n - 1, first.rest);
    }
  }

  lemma {:induction false} FittingFramesAreWritable(frames: seq<Frame>, last: seq<byte>)
    requires forall i :: 0 <= i < |frames| ==> Plain(frames[i]) && Fits(frames[i])
    requires |last| < REPEAT_FRAME
    ensures Writable(Expanded(frames, last))
  {
    if frames != [] {
      assert Plain(frames[0]) && Fits(frames[0]);
      FittingFramesAreWritable(frames[1..], if frames[0].repeatLast then last else frames[0].inBytes);
    }
  }

  lemma {:induction false} WritableFramesFit(frames: seq<Frame>, last: seq<byte>)
    requires forall i :: 0 <= i < |frames| ==> Plain(frames[i])
    requires Writable(Expanded(frames, last))
    ensures AllFit(frames)
  {
    if frames != [] {
      var bytes := if frames[0].repeatLast then last else frames[0].inBytes;
      assert Plain(frames[0]);
      var played := Expanded(frames, last);
      assert played[0] == Played(frames[0].instructions, bytes);
      assert played[1..] == Expanded(frames[1..], bytes);
      forall i | 0 <= i < |played[1..]|
        ensures played[1..][i].instructions < WORD_MODULUS && |played[1..][i].inBytes| < REPEAT_FRAME
      {
        assert played[1..][i] == played[i + 1];
      }
      WritableFramesFit(frames[1..], bytes);
      FirstFits(frames);
    }
  }

  lemma WhatIsReadIsWritable(frames: seq<Frame>)
    requires forall i :: 0 <= i < |frames| ==> Plain(frames[i]) && Fits(frames[i])
    requires Plays(frames).Ok?
    ensures Writable(Plays(frames).value)
  {
    if frames != [] {
      assert Plain(frames[0]) && Fits(frames[0]);
      FittingFramesAreWritable(frames[1..], frames[0].inBytes);
    }
  }

  /** Frames that start with their own inputs play as they expand. */
  lemma OwnInputsPlay(frames: seq<Frame>)
    requires frames != [] ==> !frames[0].repeatLast && Plain(frames[0])
    ensures Plays(frames) == Ok(Expanded(frames, []))
  {
  }

  lemma ReadFramesPlay(frames: seq<Frame>, nonRepeat: nat)
    requires Sound(frames, nonRepeat)
    ensures var read, played := FramesRead(|frames|, FramesBytes(frames)), Expanded(frames, []);
            && (read.Err? ==> !Writable(played))
            && (read.Ok? ==> (Plays(read.value.value) == Ok(played) <==> Writable(played)))
            && (read.Ok? ==> AllPlain(Input(read.value.value, 0, 0)) && |read.value.value| == |frames|)
  {
    hide FramesRead, FramesBytes, Expanded, Plays, Writable, AllFit, Fits;
    var read := FramesRead(|frames|, FramesBytes(frames));
    assert FramesBytes(frames) + [] == FramesBytes(frames);
    FramesRoundTrip(frames, []);
    if Writable(Expanded(frames, [])) {
      WritableFramesFit(frames, []);
      assert frames != [] ==> Plain(frames[0]);
      OwnInputsPlay(AllAsRead(frames));
      ReadFramesPlayTheSame(frames, []);
    }
    if read.Ok? {
      ReadFramesFit(|frames|, FramesBytes(frames));
      if Plays(read.value.value).Ok? {
        WhatIsReadIsWritable(read.value.value);
      }
    }
  }

  lemma OneBlockPlays(b: Block)
    requires b.Input?
    ensures Playing([b][0..]) == BlockPlays(b) && NthInput([b], 0, 0) == 0
  {
    assert [b][0..] == [b] && [b][1..] == [];
    NothingThen(BlockPlays(b));
  }

  /** Sound frames go through their file unchanged, as far as playing them goes, exactly when they are writable. */
  method WriteAndReplay(frames: seq<Frame>, nonRepeat: nat, tstates: dword) returns (r: Result<seq<Played>>)
    requires Sound(frames, nonRepeat)
    ensures r == Ok(Expanded(frames, [])) <==> frames != [] && Writable(Expanded(frames, []))
  {
    hide FramesRead, FramesBytes, Expanded, Plays, Writable, Playing, NthInput;
    var data := WriteFrames(frames);
    var read := ReadFrames(|frames|, data);
    ReadFramesPlay(frames, nonRepeat);
    if read.Err? {
      return Err(read.error);
    }
    var block := Input(read.value.value, nonRepeat, tstates);
    var player := new Player([block]);
    OneBlockPlays(block);
    r := player.Replay(0);
  }

  /** A recording that is made, kept in a file and replayed is the recording exactly when it is not empty, and the file
      can hold the numbers in it. */
  method RecordAndReplay(played: seq<Played>, tstates: dword) returns (r: Result<seq<Played>>)
    ensures r == Ok(played) <==> played != [] && Writable(played)
  {
    hide Expanded, Sound, Writable;
    var input := new InputBlock(tstates);
    NothingExpanded([], []);
    var i := 0;
    assert played[..0] == [];
    while i < |played|
      invariant i <= |played| && input.Valid() && fresh(input) && fresh(input.frames)
      invariant input.Recorded() == played[..i]
    {
      input.StoreFrame(played[i].instructions, played[i].inBytes);
      i := i + 1;
    }
    assert played[..i] == played;
    r := WriteAndReplay(input.frames[..input.count], input.nonRepeat, tstates);
  }

  // ----- Joining -----

  /** input_block_merge. */
  function Merged(a: Block, b: Block): Block
    requires a.Input? && b.Input?
  {
    Input(a.frames + b.frames, |a.frames| + b.nonRepeat, a.tstates)
  }

  /** The inputs that a block that can be played ends with. */
  function LastPlayed(frames: seq<Frame>): seq<byte>
    requires frames != []
  {
    LastBytes(frames[1..], frames[0].inBytes)
  }

  /** Merging two blocks keeps what is played, unless frames of the first come before a repeat of the second. A repeat
      that has no count, which no file has, makes no difference behind a frame without inputs. */
  lemma MergeKeepsPlayback(a: Block, b: Block)
    requires a.Input? && b.Input? && (b.frames != [] ==> Plain(b.frames[0]))
    ensures Plays(Merged(a, b).frames) == Then(Plays(a.frames), Plays(b.frames)) <==>
            || a.frames == [] || b.frames == []
            || a.frames[0].count != |a.frames[0].inBytes|
            || !b.frames[0].repeatLast
            || (b.frames[0].count == 0 && LastPlayed(a.frames) == [])
  {
    hide LastBytes;
    NothingThen(Plays(a.frames));
    NothingThen(Plays(b.frames));
    if a.frames == [] {
      assert a.frames + b.frames == b.frames;
    } else if b.frames == [] {
      assert a.frames + b.frames == a.frames;
    } else if a.frames[0].count == |a.frames[0].inBytes| {
      MergedPlays(a.frames, b.frames);
      BehindRepeat(b.frames, LastPlayed(a.frames));
      if Plays(b.frames).Ok? {
        SameBehind(Plays(a.frames).value, Expanded(b.frames, LastPlayed(a.frames)), Plays(b.frames).value);
      }
    }
  }

  lemma MergedPlays(one: seq<Frame>, other: seq<Frame>)
    requires one != [] && Plays(one).Ok?
    ensures Plays(one + other) == Ok(Plays(one).value + Expanded(other, LastPlayed(one)))
  {
    hide Expanded, LastBytes;
    var first := [Played(one[0].instructions, one[0].inBytes)];
    assert (one + other)[1..] == one[1..] + other;
    ExpandedAppend(one[1..], other, one[0].inBytes);
    Assoc(first, Expanded(one[1..], one[0].inBytes), Expanded(other, LastPlayed(one)));
  }

  lemma BehindRepeat(frames: seq<Frame>, last: seq<byte>)
    requires frames != [] && Plain(frames[0])
    ensures Plays(frames) == Ok(Expanded(frames, last)) <==>
            !frames[0].repeatLast || (frames[0].count == 0 && last == [])
  {
    if Plays(frames) == Ok(Expanded(frames, last)) {
      assert Plays(frames).value[0].inBytes == frames[0].inBytes;
      assert Expanded(frames, last)[0].inBytes == if frames[0].repeatLast then last else frames[0].inBytes;
    }
  }

  lemma SameBehind(x: seq<Played>, y: seq<Played>, z: seq<Played>)
    ensures x + y == x + z <==> y == z
  {
    if x + y == x + z {
      assert y == (x + y)[|x|..] && z == (x + z)[|x|..];
    }
  }

  /** A recording that came out of a file: a frame that repeats has the count that says so. */
  predicate FromFile(frames: seq<Frame>) {
    forall i :: 0 <= i < |frames| ==> Plain(frames[i]) && (frames[i].repeatLast ==> frames[i].count == REPEAT_FRAME)
  }

  /** For blocks from a file, the second behind a first that plays something, it is the repeat alone that matters. */
  lemma MergeFromFile(a: Block, b: Block)
    requires a.Input? && b.Input? && FromFile(b.frames) && a.frames != [] && Plays(a.frames).Ok?
    ensures Plays(Merged(a, b).frames) == Then(Plays(a.frames), Plays(b.frames))
            <==> b.frames == [] || !b.frames[0].repeatLast
  {
    MergeKeepsPlayback(a, b);
  }

  /** The bytes 01 00 ff ff are a frame that repeats. In a block of its own it is an error, behind another one it
      plays. */
  lemma RepeatBehindABlock()
    ensures var a, b := Frame(1, 0, [], false), Frame(1, 0xffff, [], true);
            && ReadFrame([1, 0, 0xff, 0xff]) == Ok(Read(b, []))
            && Then(Plays([a]), Plays([b])) == Err(Corrupt)
            && Plays(Merged(Input([a], 0, 0), Input([b], 0, 0)).frames) == Ok([Played(1, []), Played(1, [])])
  {
    hide Expanded, ReadFrame;
    var a, b := Frame(1, 0, [], false), Frame(1, 0xffff, [], true);
    assert WordBytes(1) == [1, 0] && WordBytes(0xffff) == [0xff, 0xff];
    assert [1, 0, 0xff, 0xff] == FrameBytes(b) + [];
    FrameIsRead(b, []);
    NothingExpanded([a][1..], []);
    var one := Played(1, []);
    assert [one] + [] == [one] && [one] + [one] == [one, one];
    MergedPlays([a], [b]);
    OneExpanded(b, []);
  }

  /** Recording can go on after a merge, unless the second block is empty: then the frame that is said to be the last
      with inputs of its own is not there. */
  lemma MergeKeepsSoundness(a: Block, b: Block)
    requires a.Input? && b.Input? && a.frames != [] && Sound(a.frames, a.nonRepeat) && Sound(b.frames, b.nonRepeat)
    ensures Sound(Merged(a, b).frames, Merged(a, b).nonRepeat) <==> b.frames != []
  {
    var m := Merged(a, b);
    if b.frames != [] {
      assert m.frames[m.nonRepeat] == b.frames[b.nonRepeat];
      forall i | m.nonRepeat < i < |m.frames| ensures m.frames[i].repeatLast {
        assert m.frames[i] == b.frames[i - |a.frames|];
      }
      forall i | 0 <= i < |m.frames| ensures Plain(m.frames[i]) {
        assert m.frames[i] == if i < |a.frames| then a.frames[i] else b.frames[i - |a.frames|];
      }
    }
  }

  /** With an empty block behind one frame, the frame after the merge is compared with one that is not there. */
  lemma EmptyBehindABlock()
    ensures var a, b := Input([Frame(1, 0, [], false)], 0, 0), Input([], 0, 0);
            && Sound(a.frames, a.nonRepeat) && Sound(b.frames, b.nonRepeat)
            && Merged(a, b) == Input(a.frames, 1, 0) && !Sound(Merged(a, b).frames, Merged(a, b).nonRepeat)
  {
    var a, b := Input([Frame(1, 0, [], false)], 0, 0), Input([], 0, 0);
    assert a.frames + b.frames == a.frames;
    MergeKeepsSoundness(a, b);
  }

  /** All snapshots but the first go. */
  function FirstSnapshotOnly(blocks: seq<Block>, first: bool): seq<Block> {
    if blocks == [] then []
    else if !blocks[0].Snapshot? then [blocks[0]] + FirstSnapshotOnly(blocks[1..], first)
    else if first then [blocks[0]] + FirstSnapshotOnly(blocks[1..], false)
    else FirstSnapshotOnly(blocks[1..], first)
  }

  /** Input blocks that follow each other become one. */
  function Joined(blocks: seq<Block>): seq<Block>
    decreases |blocks|
  {
    if blocks == [] then []
    else if |blocks| >= 2 && blocks[0].Input? && blocks[1].Input?
    then Joined([Merged(blocks[0], blocks[1])] + blocks[2..])
    else [blocks[0]] + Joined(blocks[1..])
  }

  function Finalised(blocks: seq<Block>): seq<Block> {
    Joined(FirstSnapshotOnly(blocks, true))
  }

  /** An input block starts with a frame that has its own inputs. */
  predicate StartsFreshly(b: Block) {
    b.Input? && b.frames != [] ==> !b.frames[0].repeatLast && Plain(b.frames[0])
  }

  predicate AllFresh(blocks: seq<Block>) {
    forall i :: 0 <= i < |blocks| ==> StartsFreshly(blocks[i])
  }

  /** For a recording from a file, this is to say that it can be played. */
  lemma {:induction false} FreshMeansPlayable(blocks: seq<Block>)
    requires forall i :: 0 <= i < |blocks| ==> blocks[i].Input? ==> FromFile(blocks[i].frames)
    ensures AllFresh(blocks) <==> Stream(blocks).Ok?
  {
    hide Expanded, FromFile;
    if blocks != [] {
      var b := blocks[0];
      FreshMeansPlayable(blocks[1..]);
      if b.Input? && b.frames != [] {
        FirstFromFile(b.frames);
      }
      assert forall i :: 0 < i < |blocks| ==> blocks[i] == blocks[1..][i - 1];
      assert AllFresh(blocks) <==> StartsFreshly(b) && AllFresh(blocks[1..]);
    }
  }

  lemma FirstFromFile(frames: seq<Frame>)
    requires frames != [] && FromFile(frames)
    ensures Plain(frames[0]) && (frames[0].repeatLast ==> frames[0].count != |frames[0].inBytes|)
  {
  }

  function Snapshots(blocks: seq<Block>): seq<Block> {
    if blocks == [] then []
    else (if blocks[0].Snapshot? then [blocks[0]] else []) + Snapshots(blocks[1..])
  }

  function Others(blocks: seq<Block>): seq<Block> {
    if blocks == [] then []
    else (if blocks[0].Other? then [blocks[0]] else []) + Others(blocks[1..])
  }

  /** What finalising keeps of a block when others are joined to it. */
  function Head(b: Block): Block {
    if b.Input? then Input([], 0, b.tstates) else b
  }

  /** The blocks that stay when inputs are joined: each that is not an input block behind another one. */
  function Heads(blocks: seq<Block>, behindInput: bool): seq<Block> {
    if blocks == [] then []
    else (if behindInput && blocks[0].Input? then [] else [Head(blocks[0])]) + Heads(blocks[1..], blocks[0].Input?)
  }

  function WithoutSnapshots(blocks: seq<Block>): seq<Block> {
    if blocks == [] then []
    else (if blocks[0].Snapshot? then [] else [blocks[0]]) + WithoutSnapshots(blocks[1..])
  }

  /** The blocks up to the first snapshot. */
  function ToFirstSnapshot(blocks: seq<Block>): seq<Block> {
    if blocks == [] then []
    else if blocks[0].Snapshot? then [blocks[0]]
    else [blocks[0]] + ToFirstSnapshot(blocks[1..])
  }

  predicate NoNeighbours(blocks: seq<Block>) {
    forall i :: 0 < i < |blocks| ==> !(blocks[i - 1].Input? && blocks[i].Input?)
  }

  lemma {:induction false} SnapshotsGo(blocks: seq<Block>, first: bool)
    ensures var r := FirstSnapshotOnly(blocks, first);
            && Others(r) == Others(blocks)
            && Snapshots(r) == (if first && Snapshots(blocks) != [] then [Snapshots(blocks)[0]] else [])
            && |r| <= |blocks| && (|r| == |blocks| <==> r == blocks)
  {
    if blocks != [] {
      SnapshotsGo(blocks[1..], first && !blocks[0].Snapshot?);
    }
  }

  /** The rest stays in its order, and the first snapshot in its place. */
  lemma {:induction false} SnapshotsGoInPlace(blocks: seq<Block>, first: bool)
    ensures var r := FirstSnapshotOnly(blocks, first);
            && WithoutSnapshots(r) == WithoutSnapshots(blocks)
            && (first ==> ToFirstSnapshot(blocks) <= r)
  {
    if blocks != [] {
      var r := FirstSnapshotOnly(blocks, first);
      SnapshotsGoInPlace(blocks[1..], first && !blocks[0].Snapshot?);
      if !blocks[0].Snapshot? || first {
        assert r[1..] == FirstSnapshotOnly(blocks[1..], first && !blocks[0].Snapshot?);
      }
    }
  }

  lemma {:induction false} SnapshotsDoNotPlay(blocks: seq<Block>, first: bool)
    ensures var r := FirstSnapshotOnly(blocks, first);
            && (AllFresh(blocks) ==> AllFresh(r)) && (NoneEmpty(blocks) ==> NoneEmpty(r))
            && Stream(r) == Stream(blocks)
  {
    hide StartsFreshly, Plays;
    if blocks != [] {
      SnapshotsDoNotPlay(blocks[1..], first && !blocks[0].Snapshot?);
      NothingThen(Stream(blocks[1..]));
    }
  }

  lemma {:induction false} JoiningKeeps(blocks: seq<Block>)
    ensures var r := Joined(blocks);
            && (AllFresh(blocks) ==> Stream(r) == Stream(blocks)) && (NoneEmpty(blocks) ==> NoneEmpty(r))
            && Others(r) == Others(blocks) && Snapshots(r) == Snapshots(blocks)
            && NoNeighbours(r)
            && |r| <= |blocks| && (|r| == |blocks| <==> r == blocks)
            && (blocks == [] <==> r == [])
            && (blocks != [] ==> (r[0].Input? <==> blocks[0].Input?))
    decreases |blocks|
  {
    hide StartsFreshly, Plays, Merged;
    if |blocks| >= 2 && blocks[0].Input? && blocks[1].Input? {
      var less := [Merged(blocks[0], blocks[1])] + blocks[2..];
      MergedRest(blocks, less);
      if AllFresh(blocks) {
        MergedStream(blocks, less);
      }
      JoiningKeeps(less);
    } else if blocks != [] {
      JoiningKeeps(blocks[1..]);
    }
  }

  /** The blocks that stay are in their order, and a joined one has the t-states of its first part. */
  lemma {:induction false} JoiningKeepsHeads(blocks: seq<Block>)
    ensures Heads(Joined(blocks), false) == Heads(blocks, false)
    decreases |blocks|
  {
    hide Heads, Joined;
    JoinedStep(blocks);
    if |blocks| >= 2 && blocks[0].Input? && blocks[1].Input? {
      var less := [Merged(blocks[0], blocks[1])] + blocks[2..];
      HeadsOfMerged(blocks, less);
      JoiningKeepsHeads(less);
    } else if blocks != [] {
      var rest := blocks[1..];
      JoiningKeepsHeads(rest);
      JoiningKeeps(rest);
      if blocks[0].Input? {
        HeadsBehindInput(rest);
        HeadsBehindInput(Joined(rest));
      }
      HeadsStep(blocks[0], rest);
      HeadsStep(blocks[0], Joined(rest));
      assert blocks == [blocks[0]] + rest;
    }
  }

  lemma JoinedStep(blocks: seq<Block>)
    ensures blocks == [] ==> Joined(blocks) == []
    ensures blocks != [] ==>
              Joined(blocks)
              == if |blocks| >= 2 && blocks[0].Input? && blocks[1].Input?
                 then Joined([Merged(blocks[0], blocks[1])] + blocks[2..]) else [blocks[0]] + Joined(blocks[1..])
  {
  }

  lemma HeadsOfMerged(blocks: seq<Block>, less: seq<Block>)
    requires |blocks| >= 2 && blocks[0].Input? && blocks[1].Input?
    requires less == [Merged(blocks[0], blocks[1])] + blocks[2..]
    ensures Heads(less, false) == Heads(blocks, false)
  {
    assert less[1..] == blocks[2..] == blocks[1..][1..];
  }

  lemma HeadsBehindInput(blocks: seq<Block>)
    requires blocks == [] || !blocks[0].Input?
    ensures Heads(blocks, true) == Heads(blocks, false)
  {
  }

  lemma HeadsStep(b: Block, rest: seq<Block>)
    ensures Heads([b] + rest, false) == [Head(b)] + Heads(rest, b.Input?)
  {
    assert ([b] + rest)[1..] == rest;
  }

  lemma MergedRest(blocks: seq<Block>, less: seq<Block>)
    requires |blocks| >= 2 && blocks[0].Input? && blocks[1].Input?
    requires less == [Merged(blocks[0], blocks[1])] + blocks[2..]
    ensures Others(less) == Others(blocks) && Snapshots(less) == Snapshots(blocks)
    ensures less[0].Input? && (NoneEmpty(blocks) ==> NoneEmpty(less))
  {
    assert less[1..] == blocks[2..] == blocks[1..][1..];
    assert forall i :: 0 < i < |less| ==> less[i] == blocks[i + 1];
  }

  lemma MergedStream(blocks: seq<Block>, less: seq<Block>)
    requires AllFresh(blocks) && |blocks| >= 2 && blocks[0].Input? && blocks[1].Input?
    requires less == [Merged(blocks[0], blocks[1])] + blocks[2..]
    ensures AllFresh(less) && Stream(less) == Stream(blocks)
  {
    hide Plays;
    assert StartsFreshly(blocks[0]) && StartsFreshly(blocks[1]);
    MergeKeepsPlayback(blocks[0], blocks[1]);
    assert less[1..] == blocks[2..] == blocks[1..][1..];
    ThenAssoc(Plays(blocks[0].frames), Plays(blocks[1].frames), Stream(blocks[2..]));
  }

  /** Finalising a recording leaves the first snapshot only and no two input blocks next to each other, and keeps the
      other blocks, all in their order; the recording stays the same exactly when no block goes. What is played stays
      the same if every input block starts with inputs of its own. */
  lemma FinalisingKeeps(blocks: seq<Block>)
    ensures var r := Finalised(blocks);
            && (AllFresh(blocks) ==> Stream(r) == Stream(blocks))
            && (AllFresh(blocks) && NoneEmpty(blocks) ==> Playing(r) == Playing(blocks))
            && Others(r) == Others(blocks)
            && Snapshots(r) == (if Snapshots(blocks) == [] then [] else [Snapshots(blocks)[0]])
            && NoNeighbours(r)
            && (|r| == |blocks| <==> r == blocks)
    ensures var fewer := FirstSnapshotOnly(blocks, true);
            && ToFirstSnapshot(blocks) <= fewer && WithoutSnapshots(fewer) == WithoutSnapshots(blocks)
            && Heads(Finalised(blocks), false) == Heads(fewer, false)
  {
    hide *;
    SnapshotsGoInPlace(blocks, true);
    JoiningKeepsHeads(FirstSnapshotOnly(blocks, true));
    SnapshotsGo(blocks, true);
    SnapshotsDoNotPlay(blocks, true);
    JoiningKeeps(FirstSnapshotOnly(blocks, true));
    FinalisedIs(blocks);
    if NoneEmpty(blocks) {
      PlayingIsStream(blocks);
      PlayingIsStream(Finalised(blocks));
    }
  }

  lemma FinalisedIs(blocks: seq<Block>)
    ensures Finalised(blocks) == Joined(FirstSnapshotOnly(blocks, true))
  {
  }

  class Recording {
    var blocks: seq<Block>

    method DeleteSnapshots() returns (finalised: bool)
      modifies this
      ensures blocks == FirstSnapshotOnly(old(blocks), true)
      ensures |blocks| <= |old(blocks)| && (finalised <==> |blocks| < |old(blocks)|)
    {
      var first := true;
      finalised := false;
      var list := 0;
      ghost var whole := FirstSnapshotOnly(blocks, true);
      assert blocks[0..] == blocks;
      while list < |blocks|
        invariant list <= |blocks| <= |old(blocks)| && (finalised <==> |blocks| < |old(blocks)|)
        invariant whole == blocks[..list] + FirstSnapshotOnly(blocks[list..], first)
        decreases |blocks| - list
      {
        ghost var done, rest := blocks[..list], blocks[list..];
        assert rest[1..] == blocks[list + 1..];
        Assoc(done, [rest[0]], FirstSnapshotOnly(rest[1..], first && !rest[0].Snapshot?));
        if blocks[list].Snapshot? && !first {
          blocks := blocks[..list] + blocks[list + 1..];
          finalised := true;
          assert blocks[..list] == done && blocks[list..] == rest[1..];
        } else {
          if blocks[list].Snapshot? {
            first := false;
          }
          list := list + 1;
          assert blocks[..list] == done + [rest[0]];
        }
      }
      assert blocks[..list] == blocks;
    }

    method MergeInputs() returns (finalised: bool)
      modifies this
      ensures blocks == Joined(old(blocks))
      ensures |blocks| <= |old(blocks)| && (finalised <==> |blocks| < |old(blocks)|)
    {
      hide Merged;
      finalised := false;
      var list := 0;
      ghost var whole := Joined(blocks);
      assert blocks[0..] == blocks;
      while list < |blocks|
        invariant list <= |blocks| <= |old(blocks)| && (finalised <==> |blocks| < |old(blocks)|)
        invariant whole == blocks[..list] + Joined(blocks[list..])
        decreases |blocks| - list
      {
        ghost var done, rest := blocks[..list], blocks[list..];
        assert rest[1..] == blocks[list + 1..];
        if blocks[list].Input? && list + 1 < |blocks| && blocks[list + 1].Input? {
          var merged := Merged(blocks[list], blocks[list + 1]);
          assert rest[2..] == blocks[list + 2..];
          blocks := blocks[..list] + [merged] + blocks[list + 2..];
          finalised := true;
          assert blocks[..list] == done && blocks[list..] == [merged] + rest[2..];
        } else {
          Assoc(done, [rest[0]], Joined(rest[1..]));
          list := list + 1;
          assert blocks[..list] == done + [rest[0]];
        }
      }
      assert blocks[..list] == blocks;
    }

    /** libspectrum_rzx_finalise. There is an error exactly when there was nothing to do. */
    method Finalise() returns (error: Option<Error>)
      modifies this
      ensures blocks == Finalised(old(blocks))
      ensures error == if blocks == old(blocks) then Some(Invalid) else None
    {
      hide FirstSnapshotOnly, Joined;
      FinalisingKeeps(blocks);
      var deleted := DeleteSnapshots();
      var merged := MergeInputs();
      error := if deleted || merged then None else Some(Invalid);
    }
  }
}
