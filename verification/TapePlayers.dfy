/** The edge functions of tape.c, one call an edge. Each player's Remaining is the list of edges still
    to come; a call takes the first of them, and reports the end of the block with the last. */
module TapePlayers {
  import opened Bytes
  import opened TapeEdges

  datatype Phase = Pilot | Sync1 | Sync2 | Data1 | Data2 | Pause

  /** A size_t counted up by one. */
  function Next(x: nat): nat {
    if x == SIZE_MODULUS - 1 then 0 else x + 1
  }

  /** 8 - bits in a size_t. */
  function EightLess(bits: size): nat {
    if bits <= 8 then 8 - bits else SIZE_MODULUS + 8 - bits
  }

  /** The number of size_t increments that take bitsThrough to 7. */
  function BitsLeft(bitsThrough: nat): nat
    requires bitsThrough < SIZE_MODULUS
  {
    if bitsThrough <= 7 then 7 - bitsThrough else SIZE_MODULUS + 7 - bitsThrough
  }

  lemma RepeatStep<T>(x: T, n: nat, rest: seq<T>)
    requires n > 0
    ensures Repeat(x, n) + rest == [x] + (Repeat(x, n - 1) + rest)
  {
    assert Repeat(x, n) == [x] + Repeat(x, n - 1);
  }

  lemma RepeatNone<T>(x: T, rest: seq<T>)
    ensures Repeat(x, 0) + rest == rest
  {
  }

  lemma OneThenRest<T>(a: T, b: T, rest: seq<T>)
    ensures [a, b] + rest == [a] + ([b] + rest)
  {
  }

  /** The bit counter that next_bit sets when it loads byte i. */
  function FirstBit(d: DataBlock, i: nat): nat {
    if i == |d.data| - 1 then EightLess(d.bitsInLastByte) else 0
  }

  lemma LoadByte(d: DataBlock, i: nat)
    requires i < |d.data|
    ensures FirstBit(d, i) < SIZE_MODULUS
    ensures BitsFrom(d, i) == Bits(d.data[i], BitsLeft(FirstBit(d, i)) + 1) + BitsFrom(d, i + 1)
  {
    assert Width(d, i) == BitsLeft(FirstBit(d, i)) + 1;
  }

  lemma TakeBit(b: byte, left: nat, rest: seq<bool>)
    ensures var ahead := Bits(b, left + 1) + rest;
            ahead != [] && ahead[0] == (b >= 128) && ahead[1..] == Bits(ShiftLeft(b), left) + rest
  {
    assert Bits(b, left + 1) == [b >= 128] + Bits(ShiftLeft(b), left);
  }

  lemma FirstBitEdges(d: DataBlock, bits: seq<bool>)
    requires bits != []
    ensures var e, p := BitEdge(d, BitLength(d, bits[0])), [PauseEdge(d.pause)];
            BitEdges(d, bits) + p == [e, e] + (BitEdges(d, bits[1..]) + p)
  {
  }

  /** The state shared by ROM, turbo and pure data blocks, which play data bits in the same way. */
  class BitPlayer {
    var phase: Phase
    var edgeCount: nat
    var bytesThrough: nat
    var bitsThrough: nat
    var currentByte: byte
    var bitTstates: dword

    constructor ()
      ensures Counting()
    {
      phase, edgeCount, bytesThrough, bitsThrough, currentByte, bitTstates := Pause, 0, 0, 0, 0, 0;
    }

    ghost predicate Counting()
      reads this
    {
      bitsThrough < SIZE_MODULUS && bytesThrough < SIZE_MODULUS
    }

    /** The bits not yet taken: what is left in the current byte, then the bytes after it. */
    ghost function BitsAhead(d: DataBlock): seq<bool>
      requires Counting()
      reads this
    {
      Bits(currentByte, BitsLeft(bitsThrough)) + BitsFrom(d, Next(bytesThrough))
    }

    ghost function DataAhead(d: DataBlock): seq<Edge>
      requires Counting()
      reads this
    {
      BitEdges(d, BitsAhead(d)) + [PauseEdge(d.pause)]
    }

    ghost function Remaining(t: TurboBlock): seq<Edge>
      requires Counting()
      reads this
    {
      match phase
      case Pilot => Repeat(Edge(t.pilotLength, {}), edgeCount)
                    + ([Edge(t.sync1, {}), Edge(t.sync2, {})] + DataAhead(t.body))
      case Sync1 => [Edge(t.sync1, {}), Edge(t.sync2, {})] + DataAhead(t.body)
      case Sync2 => [Edge(t.sync2, {})] + DataAhead(t.body)
      case _ => DataRemaining(t.body)
    }

    /** In a pure data block, or once a turbo block has reached its data. */
    ghost function DataRemaining(d: DataBlock): seq<Edge>
      requires Counting()
      reads this
    {
      match phase
      case Data1 => [BitEdge(d, bitTstates), BitEdge(d, bitTstates)] + DataAhead(d)
      case Data2 => [BitEdge(d, bitTstates)] + DataAhead(d)
      case _ => [PauseEdge(d.pause)]
    }

    ghost predicate InData()
      reads this
    {
      phase == Data1 || phase == Data2 || phase == Pause
    }

    ghost predicate Valid(d: DataBlock)
      reads this
    {
      && Counting()
      && |d.data| < SIZE_MODULUS
      && (bytesThrough < |d.data| || (phase != Pause ==> bytesThrough == SIZE_MODULUS - 1 && bitsThrough == 7))
    }

    /** The first half of next_bit: move to the bit, loading the next byte if this one is finished. */
    method MoveToNextBit(d: DataBlock) returns (more: bool)
      requires Valid(d) && phase != Pause
      modifies this`bytesThrough, this`bitsThrough, this`currentByte
      ensures Counting()
      ensures more ==> bytesThrough < |d.data|
      ensures more ==> old(BitsAhead(d)) == Bits(currentByte, BitsLeft(bitsThrough) + 1) + BitsFrom(d, bytesThrough + 1)
      ensures !more ==> old(BitsAhead(d)) == []
    {
      bitsThrough := Next(bitsThrough);
      if bitsThrough == 8 {
        bytesThrough := Next(bytesThrough);
        assert old(BitsAhead(d)) == BitsFrom(d, bytesThrough);
        if bytesThrough == |d.data| {
          return false;
        }
        currentByte := d.data[bytesThrough];
        bitsThrough := FirstBit(d, bytesThrough);
        LoadByte(d, bytesThrough);
      }
      more := true;
    }

    /** The next_bit functions: the three in tape.c differ only in where the lengths come from. */
    method NextBit(d: DataBlock)
      requires Valid(d) && phase != Pause
      modifies this
      ensures Valid(d) && (phase == Data1 || phase == Pause) && edgeCount == old(edgeCount)
      ensures old(DataAhead(d)) == DataRemaining(d)
    {
      ghost var ahead := BitsAhead(d);
      var more := MoveToNextBit(d);
      if !more {
        phase := Pause;
        assert [] + [PauseEdge(d.pause)] == [PauseEdge(d.pause)];
        return;
      }
      TakeBit(currentByte, BitsLeft(bitsThrough), BitsFrom(d, bytesThrough + 1));
      FirstBitEdges(d, ahead);
      var nextBit := currentByte >= 128;
      currentByte := ShiftLeft(currentByte);
      assert BitsAhead(d) == ahead[1..];
      bitTstates := BitLength(d, nextBit);
      phase := Data1;
    }

    method StartBeforeData()
      modifies this
      ensures bytesThrough == SIZE_MODULUS - 1 && bitsThrough == 7
      ensures edgeCount == old(edgeCount) && phase == old(phase)
    {
      bytesThrough, bitsThrough := SIZE_MODULUS - 1, 7;
    }

    method TurboInit(t: TurboBlock)
      requires |t.body.data| < SIZE_MODULUS
      modifies this
      ensures Valid(t.body) && Remaining(t) == TurboEdges(t)
    {
      edgeCount := t.pilotPulses;
      StartBeforeData();
      phase := Pilot;
      assert BitsAhead(t.body) == BitsFrom(t.body, 0);
    }

    /** The states that all three kinds of block share are all that a pure data block has. */
    method PureDataEdge(d: DataBlock) returns (edge: Edge, endOfBlock: bool)
      requires Valid(d) && InData()
      modifies this
      ensures Valid(d) && InData()
      ensures old(DataRemaining(d)) == [edge] + (if endOfBlock then [] else DataRemaining(d))
    {
      match phase
      case Data1 =>
        edge := BitEdge(d, bitTstates);
        phase := Data2;
        endOfBlock := false;
      case Data2 =>
        edge := BitEdge(d, bitTstates);
        NextBit(d);
        endOfBlock := false;
      case Pause =>
        edge := PauseEdge(d.pause);
        endOfBlock := true;
    }

    method TurboEdge(t: TurboBlock) returns (edge: Edge, endOfBlock: bool)
      requires Valid(t.body)
      modifies this
      ensures Valid(t.body)
      ensures old(Remaining(t)) == [edge] + (if endOfBlock then [] else Remaining(t))
    {
      endOfBlock := false;
      match phase
      case Pilot =>
        if edgeCount != 0 {
          edge := Edge(t.pilotLength, {});
          RepeatStep(edge, edgeCount, [Edge(t.sync1, {}), Edge(t.sync2, {})] + DataAhead(t.body));
          edgeCount := edgeCount - 1;
        } else {
          edge := Edge(t.sync1, {});
          RepeatNone(Edge(t.pilotLength, {}), [edge, Edge(t.sync2, {})] + DataAhead(t.body));
          OneThenRest(edge, Edge(t.sync2, {}), DataAhead(t.body));
          phase := Sync2;
        }
      case Sync1 =>
        edge := Edge(t.sync1, {});
        OneThenRest(edge, Edge(t.sync2, {}), DataAhead(t.body));
        phase := Sync2;
      case Sync2 =>
        edge := Edge(t.sync2, {});
        NextBit(t.body);
      case _ =>
        edge, endOfBlock := PureDataEdge(t.body);
    }

    method RomInit(r: RomBlock)
      requires |r.data| < SIZE_MODULUS
      modifies this
      ensures Valid(RomTimings(r).body) && RomValid() && Remaining(RomTimings(r)) == TurboEdges(RomTimings(r))
    {
      edgeCount := if r.data != [] && r.data[0] >= 128 then PILOTS_DATA else PILOTS_HEADER;
      StartBeforeData();
      phase := Pilot;
      assert BitsAhead(RomTimings(r).body) == BitsFrom(RomTimings(r).body, 0);
    }

    ghost predicate RomValid()
      reads this
    {
      phase == Pilot ==> edgeCount > 0
    }

    /** Unlike turbo_edge, rom_edge leaves the pilot with the last pilot edge. */
    method RomEdge(r: RomBlock) returns (edge: Edge, endOfBlock: bool)
      requires Valid(RomTimings(r).body) && RomValid()
      modifies this
      ensures Valid(RomTimings(r).body) && RomValid()
      ensures old(Remaining(RomTimings(r))) == [edge] + (if endOfBlock then [] else Remaining(RomTimings(r)))
    {
      var d := RomTimings(r).body;
      endOfBlock := false;
      match phase
      case Pilot =>
        edge := Edge(TIMING_PILOT, {});
        ghost var rest := [Edge(TIMING_SYNC1, {}), Edge(TIMING_SYNC2, {})] + DataAhead(d);
        RepeatStep(edge, edgeCount, rest);
        edgeCount := edgeCount - 1;
        RepeatNone(edge, rest);
        if edgeCount == 0 {
          phase := Sync1;
        }
      case Sync1 =>
        edge := Edge(TIMING_SYNC1, {});
        OneThenRest(edge, Edge(TIMING_SYNC2, {}), DataAhead(d));
        phase := Sync2;
      case Sync2 =>
        edge := Edge(TIMING_SYNC2, {});
        NextBit(d);
      case _ =>
        edge, endOfBlock := PureDataEdge(d);
    }

    method PureDataInit(d: DataBlock)
      requires |d.data| < SIZE_MODULUS
      modifies this
      ensures Valid(d) && InData()
      ensures DataRemaining(d) == DataEdges(d)
    {
      StartBeforeData();
      phase := Data1;
      assert BitsAhead(d) == BitsFrom(d, 0);
      NextBit(d);
    }
  }

  /** The state of tone and pulse list blocks: a single counter. */
  class CountPlayer {
    var edgeCount: nat

    constructor ()
    {
      edgeCount := 0;
    }

    /** A size_t counter that is counted down before it is compared with zero. */
    ghost function ToneRemaining(t: ToneBlock): seq<Edge>
      reads this
    {
      Repeat(Edge(t.length, {}), Turns(edgeCount, SIZE_MODULUS))
    }

    method ToneInit(t: ToneBlock)
      modifies this
      ensures ToneRemaining(t) == ToneEdges(t)
    {
      edgeCount := t.pulses;
    }

    method ToneEdge(t: ToneBlock) returns (edge: Edge, endOfBlock: bool)
      modifies this
      ensures old(ToneRemaining(t)) == [edge] + (if endOfBlock then [] else ToneRemaining(t))
    {
      edge := Edge(t.length, {});
      ghost var n := Turns(edgeCount, SIZE_MODULUS);
      edgeCount := if edgeCount == 0 then SIZE_MODULUS - 1 else edgeCount - 1;
      endOfBlock := edgeCount == 0;
      assert Repeat(edge, n) == [edge] + Repeat(edge, n - 1);
    }

    ghost predicate PulsesValid(lengths: seq<dword>)
      reads this
    {
      edgeCount < |lengths|
    }

    ghost function PulsesRemaining(lengths: seq<dword>): seq<Edge>
      requires PulsesValid(lengths)
      reads this
    {
      PulseEdges(lengths[edgeCount..])
    }

    /** The first length is read without a look at the count, so there has to be one. */
    method PulsesInit(lengths: seq<dword>)
      requires lengths != []
      modifies this
      ensures PulsesValid(lengths) && PulsesRemaining(lengths) == PulseEdges(lengths)
    {
      edgeCount := 0;
      assert lengths[0..] == lengths;
    }

    method PulsesEdge(lengths: seq<dword>) returns (edge: Edge, endOfBlock: bool)
      requires PulsesValid(lengths)
      modifies this
      ensures !endOfBlock ==> PulsesValid(lengths)
      ensures old(PulsesRemaining(lengths)) == [edge] + (if endOfBlock then [] else PulsesRemaining(lengths))
    {
      edge := Edge(lengths[edgeCount], {});
      assert lengths[edgeCount..][1..] == lengths[edgeCount + 1..];
      edgeCount := edgeCount + 1;
      endOfBlock := edgeCount == |lengths|;
    }
  }

  /** What is left of a pulse sequence after count pulses of group i. */
  ghost function PulsesAfter(p: PulseSequence, i: nat, count: nat): seq<dword>
    requires ValidSequence(p) && i < |p.lengths| && count < Turns(p.repeats[i], SIZE_MODULUS)
  {
    Repeat(p.lengths[i], Turns(p.repeats[i], SIZE_MODULUS) - count) + PulsesFrom(p, i + 1)
  }

  lemma TakeOnePulse(p: PulseSequence, i: nat, count: nat)
    requires ValidSequence(p) && i < |p.lengths| && count < Turns(p.repeats[i], SIZE_MODULUS)
    ensures Next(count) != p.repeats[i] ==> Next(count) < Turns(p.repeats[i], SIZE_MODULUS)
    ensures PulsesAfter(p, i, count) == [p.lengths[i]]
        + if Next(count) != p.repeats[i] then PulsesAfter(p, i, Next(count))
          else if i + 1 < |p.lengths| then PulsesAfter(p, i + 1, 0) else []
  {
    var left := Turns(p.repeats[i], SIZE_MODULUS) - count;
    RepeatStep(p.lengths[i], left, PulsesFrom(p, i + 1));
    if Next(count) == p.repeats[i] {
      assert left == 1;
      RepeatNone(p.lengths[i], PulsesFrom(p, i + 1));
    }
  }

  /** The state of a PZX pulse sequence block. */
  class SequencePlayer {
    var index: nat
    var pulseCount: nat
    var level: int

    constructor ()
    {
      index, pulseCount, level := 0, 0, -1;
    }

    ghost predicate Valid(p: PulseSequence)
      reads this
    {
      ValidSequence(p) && index < |p.lengths| && pulseCount < Turns(p.repeats[index], SIZE_MODULUS)
    }

    ghost function PulsesAhead(p: PulseSequence): seq<dword>
      requires Valid(p)
      reads this
    {
      PulsesAfter(p, index, pulseCount)
    }

    ghost function Remaining(p: PulseSequence): seq<Edge>
      requires Valid(p)
      reads this
    {
      LevelEdges(PulsesAhead(p), level, level)
    }

    method Init(p: PulseSequence)
      requires ValidSequence(p)
      modifies this
      ensures Valid(p) && Remaining(p) == SequenceEdges(p)
    {
      index, pulseCount, level := 0, 0, -1;
    }

    /** One turn of the loop: take a pulse and step the counters, which a size_t does modulo 2^64. */
    method TakePulse(p: PulseSequence) returns (tstates: dword, endOfBlock: bool)
      requires Valid(p)
      modifies this
      ensures level == old(level)
      ensures !endOfBlock ==> Valid(p)
      ensures old(PulsesAhead(p)) == [tstates] + (if endOfBlock then [] else PulsesAhead(p))
    {
      hide PulsesAfter;
      TakeOnePulse(p, index, pulseCount);
      tstates := p.lengths[index];
      endOfBlock := false;
      pulseCount := Next(pulseCount);
      if pulseCount == p.repeats[index] {
        index := index + 1;
        if index >= |p.lengths| {
          endOfBlock := true;
        } else {
          pulseCount := 0;
        }
      }
    }

    method PulseSequenceEdge(p: PulseSequence) returns (edge: Edge, endOfBlock: bool)
      requires Valid(p)
      modifies this
      ensures !endOfBlock ==> Valid(p)
      ensures old(Remaining(p)) == [edge] + (if endOfBlock then [] else Remaining(p))
    {
      var newLevel, tstates := level, 0;
      endOfBlock := false;
      ghost var ahead := PulsesAhead(p);
      while tstates == 0 && !endOfBlock
        invariant level == old(level)
        invariant !endOfBlock ==> Valid(p) && ahead == PulsesAhead(p)
        invariant endOfBlock ==> ahead == []
        invariant old(Remaining(p)) == if tstates == 0 && !endOfBlock then LevelEdges(ahead, level, newLevel)
                                       else [LevelEdge(tstates, level, newLevel)]
                                            + LevelEdges(ahead, newLevel, newLevel)
        decreases if endOfBlock then 0 else |ahead|, if tstates == 0 then 1 else 0
      {
        ghost var before := ahead;
        tstates, endOfBlock := TakePulse(p);
        ahead := if endOfBlock then [] else PulsesAhead(p);
        newLevel := Flip(newLevel);
        assert before[1..] == ahead && before[0] == tstates;
      }
      edge := LevelEdge(tstates, level, newLevel);
      if newLevel != level {
        level := newLevel;
      }
    }
  }
}
