/** PZX data blocks (tape.c, tape_block.c): bits with any number of pulses each, and a level for every edge. */
module LevelledData {
  import opened Bytes
  import opened TapeEdges
  import opened TapePlayers

  datatype LevelledBlock = LevelledBlock(
    data: seq<byte>, bitsInLastByte: size, level: int, bit0: seq<word>, bit1: seq<word>, tail: dword)

  /** Each kind of bit has a pulse, since the first is taken without a look at their number. A level of -1 would leave
      the player with the level that some block before had. */
  predicate ValidLevelled(b: LevelledBlock) {
    && |b.data| < SIZE_MODULUS && b.level != -1
    && 0 < |b.bit0| < SIZE_MODULUS && 0 < |b.bit1| < SIZE_MODULUS
  }

  function AsData(b: LevelledBlock): DataBlock {
    DataBlock(b.data, b.bitsInLastByte, 0, 0, b.tail)
  }

  function BitPulses(b: LevelledBlock, bit: bool): seq<word> {
    if bit then b.bit1 else b.bit0
  }

  /** Two pulses that match, for both kinds of bit. */
  predicate Matching(b: LevelledBlock) {
    && |b.bit0| == 2 && |b.bit1| == 2
    && b.bit0[0] == b.bit0[1] > 0 && b.bit1[0] == b.bit1[1] > 0
  }

  function BitFlags(b: LevelledBlock, bit: bool): set<Flag> {
    if !Matching(b) || b.bit0[0] == b.bit1[0] then {}
    else if BitPulses(b, bit)[0] < BitPulses(b, !bit)[0] then {LengthShort} else {LengthLong}
  }

  function FlaggedPulses(pulses: seq<word>, flags: set<Flag>): (r: seq<Edge>)
    ensures |r| == |pulses|
  {
    if pulses == [] then [] else [Edge(pulses[0], flags)] + FlaggedPulses(pulses[1..], flags)
  }

  function PulsesOfBits(b: LevelledBlock, bits: seq<bool>): seq<Edge> {
    if bits == [] then []
    else FlaggedPulses(BitPulses(b, bits[0]), BitFlags(b, bits[0])) + PulsesOfBits(b, bits[1..])
  }

  function LevelFlag(level: int): Flag {
    if level != 0 then LevelHigh else LevelLow
  }

  /** Every edge has the level that the last one left, and turns it. A tail of no length is no edge. */
  function WithLevels(edges: seq<Edge>, level: int): (r: seq<Edge>)
    ensures |r| == |edges|
  {
    if edges == [] then []
    else
      var e := edges[0];
      if NoEdge in e.flags then [e] + WithLevels(edges[1..], level)
      else [e.(flags := e.flags + {LevelFlag(level)})] + WithLevels(edges[1..], Flip(level))
  }

  function LevelledEdges(b: LevelledBlock): (r: seq<Edge>)
    ensures r != []
  {
    WithLevels(PulsesOfBits(b, BitsFrom(AsData(b), 0)) + [PauseEdge(b.tail)], b.level)
  }

  /** Levels alternate from the first one given, and nothing else is changed. */
  lemma {:induction false} LevelsAlternate(edges: seq<Edge>, level: int, k: nat)
    requires k < |edges| && forall i :: 0 <= i <= k ==> NoEdge !in edges[i].flags
    ensures WithLevels(edges, level)[k]
         == Edge(edges[k].tstates, edges[k].flags + {LevelFlag(LevelAt(level, k))})
  {
    if k > 0 {
      LevelsAlternate(edges[1..], Flip(level), k - 1);
    }
  }

  // ----- Every edge of a block -----

  lemma {:induction false} LevelTurns(level: int, k: nat)
    ensures LevelAt(level, k) != 0 <==> (level != 0 <==> k % 2 == 0)
    decreases k
  {
    if k > 0 {
      LevelTurns(Flip(level), k - 1);
    }
  }

  /** How many pulses some bits take. */
  function PulseCount(b: LevelledBlock, bits: seq<bool>): nat {
    if bits == [] then 0 else (if bits[0] then |b.bit1| else |b.bit0|) + PulseCount(b, bits[1..])
  }

  lemma {:induction false} FlaggedAt(pulses: seq<word>, flags: set<Flag>, i: nat)
    requires i < |pulses|
    ensures FlaggedPulses(pulses, flags)[i] == Edge(pulses[i], flags)
  {
    if i > 0 {
      FlaggedAt(pulses[1..], flags, i - 1);
    }
  }

  lemma {:induction false} PulseOfBit(b: LevelledBlock, bits: seq<bool>, j: nat, i: nat)
    requires j < |bits| && i < |BitPulses(b, bits[j])|
    ensures PulseCount(b, bits[..j]) + i < |PulsesOfBits(b, bits)|
    ensures PulsesOfBits(b, bits)[PulseCount(b, bits[..j]) + i]
         == Edge(BitPulses(b, bits[j])[i], BitFlags(b, bits[j]))
  {
    hide BitFlags;
    var first := FlaggedPulses(BitPulses(b, bits[0]), BitFlags(b, bits[0]));
    if j == 0 {
      FlaggedAt(BitPulses(b, bits[0]), BitFlags(b, bits[0]), i);
      assert bits[..0] == [];
    } else {
      assert bits[..j][1..] == bits[1..][..j - 1];
      PulseOfBit(b, bits[1..], j - 1, i);
      var m := PulseCount(b, bits[1..][..j - 1]) + i;
      assert (first + PulsesOfBits(b, bits[1..]))[|first| + m] == PulsesOfBits(b, bits[1..])[m];
    }
  }

  lemma {:induction false} PulsesAreEdges(b: LevelledBlock, bits: seq<bool>)
    ensures |PulsesOfBits(b, bits)| == PulseCount(b, bits)
    ensures forall e :: e in PulsesOfBits(b, bits) ==> NoEdge !in e.flags
  {
    if bits != [] {
      var first := FlaggedPulses(BitPulses(b, bits[0]), BitFlags(b, bits[0]));
      forall i | 0 <= i < |first| ensures NoEdge !in first[i].flags {
        FlaggedAt(BitPulses(b, bits[0]), BitFlags(b, bits[0]), i);
      }
      PulsesAreEdges(b, bits[1..]);
    }
  }

  /** Pulse i of bit j has the length that its kind of bit gives, and is said to be short or long when both kinds of bit
      are two equal pulses, one kind shorter than the other. Edges are high and low in turn, starting with the level of
      the block. */
  lemma EdgeOfBit(b: LevelledBlock, j: nat, i: nat)
    requires ValidLevelled(b)
    requires var bits := BitsFrom(AsData(b), 0);
             j < |bits| && i < if bits[j] then |b.bit1| else |b.bit0|
    ensures var bits := BitsFrom(AsData(b), 0);
            var k, pulses, others := PulseCount(b, bits[..j]) + i, if bits[j] then b.bit1 else b.bit0,
                                     if bits[j] then b.bit0 else b.bit1;
            var pairs := && |pulses| == 2 && pulses[0] == pulses[1] > 0
                         && |others| == 2 && others[0] == others[1] > 0;
            && k < |LevelledEdges(b)| - 1
            && LevelledEdges(b)[k].tstates == pulses[i]
            && LevelledEdges(b)[k].flags
               == {if b.level != 0 <==> k % 2 == 0 then LevelHigh else LevelLow}
                  + if pairs && pulses[0] < others[0] then {LengthShort}
                    else if pairs && pulses[0] > others[0] then {LengthLong} else {}
  {
    hide BitsFrom, PulsesOfBits, WithLevels, LevelAt, PulseCount;
    var bits := BitsFrom(AsData(b), 0);
    var k, pulses := PulseCount(b, bits[..j]) + i, PulsesOfBits(b, bits);
    PulseOfBit(b, bits, j, i);
    PulsesAreEdges(b, bits);
    LevelTurns(b.level, k);
    LevelsAlternate(pulses + [PauseEdge(b.tail)], b.level, k);
  }

  /** Behind the pulses of the bits comes the tail: the next edge of all, or none if it has no length. */
  lemma EdgeOfTail(b: LevelledBlock)
    requires ValidLevelled(b)
    ensures var k := |LevelledEdges(b)| - 1;
            && k == PulseCount(b, BitsFrom(AsData(b), 0))
            && LevelledEdges(b)[k] == Edge(b.tail, if b.tail == 0 then {NoEdge}
                                                   else {if b.level != 0 <==> k % 2 == 0 then LevelHigh else LevelLow})
  {
    hide BitsFrom, PulsesOfBits, LevelAt, PulseCount;
    var bits := BitsFrom(AsData(b), 0);
    var edges := PulsesOfBits(b, bits) + [PauseEdge(b.tail)];
    var k := |edges| - 1;
    PulsesAreEdges(b, bits);
    if b.tail == 0 {
      NoEdgeStays(edges, b.level, k);
    } else {
      LevelTurns(b.level, k);
      LevelsAlternate(edges, b.level, k);
    }
  }

  lemma {:induction false} NoEdgeStays(edges: seq<Edge>, level: int, k: nat)
    requires k < |edges| && NoEdge in edges[k].flags
    ensures WithLevels(edges, level)[k] == edges[k]
  {
    if k > 0 {
      NoEdgeStays(edges[1..], if NoEdge in edges[0].flags then level else Flip(level), k - 1);
    }
  }

  lemma {:induction false} WithLevelsDuration(edges: seq<Edge>, level: int)
    ensures Duration(WithLevels(edges, level)) == Duration(edges)
  {
    if edges != [] {
      WithLevelsDuration(edges[1..], if NoEdge in edges[0].flags then level else Flip(level));
      DurationStep(WithLevels(edges, level)[0], WithLevels(edges, level)[1..]);
    }
  }

  /** The state of a PZX data block: the bits are taken as those of other data blocks are. */
  class LevelledPlayer {
    const bits: BitPlayer
    var pulses: seq<word>
    var flags: set<Flag>
    var index: nat
    var level: int

    constructor ()
      ensures fresh(bits)
    {
      bits := new BitPlayer();
      pulses, flags, index, level := [], {}, 0, 0;
    }

    ghost predicate Valid(b: LevelledBlock)
      reads this, bits
    {
      && ValidLevelled(b) && bits.Valid(AsData(b)) && (bits.phase == Data1 || bits.phase == Pause)
      && (bits.phase == Data1 ==> index < |pulses| < SIZE_MODULUS)
    }

    /** The pulses to come, as yet without their levels. */
    ghost function Pulses(b: LevelledBlock): seq<Edge>
      requires Valid(b)
      reads this, bits
    {
      (if bits.phase == Data1 then
         FlaggedPulses(pulses[index..], flags) + PulsesOfBits(b, bits.BitsAhead(AsData(b)))
       else [])
      + [PauseEdge(b.tail)]
    }

    ghost function Remaining(b: LevelledBlock): seq<Edge>
      requires Valid(b)
      reads this, bits
    {
      WithLevels(Pulses(b), level)
    }

    /** libspectrum_tape_data_block_next_bit. */
    method NextBit(b: LevelledBlock)
      requires ValidLevelled(b) && bits.Valid(AsData(b)) && bits.phase != Pause
      modifies this, bits
      ensures Valid(b) && level == old(level)
      ensures Pulses(b) == PulsesOfBits(b, old(bits.BitsAhead(AsData(b)))) + [PauseEdge(b.tail)]
    {
      hide BitsFrom, BitFlags;
      ghost var ahead := bits.BitsAhead(AsData(b));
      var more := bits.MoveToNextBit(AsData(b));
      if !more {
        bits.phase := Pause;
        return;
      }
      TakeBit(bits.currentByte, BitsLeft(bits.bitsThrough), BitsFrom(AsData(b), bits.bytesThrough + 1));
      var nextBit := bits.currentByte >= 128;
      bits.currentByte := ShiftLeft(bits.currentByte);
      assert bits.BitsAhead(AsData(b)) == ahead[1..];
      pulses := BitPulses(b, nextBit);
      flags := BitFlags(b, nextBit);
      index := 0;
      bits.phase := Data1;
      assert pulses[0..] == pulses;
    }

    method Init(b: LevelledBlock)
      requires ValidLevelled(b)
      modifies this, bits
      ensures Valid(b) && Remaining(b) == LevelledEdges(b)
    {
      level := b.level;
      bits.StartBeforeData();
      bits.phase := Data1;
      assert bits.BitsAhead(AsData(b)) == BitsFrom(AsData(b), 0);
      NextBit(b);
    }

    method DataBlockEdge(b: LevelledBlock) returns (edge: Edge, endOfBlock: bool)
      requires Valid(b)
      modifies this, bits
      ensures Valid(b)
      ensures old(Remaining(b)) == [edge] + (if endOfBlock then [] else Remaining(b))
    {
      hide BitsFrom, BitFlags, PulsesOfBits;
      ghost var before := Pulses(b);
      if bits.phase == Data1 {
        edge := Edge(pulses[index], flags);
        ghost var bitsAhead := PulsesOfBits(b, bits.BitsAhead(AsData(b)));
        FirstPulse(pulses[index..], flags, bitsAhead, [PauseEdge(b.tail)]);
        assert pulses[index..][1..] == pulses[index + 1..];
        index := index + 1;
        if index == |pulses| {
          NextBit(b);
        }
        endOfBlock := false;
        assert before == [edge] + Pulses(b);
      } else {
        edge := PauseEdge(b.tail);
        endOfBlock := true;
        assert before == [edge];
      }
      if NoEdge !in edge.flags {
        edge := Edge(edge.tstates, edge.flags + {LevelFlag(level)});
        level := Flip(level);
      }
    }
  }

  lemma FirstPulse(pulses: seq<word>, flags: set<Flag>, bits: seq<Edge>, tail: seq<Edge>)
    requires pulses != []
    ensures FlaggedPulses(pulses, flags) + bits + tail
         == [Edge(pulses[0], flags)] + (FlaggedPulses(pulses[1..], flags) + bits + tail)
    ensures |pulses| == 1 ==> FlaggedPulses(pulses[1..], flags) + bits + tail == bits + tail
  {
    Assoc([Edge(pulses[0], flags)], FlaggedPulses(pulses[1..], flags), bits);
    Assoc([Edge(pulses[0], flags)], FlaggedPulses(pulses[1..], flags) + bits, tail);
  }
}
