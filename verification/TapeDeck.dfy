/** libspectrum_tape_get_next_edge (tape.c): the players of the blocks and the outer machine put together. */
module TapeDeck {
  import opened Bytes
  import opened TapeEdges
  import opened TapePlayers
  import opened GeneralisedData
  import opened LevelledData
  import opened SampledData
  import opened TapeRun

  class TapePlayer {
    const blocks: Tape
    var current: nat
    var loopBlock: Option<nat>
    var loopCount: nat

    // The state of the block being played. The source keeps these in a union.
    const bits: BitPlayer
    const counter: CountPlayer
    const sequence: SequencePlayer
    const generalised: GeneralisedPlayer
    const raw: RawPlayer
    const rle: RlePlayer
    const levelled: LevelledPlayer

    ghost function Players(): set<object> {
      {bits, counter, sequence, generalised, raw, rle, levelled, levelled.bits}
    }

    ghost predicate BlockValid(b: Block)
      reads Players()
    {
      SafeToPlay(b) &&
      match b
      case Rom(r) => bits.Valid(RomTimings(r).body) && bits.RomValid()
      case Turbo(t) => bits.Valid(t.body)
      case PureData(d) => bits.Valid(d) && bits.InData()
      case Pulses(lengths) => counter.PulsesValid(lengths)
      case Generalised(g) => generalised.Valid(g)
      case Sequence(p) => sequence.Valid(p)
      case Raw(r) => raw.Valid(r)
      case Rle(r) => rle.Valid(r)
      case Levelled(l) => levelled.Valid(l)
      case _ => true
    }

    ghost function BlockRemaining(b: Block): seq<Edge>
      requires BlockValid(b)
      reads Players()
    {
      match b
      case Rom(r) => bits.Remaining(RomTimings(r))
      case Turbo(t) => bits.Remaining(t)
      case Tone(t) => counter.ToneRemaining(t)
      case PureData(d) => bits.DataRemaining(d)
      case Pulses(lengths) => counter.PulsesRemaining(lengths)
      case Generalised(g) => generalised.Remaining(g)
      case Sequence(p) => sequence.Remaining(p)
      case Raw(r) => raw.Remaining(r)
      case Rle(r) => rle.Remaining(r)
      case Levelled(l) => levelled.Remaining(l)
      case _ => Sounds(b)
    }

    ghost predicate Valid()
      reads this, Players()
    {
      && blocks != [] && AllSafe(blocks)
      && current < |blocks| && BlockValid(blocks[current])
      && BlockRemaining(blocks[current]) != []
      && InLoop(blocks, loopBlock, loopCount)
    }

    /** Where playing has got to, as the outer machine sees it. */
    ghost function Where(): (p: Position)
      requires Valid()
      reads this, Players()
      ensures OnTape(blocks, p)
    {
      Position(current, BlockRemaining(blocks[current]), loopBlock, loopCount)
    }

    constructor (tape: Tape)
      requires tape != [] && AllSafe(tape)
      ensures Valid() && blocks == tape && Where() == Begin(tape)
      ensures fresh(Players())
    {
      hide Sounds, SafeToPlay, BlockValid, BlockRemaining, Valid, Where;
      blocks := tape;
      current, loopBlock, loopCount := 0, None, 0;
      bits := new BitPlayer();
      counter := new CountPlayer();
      sequence := new SequencePlayer();
      generalised := new GeneralisedPlayer();
      raw := new RawPlayer();
      rle := new RlePlayer();
      levelled := new LevelledPlayer();
      new;
      BlockInit();
      Started();
    }

    /** A started block is all ahead. */
    lemma Started()
      requires AllSafe(blocks) && current < |blocks| && InLoop(blocks, loopBlock, loopCount)
      requires BlockValid(blocks[current]) && BlockRemaining(blocks[current]) == Sounds(blocks[current])
      ensures Valid() && Where() == At(blocks, current, loopBlock, loopCount)
    {
      hide Sounds, SafeToPlay, BlockValid, BlockRemaining;
    }

    /** libspectrum_tape_block_init. */
    method BlockInit()
      requires current < |blocks| && SafeToPlay(blocks[current])
      modifies Players()
      ensures BlockValid(blocks[current]) && BlockRemaining(blocks[current]) == Sounds(blocks[current])
    {
      match blocks[current]
      case Rom(r) => bits.RomInit(r);
      case Turbo(t) => bits.TurboInit(t);
      case Tone(t) => counter.ToneInit(t);
      case Pulses(lengths) => counter.PulsesInit(lengths);
      case PureData(d) => bits.PureDataInit(d);
      case Generalised(g) => generalised.Init(g);
      case Sequence(p) => sequence.Init(p);
      case Raw(r) => raw.Init(r);
      case Rle(r) => rle.Init(r);
      case Levelled(l) => levelled.Init(l);
      case _ =>
    }

    /** The switch on the type of the block. */
    method BlockEdge(b: Block) returns (edge: Edge, endOfBlock: bool)
      requires BlockValid(b)
      modifies Players()
      ensures !endOfBlock ==> BlockValid(b)
      ensures old(BlockRemaining(b)) == [edge] + (if endOfBlock then [] else BlockRemaining(b))
    {
      match b
      case Rom(r) => edge, endOfBlock := bits.RomEdge(r);
      case Turbo(t) => edge, endOfBlock := bits.TurboEdge(t);
      case Tone(t) => edge, endOfBlock := counter.ToneEdge(t);
      case Pulses(lengths) => edge, endOfBlock := counter.PulsesEdge(lengths);
      case PureData(d) => edge, endOfBlock := bits.PureDataEdge(d);
      case Generalised(g) => edge, endOfBlock := generalised.GeneralisedDataEdge(g);
      case Sequence(p) => edge, endOfBlock := sequence.PulseSequenceEdge(p);
      case Raw(r) => edge, endOfBlock := raw.RawDataEdge(r);
      case Rle(r) =>
        var pulse;
        pulse, endOfBlock := rle.RlePulseEdge(r.data, r.scale);
        edge := Edge(pulse.value, {});
      case Levelled(l) => edge, endOfBlock := levelled.DataBlockEdge(l);
      case PauseFor(t, level) =>
        var flags := {};
        if level != -1 && t != 0 {
          flags := if level != 0 then {LevelHigh} else {LevelLow};
        }
        if t == 0 {
          flags := flags + {Stop};
          assert flags == {Stop};
        }
        edge, endOfBlock := Edge(t, flags), true;
      case StopIn48KMode => edge, endOfBlock := Edge(0, {Stop48}), true;
      case SignalLevel(high) => edge, endOfBlock := Edge(0, if high then {LevelLow} else {LevelHigh}), true;
      case LoopStart(_) => edge, endOfBlock := SILENT, true;
      case LoopEnd => edge, endOfBlock := SILENT, true;
      case NoData(_) => edge, endOfBlock := SILENT, true;
    }

    /** What happens once the last edge of a block has been worked out. */
    method FinishBlock(last: Edge) returns (edge: Edge, ghost endOfTape: bool)
      requires blocks != [] && AllSafe(blocks) && current < |blocks| && InLoop(blocks, loopBlock, loopCount)
      modifies this, Players()
      ensures Valid()
      ensures Outcome(edge, Where(), endOfTape)
           == old(Step(blocks, Position(current, [last], loopBlock, loopCount)))
    {
      hide Sounds, SafeToPlay, BlockValid, BlockRemaining, Valid, Where;
      var block, noAdvance := blocks[current], false;
      endOfTape := false;
      if block.LoopStart? {
        if current + 1 < |blocks| && block.count != 0 {
          loopBlock := Some(current + 1);
          loopCount := block.count;
        }
      } else if block.LoopEnd? && loopBlock.Some? {
        loopCount := loopCount - 1;
        if loopCount != 0 {
          current := loopBlock.value;
          noAdvance := true;
        } else {
          loopBlock := None;
        }
      }
      edge := Edge(last.tstates, last.flags + {Block});
      if !noAdvance {
        current := current + 1;
        if current == |blocks| {
          edge := Edge(edge.tstates, edge.flags + {Stop, Flag.Tape} - {NoEdge});
          assert edge == EndFlags(last);
          current := 0;
          endOfTape := true;
        }
      }
      BlockInit();
      Started();
    }

    /** Every call does what the outer machine's Step says. */
    method GetNextEdge() returns (edge: Edge, ghost endOfTape: bool)
      requires Valid()
      modifies this, Players()
      ensures Valid()
      ensures old(Step(blocks, Where())) == Outcome(edge, Where(), endOfTape)
    {
      hide Sounds, SafeToPlay;
      ghost var before := Where();
      var endOfBlock;
      edge, endOfBlock := BlockEdge(blocks[current]);
      if endOfBlock {
        assert before.rest == [edge];
        edge, endOfTape := FinishBlock(edge);
      } else {
        endOfTape := false;
        assert before.rest[1..] == BlockRemaining(blocks[current]);
      }
    }
  }
}
