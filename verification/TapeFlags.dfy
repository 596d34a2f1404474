/** The flags that tell an emulator what to do (tape.c): where a block ends, where the tape does, where to stop. */
module TapeFlags {
  import opened Bytes
  import opened TapeEdges
  import opened GeneralisedData
  import opened LevelledData
  import opened SampledData
  import opened TapeRun

  /** An edge that asks for nothing. */
  predicate Unmarked(e: Edge) {
    Flag.Block !in e.flags && Stop !in e.flags && Stop48 !in e.flags && Flag.Tape !in e.flags
  }

  predicate AllUnmarked(edges: seq<Edge>) {
    forall e :: e in edges ==> Unmarked(e)
  }

  lemma {:induction false} BitsUnmarked(d: DataBlock, bits: seq<bool>)
    ensures AllUnmarked(BitEdges(d, bits))
  {
    if bits != [] {
      BitsUnmarked(d, bits[1..]);
    }
  }

  lemma {:induction false} PulsesUnmarked(lengths: seq<dword>)
    ensures AllUnmarked(PulseEdges(lengths))
  {
    if lengths != [] {
      PulsesUnmarked(lengths[1..]);
    }
  }

  lemma {:induction false} LevelsUnmarked(pulses: seq<dword>, level: int, now: int)
    ensures AllUnmarked(LevelEdges(pulses, level, now))
  {
    if pulses != [] {
      LevelsUnmarked(pulses[1..], if pulses[0] != 0 || |pulses| == 1 then Flip(now) else level, Flip(now));
    }
  }

  lemma {:induction false} RunsUnmarked(runs: seq<nat>, last: bool, bitLength: dword)
    requires runs != []
    ensures AllUnmarked(RunEdges(runs, last, bitLength))
  {
    if |runs| > 1 {
      RunsUnmarked(runs[1..], !last, bitLength);
    }
  }

  lemma {:induction false} SymbolUnmarked(s: Symbol, k: nat)
    requires k < |s.lengths|
    ensures AllUnmarked(SymbolFrom(s, k))
    decreases |s.lengths| - k
  {
    if !LastPulse(s, k) {
      SymbolUnmarked(s, k + 1);
    }
  }

  lemma {:induction false} TimesUnmarked(edges: seq<Edge>, n: nat)
    requires AllUnmarked(edges)
    ensures AllUnmarked(Times(edges, n))
  {
    if n > 0 {
      TimesUnmarked(edges, n - 1);
    }
  }

  lemma {:induction false} PilotUnmarked(b: GeneralisedBlock, run: nat)
    requires PilotFits(b)
    ensures AllUnmarked(PilotFrom(b, run))
    decreases b.pilot.symbolsInBlock - run
  {
    hide Unmarked, PilotFits, Repeats, SymbolFrom, Times;
    if run < b.pilot.symbolsInBlock {
      PilotLengths(b, run);
      SymbolUnmarked(PilotSymbol(b, run), 0);
      TimesUnmarked(SymbolEdges(PilotSymbol(b, run)), Repeats(b, run));
      PilotUnmarked(b, run + 1);
    }
  }

  lemma PilotLengths(b: GeneralisedBlock, run: nat)
    requires PilotFits(b) && run < b.pilot.symbolsInBlock
    ensures run < |b.pilotRepeats| && PilotSymbol(b, run).lengths != []
  {
  }

  lemma {:induction false} DataUnmarked(b: GeneralisedBlock, bits: seq<bool>, n: nat)
    requires DataFits(b, bits, n)
    ensures AllUnmarked(DataFrom(b, bits, n))
    decreases n
  {
    hide Unmarked, SymbolFrom;
    if n > 0 {
      var s := b.data.symbols[SymbolIndex(bits[..b.bitsPerSymbol])];
      SymbolUnmarked(s, 0);
      DataUnmarked(b, bits[b.bitsPerSymbol..], n - 1);
    }
  }

  lemma {:induction false} FlaggedUnmarked(pulses: seq<word>, flags: set<Flag>)
    requires Unmarked(Edge(0, flags))
    ensures AllUnmarked(FlaggedPulses(pulses, flags))
  {
    if pulses != [] {
      FlaggedUnmarked(pulses[1..], flags);
    }
  }

  lemma {:induction false} PulsesOfBitsUnmarked(b: LevelledBlock, bits: seq<bool>)
    ensures AllUnmarked(PulsesOfBits(b, bits))
  {
    if bits != [] {
      FlaggedUnmarked(BitPulses(b, bits[0]), BitFlags(b, bits[0]));
      PulsesOfBitsUnmarked(b, bits[1..]);
    }
  }

  lemma {:induction false} WithLevelsUnmarked(edges: seq<Edge>, level: int)
    requires AllUnmarked(edges)
    ensures AllUnmarked(WithLevels(edges, level))
  {
    if edges != [] {
      assert edges[0] in edges;
      assert AllUnmarked(edges[1..]);
      WithLevelsUnmarked(edges[1..], if NoEdge in edges[0].flags then level else Flip(level));
    }
  }

  predicate IsWave(b: TapeRun.Block) {
    b.Rom? || b.Turbo? || b.Tone? || b.Pulses? || b.PureData? || b.Generalised? || b.Sequence? || b.Raw? || b.Rle?
    || b.Levelled?
  }

  lemma WavesUnmarked(b: TapeRun.Block)
    requires SafeToPlay(b) && IsWave(b)
    ensures AllUnmarked(Sounds(b))
  {
    hide BitEdges, PulseEdges, LevelEdges, RunEdges, PilotFrom, DataFrom, PulsesOfBits, WithLevels, BitsFrom, Repeat,
      StreamBits, PulsesFrom, RawRuns, DataFits;
    match b
    case Rom(r) => BitsUnmarked(RomTimings(r).body, BitsFrom(RomTimings(r).body, 0));
    case Turbo(t) => BitsUnmarked(t.body, BitsFrom(t.body, 0));
    case Tone(t) =>
    case Pulses(lengths) => PulsesUnmarked(lengths);
    case PureData(d) => BitsUnmarked(d, BitsFrom(d, 0));
    case Generalised(g) =>
      PilotUnmarked(g, 0);
      DataUnmarked(g, StreamBits(g.stream, 0), g.data.symbolsInBlock);
    case Sequence(p) => LevelsUnmarked(PulsesFrom(p, 0), -1, -1);
    case Raw(r) =>
      if r.data != [] {
        RunsUnmarked(RawRuns(r), !TopBit(r), r.bitLength);
      }
    case Rle(r) => PulsesUnmarked(PulsesFromIndex(r.data, 0, r.scale).value);
    case Levelled(l) =>
      PulsesOfBitsUnmarked(l, BitsFrom(AsData(l), 0));
      WithLevelsUnmarked(PulsesOfBits(l, BitsFrom(AsData(l), 0)) + [PauseEdge(l.tail)], l.level);
  }

  /** Of all blocks, a pause of no length alone stops the tape, and the block for 48K machines alone stops it there. */
  lemma WhatBlocksAsk(b: TapeRun.Block, e: Edge)
    requires SafeToPlay(b) && e in Sounds(b)
    ensures Flag.Block !in e.flags && Flag.Tape !in e.flags
    ensures Stop in e.flags <==> b.PauseFor? && b.tstates == 0
    ensures Stop48 in e.flags <==> b.StopIn48KMode?
  {
    if IsWave(b) {
      hide Sounds, SafeToPlay;
      WavesUnmarked(b);
    }
  }

  /** The edges to come are edges of the present block. */
  predicate InBlock(tape: Tape, p: Position)
    requires p.current < |tape|
  {
    forall e :: e in p.rest ==> e in Sounds(tape[p.current])
  }

  /** Whether the present block is the end of a loop that is to go round again. */
  predicate GoesRound(tape: Tape, p: Position)
    requires p.current < |tape|
  {
    tape[p.current].LoopEnd? && p.loopBlock.Some? && p.loopCount != 1
  }

  /** Wherever playing has got to, an edge says that it ends a block exactly when it is the last of one, and that it
      ends the tape exactly when it is the last of the last block, unless that sends playing round a loop. The tape is
      to stop at its end and at a pause of no length. */
  lemma StepFlags(tape: Tape, p: Position)
    requires OnTape(tape, p) && AllSafe(tape) && InBlock(tape, p)
    ensures var r, last := Step(tape, p), |p.rest| == 1;
            var ends := last && p.current + 1 == |tape| && !GoesRound(tape, p);
            var b, flags := tape[p.current], r.edge.flags;
            && InBlock(tape, r.next)
            && (Flag.Block in flags <==> last)
            && (Flag.Tape in flags <==> ends) && (r.endOfTape <==> ends)
            && (Stop in flags <==> ends || (b.PauseFor? && b.tstates == 0))
            && (Stop48 in flags <==> b.StopIn48KMode?)
  {
    hide Sounds, SafeToPlay;
    assert SafeToPlay(tape[p.current]) && p.rest[0] in p.rest;
    WhatBlocksAsk(tape[p.current], p.rest[0]);
  }

  /** A whole playing says once that the tape ends, with its last edge. */
  lemma {:induction false} TapeEndsOnce(tape: Tape, p: Position, k: nat)
    requires OnTape(tape, p) && AllSafe(tape) && InBlock(tape, p) && k < |Play(tape, p)|
    ensures Flag.Tape in Play(tape, p)[k].flags <==> k == |Play(tape, p)| - 1
    decreases k
  {
    hide Step, AllSafe, InBlock;
    StepFlags(tape, p);
    var r := Step(tape, p);
    if !r.endOfTape && k > 0 {
      TapeEndsOnce(tape, r.next, k - 1);
    }
  }

  /** The level that a pause asks for is forced when it has a length; that of a signal level block is forced the other
      way round, for the next edge to turn it. */
  lemma ForcedLevels(b: TapeRun.Block)
    ensures b.PauseFor? ==>
              && |Sounds(b)| == 1 && Sounds(b)[0].tstates == b.tstates
              && (LevelHigh in Sounds(b)[0].flags <==> b.tstates > 0 && b.level != -1 && b.level != 0)
              && (LevelLow in Sounds(b)[0].flags <==> b.tstates > 0 && b.level == 0)
    ensures b.SignalLevel? ==>
              && |Sounds(b)| == 1 && Sounds(b)[0].tstates == 0
              && Sounds(b)[0].flags == if b.high then {LevelLow} else {LevelHigh}
  {
  }
}
