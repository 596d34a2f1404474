/** Tapes that are written as CSW (csw.c) without any loss of time. */
module CswTapes {
  import opened Bytes
  import opened Csw
  import opened GeneralisedData
  import opened LevelledData
  import opened SampledData
  import opened TapeEdges
  import opened TapeRun
  import Pzx

  /** The lengths in a block are no longer than so many t-states, and no symbol says that its first pulse is none. */
  predicate Within(b: Block, most: nat) {
    match b
    case Rom(r) => TIMING_PILOT <= most && r.pause <= most
    case Turbo(t) =>
      && t.pilotLength <= most && t.sync1 <= most && t.sync2 <= most
      && t.body.bit0 <= most && t.body.bit1 <= most && t.body.pause <= most
    case Tone(t) => t.length <= most
    case Pulses(lengths) => forall k :: 0 <= k < |lengths| ==> lengths[k] <= most
    case PureData(d) => d.bit0 <= most && d.bit1 <= most && d.pause <= most
    case Generalised(g) => WORD_MODULUS <= most && g.pause <= most && EdgesOnly(g.pilot) && EdgesOnly(g.data)
    case Sequence(p) => forall k :: 0 <= k < |p.lengths| ==> p.lengths[k] <= most
    case Raw(r) => (8 * |r.data| + 1) * r.bitLength <= most && r.pause <= most
    case Rle(r) =>
      var pulses := if r.data == [] then Ok([]) else PulsesFromIndex(r.data, 0, r.scale);
      pulses.Ok? ==> forall k :: 0 <= k < |pulses.value| ==> pulses.value[k] <= most
    case Levelled(l) => WORD_MODULUS <= most && l.tail <= most
    case PauseFor(tstates, _) => tstates <= most
    case _ => true
  }

  predicate EdgesOnly(t: Table) {
    forall k :: 0 <= k < |t.symbols| ==> t.symbols[k].kind != WithoutEdge
  }

  lemma ShortParts(a: seq<Edge>, b: seq<Edge>, scale: nat)
    requires AllShort(a, scale) && AllShort(b, scale)
    ensures AllShort(a + b, scale)
  {
    forall i | 0 <= i < |a + b| ensures Short((a + b)[i], scale) {
      assert (a + b)[i] == if i < |a| then a[i] else b[i - |a|];
    }
  }

  lemma ShortRepeat(e: Edge, n: nat, scale: nat)
    requires Short(e, scale)
    ensures AllShort(Repeat(e, n), scale)
  {
  }

  lemma ShortPause(tstates: nat, scale: nat)
    requires tstates + scale <= DWORD_MODULUS
    ensures AllShort([PauseEdge(tstates)], scale)
  {
  }

  lemma {:induction false} ShortBits(d: DataBlock, bits: seq<bool>, scale: nat)
    requires d.bit0 + scale <= DWORD_MODULUS && d.bit1 + scale <= DWORD_MODULUS
    ensures AllShort(BitEdges(d, bits), scale)
  {
    if bits != [] {
      var e := BitEdge(d, BitLength(d, bits[0]));
      ShortBits(d, bits[1..], scale);
      assert Short(e, scale);
      ShortParts([e, e], BitEdges(d, bits[1..]), scale);
    }
  }

  lemma ShortData(d: DataBlock, scale: nat)
    requires d.bit0 + scale <= DWORD_MODULUS && d.bit1 + scale <= DWORD_MODULUS && d.pause + scale <= DWORD_MODULUS
    ensures AllShort(DataEdges(d), scale)
  {
    ShortBits(d, BitsFrom(d, 0), scale);
    ShortPause(d.pause, scale);
    ShortParts(BitEdges(d, BitsFrom(d, 0)), [PauseEdge(d.pause)], scale);
  }

  lemma ShortTurbo(t: TurboBlock, most: nat, scale: nat)
    requires Within(Turbo(t), most) && most + scale <= DWORD_MODULUS
    ensures AllShort(TurboEdges(t), scale)
  {
    var syncs := [Edge(t.sync1, {}), Edge(t.sync2, {})];
    ShortRepeat(Edge(t.pilotLength, {}), t.pilotPulses, scale);
    ShortData(t.body, scale);
    ShortParts(syncs, DataEdges(t.body), scale);
    ShortParts(Repeat(Edge(t.pilotLength, {}), t.pilotPulses), syncs + DataEdges(t.body), scale);
  }

  predicate AllWithin(pulses: seq<dword>, most: nat) {
    forall k :: 0 <= k < |pulses| ==> pulses[k] <= most
  }

  lemma {:induction false} ShortPulses(pulses: seq<dword>, most: nat, scale: nat)
    requires AllWithin(pulses, most) && most + scale <= DWORD_MODULUS
    ensures AllShort(PulseEdges(pulses), scale)
  {
    if pulses != [] {
      ShortPulses(pulses[1..], most, scale);
      assert Short(Edge(pulses[0], {}), scale);
      ShortParts([Edge(pulses[0], {})], PulseEdges(pulses[1..]), scale);
    }
  }

  lemma {:induction false} ShortLevels(pulses: seq<dword>, level: int, now: int, most: nat, scale: nat)
    requires AllWithin(pulses, most) && most + scale <= DWORD_MODULUS
    ensures AllShort(LevelEdges(pulses, level, now), scale)
    decreases pulses
  {
    if pulses == [] {
    } else if pulses[0] != 0 || |pulses| == 1 {
      ShortLevels(pulses[1..], Flip(now), Flip(now), most, scale);
      var e := LevelEdge(pulses[0], level, Flip(now));
      assert Short(e, scale);
      ShortParts([e], LevelEdges(pulses[1..], Flip(now), Flip(now)), scale);
    } else {
      ShortLevels(pulses[1..], level, Flip(now), most, scale);
    }
  }

  lemma {:induction false} SequenceWithin(p: PulseSequence, i: nat, most: nat)
    requires |p.lengths| == |p.repeats| && AllWithin(p.lengths, most)
    ensures AllWithin(PulsesFrom(p, i), most)
    decreases |p.lengths| - i
  {
    if i < |p.lengths| {
      SequenceWithin(p, i + 1, most);
    }
  }

  lemma {:induction false} ShortSymbol(s: Symbol, k: nat, scale: nat)
    requires k < |s.lengths| && s.kind != WithoutEdge && WORD_MODULUS + scale <= DWORD_MODULUS
    ensures AllShort(SymbolFrom(s, k), scale)
    decreases |s.lengths| - k
  {
    var e := SymbolEdge(s, k);
    assert Short(e, scale);
    if !LastPulse(s, k) {
      ShortSymbol(s, k + 1, scale);
      ShortParts([e], SymbolFrom(s, k + 1), scale);
    }
  }

  lemma {:induction false} ShortTimes(edges: seq<Edge>, n: nat, scale: nat)
    requires AllShort(edges, scale)
    ensures AllShort(Times(edges, n), scale)
  {
    if n > 0 {
      ShortTimes(edges, n - 1, scale);
      ShortParts(edges, Times(edges, n - 1), scale);
    }
  }

  lemma {:induction false} ShortPilot(g: GeneralisedBlock, run: nat, scale: nat)
    requires PilotFits(g) && EdgesOnly(g.pilot) && WORD_MODULUS + scale <= DWORD_MODULUS
    ensures AllShort(PilotFrom(g, run), scale)
    decreases g.pilot.symbolsInBlock - run
  {
    if run < g.pilot.symbolsInBlock {
      var s := PilotSymbol(g, run);
      ShortSymbol(s, 0, scale);
      ShortTimes(SymbolEdges(s), Repeats(g, run), scale);
      ShortPilot(g, run + 1, scale);
      ShortParts(Times(SymbolEdges(s), Repeats(g, run)), PilotFrom(g, run + 1), scale);
    }
  }

  lemma {:induction false} ShortStream(g: GeneralisedBlock, bits: seq<bool>, n: nat, scale: nat)
    requires DataFits(g, bits, n) && EdgesOnly(g.data) && WORD_MODULUS + scale <= DWORD_MODULUS
    ensures AllShort(DataFrom(g, bits, n), scale)
    decreases n
  {
    if n > 0 {
      var s, rest := g.data.symbols[SymbolIndex(bits[..g.bitsPerSymbol])], bits[g.bitsPerSymbol..];
      ShortSymbol(s, 0, scale);
      ShortStream(g, rest, n - 1, scale);
      ShortParts(SymbolEdges(s), DataFrom(g, rest, n - 1), scale);
    }
  }

  lemma ShortGeneralised(g: PlayableBlock, most: nat, scale: nat)
    requires Within(Generalised(g), most) && most + scale <= DWORD_MODULUS
    ensures AllShort(GeneralisedEdges(g), scale)
  {
    var bits, n := StreamBits(g.stream, 0), g.data.symbolsInBlock;
    ShortPilot(g, 0, scale);
    ShortStream(g, bits, n, scale);
    ShortPause(g.pause, scale);
    ShortParts(DataFrom(g, bits, n), [PauseEdge(g.pause)], scale);
    ShortParts(PilotFrom(g, 0), Tail(g, bits, n), scale);
  }

  lemma {:induction false} ShortRuns(runs: seq<nat>, last: bool, bitLength: dword, most: nat, scale: nat)
    requires runs != [] && Sum(runs) * bitLength <= most && scale > 0 && most + scale <= DWORD_MODULUS
    ensures AllShort(RunEdges(runs, last, bitLength), scale)
  {
    SumIsNatural(runs[1..]);
    Distributes(runs[0], Sum(runs[1..]), bitLength);
    assert Sum(runs) * bitLength == runs[0] * bitLength + Sum(runs[1..]) * bitLength;
    LessOrEqual(0, runs[0], bitLength);
    LessOrEqual(0, Sum(runs[1..]), bitLength);
    InADword(runs[0] * bitLength);
    if |runs| == 1 {
      assert Short(Edge(RunTime(runs[0], bitLength), RunLevel(last)), scale);
    } else {
      var e := Edge(RunTime(runs[0], bitLength), RunLevel(!last));
      ShortRuns(runs[1..], !last, bitLength, most, scale);
      assert Short(e, scale);
      ShortParts([e], RunEdges(runs[1..], !last, bitLength), scale);
    }
  }

  lemma {:induction false} SumIsNatural(runs: seq<nat>)
    ensures Sum(runs) >= 0
  {
    if runs != [] {
      SumIsNatural(runs[1..]);
    }
  }

  lemma InADword(x: nat)
    requires x < DWORD_MODULUS
    ensures x % DWORD_MODULUS == x
  {
  }

  lemma ShortRaw(r: RawBlock, most: nat, scale: nat)
    requires ValidRaw(r) && Within(Raw(r), most) && scale > 0 && most + scale <= DWORD_MODULUS
    ensures AllShort(RawEdges(r), scale)
  {
    hide AllShort, SamplesFrom, RunEdges;
    ShortPause(r.pause, scale);
    if r.data != [] {
      var runs := RawRuns(r);
      ShortSum(r, most);
      ShortRuns(runs, !TopBit(r), r.bitLength, most, scale);
      ShortParts(RunEdges(runs, !TopBit(r), r.bitLength), [PauseEdge(r.pause)], scale);
    } else {
      assert [] + [PauseEdge(r.pause)] == [PauseEdge(r.pause)];
    }
  }

  lemma ShortSum(r: RawBlock, most: nat)
    requires ValidRaw(r) && r.data != [] && (8 * |r.data| + 1) * r.bitLength <= most
    ensures Sum(RawRuns(r)) * r.bitLength <= most
  {
    hide SamplesFrom, RunsAhead;
    NumberOfSamples(r, 0);
    RunsAddUp(SamplesFrom(r, 0), TopBit(r));
    LessOrEqual(|SamplesFrom(r, 0)| + 1, 8 * |r.data| + 1, r.bitLength);
  }

  lemma LessOrEqual(a: nat, b: nat, k: nat)
    requires a <= b
    ensures a * k <= b * k
  {
  }

  lemma {:induction false} ShortFlagged(pulses: seq<word>, flags: set<Flag>, scale: nat)
    requires NoEdge !in flags && WORD_MODULUS + scale <= DWORD_MODULUS
    ensures AllShort(FlaggedPulses(pulses, flags), scale)
  {
    if pulses != [] {
      ShortFlagged(pulses[1..], flags, scale);
      assert Short(Edge(pulses[0], flags), scale);
      ShortParts([Edge(pulses[0], flags)], FlaggedPulses(pulses[1..], flags), scale);
    }
  }

  lemma {:induction false} ShortLevelledBits(l: LevelledBlock, bits: seq<bool>, scale: nat)
    requires WORD_MODULUS + scale <= DWORD_MODULUS
    ensures AllShort(PulsesOfBits(l, bits), scale)
  {
    if bits != [] {
      ShortFlagged(BitPulses(l, bits[0]), BitFlags(l, bits[0]), scale);
      ShortLevelledBits(l, bits[1..], scale);
      ShortParts(FlaggedPulses(BitPulses(l, bits[0]), BitFlags(l, bits[0])), PulsesOfBits(l, bits[1..]), scale);
    }
  }

  lemma {:induction false} ShortWithLevels(edges: seq<Edge>, level: int, scale: nat)
    requires AllShort(edges, scale)
    ensures AllShort(WithLevels(edges, level), scale)
  {
    if edges != [] {
      var e := edges[0];
      assert Short(e, scale);
      if NoEdge in e.flags {
        ShortWithLevels(edges[1..], level, scale);
        ShortParts([e], WithLevels(edges[1..], level), scale);
      } else {
        ShortWithLevels(edges[1..], Flip(level), scale);
        var f := e.(flags := e.flags + {LevelFlag(level)});
        assert Short(f, scale);
        ShortParts([f], WithLevels(edges[1..], Flip(level)), scale);
      }
    }
  }

  lemma ShortLevelled(l: LevelledBlock, most: nat, scale: nat)
    requires Within(Levelled(l), most) && most + scale <= DWORD_MODULUS
    ensures AllShort(LevelledEdges(l), scale)
  {
    var bits := BitsFrom(AsData(l), 0);
    ShortLevelledBits(l, bits, scale);
    ShortPause(l.tail, scale);
    ShortParts(PulsesOfBits(l, bits), [PauseEdge(l.tail)], scale);
    ShortWithLevels(PulsesOfBits(l, bits) + [PauseEdge(l.tail)], l.level, scale);
  }

  /** A block with lengths that leave room for a sample has no edge that does not. */
  lemma ShortBlock(b: Block, most: nat, scale: nat)
    requires scale > 0 && Within(b, most) && most + scale <= DWORD_MODULUS
    ensures AllShort(Sounds(b), scale)
  {
    hide TurboEdges, DataEdges, GeneralisedEdges, SequenceEdges, RawEdges, RleEdges, LevelledEdges, ToneEdges,
         PulseEdges, PulsesFromIndex, ValidBlock;
    if SafeToPlay(b) {
      match b
      case Rom(r) => ShortTurbo(RomTimings(r), most, scale);
      case Turbo(t) => ShortTurbo(t, most, scale);
      case Tone(t) => ShortTone(t, scale);
      case Pulses(lengths) => ShortPulses(lengths, most, scale);
      case PureData(d) => ShortData(d, scale);
      case Generalised(g) => ShortGeneralised(g, most, scale);
      case Sequence(p) => ShortSequence(p, most, scale);
      case Raw(r) => ShortRaw(r, most, scale);
      case Rle(r) => ShortRle(r, most, scale);
      case Levelled(l) => ShortLevelled(l, most, scale);
      case _ =>
    }
  }

  lemma ShortTone(t: ToneBlock, scale: nat)
    requires t.length + scale <= DWORD_MODULUS
    ensures AllShort(ToneEdges(t), scale)
  {
    ShortRepeat(Edge(t.length, {}), Turns(t.pulses, SIZE_MODULUS), scale);
  }

  lemma ShortSequence(p: PulseSequence, most: nat, scale: nat)
    requires ValidSequence(p) && AllWithin(p.lengths, most) && most + scale <= DWORD_MODULUS
    ensures AllShort(SequenceEdges(p), scale)
  {
    SequenceWithin(p, 0, most);
    ShortLevels(PulsesFrom(p, 0), -1, -1, most, scale);
  }

  lemma ShortRle(r: RleBlock, most: nat, scale: nat)
    requires ValidRle(r) && Within(Rle(r), most) && most + scale <= DWORD_MODULUS
    ensures AllShort(RleEdges(r), scale)
  {
    ShortPulses(PulsesFromIndex(r.data, 0, r.scale).value, most, scale);
  }

  /** Then there is none on the whole tape, loops and all. */
  lemma {:induction false} ShortTape(tape: Tape, p: Position, most: nat, scale: nat)
    requires OnTape(tape, p) && scale > 0 && most + scale <= DWORD_MODULUS && AllShort(p.rest, scale)
    requires forall i :: 0 <= i < |tape| ==> Within(tape[i], most)
    ensures AllShort(Play(tape, p), scale)
    decreases AheadOfLoop(p), BlocksBeyond(tape, p), RoundsLeft(p), |tape| - p.current, |p.rest|
  {
    hide Within, Sounds;
    StepDescends(tape, p);
    ShortStep(tape, p, most, scale);
    var r := Step(tape, p);
    if !r.endOfTape {
      ShortTape(tape, r.next, most, scale);
      ShortParts([r.edge], Play(tape, r.next), scale);
    }
  }

  lemma ShortStep(tape: Tape, p: Position, most: nat, scale: nat)
    requires OnTape(tape, p) && scale > 0 && most + scale <= DWORD_MODULUS && AllShort(p.rest, scale)
    requires forall i :: 0 <= i < |tape| ==> Within(tape[i], most)
    ensures var r := Step(tape, p); Short(r.edge, scale) && AllShort(r.next.rest, scale)
  {
    hide Within, Sounds;
    forall i | 0 <= i < |tape| ensures AllShort(Sounds(tape[i]), scale) {
      ShortBlock(tape[i], most, scale);
    }
    assert Short(p.rest[0], scale);
  }

  /** A tape whose lengths leave room for a sample is resampled without any loss of time, up to every edge of it. */
  lemma TapesLoseNoTime(tape: Tape, k: nat, most: nat, scale: nat)
    requires tape != [] && scale > 0 && most + scale <= DWORD_MODULUS
    requires forall i :: 0 <= i < |tape| ==> Within(tape[i], most)
    requires k <= |ToStop(tape, Begin(tape))|
    ensures var edges := ToStop(tape, Begin(tape));
            && NeverOverflows(edges, scale)
            && Resampled(edges[..k], 0, scale) <= Resampled(edges, 0, scale)
            && TimeWritten(Resampled(edges[..k], 0, scale), scale) + FinalBalance(edges[..k], 0, scale)
               == Duration(edges[..k])
  {
    hide Within, Sounds, NeverOverflows, Resampled, FinalBalance;
    ShortBlock(tape[0], most, scale);
    ShortTape(tape, Begin(tape), most, scale);
    ToStopIsPrefix(tape, Begin(tape));
    var edges := ToStop(tape, Begin(tape));
    assert AllShort(edges, scale);
    ShortEdgesLoseNoTime(edges, scale);
    NoDriftSoFar(edges, k, scale);
  }

  /** Pulses that were read from a .pzx file are such lengths, at all scales up to 2^31. */
  lemma ReadPulsesAreWithin(data: seq<byte>, p: PulseSequence)
    requires Pzx.PulsesIn(data).Ok? && p.lengths == Pzx.Lengths(Pzx.PulsesIn(data).value)
    ensures Within(Sequence(p), 0x7fff_ffff)
  {
    Pzx.PulsesReadAreInField(data);
  }

  /** Two pauses of 2^32 - 1 t-states: at 44100 samples a second, a turn of the dword is lost. */
  lemma TwoLongPauses()
    ensures var pause := PauseFor(0xffff_ffff, -1);
            var edges := ToStop([pause, pause], Begin([pause, pause]));
            && Duration(edges) == 0x1_ffff_fffe && !NeverOverflows(edges, 79)
            && TimeWritten(Resampled(edges, 0, 79), 79) + FinalBalance(edges, 0, 79) == 0xffff_fffe
  {
    var pause := PauseFor(0xffff_ffff, -1);
    var tape := [pause, pause];
    var e, f := Edge(0xffff_ffff, {Flag.Block}), Edge(0xffff_ffff, {Flag.Block, Stop, Flag.Tape});
    assert ToStop(tape, Begin(tape)) == [e, f] by {
      assert Sounds(pause) == [Edge(0xffff_ffff, {})];
      assert EndFlags(Edge(0xffff_ffff, {})) == f && BlockFlag(Edge(0xffff_ffff, {})) == e;
    }
    assert [e, f][1..] == [f] && [f][1..] == [];
    DurationStep(f, []);
    DurationStep(e, [f]);
    var k := 79;
    assert Carried(e, 0, k) == 49;
    assert Overflows([e, f], 0, k) == Overflow(e, 0) + (Overflow(f, 49) + Overflows([], Carried(f, 49, k), k));
    TimeIsKept([e, f], 0, k);
    OverflowsExactly([e, f], k);
  }
}
