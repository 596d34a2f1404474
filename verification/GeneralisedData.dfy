/** Generalised data blocks (tape.c, tape_block.c): pilot symbols with repeat counts, then data symbols read
    from a stream of bits. First what a block sounds like, then the state machine that plays it. */
module GeneralisedData {
  import opened Bytes
  import opened TapeEdges
  import opened TapeLengths
  import opened TapePlayers

  datatype Kind = PlainEdge | WithoutEdge | Low | High

  datatype Symbol = Symbol(kind: Kind, lengths: seq<word>)

  datatype Table = Table(symbolsInBlock: dword, symbols: seq<Symbol>)

  datatype GeneralisedBlock = GeneralisedBlock(
    pilot: Table, data: Table, pilotSymbols: seq<byte>, pilotRepeats: seq<word>,
    bitsPerSymbol: nat, stream: seq<byte>, pause: dword)

  // ----- What a block sounds like -----

  function KindFlags(kind: Kind): set<Flag> {
    match kind
    case PlainEdge => {}
    case WithoutEdge => {NoEdge}
    case Low => {LevelLow}
    case High => {LevelHigh}
  }

  /** Pulse k of a symbol; only the first carries the symbol's kind. */
  function SymbolEdge(s: Symbol, k: nat): Edge
    requires k < |s.lengths|
  {
    Edge(s.lengths[k], if k == 0 then KindFlags(s.kind) else {})
  }

  /** Whether pulse k is the last one of the symbol: the table ends, or a zero follows. */
  predicate LastPulse(s: Symbol, k: nat)
    requires k < |s.lengths|
  {
    k + 1 == |s.lengths| || s.lengths[k + 1] == 0
  }

  function SymbolFrom(s: Symbol, k: nat): (r: seq<Edge>)
    requires k < |s.lengths|
    ensures r != []
    decreases |s.lengths| - k
  {
    [SymbolEdge(s, k)] + if LastPulse(s, k) then [] else SymbolFrom(s, k + 1)
  }

  function SymbolEdges(s: Symbol): seq<Edge>
    requires s.lengths != []
  {
    SymbolFrom(s, 0)
  }

  /** A symbol sounds as its pulses up to the first zero after the first pulse, or all of them. */
  lemma {:induction false} SymbolShape(s: Symbol, k: nat)
    requires k < |s.lengths|
    ensures k + |SymbolFrom(s, k)| <= |s.lengths|
    ensures k + |SymbolFrom(s, k)| == |s.lengths| || s.lengths[k + |SymbolFrom(s, k)|] == 0
    ensures forall j :: k < j < k + |SymbolFrom(s, k)| ==> s.lengths[j] != 0
    decreases |s.lengths| - k
  {
    if !LastPulse(s, k) {
      SymbolShape(s, k + 1);
    }
  }

  /** Of the pulses of a symbol only the first is flagged: as no edge, or with the level it is forced to. */
  lemma {:induction false} SymbolPulse(s: Symbol, k: nat, j: nat)
    requires k < |s.lengths| && j < |SymbolFrom(s, k)|
    ensures k + j < |s.lengths| && SymbolFrom(s, k)[j].tstates == s.lengths[k + j]
    ensures var flags, first := SymbolFrom(s, k)[j].flags, k + j == 0;
            && flags <= {NoEdge, LevelLow, LevelHigh}
            && (NoEdge in flags <==> first && s.kind == WithoutEdge)
            && (LevelLow in flags <==> first && s.kind == Low) && (LevelHigh in flags <==> first && s.kind == High)
    decreases j
  {
    if j > 0 {
      SymbolPulse(s, k + 1, j - 1);
    }
  }

  function Times<T>(x: seq<T>, n: nat): seq<T> {
    if n == 0 then [] else x + Times(x, n - 1)
  }

  /** A repeat count of 0 goes round its 16-bit counter. */
  function Repeats(b: GeneralisedBlock, run: nat): nat
    requires run < |b.pilotRepeats|
  {
    Turns(b.pilotRepeats[run], WORD_MODULUS)
  }

  function PilotSymbol(b: GeneralisedBlock, run: nat): Symbol
    requires PilotFits(b) && run < b.pilot.symbolsInBlock
  {
    b.pilot.symbols[b.pilotSymbols[run]]
  }

  function PilotFrom(b: GeneralisedBlock, run: nat): seq<Edge>
    requires PilotFits(b)
    decreases b.pilot.symbolsInBlock - run
  {
    if run >= b.pilot.symbolsInBlock then []
    else Times(SymbolEdges(PilotSymbol(b, run)), Repeats(b, run)) + PilotFrom(b, run + 1)
  }

  function StreamBits(stream: seq<byte>, i: nat): seq<bool>
    decreases |stream| - i
  {
    if i >= |stream| then [] else Bits(stream[i], 8) + StreamBits(stream, i + 1)
  }

  /** The symbol that a group of bits picks, shifted into a byte one by one. */
  function SymbolIndex(bits: seq<bool>): byte {
    if bits == [] then 0
    else ShiftLeft(SymbolIndex(bits[..|bits| - 1])) + Digit(bits[|bits| - 1])
  }

  /** Up to eight bits are the binary digits of the symbol they pick, most significant first. */
  lemma {:induction false} SymbolIndexIsValue(bits: seq<bool>)
    requires |bits| <= 8
    ensures SymbolIndex(bits) == BinaryValue(bits)
  {
    if bits != [] {
      var init := bits[..|bits| - 1];
      SymbolIndexIsValue(init);
      ValueBound(init);
      SmallPower(|init|);
    }
  }

  lemma {:induction false} ValueBound(bits: seq<bool>)
    ensures BinaryValue(bits) < Doubled(1, |bits|)
  {
    if bits != [] {
      ValueBound(bits[..|bits| - 1]);
    }
  }

  lemma {:induction false} SmallPower(n: nat)
    requires n <= 7
    ensures Doubled(1, n) <= 128
  {
    if n < 7 {
      PowerGrows(n, 7);
    }
    assert Doubled(1, 7) == 128;
  }

  lemma {:induction false} PowerGrows(m: nat, n: nat)
    requires m <= n
    ensures Doubled(1, m) <= Doubled(1, n)
  {
    if m < n {
      PowerGrows(m, n - 1);
    }
  }

  /** The edges of the next n data symbols, bitsPerSymbol bits each. */
  function DataFrom(b: GeneralisedBlock, bits: seq<bool>, n: nat): seq<Edge>
    requires DataFits(b, bits, n)
    decreases n
  {
    if n == 0 then []
    else SymbolEdges(b.data.symbols[SymbolIndex(bits[..b.bitsPerSymbol])])
         + DataFrom(b, bits[b.bitsPerSymbol..], n - 1)
  }

  function Tail(b: GeneralisedBlock, bits: seq<bool>, n: nat): seq<Edge>
    requires DataFits(b, bits, n)
  {
    DataFrom(b, bits, n) + [PauseEdge(b.pause)]
  }

  function GeneralisedEdges(b: PlayableBlock): seq<Edge> {
    PilotFrom(b, 0) + Tail(b, StreamBits(b.stream, 0), b.data.symbolsInBlock)
  }

  // ----- What the player needs of a block in order to stay inside its memory -----

  predicate ValidTable(t: Table) {
    && (forall i :: 0 <= i < |t.symbols| ==> t.symbols[i].lengths != [])
    && forall i :: 0 <= i < |t.symbols| ==> |t.symbols[i].lengths| < 256
  }

  predicate PilotFits(b: GeneralisedBlock) {
    && ValidTable(b.pilot)
    && |b.pilotSymbols| == |b.pilotRepeats| == b.pilot.symbolsInBlock
    && forall i :: 0 <= i < |b.pilotSymbols| ==> b.pilotSymbols[i] < |b.pilot.symbols|
  }

  /** Enough bits, one to spare because the byte after the last one used is fetched too, and no unknown symbol. */
  predicate DataFits(b: GeneralisedBlock, bits: seq<bool>, n: nat)
    decreases n
  {
    && ValidTable(b.data)
    && (n > 0 ==>
          && |bits| > b.bitsPerSymbol
          && SymbolIndex(bits[..b.bitsPerSymbol]) < |b.data.symbols|
          && DataFits(b, bits[b.bitsPerSymbol..], n - 1))
  }

  predicate ValidBlock(b: GeneralisedBlock) {
    && PilotFits(b)
    && (b.pilot.symbolsInBlock > 0 ==> b.data.symbolsInBlock > 0)
    && DataFits(b, StreamBits(b.stream, 0), b.data.symbolsInBlock)
  }

  const EMPTY_BLOCK: GeneralisedBlock := GeneralisedBlock(Table(0, []), Table(0, []), [], [], 0, [], 0)

  type PlayableBlock = b: GeneralisedBlock | ValidBlock(b) witness EMPTY_BLOCK

  // ----- What remains of a block part of the way through -----

  function DataTail(b: PlayableBlock): seq<Edge> {
    Tail(b, StreamBits(b.stream, 0), b.data.symbolsInBlock)
  }

  /** A 16-bit counter counted up by one. */
  function NextWord(x: nat): nat {
    if x == 0xffff then 0 else x + 1
  }

  ghost predicate PilotOk(b: PlayableBlock, run: nat, through: nat, k: nat) {
    run < b.pilot.symbolsInBlock && through < Repeats(b, run) && k < |PilotSymbol(b, run).lengths|
  }

  /** From pulse k of a symbol that has been through `through` times in its run. */
  ghost function PilotRemaining(b: PlayableBlock, run: nat, through: nat, k: nat): seq<Edge>
    requires PilotOk(b, run, through, k)
  {
    var s := PilotSymbol(b, run);
    SymbolFrom(s, k) + (Times(SymbolEdges(s), Repeats(b, run) - through - 1) + (PilotFrom(b, run + 1) + DataTail(b)))
  }

  ghost predicate DataOk(b: PlayableBlock, symbol: byte, k: nat, bits: seq<bool>, n: nat) {
    DataFits(b, bits, n) && symbol < |b.data.symbols| && k < |b.data.symbols[symbol].lengths|
  }

  /** From pulse k of a symbol, with n more symbols to be read from bits. */
  ghost function DataRemaining(b: PlayableBlock, symbol: byte, k: nat, bits: seq<bool>, n: nat): seq<Edge>
    requires DataOk(b, symbol, k, bits, n)
  {
    SymbolFrom(b.data.symbols[symbol], k) + Tail(b, bits, n)
  }

  lemma PulseThenRest(s: Symbol, k: nat, rest: seq<Edge>)
    requires k < |s.lengths|
    ensures SymbolFrom(s, k) + rest
         == [SymbolEdge(s, k)] + if LastPulse(s, k) then rest else SymbolFrom(s, k + 1) + rest
  {
    if LastPulse(s, k) {
      assert [SymbolEdge(s, k)] + [] == [SymbolEdge(s, k)];
    }
  }

  lemma NothingFirst<T>(x: seq<T>)
    ensures [] + x == x
  {
  }

  lemma StartRun(b: PlayableBlock, run: nat)
    requires run < b.pilot.symbolsInBlock
    ensures PilotOk(b, run, 0, 0) && PilotFrom(b, run) + DataTail(b) == PilotRemaining(b, run, 0, 0)
  {
    var s, n, tail := SymbolEdges(PilotSymbol(b, run)), Repeats(b, run), DataTail(b);
    assert Times(s, n) == s + Times(s, n - 1);
    Assoc(s, Times(s, n - 1), PilotFrom(b, run + 1));
    Assoc(s, Times(s, n - 1) + PilotFrom(b, run + 1), tail);
    Assoc(Times(s, n - 1), PilotFrom(b, run + 1), tail);
  }

  lemma NoMoreRuns(b: PlayableBlock)
    ensures PilotFrom(b, b.pilot.symbolsInBlock) + DataTail(b) == DataTail(b)
  {
    NothingFirst(DataTail(b));
  }

  lemma PulseStep(b: PlayableBlock, run: nat, through: nat, k: nat)
    requires PilotOk(b, run, through, k) && !LastPulse(PilotSymbol(b, run), k)
    ensures PilotOk(b, run, through, k + 1)
    ensures PilotRemaining(b, run, through, k)
         == [SymbolEdge(PilotSymbol(b, run), k)] + PilotRemaining(b, run, through, k + 1)
  {
    var s, left := PilotSymbol(b, run), Repeats(b, run) - through - 1;
    PulseThenRest(s, k, Times(SymbolEdges(s), left) + (PilotFrom(b, run + 1) + DataTail(b)));
  }

  lemma SymbolStep(b: PlayableBlock, run: nat, through: nat, k: nat)
    requires PilotOk(b, run, through, k) && LastPulse(PilotSymbol(b, run), k)
    requires NextWord(through) != b.pilotRepeats[run]
    ensures PilotOk(b, run, NextWord(through), 0)
    ensures PilotRemaining(b, run, through, k)
         == [SymbolEdge(PilotSymbol(b, run), k)] + PilotRemaining(b, run, NextWord(through), 0)
  {
    var s, left := PilotSymbol(b, run), Repeats(b, run) - through - 1;
    var after := PilotFrom(b, run + 1) + DataTail(b);
    PulseThenRest(s, k, Times(SymbolEdges(s), left) + after);
    Assoc(SymbolEdges(s), Times(SymbolEdges(s), left - 1), after);
  }

  lemma RunStep(b: PlayableBlock, run: nat, through: nat, k: nat)
    requires PilotOk(b, run, through, k) && LastPulse(PilotSymbol(b, run), k)
    requires NextWord(through) == b.pilotRepeats[run]
    ensures PilotRemaining(b, run, through, k)
         == [SymbolEdge(PilotSymbol(b, run), k)] + (PilotFrom(b, run + 1) + DataTail(b))
  {
    var s := PilotSymbol(b, run);
    var after := PilotFrom(b, run + 1) + DataTail(b);
    assert Repeats(b, run) - through - 1 == 0;
    PulseThenRest(s, k, Times(SymbolEdges(s), 0) + after);
    NothingFirst(after);
  }

  lemma NextDataSymbol(b: PlayableBlock, bits: seq<bool>, n: nat)
    requires n > 0 && DataFits(b, bits, n)
    ensures var symbol := SymbolIndex(bits[..b.bitsPerSymbol]);
            && |bits| > b.bitsPerSymbol && DataOk(b, symbol, 0, bits[b.bitsPerSymbol..], n - 1)
            && Tail(b, bits, n) == DataRemaining(b, symbol, 0, bits[b.bitsPerSymbol..], n - 1)
  {
    Assoc(SymbolEdges(b.data.symbols[SymbolIndex(bits[..b.bitsPerSymbol])]),
          DataFrom(b, bits[b.bitsPerSymbol..], n - 1), [PauseEdge(b.pause)]);
  }

  lemma NoMoreSymbols(b: PlayableBlock, bits: seq<bool>)
    requires DataFits(b, bits, 0)
    ensures Tail(b, bits, 0) == [PauseEdge(b.pause)]
  {
  }

  lemma DataStep(b: PlayableBlock, symbol: byte, k: nat, bits: seq<bool>, n: nat)
    requires DataOk(b, symbol, k, bits, n)
    ensures var last := LastPulse(b.data.symbols[symbol], k);
            && (!last ==> DataOk(b, symbol, k + 1, bits, n))
            && DataRemaining(b, symbol, k, bits, n) == [SymbolEdge(b.data.symbols[symbol], k)] +
                 if !last then DataRemaining(b, symbol, k + 1, bits, n) else Tail(b, bits, n)
  {
    PulseThenRest(b.data.symbols[symbol], k, Tail(b, bits, n));
  }

  /** When a byte is used up, the bits ahead are those of the next byte and on. */
  lemma FetchByte(stream: seq<byte>, i: nat, used: byte)
    requires Bits(used, 0) + StreamBits(stream, i) != []
    ensures i < |stream|
    ensures Bits(used, 0) + StreamBits(stream, i) == Bits(stream[i], 8) + StreamBits(stream, i + 1)
  {
    NothingFirst(StreamBits(stream, i));
  }

  // ----- The player -----

  datatype GeneralisedPhase = InPilot | InData | InPause

  class GeneralisedPlayer {
    var phase: GeneralisedPhase
    var run: nat
    var symbolsThroughRun: nat
    var edgesThroughSymbol: nat
    var currentSymbol: byte
    var symbolsThroughStream: nat
    var currentByte: byte
    var bitsThroughByte: nat
    var bytesThroughStream: nat

    constructor ()
    {
      phase, run, symbolsThroughRun, edgesThroughSymbol := InPause, 0, 0, 0;
      currentSymbol, symbolsThroughStream, currentByte, bitsThroughByte, bytesThroughStream := 0, 0, 0, 0, 0;
    }

    ghost function BitsAhead(b: PlayableBlock): seq<bool>
      requires bitsThroughByte < 8
      reads this
    {
      Bits(currentByte, 8 - bitsThroughByte) + StreamBits(b.stream, bytesThroughStream + 1)
    }

    ghost predicate Valid(b: PlayableBlock)
      reads this
    {
      match phase
      case InPilot => PilotOk(b, run, symbolsThroughRun, edgesThroughSymbol)
      case InData =>
        && bitsThroughByte < 8 && symbolsThroughStream < b.data.symbolsInBlock
        && DataOk(b, currentSymbol, edgesThroughSymbol, BitsAhead(b), b.data.symbolsInBlock - symbolsThroughStream - 1)
      case InPause => true
    }

    ghost function Remaining(b: PlayableBlock): seq<Edge>
      requires Valid(b)
      reads this
    {
      match phase
      case InPilot => PilotRemaining(b, run, symbolsThroughRun, edgesThroughSymbol)
      case InData =>
        DataRemaining(b, currentSymbol, edgesThroughSymbol, BitsAhead(b),
                      b.data.symbolsInBlock - symbolsThroughStream - 1)
      case InPause => [PauseEdge(b.pause)]
    }

    method GetBit(b: PlayableBlock) returns (bit: bool)
      requires bitsThroughByte < 8 && |BitsAhead(b)| > 1
      modifies this`currentByte, this`bitsThroughByte, this`bytesThroughStream
      ensures bitsThroughByte < 8
      ensures bit == old(BitsAhead(b))[0] && BitsAhead(b) == old(BitsAhead(b))[1..]
    {
      hide Bits, StreamBits;
      TakeBit(currentByte, 7 - bitsThroughByte, StreamBits(b.stream, bytesThroughStream + 1));
      bit := currentByte >= 128;
      currentByte := ShiftLeft(currentByte);
      bitsThroughByte := bitsThroughByte + 1;
      if bitsThroughByte == 8 {
        bitsThroughByte := 0;
        bytesThroughStream := bytesThroughStream + 1;
        FetchByte(b.stream, bytesThroughStream, currentByte);
        currentByte := b.stream[bytesThroughStream];
      }
    }

    method GetSymbol(b: PlayableBlock) returns (symbol: byte)
      requires bitsThroughByte < 8 && |BitsAhead(b)| > b.bitsPerSymbol
      modifies this`currentByte, this`bitsThroughByte, this`bytesThroughStream
      ensures bitsThroughByte < 8
      ensures symbol == SymbolIndex(old(BitsAhead(b))[..b.bitsPerSymbol])
      ensures BitsAhead(b) == old(BitsAhead(b))[b.bitsPerSymbol..]
    {
      ghost var ahead := BitsAhead(b);
      symbol := 0;
      var i := 0;
      while i < b.bitsPerSymbol
        invariant 0 <= i <= b.bitsPerSymbol && bitsThroughByte < 8
        invariant BitsAhead(b) == ahead[i..]
        invariant symbol == SymbolIndex(ahead[..i])
      {
        var bit := GetBit(b);
        assert ahead[i..][1..] == ahead[i + 1..];
        assert ahead[..i + 1][..i] == ahead[..i];
        symbol := ShiftLeft(symbol) + Digit(bit);
        i := i + 1;
      }
    }

    /** Start on the data: the first byte of the stream is fetched, and its first symbol read. */
    method StartData(b: PlayableBlock)
      requires b.data.symbolsInBlock > 0 && edgesThroughSymbol == 0
      modifies this
      ensures Valid(b) && Remaining(b) == DataTail(b)
    {
      hide SymbolFrom, Times, PilotFrom, DataFrom, ValidTable, Bits;
      ghost var bits := StreamBits(b.stream, 0);
      phase, bitsThroughByte, bytesThroughStream, symbolsThroughStream := InData, 0, 0, 0;
      currentByte := b.stream[0];
      assert BitsAhead(b) == bits;
      NextDataSymbol(b, bits, b.data.symbolsInBlock);
      currentSymbol := GetSymbol(b);
    }

    method Init(b: PlayableBlock)
        modifies this
      ensures Valid(b) && Remaining(b) == GeneralisedEdges(b)
    {
      hide SymbolFrom, Times, DataFrom, ValidTable;
      run, symbolsThroughRun, edgesThroughSymbol := 0, 0, 0;
      currentSymbol, symbolsThroughStream, currentByte, bitsThroughByte, bytesThroughStream := 0, 0, 0, 0, 0;
      if b.pilot.symbolsInBlock > 0 {
        phase := InPilot;
        StartRun(b, 0);
      } else {
        assert [] + DataTail(b) == DataTail(b);
        if b.data.symbolsInBlock > 0 {
          StartData(b);
        } else {
          phase := InPause;
          NoMoreSymbols(b, StreamBits(b.stream, 0));
        }
      }
    }

    method NextPilotPulse(b: PlayableBlock) returns (edge: Edge)
      requires Valid(b) && phase == InPilot
      modifies this
      ensures Valid(b) && old(Remaining(b)) == [edge] + Remaining(b)
    {
      hide SymbolFrom, Times, PilotFrom, DataFrom, StreamBits, DataFits, ValidTable, DataTail;
      var s := PilotSymbol(b, run);
      edge := SymbolEdge(s, edgesThroughSymbol);
      if !LastPulse(s, edgesThroughSymbol) {
        PulseStep(b, run, symbolsThroughRun, edgesThroughSymbol);
        edgesThroughSymbol := edgesThroughSymbol + 1;
      } else if NextWord(symbolsThroughRun) != b.pilotRepeats[run] {
        SymbolStep(b, run, symbolsThroughRun, edgesThroughSymbol);
        edgesThroughSymbol := 0;
        symbolsThroughRun := NextWord(symbolsThroughRun);
      } else {
        RunStep(b, run, symbolsThroughRun, edgesThroughSymbol);
        edgesThroughSymbol := 0;
        symbolsThroughRun := 0;
        run := run + 1;
        if run == b.pilot.symbolsInBlock {
          NoMoreRuns(b);
          StartData(b);
        } else {
          StartRun(b, run);
        }
      }
    }

    method NextDataPulse(b: PlayableBlock) returns (edge: Edge)
      requires Valid(b) && phase == InData
      modifies this
      ensures Valid(b) && old(Remaining(b)) == [edge] + Remaining(b)
    {
      hide SymbolFrom, Times, PilotFrom, DataFrom, StreamBits, DataFits, ValidTable;
      ghost var symbol, k, bits := currentSymbol, edgesThroughSymbol, BitsAhead(b);
      ghost var n := b.data.symbolsInBlock - symbolsThroughStream - 1;
      DataStep(b, symbol, k, bits, n);
      assert Remaining(b) == DataRemaining(b, symbol, k, bits, n);
      var s := b.data.symbols[currentSymbol];
      edge := SymbolEdge(s, edgesThroughSymbol);
      if LastPulse(s, edgesThroughSymbol) {
        FinishDataSymbol(b);
        assert Remaining(b) == Tail(b, bits, n);
      } else {
        edgesThroughSymbol := edgesThroughSymbol + 1;
        assert BitsAhead(b) == bits;
        assert Remaining(b) == DataRemaining(b, symbol, k + 1, bits, n);
      }
    }

    /** A symbol of the stream is over: read the next one, if there is one. */
    method FinishDataSymbol(b: PlayableBlock)
      requires phase == InData && bitsThroughByte < 8 && symbolsThroughStream < b.data.symbolsInBlock
      requires DataFits(b, BitsAhead(b), b.data.symbolsInBlock - symbolsThroughStream - 1)
      modifies this
      ensures Valid(b)
      ensures Remaining(b) == old(Tail(b, BitsAhead(b), b.data.symbolsInBlock - symbolsThroughStream - 1))
    {
      hide SymbolFrom, Times, PilotFrom, DataFrom, StreamBits, DataFits, ValidTable;
      ghost var bits, n := BitsAhead(b), b.data.symbolsInBlock - symbolsThroughStream - 1;
      symbolsThroughStream := symbolsThroughStream + 1;
      assert BitsAhead(b) == bits;
      if symbolsThroughStream == b.data.symbolsInBlock {
        phase := InPause;
        NoMoreSymbols(b, bits);
      } else {
        edgesThroughSymbol := 0;
        assert BitsAhead(b) == bits;
        NextDataSymbol(b, bits, n);
        currentSymbol := GetSymbol(b);
        assert BitsAhead(b) == bits[b.bitsPerSymbol..];
      }
    }

    method GeneralisedDataEdge(b: PlayableBlock) returns (edge: Edge, endOfBlock: bool)
      requires Valid(b)
      modifies this
      ensures Valid(b)
      ensures old(Remaining(b)) == [edge] + (if endOfBlock then [] else Remaining(b))
    {
      hide SymbolFrom, Times, PilotFrom, DataFrom, StreamBits, DataFits, ValidTable;
      endOfBlock := false;
      match phase
      case InPilot =>
        edge := NextPilotPulse(b);
      case InData =>
        edge := NextDataPulse(b);
      case InPause =>
        edge := PauseEdge(b.pause);
        endOfBlock := true;
    }
  }

  lemma NothingPlayed()
    ensures Duration([]) == 0
  {
  }

  /** The length of a generalised data block is found by playing it. */
  method GeneralisedBlockLength(b: PlayableBlock) returns (length: dword)
    ensures length == Wrap(Duration(GeneralisedEdges(b)))
  {
    hide *;
    NothingPlayed();
    length := Wrap(0);
    var player := new GeneralisedPlayer();
    player.Init(b);
    var endOfBlock := false;
    ghost var done, todo := 0, GeneralisedEdges(b);
    while !endOfBlock
      invariant !endOfBlock ==> player.Valid(b) && todo == player.Remaining(b)
      invariant endOfBlock ==> todo == []
      invariant done + Duration(todo) == Duration(GeneralisedEdges(b))
      invariant length == Wrap(done)
      decreases |todo|
    {
      var edge;
      edge, endOfBlock := player.GeneralisedDataEdge(b);
      todo := if endOfBlock then [] else player.Remaining(b);
      DurationStep(edge, todo);
      length := AddDword(length, edge.tstates, done);
      done := done + edge.tstates;
    }
  }
}
