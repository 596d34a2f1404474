/** What each kind of tape block sounds like: the flat list of its edges, and how long it lasts.
    These lists are the reference that the players of TapePlayers are held to. */
module TapeEdges {
  import opened Bytes

  datatype Flag = Block | Stop | Stop48 | NoEdge | LevelLow | LevelHigh | LengthShort | LengthLong | Tape

  datatype Edge = Edge(tstates: nat, flags: set<Flag>)

  const PILOTS_HEADER: nat := 0x1f7f
  const PILOTS_DATA: nat := 0x0c97
  const TIMING_PILOT: nat := 2168
  const TIMING_SYNC1: nat := 667
  const TIMING_SYNC2: nat := 735
  const TIMING_DATA0: nat := 855
  const TIMING_DATA1: nat := 1710

  function Duration(edges: seq<Edge>): nat {
    if edges == [] then 0 else edges[0].tstates + Duration(edges[1..])
  }

  lemma DurationStep(e: Edge, rest: seq<Edge>)
    ensures Duration([e] + rest) == e.tstates + Duration(rest)
  {
    assert ([e] + rest)[1..] == rest;
  }

  lemma {:induction false} DurationAppend(a: seq<Edge>, b: seq<Edge>)
    ensures Duration(a + b) == Duration(a) + Duration(b)
  {
    if a == [] {
      assert a + b == b;
    } else {
      assert (a + b)[1..] == a[1..] + b;
      DurationAppend(a[1..], b);
    }
  }

  lemma {:induction false} DurationRepeat(e: Edge, n: nat)
    ensures Duration(Repeat(e, n)) == n * e.tstates
  {
    if n > 0 {
      assert Repeat(e, n)[1..] == Repeat(e, n - 1);
      DurationRepeat(e, n - 1);
    }
  }

  // ----- Bits -----

  /** A byte shifted left by one: its top bit falls off. */
  function ShiftLeft(b: byte): byte {
    if b >= 128 then 2 * (b - 128) else 2 * b
  }

  /** The top n bits of a byte shifted out leftwards; zeros once it is empty. */
  function Bits(b: byte, n: nat): (r: seq<bool>)
    ensures |r| == n
    decreases n, b
  {
    if n == 0 then [] else [b >= 128] + Bits(ShiftLeft(b), n - 1)
  }

  function CountSet(bits: seq<bool>): nat {
    if bits == [] then 0 else (if bits[0] then 1 else 0) + CountSet(bits[1..])
  }

  lemma {:induction false} CountSetAppend(a: seq<bool>, b: seq<bool>)
    ensures CountSet(a + b) == CountSet(a) + CountSet(b)
  {
    if a == [] {
      assert a + b == b;
    } else {
      assert (a + b)[1..] == a[1..] + b;
      CountSetAppend(a[1..], b);
    }
  }

  lemma {:induction false} CountSetAtMost(bits: seq<bool>)
    ensures CountSet(bits) <= |bits|
  {
    if bits != [] {
      CountSetAtMost(bits[1..]);
    }
  }

  lemma {:induction false} NoBitsInZero(n: nat)
    ensures CountSet(Bits(0, n)) == 0
  {
    if n > 0 {
      assert Bits(0, n)[1..] == Bits(0, n - 1);
      NoBitsInZero(n - 1);
    }
  }

  lemma {:induction false} ShiftedBits(b: byte, k: nat, n: nat)
    ensures Bits(b, k + n) == Bits(b, k) + Bits(Shifted(b, k), n)
    decreases k
  {
    if k > 0 {
      ShiftedBits(ShiftLeft(b), k - 1, n);
    }
  }

  function Shifted(b: byte, k: nat): byte
    decreases k, b
  {
    if k == 0 then b else Shifted(ShiftLeft(b), k - 1)
  }

  function Doubled(b: nat, n: nat): nat
    decreases n, b
  {
    if n == 0 then b else 2 * Doubled(b, n - 1)
  }

  function Digit(x: bool): nat {
    if x then 1 else 0
  }

  /** The number that binary digits stand for, most significant first. */
  function BinaryValue(bits: seq<bool>): nat {
    if bits == [] then 0 else 2 * BinaryValue(bits[..|bits| - 1]) + Digit(bits[|bits| - 1])
  }

  lemma {:induction false} OneMoreBit(b: byte, n: nat)
    ensures Bits(b, n + 1) == Bits(b, n) + [Shifted(b, n) >= 128]
    ensures Shifted(b, n + 1) == ShiftLeft(Shifted(b, n))
    decreases n
  {
    if n > 0 {
      OneMoreBit(ShiftLeft(b), n - 1);
    }
  }

  lemma ValueOfOneMore(bits: seq<bool>, x: bool)
    ensures BinaryValue(bits + [x]) == 2 * BinaryValue(bits) + Digit(x)
  {
    assert (bits + [x])[..|bits|] == bits;
  }

  /** Shifting n bits out splits b * 2^n into the value of those bits and what is left. */
  lemma {:induction false} DigitsOf(b: byte, n: nat)
    ensures Doubled(b, n) == 256 * BinaryValue(Bits(b, n)) + Shifted(b, n)
    decreases n
  {
    if n > 0 {
      DigitsOf(b, n - 1);
      OneMoreBit(b, n - 1);
      ValueOfOneMore(Bits(b, n - 1), Shifted(b, n - 1) >= 128);
    }
  }

  /** The eight bits of a byte are its binary digits, most significant first, and nothing is left after them. */
  lemma EightBits(b: byte, k: nat)
    requires k == 8
    ensures BinaryValue(Bits(b, k)) == b && Shifted(b, k) == 0
  {
    DigitsOf(b, k);
    DoubledEightTimes(b, k);
    QuotientAndRemainder(b, BinaryValue(Bits(b, k)), Shifted(b, k));
  }

  lemma DoubledEightTimes(b: nat, k: nat)
    requires k == 8
    ensures Doubled(b, k) == 256 * b
  {
    assert Doubled(b, k) == 4 * Doubled(b, k - 2) == 16 * Doubled(b, k - 4);
    assert Doubled(b, k - 4) == 4 * Doubled(b, k - 6) == 16 * Doubled(b, k - 8);
  }

  lemma QuotientAndRemainder(b: nat, q: nat, r: byte)
    requires 256 * b == 256 * q + r
    ensures q == b && r == 0
  {
  }

  /** A byte has no more set bits than its eight hold, however many are shifted out. */
  lemma SetBitsAreInTheFirstEight(b: byte, n: nat)
    requires n >= 8
    ensures CountSet(Bits(b, n)) == CountSet(Bits(b, 8))
  {
    var k := 8;
    ShiftedBits(b, k, n - k);
    EightBits(b, k);
    NoBitsInZero(n - k);
    CountSetAppend(Bits(b, k), Bits(0, n - k));
  }

  // ----- Blocks of data bits -----

  /** The data of a turbo or pure data block. A last byte said to hold no bits at all keeps the
      player's bit counter, a size_t, going round once. */
  datatype DataBlock = DataBlock(data: seq<byte>, bitsInLastByte: size, bit0: dword, bit1: dword, pause: dword)

  function Width(d: DataBlock, i: nat): nat {
    if i == |d.data| - 1 then Turns(d.bitsInLastByte, SIZE_MODULUS) else 8
  }

  function BitsFrom(d: DataBlock, i: nat): seq<bool>
    decreases |d.data| - i
  {
    if i >= |d.data| then [] else Bits(d.data[i], Width(d, i)) + BitsFrom(d, i + 1)
  }

  function BitEdge(d: DataBlock, tstates: nat): Edge {
    Edge(tstates, if tstates == d.bit0 then {LengthShort} else {LengthLong})
  }

  function BitLength(d: DataBlock, bit: bool): dword {
    if bit then d.bit1 else d.bit0
  }

  function BitEdges(d: DataBlock, bits: seq<bool>): (r: seq<Edge>)
    ensures |r| == 2 * |bits|
  {
    if bits == [] then []
    else var e := BitEdge(d, BitLength(d, bits[0])); [e, e] + BitEdges(d, bits[1..])
  }

  function PauseEdge(tstates: nat): Edge {
    Edge(tstates, if tstates == 0 then {NoEdge} else {})
  }

  function DataEdges(d: DataBlock): seq<Edge> {
    BitEdges(d, BitsFrom(d, 0)) + [PauseEdge(d.pause)]
  }

  /** Bit k of the data sounds as the two edges 2k and 2k + 1, of the set length iff it is set. */
  lemma {:induction false} EdgePairOfBit(d: DataBlock, bits: seq<bool>, k: nat)
    requires k < |bits|
    ensures var length := if bits[k] then d.bit1 else d.bit0;
            && BitEdges(d, bits)[2 * k] == BitEdges(d, bits)[2 * k + 1]
            && BitEdges(d, bits)[2 * k] == Edge(length, {if length == d.bit0 then LengthShort else LengthLong})
  {
    if k > 0 {
      EdgePairOfBit(d, bits[1..], k - 1);
      assert BitEdges(d, bits)[2 * k] == BitEdges(d, bits[1..])[2 * (k - 1)];
      assert BitEdges(d, bits)[2 * k + 1] == BitEdges(d, bits[1..])[2 * (k - 1) + 1];
    }
  }

  lemma PartsOfConcat<T>(a: seq<T>, b: seq<T>, m: nat)
    ensures m < |a| ==> (a + b)[m] == a[m]
    ensures m < |b| ==> (a + b)[|a| + m] == b[m]
  {
  }

  /** Bit 8i + j of a block is bit j of byte i, and the last byte gives bits_in_last_byte of them. */
  lemma {:induction false} BitPosition(d: DataBlock, i: nat, j: nat, from: nat)
    requires from <= i < |d.data| && j < Width(d, i)
    ensures 8 * (i - from) + j < |BitsFrom(d, from)|
    ensures BitsFrom(d, from)[8 * (i - from) + j] == Bits(d.data[i], Width(d, i))[j]
    decreases i - from
  {
    var first, rest := Bits(d.data[from], Width(d, from)), BitsFrom(d, from + 1);
    assert BitsFrom(d, from) == first + rest;
    if from < i {
      BitPosition(d, i, j, from + 1);
      var m := 8 * (i - from - 1) + j;
      PartsOfConcat(first, rest, m);
      assert |first| + m == 8 * (i - from) + j;
    } else {
      PartsOfConcat(first, rest, j);
    }
  }

  datatype TurboBlock = TurboBlock(body: DataBlock, pilotLength: dword, pilotPulses: size, sync1: dword, sync2: dword)

  function TurboEdges(t: TurboBlock): seq<Edge> {
    Repeat(Edge(t.pilotLength, {}), t.pilotPulses) + ([Edge(t.sync1, {}), Edge(t.sync2, {})] + DataEdges(t.body))
  }

  datatype RomBlock = RomBlock(data: seq<byte>, pause: dword)

  /** A ROM block is a turbo block with the timings of the ROM loader. */
  function RomTimings(r: RomBlock): TurboBlock {
    TurboBlock(DataBlock(r.data, 8, TIMING_DATA0, TIMING_DATA1, r.pause), TIMING_PILOT,
               if r.data != [] && r.data[0] >= 128 then PILOTS_DATA else PILOTS_HEADER, TIMING_SYNC1, TIMING_SYNC2)
  }

  /** What a turbo block sounds like, edge by edge: the pilot, two pulses that mark the start of the data, then each bit
      as two pulses, said to be short when their length is that of a bit that is not set, and the pause. */
  lemma TurboShape(t: TurboBlock, k: nat)
    ensures var edges, n, bits := TurboEdges(t), t.pilotPulses, BitsFrom(t.body, 0);
            && |edges| == n + 2 + 2 * |bits| + 1
            && (k < n ==> edges[k] == Edge(t.pilotLength, {}))
            && edges[n] == Edge(t.sync1, {}) && edges[n + 1] == Edge(t.sync2, {})
            && (k < |bits| ==>
                  var length := if bits[k] then t.body.bit1 else t.body.bit0;
                  edges[n + 2 + 2 * k] == edges[n + 3 + 2 * k]
                  == Edge(length, {if length == t.body.bit0 then LengthShort else LengthLong}))
            && edges[|edges| - 1] == Edge(t.body.pause, if t.body.pause == 0 then {NoEdge} else {})
  {
    hide BitsFrom, Repeat;
    var bits := BitsFrom(t.body, 0);
    var pilot, sync := Repeat(Edge(t.pilotLength, {}), t.pilotPulses), [Edge(t.sync1, {}), Edge(t.sync2, {})];
    var data := BitEdges(t.body, bits);
    assert TurboEdges(t) == pilot + (sync + (data + [PauseEdge(t.body.pause)]));
    if k < |bits| {
      EdgePairOfBit(t.body, bits, k);
    }
  }

  /** And a ROM block: 8063 pilot pulses, or 3223 if its first byte has the top bit set. */
  lemma RomShape(r: RomBlock, k: nat)
    ensures var edges, n := TurboEdges(RomTimings(r)), if r.data != [] && r.data[0] >= 128 then 3223 else 8063;
            var bits := BitsFrom(RomTimings(r).body, 0);
            && |edges| == n + 2 + 2 * |bits| + 1
            && (k < n ==> edges[k] == Edge(2168, {}))
            && edges[n] == Edge(667, {}) && edges[n + 1] == Edge(735, {})
            && (k < |bits| ==> edges[n + 2 + 2 * k] == edges[n + 3 + 2 * k]
                               == if bits[k] then Edge(1710, {LengthLong}) else Edge(855, {LengthShort}))
            && edges[|edges| - 1] == Edge(r.pause, if r.pause == 0 then {NoEdge} else {})
  {
    hide BitsFrom, TurboEdges;
    TurboShape(RomTimings(r), k);
  }

  // ----- How long they last -----

  /** The length of n data bits of which k are set, as tape_block.c works it out. */
  function PulsesToTstates(bit1: nat, bit0: nat, k: int, n: int): int {
    2 * bit1 * k + 2 * bit0 * (n - k)
  }

  lemma OneMoreBitLength(bit1: nat, bit0: nat, k: int, n: int, isSet: bool)
    ensures PulsesToTstates(bit1, bit0, k + (if isSet then 1 else 0), n + 1)
         == 2 * (if isSet then bit1 else bit0) + PulsesToTstates(bit1, bit0, k, n)
  {
    if isSet {
      assert 2 * bit1 * (k + 1) == 2 * bit1 * k + 2 * bit1 && n + 1 - (k + 1) == n - k;
    } else {
      assert 2 * bit0 * (n + 1 - k) == 2 * bit0 * (n - k) + 2 * bit0;
    }
  }

  lemma {:induction false} BitEdgesDuration(d: DataBlock, bits: seq<bool>)
    ensures Duration(BitEdges(d, bits)) == PulsesToTstates(d.bit1, d.bit0, CountSet(bits), |bits|)
  {
    if bits != [] {
      var e, rest := BitEdge(d, BitLength(d, bits[0])), BitEdges(d, bits[1..]);
      BitEdgesDuration(d, bits[1..]);
      DurationRepeat(e, 2);
      assert Repeat(e, 2) == [e, e];
      DurationAppend([e, e], rest);
      OneMoreBitLength(d.bit1, d.bit0, CountSet(bits[1..]), |bits| - 1, bits[0]);
    }
  }

  lemma {:induction false} BitEdgesAppend(d: DataBlock, a: seq<bool>, b: seq<bool>)
    ensures BitEdges(d, a + b) == BitEdges(d, a) + BitEdges(d, b)
  {
    if a == [] {
      assert a + b == b;
    } else {
      assert (a + b)[1..] == a[1..] + b;
      BitEdgesAppend(d, a[1..], b);
    }
  }

  /** How many of the first bits of the last byte are set, as the closed form has it: the number of bits is a size_t,
      and an argument of one byte where the set ones are counted. */
  function LastSet(d: DataBlock): nat
    requires d.data != []
  {
    var n := d.bitsInLastByte % 256;
    CountSet(Bits(d.data[|d.data| - 1], if n > 8 then 8 else n))
  }

  /** How many of the bits that are played of the last byte are set. */
  function LastSetPlayed(d: DataBlock): nat
    requires d.data != []
  {
    var n := Turns(d.bitsInLastByte, SIZE_MODULUS);
    CountSet(Bits(d.data[|d.data| - 1], if n > 8 then 8 else n))
  }

  /** The closed form for the data bits from byte i on. */
  function BodyLength(d: DataBlock, i: nat): int
    decreases |d.data| - i
  {
    if i >= |d.data| then 0
    else if i == |d.data| - 1 then
      PulsesToTstates(d.bit1, d.bit0, LastSet(d), d.bitsInLastByte)
    else PulsesToTstates(d.bit1, d.bit0, CountSet(Bits(d.data[i], 8)), 8) + BodyLength(d, i + 1)
  }

  /** What the player adds to the closed form for the last byte: a whole turn of its counter for no bits, and the set
      bits that the closed form misses. */
  function Surplus(d: DataBlock): int {
    if d.data == [] then 0
    else
      PulsesToTstates(d.bit1, d.bit0, LastSetPlayed(d), Turns(d.bitsInLastByte, SIZE_MODULUS))
      - PulsesToTstates(d.bit1, d.bit0, LastSet(d), d.bitsInLastByte)
  }

  lemma LastByteDuration(d: DataBlock)
    requires d.data != []
    ensures Duration(BitEdges(d, BitsFrom(d, |d.data| - 1))) == BodyLength(d, |d.data| - 1) + Surplus(d)
  {
    var i := |d.data| - 1;
    var bits := Bits(d.data[i], Width(d, i));
    assert BitsFrom(d, i) == bits + BitsFrom(d, |d.data|) == bits;
    BitEdgesDuration(d, bits);
    if |bits| > 8 {
      SetBitsAreInTheFirstEight(d.data[i], |bits|);
    }
  }

  lemma {:induction false} BodyDuration(d: DataBlock, i: nat)
    ensures Duration(BitEdges(d, BitsFrom(d, i))) == BodyLength(d, i) + (if i < |d.data| then Surplus(d) else 0)
    decreases |d.data| - i
  {
    if i + 1 == |d.data| {
      LastByteDuration(d);
    } else if i < |d.data| {
      var bits, rest := Bits(d.data[i], 8), BitsFrom(d, i + 1);
      BitEdgesDuration(d, bits);
      BodyDuration(d, i + 1);
      BitEdgesAppend(d, bits, rest);
      DurationAppend(BitEdges(d, bits), BitEdges(d, rest));
    }
  }

  function DataLength(d: DataBlock): int {
    d.pause + BodyLength(d, 0)
  }

  function TurboLength(t: TurboBlock): int {
    t.pilotPulses * t.pilotLength + t.sync1 + t.sync2 + DataLength(t.body)
  }

  /** The edges of a pure data block add up to its closed-form length, up to the one odd case. */
  lemma DataDuration(d: DataBlock)
    ensures Duration(DataEdges(d)) == DataLength(d) + Surplus(d)
  {
    BodyDuration(d, 0);
    DurationAppend(BitEdges(d, BitsFrom(d, 0)), [PauseEdge(d.pause)]);
  }

  lemma TurboDuration(t: TurboBlock)
    ensures Duration(TurboEdges(t)) == TurboLength(t) + Surplus(t.body)
  {
    var p, s1, s2 := Repeat(Edge(t.pilotLength, {}), t.pilotPulses), [Edge(t.sync1, {})], [Edge(t.sync2, {})];
    DataDuration(t.body);
    DurationRepeat(Edge(t.pilotLength, {}), t.pilotPulses);
    assert [Edge(t.sync1, {}), Edge(t.sync2, {})] == s1 + s2;
    DurationAppend(s1, s2);
    DurationAppend(s1 + s2, DataEdges(t.body));
    DurationAppend(p, s1 + s2 + DataEdges(t.body));
  }

  function Wrap(x: int): dword {
    x % 0x1_0000_0000
  }

  /** When the closed form is that of the bits played: there is no data; or the last byte holds some bits, and either no
      set one is missed, which takes a count of 256 or more, or it would not be heard; or it holds none, and nothing
      would be heard of the bits that are played of it all the same. */
  predicate FormFits(d: DataBlock) {
    d.data == [] ||
    if d.bitsInLastByte > 0 then LastSet(d) == LastSetPlayed(d) || d.bit0 == d.bit1
    else d.bit0 == 0 && (d.bit1 == 0 || LastSetPlayed(d) == 0)
  }

  lemma PulsesDifference(bit1: nat, bit0: nat, j: nat, k: nat, n: nat)
    ensures PulsesToTstates(bit1, bit0, k, n) - PulsesToTstates(bit1, bit0, j, n) == 2 * (bit1 - bit0) * (k - j)
  {
    assert 2 * bit1 * k - 2 * bit1 * j == 2 * bit1 * (k - j);
    assert 2 * bit0 * (n - k) - 2 * bit0 * (n - j) == -(2 * bit0 * (k - j));
    assert 2 * bit1 * (k - j) - 2 * bit0 * (k - j) == 2 * (bit1 - bit0) * (k - j);
  }

  lemma ProductIsZero(a: int, b: int)
    ensures 2 * a * b == 0 <==> a == 0 || b == 0
  {
  }

  lemma PulsesAreNone(bit1: nat, bit0: nat, k: nat, n: nat)
    requires k < n
    ensures PulsesToTstates(bit1, bit0, k, n) >= 0
    ensures PulsesToTstates(bit1, bit0, k, n) == 0 <==> bit0 == 0 && (bit1 == 0 || k == 0)
  {
    Product(bit1, k);
    Product(bit0, n - k);
    assert 2 * bit1 * k == 2 * (bit1 * k) && 2 * bit0 * (n - k) == 2 * (bit0 * (n - k));
  }

  lemma Product(a: nat, b: nat)
    ensures a * b >= 0 && (a * b == 0 <==> a == 0 || b == 0)
  {
  }

  lemma SurplusIsNone(d: DataBlock)
    ensures Surplus(d) == 0 <==> FormFits(d)
    ensures d.bitsInLastByte == 0 ==> Surplus(d) >= 0
  {
    hide PulsesToTstates;
    if d.data != [] {
      CountSetAtMost(Bits(d.data[|d.data| - 1], 8));
      var n := Turns(d.bitsInLastByte, SIZE_MODULUS);
      assert LastSetPlayed(d) <= 8 by { LastSetIsSmall(d); }
      if d.bitsInLastByte > 0 {
        PulsesDifference(d.bit1, d.bit0, LastSet(d), LastSetPlayed(d), n);
        ProductIsZero(d.bit1 - d.bit0, LastSetPlayed(d) - LastSet(d));
      } else {
        PulsesAreNone(d.bit1, d.bit0, LastSetPlayed(d), n);
        NoPulses(d.bit1, d.bit0, LastSet(d));
      }
    }
  }

  lemma LastSetIsSmall(d: DataBlock)
    requires d.data != []
    ensures LastSetPlayed(d) <= 8
    ensures d.bitsInLastByte == 0 ==> LastSet(d) == 0
    ensures 0 < d.bitsInLastByte < 256 ==> LastSet(d) == LastSetPlayed(d)
  {
    var n := Turns(d.bitsInLastByte, SIZE_MODULUS);
    CountSetAtMost(Bits(d.data[|d.data| - 1], if n > 8 then 8 else n));
  }

  lemma NoPulses(bit1: nat, bit0: nat, k: nat)
    requires k == 0
    ensures PulsesToTstates(bit1, bit0, k, 0) == 0
  {
  }

  lemma {:induction false} MoreBitsMoreSet(b: byte, m: nat, n: nat)
    requires m <= n
    ensures CountSet(Bits(b, m)) <= CountSet(Bits(b, n))
    decreases n
  {
    if m < n {
      MoreBitsMoreSet(b, m, n - 1);
      OneMoreBit(b, n - 1);
      CountSetAppend(Bits(b, n - 1), [Shifted(b, n - 1) >= 128]);
    }
  }

  /** The bits of the last byte are a part of the block. */
  lemma {:induction false} LastByteIsPart(d: DataBlock, i: nat)
    requires i < |d.data|
    ensures Duration(BitEdges(d, BitsFrom(d, i))) >= Duration(BitEdges(d, BitsFrom(d, |d.data| - 1)))
    decreases |d.data| - i
  {
    if i + 1 < |d.data| {
      var bits, rest := Bits(d.data[i], 8), BitsFrom(d, i + 1);
      LastByteIsPart(d, i + 1);
      BitEdgesAppend(d, bits, rest);
      DurationAppend(BitEdges(d, bits), BitEdges(d, rest));
    }
  }

  lemma ProductGrows(a: nat, i: nat, k: nat)
    requires i <= k
    ensures 0 <= a * i <= a * k
  {
  }

  lemma TwoProducts(a: nat, b: nat, i: nat)
    ensures 2 * (a - b) * i == 2 * (a * i) - 2 * (b * i)
  {
    assert 2 * (a - b) * i == 2 * ((a - b) * i);
    assert (a - b) * i == a * i - b * i;
  }

  lemma ProductBound(a: nat, b: nat, i: nat, k: nat, n: nat)
    requires i <= k && i <= n
    ensures 2 * (a - b) * i <= 2 * (a * k) && 2 * (a - b) * i + 2 * (b * n) >= 0
  {
    TwoProducts(a, b, i);
    ProductGrows(a, i, k);
    ProductGrows(b, i, n);
  }

  /** The surplus is never more than the block lasts, and no less than that below zero. */
  lemma SurplusIsPlayed(d: DataBlock)
    ensures Surplus(d) <= Duration(DataEdges(d)) && Duration(DataEdges(d)) + Surplus(d) >= 0
  {
    hide PulsesToTstates, DataEdges;
    PauseIsLast(d);
    if d.data != [] {
      var i := |d.data| - 1;
      var n := Turns(d.bitsInLastByte, SIZE_MODULUS);
      var bits := Bits(d.data[i], n);
      LastByteIsPart(d, 0);
      assert BitsFrom(d, i) == bits + BitsFrom(d, |d.data|) == bits;
      BitEdgesDuration(d, bits);
      if n > 8 {
        SetBitsAreInTheFirstEight(d.data[i], n);
      }
      var j, k := LastSet(d), LastSetPlayed(d);
      LastSetIsSmall(d);
      CountSetAtMost(bits);
      assert Duration(BitEdges(d, BitsFrom(d, i))) == PulsesToTstates(d.bit1, d.bit0, k, n);
      if d.bitsInLastByte == 0 {
        NoPulses(d.bit1, d.bit0, j);
        PulsesAreNone(d.bit1, d.bit0, k, n);
      } else {
        PulsesDifference(d.bit1, d.bit0, j, k, n);
        if d.bitsInLastByte >= 256 {
          var m := d.bitsInLastByte % 256;
          MoreBitsMoreSet(d.data[i], if m > 8 then 8 else m, 8);
          ProductBound(d.bit1, d.bit0, k - j, k, n - k);
          PulsesAreSum(d.bit1, d.bit0, k, n);
        } else {
          assert k - j == 0;
        }
      }
    }
  }

  lemma PulsesAreSum(bit1: nat, bit0: nat, k: nat, n: nat)
    requires k <= n
    ensures PulsesToTstates(bit1, bit0, k, n) == 2 * (bit1 * k) + 2 * (bit0 * (n - k))
    ensures bit1 * k >= 0 && bit0 * (n - k) >= 0
  {
    Product(bit1, k);
    Product(bit0, n - k);
    assert 2 * bit1 * k == 2 * (bit1 * k) && 2 * bit0 * (n - k) == 2 * (bit0 * (n - k));
  }

  lemma PauseIsLast(d: DataBlock)
    ensures Duration(DataEdges(d)) == Duration(BitEdges(d, BitsFrom(d, 0))) + d.pause
  {
    DurationAppend(BitEdges(d, BitsFrom(d, 0)), [PauseEdge(d.pause)]);
  }

  lemma WrapOf(played: nat, form: int, surplus: int)
    requires played == form + surplus && surplus <= played && played + surplus >= 0
    ensures played == Wrap(form) <==> form < DWORD_MODULUS && surplus == 0
  {
    if played == Wrap(form) {
      var q := form / DWORD_MODULUS;
      assert form == DWORD_MODULUS * q + Wrap(form);
      assert surplus == 0 - DWORD_MODULUS * q;
    }
  }

  /** So the dword that the closed form gives is the time that is played exactly when there is room for it in a dword,
      and the closed form is that of the bits played. */
  lemma DurationAgrees(d: DataBlock)
    ensures Duration(DataEdges(d)) == Wrap(DataLength(d)) <==> DataLength(d) < DWORD_MODULUS && FormFits(d)
  {
    hide FormFits, Surplus, DataLength, DataEdges, Wrap;
    DataDuration(d);
    SurplusIsNone(d);
    SurplusIsPlayed(d);
    WrapOf(Duration(DataEdges(d)), DataLength(d), Surplus(d));
  }

  /** A byte without bits in it: the player goes round its counter, and the closed form counts nothing. */
  lemma NoBitsInLastByte(d: DataBlock)
    requires d.data == [0] && d.bitsInLastByte == 0
    ensures Wrap(DataLength(d)) == d.pause && Duration(DataEdges(d)) == d.pause + 2 * (d.bit0 * SIZE_MODULUS)
  {
    hide PulsesToTstates;
    assert BodyLength(d, 0) == PulsesToTstates(d.bit1, d.bit0, LastSet(d), d.bitsInLastByte);
    LastSetIsSmall(d);
    NoPulses(d.bit1, d.bit0, LastSet(d));
    DataDuration(d);
    NoBitsInZero(8);
    PulsesAreSum(d.bit1, d.bit0, LastSetPlayed(d), SIZE_MODULUS);
    Product(d.bit1, 0);
  }

  /** Room for less than the block lasts: one byte of bits of 2^28 t-states. */
  lemma TooLongForADword()
    ensures var d := DataBlock([0], 8, 0x1000_0000, 0x1000_0000, 0);
            FormFits(d) && Duration(DataEdges(d)) == DWORD_MODULUS && Wrap(DataLength(d)) == 0
  {
    var d := DataBlock([0], 8, 0x1000_0000, 0x1000_0000, 0);
    var k := LastSet(d);
    assert BodyLength(d, 0) == PulsesToTstates(0x1000_0000, 0x1000_0000, k, 8);
    assert PulsesToTstates(0x1000_0000, 0x1000_0000, k, 8) == 16 * 0x1000_0000;
    DataDuration(d);
    LastSetIsSmall(d);
    SurplusIsNone(d);
  }

  // ----- Tones, pulse lists and PZX pulse sequences -----

  datatype ToneBlock = ToneBlock(length: dword, pulses: size)

  /** A tone of no pulses keeps the player's edge counter, a size_t, going round once. */
  function ToneEdges(t: ToneBlock): seq<Edge> {
    Repeat(Edge(t.length, {}), Turns(t.pulses, SIZE_MODULUS))
  }

  lemma ToneDuration(t: ToneBlock)
    ensures Duration(ToneEdges(t)) == t.pulses * t.length + (if t.pulses == 0 then SIZE_MODULUS * t.length else 0)
  {
    DurationRepeat(Edge(t.length, {}), Turns(t.pulses, SIZE_MODULUS));
  }

  function PulseEdges(lengths: seq<dword>): (r: seq<Edge>)
    ensures |r| == |lengths|
  {
    if lengths == [] then [] else [Edge(lengths[0], {})] + PulseEdges(lengths[1..])
  }

  lemma {:induction false} PulsesDuration(lengths: seq<dword>)
    ensures Duration(PulseEdges(lengths)) == Sum(lengths)
  {
    if lengths != [] {
      PulsesDuration(lengths[1..]);
      assert PulseEdges(lengths)[1..] == PulseEdges(lengths[1..]);
    }
  }

  datatype PulseSequence = PulseSequence(lengths: seq<dword>, repeats: seq<size>)

  ghost predicate ValidSequence(p: PulseSequence) {
    |p.lengths| == |p.repeats| > 0
  }

  /** The pulses from group i on, one by one. A group repeated no times goes round its size_t counter. */
  function PulsesFrom(p: PulseSequence, i: nat): seq<dword>
    requires |p.lengths| == |p.repeats|
    decreases |p.lengths| - i
  {
    if i >= |p.lengths| then []
    else Repeat(p.lengths[i], Turns(p.repeats[i], SIZE_MODULUS)) + PulsesFrom(p, i + 1)
  }

  /** The microphone level after a pulse: any level but 0, the initial -1 among them, turns to 0. */
  function Flip(level: int): int {
    if level == 0 then 1 else 0
  }

  function LevelEdge(tstates: nat, before: int, after: int): Edge {
    Edge(tstates, if after != before then {if after == 1 then LevelHigh else LevelLow}
                  else if tstates == 0 then {NoEdge} else {})
  }

  /** The edges of a list of pulses: each pulse flips the level, and one of no length is heard only
      through the next that has one, or at the end. level is the level last reported, now the present one. */
  function LevelEdges(pulses: seq<dword>, level: int, now: int): (r: seq<Edge>)
    ensures pulses != [] ==> r != []
  {
    if pulses == [] then []
    else if pulses[0] != 0 || |pulses| == 1 then
      [LevelEdge(pulses[0], level, Flip(now))] + LevelEdges(pulses[1..], Flip(now), Flip(now))
    else LevelEdges(pulses[1..], level, Flip(now))
  }

  function SequenceEdges(p: PulseSequence): seq<Edge>
    requires |p.lengths| == |p.repeats|
  {
    LevelEdges(PulsesFrom(p, 0), -1, -1)
  }

  /** A level after so many more pulses. */
  function LevelAt(level: int, k: nat): int
    decreases k
  {
    if k == 0 then level else LevelAt(Flip(level), k - 1)
  }

  lemma {:induction false} LevelIsParity(k: nat)
    requires k > 0
    ensures LevelAt(-1, k) == if k % 2 == 1 then 0 else 1
    decreases k
  {
    if k == 1 {
      assert LevelAt(-1, 1) == LevelAt(Flip(-1), 0) == 0;
    } else {
      LevelComesBack(0, k - 1);
      assert LevelAt(-1, k) == LevelAt(0, k - 1);
    }
  }

  lemma {:induction false} LevelComesBack(level: int, k: nat)
    requires level == 0 || level == 1
    ensures LevelAt(level, k) == level <==> k % 2 == 0
    ensures LevelAt(level, k) == 0 || LevelAt(level, k) == 1
    decreases k
  {
    if k >= 2 {
      assert LevelAt(level, k) == LevelAt(Flip(Flip(level)), k - 2);
      LevelComesBack(level, k - 2);
    } else if k == 1 {
      assert LevelAt(level, 1) == LevelAt(Flip(level), 0);
    }
  }

  /** How many pulses the first k edges take: one of no length goes together with those behind it. */
  function PulsesTaken(pulses: seq<dword>, k: nat): (n: nat)
    ensures n <= |pulses|
  {
    if k == 0 || pulses == [] then 0
    else 1 + PulsesTaken(pulses[1..], if pulses[0] != 0 || |pulses| == 1 then k - 1 else k)
  }

  /** Edge k ends with the first pulse behind the last edge that has a length, or with the last pulse of all. */
  lemma {:induction false} WhatAnEdgeTakes(pulses: seq<dword>, level: int, now: int, k: nat)
    requires k < |LevelEdges(pulses, level, now)|
    ensures var from, to := PulsesTaken(pulses, k), PulsesTaken(pulses, k + 1);
            && from < to <= |pulses|
            && (forall i :: from <= i < to - 1 ==> pulses[i] == 0) && (pulses[to - 1] == 0 ==> to == |pulses|)
            && LevelEdges(pulses, level, now)[k]
               == LevelEdge(pulses[to - 1], if k == 0 then level else LevelAt(now, from), LevelAt(now, to))
    decreases pulses
  {
    var rest := pulses[1..];
    if pulses[0] != 0 || |pulses| == 1 {
      LevelStep(now, PulsesTaken(rest, k));
      if k == 0 {
        assert PulsesTaken(rest, 0) == 0;
      } else {
        WhatAnEdgeTakes(rest, Flip(now), Flip(now), k - 1);
        LevelStep(now, PulsesTaken(rest, k - 1));
        if k == 1 {
          assert PulsesTaken(rest, 0) == 0;
        }
        Behind(pulses, PulsesTaken(rest, k - 1), PulsesTaken(rest, k));
      }
    } else {
      WhatAnEdgeTakes(rest, level, Flip(now), k);
      LevelStep(now, PulsesTaken(rest, k));
      LevelStep(now, PulsesTaken(rest, k + 1));
      Behind(pulses, PulsesTaken(rest, k), PulsesTaken(rest, k + 1));
    }
  }

  lemma LevelStep(level: int, k: nat)
    ensures LevelAt(level, k + 1) == LevelAt(Flip(level), k)
  {
  }

  lemma Behind(pulses: seq<dword>, from: nat, to: nat)
    requires pulses != [] && from < to <= |pulses[1..]|
    requires forall i :: from <= i < to - 1 ==> pulses[1..][i] == 0
    ensures forall i :: from + 1 <= i < to ==> pulses[i] == 0
    ensures pulses[to] == pulses[1..][to - 1]
  {
    forall i | from + 1 <= i < to ensures pulses[i] == 0 {
      assert pulses[i] == pulses[1..][i - 1];
    }
  }

  /** The polarity of a pulse sequence. When the pulses up to the end of an edge are odd in number the signal is forced
      low there, and high when they are even; it is left alone when the edge takes an even number of pulses, which
      leave the level as the last edge did, and is no edge at all if these take no time. The first edge always forces
      it. */
  lemma SequenceLevels(p: PulseSequence, k: nat)
    requires ValidSequence(p) && k < |SequenceEdges(p)|
    ensures var pulses := PulsesFrom(p, 0);
            var from, to := PulsesTaken(pulses, k), PulsesTaken(pulses, k + 1);
            && from < to <= |pulses|
            && (forall i :: from <= i < to - 1 ==> pulses[i] == 0) && (pulses[to - 1] == 0 ==> to == |pulses|)
            && SequenceEdges(p)[k].tstates == pulses[to - 1]
            && SequenceEdges(p)[k].flags == if k == 0 || (to - from) % 2 == 1
                                            then {if to % 2 == 1 then LevelLow else LevelHigh}
                                            else if pulses[to - 1] == 0 then {NoEdge} else {}
  {
    var pulses := PulsesFrom(p, 0);
    var from, to := PulsesTaken(pulses, k), PulsesTaken(pulses, k + 1);
    WhatAnEdgeTakes(pulses, -1, -1, k);
    LevelIsParity(to);
    if k > 0 {
      FirstEdgeTakesOne(pulses, k);
      LevelIsParity(from);
    }
  }

  lemma FirstEdgeTakesOne(pulses: seq<dword>, k: nat)
    requires k > 0 && pulses != []
    ensures PulsesTaken(pulses, k) > 0
  {
  }

  /** The edges take all of the pulses, the last edge the last of them. */
  lemma {:induction false} EdgesTakeAllPulses(pulses: seq<dword>, level: int, now: int)
    ensures PulsesTaken(pulses, |LevelEdges(pulses, level, now)|) == |pulses|
    decreases pulses
  {
    if pulses != [] {
      if pulses[0] != 0 || |pulses| == 1 {
        EdgesTakeAllPulses(pulses[1..], Flip(now), Flip(now));
      } else {
        EdgesTakeAllPulses(pulses[1..], level, Flip(now));
      }
    }
  }

  /** Without pulses of no length, every pulse is an edge: low, high, low and so on. */
  lemma SequenceAlternates(p: PulseSequence, k: nat)
    requires ValidSequence(p) && forall i :: 0 <= i < |PulsesFrom(p, 0)| ==> PulsesFrom(p, 0)[i] != 0
    ensures |SequenceEdges(p)| == |PulsesFrom(p, 0)|
    ensures k < |PulsesFrom(p, 0)| ==>
              SequenceEdges(p)[k] == Edge(PulsesFrom(p, 0)[k], {if k % 2 == 0 then LevelLow else LevelHigh})
  {
    var pulses := PulsesFrom(p, 0);
    EdgesTakeAllPulses(pulses, -1, -1);
    OneEach(pulses, |SequenceEdges(p)|);
    OneEach(pulses, k);
    OneEach(pulses, k + 1);
    NoMoreEdges(pulses, -1, -1);
    if k < |pulses| {
      SequenceLevels(p, k);
    }
  }

  lemma {:induction false} NoMoreEdges(pulses: seq<dword>, level: int, now: int)
    ensures |LevelEdges(pulses, level, now)| <= |pulses|
    decreases pulses
  {
    if pulses != [] {
      NoMoreEdges(pulses[1..], if pulses[0] != 0 || |pulses| == 1 then Flip(now) else level, Flip(now));
    }
  }

  lemma {:induction false} OneEach(pulses: seq<dword>, k: nat)
    requires forall i :: 0 <= i < |pulses| ==> pulses[i] != 0
    ensures PulsesTaken(pulses, k) == if k < |pulses| then k else |pulses|
  {
    if k > 0 && pulses != [] {
      OneEach(pulses[1..], k - 1);
    }
  }

  lemma {:induction false} LevelEdgesDuration(pulses: seq<dword>, level: int, now: int)
    ensures Duration(LevelEdges(pulses, level, now)) == Sum(pulses)
    decreases pulses
  {
    if pulses == [] {
    } else if pulses[0] != 0 || |pulses| == 1 {
      LevelEdgesDuration(pulses[1..], Flip(now), Flip(now));
    } else {
      LevelEdgesDuration(pulses[1..], level, Flip(now));
    }
  }

  function SequenceLength(p: PulseSequence, i: nat): int
    requires |p.lengths| == |p.repeats|
    decreases |p.lengths| - i
  {
    if i >= |p.lengths| then 0 else p.lengths[i] * p.repeats[i] + SequenceLength(p, i + 1)
  }

  lemma {:induction false} PulsesFromSum(p: PulseSequence, i: nat)
    requires |p.lengths| == |p.repeats| && forall k :: 0 <= k < |p.repeats| ==> p.repeats[k] >= 1
    ensures Sum(PulsesFrom(p, i)) == SequenceLength(p, i)
    decreases |p.lengths| - i
  {
    if i < |p.lengths| {
      var group: seq<dword>, n := Repeat(p.lengths[i], p.repeats[i]), p.repeats[i];
      PulsesFromSum(p, i + 1);
      SumAppend(group, PulsesFrom(p, i + 1));
      SumRepeat(p.lengths[i], n);
      assert PulsesFrom(p, i) == group + PulsesFrom(p, i + 1);
      assert group == Repeat<int>(p.lengths[i], n);
    }
  }

  lemma SequenceDuration(p: PulseSequence)
    requires ValidSequence(p) && forall k :: 0 <= k < |p.repeats| ==> p.repeats[k] >= 1
    ensures Duration(SequenceEdges(p)) == SequenceLength(p, 0)
  {
    LevelEdgesDuration(PulsesFrom(p, 0), -1, -1);
    PulsesFromSum(p, 0);
  }
}
