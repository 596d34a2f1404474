/** The closed-form block lengths of tape_block.c, which add up in a dword, so modulo 2^32. */
module TapeLengths {
  import opened Bytes
  import opened TapeEdges

  lemma WrapAdd(x: int, y: int)
    ensures Wrap(Wrap(x) + y) == Wrap(x + y)
  {
  }

  method AddDword(length: dword, x: int, ghost done: int) returns (r: dword)
    requires length == Wrap(done)
    ensures r == Wrap(done + x)
  {
    r := Wrap(length + x);
    WrapAdd(done, x);
  }

  /** How many of the top bits of a byte are set; there are eight at most. */
  method BitsSetNBits(b: byte, bits: byte) returns (n: nat)
    ensures n == CountSet(Bits(b, if bits > 8 then 8 else bits))
  {
    var limit: nat := if bits > 8 then 8 else bits;
    var shifted: byte, i := b, 0;
    n := 0;
    while i < limit
      invariant 0 <= i <= limit
      invariant n + CountSet(Bits(shifted, limit - i)) == CountSet(Bits(b, limit))
    {
      if shifted >= 128 {
        n := n + 1;
      }
      assert Bits(shifted, limit - i)[1..] == Bits(ShiftLeft(shifted), limit - i - 1);
      shifted := ShiftLeft(shifted);
      i := i + 1;
    }
  }

  ghost predicate BitsSetTable(table: seq<nat>) {
    |table| == 256 && forall b: byte :: table[b] == CountSet(Bits(b, 8))
  }

  method InitBitsSet() returns (table: seq<nat>)
    ensures BitsSetTable(table)
  {
    table := [];
    while |table| < 256
      invariant |table| <= 256
      invariant forall b: byte :: b < |table| ==> table[b] == CountSet(Bits(b, 8))
    {
      var n := BitsSetNBits(|table|, 8);
      table := table + [n];
    }
  }

  /** The loops over all bytes but the last, then the last one with its own number of bits. */
  method AddBody(d: DataBlock, table: seq<nat>, start: dword, ghost done0: int) returns (length: dword)
    requires BitsSetTable(table) && start == Wrap(done0)
    ensures length == Wrap(done0 + BodyLength(d, 0))
  {
    length := start;
    if d.data != [] {
      var last := BitsSetNBits(d.data[|d.data| - 1], d.bitsInLastByte % 256);
      ghost var done := done0;
      var i := 0;
      while i < |d.data| - 1
        invariant 0 <= i <= |d.data| - 1
        invariant done + BodyLength(d, i) == done0 + BodyLength(d, 0)
        invariant length == Wrap(done)
      {
        var x := PulsesToTstates(d.bit1, d.bit0, table[d.data[i]], 8);
        length := AddDword(length, x, done);
        done := done + x;
        i := i + 1;
      }
      length := AddDword(length, PulsesToTstates(d.bit1, d.bit0, last, d.bitsInLastByte), done);
    }
  }

  method PureDataBlockLength(d: DataBlock, table: seq<nat>) returns (length: dword)
    requires BitsSetTable(table)
    ensures FormFits(d) ==> length == Wrap(Duration(DataEdges(d)))
    ensures length == Wrap(DataLength(d))
  {
    length := AddBody(d, table, d.pause, d.pause);
    assert d.pause + BodyLength(d, 0) == DataLength(d);
    DataDuration(d);
    SurplusIsNone(d);
  }

  method TurboBlockLength(t: TurboBlock, table: seq<nat>) returns (length: dword)
    requires BitsSetTable(table)
    ensures FormFits(t.body) ==> length == Wrap(Duration(TurboEdges(t)))
    ensures length == Wrap(TurboLength(t))
  {
    var head := t.pilotPulses * t.pilotLength + t.sync1 + t.sync2 + t.body.pause;
    length := AddBody(t.body, table, Wrap(head), head);
    assert head + BodyLength(t.body, 0) == TurboLength(t);
    TurboDuration(t);
    SurplusIsNone(t.body);
  }

  lemma WholeByte(d: DataBlock, i: nat)
    requires i < |d.data| && d.bitsInLastByte == 8
    ensures BodyLength(d, i) == PulsesToTstates(d.bit1, d.bit0, CountSet(Bits(d.data[i], 8)), 8) + BodyLength(d, i + 1)
  {
  }

  lemma RomLength(r: RomBlock)
    ensures var t := RomTimings(r);
            Duration(TurboEdges(t))
              == r.pause + TIMING_PILOT * t.pilotPulses + TIMING_SYNC1 + TIMING_SYNC2 + BodyLength(t.body, 0)
  {
    TurboDuration(RomTimings(r));
    EightAreRight(RomTimings(r).body);
  }

  lemma EightAreRight(d: DataBlock)
    requires d.bitsInLastByte == 8
    ensures Surplus(d) == 0
  {
    if d.data != [] {
      LastSetIsSmall(d);
      SurplusIsNone(d);
    }
  }

  method RomBlockLength(r: RomBlock, table: seq<nat>) returns (length: dword)
    requires BitsSetTable(table)
    ensures length == Wrap(Duration(TurboEdges(RomTimings(r))))
  {
    hide Wrap, PulsesToTstates, BodyLength, TurboEdges, Duration;
    ghost var d := RomTimings(r).body;
    var edgeCount := if r.data != [] && r.data[0] >= 128 then PILOTS_DATA else PILOTS_HEADER;
    ghost var done: int := r.pause + TIMING_PILOT * edgeCount + TIMING_SYNC1 + TIMING_SYNC2;
    ghost var total := done + BodyLength(d, 0);
    RomLength(r);
    length := Wrap(r.pause + TIMING_PILOT * edgeCount + TIMING_SYNC1 + TIMING_SYNC2);
    var i := 0;
    while i < |r.data|
      invariant 0 <= i <= |r.data|
      invariant done + BodyLength(d, i) == total
      invariant length == Wrap(done)
    {
      var x := PulsesToTstates(TIMING_DATA1, TIMING_DATA0, table[r.data[i]], 8);
      WholeByte(d, i);
      length := AddDword(length, x, done);
      ghost var done' := done + x;
      assert length == Wrap(done');
      done := done';
      i := i + 1;
    }
    NoMoreBytes(d, i);
  }

  lemma NoMoreBytes(d: DataBlock, i: nat)
    requires i >= |d.data|
    ensures BodyLength(d, i) == 0
  {
  }

  method PulsesBlockLength(lengths: seq<dword>) returns (length: dword)
    ensures length == Wrap(Duration(PulseEdges(lengths)))
  {
    PulsesDuration(lengths);
    length := 0;
    ghost var done := 0;
    var i := 0;
    assert lengths[0..] == lengths;
    while i < |lengths|
      invariant 0 <= i <= |lengths|
      invariant done + Sum(lengths[i..]) == Sum(lengths)
      invariant length == Wrap(done)
    {
      assert lengths[i..][1..] == lengths[i + 1..];
      length := AddDword(length, lengths[i], done);
      done := done + lengths[i];
      i := i + 1;
    }
  }

  method PulseSequenceBlockLength(p: PulseSequence) returns (length: dword)
    requires ValidSequence(p)
    ensures length == Wrap(SequenceLength(p, 0))
    ensures (forall k :: 0 <= k < |p.repeats| ==> p.repeats[k] >= 1) ==> length == Wrap(Duration(SequenceEdges(p)))
  {
    length := 0;
    ghost var done := 0;
    var i := 0;
    while i < |p.lengths|
      invariant 0 <= i <= |p.lengths|
      invariant done + SequenceLength(p, i) == SequenceLength(p, 0)
      invariant length == Wrap(done)
    {
      length := AddDword(length, p.lengths[i] * p.repeats[i], done);
      done := done + p.lengths[i] * p.repeats[i];
      i := i + 1;
    }
    if forall k :: 0 <= k < |p.repeats| ==> p.repeats[k] >= 1 {
      SequenceDuration(p);
    }
  }

  method ToneBlockLength(t: ToneBlock) returns (length: dword)
    ensures t.pulses > 0 ==> length == Wrap(Duration(ToneEdges(t)))
  {
    length := Wrap(t.pulses * t.length);
    ToneDuration(t);
  }
}
