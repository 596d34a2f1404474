/** Turning the pulses of a compressed recording into samples of one bit (tzx_write.c): runs that alternate between low
    and high. */
module Raster {
  import opened Bytes
  import opened TapeEdges
  import opened GeneralisedData
  import opened SampledData
  import Csw
  import Tzx
  import Warajevo

  function LevelAfter(lengths: seq<nat>, level: bool): bool {
    if lengths == [] then level else LevelAfter(lengths[1..], !level)
  }

  lemma {:induction false} OneMoreRun(lengths: seq<nat>, n: nat, level: bool)
    ensures Runs(lengths + [n], level) == Runs(lengths, level) + Repeat(LevelAfter(lengths, level), n)
    ensures LevelAfter(lengths + [n], level) == !LevelAfter(lengths, level)
  {
    if lengths == [] {
      assert [] + [n] == [n];
      assert Runs([n], level) == Repeat(level, n) + [];
    } else {
      assert (lengths + [n])[1..] == lengths[1..] + [n];
      OneMoreRun(lengths[1..], n, !level);
      Assoc(Repeat(level, lengths[0]), Runs(lengths[1..], !level), Repeat(LevelAfter(lengths, level), n));
    }
  }

  /** How far a level lasts. */
  function RunLength(samples: seq<bool>, level: bool): (n: nat)
    ensures n <= |samples|
  {
    if samples == [] || samples[0] != level then 0 else 1 + RunLength(samples[1..], level)
  }

  /** The pulses that samples stand for. */
  function PulsesOf(samples: seq<bool>, level: bool): seq<nat>
    decreases |samples|, if samples != [] && samples[0] != level then 1 else 0
  {
    if samples == [] then []
    else
      var n := RunLength(samples, level);
      [n] + PulsesOf(samples[n..], !level)
  }

  lemma {:induction false} RunIsMeasured(n: nat, level: bool, rest: seq<bool>)
    requires rest != [] ==> rest[0] != level
    ensures RunLength(Repeat(level, n) + rest, level) == n
  {
    if n > 0 {
      assert (Repeat(level, n) + rest)[1..] == Repeat(level, n - 1) + rest;
      RunIsMeasured(n - 1, level, rest);
    } else {
      assert Repeat(level, 0) + rest == rest;
    }
  }

  /** No pulse is lost in the samples, as long as none is shorter than one of them. */
  lemma {:induction false} PulsesComeBack(lengths: seq<nat>, level: bool)
    requires forall i :: 0 <= i < |lengths| ==> lengths[i] > 0
    ensures PulsesOf(Runs(lengths, level), level) == lengths
  {
    if lengths != [] {
      var n, rest := lengths[0], Runs(lengths[1..], !level);
      StartsWith(lengths[1..], !level);
      RunIsMeasured(n, level, rest);
      var samples := Repeat(level, n) + rest;
      assert samples[n..] == rest;
      PulsesComeBack(lengths[1..], !level);
      assert lengths == [n] + lengths[1..];
    }
  }

  lemma StartsWith(lengths: seq<nat>, level: bool)
    requires forall i :: 0 <= i < |lengths| ==> lengths[i] > 0
    ensures Runs(lengths, level) != [] ==> Runs(lengths, level)[0] == level
  {
  }

  /** The samples for some times of edges: what is short of a whole sample is carried to the next edge. */
  function Samples(times: seq<nat>, balance: nat, scale: nat): (r: seq<nat>)
    requires scale > 0
    ensures |r| == |times|
  {
    if times == [] then []
    else
      var due := (balance + times[0]) % DWORD_MODULUS;
      [due / scale] + Samples(times[1..], due % scale, scale)
  }

  lemma NextSample(times: seq<nat>, i: nat, balance: nat, scale: nat)
    requires scale > 0 && i < |times|
    ensures var due := (balance + times[i]) % DWORD_MODULUS;
            Samples(times[i..], balance, scale) == [due / scale] + Samples(times[i + 1..], due % scale, scale)
  {
    assert times[i..][1..] == times[i + 1..];
  }

  lemma NoSamples(balance: nat, scale: nat)
    requires scale > 0
    ensures Samples([], balance, scale) == []
  {
  }

  /** Played pulses of a recording are whole samples. */
  lemma {:induction false} ScaledPulsesAreWhole(pulses: seq<nat>, scale: nat)
    requires scale > 0 && Csw.InRange(pulses, scale)
    ensures Samples(Csw.Scaled(pulses, scale), 0, scale) == pulses
  {
    hide Csw.Scaled, Samples;
    var times: seq<nat> := Csw.Scaled(pulses, scale);
    if pulses != [] {
      ScaledPulsesAreWhole(pulses[1..], scale);
      assert times == [scale * pulses[0]] + Csw.Scaled(pulses[1..], scale) by { FirstScaled(pulses, scale); }
      FirstSample(pulses[0], Csw.Scaled(pulses[1..], scale), scale);
      assert pulses == [pulses[0]] + pulses[1..];
    }
  }

  lemma FirstScaled(pulses: seq<nat>, scale: nat)
    requires pulses != [] && scale * pulses[0] < DWORD_MODULUS
    ensures Csw.Scaled(pulses, scale) == [scale * pulses[0]] + Csw.Scaled(pulses[1..], scale)
  {
    InDword(scale * pulses[0]);
  }

  lemma InDword(x: nat)
    requires x < DWORD_MODULUS
    ensures x % DWORD_MODULUS == x
  {
  }

  lemma FirstSample(n: nat, rest: seq<nat>, scale: nat)
    requires scale > 0 && scale * n < DWORD_MODULUS
    ensures Samples([scale * n] + rest, 0, scale) == [n] + Samples(rest, 0, scale)
  {
    var times := [scale * n] + rest;
    InDword(scale * n);
    WholeSamples(n, scale);
    assert times[1..] == rest;
  }

  lemma WholeSamples(n: nat, scale: nat)
    requires scale > 0
    ensures scale * n / scale == n && scale * n % scale == 0
  {
    var q, r := scale * n / scale, scale * n % scale;
    assert scale * n == scale * q + r;
    Difference(scale, n, q);
  }

  // ----- Samples in bytes -----

  /** What a part of a byte is worth, its first bit at the top. */
  predicate PartOf(part: seq<bool>, current: nat) {
    |part| < 8 && current == Doubled(BinaryValue(part), 8 - |part|)
  }

  lemma {:induction false} DoubledSum(a: nat, b: nat, n: nat)
    ensures Doubled(a + b, n) == Doubled(a, n) + Doubled(b, n)
  {
    if n > 0 {
      DoubledSum(a, b, n - 1);
    }
  }

  /** Setting the next bit. */
  lemma NextBit(part: seq<bool>, current: nat, x: bool)
    requires PartOf(part, current)
    ensures current + (if x then Doubled(1, 7 - |part|) else 0) == Doubled(BinaryValue(part + [x]), 7 - |part|)
  {
    var n := 7 - |part|;
    ValueOfOneMore(part, x);
    DoubledOnce(BinaryValue(part), n);
    DoubledSum(2 * BinaryValue(part), Digit(x), n);
    NothingDoubled(n);
  }

  lemma {:induction false} DoubledOnce(a: nat, n: nat)
    ensures Doubled(a, n + 1) == Doubled(2 * a, n)
  {
    if n > 0 {
      DoubledOnce(a, n - 1);
    }
  }

  lemma {:induction false} NothingDoubled(n: nat)
    ensures Doubled(0, n) == 0
  {
    if n > 0 {
      NothingDoubled(n - 1);
    }
  }

  lemma WholeByte(part: seq<bool>, current: nat)
    requires |part| == 8 && current == BinaryValue(part)
    ensures current < 256 && Bits(current, 8) == part
  {
    hide Bits, BinaryValue, SymbolIndex;
    SymbolIndexIsValue(part);
    Warajevo.ByteIsUnpacked(part, 8);
  }

  lemma {:induction false} StreamOneMore(bytes: seq<byte>, b: byte, i: nat)
    requires i <= |bytes|
    ensures StreamBits(bytes + [b], i) == StreamBits(bytes, i) + Bits(b, 8)
    decreases |bytes| - i
  {
    if i < |bytes| {
      StreamOneMore(bytes, b, i + 1);
      Assoc(Bits(bytes[i], 8), StreamBits(bytes, i + 1), Bits(b, 8));
    } else {
      assert StreamBits(bytes + [b], i + 1) == [];
      assert Bits(b, 8) + [] == Bits(b, 8);
    }
  }

  /** As many samples as an int counts down from a dword: a length from 2^31 on is taken for a negative one. */
  function Counted(length: nat): nat {
    if length < 0x8000_0000 then length else 0
  }

  function AllCounted(lengths: seq<nat>): (r: seq<nat>)
    ensures |r| == |lengths| && forall i :: 0 <= i < |r| ==> r[i] == Counted(lengths[i])
  {
    seq(|lengths|, i requires 0 <= i < |lengths| => Counted(lengths[i]))
  }

  class RleWriter {
    var bytes: seq<byte>
    var current: nat
    var bitsUsed: nat
    var level: bool
    ghost var part: seq<bool>

    constructor ()
      ensures Valid() && Written() == [] && !level
    {
      bytes, current, bitsUsed, level, part := [], 0, 0, false, [];
      new;
      NothingDoubled(8);
    }

    ghost predicate Valid()
      reads this
    {
      PartOf(part, current) && |part| == bitsUsed
    }

    /** All samples so far. */
    ghost function Written(): seq<bool>
      reads this
    {
      StreamBits(bytes, 0) + part
    }

    method WriteBit()
      requires Valid()
      modifies this`bytes, this`current, this`bitsUsed, this`part
      ensures Valid() && Written() == old(Written()) + [level]
    {
      hide StreamBits, Bits, Doubled, BinaryValue;
      NextBit(part, current, level);
      Assoc(StreamBits(bytes, 0), part, [level]);
      if level {
        current := current + Doubled(1, 7 - bitsUsed);
      }
      part := part + [level];
      bitsUsed := bitsUsed + 1;
      if bitsUsed == 8 {
        NotDoubled(BinaryValue(part));
        WholeByte(part, current);
        StreamOneMore(bytes, current, 0);
        bytes := bytes + [current];
        bitsUsed, current, part := 0, 0, [];
        NoValue();
        NothingDoubled(8);
      }
    }

    /** write_pulse. */
    method WritePulse(length: dword)
      requires Valid()
      modifies this
      ensures Valid() && level == !old(level)
      ensures Written() == old(Written()) + Repeat(old(level), Counted(length))
    {
      hide StreamBits, PartOf;
      var i: int := if length < 0x8000_0000 then length else length - DWORD_MODULUS;
      ghost var start, whole := Written(), if i > 0 then i else 0;
      var n := 0;
      assert start + Repeat(level, 0) == start;
      while i > 0
        invariant Valid() && level == old(level)
        invariant 0 <= n <= whole && (i > 0 ==> i == whole - n) && (i <= 0 ==> n == whole)
        invariant Written() == start + Repeat(level, n)
      {
        Assoc(start, Repeat(level, n), [level]);
        assert Repeat(level, n) + [level] == Repeat(level, n + 1);
        WriteBit();
        i, n := i - 1, n + 1;
      }
      level := !level;
    }

    /** tzx_write_rle, given the times of the edges of the block: a block of samples, if there is any sample. */
    method WriteRle(times: seq<nat>, scale: dword) returns (block: Option<Tzx.Block>)
      requires Valid() && Written() == [] && !level && scale > 0
      modifies this
      ensures var samples := Runs(AllCounted(Samples(times, 0, scale)), false);
              if samples == [] then block == None
              else
                && block.Some? && block.value.RawData? && block.value.bitLength == scale
                && block.value.pause == block.value.tstates == 0
                && HoldsSamples(block.value.data, block.value.bits, samples)
    {
      hide StreamBits, PartOf, Doubled, Runs, LevelAfter, HoldsSamples, Samples, Counted;
      var i, balance: nat := 0, 0;
      ghost var done: seq<nat> := [];
      NoRuns();
      assert [] + Samples(times, 0, scale) == Samples(times, 0, scale);
      assert times[0..] == times;
      while i < |times|
        invariant i <= |times| && Valid()
        invariant Samples(times, 0, scale) == done + Samples(times[i..], balance, scale)
        invariant |done| == i
        invariant Written() == Runs(AllCounted(done), false) && level == LevelAfter(AllCounted(done), false)
      {
        NextSample(times, i, balance, scale);
        balance := (balance + times[i]) % DWORD_MODULUS;
        var pulseLength := balance / scale;
        Assoc(done, [pulseLength], Samples(times[i + 1..], balance % scale, scale));
          balance := balance % scale;
        OneMoreRun(AllCounted(done), Counted(pulseLength), false);
        assert AllCounted(done + [pulseLength]) == AllCounted(done) + [Counted(pulseLength)];
        WritePulse(pulseLength);
        done := done + [pulseLength];
        i := i + 1;
      }
      NoSamples(balance, scale);
      assert done + [] == done;
      Held(bytes, current, part);
      if |bytes| == 0 && bitsUsed == 0 {
        return None;
      }
      if bitsUsed > 0 {
        block := Some(Tzx.RawData(scale, 0, 0, bitsUsed, bytes + [current]));
      } else {
        block := Some(Tzx.RawData(scale, 0, 0, 8, bytes));
      }
    }
  }

  /** The bytes are the samples, and as many bits of the last one as are used. */
  predicate HoldsSamples(data: seq<byte>, bits: nat, samples: seq<bool>) {
    && data != [] && 1 <= bits <= 8
    && |samples| == 8 * (|data| - 1) + bits
    && samples <= StreamBits(data, 0)
  }

  lemma NoRuns()
    ensures Runs([], false) == [] && LevelAfter([], false) == false
  {
  }

  lemma {:induction false} StreamLength(bytes: seq<byte>, i: nat)
    requires i <= |bytes|
    ensures |StreamBits(bytes, i)| == 8 * (|bytes| - i)
    decreases |bytes| - i
  {
    if i < |bytes| {
      StreamLength(bytes, i + 1);
    }
  }

  lemma PartIsTop(part: seq<bool>, current: nat)
    requires PartOf(part, current) && part != []
    ensures current < 256 && part <= Bits(current, 8)
  {
    hide Bits;
    var zeros := Repeat(false, 8 - |part|);
    PaddedValue(part, 8 - |part|);
    WholeByte(part + zeros, current);
  }

  lemma {:induction false} PaddedValue(part: seq<bool>, n: nat)
    ensures BinaryValue(part + Repeat(false, n)) == Doubled(BinaryValue(part), n)
  {
    if n > 0 {
      assert part + Repeat(false, n) == part + Repeat(false, n - 1) + [false];
      ValueOfOneMore(part + Repeat(false, n - 1), false);
      PaddedValue(part, n - 1);
    } else {
      assert part + [] == part;
    }
  }

  /** What is written when there are no more samples. */
  lemma Held(bytes: seq<byte>, current: nat, part: seq<bool>)
    requires PartOf(part, current)
    ensures var samples := StreamBits(bytes, 0) + part;
            && (samples == [] <==> bytes == [] && part == [])
            && (part != [] ==> current < 256 && HoldsSamples(bytes + [current], |part|, samples))
            && (part == [] && bytes != [] ==> HoldsSamples(bytes, 8, samples))
  {
    hide StreamBits, Bits, PartOf;
    assert |part| < 8 by { PartIsShort(part, current); }
    StreamLength(bytes, 0);
    if part != [] {
      PartIsTop(part, current);
      StreamOneMore(bytes, current, 0);
    } else {
      assert StreamBits(bytes, 0) + [] == StreamBits(bytes, 0);
    }
  }

  lemma PartIsShort(part: seq<bool>, current: nat)
    requires PartOf(part, current)
    ensures |part| < 8
  {
  }

  lemma NotDoubled(a: nat)
    ensures Doubled(a, 0) == a
  {
  }

  lemma NoValue()
    ensures BinaryValue([]) == 0
  {
  }

  // ----- Recordings that become samples -----

  /** The pulses of a recording, played and turned into samples, are all there in the samples. */
  lemma RecordingBecomesSamples(pulses: seq<nat>, scale: nat)
    requires scale > 0 && Csw.InRange(pulses, scale)
    ensures Samples(Csw.Scaled(pulses, scale), 0, scale) == pulses
    ensures (forall i :: 0 <= i < |pulses| ==> pulses[i] < 0x8000_0000) ==> AllCounted(pulses) == pulses
    ensures PulsesOf(Runs(pulses, false), false) == pulses
  {
    ScaledPulsesAreWhole(pulses, scale);
    PulsesComeBack(pulses, false);
  }

  /** The bytes in front of the last one, and the bits of that one. */
  lemma {:induction false} AllButLastByte(r: RawBlock, i: nat)
    requires ValidRaw(r) && i < |r.data|
    ensures var n, last := |r.data| - 1, r.data[|r.data| - 1];
            && StreamBits(r.data, i) == StreamBits(r.data[..n], i) + Bits(last, 8)
            && SamplesFrom(r, i) == StreamBits(r.data[..n], i) + Bits(last, 8)[8 - r.bitsInLastByte..]
    decreases |r.data| - i
  {
    var n := |r.data| - 1;
    if i < n {
      AllButLastByte(r, i + 1);
      assert Bits(r.data[i], 8)[0..] == Bits(r.data[i], 8);
      Assoc(Bits(r.data[i], 8), StreamBits(r.data[..n], i + 1), Bits(r.data[n], 8));
      Assoc(Bits(r.data[i], 8), StreamBits(r.data[..n], i + 1), Bits(r.data[n], 8)[8 - r.bitsInLastByte..]);
    } else {
      assert StreamBits(r.data, n) == Bits(r.data[n], 8) + [];
      assert SamplesFrom(r, n) == Bits(r.data[n], 8)[8 - r.bitsInLastByte..] + [];
    }
  }

  /** The bits of the last byte that are played are those that were written. */
  predicate LastBitsAgree(r: RawBlock)
    requires ValidRaw(r) && r.data != []
  {
    var bits := Bits(r.data[|r.data| - 1], 8);
    bits[8 - r.bitsInLastByte..] == bits[..r.bitsInLastByte]
  }

  /** A block of samples plays those samples exactly when the last bits of its last byte are the first ones. */
  lemma HeldSamplesPlay(r: RawBlock, samples: seq<bool>)
    requires ValidRaw(r) && HoldsSamples(r.data, r.bitsInLastByte, samples)
    ensures SamplesFrom(r, 0) == samples <==> LastBitsAgree(r)
  {
    hide StreamBits, Bits, SamplesFrom;
    var n := |r.data| - 1;
    var bits, front := Bits(r.data[n], 8), StreamBits(r.data[..n], 0);
    AllButLastByte(r, 0);
    StreamLength(r.data[..n], 0);
    var k: nat := r.bitsInLastByte;
    assert samples == (front + bits)[..8 * n + k] == front + bits[..k];
    if front + bits[8 - k..] == front + bits[..k] {
      assert bits[8 - k..] == (front + bits[8 - k..])[8 * n..];
      assert bits[..k] == (front + bits[..k])[8 * n..];
    }
  }

  lemma SamplesStartLow(data: seq<byte>, bits: nat, pulses: seq<nat>)
    requires pulses != [] && 0 !in pulses && HoldsSamples(data, bits, Runs(pulses, false))
    ensures data != [] && data[0] < 128
  {
    assert Repeat(false, pulses[0])[0] == false;
    var k := 8;
    assert Bits(data[0], k) == [data[0] >= 128] + Bits(ShiftLeft(data[0]), k - 1);
    assert StreamBits(data, 0)[0] == Runs(pulses, false)[0] == false;
  }

  lemma RunsAreUnique(one: seq<nat>, other: seq<nat>, level: bool)
    requires 0 !in one && 0 !in other && Runs(one, level) == Runs(other, level)
    ensures one == other
  {
    PulsesComeBack(one, level);
    PulsesComeBack(other, level);
  }

  /** A recording that is written as samples and played from them gives one sample, and then the pulses of the
      recording, exactly when the last bits of the last byte are its first ones: the writer fills the byte from the
      top, and the player takes it from the bottom. */
  lemma RecordingPlaysBack(pulses: seq<nat>, r: RawBlock)
    requires pulses != [] && 0 !in pulses && ValidRaw(r)
    requires HoldsSamples(r.data, r.bitsInLastByte, Runs(pulses, false))
    ensures RawRuns(r) == [1] + pulses <==> LastBitsAgree(r)
  {
    hide Runs, RunsAhead, SamplesFrom, HoldsSamples, LastBitsAgree;
    var samples := SamplesFrom(r, 0);
    HeldSamplesPlay(r, Runs(pulses, false));
    SamplesStartLow(r.data, r.bitsInLastByte, pulses);
    SomeSamples(r, pulses);
    FirstRun(samples, true);
    if !samples[0] {
      RunsSpellTheSamples(samples[1..], false);
      var runs := RunsAhead(samples[1..], true);
      assert RawRuns(r) == [1] + runs;
      assert samples == [false] + samples[1..];
      SameParts(1, runs, 1, pulses);
      if samples == Runs(pulses, false) {
        RunsAreUnique(runs, pulses, false);
      }
    } else {
      assert RawRuns(r)[0] == Scan(samples, false) > 1;
      assert ([1] + pulses)[0] == 1;
    }
  }

  lemma SomeSamples(r: RawBlock, pulses: seq<nat>)
    requires pulses != [] && 0 !in pulses && ValidRaw(r) && r.data != []
    ensures SamplesFrom(r, 0) != [] && Runs(pulses, false) != [] && !Runs(pulses, false)[0]
  {
    NumberOfSamples(r, 0);
    assert Repeat(false, pulses[0])[0] == false;
  }

  /** A byte of low samples and one high sample: the player takes the ninth sample from the bottom of its byte. */
  lemma NinthSampleIsLost()
    ensures var r := RawBlock([0, 0x80], 1, 79, 0);
            && HoldsSamples(r.data, r.bitsInLastByte, Runs([8, 1], false))
            && !LastBitsAgree(r) && RawRuns(r) != [1, 8, 1]
  {
    var r := RawBlock([0, 0x80], 1, 79, 0);
    var k := 8;
    NoBits(k);
    assert Bits(0x80, k) == [true] + Bits(0, k - 1);
    NoBits(k - 1);
    var data: seq<byte> := [0, 0x80];
    assert StreamBits(data, 0) == Bits(0, k) + (Bits(0x80, k) + []);
    assert Runs([8, 1], false) == Repeat(false, 8) + Runs([1], true);
    assert [8, 1][1..] == [1] && [1][1..] == [] && Runs([1], true) == Repeat(true, 1) + [];
    assert Runs([8, 1], false) <= StreamBits(data, 0);
    assert Bits(0x80, k)[7..][0] == false && Bits(0x80, k)[..1][0] == true;
    RecordingPlaysBack([8, 1], r);
    assert [1] + [8, 1] == [1, 8, 1];
  }

  lemma {:induction false} NoBits(n: nat)
    ensures Bits(0, n) == Repeat(false, n)
    decreases n
  {
    if n > 0 {
      NoBits(n - 1);
      assert Repeat(false, n) == [false] + Repeat(false, n - 1);
    }
  }
}
