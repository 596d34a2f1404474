/** Blocks of samples (tape.c): raw data, one bit a sample, and the run lengths of a compressed recording. */
module SampledData {
  import opened Bytes
  import opened TapeEdges

  // ----- Raw data -----

  datatype RawBlock = RawBlock(data: seq<byte>, bitsInLastByte: size, bitLength: dword, pause: dword)

  /** The player shifts the last byte by the bits that it does not have, and counts the samples of a run in an int. */
  predicate ValidRaw(r: RawBlock) {
    r.data != [] ==> 1 <= r.bitsInLastByte <= 8 && |r.data| < 0x1000_0000
  }

  /** Of the last byte, it is the lowest bits that are played. */
  function FirstSample(r: RawBlock, i: nat): (k: nat)
    requires ValidRaw(r) && i < |r.data|
    ensures k <= 7
  {
    if i == |r.data| - 1 then 8 - r.bitsInLastByte else 0
  }

  function SamplesFrom(r: RawBlock, i: nat): seq<bool>
    requires ValidRaw(r)
    decreases |r.data| - i
  {
    if i >= |r.data| then [] else Bits(r.data[i], 8)[FirstSample(r, i)..] + SamplesFrom(r, i + 1)
  }

  lemma {:induction false} NumberOfSamples(r: RawBlock, i: nat)
    requires ValidRaw(r) && i < |r.data|
    ensures |SamplesFrom(r, i)| == 8 * (|r.data| - i) - (8 - r.bitsInLastByte)
    decreases |r.data| - i
  {
    if i + 1 < |r.data| {
      NumberOfSamples(r, i + 1);
    }
  }

  /** The samples from the present one on to the next that is at a level, or past the end. */
  function Scan(ahead: seq<bool>, level: bool): (n: nat)
    ensures 1 <= n <= |ahead| + 1
  {
    if ahead == [] || ahead[0] == level then 1 else 1 + Scan(ahead[1..], level)
  }

  /** The runs of samples from the present one on: the next run starts where the samples turn to a level. */
  function RunsAhead(ahead: seq<bool>, level: bool): (runs: seq<nat>)
    ensures runs != []
    decreases |ahead|
  {
    var n := Scan(ahead, level);
    [n] + if n <= |ahead| then RunsAhead(ahead[n..], !level) else []
  }

  /** Runs of samples, turning over after each. */
  function Runs(lengths: seq<nat>, level: bool): seq<bool> {
    if lengths == [] then [] else Repeat(level, lengths[0]) + Runs(lengths[1..], !level)
  }

  lemma ScanStep(ahead: seq<bool>, level: bool)
    ensures Scan(ahead, level) == if ahead == [] || ahead[0] == level then 1 else 1 + Scan(ahead[1..], level)
  {
  }

  lemma {:induction false} ScanStops(ahead: seq<bool>, level: bool)
    ensures var n := Scan(ahead, !level);
            && (forall k :: 0 <= k < n - 1 ==> ahead[k] == level)
            && (n <= |ahead| ==> ahead[n - 1] == !level)
  {
    if ahead != [] && ahead[0] == level {
      ScanStops(ahead[1..], level);
      var n := Scan(ahead[1..], !level);
      assert forall k :: 0 < k < n ==> ahead[k] == ahead[1..][k - 1];
    }
  }

  lemma RunAndRest(ahead: seq<bool>, level: bool, n: nat)
    requires 1 <= n <= |ahead| + 1 && (forall k :: 0 <= k < n - 1 ==> ahead[k] == level)
    requires n <= |ahead| ==> ahead[n - 1] == !level
    ensures [level] + ahead == Repeat(level, n) + if n <= |ahead| then [!level] + ahead[n..] else []
  {
  }

  lemma FirstRun(ahead: seq<bool>, level: bool)
    ensures var n, runs := Scan(ahead, !level), RunsAhead(ahead, !level);
            && n > 0 && runs == [n] + (if n <= |ahead| then RunsAhead(ahead[n..], level) else [])
            && Runs(runs, level) == Repeat(level, n)
                                    + if n <= |ahead| then Runs(RunsAhead(ahead[n..], level), !level) else []
  {
    var n, runs := Scan(ahead, !level), RunsAhead(ahead, !level);
    assert runs[1..] == if n <= |ahead| then RunsAhead(ahead[n..], level) else [];
  }

  /** The runs spell the samples, and none of them is empty. */
  lemma {:induction false} RunsSpellTheSamples(ahead: seq<bool>, level: bool)
    ensures Runs(RunsAhead(ahead, !level), level) == [level] + ahead
    ensures 0 !in RunsAhead(ahead, !level)
    decreases |ahead|
  {
    hide Runs, RunsAhead, Repeat;
    var n := Scan(ahead, !level);
    ScanStops(ahead, level);
    RunAndRest(ahead, level, n);
    FirstRun(ahead, level);
    if n <= |ahead| {
      RunsSpellTheSamples(ahead[n..], !level);
    }
  }

  lemma {:induction false} RunsAddUp(ahead: seq<bool>, level: bool)
    ensures Sum(RunsAhead(ahead, level)) == |ahead| + 1
    decreases |ahead|
  {
    var n := Scan(ahead, level);
    if n <= |ahead| {
      RunsAddUp(ahead[n..], !level);
      assert RunsAhead(ahead, level)[1..] == RunsAhead(ahead[n..], !level);
    } else {
      assert RunsAhead(ahead, level) == [n] && [n][1..] == [];
    }
  }

  /** How long some samples last, in a dword. */
  function RunTime(n: nat, bitLength: dword): dword {
    n * bitLength % DWORD_MODULUS
  }

  /** An edge is flagged with the opposite of the run after it. */
  function RunLevel(last: bool): set<Flag> {
    if last then {LevelLow} else {LevelHigh}
  }

  /** The edges of some runs, given the level that the first is scanned for. The last run has none after it, and is
      flagged like the one before it. */
  function RunEdges(runs: seq<nat>, last: bool, bitLength: dword): (r: seq<Edge>)
    requires runs != []
    ensures |r| == |runs|
  {
    var tstates := RunTime(runs[0], bitLength);
    if |runs| == 1 then [Edge(tstates, RunLevel(last))]
    else [Edge(tstates, RunLevel(!last))] + RunEdges(runs[1..], !last, bitLength)
  }

  function TopBit(r: RawBlock): bool
    requires r.data != []
  {
    r.data[0] >= 128
  }

  function RawRuns(r: RawBlock): (runs: seq<nat>)
    requires ValidRaw(r) && r.data != []
    ensures runs != []
  {
    RunsAhead(SamplesFrom(r, 0), TopBit(r))
  }

  function RawEdges(r: RawBlock): seq<Edge>
    requires ValidRaw(r)
  {
    (if r.data == [] then [] else RunEdges(RawRuns(r), !TopBit(r), r.bitLength)) + [PauseEdge(r.pause)]
  }

  lemma {:induction false} RunEdgeAt(runs: seq<nat>, last: bool, bitLength: dword, k: nat)
    requires k < |runs|
    ensures RunEdges(runs, last, bitLength)[k].tstates == runs[k] * bitLength % DWORD_MODULUS
    ensures RunEdges(runs, last, bitLength)[k].flags
         == {if (last <==> k % 2 == 0) <==> k + 1 < |runs| then LevelHigh else LevelLow}
  {
    if k > 0 {
      RunEdgeAt(runs[1..], !last, bitLength, k - 1);
    }
  }

  /** The polarity of raw data. Run k of the runs forces the signal low when the samples start high and k is even, or
      start low and k is odd, and high otherwise; the last run forces what the one before it does. Behind the runs
      comes the pause, which forces nothing. */
  lemma RawPolarity(r: RawBlock, k: nat)
    requires ValidRaw(r) && r.data != [] && k < |RawRuns(r)|
    ensures |RawEdges(r)| == |RawRuns(r)| + 1
    ensures RawEdges(r)[k].tstates == RawRuns(r)[k] * r.bitLength % DWORD_MODULUS
    ensures var n := if k + 1 < |RawRuns(r)| then k else k - 1;
            RawEdges(r)[k].flags == {if r.data[0] >= 128 <==> n % 2 == 0 then LevelLow else LevelHigh}
    ensures RawEdges(r)[|RawRuns(r)|] == Edge(r.pause, if r.pause == 0 then {NoEdge} else {})
  {
    hide RawRuns, RunEdges;
    RunEdgeAt(RawRuns(r), !TopBit(r), r.bitLength, k);
  }

  /** A raw data block of more than one byte plays one sample, and then the runs that spell its samples. */
  lemma RawDataSpellsItsSamples(r: RawBlock)
    requires ValidRaw(r) && (|r.data| > 1 || (|r.data| == 1 && r.bitsInLastByte == 8))
    ensures RawRuns(r)[0] == 1 && |RawRuns(r)| > 1
    ensures Runs(RawRuns(r)[1..], TopBit(r)) == SamplesFrom(r, 0)
  {
    var samples := SamplesFrom(r, 0);
    var k := 8;
    assert Bits(r.data[0], k) == [TopBit(r)] + Bits(ShiftLeft(r.data[0]), k - 1);
    assert samples[0] == TopBit(r);
    assert Scan(samples, TopBit(r)) == 1;
    RunsSpellTheSamples(samples[1..], TopBit(r));
  }

  /** The length that tape_block.c works out for raw data. */
  function RawLength(r: RawBlock): dword
    requires ValidRaw(r) && r.data != []
  {
    Wrap((8 * |r.data| - (8 - r.bitsInLastByte)) * r.bitLength + r.pause)
  }

  lemma WrapSum(a: int, b: int, c: int)
    requires a % DWORD_MODULUS == b % DWORD_MODULUS
    ensures (a + c) % DWORD_MODULUS == (b + c) % DWORD_MODULUS
  {
    var q := a / DWORD_MODULUS - b / DWORD_MODULUS;
    assert a + c == (b + c) + DWORD_MODULUS * q;
    Multiple(b + c, q);
  }

  lemma Multiple(x: int, q: int)
    ensures (x + DWORD_MODULUS * q) % DWORD_MODULUS == x % DWORD_MODULUS
  {
  }

  lemma {:induction false} RunEdgesDuration(runs: seq<nat>, last: bool, bitLength: dword)
    requires runs != []
    ensures Wrap(Duration(RunEdges(runs, last, bitLength))) == Wrap(Sum(runs) * bitLength)
  {
    hide Wrap, RunTime;
    var first := RunTime(runs[0], bitLength);
    TimeOfRun(runs[0], bitLength);
    if |runs| == 1 {
      assert runs[1..] == [];
      assert Duration(RunEdges(runs, last, bitLength)) == first;
      assert Sum(runs) == runs[0];
    } else {
      var rest := RunEdges(runs[1..], !last, bitLength);
      RunEdgesDuration(runs[1..], !last, bitLength);
      DurationStep(Edge(first, RunLevel(!last)), rest);
      WrapBoth(first, Duration(rest), runs[0] * bitLength, Sum(runs[1..]) * bitLength);
      Distributes(runs[0], Sum(runs[1..]), bitLength);
    }
  }

  lemma TimeOfRun(n: nat, bitLength: dword)
    ensures Wrap(RunTime(n, bitLength)) == Wrap(n * bitLength)
  {
  }

  lemma WrapBoth(a: int, b: int, x: int, y: int)
    requires Wrap(a) == Wrap(x) && Wrap(b) == Wrap(y)
    ensures Wrap(a + b) == Wrap(x + y)
  {
    WrapSum(a, x, b);
    WrapSum(b, y, x);
  }

  lemma Distributes(a: int, b: int, c: int)
    ensures (a + b) * c == a * c + b * c
  {
  }

  lemma DwordIsZero(x: dword, y: int)
    ensures (x + y) % DWORD_MODULUS == y % DWORD_MODULUS <==> x == 0
  {
    var a, b := (x + y) / DWORD_MODULUS, y / DWORD_MODULUS;
    if (x + y) % DWORD_MODULUS == y % DWORD_MODULUS {
      assert x == DWORD_MODULUS * (a - b);
    }
  }

  lemma RawEdgesDuration(r: RawBlock)
    requires ValidRaw(r) && r.data != []
    ensures Wrap(Duration(RawEdges(r))) == Wrap((|SamplesFrom(r, 0)| + 1) * r.bitLength + r.pause)
  {
    hide Wrap, RawRuns, RunEdges, SamplesFrom;
    var runs, last := RawRuns(r), !TopBit(r);
    var edges := RunEdges(runs, last, r.bitLength);
    assert Sum(runs) == |SamplesFrom(r, 0)| + 1 by { RunsAddUp(SamplesFrom(r, 0), TopBit(r)); RawRunsAre(r); }
    RunEdgesDuration(runs, last, r.bitLength);
    DurationAppend(edges, [PauseEdge(r.pause)]);
    WrapBoth(Duration(edges), r.pause, Sum(runs) * r.bitLength, r.pause);
  }

  lemma RawRunsAre(r: RawBlock)
    requires ValidRaw(r) && r.data != []
    ensures RawRuns(r) == RunsAhead(SamplesFrom(r, 0), TopBit(r))
  {
  }

  lemma OneDwordMore(x: int, d: dword)
    ensures Wrap(x + d) == Wrap(Wrap(x) + d)
    ensures Wrap(x + d) == Wrap(x) <==> d == 0
  {
    WrapSum(x % DWORD_MODULUS, x, d);
    DwordIsZero(d, x);
  }

  lemma OneSampleMore(n: int, bitLength: dword, pause: dword)
    ensures Wrap((n + 1) * bitLength + pause) == Wrap(Wrap(n * bitLength + pause) + bitLength)
    ensures Wrap((n + 1) * bitLength + pause) == Wrap(n * bitLength + pause) <==> bitLength == 0
  {
    hide Wrap;
    Distributes(n, 1, bitLength);
    OneDwordMore(n * bitLength + pause, bitLength);
  }

  /** Raw data lasts one sample longer than the length that is worked out for it, so the two never agree, unless the
      samples take no time. */
  lemma RawDataLastsLonger(r: RawBlock)
    requires ValidRaw(r) && r.data != []
    ensures Wrap(Duration(RawEdges(r))) == Wrap(RawLength(r) + r.bitLength)
    ensures Wrap(Duration(RawEdges(r))) == RawLength(r) <==> r.bitLength == 0
  {
    hide Wrap, RawEdges, SamplesFrom;
    NumberOfSamples(r, 0);
    RawEdgesDuration(r);
    OneSampleMore(|SamplesFrom(r, 0)|, r.bitLength, r.pause);
  }

  lemma FirstInByte(r: RawBlock, i: nat)
    requires ValidRaw(r) && r.data != [] && i <= |r.data|
    ensures |r.data| < SIZE_MODULUS - 1 && r.bitsInLastByte <= 8
    ensures i == |r.data| ==> SamplesFrom(r, i) == []
    ensures i < |r.data| ==>
              var k := if i == |r.data| - 1 then 8 - r.bitsInLastByte else 0;
              && k <= 7
              && SamplesFrom(r, i) == [Bits(r.data[i], 8)[k]] + (Bits(r.data[i], 8)[k + 1..] + SamplesFrom(r, i + 1))
  {
    if i < |r.data| {
      var bits, k := Bits(r.data[i], 8), FirstSample(r, i);
      assert bits[k..] == [bits[k]] + bits[k + 1..];
      Assoc([bits[k]], bits[k + 1..], SamplesFrom(r, i + 1));
    }
  }

  lemma NextInByte(r: RawBlock, i: nat, k: nat)
    requires ValidRaw(r) && i < |r.data| && k <= 7
    ensures |r.data| < SIZE_MODULUS - 1
    ensures var bits, rest := Bits(r.data[i], 8), SamplesFrom(r, i + 1);
            bits[k + 1..] + rest == if k == 7 then rest else [bits[k + 1]] + (bits[k + 2..] + rest)
  {
    var bits, rest := Bits(r.data[i], 8), SamplesFrom(r, i + 1);
    if k < 7 {
      assert bits[k + 1..] == [bits[k + 1]] + bits[k + 2..];
      Assoc([bits[k + 1]], bits[k + 2..], rest);
    } else {
      assert bits[8..] + rest == rest;
    }
  }

  /** The state of a raw data block. */
  class RawPlayer {
    var paused: bool
    var bytesThrough: nat
    var bitsThrough: nat
    var lastBit: bool
    var bitTstates: dword

    constructor ()
    {
      paused, bytesThrough, bitsThrough, lastBit, bitTstates := true, 0, 0, false, 0;
    }

    /** At a sample, before the first, or behind the last. */
    ghost predicate Placed(r: RawBlock)
      reads this
    {
      && ValidRaw(r) && r.data != []
      && (bytesThrough <= |r.data| || bytesThrough == SIZE_MODULUS - 1)
      && (bytesThrough < |r.data| ==> bitsThrough <= 7)
      && (bytesThrough == SIZE_MODULUS - 1 ==> bitsThrough == 7)
    }

    ghost predicate Valid(r: RawBlock)
      reads this
    {
      ValidRaw(r) && (!paused ==> Placed(r) && bytesThrough != SIZE_MODULUS - 1)
    }

    /** The samples after the present one. */
    ghost function Ahead(r: RawBlock): seq<bool>
      requires Placed(r)
      reads this
    {
      if bytesThrough == SIZE_MODULUS - 1 then SamplesFrom(r, 0)
      else if bytesThrough == |r.data| then []
      else Bits(r.data[bytesThrough], 8)[bitsThrough + 1..] + SamplesFrom(r, bytesThrough + 1)
    }

    /** The run that was scanned last, and what comes after it. */
    ghost function Remaining(r: RawBlock): seq<Edge>
      requires Valid(r)
      reads this
    {
      if paused then [PauseEdge(r.pause)]
      else if bytesThrough == |r.data| then [Edge(bitTstates, RunLevel(lastBit)), PauseEdge(r.pause)]
      else
        [Edge(bitTstates, RunLevel(!lastBit))]
        + RunEdges(RunsAhead(Ahead(r), lastBit), !lastBit, r.bitLength) + [PauseEdge(r.pause)]
    }

    /** On to the next sample, or behind the last one. */
    method Advance(r: RawBlock)
      requires Placed(r) && bytesThrough != |r.data|
      modifies this`bytesThrough, this`bitsThrough
      ensures Placed(r) && bytesThrough != SIZE_MODULUS - 1
      ensures bytesThrough == |r.data| <==> old(Ahead(r)) == []
      ensures old(Ahead(r)) != [] ==>
                old(Ahead(r)) == [Bits(r.data[bytesThrough], 8)[bitsThrough]] + Ahead(r)
    {
      hide SamplesFrom, Bits, ValidRaw;
      ghost var ahead := Ahead(r);
      if bytesThrough < |r.data| {
        NextInByte(r, bytesThrough, bitsThrough);
      }
      bitsThrough := bitsThrough + 1;
      if bitsThrough == 8 {
        bytesThrough := if bytesThrough == SIZE_MODULUS - 1 then 0 else bytesThrough + 1;
        assert ahead == SamplesFrom(r, bytesThrough);
        FirstInByte(r, bytesThrough);
        if bytesThrough == |r.data| - 1 {
          bitsThrough := 8 - r.bitsInLastByte;
        } else {
          bitsThrough := 0;
        }
      }
    }

    /** The loop that steps through the data until there is an edge. */
    method ScanRun(r: RawBlock) returns (length: nat)
      requires Placed(r) && bytesThrough != |r.data|
      modifies this`bytesThrough, this`bitsThrough
      ensures Placed(r) && bytesThrough != SIZE_MODULUS - 1
      ensures length == Scan(old(Ahead(r)), lastBit)
      ensures if bytesThrough == |r.data| then length == |old(Ahead(r))| + 1
              else length <= |old(Ahead(r))| && Ahead(r) == old(Ahead(r))[length..]
    {
      hide SamplesFrom, Bits, Shifted, ValidRaw, Scan;
      length := 0;
      var more := true;
      ghost var whole, ahead := Ahead(r), Ahead(r);
      while more
        invariant Placed(r)
        invariant if bytesThrough == |r.data| then !more && length == |whole| + 1
                  else length <= |whole| && ahead == Ahead(r) == whole[length..]
        invariant !more ==> bytesThrough != SIZE_MODULUS - 1
        invariant Scan(whole, lastBit) == if more then length + Scan(ahead, lastBit) else length
        decreases |whole| + 1 - length, more
      {
        ghost var before := ahead;
        length := length + 1;
        Advance(r);
        ScanStep(before, lastBit);
        if bytesThrough == |r.data| {
          more := false;
        } else {
          ahead := before[1..];
          BitOf(r.data[bytesThrough], bitsThrough);
          more := (Shifted(r.data[bytesThrough], bitsThrough) >= 128) != lastBit;
        }
      }
    }

    /** libspectrum_tape_raw_data_next_bit. */
    method NextBit(r: RawBlock)
      requires Placed(r)
      modifies this
      ensures Valid(r)
      ensures if old(bytesThrough) == |r.data| then paused && bitTstates == old(bitTstates) && lastBit == old(lastBit)
              else
                var n := Scan(old(Ahead(r)), old(lastBit));
                && !paused && bitTstates == RunTime(n, r.bitLength) && lastBit == !old(lastBit)
                && (bytesThrough == |r.data| <==> n > |old(Ahead(r))|)
                && (n <= |old(Ahead(r))| ==> Ahead(r) == old(Ahead(r))[n..])
    {
      hide SamplesFrom, Bits, RunTime, Scan;
      if bytesThrough == |r.data| {
        paused := true;
        return;
      }
      paused := false;
      var length := ScanRun(r);
      bitTstates := RunTime(length, r.bitLength);
      lastBit := !lastBit;
    }

    method Init(r: RawBlock)
      requires ValidRaw(r)
      modifies this
      ensures Valid(r) && Remaining(r) == RawEdges(r)
    {
      if r.data != [] {
        paused, bytesThrough, bitsThrough := false, SIZE_MODULUS - 1, 7;
        lastBit := r.data[0] >= 128;
        NextBit(r);
        var last := !lastBit;
        assert last == TopBit(r);
        ScannedRun(SamplesFrom(r, 0), last, !last, r.bitLength);
      } else {
        paused := true;
      }
    }

    /** One edge: its run has been scanned, and now the next one is, whose level flags this edge. */
    method RawDataEdge(r: RawBlock) returns (edge: Edge, endOfBlock: bool)
      requires Valid(r)
      modifies this
      ensures Valid(r)
      ensures old(Remaining(r)) == [edge] + (if endOfBlock then [] else Remaining(r))
    {
      if !paused {
        var tstates := bitTstates;
        ghost var ahead, last := Ahead(r), lastBit;
        ghost var atEnd := bytesThrough == |r.data|;
        NextBit(r);
        edge := Edge(tstates, RunLevel(lastBit));
        endOfBlock := false;
        if !atEnd {
          ScannedRun(ahead, last, !last, r.bitLength);
          Assoc([edge], RunEdges(RunsAhead(ahead, last), !last, r.bitLength), [PauseEdge(r.pause)]);
        }
      } else {
        edge := PauseEdge(r.pause);
        endOfBlock := true;
      }
    }
  }

  /** Scanning one run leaves the runs behind it. */
  lemma ScannedRun(ahead: seq<bool>, level: bool, last: bool, bitLength: dword)
    requires last == !level
    ensures var n := Scan(ahead, level);
            var tstates := RunTime(n, bitLength);
            RunEdges(RunsAhead(ahead, level), last, bitLength)
            == if n > |ahead| then [Edge(tstates, RunLevel(last))]
               else [Edge(tstates, RunLevel(!last))] + RunEdges(RunsAhead(ahead[n..], !level), !last, bitLength)
  {
    var n := Scan(ahead, level);
    if n <= |ahead| {
      assert RunsAhead(ahead, level)[1..] == RunsAhead(ahead[n..], !level);
    }
  }

  /** Bit k of a byte is at the top when the byte is shifted left k times. */
  lemma {:induction false} BitOf(b: byte, k: nat)
    requires k < 8
    ensures Bits(b, 8)[k] == (Shifted(b, k) >= 128)
  {
    var n := 8;
    ShiftedBits(b, k, n - k);
    assert Bits(b, n) == Bits(b, k) + Bits(Shifted(b, k), n - k);
    assert Bits(Shifted(b, k), n - k)[0] == (Shifted(b, k) >= 128);
  }

  // ----- Playing run lengths -----

  datatype RlePulse = RlePulse(tstates: dword, next: nat)

  /** The pulse at an index of the data: a byte, or zero and four more of them. */
  function PulseAt(data: seq<byte>, i: nat, scale: nat): Result<RlePulse>
    requires i < |data|
  {
    if data[i] != 0 then Ok(RlePulse(scale * data[i] % DWORD_MODULUS, i + 1))
    else if i + 5 > |data| then Err(Logic)
    else Ok(RlePulse(scale * DwordAt(data, i + 1) % DWORD_MODULUS, i + 5))
  }

  /** All pulses from an index on, or the error that playing them runs into. */
  function PulsesFromIndex(data: seq<byte>, i: nat, scale: nat): (r: Result<seq<dword>>)
    requires i <= |data|
    decreases |data| - i
  {
    if i == |data| then Ok([])
    else match PulseAt(data, i, scale)
      case Err(e) => Err(e)
      case Ok(pulse) =>
        match PulsesFromIndex(data, pulse.next, scale)
        case Err(e) => Err(e)
        case Ok(rest) => Ok([pulse.tstates] + rest)
  }

  datatype RleBlock = RleBlock(data: seq<byte>, scale: nat)

  /** The first pulse is read without a look at the length, and the data ends with the last pulse. */
  predicate ValidRle(r: RleBlock) {
    r.data != [] && PulsesFromIndex(r.data, 0, r.scale).Ok?
  }

  function RleEdges(r: RleBlock): (edges: seq<Edge>)
    requires ValidRle(r)
  {
    PulseEdges(PulsesFromIndex(r.data, 0, r.scale).value)
  }

  class RlePlayer {
    var index: nat

    constructor ()
      ensures index == 0
    {
      index := 0;
    }

    ghost predicate Valid(r: RleBlock)
      reads this
    {
      index < |r.data| && PulsesFromIndex(r.data, index, r.scale).Ok?
    }

    ghost function Remaining(r: RleBlock): seq<Edge>
      requires Valid(r)
      reads this
    {
      PulseEdges(PulsesFromIndex(r.data, index, r.scale).value)
    }

    method Init(r: RleBlock)
      requires ValidRle(r)
      modifies this
      ensures Valid(r) && Remaining(r) == RleEdges(r)
    {
      index := 0;
    }

    /** rle_pulse_edge: one pulse, and whether it was the last. */
    method RlePulseEdge(data: seq<byte>, scale: nat) returns (r: Result<dword>, endOfBlock: bool)
      requires index < |data|
      modifies this
      ensures index <= |data| && (endOfBlock <==> index == |data|)
      ensures match old(PulsesFromIndex(data, index, scale))
              case Ok(pulses) => && pulses != [] && r == Ok(pulses[0])
                                 && PulsesFromIndex(data, index, scale) == Ok(pulses[1..])
              case Err(e) => r == Err(e) || (r.Ok? && PulsesFromIndex(data, index, scale) == Err(e))
    {
      if data[index] != 0 {
        r := Ok(scale * data[index] % DWORD_MODULUS);
        index := index + 1;
      } else {
        if index + 5 > |data| {
          return Err(Logic), false;
        }
        r := Ok(scale * DwordAt(data, index + 1) % DWORD_MODULUS);
        index := index + 5;
      }
      endOfBlock := index == |data|;
    }
  }
}
