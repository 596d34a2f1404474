/** Pulse sequences of .pzx files: how they are read (pzx_read.c), and how they are turned into .tzx blocks
    (tzx_write.c). */
module Pzx {
  import opened Bytes
  import opened TapeEdges
  import Tzx
  import TapeRun
  import TzxFile

  // ----- Reading -----

  datatype Pulse = Pulse(repeats: nat, length: nat)

  datatype Next = Next(pulse: Pulse, rest: seq<byte>)

  /** read_next_pulse: a word above 0x8000 counts repeats, and one from 0x8000 on starts a long length. */
  function NextPulse(d: seq<byte>): (r: Result<Next>)
    ensures r.Ok? ==> |r.value.rest| < |d|
  {
    if |d| < 2 then Err(Corrupt)
    else
      var first := WordAt(d, 0);
      if first <= 0x8000 then NextLength(1, first, d[2..])
      else if |d| < 4 then Err(Corrupt)
      else NextLength(first - 0x8000, WordAt(d, 2), d[4..])
  }

  function NextLength(repeats: nat, length: word, d: seq<byte>): (r: Result<Next>)
    ensures r.Ok? ==> |r.value.rest| <= |d|
  {
    if length < 0x8000 then Ok(Next(Pulse(repeats, length), d))
    else if |d| < 2 then Err(Corrupt)
    else
      var low: nat := WordAt(d, 0);
      Ok(Next(Pulse(repeats, 0x1_0000 * (length - 0x8000) + low), d[2..]))
  }

  function PulsesIn(d: seq<byte>): Result<seq<Pulse>>
    decreases |d|
  {
    if d == [] then Ok([])
    else
      var first := NextPulse(d);
      if first.Err? then Err(first.error)
      else
        var rest := PulsesIn(first.value.rest);
        if rest.Err? then rest else Ok([first.value.pulse] + rest.value)
  }

  predicate InField(p: Pulse) {
    1 <= p.repeats <= 0x7fff && p.length < 0x8000_0000
  }

  /** Whatever the bytes are, the pulses that are read from them have repeats and lengths that the format has room
      for; and so the player, which counts the repeats down, comes to an end. */
  lemma {:induction false} PulsesReadAreInField(d: seq<byte>)
    ensures PulsesIn(d).Ok? ==> forall i :: 0 <= i < |PulsesIn(d).value| ==> InField(PulsesIn(d).value[i])
    ensures PulsesIn(d).Ok? ==> (PulsesIn(d).value == [] <==> d == [])
    decreases |d|
  {
    if d != [] && NextPulse(d).Ok? {
      PulsesReadAreInField(NextPulse(d).value.rest);
    }
  }

  function LengthBytes(length: nat): seq<byte> {
    if length < 0x8000 then WordBytes(length) else WordBytes(0x8000 + length / 0x1_0000) + WordBytes(length % 0x1_0000)
  }

  /** A pulse as the format has it: with a count if it repeats, or if its length would be taken for one. */
  function PulseBytes(p: Pulse): seq<byte> {
    if p.repeats > 1 || p.length >= 0x1_0000 then WordBytes(0x8000 + p.repeats) + LengthBytes(p.length)
    else LengthBytes(p.length)
  }

  function AllBytes(pulses: seq<Pulse>): seq<byte> {
    if pulses == [] then [] else PulseBytes(pulses[0]) + AllBytes(pulses[1..])
  }

  /** Byte by byte: the count with its top bit set, if there is one, and the length, in one word or in two with the top
      bit of the first set. */
  lemma PulseLayout(p: Pulse)
    requires InField(p)
    ensures var high, low := p.length / 0x1_0000, p.length % 0x1_0000;
            PulseBytes(p)
            == (if p.repeats > 1 || high > 0 then [p.repeats % 256, 128 + p.repeats / 256] else [])
               + (if p.length < 0x8000 then [] else [high % 256, 128 + high / 256])
               + [low % 256, low / 256]
  {
    var high, low := p.length / 0x1_0000, p.length % 0x1_0000;
    TopBitSet(p.repeats);
    TopBitSet(high);
    assert WordBytes(low) == [low % 256, low / 256];
    hide WordBytes;
  }

  lemma TopBitSet(n: nat)
    requires n < 0x8000
    ensures WordBytes(0x8000 + n) == [n % 256, 128 + n / 256]
  {
  }

  lemma PulseIsRead(p: Pulse, rest: seq<byte>)
    requires InField(p)
    ensures NextPulse(PulseBytes(p) + rest) == Ok(Next(p, rest))
  {
    hide WordBytes, WordAt;
    var more := LengthBytes(p.length) + rest;
    LengthIsRead(p.length, rest);
    if p.repeats > 1 || p.length >= 0x1_0000 {
      var d := PulseBytes(p) + rest;
      assert d == WordBytes(0x8000 + p.repeats) + more;
      WordIsRead(0x8000 + p.repeats, more);
      assert d[4..] == more[2..];
      SecondWord(d, more);
    }
  }

  lemma SecondWord(d: seq<byte>, more: seq<byte>)
    requires |d| >= 4 && |more| >= 2 && d[2..] == more
    ensures WordAt(d, 2) == WordAt(more, 0)
  {
    assert d[2] == d[2..][0] && d[3] == d[2..][1];
  }

  lemma LengthIsRead(length: nat, rest: seq<byte>)
    requires length < 0x8000_0000
    ensures var d := LengthBytes(length) + rest;
            var first := if length < 0x8000 then length else 0x8000 + length / 0x1_0000;
            && |d| >= 2 && WordAt(d, 0) == first
            && forall repeats: nat :: NextLength(repeats, first, d[2..]) == Ok(Next(Pulse(repeats, length), rest))
  {
    hide WordBytes, WordAt;
    if length < 0x8000 {
      WordIsRead(length, rest);
    } else {
      var low := WordBytes(length % 0x1_0000) + rest;
      assert LengthBytes(length) + rest == WordBytes(0x8000 + length / 0x1_0000) + low;
      WordIsRead(0x8000 + length / 0x1_0000, low);
      WordIsRead(length % 0x1_0000, rest);
    }
  }

  /** Pulses are read as they were written. */
  lemma {:induction false} PulsesRoundTrip(pulses: seq<Pulse>)
    requires forall i :: 0 <= i < |pulses| ==> InField(pulses[i])
    ensures PulsesIn(AllBytes(pulses)) == Ok(pulses)
  {
    hide NextPulse, PulseBytes;
    if pulses != [] {
      PulseIsRead(pulses[0], AllBytes(pulses[1..]));
      PulsesRoundTrip(pulses[1..]);
      assert pulses == [pulses[0]] + pulses[1..];
      assert |AllBytes(pulses[1..])| < |AllBytes(pulses)|;
    }
  }

  function Lengths(pulses: seq<Pulse>): (r: seq<nat>)
    ensures |r| == |pulses|
  {
    seq(|pulses|, i requires 0 <= i < |pulses| => pulses[i].length)
  }

  function Repeats(pulses: seq<Pulse>): (r: seq<nat>)
    ensures |r| == |pulses|
  {
    seq(|pulses|, i requires 0 <= i < |pulses| => pulses[i].repeats)
  }

  /** read_puls_block. */
  method ReadPulsBlock(data: seq<byte>) returns (r: Result<PulseSequence>)
    ensures r.Ok? <==> data != [] && PulsesIn(data).Ok?
    ensures r.Err? ==> r.error == Corrupt
    ensures r.Ok? ==> r.value.lengths == Lengths(PulsesIn(data).value)
    ensures r.Ok? ==> r.value.repeats == Repeats(PulsesIn(data).value)
    ensures r.Ok? ==> ValidSequence(r.value)
    ensures r.Ok? ==> forall i :: 0 <= i < |r.value.repeats| ==> 1 <= r.value.repeats[i] <= 0x7fff
  {
    var lengths: seq<dword>, repeats: seq<size> := [], [];
    var left := data;
    ghost var done: seq<Pulse> := [];
    PulsesReadAreInField(data);
    assert PulsesIn(data).Ok? ==> [] + PulsesIn(data).value == PulsesIn(data).value;
    while |left| > 0
      invariant PulsesIn(data) == if PulsesIn(left).Err? then PulsesIn(left) else Ok(done + PulsesIn(left).value)
      invariant lengths == Lengths(done) && repeats == Repeats(done)
      invariant data != [] ==> left != [] || done != []
      decreases |left|
    {
      PulsesReadAreInField(left);
      var next := NextPulse(left);
      if next.Err? {
        return Err(Corrupt);
      }
      lengths, repeats := lengths + [next.value.pulse.length], repeats + [next.value.pulse.repeats];
      if PulsesIn(next.value.rest).Ok? {
        Assoc(done, [next.value.pulse], PulsesIn(next.value.rest).value);
      }
      done := done + [next.value.pulse];
      left := next.value.rest;
    }
    assert done + [] == done;
    if |lengths| == 0 {
      return Err(Corrupt);
    }
    r := Ok(PulseSequence(lengths, repeats));
  }

  // ----- Turning a pulse sequence into blocks of a .tzx file -----

  function Queued(queue: seq<nat>): seq<Tzx.Block> {
    if queue == [] then [] else [Tzx.Pulses(queue)]
  }

  /** Pulses that do not repeat are queued for a list; one that does is a tone. */
  function Compiled(p: PulseSequence, i: nat, queue: seq<nat>): seq<Tzx.Block>
    requires |p.lengths| == |p.repeats|
    decreases |p.lengths| - i
  {
    if i >= |p.lengths| then Queued(queue)
    else if p.repeats[i] > 1 then Queued(queue) + [Tzx.Tone(p.lengths[i], p.repeats[i])] + Compiled(p, i + 1, [])
    else Compiled(p, i + 1, queue + [p.lengths[i]])
  }

  function CompiledTape(p: PulseSequence): seq<Tzx.Block>
    requires |p.lengths| == |p.repeats|
  {
    [Tzx.SignalLevel(0)] + Compiled(p, 0, [])
  }

  /** How many pulses in a row do not repeat. */
  function RunFrom(p: PulseSequence, i: nat): nat
    requires |p.lengths| == |p.repeats|
    decreases |p.lengths| - i
  {
    if i >= |p.lengths| || p.repeats[i] > 1 then 0 else 1 + RunFrom(p, i + 1)
  }

  /** What the fields of the blocks have room for: words, and a byte for the number of pulses in a list. */
  predicate Compilable(p: PulseSequence)
    requires |p.lengths| == |p.repeats|
  {
    CompilableFrom(p, 0) && RunFrom(p, 0) < 256
  }

  predicate CompilableFrom(p: PulseSequence, i: nat)
    requires |p.lengths| == |p.repeats|
    decreases |p.lengths| - i
  {
    i < |p.lengths| ==>
      && p.lengths[i] < WORD_MODULUS
      && (p.repeats[i] > 1 ==> p.repeats[i] < WORD_MODULUS && RunFrom(p, i + 1) < 256)
      && CompilableFrom(p, i + 1)
  }

  predicate WordsFit(words: seq<nat>) {
    forall i :: 0 <= i < |words| ==> Tzx.FitsIn(words[i], 2)
  }

  predicate Fit(blocks: seq<Tzx.Block>) {
    forall i :: 0 <= i < |blocks| ==> Tzx.Printable(blocks[i], 0)
  }

  predicate IsPart(b: Tzx.Block) {
    b.SignalLevel? || b.Tone? || b.Pulses?
  }

  lemma OneMoreFits(words: seq<nat>, w: nat)
    ensures WordsFit(words + [w]) <==> WordsFit(words) && w < WORD_MODULUS
  {
    hide Tzx.FitsIn;
    Tzx.FitsWord(w);
    var all := words + [w];
    if WordsFit(all) {
      assert all[|words|] == w;
      forall i | 0 <= i < |words| ensures Tzx.FitsIn(words[i], 2) {
        assert all[i] == words[i];
      }
    }
  }

  lemma QueueFits(queue: seq<nat>)
    ensures Fit(Queued(queue)) <==> queue == [] || (|queue| < 256 && WordsFit(queue))
  {
    hide Tzx.FitsIn;
    if queue != [] {
      assert Queued(queue)[0] == Tzx.Pulses(queue);
      assert Tzx.Printable(Tzx.Pulses(queue), 0) <==> |queue| < 256 && WordsFit(queue);
    }
  }

  lemma ToneFits(length: nat, count: nat)
    ensures Fit([Tzx.Tone(length, count)]) <==> length < WORD_MODULUS && count < WORD_MODULUS
  {
    hide Tzx.FitsIn;
    Tzx.FitsWord(length);
    Tzx.FitsWord(count);
    assert [Tzx.Tone(length, count)][0] == Tzx.Tone(length, count);
  }

  lemma FitAppend(one: seq<Tzx.Block>, other: seq<Tzx.Block>)
    ensures Fit(one + other) <==> Fit(one) && Fit(other)
  {
    hide Tzx.Printable;
    if Fit(one + other) {
      forall i | 0 <= i < |one| ensures Tzx.Printable(one[i], 0) {
        assert (one + other)[i] == one[i];
      }
      forall i | 0 <= i < |other| ensures Tzx.Printable(other[i], 0) {
        assert (one + other)[|one| + i] == other[i];
      }
    }
  }

  lemma {:induction false} CompiledFits(p: PulseSequence, i: nat, queue: seq<nat>)
    requires |p.lengths| == |p.repeats|
    ensures Fit(Compiled(p, i, queue)) <==>
            CompilableFrom(p, i) && WordsFit(queue) && |queue| + RunFrom(p, i) < 256
    decreases |p.lengths| - i
  {
    hide Fit, WordsFit, Queued;
    QueueFits(queue);
    NothingFits();
    if i < |p.lengths| {
      if p.repeats[i] > 1 {
        var tone := [Tzx.Tone(p.lengths[i], p.repeats[i])];
        FitAppend(Queued(queue) + tone, Compiled(p, i + 1, []));
        FitAppend(Queued(queue), tone);
        ToneFits(p.lengths[i], p.repeats[i]);
        CompiledFits(p, i + 1, []);
      } else {
        OneMoreFits(queue, p.lengths[i]);
        CompiledFits(p, i + 1, queue + [p.lengths[i]]);
      }
    }
  }

  lemma NothingFits()
    ensures WordsFit([])
  {
  }

  lemma {:induction false} OnlyParts(p: PulseSequence, i: nat, queue: seq<nat>)
    requires |p.lengths| == |p.repeats|
    ensures forall b :: b in Compiled(p, i, queue) ==> IsPart(b)
    decreases |p.lengths| - i
  {
    if i < |p.lengths| {
      OnlyParts(p, i + 1, if p.repeats[i] > 1 then [] else queue + [p.lengths[i]]);
    }
  }

  /** For these blocks it does not matter what comes after them. */
  lemma {:induction false} FitIsPrintable(blocks: seq<Tzx.Block>)
    requires forall b :: b in blocks ==> IsPart(b)
    ensures Tzx.AllPrintable(blocks) <==> Fit(blocks)
  {
    hide Tzx.Printable, Tzx.PrintAll;
    if blocks != [] {
      var rest := blocks[1..];
      assert blocks[0] in blocks;
      FitIsPrintable(rest);
      AfterDoesNotMatter(blocks[0], |Tzx.PrintAll(rest)|);
      assert blocks == [blocks[0]] + rest;
      FitAppend([blocks[0]], rest);
      assert Fit([blocks[0]]) <==> Tzx.Printable(blocks[0], 0) by {
        assert [blocks[0]][0] == blocks[0];
      }
    }
  }

  lemma AfterDoesNotMatter(b: Tzx.Block, after: nat)
    requires IsPart(b)
    ensures Tzx.Printable(b, after) <==> Tzx.Printable(b, 0)
  {
  }

  // ----- What the blocks sound like -----

  function Times(edges: seq<Edge>): (r: seq<nat>)
    ensures |r| == |edges|
  {
    seq(|edges|, i requires 0 <= i < |edges| => edges[i].tstates)
  }

  predicate PlayablePart(b: Tzx.Block) {
    && IsPart(b)
    && (b.Tone? ==> b.length < DWORD_MODULUS && 0 < b.count < SIZE_MODULUS)
    && (b.Pulses? ==> b.lengths != [] && forall i :: 0 <= i < |b.lengths| ==> b.lengths[i] < DWORD_MODULUS)
  }

  /** A block of the file as the player has it. */
  function AsPlayed(b: Tzx.Block): TapeRun.Block
    requires PlayablePart(b)
  {
    match b
    case Tone(length, count) => TapeRun.Tone(ToneBlock(length, count))
    case Pulses(lengths) => TapeRun.Pulses(lengths)
    case SignalLevel(level) => TapeRun.SignalLevel(level != 0)
  }

  /** The times of all edges of some blocks. */
  function AllTimes(blocks: seq<Tzx.Block>): seq<nat>
    requires forall b :: b in blocks ==> PlayablePart(b)
  {
    if blocks == [] then []
    else
      assert blocks[0] in blocks && PlayablePart(blocks[0]);
      Times(TapeRun.Sounds(AsPlayed(blocks[0]))) + AllTimes(blocks[1..])
  }

  lemma {:induction false} PulseTimes(lengths: seq<dword>)
    ensures Times(PulseEdges(lengths)) == lengths
  {
    if lengths != [] {
      PulseTimes(lengths[1..]);
      assert PulseEdges(lengths) == [Edge(lengths[0], {})] + PulseEdges(lengths[1..]);
      assert Times(PulseEdges(lengths)) == [lengths[0]] + Times(PulseEdges(lengths[1..]));
    }
  }

  lemma PartTimes(b: Tzx.Block)
    requires PlayablePart(b)
    ensures Times(TapeRun.Sounds(AsPlayed(b))) ==
            if b.Tone? then Repeat(b.length, b.count) else if b.Pulses? then b.lengths else [0]
  {
    if b.Pulses? {
      PulseTimes(b.lengths);
    }
  }

  lemma {:induction false} AllTimesAppend(one: seq<Tzx.Block>, other: seq<Tzx.Block>)
    requires forall b :: b in one + other ==> PlayablePart(b)
    requires forall b :: b in one ==> PlayablePart(b)
    requires forall b :: b in other ==> PlayablePart(b)
    ensures AllTimes(one + other) == AllTimes(one) + AllTimes(other)
  {
    hide PlayablePart, AsPlayed, TapeRun.Sounds;
    if one == [] {
      assert one + other == other;
    } else {
      assert one[0] in one && PlayablePart(one[0]);
      assert (one + other)[1..] == one[1..] + other;
      AllTimesAppend(one[1..], other);
    }
  }

  lemma OneBlock(b: Tzx.Block)
    requires PlayablePart(b)
    ensures AllTimes([b]) == if b.Tone? then Repeat(b.length, b.count) else if b.Pulses? then b.lengths else [0]
  {
    hide AsPlayed, TapeRun.Sounds;
    assert b in [b];
    PartTimes(b);
    assert AllTimes([b]) == Times(TapeRun.Sounds(AsPlayed(b))) + AllTimes([b][1..]);
  }

  lemma QueueTimes(queue: seq<nat>)
    requires forall k :: 0 <= k < |queue| ==> queue[k] < DWORD_MODULUS
    ensures (forall b :: b in Queued(queue) ==> PlayablePart(b)) && AllTimes(Queued(queue)) == queue
  {
    hide AllTimes;
    if queue != [] {
      OneBlock(Tzx.Pulses(queue));
    } else {
      assert AllTimes([]) == [] by { NoTimes(); }
    }
  }

  lemma NoTimes()
    ensures AllTimes([]) == []
  {
  }

  /** Group by group, the blocks last as long as the pulses, one by one. */
  lemma {:induction false} CompiledTimes(p: PulseSequence, i: nat, queue: seq<nat>)
    requires |p.lengths| == |p.repeats| && forall k :: 0 <= k < |p.repeats| ==> p.repeats[k] >= 1
    requires forall k :: 0 <= k < |queue| ==> queue[k] < DWORD_MODULUS
    ensures forall b :: b in Compiled(p, i, queue) ==> PlayablePart(b)
    ensures AllTimes(Compiled(p, i, queue)) == queue + PulsesFrom(p, i)
    decreases |p.lengths| - i
  {
    hide AllTimes, PlayablePart, Queued;
    QueueTimes(queue);
    if i < |p.lengths| {
      if p.repeats[i] > 1 {
        CompiledTimes(p, i + 1, []);
        assert [] + PulsesFrom(p, i + 1) == PulsesFrom(p, i + 1);
        GroupTimes(queue, p.lengths[i], p.repeats[i], Compiled(p, i + 1, []));
      } else {
        CompiledTimes(p, i + 1, queue + [p.lengths[i]]);
        assert Repeat(p.lengths[i], p.repeats[i]) == [p.lengths[i]];
        Assoc(queue, [p.lengths[i]], PulsesFrom(p, i + 1));
      }
    } else {
      assert queue + [] == queue;
    }
  }

  lemma GroupTimes(queue: seq<nat>, length: dword, count: size, after: seq<Tzx.Block>)
    requires count > 0 && forall k :: 0 <= k < |queue| ==> queue[k] < DWORD_MODULUS
    requires forall b :: b in after ==> PlayablePart(b)
    ensures var blocks := Queued(queue) + [Tzx.Tone(length, count)] + after;
            && (forall b :: b in blocks ==> PlayablePart(b))
            && AllTimes(blocks) == queue + (Repeat(length, count) + AllTimes(after))
  {
    hide AllTimes, PlayablePart, Queued;
    var tone := Tzx.Tone(length, count);
    QueueTimes(queue);
    assert PlayablePart(tone) by { TonePlays(length, count); }
    OneBlock(tone);
    AllTimesAppend(Queued(queue), [tone]);
    AllTimesAppend(Queued(queue) + [tone], after);
    Assoc(queue, Repeat(length, count), AllTimes(after));
  }

  lemma TonePlays(length: dword, count: size)
    requires count > 0
    ensures PlayablePart(Tzx.Tone(length, count))
  {
  }

  /** No pulse but the last is of no length. */
  predicate AllHeard(pulses: seq<dword>) {
    forall k :: 0 <= k < |pulses| - 1 ==> pulses[k] > 0
  }

  /** A pulse sequence lasts, edge by edge, as long as its pulses one by one, unless one of no length is passed over:
      then there are fewer edges. */
  lemma {:induction false} LevelTimes(pulses: seq<dword>, level: int, now: int)
    ensures |LevelEdges(pulses, level, now)| <= |pulses|
    ensures if AllHeard(pulses) then Times(LevelEdges(pulses, level, now)) == pulses
            else |LevelEdges(pulses, level, now)| < |pulses|
    decreases pulses
  {
    if pulses == [] {
    } else if pulses[0] != 0 || |pulses| == 1 {
      LevelTimes(pulses[1..], Flip(now), Flip(now));
      var e, rest := LevelEdge(pulses[0], level, Flip(now)), LevelEdges(pulses[1..], Flip(now), Flip(now));
      assert LevelEdges(pulses, level, now) == [e] + rest;
      assert Times([e] + rest) == [pulses[0]] + Times(rest);
      assert AllHeard(pulses) <==> AllHeard(pulses[1..]) by {
        if AllHeard(pulses[1..]) {
          assert forall k :: 0 < k < |pulses| ==> pulses[k] == pulses[1..][k - 1];
        }
      }
    } else {
      LevelTimes(pulses[1..], level, Flip(now));
    }
  }

  /** No group from one on has pulses of no length, unless it is the last and has a single one. */
  predicate GroupsHeard(p: PulseSequence, i: nat)
    requires |p.lengths| == |p.repeats|
  {
    forall k :: i <= k < |p.lengths| ==> p.lengths[k] > 0 || (k == |p.lengths| - 1 && p.repeats[k] == 1)
  }

  lemma HeardParts(a: seq<dword>, b: seq<dword>)
    requires a != []
    ensures AllHeard(a + b) <==>
            if b == [] then AllHeard(a) else (forall k :: 0 <= k < |a| ==> a[k] > 0) && AllHeard(b)
  {
    if b == [] {
      assert a + b == a;
    } else {
      var all := a + b;
      if AllHeard(all) {
        assert forall k :: 0 <= k < |a| ==> a[k] == all[k];
        assert forall k :: 0 <= k < |b| ==> b[k] == all[|a| + k];
      }
    }
  }

  lemma {:induction false} PulsesAreHeard(p: PulseSequence, i: nat)
    requires |p.lengths| == |p.repeats| && forall k :: 0 <= k < |p.repeats| ==> p.repeats[k] >= 1
    ensures AllHeard(PulsesFrom(p, i)) <==> GroupsHeard(p, i)
    ensures i < |p.lengths| ==> PulsesFrom(p, i) != []
    decreases |p.lengths| - i
  {
    if i < |p.lengths| {
      var group: seq<dword> := Repeat(p.lengths[i], p.repeats[i]);
      PulsesAreHeard(p, i + 1);
      HeardParts(group, PulsesFrom(p, i + 1));
      assert group[0] == p.lengths[i];
      assert GroupsHeard(p, i) <==>
             (p.lengths[i] > 0 || (i == |p.lengths| - 1 && p.repeats[i] == 1)) && GroupsHeard(p, i + 1);
    }
  }

  /** A pulse sequence that was turned into .tzx blocks, written and read again is played with the same times, after an
      edge of no time that sets the level, exactly when no pulse of no length is passed over in the sequence: the blocks
      play each of them. The blocks come back from the file exactly when their fields have room for the pulses: lengths
      and repeats below 65536, and no more than 255 pulses in a row that do not repeat. */
  lemma CompiledPlaysTheSame(p: PulseSequence)
    requires ValidSequence(p) && forall k :: 0 <= k < |p.repeats| ==> p.repeats[k] >= 1
    ensures forall b :: b in CompiledTape(p) ==> PlayablePart(b)
    ensures AllTimes(CompiledTape(p)) == [0] + PulsesFrom(p, 0)
    ensures AllTimes(CompiledTape(p)) == [0] + Times(SequenceEdges(p)) <==> GroupsHeard(p, 0)
    ensures Tzx.ReadTape(Tzx.PrintTape(CompiledTape(p))) == Ok(CompiledTape(p)) <==> Compilable(p)
  {
    hide AllTimes, PlayablePart, PulsesFrom, LevelEdges, Compiled, Fit, AllHeard, GroupsHeard,
         Tzx.AllPrintable, Tzx.ReadTape, Tzx.PrintTape;
    var blocks, level := Compiled(p, 0, []), Tzx.SignalLevel(0);
    CompiledTimes(p, 0, []);
    assert PlayablePart(level) by { LevelPlays(); }
    OneBlock(level);
    AllTimesAppend([level], blocks);
    assert [] + PulsesFrom(p, 0) == PulsesFrom(p, 0);
    PulsesAreHeard(p, 0);
    LevelTimes(PulsesFrom(p, 0), -1, -1);
    SameParts(0, PulsesFrom(p, 0), 0, Times(SequenceEdges(p)));
    OnlyParts(p, 0, []);
    FitIsPrintable(CompiledTape(p));
    FitAppend([level], blocks);
    LevelFits();
    CompiledFits(p, 0, []);
    NothingFits();
    PartsAreRepresentable(CompiledTape(p));
    Tzx.TapeRoundTrip(CompiledTape(p));
  }

  lemma {:induction false} NoneRepeats(p: PulseSequence, i: nat)
    requires |p.lengths| == |p.repeats| && i <= |p.lengths| && forall k :: 0 <= k < |p.repeats| ==> p.repeats[k] == 1
    ensures RunFrom(p, i) == |p.lengths| - i
    decreases |p.lengths| - i
  {
    if i < |p.lengths| {
      NoneRepeats(p, i + 1);
    }
  }

  /** The number of 256 pulses that do not repeat does not fit its byte. */
  lemma TooManyPulsesInARow()
    ensures var p := PulseSequence(Repeat(100, 256), Repeat(1, 256));
            ValidSequence(p) && Tzx.ReadTape(Tzx.PrintTape(CompiledTape(p))) != Ok(CompiledTape(p))
  {
    hide CompiledTape, Tzx.ReadTape, Tzx.PrintTape, CompilableFrom;
    var p := PulseSequence(Repeat(100, 256), Repeat(1, 256));
    NoneRepeats(p, 0);
    CompiledPlaysTheSame(p);
  }

  lemma ThreePulses()
    ensures PulsesFrom(PulseSequence([100, 0, 200], [1, 1, 1]), 0) == [100, 0, 200]
  {
    var p := PulseSequence([100, 0, 200], [1, 1, 1]);
    assert PulsesFrom(p, 3) == [];
    assert PulsesFrom(p, 2) == Repeat(200, 1) + [] == [200];
    assert PulsesFrom(p, 1) == Repeat(0, 1) + [200] == [0, 200];
    assert PulsesFrom(p, 0) == Repeat(100, 1) + [0, 200] == [100, 0, 200];
  }

  /** A pulse of no length between two others is an edge of its own in the blocks. */
  lemma PulseOfNoLength()
    ensures var p := PulseSequence([100, 0, 200], [1, 1, 1]);
            && AllTimes(CompiledTape(p)) == [0, 100, 0, 200] && Times(SequenceEdges(p)) == [100, 200]
  {
    hide CompiledTape, AllTimes, PulsesFrom, GroupsHeard;
    var p := PulseSequence([100, 0, 200], [1, 1, 1]);
    ThreePulses();
    CompiledPlaysTheSame(p);
    assert [0] + [100, 0, 200] == [0, 100, 0, 200];
    assert [100, 0, 200][1..] == [0, 200] && [0, 200][1..] == [200] && [200][1..] == [];
    assert LevelEdges([200], 0, 1) == [LevelEdge(200, 0, 0)] + LevelEdges([], 0, 0);
    assert LevelEdges([0, 200], 0, 0) == LevelEdges([200], 0, 1);
    assert LevelEdges([100, 0, 200], -1, -1) == [LevelEdge(100, -1, 0)] + LevelEdges([0, 200], 0, 0);
    assert SequenceEdges(p) == [LevelEdge(100, -1, 0), LevelEdge(200, 0, 0)];
  }

  lemma LevelPlays()
    ensures PlayablePart(Tzx.SignalLevel(0))
  {
  }

  lemma LevelFits()
    ensures Fit([Tzx.SignalLevel(0)])
  {
  }

  lemma PartsAreRepresentable(blocks: seq<Tzx.Block>)
    requires forall b :: b in blocks ==> IsPart(b)
    ensures forall i :: 0 <= i < |blocks| ==> Tzx.Representable(blocks[i])
  {
    forall i | 0 <= i < |blocks| ensures Tzx.Representable(blocks[i]) {
      assert blocks[i] in blocks;
    }
  }

  /** tzx_write_pulse_sequence. */
  method WritePulseSequence(w: TzxFile.Writer, p: PulseSequence)
    requires |p.lengths| == |p.repeats|
    modifies w
    ensures w.buffer == old(w.buffer) + Tzx.PrintAll(CompiledTape(p))
  {
    hide Tzx.Print, Compiled;
    ghost var whole := Compiled(p, 0, []);
    w.Append(Tzx.PrintLevel(0));
    ghost var before := w.buffer;
    var queue: seq<nat> := [];
    var i := 0;
    while i < |p.lengths|
      invariant i <= |p.lengths|
      invariant w.buffer + Tzx.PrintAll(Compiled(p, i, queue)) == before + Tzx.PrintAll(whole)
    {
      NextGroup(p, i, queue);
      if p.repeats[i] > 1 {
        ghost var tone := Tzx.Tone(p.lengths[i], p.repeats[i]);
        PrintAllAppend(Queued(queue) + [tone], Compiled(p, i + 1, []));
        PrintAllAppend(Queued(queue), [tone]);
        PrintOne(tone);
        Assoc(w.buffer, Tzx.PrintAll(Queued(queue)), Tzx.Print(tone));
        Assoc(w.buffer, Tzx.PrintAll(Queued(queue)) + Tzx.Print(tone), Tzx.PrintAll(Compiled(p, i + 1, [])));
        WriteQueue(w, queue);
        queue := [];
        w.Append(Tzx.PrintTone(p.lengths[i], p.repeats[i]));
      } else {
        queue := queue + [p.lengths[i]];
      }
      i := i + 1;
    }
    LastGroup(p, i, queue);
    WriteQueue(w, queue);
    PrintOne(Tzx.SignalLevel(0));
    PrintAllAppend([Tzx.SignalLevel(0)], whole);
    Assoc(old(w.buffer), Tzx.PrintLevel(0), Tzx.PrintAll(whole));
  }

  method WriteQueue(w: TzxFile.Writer, queue: seq<nat>)
    modifies w
    ensures w.buffer == old(w.buffer) + Tzx.PrintAll(Queued(queue))
  {
    hide Tzx.Print;
    if |queue| > 0 {
      PrintOne(Tzx.Pulses(queue));
      w.WriteBlock(Tzx.Pulses(queue));
    } else {
      assert w.buffer + [] == w.buffer;
    }
  }

  lemma NextGroup(p: PulseSequence, i: nat, queue: seq<nat>)
    requires |p.lengths| == |p.repeats| && i < |p.lengths|
    ensures Compiled(p, i, queue) ==
            if p.repeats[i] > 1 then Queued(queue) + [Tzx.Tone(p.lengths[i], p.repeats[i])] + Compiled(p, i + 1, [])
            else Compiled(p, i + 1, queue + [p.lengths[i]])
  {
  }

  lemma LastGroup(p: PulseSequence, i: nat, queue: seq<nat>)
    requires |p.lengths| == |p.repeats| <= i
    ensures Compiled(p, i, queue) == Queued(queue)
  {
  }

  lemma {:induction false} PrintAllAppend(one: seq<Tzx.Block>, other: seq<Tzx.Block>)
    ensures Tzx.PrintAll(one + other) == Tzx.PrintAll(one) + Tzx.PrintAll(other)
  {
    hide Tzx.Print;
    if one == [] {
      assert one + other == other;
    } else {
      assert (one + other)[1..] == one[1..] + other;
      PrintAllAppend(one[1..], other);
      Assoc(Tzx.Print(one[0]), Tzx.PrintAll(one[1..]), Tzx.PrintAll(other));
    }
  }

  lemma PrintOne(b: Tzx.Block)
    ensures Tzx.PrintAll([b]) == Tzx.Print(b)
    ensures b.Tone? ==> Tzx.Print(b) == Tzx.PrintTone(b.length, b.count)
    ensures b.SignalLevel? ==> Tzx.Print(b) == Tzx.PrintLevel(b.level)
  {
    assert Tzx.Print(b) + Tzx.PrintAll([]) == Tzx.Print(b);
  }
}
