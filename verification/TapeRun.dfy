/** The outer machine of tape.c: from block to block, round the loops, to the end of the tape and back to its start. */
module TapeRun {
  import opened Bytes
  import opened TapeEdges
  import opened GeneralisedData
  import opened LevelledData
  import opened SampledData

  datatype Metadata = GroupStart | GroupEnd | Select | Comment | Message | ArchiveInfo | Hardware | Custom

  datatype Block =
    | Rom(rom: RomBlock)
    | Turbo(turbo: TurboBlock)
    | Tone(tone: ToneBlock)
    | Pulses(lengths: seq<dword>)
    | PureData(data: DataBlock)
    | Generalised(generalised: GeneralisedBlock)
    | Sequence(sequence: PulseSequence)
    | Raw(raw: RawBlock)
    | Rle(rle: RleBlock)
    | Levelled(levelled: LevelledBlock)
    | PauseFor(tstates: dword, level: int)
    | LoopStart(count: nat)
    | LoopEnd
    | StopIn48KMode
    | SignalLevel(high: bool)
    | NoData(metadata: Metadata)

  /** Blocks that keep their player inside its memory. */
  predicate SafeToPlay(b: Block) {
    match b
    case Rom(r) => |r.data| < SIZE_MODULUS
    case Turbo(t) => |t.body.data| < SIZE_MODULUS
    case PureData(d) => |d.data| < SIZE_MODULUS
    case Pulses(lengths) => lengths != []
    case Sequence(p) => |p.lengths| == |p.repeats| > 0
    case Generalised(g) => ValidBlock(g)
    case Raw(r) => ValidRaw(r)
    case Rle(r) => ValidRle(r)
    case Levelled(l) => ValidLevelled(l)
    case _ => true
  }

  const SILENT: Edge := Edge(0, {NoEdge})

  /** The edges of one block, without the flags that mark where blocks and tape end. What an unsafe block
      sounds like is of no account: nothing is claimed of playing one. */
  function Sounds(b: Block): (r: seq<Edge>)
    ensures r != []
  {
    if !SafeToPlay(b) then [SILENT] else
    match b
    case Rom(r) => TurboEdges(RomTimings(r))
    case Turbo(t) => TurboEdges(t)
    case Tone(t) => ToneEdges(t)
    case Pulses(lengths) => PulseEdges(lengths)
    case PureData(d) => DataEdges(d)
    case Generalised(g) => GeneralisedEdges(g)
    case Sequence(p) => SequenceNeverEmpty(p); SequenceEdges(p)
    case Raw(r) => RawEdges(r)
    case Rle(r) => RleNeverEmpty(r); RleEdges(r)
    case Levelled(l) => LevelledEdges(l)
    case PauseFor(t, level) =>
      [Edge(t, if t == 0 then {Stop} else if level == -1 then {} else if level == 0 then {LevelLow} else {LevelHigh})]
    case StopIn48KMode => [Edge(0, {Stop48})]
    case SignalLevel(high) => [Edge(0, if high then {LevelLow} else {LevelHigh})]
    case LoopStart(_) => [SILENT]
    case LoopEnd => [SILENT]
    case NoData(_) => [SILENT]
  }

  lemma SequenceNeverEmpty(p: PulseSequence)
    requires ValidSequence(p)
    ensures SequenceEdges(p) != []
  {
    assert PulsesFrom(p, 0) != [];
  }

  lemma RleNeverEmpty(r: RleBlock)
    requires ValidRle(r)
    ensures RleEdges(r) != []
  {
  }

  // ----- One step -----

  type Tape = seq<Block>

  predicate AllSafe(tape: Tape) {
    forall i :: 0 <= i < |tape| ==> SafeToPlay(tape[i])
  }

  /** Where playing has got to: the block, the edges of it still to come, and the loop it is in. */
  datatype Position = Position(current: nat, rest: seq<Edge>, loopBlock: Option<nat>, loopCount: nat)

  predicate InLoop(tape: Tape, loopBlock: Option<nat>, loopCount: nat) {
    loopBlock.Some? ==> loopBlock.value < |tape| && loopCount > 0
  }

  predicate OnTape(tape: Tape, p: Position) {
    && p.current < |tape| && p.rest != []
    && (p.loopBlock.Some? ==> p.loopBlock.value < |tape| && p.loopCount > 0)
  }

  function Begin(tape: Tape): Position
    requires tape != []
  {
    Position(0, Sounds(tape[0]), None, 0)
  }

  datatype Outcome = Outcome(edge: Edge, next: Position, endOfTape: bool)

  function EndFlags(e: Edge): Edge {
    e.(flags := e.flags + {Block, Stop, Flag.Tape} - {NoEdge})
  }

  function BlockFlag(e: Edge): Edge {
    e.(flags := e.flags + {Block})
  }

  /** The last edge of a block has been played: go on to the next block, or to the first one again. */
  function Advance(tape: Tape, p: Position): Outcome
    requires OnTape(tape, p)
  {
    if p.current + 1 < |tape|
    then Outcome(BlockFlag(p.rest[0]), p.(current := p.current + 1, rest := Sounds(tape[p.current + 1])), false)
    else Outcome(EndFlags(p.rest[0]), p.(current := 0, rest := Sounds(tape[0])), true)
  }

  /** One call of libspectrum_tape_get_next_edge_internal. */
  function Step(tape: Tape, p: Position): (r: Outcome)
    requires OnTape(tape, p)
    ensures OnTape(tape, r.next)
    ensures r.endOfTape ==> Stop in r.edge.flags && Flag.Tape in r.edge.flags
  {
    if |p.rest| > 1 then Outcome(p.rest[0], p.(rest := p.rest[1..]), false)
    else match tape[p.current]
      case LoopStart(count) =>
        if p.current + 1 < |tape| && count > 0
        then Advance(tape, p.(loopBlock := Some(p.current + 1), loopCount := count))
        else Advance(tape, p)
      case LoopEnd =>
        if p.loopBlock == None then Advance(tape, p)
        else if p.loopCount == 1 then Advance(tape, p.(loopBlock := None, loopCount := 0))
        else
          var start := p.loopBlock.value;
          Outcome(BlockFlag(p.rest[0]),
                  p.(current := start, rest := Sounds(tape[start]), loopCount := p.loopCount - 1),
                  false)
      case _ => Advance(tape, p)
  }

  // ----- Playing ends -----

  /** In a loop left over from the previous pass, ahead of where playing is now. */
  function AheadOfLoop(p: Position): nat {
    if p.loopBlock.Some? && p.current < p.loopBlock.value then 1 else 0
  }

  /** Blocks beyond the last loop start that was obeyed. */
  function BlocksBeyond(tape: Tape, p: Position): nat
    requires OnTape(tape, p)
  {
    |tape| - if p.loopBlock.Some? then p.loopBlock.value else p.current
  }

  function RoundsLeft(p: Position): nat {
    if p.loopBlock.Some? then p.loopCount else 0
  }

  /** Short of the end of the tape, every step goes down this lexicographic order. */
  lemma StepDescends(tape: Tape, p: Position)
    requires OnTape(tape, p)
    ensures var r := Step(tape, p); var q := r.next;
            r.endOfTape ||
            AheadOfLoop(q) < AheadOfLoop(p) || (AheadOfLoop(q) == AheadOfLoop(p) && (
            BlocksBeyond(tape, q) < BlocksBeyond(tape, p) || (BlocksBeyond(tape, q) == BlocksBeyond(tape, p) && (
            RoundsLeft(q) < RoundsLeft(p) || (RoundsLeft(q) == RoundsLeft(p) && (
            q.current > p.current || (q.current == p.current && |q.rest| < |p.rest|)))))))
  {
  }

  /** Everything that is heard from a position to the end of the tape. That this function is total is the
      theorem that every tape ends, whatever loop markers it has and wherever playing starts. */
  function Play(tape: Tape, p: Position): (r: seq<Edge>)
    requires OnTape(tape, p)
    ensures r != [] && Flag.Tape in r[|r| - 1].flags
    decreases AheadOfLoop(p), BlocksBeyond(tape, p), RoundsLeft(p), |tape| - p.current, |p.rest|
  {
    var r := Step(tape, p);
    StepDescends(tape, p);
    if r.endOfTape then [r.edge] else [r.edge] + Play(tape, r.next)
  }

  // ----- Unrolling loops -----

  predicate Plain(b: Block) {
    !b.LoopStart? && !b.LoopEnd?
  }

  /** Part of a tape whose loops are well bracketed and not nested. */
  datatype Segment = One(block: Block) | Loop(count: nat, body: Tape)

  predicate NoMarkersInside(s: Segment) {
    match s
    case One(b) => Plain(b)
    case Loop(_, body) => forall i :: 0 <= i < |body| ==> Plain(body[i])
  }

  predicate WellBracketed(segments: seq<Segment>) {
    forall i :: 0 <= i < |segments| ==> NoMarkersInside(segments[i])
  }

  function Bracketed(s: Segment): Tape {
    match s
    case One(b) => [b]
    case Loop(count, body) => [LoopStart(count)] + body + [LoopEnd]
  }

  function Looped(segments: seq<Segment>): Tape {
    if segments == [] then [] else Bracketed(segments[0]) + Looped(segments[1..])
  }

  /** A loop of 0 rounds is played once: its markers do nothing. */
  function Rounds(s: Segment): Tape {
    match s
    case One(b) => [b]
    case Loop(count, body) => Times(body, Turns(count, 1))
  }

  function Unrolled(segments: seq<Segment>): Tape {
    if segments == [] then [] else Rounds(segments[0]) + Unrolled(segments[1..])
  }

  predicate Silent(e: Edge) {
    e.tstates == 0 && NoEdge in e.flags
  }

  /** What is left after dropping the steps of no length that are no edge. */
  function Audible(edges: seq<Edge>): seq<Edge> {
    if edges == [] then []
    else (if Silent(edges[0]) then [] else [edges[0]]) + Audible(edges[1..])
  }

  lemma {:induction false} AudibleAppend(a: seq<Edge>, b: seq<Edge>)
    ensures Audible(a + b) == Audible(a) + Audible(b)
  {
    hide Silent;
    if a == [] {
      assert a + b == b;
    } else {
      assert (a + b)[1..] == a[1..] + b;
      AudibleAppend(a[1..], b);
    }
  }

  /** A block's edges when another block follows it, and when none does. */
  function Followed(rest: seq<Edge>): seq<Edge>
    requires rest != []
  {
    rest[..|rest| - 1] + [BlockFlag(rest[|rest| - 1])]
  }

  function Final(rest: seq<Edge>): seq<Edge>
    requires rest != []
  {
    rest[..|rest| - 1] + [EndFlags(rest[|rest| - 1])]
  }

  function Heard(blocks: Tape): seq<Edge> {
    if blocks == [] then [] else Audible(Followed(Sounds(blocks[0]))) + Heard(blocks[1..])
  }

  lemma {:induction false} HeardAppend(a: Tape, b: Tape)
    ensures Heard(a + b) == Heard(a) + Heard(b)
  {
    hide Sounds, SafeToPlay, Audible, Followed;
    if a == [] {
      assert a + b == b;
    } else {
      assert (a + b)[1..] == a[1..] + b;
      HeardAppend(a[1..], b);
    }
  }

  /** A plain block is played out and playing goes on with the next, in the same loop. */
  lemma {:induction false} PlayPlain(tape: Tape, p: Position)
    requires OnTape(tape, p) && Plain(tape[p.current]) && p.current + 1 < |tape|
    ensures Play(tape, p) == Followed(p.rest)
        + Play(tape, p.(current := p.current + 1, rest := Sounds(tape[p.current + 1])))
    decreases |p.rest|
  {
    hide Sounds, SafeToPlay, EndFlags, Audible;
    if |p.rest| > 1 {
      var q := p.(rest := p.rest[1..]);
      PlayPlain(tape, q);
      assert Followed(p.rest) == [p.rest[0]] + Followed(q.rest);
    } else {
      assert Followed(p.rest) == [BlockFlag(p.rest[0])];
    }
  }

  lemma {:induction false} PlayLast(tape: Tape, p: Position)
    requires OnTape(tape, p) && Plain(tape[p.current]) && p.current + 1 == |tape|
    ensures Play(tape, p) == Final(p.rest)
    decreases |p.rest|
  {
    hide Sounds, SafeToPlay, Audible;
    if |p.rest| > 1 {
      var q := p.(rest := p.rest[1..]);
      PlayLast(tape, q);
      assert Final(p.rest) == [p.rest[0]] + Final(q.rest);
    } else {
      assert Final(p.rest) == [EndFlags(p.rest[0])];
    }
  }

  function At(tape: Tape, i: nat, loopBlock: Option<nat>, loopCount: nat): Position
    requires i < |tape|
  {
    Position(i, Sounds(tape[i]), loopBlock, loopCount)
  }

  /** What is heard from the start of block i to the end of the tape. */
  function HeardFrom(tape: Tape, i: nat, loopBlock: Option<nat>, loopCount: nat): seq<Edge>
    requires i < |tape| && InLoop(tape, loopBlock, loopCount)
  {
    Audible(Play(tape, At(tape, i, loopBlock, loopCount)))
  }

  /** Plain blocks i to j are heard in turn. */
  lemma {:induction false} PlayStretch(tape: Tape, i: nat, j: nat, loopBlock: Option<nat>, loopCount: nat)
    requires i <= j < |tape| && InLoop(tape, loopBlock, loopCount)
    requires forall k :: i <= k < j ==> Plain(tape[k])
    ensures HeardFrom(tape, i, loopBlock, loopCount)
         == Heard(tape[i..j]) + HeardFrom(tape, j, loopBlock, loopCount)
    decreases j - i
  {
    hide Sounds, SafeToPlay, Audible, Play, Step, Followed;
    if i == j {
      assert tape[i..j] == [];
    } else {
      PlayPlain(tape, At(tape, i, loopBlock, loopCount));
      AudibleAppend(Followed(Sounds(tape[i])), Play(tape, At(tape, i + 1, loopBlock, loopCount)));
      PlayStretch(tape, i + 1, j, loopBlock, loopCount);
      assert tape[i..j][1..] == tape[i + 1..j];
      Assoc(Audible(Followed(Sounds(tape[i]))), Heard(tape[i + 1..j]),
            HeardFrom(tape, j, loopBlock, loopCount));
    }
  }

  lemma MarkersAreSilent(count: nat)
    ensures Sounds(LoopStart(count)) == [SILENT] && Sounds(LoopEnd) == [SILENT]
  {
  }

  lemma SilentStep(e: Edge, rest: seq<Edge>)
    requires e == BlockFlag(SILENT)
    ensures Audible([e] + rest) == Audible(rest)
  {
    assert ([e] + rest)[1..] == rest;
  }

  /** Step over a marker that leads to position q. */
  lemma PlayMarker(tape: Tape, p: Position, q: Position)
    requires OnTape(tape, p) && OnTape(tape, q) && Step(tape, p) == Outcome(BlockFlag(SILENT), q, false)
    ensures Audible(Play(tape, p)) == Audible(Play(tape, q))
  {
    SilentStep(BlockFlag(SILENT), Play(tape, q));
  }

  const THE_END: Edge := Edge(0, {Block, Stop, Flag.Tape})

  /** What is heard after a marker just before block i: at the end of the tape its step becomes an edge. */
  function HeardAfter(tape: Tape, i: nat): seq<Edge> {
    if i < |tape| then HeardFrom(tape, i, None, 0) else [THE_END]
  }

  lemma EnterLoop(tape: Tape, i: nat, count: nat)
    requires i + 1 < |tape| && tape[i] == LoopStart(count)
    ensures HeardFrom(tape, i, None, 0)
         == if count > 0 then HeardFrom(tape, i + 1, Some(i + 1), count) else HeardFrom(tape, i + 1, None, 0)
  {
    hide Sounds, SafeToPlay, Audible, Play;
    MarkersAreSilent(count);
    PlayMarker(tape, At(tape, i, None, 0),
               if count > 0 then At(tape, i + 1, Some(i + 1), count) else At(tape, i + 1, None, 0));
  }

  /** The end marker of a loop that is over, or was never entered. */
  lemma LeaveLoop(tape: Tape, i: nat, loopBlock: Option<nat>)
    requires i < |tape| && tape[i] == LoopEnd && InLoop(tape, loopBlock, 1)
    ensures HeardFrom(tape, i, loopBlock, if loopBlock == None then 0 else 1) == HeardAfter(tape, i + 1)
  {
    MarkersAreSilent(0);
    var p := At(tape, i, loopBlock, if loopBlock == None then 0 else 1);
    if i + 1 < |tape| {
      hide Sounds, SafeToPlay, Audible, Play;
      PlayMarker(tape, p, At(tape, i + 1, None, 0));
    } else {
      hide Sounds, SafeToPlay;
      assert Play(tape, p) == [EndFlags(SILENT)] == [THE_END];
      assert Audible([THE_END]) == [THE_END];
    }
  }

  /** The end marker of a loop with rounds to go. */
  lemma RepeatLoop(tape: Tape, start: nat, i: nat, rounds: nat)
    requires start < |tape| && i < |tape| && tape[i] == LoopEnd && rounds > 1
    ensures HeardFrom(tape, i, Some(start), rounds) == HeardFrom(tape, start, Some(start), rounds - 1)
  {
    hide Sounds, SafeToPlay, Audible, Play;
    MarkersAreSilent(0);
    PlayMarker(tape, At(tape, i, Some(start), rounds), At(tape, start, Some(start), rounds - 1));
  }

  lemma OneRound(body: Tape)
    ensures Times(body, 1) == body
  {
    assert Times(body, 1) == body + Times(body, 0) == body;
  }

  /** From the first block of a loop's body, with so many rounds to go, to past its end marker. */
  lemma {:induction false} PlayRounds(tape: Tape, start: nat, end: nat, rounds: nat)
    requires 0 < rounds && start <= end < |tape| && tape[end] == LoopEnd
    requires forall k :: start <= k < end ==> Plain(tape[k])
    ensures HeardFrom(tape, start, Some(start), rounds)
         == Heard(Times(tape[start..end], rounds)) + HeardAfter(tape, end + 1)
    decreases rounds
  {
    hide Sounds, SafeToPlay, Audible, Followed, Heard, HeardFrom, HeardAfter;
    var body := tape[start..end];
    PlayStretch(tape, start, end, Some(start), rounds);
    if rounds > 1 {
      RepeatLoop(tape, start, end, rounds);
      PlayRounds(tape, start, end, rounds - 1);
      HeardAppend(body, Times(body, rounds - 1));
      Assoc(Heard(body), Heard(Times(body, rounds - 1)), HeardAfter(tape, end + 1));
    } else {
      LeaveLoop(tape, end, Some(start));
      OneRound(body);
    }
  }

  lemma Between<T>(x: T, s: seq<T>, y: T)
    ensures ([x] + s + [y])[0] == x && ([x] + s + [y])[1 + |s|] == y && ([x] + s + [y])[1..1 + |s|] == s
  {
  }

  lemma SliceOfSlice<T>(s: seq<T>, i: nat, j: nat, a: nat, b: nat)
    requires i <= j <= |s| && a <= b <= j - i
    ensures s[i..j][a..b] == s[i + a..i + b]
  {
    forall k | 0 <= k < b - a ensures s[i..j][a..b][k] == s[i + a..i + b][k] {
      assert s[i..j][a + k] == s[i + a + k];
    }
  }

  lemma PartsOfLoop(tape: Tape, i: nat, count: nat, body: Tape)
    requires i + |body| + 2 <= |tape|
    requires NoMarkersInside(Loop(count, body))
    requires tape[i..i + |body| + 2] == Bracketed(Loop(count, body))
    ensures tape[i] == LoopStart(count) && tape[i + 1 + |body|] == LoopEnd
    ensures tape[i + 1..i + 1 + |body|] == body
    ensures forall k :: i + 1 <= k < i + 1 + |body| ==> Plain(tape[k])
  {
    hide Sounds;
    var s := tape[i..i + |body| + 2];
    Between(LoopStart(count), body, LoopEnd);
    assert tape[i] == s[0] && tape[i + 1 + |body|] == s[1 + |body|];
    SliceOfSlice(tape, i, i + |body| + 2, 1, 1 + |body|);
    forall k | i + 1 <= k < i + 1 + |body| ensures Plain(tape[k]) {
      assert tape[k] == tape[i + 1..i + 1 + |body|][k - i - 1];
    }
  }

  /** A whole loop, markers and all, sounds like its body written out. */
  lemma PlayLoop(tape: Tape, i: nat, count: nat, end: nat)
    requires i < end < |tape| && tape[i] == LoopStart(count) && tape[end] == LoopEnd
    requires forall k :: i + 1 <= k < end ==> Plain(tape[k])
    ensures HeardFrom(tape, i, None, 0)
         == Heard(Times(tape[i + 1..end], Turns(count, 1))) + HeardAfter(tape, end + 1)
  {
    hide Sounds, SafeToPlay, Audible, Followed, Heard, HeardFrom, HeardAfter, Times, Plain;
    EnterLoop(tape, i, count);
    if count > 0 {
      PlayRounds(tape, i + 1, end, count);
    } else {
      PlayStretch(tape, i + 1, end, None, 0);
      LeaveLoop(tape, end, None);
      OneRound(tape[i + 1..end]);
    }
  }

  lemma PlayPlainSegment(tape: Tape, i: nat)
    requires i + 1 < |tape| && Plain(tape[i])
    ensures HeardFrom(tape, i, None, 0) == Heard([tape[i]]) + HeardAfter(tape, i + 1)
  {
    hide Sounds, SafeToPlay, Heard, HeardFrom, HeardAfter;
    PlayStretch(tape, i, i + 1, None, 0);
    assert tape[i..i + 1] == [tape[i]];
    NotAtEnd(tape, i + 1);
  }

  /** A segment that lies on the tape. */
  lemma PartsOfSegment(tape: Tape, i: nat, s: Segment)
    requires NoMarkersInside(s) && OccursAt(tape, i, Bracketed(s))
    ensures i + |Bracketed(s)| <= |tape|
    ensures s.One? ==> |Bracketed(s)| == 1 && tape[i] == s.block && Plain(s.block) && Rounds(s) == [s.block]
    ensures s.Loop? ==> |Bracketed(s)| == |s.body| + 2 && Rounds(s) == Times(s.body, Turns(s.count, 1))
                        && tape[i..i + |s.body| + 2] == Bracketed(s)
  {
    hide Times;
    if s.One? {
      assert tape[i] == tape[i..i + 1][0] == s.block;
    }
  }

  lemma PlaySegment(tape: Tape, i: nat, s: Segment)
    requires NoMarkersInside(s) && OccursAt(tape, i, Bracketed(s))
    requires s.One? ==> i + 1 < |tape|
    ensures HeardFrom(tape, i, None, 0) == Heard(Rounds(s)) + HeardAfter(tape, i + |Bracketed(s)|)
  {
    hide *;
    PartsOfSegment(tape, i, s);
    if s.One? {
      PlayPlainSegment(tape, i);
    } else {
      var end := i + 1 + |s.body|;
      PartsOfLoop(tape, i, s.count, s.body);
      PlayLoop(tape, i, s.count, end);
    }
    InNoLoop(tape);
  }

  lemma InNoLoop(tape: Tape)
    ensures InLoop(tape, None, 0)
  {
  }

  ghost predicate OccursAt<T>(s: seq<T>, i: nat, x: seq<T>) {
    i + |x| <= |s| && s[i..i + |x|] == x
  }

  lemma SplitOccurrence<T>(s: seq<T>, i: nat, a: seq<T>, b: seq<T>)
    requires OccursAt(s, i, a + b)
    ensures OccursAt(s, i, a) && OccursAt(s, i + |a|, b)
  {
    assert s[i..i + |a|] == s[i..i + |a + b|][..|a|];
    assert s[i + |a|..i + |a| + |b|] == s[i..i + |a + b|][|a|..];
  }

  /** The first segment and the rest, as they lie on the tape. */
  lemma FirstSegment(tape: Tape, i: nat, segments: seq<Segment>)
    requires WellBracketed(segments) && segments != [] && OccursAt(tape, i, Looped(segments))
    ensures NoMarkersInside(segments[0]) && WellBracketed(segments[1..])
    ensures var n := |Bracketed(segments[0])|;
            && |Looped(segments)| == n + |Looped(segments[1..])|
            && OccursAt(tape, i, Bracketed(segments[0])) && OccursAt(tape, i + n, Looped(segments[1..]))
            && (segments[0].One? ==> n == 1)
            && (segments[1..] != [] ==> i + n < |tape|)
  {
    hide *;
    var s, rest := segments[0], segments[1..];
    UnfoldLooped(segments);
    SplitOccurrence(tape, i, Bracketed(s), Looped(rest));
    OccurrenceFits(tape, i + |Bracketed(s)|, Looped(rest));
    if rest != [] {
      LoopedNotEmpty(rest);
    }
  }

  lemma UnfoldLooped(segments: seq<Segment>)
    requires WellBracketed(segments) && segments != []
    ensures NoMarkersInside(segments[0]) && WellBracketed(segments[1..])
    ensures Looped(segments) == Bracketed(segments[0]) + Looped(segments[1..])
    ensures segments[0].One? ==> |Bracketed(segments[0])| == 1
  {
  }

  lemma OccurrenceFits<T>(s: seq<T>, i: nat, x: seq<T>)
    requires OccursAt(s, i, x)
    ensures i + |x| <= |s|
  {
  }

  lemma JoinHeard(segments: seq<Segment>, after: seq<Edge>)
    requires segments != []
    ensures Heard(Rounds(segments[0])) + (Heard(Unrolled(segments[1..])) + after) == Heard(Unrolled(segments)) + after
  {
    hide Sounds, SafeToPlay, Rounds, Heard;
    HeardAppend(Rounds(segments[0]), Unrolled(segments[1..]));
    Assoc(Heard(Rounds(segments[0])), Heard(Unrolled(segments[1..])), after);
  }

  /** Segments sound like their unrolling; only a loop can be the last thing on the tape here. */
  lemma {:induction false} PlaySegments(tape: Tape, i: nat, segments: seq<Segment>)
    requires WellBracketed(segments) && i < |tape| && OccursAt(tape, i, Looped(segments))
    requires i + |Looped(segments)| == |tape| ==> segments != [] && segments[|segments| - 1].Loop?
    ensures HeardFrom(tape, i, None, 0) == Heard(Unrolled(segments)) + HeardAfter(tape, i + |Looped(segments)|)
    decreases |segments|
  {
    hide *;
    NoSegments();
    if segments == [] {
      NotAtEnd(tape, i);
      NothingHeard(HeardAfter(tape, i));
    } else {
      var s, rest, after := segments[0], segments[1..], HeardAfter(tape, i + |Looped(segments)|);
      FirstSegment(tape, i, segments);
      var next := i + |Bracketed(s)|;
      PlaySegment(tape, i, s);
      if rest == [] {
        NothingHeard(after);
      } else {
        NotAtEnd(tape, next);
        PlaySegments(tape, next, rest);
      }
      JoinHeard(segments, after);
    }
  }

  lemma NoSegments()
    ensures Looped([]) == Unrolled([]) == []
  {
  }

  lemma NotAtEnd(tape: Tape, i: nat)
    requires i < |tape|
    ensures InLoop(tape, None, 0) && HeardAfter(tape, i) == HeardFrom(tape, i, None, 0)
  {
  }

  lemma NothingHeard(after: seq<Edge>)
    ensures Heard([]) + after == after
  {
    NothingFirst(after);
  }

  lemma LoopedNotEmpty(segments: seq<Segment>)
    requires segments != []
    ensures Looped(segments) != []
  {
  }

  // ----- Whole tapes -----

  function PlayTape(tape: Tape): seq<Edge> {
    if tape == [] then [THE_END] else Play(tape, Begin(tape))
  }

  lemma PlayTapeIsHeard(tape: Tape)
    requires tape != []
    ensures Audible(PlayTape(tape)) == HeardFrom(tape, 0, None, 0)
  {
  }

  lemma PlayLastBlock(tape: Tape, n: nat)
    requires n + 1 == |tape| && Plain(tape[n])
    ensures HeardFrom(tape, n, None, 0) == Audible(Final(Sounds(tape[n])))
  {
    PlayLast(tape, At(tape, n, None, 0));
  }

  /** What is heard of a tape whose last block is plain: every block before it, then its own edges. */
  lemma PlayBracketed(segments: seq<Segment>, last: Block)
    requires WellBracketed(segments) && Plain(last)
    ensures Audible(PlayTape(Looped(segments) + [last])) == Heard(Unrolled(segments)) + Audible(Final(Sounds(last)))
  {
    hide *;
    var before := Looped(segments);
    var tape := before + [last];
    OccursFirst(before, last);
    PlayTapeIsHeard(tape);
    PlaySegments(tape, 0, segments);
    NotAtEnd(tape, |before|);
    PlayLastBlock(tape, |before|);
  }

  lemma OccursFirst(before: Tape, last: Block)
    ensures OccursAt(before + [last], 0, before) && OccursAt(before, 0, before)
  {
  }

  /** And of one whose last block ends a loop: every block, then the end of the tape. */
  lemma PlayEndingInLoop(segments: seq<Segment>)
    requires WellBracketed(segments)
    requires segments != [] && segments[|segments| - 1].Loop?
    ensures Audible(PlayTape(Looped(segments))) == Heard(Unrolled(segments)) + [THE_END]
  {
    hide *;
    var tape := Looped(segments);
    LoopedNotEmpty(segments);
    OccursFirst(tape, LoopEnd);
    PlayTapeIsHeard(tape);
    PlaySegments(tape, 0, segments);
    AtEnd(tape);
  }

  lemma AtEnd(tape: Tape)
    ensures HeardAfter(tape, |tape|) == [THE_END]
  {
  }

  lemma {:induction false} UnrolledIsPlain(segments: seq<Segment>)
    requires WellBracketed(segments)
    ensures forall i :: 0 <= i < |Unrolled(segments)| ==> Plain(Unrolled(segments)[i])
  {
    if segments != [] {
      UnrolledIsPlain(segments[1..]);
      if segments[0].Loop? {
        TimesIsPlain(segments[0].body, Turns(segments[0].count, 1));
      }
    }
  }

  lemma {:induction false} TimesIsPlain(body: Tape, n: nat)
    requires forall i :: 0 <= i < |body| ==> Plain(body[i])
    ensures forall i :: 0 <= i < |Times(body, n)| ==> Plain(Times(body, n)[i])
  {
    if n > 0 {
      TimesIsPlain(body, n - 1);
    }
  }

  /** Plain blocks as segments of their own. */
  function Ones(blocks: Tape): seq<Segment> {
    if blocks == [] then [] else [One(blocks[0])] + Ones(blocks[1..])
  }

  lemma {:induction false} OnesAreThemselves(blocks: Tape)
    requires forall i :: 0 <= i < |blocks| ==> Plain(blocks[i])
    ensures WellBracketed(Ones(blocks))
    ensures Looped(Ones(blocks)) == blocks && Unrolled(Ones(blocks)) == blocks
  {
    if blocks != [] {
      OnesAreThemselves(blocks[1..]);
      var rest := Ones(blocks[1..]);
      assert Ones(blocks)[0] == One(blocks[0]) && Ones(blocks)[1..] == rest;
    }
  }

  /** With a plain block last, loops can be written out: the tape sounds like its unrolling. */
  lemma UnrollingBeforePlainBlock(segments: seq<Segment>, last: Block)
    requires WellBracketed(segments) && Plain(last)
    ensures Audible(PlayTape(Looped(segments) + [last])) == Audible(PlayTape(Unrolled(segments) + [last]))
  {
    hide Sounds, SafeToPlay, Audible, Play, Final, Looped, Unrolled, PlayTape;
    PlayBracketed(segments, last);
    UnrolledIsPlain(segments);
    OnesAreThemselves(Unrolled(segments));
    PlayBracketed(Ones(Unrolled(segments)), last);
  }

  /** A block whose last step is silent and becomes nothing but the end of the tape when it is last. */
  predicate EndsSilently(b: Block) {
    var e := Sounds(b)[|Sounds(b)| - 1];
    Silent(e) && EndFlags(e) == THE_END
  }

  lemma SilentEnd(edges: seq<Edge>, tstates: nat)
    requires edges != [] && edges[|edges| - 1] == PauseEdge(tstates)
    ensures var e := edges[|edges| - 1]; (Silent(e) && EndFlags(e) == THE_END) <==> tstates == 0
  {
  }

  /** How many pulses of no length there are at the end. */
  function ZerosAtEnd(pulses: seq<dword>): nat {
    if pulses == [] || pulses[|pulses| - 1] != 0 then 0 else 1 + ZerosAtEnd(pulses[..|pulses| - 1])
  }

  /** Pulses ahead that are all of no length turn the level, and nothing else. */
  lemma {:induction false} OnlyZeros(pulses: seq<dword>, level: int, now: int)
    requires pulses != [] && forall k :: 0 <= k < |pulses| ==> pulses[k] == 0
    ensures LevelEdges(pulses, level, now) == [LevelEdge(0, level, LevelAt(now, |pulses|))]
  {
    if |pulses| == 1 {
      assert pulses[1..] == [];
      assert LevelAt(now, 1) == LevelAt(Flip(now), 0);
    } else {
      OnlyZeros(pulses[1..], level, Flip(now));
    }
  }

  /** The last edge of pulses that are not all of no length: the level is the last one reported, turned by the zeros
      behind it. */
  lemma {:induction false} LastLevelEdge(pulses: seq<dword>, n: nat, level: int, now: int) returns (l: int)
    requires n < |pulses| && pulses[n] != 0 && forall k :: n < k < |pulses| ==> pulses[k] == 0
    ensures var edges, z := LevelEdges(pulses, level, now), |pulses| - n - 1;
            && edges != [] && (l == 0 || l == 1)
            && (if z == 0 then edges[|edges| - 1].tstates != 0
                else edges[|edges| - 1] == LevelEdge(0, l, LevelAt(l, z)))
    decreases n
  {
    var edges, z := LevelEdges(pulses, level, now), |pulses| - n - 1;
    if n == 0 {
      l := Flip(now);
      if z > 0 {
        OnlyZeros(pulses[1..], Flip(now), Flip(now));
      } else {
        assert pulses[1..] == [];
      }
    } else {
      var before := if pulses[0] != 0 then Flip(now) else level;
      l := LastLevelEdge(pulses[1..], n - 1, before, Flip(now));
      var rest := LevelEdges(pulses[1..], before, Flip(now));
      assert edges[|edges| - 1] == rest[|rest| - 1];
    }
  }

  lemma {:induction false} ZerosAreAtEnd(pulses: seq<dword>)
    ensures var z := ZerosAtEnd(pulses);
            && z <= |pulses| && (forall k :: |pulses| - z <= k < |pulses| ==> pulses[k] == 0)
            && (z < |pulses| ==> pulses[|pulses| - z - 1] != 0)
  {
    if pulses != [] && pulses[|pulses| - 1] == 0 {
      ZerosAreAtEnd(pulses[..|pulses| - 1]);
    }
  }

  /** A pulse sequence ends silently when there are pulses of no length at its end, behind another one, and an even
      number of them, which leave the level as it was. */
  lemma SequenceEndsSilently(p: PulseSequence)
    requires ValidSequence(p)
    ensures var pulses, edges := PulsesFrom(p, 0), SequenceEdges(p);
            && edges != []
            && (var e, z := edges[|edges| - 1], ZerosAtEnd(pulses);
                (Silent(e) && EndFlags(e) == THE_END) <==> 0 < z < |pulses| && z % 2 == 0)
  {
    var pulses, edges := PulsesFrom(p, 0), SequenceEdges(p);
    SequenceNeverEmpty(p);
    var z := ZerosAtEnd(pulses);
    ZerosAreAtEnd(pulses);
    assert pulses != [];
    if z == |pulses| {
      OnlyZeros(pulses, -1, -1);
      LevelComesBack(0, z - 1);
      assert LevelAt(-1, z) == LevelAt(0, z - 1);
      assert edges[|edges| - 1] == LevelEdge(0, -1, LevelAt(-1, z));
      assert LevelAt(-1, z) != -1;
    } else {
      var l := LastLevelEdge(pulses, |pulses| - z - 1, -1, -1);
      if z > 0 {
        LevelComesBack(l, z);
        assert EndFlags(Edge(0, {NoEdge})) == THE_END;
        assert Silent(edges[|edges| - 1]) <==> z % 2 == 0;
      } else {
        assert !Silent(edges[|edges| - 1]);
      }
    }
  }

  lemma {:induction false} NoFlagsInPulses(lengths: seq<dword>)
    ensures forall k :: 0 <= k < |lengths| ==> PulseEdges(lengths)[k].flags == {}
  {
    if lengths != [] {
      NoFlagsInPulses(lengths[1..]);
    }
  }

  lemma {:induction false} LastKeepsItsPlace(edges: seq<Edge>, level: int)
    requires edges != []
    ensures var e, l := edges[|edges| - 1], WithLevels(edges, level)[|edges| - 1];
            l.tstates == e.tstates && (NoEdge in e.flags ==> l == e) && (NoEdge !in e.flags ==> NoEdge !in l.flags)
  {
    if |edges| > 1 {
      LastKeepsItsPlace(edges[1..], if NoEdge in edges[0].flags then level else Flip(level));
    }
  }

  /** Data that is followed by no pause ends silently, and so does a block without data. */
  lemma WhichBlocksEndSilently(b: Block)
    requires SafeToPlay(b)
    ensures b.NoData? ==> EndsSilently(b)
    ensures b.Rom? ==> (EndsSilently(b) <==> b.rom.pause == 0)
    ensures b.Turbo? ==> (EndsSilently(b) <==> b.turbo.body.pause == 0)
    ensures b.PureData? ==> (EndsSilently(b) <==> b.data.pause == 0)
    ensures b.Generalised? ==> (EndsSilently(b) <==> b.generalised.pause == 0)
    ensures b.Raw? ==> (EndsSilently(b) <==> b.raw.pause == 0)
    ensures b.Levelled? ==> (EndsSilently(b) <==> b.levelled.tail == 0)
    ensures b.Sequence? ==>
              var pulses := PulsesFrom(b.sequence, 0);
              EndsSilently(b) <==> 0 < ZerosAtEnd(pulses) < |pulses| && ZerosAtEnd(pulses) % 2 == 0
    ensures b.PauseFor? || b.StopIn48KMode? || b.SignalLevel? || b.Tone? || b.Pulses? || b.Rle? ==> !EndsSilently(b)
  {
    hide TurboEdges, DataEdges, GeneralisedEdges, SequenceEdges, RawEdges, RleEdges, LevelledEdges, ToneEdges,
         PulseEdges;
    match b
    case Rom(r) => TurboEnd(RomTimings(r)); SilentEnd(Sounds(b), r.pause);
    case Turbo(t) => TurboEnd(t); SilentEnd(Sounds(b), t.body.pause);
    case PureData(d) => DataEnd(d); SilentEnd(Sounds(b), d.pause);
    case Generalised(g) => GeneralisedEnd(g); SilentEnd(Sounds(b), g.pause);
    case Raw(r) => RawEnd(r); SilentEnd(Sounds(b), r.pause);
    case Levelled(l) => LevelledEnd(l);
    case Sequence(p) => SequenceEndsSilently(p);
    case Tone(t) => ToneEnd(t);
    case Pulses(lengths) => NoFlagsInPulses(lengths);
    case Rle(r) => RleEnd(r);
    case _ =>
  }

  lemma DataEnd(d: DataBlock)
    ensures var e := DataEdges(d); e != [] && e[|e| - 1] == PauseEdge(d.pause)
  {
  }

  lemma TurboEnd(t: TurboBlock)
    ensures var e := TurboEdges(t); e != [] && e[|e| - 1] == PauseEdge(t.body.pause)
  {
    DataEnd(t.body);
  }

  lemma GeneralisedEnd(g: GeneralisedBlock)
    requires ValidBlock(g)
    ensures var e := GeneralisedEdges(g); e != [] && e[|e| - 1] == PauseEdge(g.pause)
  {
  }

  lemma RawEnd(r: RawBlock)
    requires ValidRaw(r)
    ensures var e := RawEdges(r); e != [] && e[|e| - 1] == PauseEdge(r.pause)
  {
  }

  lemma LevelledEnd(l: LevelledBlock)
    requires ValidLevelled(l)
    ensures var e := LevelledEdges(l);
            e != [] && ((Silent(e[|e| - 1]) && EndFlags(e[|e| - 1]) == THE_END) <==> l.tail == 0)
  {
    LastKeepsItsPlace(PulsesOfBits(l, BitsFrom(AsData(l), 0)) + [PauseEdge(l.tail)], l.level);
  }

  lemma ToneEnd(t: ToneBlock)
    ensures var e := ToneEdges(t); e != [] && e[|e| - 1].flags == {}
  {
  }

  lemma RleEnd(r: RleBlock)
    requires ValidRle(r)
    ensures var e := RleEdges(r); e != [] && e[|e| - 1].flags == {}
  {
    NoFlagsInPulses(PulsesFromIndex(r.data, 0, r.scale).value);
  }

  lemma {:induction false} SegmentsAppend(a: seq<Segment>, s: Segment)
    ensures Looped(a + [s]) == Looped(a) + Bracketed(s) && Unrolled(a + [s]) == Unrolled(a) + Rounds(s)
  {
    hide Sounds, SafeToPlay, Bracketed, Rounds;
    if a == [] {
      assert [] + [s] == [s];
      assert Looped([s]) == Bracketed(s) + Looped([]) == Bracketed(s);
      assert Unrolled([s]) == Rounds(s) + Unrolled([]) == Rounds(s);
      NothingFirst(Bracketed(s));
      NothingFirst(Rounds(s));
    } else {
      SegmentsAppend(a[1..], s);
      assert (a + [s])[1..] == a[1..] + [s];
      Assoc(Bracketed(a[0]), Looped(a[1..]), Bracketed(s));
      Assoc(Rounds(a[0]), Unrolled(a[1..]), Rounds(s));
    }
  }

  /** The two ways to mark the last step of a block agree just when it ends silently. */
  lemma LastStepAgrees(heard: seq<Edge>, rest: seq<Edge>)
    requires rest != []
    ensures (heard + Audible(Followed(rest)) + [THE_END] == heard + Audible(Final(rest)))
        <==> (Silent(rest[|rest| - 1]) && EndFlags(rest[|rest| - 1]) == THE_END)
  {
    var x, e := rest[..|rest| - 1], rest[|rest| - 1];
    AudibleAppend(x, [BlockFlag(e)]);
    AudibleAppend(x, [EndFlags(e)]);
    assert Audible([EndFlags(e)]) == [EndFlags(e)];
    var common := heard + Audible(x);
    assert heard + Audible(Final(rest)) == common + [EndFlags(e)];
    if Silent(e) {
      assert Audible([BlockFlag(e)]) == [];
      assert heard + Audible(Followed(rest)) + [THE_END] == common + [THE_END];
      assert (common + [THE_END])[|common|] == THE_END && (common + [EndFlags(e)])[|common|] == EndFlags(e);
    } else {
      assert Audible([BlockFlag(e)]) == [BlockFlag(e)];
      assert |heard + Audible(Followed(rest)) + [THE_END]| == |common| + 2;
    }
  }

  ghost predicate EndsAlike(segments: seq<Segment>) {
    var u := Unrolled(segments);
    segments == [] || segments[|segments| - 1].One? || u == [] || EndsSilently(u[|u| - 1])
  }

  /** Writing loops out keeps the sound of a tape exactly when it does not end in a loop, or its unrolling
      ends silently: else the looped tape has one more edge, of no length, at its end. */
  lemma UnrollingKeepsTheSound(segments: seq<Segment>)
    requires WellBracketed(segments)
    ensures Audible(PlayTape(Looped(segments))) == Audible(PlayTape(Unrolled(segments))) <==> EndsAlike(segments)
  {
    hide Sounds, SafeToPlay, Play, Looped, Unrolled, EndsSilently;
    var u := Unrolled(segments);
    if segments == [] {
      assert Looped(segments) == Unrolled(segments) by {
        NoSegments();
      }
    } else if segments[|segments| - 1].One? {
      PlainIsLast(segments);
    } else if u == [] {
      PlayEndingInLoop(segments);
      NothingHeard([THE_END]);
      assert Audible([THE_END]) == [THE_END];
    } else {
      LoopIsLast(segments);
    }
  }

  /** A tape that is a loop around one tone has one more edge than the tone. */
  lemma LoopAroundATone()
    ensures var tone := Tone(ToneBlock(100, 1));
            && Audible(PlayTape(Looped([Loop(1, [tone])]))) == [Edge(100, {Flag.Block}), THE_END]
            && Audible(PlayTape(Unrolled([Loop(1, [tone])]))) == [Edge(100, {Flag.Block, Stop, Flag.Tape})]
  {
    hide *;
    var tone := Tone(ToneBlock(100, 1));
    OneTone();
    OneLoop(tone);
    PlayEndingInLoop([Loop(1, [tone])]);
    NoSegments();
    PlayBracketed([], tone);
  }

  lemma OneLoop(b: Block)
    requires Plain(b)
    ensures WellBracketed([Loop(1, [b])]) && WellBracketed([]) && Unrolled([Loop(1, [b])]) == [b]
    ensures Looped([]) + [b] == [b]
  {
    OneRound([b]);
    assert [Loop(1, [b])][1..] == [];
    assert Rounds(Loop(1, [b])) == Times([b], 1) == [b];
  }

  lemma OneTone()
    ensures var tone := Tone(ToneBlock(100, 1));
            && Plain(tone) && Heard([tone]) + [THE_END] == [Edge(100, {Flag.Block}), THE_END]
            && Heard([]) + Audible(Final(Sounds(tone))) == [Edge(100, {Flag.Block, Stop, Flag.Tape})]
  {
    var tone := Tone(ToneBlock(100, 1));
    var e := Edge(100, {});
    assert Repeat(e, 1) == [e];
    assert Sounds(tone) == [e];
    assert Followed([e]) == [BlockFlag(e)] && Final([e]) == [EndFlags(e)];
    assert EndFlags(e) == Edge(100, {Flag.Block, Stop, Flag.Tape}) && BlockFlag(e) == Edge(100, {Flag.Block});
    assert Audible([BlockFlag(e)]) == [BlockFlag(e)] && Audible([EndFlags(e)]) == [EndFlags(e)];
    assert Heard([tone]) == Audible(Followed(Sounds(tone))) + Heard([tone][1..]);
    assert [tone][1..] == [] && Heard([]) == [];
  }

  lemma PlainIsLast(segments: seq<Segment>)
    requires WellBracketed(segments) && segments != [] && segments[|segments| - 1].One?
    ensures Audible(PlayTape(Looped(segments))) == Audible(PlayTape(Unrolled(segments)))
  {
    hide *;
    var init, s := segments[..|segments| - 1], segments[|segments| - 1];
    assert segments == init + [s];
    AllButLast(segments);
    SegmentsAppend(init, s);
    UnrollingBeforePlainBlock(init, s.block);
  }

  lemma AllButLast(segments: seq<Segment>)
    requires WellBracketed(segments) && segments != [] && segments[|segments| - 1].One?
    ensures WellBracketed(segments[..|segments| - 1])
    ensures var s := segments[|segments| - 1]; Plain(s.block) && Bracketed(s) == Rounds(s) == [s.block]
  {
    assert NoMarkersInside(segments[|segments| - 1]);
  }

  lemma LoopIsLast(segments: seq<Segment>)
    requires WellBracketed(segments)
    requires segments != [] && segments[|segments| - 1].Loop? && Unrolled(segments) != []
    ensures var u := Unrolled(segments);
            Audible(PlayTape(Looped(segments))) == Audible(PlayTape(u)) <==> EndsSilently(u[|u| - 1])
  {
    var u := Unrolled(segments);
    var before, last := u[..|u| - 1], u[|u| - 1];
    UnrolledIsPlain(segments);
    assert u == before + [last];
    hide Sounds, SafeToPlay, Play, Final, Followed, Looped, Unrolled, PlayTape, Silent;
    assert Heard([last]) == Audible(Followed(Sounds(last))) by {
      assert [last][1..] == [];
    }
    PlayEndingInLoop(segments);
    HeardAppend(before, [last]);
    OnesAreThemselves(before);
    PlayBracketed(Ones(before), last);
    LastStepAgrees(Heard(before), Sounds(last));
  }
}
