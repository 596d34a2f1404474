/** Writing a tape as CSW (csw.c): edges are resampled into run lengths without losing time, and
    the player of such pulses in tape.c gets back exactly what was written. */
module Csw {
  import opened Bytes
  import opened SampledData
  import opened TapeEdges
  import opened TapeRun
  import opened TapeDeck

  // ----- The edges that are written -----

  /** Everything from a position to the first edge that stops the tape. */
  function ToStop(tape: Tape, p: Position): seq<Edge>
    requires OnTape(tape, p)
    decreases AheadOfLoop(p), BlocksBeyond(tape, p), RoundsLeft(p), |tape| - p.current, |p.rest|
  {
    var r := Step(tape, p);
    StepDescends(tape, p);
    if Stop in r.edge.flags then [r.edge] else [r.edge] + ToStop(tape, r.next)
  }

  /** The steps short of the first one that stops the tape are those of the whole tape. */
  lemma {:induction false} ToStopIsPrefix(tape: Tape, p: Position)
    requires OnTape(tape, p)
    ensures ToStop(tape, p) <= Play(tape, p)
    decreases AheadOfLoop(p), BlocksBeyond(tape, p), RoundsLeft(p), |tape| - p.current, |p.rest|
  {
    StepDescends(tape, p);
    var r := Step(tape, p);
    if Stop !in r.edge.flags {
      ToStopIsPrefix(tape, r.next);
    }
  }

  // ----- Resampling -----

  function AddWrapped(balance: dword, tstates: nat): dword {
    (balance + tstates) % DWORD_MODULUS
  }

  /** The pulses written for some edges, given the time carried over: steps that are no edge only add to
      it, and a pulse shorter than one sample is not written. */
  function Resampled(edges: seq<Edge>, balance: dword, scale: nat): seq<nat>
    requires scale > 0
  {
    if edges == [] then []
    else
      var due := AddWrapped(balance, edges[0].tstates);
      if NoEdge in edges[0].flags then Resampled(edges[1..], due, scale)
      else (if due / scale > 0 then [due / scale] else []) + Resampled(edges[1..], due % scale, scale)
  }

  /** The time carried over an edge. */
  function Carried(edge: Edge, balance: dword, scale: nat): dword
    requires scale > 0
  {
    var due := AddWrapped(balance, edge.tstates);
    if NoEdge in edge.flags then due else due % scale
  }

  function FinalBalance(edges: seq<Edge>, balance: dword, scale: nat): dword
    requires scale > 0
  {
    if edges == [] then balance else FinalBalance(edges[1..], Carried(edges[0], balance, scale), scale)
  }

  /** How often the carried time goes over the top of its dword at one edge, and at all of them. */
  function Overflow(edge: Edge, balance: dword): nat {
    (balance + edge.tstates) / DWORD_MODULUS
  }

  function Overflows(edges: seq<Edge>, balance: dword, scale: nat): nat
    requires scale > 0
  {
    if edges == [] then 0
    else Overflow(edges[0], balance) + Overflows(edges[1..], Carried(edges[0], balance, scale), scale)
  }

  /** How long some pulses last. */
  function TimeWritten(pulses: seq<nat>, scale: nat): int {
    if pulses == [] then 0 else scale * pulses[0] + TimeWritten(pulses[1..], scale)
  }

  /** Time is only ever lost to overflow: samples written, time carried and time lost make up the time played. */
  lemma {:induction false} TimeIsKept(edges: seq<Edge>, balance: dword, scale: nat)
    requires scale > 0
    ensures TimeWritten(Resampled(edges, balance, scale), scale) + FinalBalance(edges, balance, scale)
            + DWORD_MODULUS * Overflows(edges, balance, scale) == balance + Duration(edges)
  {
    hide Carried, Overflow, Resampled, TimeWritten;
    if edges == [] {
      assert TimeWritten(Resampled(edges, balance, scale), scale) == 0 by { NothingResampled(balance, scale); }
    } else {
      TimeOfFirst(edges, balance, scale);
      TimeIsKept(edges[1..], Carried(edges[0], balance, scale), scale);
    }
  }

  lemma NothingResampled(balance: dword, scale: nat)
    requires scale > 0
    ensures TimeWritten(Resampled([], balance, scale), scale) == 0
  {
  }

  /** What an edge has due is written, carried on or lost. */
  lemma TimeOfFirst(edges: seq<Edge>, balance: dword, scale: nat)
    requires scale > 0 && edges != []
    ensures var carried := Carried(edges[0], balance, scale);
            TimeWritten(Resampled(edges, balance, scale), scale) + carried + DWORD_MODULUS * Overflow(edges[0], balance)
              == balance + edges[0].tstates + TimeWritten(Resampled(edges[1..], carried, scale), scale)
  {
    var due := AddWrapped(balance, edges[0].tstates);
    assert balance + edges[0].tstates == due + DWORD_MODULUS * Overflow(edges[0], balance);
    var q, rest := due / scale, Resampled(edges[1..], Carried(edges[0], balance, scale), scale);
    assert scale * q + due % scale == due;
    hide AddWrapped, Overflow;
    if NoEdge !in edges[0].flags {
      if q > 0 {
        assert ([q] + rest)[1..] == rest;
      } else {
        assert [] + rest == rest;
      }
    }
  }

  // ----- When time is lost -----

  /** The place behind the last step before i that was an edge. */
  function LastEdge(edges: seq<Edge>, i: nat): (j: nat)
    requires i <= |edges|
    ensures j <= i
  {
    if i == 0 || NoEdge !in edges[i - 1].flags then i else LastEdge(edges, i - 1)
  }

  /** The time that has come together at step i: what that edge left of a sample, and all that was played since. */
  function Due(edges: seq<Edge>, i: nat, scale: nat): nat
    requires scale > 0 && i < |edges|
  {
    var j := LastEdge(edges, i);
    Duration(edges[..j]) % scale + Duration(edges[j..i + 1])
  }

  predicate NeverOverflows(edges: seq<Edge>, scale: nat)
    requires scale > 0
  {
    forall i :: 0 <= i < |edges| ==> Due(edges, i, scale) < DWORD_MODULUS
  }

  /** The same with some time carried over from before. */
  function DueFrom(edges: seq<Edge>, i: nat, balance: nat, scale: nat): nat
    requires scale > 0 && i < |edges|
  {
    var j := LastEdge(edges, i);
    (if j == 0 then balance else (balance + Duration(edges[..j])) % scale) + Duration(edges[j..i + 1])
  }

  lemma DueFromNothing(edges: seq<Edge>, i: nat, scale: nat)
    requires scale > 0 && i < |edges|
    ensures DueFrom(edges, i, 0, scale) == Due(edges, i, scale)
  {
    assert 0 % scale == 0 by { SmallRemainder(0, scale); }
  }

  lemma SmallRemainder(x: nat, scale: nat)
    requires x < scale
    ensures x % scale == x
  {
  }

  lemma {:induction false} LastEdgeOfRest(edges: seq<Edge>, i: nat)
    requires 0 < i <= |edges|
    ensures var j := LastEdge(edges[1..], i - 1);
            LastEdge(edges, i) == if j > 0 || NoEdge !in edges[0].flags then j + 1 else 0
    decreases i
  {
    if i > 1 {
      assert edges[1..][i - 2] == edges[i - 1];
      LastEdgeOfRest(edges, i - 1);
    }
  }

  lemma FirstOfSome(edges: seq<Edge>, j: nat)
    requires 0 < j <= |edges|
    ensures Duration(edges[..j]) == edges[0].tstates + Duration(edges[1..][..j - 1])
  {
    assert edges[..j][1..] == edges[1..][..j - 1];
  }

  lemma SameSlice<T>(s: seq<T>, j: nat, i: nat)
    requires 0 < j <= i <= |s|
    ensures s[j..i] == s[1..][j - 1..i - 1]
  {
    forall k | 0 <= k < i - j ensures s[j..i][k] == s[1..][j - 1..i - 1][k] {
    }
  }

  lemma RemainderOfSum(a: nat, b: nat, scale: nat)
    requires scale > 0
    ensures (a + b) % scale == (a % scale + b) % scale
  {
    var q := a / scale;
    assert a == scale * q + a % scale;
    MultipleOf(a % scale + b, q, scale);
  }

  lemma {:induction false} MultipleOf(x: nat, q: nat, scale: nat)
    requires scale > 0
    ensures (scale * q + x) % scale == x % scale
    decreases q
  {
    if q > 0 {
      MultipleOf(x, q - 1, scale);
      var y := scale * (q - 1) + x;
      assert scale * q + x == y + scale;
      OneMultiple(y, scale);
    }
  }

  lemma OneMultiple(y: nat, scale: nat)
    requires scale > 0
    ensures (y + scale) % scale == y % scale
  {
    var q, r := y / scale, y % scale;
    assert y == scale * q + r && y + scale == scale * (q + 1) + r;
    QuotientIs(y + scale, q + 1, r, scale);
  }

  lemma QuotientIs(x: nat, q: nat, r: nat, scale: nat)
    requires scale > 0 && x == scale * q + r && r < scale
    ensures x % scale == r
  {
    var p, t := x / scale, x % scale;
    assert x == scale * p + t;
    if t >= r {
      Difference(scale, q, p);
    } else {
      Difference(scale, p, q);
    }
  }

  /** Beyond the first edge, what has come together is the same seen from the second one on. */
  lemma DueOfRest(edges: seq<Edge>, i: nat, balance: dword, scale: nat)
    requires scale > 0 && 0 < i < |edges| && balance + edges[0].tstates < DWORD_MODULUS
    ensures DueFrom(edges, i, balance, scale) == DueFrom(edges[1..], i - 1, Carried(edges[0], balance, scale), scale)
  {
    hide Duration, LastEdge, Carried;
    var rest, t, c := edges[1..], edges[0].tstates, Carried(edges[0], balance, scale);
    var j, k := LastEdge(edges, i), LastEdge(rest, i - 1);
    LastEdgeOfRest(edges, i);
    CarriedIs(edges[0], balance, scale);
    if j == 0 {
      FirstOfSome(edges, i + 1);
      assert edges[0..i + 1] == edges[..i + 1] && rest[0..i] == rest[..i];
    } else {
      FirstOfSome(edges, j);
      SameSlice(edges, j, i + 1);
      BehindFirst(balance + t, Duration(rest[..k]), c, scale);
      NoDuration(rest);
    }
  }

  lemma CarriedIs(edge: Edge, balance: dword, scale: nat)
    requires scale > 0 && balance + edge.tstates < DWORD_MODULUS
    ensures Carried(edge, balance, scale)
         == if NoEdge in edge.flags then balance + edge.tstates else (balance + edge.tstates) % scale
  {
  }

  lemma BehindFirst(due: nat, more: nat, carried: nat, scale: nat)
    requires scale > 0 && (carried == due || carried == due % scale)
    ensures (due + more) % scale == (carried + more) % scale
    ensures carried == due % scale && more == 0 ==> (due + more) % scale == carried
  {
    RemainderOfSum(due, more, scale);
    RemainderOfSum(carried, more, scale);
    SmallRemainder(due % scale, scale);
  }

  lemma NoDuration(edges: seq<Edge>)
    ensures Duration(edges[..0]) == 0
  {
  }

  lemma FirstDue(edges: seq<Edge>, balance: dword, scale: nat)
    requires scale > 0 && edges != []
    ensures DueFrom(edges, 0, balance, scale) == balance + edges[0].tstates
  {
    assert edges[..0] == [];
    assert edges[0..1] == [edges[0]] && [edges[0]][1..] == [];
    assert Duration([edges[0]]) == edges[0].tstates + Duration([]);
  }

  lemma FitsOneTurn(x: nat)
    ensures x / DWORD_MODULUS == 0 <==> x < DWORD_MODULUS
  {
  }

  /** The dword overflows exactly when more comes together at some step than it holds. */
  lemma {:induction false} OverflowsWhenDue(edges: seq<Edge>, balance: dword, scale: nat)
    requires scale > 0
    ensures Overflows(edges, balance, scale) == 0
        <==> forall i :: 0 <= i < |edges| ==> DueFrom(edges, i, balance, scale) < DWORD_MODULUS
  {
    hide DueFrom, Carried;
    if edges != [] {
      var c := Carried(edges[0], balance, scale);
      FirstDue(edges, balance, scale);
      FitsOneTurn(balance + edges[0].tstates);
      OverflowsWhenDue(edges[1..], c, scale);
      if balance + edges[0].tstates < DWORD_MODULUS {
        forall i | 0 < i < |edges|
          ensures DueFrom(edges, i, balance, scale) == DueFrom(edges[1..], i - 1, c, scale)
        {
          DueOfRest(edges, i, balance, scale);
        }
        DueShift(edges, balance, c, scale);
      }
    }
  }

  lemma DueShift(edges: seq<Edge>, balance: dword, c: dword, scale: nat)
    requires scale > 0 && edges != []
    requires forall i :: 0 < i < |edges| ==>
               DueFrom(edges, i, balance, scale) == DueFrom(edges[1..], i - 1, c, scale)
    ensures (forall i :: 0 < i < |edges| ==> DueFrom(edges, i, balance, scale) < DWORD_MODULUS)
        <==> forall i :: 0 <= i < |edges[1..]| ==> DueFrom(edges[1..], i, c, scale) < DWORD_MODULUS
  {
    hide DueFrom;
    if forall i :: 0 < i < |edges| ==> DueFrom(edges, i, balance, scale) < DWORD_MODULUS {
      forall i | 0 <= i < |edges[1..]| ensures DueFrom(edges[1..], i, c, scale) < DWORD_MODULUS {
        assert DueFrom(edges, i + 1, balance, scale) == DueFrom(edges[1..], i, c, scale);
      }
    }
  }

  lemma OverflowsExactly(edges: seq<Edge>, scale: nat)
    requires scale > 0
    ensures Overflows(edges, 0, scale) == 0 <==> NeverOverflows(edges, scale)
  {
    hide Due, DueFrom, Overflows;
    OverflowsWhenDue(edges, 0, scale);
    forall i | 0 <= i < |edges| ensures DueFrom(edges, i, 0, scale) == Due(edges, i, scale) {
      DueFromNothing(edges, i, scale);
    }
  }

  /** Resampling loses no time exactly when no more than a dword holds comes together at any step: what the last edge
      left over, and the time since. */
  lemma NoDrift(edges: seq<Edge>, scale: nat)
    requires scale > 0
    ensures TimeWritten(Resampled(edges, 0, scale), scale) + FinalBalance(edges, 0, scale) == Duration(edges)
        <==> NeverOverflows(edges, scale)
  {
    hide NeverOverflows;
    TimeIsKept(edges, 0, scale);
    OverflowsExactly(edges, scale);
  }

  /** Resampling some edges and then others is to resample them all. */
  lemma {:induction false} ResampledAppend(xs: seq<Edge>, ys: seq<Edge>, balance: dword, scale: nat)
    requires scale > 0
    ensures var middle := FinalBalance(xs, balance, scale);
            && Resampled(xs + ys, balance, scale) == Resampled(xs, balance, scale) + Resampled(ys, middle, scale)
            && FinalBalance(xs + ys, balance, scale) == FinalBalance(ys, middle, scale)
            && Overflows(xs + ys, balance, scale) == Overflows(xs, balance, scale) + Overflows(ys, middle, scale)
  {
    hide AddWrapped, Overflow;
    if xs == [] {
      assert xs + ys == ys;
      assert [] + Resampled(ys, balance, scale) == Resampled(ys, balance, scale);
    } else {
      assert (xs + ys)[1..] == xs[1..] + ys;
      ResampledAppend(xs[1..], ys, Carried(xs[0], balance, scale), scale);
      FirstResampled(xs, balance, scale);
      FirstResampled(xs + ys, balance, scale);
      Assoc(FirstPulse(xs[0], balance, scale), Resampled(xs[1..], Carried(xs[0], balance, scale), scale),
            Resampled(ys, FinalBalance(xs, balance, scale), scale));
    }
  }

  /** What is written for one edge. */
  function FirstPulse(edge: Edge, balance: dword, scale: nat): seq<nat>
    requires scale > 0
  {
    var due := AddWrapped(balance, edge.tstates);
    if NoEdge !in edge.flags && due / scale > 0 then [due / scale] else []
  }

  lemma FirstResampled(edges: seq<Edge>, balance: dword, scale: nat)
    requires scale > 0 && edges != []
    ensures Resampled(edges, balance, scale)
         == FirstPulse(edges[0], balance, scale) + Resampled(edges[1..], Carried(edges[0], balance, scale), scale)
  {
    var rest := Resampled(edges[1..], Carried(edges[0], balance, scale), scale);
    assert [] + rest == rest;
  }

  /** Nor is any time lost on the way: what is written for the first edges is what is written first. */
  lemma NoDriftSoFar(edges: seq<Edge>, k: nat, scale: nat)
    requires scale > 0 && k <= |edges| && NeverOverflows(edges, scale)
    ensures Resampled(edges[..k], 0, scale) <= Resampled(edges, 0, scale)
    ensures TimeWritten(Resampled(edges[..k], 0, scale), scale) + FinalBalance(edges[..k], 0, scale)
         == Duration(edges[..k])
  {
    hide NeverOverflows;
    assert edges[..k] + edges[k..] == edges;
    ResampledAppend(edges[..k], edges[k..], 0, scale);
    OverflowsExactly(edges, scale);
    TimeIsKept(edges[..k], 0, scale);
  }

  // ----- Tapes that lose no time -----

  /** An edge with room for a sample beside it in a dword; a step that is no edge takes no time. */
  predicate Short(e: Edge, scale: nat) {
    e.tstates + scale <= DWORD_MODULUS && (NoEdge in e.flags ==> e.tstates == 0)
  }

  predicate AllShort(edges: seq<Edge>, scale: nat) {
    forall i :: 0 <= i < |edges| ==> Short(edges[i], scale)
  }

  lemma {:induction false} ShortEdgesDoNotOverflow(edges: seq<Edge>, balance: dword, scale: nat)
    requires scale > 0 && balance < scale && AllShort(edges, scale)
    ensures Overflows(edges, balance, scale) == 0
  {
    if edges != [] {
      assert Short(edges[0], scale);
      FitsOneTurn(balance + edges[0].tstates);
      assert AddWrapped(balance, edges[0].tstates) == balance + edges[0].tstates;
      assert AllShort(edges[1..], scale);
      ShortEdgesDoNotOverflow(edges[1..], Carried(edges[0], balance, scale), scale);
    }
  }

  lemma ShortEdgesLoseNoTime(edges: seq<Edge>, scale: nat)
    requires scale > 0 && AllShort(edges, scale)
    ensures NeverOverflows(edges, scale)
  {
    hide NeverOverflows, AllShort;
    ShortEdgesDoNotOverflow(edges, 0, scale);
    OverflowsExactly(edges, scale);
  }

  /** After an edge, less than one sample is carried over. */
  lemma {:induction false} LessThanASample(edges: seq<Edge>, balance: dword, scale: nat)
    requires scale > 0 && edges != [] && NoEdge !in edges[|edges| - 1].flags
    ensures FinalBalance(edges, balance, scale) < scale
  {
    if |edges| > 1 {
      LessThanASample(edges[1..], Carried(edges[0], balance, scale), scale);
    }
  }

  // ----- Run lengths as bytes -----

  function EncodedPulse(pulse: nat): (r: seq<byte>)
    ensures r != []
  {
    if 0 < pulse <= 0xff then [pulse] else [0] + DwordBytes(pulse)
  }

  /** A pulse of up to 255 samples is a byte, a longer one a zero and its length in four bytes. */
  lemma PulseLayout(n: nat)
    ensures 1 <= n <= 255 ==> EncodedPulse(n) == [n]
    ensures 256 <= n < DWORD_MODULUS ==>
              EncodedPulse(n) == [0, n % 256, n / 256 % 256, n / 0x1_0000 % 256, n / 0x100_0000]
  {
    assert n < DWORD_MODULUS ==> n / 0x100_0000 < 256;
  }

  function Encoded(pulses: seq<nat>): seq<byte> {
    if pulses == [] then [] else EncodedPulse(pulses[0]) + Encoded(pulses[1..])
  }

  /** csw_write_body, before its output is compressed. */
  method WriteBody(player: TapePlayer, scale: nat) returns (body: seq<byte>)
    requires player.Valid() && scale > 0
    modifies player, player.Players()
    ensures body == Encoded(Resampled(old(ToStop(player.blocks, player.Where())), 0, scale))
  {
    hide *;
    body := [];
    var balance: dword, stop := 0, false;
    ghost var edges := ToStop(player.blocks, player.Where());
    ghost var tape, todo := player.blocks, Encoded(Resampled(edges, 0, scale));
    ghost var total := todo;
    while !stop
      invariant player.Valid() && player.blocks == tape
      invariant edges == if stop then [] else ToStop(tape, player.Where())
      invariant todo == Encoded(Resampled(edges, balance, scale)) && total == body + todo
      decreases |edges|
    {
      ToStopStep(tape, player.Where());
      var edge, endOfTape := player.GetNextEdge();
      stop := Stop in edge.flags;
      ghost var rest := if stop then [] else ToStop(tape, player.Where());
      assert edges == [edge] + rest;
      ResampledStep(edge, rest, balance, scale);
      edges := rest;
      balance := AddWrapped(balance, edge.tstates);
      if NoEdge !in edge.flags {
        var pulse := balance / scale;
        balance := balance % scale;
        if pulse > 0 {
          todo := Encoded(Resampled(rest, balance, scale));
          Assoc(body, EncodedPulse(pulse), todo);
          WhichForm(pulse);
          if pulse <= 0xff {
            body := body + [pulse];
          } else {
            body := body + ([0] + DwordBytes(pulse));
          }
        }
      }
    }
    NothingWritten(balance, scale);
    assert body + [] == body;
  }

  /** A pulse of up to 255 samples is a byte, a longer one a zero and a dword. */
  lemma WhichForm(pulse: nat)
    requires pulse > 0
    ensures EncodedPulse(pulse) == if pulse <= 0xff then [pulse] else [0] + DwordBytes(pulse)
  {
  }

  lemma NothingWritten(balance: dword, scale: nat)
    requires scale > 0
    ensures Encoded(Resampled([], balance, scale)) == []
  {
  }

  lemma ToStopStep(tape: Tape, p: Position)
    requires OnTape(tape, p)
    ensures var r := Step(tape, p);
            ToStop(tape, p) == [r.edge] + if Stop in r.edge.flags then [] else ToStop(tape, r.next)
  {
  }

  /** What the first edge contributes to the bytes. */
  lemma ResampledStep(edge: Edge, rest: seq<Edge>, balance: dword, scale: nat)
    requires scale > 0
    ensures var due := AddWrapped(balance, edge.tstates);
            Encoded(Resampled([edge] + rest, balance, scale)) ==
              if NoEdge in edge.flags then Encoded(Resampled(rest, due, scale))
              else if due / scale > 0 then EncodedPulse(due / scale) + Encoded(Resampled(rest, due % scale, scale))
              else Encoded(Resampled(rest, due % scale, scale))
  {
    assert ([edge] + rest)[1..] == rest;
    var due := AddWrapped(balance, edge.tstates);
    var after := Resampled(rest, due % scale, scale);
    if due / scale > 0 {
      assert ([due / scale] + after)[1..] == after;
    } else {
      assert [] + after == after;
    }
  }

  // ----- Playing run lengths -----

  function Scaled(pulses: seq<nat>, scale: nat): (r: seq<dword>)
    ensures |r| == |pulses|
  {
    if pulses == [] then [] else [scale * pulses[0] % DWORD_MODULUS] + Scaled(pulses[1..], scale)
  }

  lemma PulsePlaysBack(before: seq<byte>, pulse: nat, after: seq<byte>, scale: nat)
    requires 0 < pulse < DWORD_MODULUS
    ensures var p := EncodedPulse(pulse);
            PulseAt(before + p + after, |before|, scale) == Ok(RlePulse(scale * pulse % DWORD_MODULUS, |before| + |p|))
  {
    var p := EncodedPulse(pulse);
    var data, i := before + p + after, |before|;
    assert data[i..i + |p|] == p;
    assert data[i] == data[i..i + |p|][0];
    if pulse > 0xff {
      assert data[i + 1..i + 5] == data[i..i + 5][1..] == DwordBytes(pulse);
      hide DwordAt, DwordBytes;
      assert DwordAt(data, i + 1) == pulse by { DwordRoundTrip(pulse, data, i + 1); }
    }
  }

  /** Playing the bytes gives back each pulse, times the scale, in a dword. */
  lemma {:induction false} RlePlaysBack(before: seq<byte>, pulses: seq<nat>, scale: nat)
    requires InRange(pulses, scale)
    ensures PulsesFromIndex(before + Encoded(pulses), |before|, scale) == Ok(Scaled(pulses, scale))
    decreases |pulses|
  {
    hide EncodedPulse, PulseAt;
    if pulses == [] {
      assert before + [] == before;
    } else {
      var p, rest := EncodedPulse(pulses[0]), Encoded(pulses[1..]);
      Assoc(before, p, rest);
      RlePlaysBack(before + p, pulses[1..], scale);
      PulsePlaysBack(before, pulses[0], rest, scale);
    }
  }

  lemma {:induction false} ResampledInRange(edges: seq<Edge>, balance: dword, scale: nat)
    requires scale > 0
    ensures InRange(Resampled(edges, balance, scale), scale)
  {
    if edges != [] {
      var due := AddWrapped(balance, edges[0].tstates);
      hide AddWrapped;
      ResampledInRange(edges[1..], if NoEdge in edges[0].flags then due else due % scale, scale);
      QuotientInRange(due, scale);
    }
  }

  predicate InRange(pulses: seq<nat>, scale: nat) {
    forall k :: 0 <= k < |pulses| ==> 0 < pulses[k] < DWORD_MODULUS && scale * pulses[k] < DWORD_MODULUS
  }

  lemma QuotientInRange(due: dword, scale: nat)
    requires scale > 0
    ensures due / scale <= due && scale * (due / scale) <= due
  {
    FactorsAreSmaller(scale, due / scale, due % scale);
  }

  lemma FactorsAreSmaller(scale: nat, q: nat, r: nat)
    requires scale > 0
    ensures q <= scale * q + r && scale * q <= scale * q + r
  {
    assert (scale - 1) * q >= 0;
  }

  /** A tape written as CSW and played back: every pulse lasts exactly scale times the samples written, so
      up to the time carried over at the end nothing is gained or lost. */
  lemma CswRoundTrip(edges: seq<Edge>, scale: nat)
    requires scale > 0
    ensures var pulses := Resampled(edges, 0, scale);
            && PulsesFromIndex(Encoded(pulses), 0, scale) == Ok(Scaled(pulses, scale))
            && forall k :: 0 <= k < |pulses| ==> Scaled(pulses, scale)[k] == scale * pulses[k]
  {
    hide Resampled, PulsesFromIndex;
    var pulses := Resampled(edges, 0, scale);
    ResampledInRange(edges, 0, scale);
    RlePlaysBack([], pulses, scale);
    assert [] + Encoded(pulses) == Encoded(pulses);
    ScaledExactly(pulses, scale);
  }

  lemma ScaledExactly(pulses: seq<nat>, scale: nat)
    requires InRange(pulses, scale)
    ensures forall k :: 0 <= k < |pulses| ==> Scaled(pulses, scale)[k] == scale * pulses[k]
  {
    hide InRange, Scaled;
    forall k | 0 <= k < |pulses| ensures Scaled(pulses, scale)[k] == scale * pulses[k] {
      ScaledAt(pulses, k, scale);
    }
  }

  lemma FirstInRange(pulses: seq<nat>, scale: nat)
    requires InRange(pulses, scale) && pulses != []
    ensures scale * pulses[0] < DWORD_MODULUS && InRange(pulses[1..], scale)
  {
    forall k | 0 <= k < |pulses[1..]|
      ensures 0 < pulses[1..][k] < DWORD_MODULUS && scale * pulses[1..][k] < DWORD_MODULUS
    {
      assert pulses[1..][k] == pulses[k + 1];
    }
  }

  lemma {:induction false} ScaledAt(pulses: seq<nat>, k: nat, scale: nat)
    requires InRange(pulses, scale) && k < |pulses|
    ensures Scaled(pulses, scale)[k] == scale * pulses[k]
    decreases k
  {
    hide InRange;
    FirstInRange(pulses, scale);
    if k > 0 {
      ScaledAt(pulses[1..], k - 1, scale);
    } else {
      SmallRemainder(scale * pulses[0], DWORD_MODULUS);
    }
  }
}
