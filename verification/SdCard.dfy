/** An SD card in SPI mode (mmc.c), one byte of the bus at a time. The card is a value here; the module MmcCard
    refines it. */
module SdCard {
  import opened Bytes

  /** The flags of an R1 response (section 7.3.2.1 of the SD Physical Layer Simplified Specification). */
  datatype Status = Status(idle: bool, eraseReset: bool, illegal: bool, sequence: bool, parameter: bool)

  datatype Erase = NotErasing | From(start: nat) | Range(start: nat, end: nat)

  datatype Phase =
    | AwaitCommand
    | AwaitArgument(got: nat)
    | AwaitCrc
    | AwaitToken
    | AwaitData(data: seq<byte>)
    | AwaitDataCrc1(data: seq<byte>)
    | AwaitDataCrc2(data: seq<byte>)

  datatype Card = Card(phase: Phase, command: nat, argument: seq<byte>, status: Status, cmd8: bool, cmd55: bool,
                       erase: Erase, response: seq<byte>, sectors: seq<seq<byte>>)

  const SECTORS_PER_UNIT: nat := 1024
  const MAX_UNITS: nat := 65375

  function Flag(on: bool, value: byte): byte {
    if on then value else 0
  }

  function StatusByte(s: Status): byte {
    Flag(s.idle, 1) + Flag(s.eraseReset, 2) + Flag(s.illegal, 4) + Flag(s.sequence, 16) + Flag(s.parameter, 64)
  }

  /** The argument of a command is sent with its highest byte first. */
  function Argument(a: seq<byte>): dword
    requires |a| == 4
  {
    DwordAt([a[3], a[2], a[1], a[0]], 0)
  }

  function ArgumentBytes(n: dword): (a: seq<byte>)
    ensures |a| == 4
  {
    var b := DwordBytes(n);
    [b[3], b[2], b[1], b[0]]
  }

  lemma ArgumentRoundTrip(n: dword)
    ensures Argument(ArgumentBytes(n)) == n
  {
    var b := DwordBytes(n);
    assert [b[0], b[1], b[2], b[3]] == b;
    DwordRoundTrip(n, b, 0);
  }

  // ----- Commands -----

  function R1(c: Card): Card {
    c.(response := [StatusByte(c.status)])
  }

  function R7(c: Card, value: seq<byte>): Card {
    c.(response := [StatusByte(c.status)] + value)
  }

  function Illegal(c: Card): Card {
    R1(c.(status := c.status.(illegal := true)))
  }

  function BadParameter(c: Card): Card {
    R1(c.(status := c.status.(parameter := true)))
  }

  function EraseError(c: Card): Card {
    R1(c.(status := c.status.(sequence := true))).(erase := NotErasing)
  }

  function EraseStart(c: Card, n: nat): Card {
    if c.status.idle then Illegal(c)
    else if c.erase != NotErasing then EraseError(c)
    else if n >= |c.sectors| then BadParameter(c).(erase := NotErasing)
    else R1(c).(erase := From(n))
  }

  function EraseEnd(c: Card, n: nat): Card {
    if c.status.idle then Illegal(c)
    else if !c.erase.From? then EraseError(c)
    else if n >= |c.sectors| || c.erase.start > n then BadParameter(c).(erase := NotErasing)
    else R1(c).(erase := Range(c.erase.start, n))
  }

  function Erased(sectors: seq<seq<byte>>, start: nat, end: nat): (r: seq<seq<byte>>)
    ensures |r| == |sectors|
    ensures forall i :: 0 <= i < |r| ==> r[i] == if start <= i <= end then Repeat(0, 512) else sectors[i]
  {
    seq(|sectors|, i requires 0 <= i < |sectors| => if start <= i <= end then Repeat(0, 512) else sectors[i])
  }

  function EraseBlocks(c: Card): Card {
    if c.status.idle then Illegal(c)
    else if !c.erase.Range? then EraseError(c)
    else
      c.(sectors := Erased(c.sectors, c.erase.start, c.erase.end),
         response := [StatusByte(c.status), 0x01],
         erase := NotErasing)
  }

  function ReadBlock(c: Card, n: nat): Card {
    if c.status.idle then Illegal(c)
    else if n >= |c.sectors| then BadParameter(c)
    else c.(response := [StatusByte(c.status), 0xfe] + c.sectors[n] + [0, 0])
  }

  function WriteBlock(c: Card, n: nat, data: seq<byte>): Card {
    if c.status.idle then Illegal(c)
    else if n >= |c.sectors| then BadParameter(c)
    else c.(sectors := c.sectors[n := data], response := [0x05, 0x01])
  }

  /** The card specific data, with the capacity in units of 512 K. */
  function Csd(units: nat): (r: seq<byte>)
    requires 0 < units <= MAX_UNITS
    ensures |r| == 16
  {
    var size := units - 1;
    [0x40, 0, 0, 0, 0x5b, 0x0d, 0, 0, size / 256, size % 256, 0x7f, 0x80, 0x10, 0x01, 0, 0x01]
  }

  const CID: seq<byte> := [0, 0x20, 0x20, 0x46, 0x75, 0x73, 0x65, 0, 0, 0, 0, 0, 0, 0, 0, 0x01]

  function SendRegister(c: Card, register: seq<byte>): Card {
    if c.status.idle then Illegal(c)
    else c.(response := [StatusByte(c.status), 0xfe] + register + [0, 0])
  }

  predicate Capacity(sectors: nat) {
    sectors % SECTORS_PER_UNIT == 0 && 0 < sectors / SECTORS_PER_UNIT <= MAX_UNITS
  }

  function CsdOf(c: Card): seq<byte>
    requires Capacity(|c.sectors|)
  {
    Csd(|c.sectors| / SECTORS_PER_UNIT)
  }

  /** do_standard_command. */
  function Standard(c: Card): Card
    requires |c.argument| == 4 && Capacity(|c.sectors|)
  {
    if c.command == 0 then R1(c.(status := c.status.(idle := true), cmd8 := false))
    else if c.command == 8 then R7(c.(cmd8 := true), [0, 0, 1, c.argument[3]])
    else if c.command == 9 then SendRegister(c, CsdOf(c))
    else if c.command == 10 then SendRegister(c, CID)
    else if c.command == 17 then ReadBlock(c, Argument(c.argument))
    else if c.command == 24 then R1(c)
    else if c.command == 32 then EraseStart(c, Argument(c.argument))
    else if c.command == 33 then EraseEnd(c, Argument(c.argument))
    else if c.command == 38 then EraseBlocks(c)
    else if c.command == 55 then R1(c.(cmd55 := true))
    else if c.command == 58 then R7(c, [0xc0, 0, 0, 0])
    else Illegal(c)
  }

  /** do_application_command: the commands that are only known behind CMD55. */
  predicate IsApplication(command: nat) {
    command == 13 || command == 22 || command == 23 || command == 41 || command == 42 || command == 51
  }

  function Application(c: Card): Card
    requires |c.argument| == 4
  {
    if c.command == 41 then
      R1(if c.cmd8 && c.argument[0] / 64 % 2 == 1 then c.(status := c.status.(idle := false)) else c)
    else Illegal(c)
  }

  predicate IsErase(command: nat) {
    command == 32 || command == 33 || command == 38
  }

  /** do_command. */
  function Execute(c: Card): Card
    requires |c.argument| == 4 && Capacity(|c.sectors|)
  {
    var d := c.(cmd55 := false);
    if c.cmd55 && IsApplication(c.command) then Application(d)
    else if c.erase != NotErasing && !IsErase(c.command) then
      Standard(d.(erase := NotErasing, status := d.status.(eraseReset := true)))
    else Standard(d)
  }

  // ----- The bus -----

  predicate Sound(c: Card) {
    && |c.argument| == 4
    && Capacity(|c.sectors|)
    && (c.phase.AwaitArgument? ==> c.phase.got < 4)
    && (c.phase.AwaitData? ==> |c.phase.data| < 512)
    && (c.phase.AwaitDataCrc1? ==> |c.phase.data| == 512)
    && (c.phase.AwaitDataCrc2? ==> |c.phase.data| == 512)
  }

  function Finished(c: Card): Card {
    c.(status := Status(c.status.idle, false, false, false, false),
       phase := if c.command == 24 then AwaitToken else AwaitCommand)
  }

  /** libspectrum_mmc_write: one byte to the card. */
  function Send(c: Card, b: byte): Card
    requires Sound(c)
  {
    match c.phase
    case AwaitCommand => if 64 <= b < 128 then c.(command := b - 64, phase := AwaitArgument(0)) else c
    case AwaitArgument(got) =>
      c.(argument := c.argument[got := b], phase := if got < 3 then AwaitArgument(got + 1) else AwaitCrc)
    case AwaitCrc => Finished(Execute(c))
    case AwaitToken => if b == 0xfe then c.(phase := AwaitData([])) else c
    case AwaitData(data) =>
      c.(phase := if |data| < 511 then AwaitData(data + [b]) else AwaitDataCrc1(data + [b]))
    case AwaitDataCrc1(data) => c.(phase := AwaitDataCrc2(data))
    case AwaitDataCrc2(data) =>
      // Only a command to write a block leads here, as Reachable shows.
      (if c.command == 24 then WriteBlock(c, Argument(c.argument), data) else c).(phase := AwaitCommand)
  }

  /** libspectrum_mmc_read: one byte from the card, 0xff when there is none. */
  function Received(c: Card): byte {
    if c.response == [] then 0xff else c.response[0]
  }

  function AfterReceive(c: Card): Card {
    if c.response == [] then c else c.(response := c.response[1..])
  }

  /** libspectrum_mmc_reset. */
  function Reset(c: Card): Card {
    c.(phase := AwaitCommand, status := Status(true, false, false, false, false), response := [],
       cmd8 := false, cmd55 := false, erase := NotErasing)
  }

  // ----- What holds of every state -----

  predicate Invariant(c: Card) {
    && Sound(c)
    && (forall i :: 0 <= i < |c.sectors| ==> |c.sectors[i]| == 512)
    && (c.phase.AwaitToken? || c.phase.AwaitData? || c.phase.AwaitDataCrc1? || c.phase.AwaitDataCrc2? ==>
          c.command == 24)
    && (!c.status.idle ==> c.cmd8)
    && (c.erase != NotErasing ==> !c.status.idle && !c.cmd55)
    && (c.erase.From? ==> c.erase.start < |c.sectors|)
    && (c.erase.Range? ==> c.erase.start <= c.erase.end < |c.sectors|)
    && |c.response| <= 516
  }

  lemma StandardKeeps(c: Card)
    requires Invariant(c) && c.phase == AwaitCrc && !c.cmd55
    requires c.erase != NotErasing ==> IsErase(c.command)
    ensures var d := Standard(c);
            Invariant(d) && d.phase == AwaitCrc && d.command == c.command && |d.sectors| == |c.sectors|
  {
    hide Argument, StatusByte, Capacity;
  }

  lemma ExecuteKeeps(c: Card)
    requires Invariant(c) && c.phase == AwaitCrc
    ensures var d := Execute(c);
            Invariant(d) && d.phase == AwaitCrc && d.command == c.command && |d.sectors| == |c.sectors|
  {
    hide Argument, StatusByte, Standard, Capacity;
    if !(c.cmd55 && IsApplication(c.command)) {
      var d := c.(cmd55 := false);
      StandardKeeps(if c.erase != NotErasing && !IsErase(c.command) then
                      d.(erase := NotErasing, status := d.status.(eraseReset := true)) else d);
    }
  }

  lemma SendKeeps(c: Card, b: byte)
    requires Invariant(c)
    ensures Invariant(Send(c, b)) && |Send(c, b).sectors| == |c.sectors|
  {
    hide Argument, StatusByte, Execute, Capacity;
    if c.phase == AwaitCrc {
      ExecuteKeeps(c);
    }
  }

  /** What the host may do. */
  datatype Event = Write(value: byte) | Read | ResetCard

  function Step(c: Card, e: Event): (r: Card)
    requires Invariant(c)
    ensures Invariant(r)
  {
    match e
    case Write(b) => SendKeeps(c, b); Send(c, b)
    case Read => AfterReceive(c)
    case ResetCard => Reset(c)
  }

  function Run(c: Card, events: seq<Event>): (r: Card)
    requires Invariant(c)
    ensures Invariant(r)
    decreases |events|
  {
    if events == [] then c else Run(Step(c, events[0]), events[1..])
  }

  // ----- What a reader of the bus relies on -----

  /** Whatever the host does after a reset, the data stages are only reached by a write command, the capacity stays,
      and an erase range always lies on the card. */
  lemma Reachable(c: Card, events: seq<Event>)
    requires |c.argument| == 4 && Capacity(|c.sectors|) && forall i :: 0 <= i < |c.sectors| ==> |c.sectors[i]| == 512
    ensures Invariant(Reset(c))
    ensures var d := Run(Reset(c), events);
            && |d.sectors| == |c.sectors|
            && (d.phase.AwaitDataCrc2? ==> d.command == 24)
            && (d.erase.Range? ==> d.erase.start <= d.erase.end < |c.sectors| && !d.status.idle)
            && (d.cmd8 <==> CommandEightSeen(c, events)) && (!d.status.idle ==> CommandEightSeen(c, events))
  {
    hide Run, Step, CommandEightSeen;
    RunKeepsCapacity(Reset(c), events);
    FlagSaysEightSeen(c, events);
  }

  /** A byte that completes a command. */
  predicate Executes(c: Card, e: Event, command: nat) {
    c.phase == AwaitCrc && c.command == command && e.Write?
  }

  /** Command 8 was executed after a reset, and neither another reset nor command 0 came after it. */
  ghost predicate CommandEightSeen(c: Card, events: seq<Event>)
    requires Invariant(Reset(c))
  {
    exists i :: 0 <= i < |events|
      && Executes(Run(Reset(c), events[..i]), events[i], 8)
      && forall j :: i < j < |events| ==> events[j] != ResetCard && !Executes(Run(Reset(c), events[..j]), events[j], 0)
  }

  lemma StandardFlag(c: Card)
    requires |c.argument| == 4 && Capacity(|c.sectors|)
    ensures Standard(c).cmd8 <==> c.command != 0 && (c.command == 8 || c.cmd8)
  {
    hide Argument, StatusByte, Capacity, Csd;
  }

  lemma ExecuteFlag(c: Card)
    requires |c.argument| == 4 && Capacity(|c.sectors|)
    ensures Execute(c).cmd8 <==> c.command != 0 && (c.command == 8 || c.cmd8)
  {
    hide Argument, StatusByte, Capacity, Standard;
    var d := c.(cmd55 := false);
    StandardFlag(d);
    StandardFlag(d.(erase := NotErasing, status := d.status.(eraseReset := true)));
  }

  lemma FlagAfter(c: Card, e: Event)
    requires Invariant(c)
    ensures Step(c, e).cmd8 <==> e != ResetCard && !Executes(c, e, 0) && (Executes(c, e, 8) || c.cmd8)
  {
    hide Argument, StatusByte, Capacity, Execute, WriteBlock;
    assert |c.argument| == 4 && Capacity(|c.sectors|);
    ExecuteFlag(c);
    if e.Write? && c.phase.AwaitDataCrc2? {
      WriteFlag(c, Argument(c.argument), c.phase.data);
    }
  }

  lemma WriteFlag(c: Card, n: nat, data: seq<byte>)
    ensures WriteBlock(c, n, data).cmd8 == c.cmd8
  {
    hide StatusByte;
  }

  lemma {:induction false} RunOneMore(c: Card, events: seq<Event>, e: Event)
    requires Invariant(c)
    ensures Run(c, events + [e]) == Step(Run(c, events), e)
    decreases |events|
  {
    hide Step, Invariant;
    if events == [] {
      assert (events + [e])[1..] == [];
    } else {
      assert (events + [e])[1..] == events[1..] + [e];
      RunOneMore(Step(c, events[0]), events[1..], e);
    }
  }

  /** The flag for command 8 says that, of every run. */
  lemma {:induction false} FlagSaysEightSeen(c: Card, events: seq<Event>)
    requires Invariant(Reset(c))
    ensures Run(Reset(c), events).cmd8 <==> CommandEightSeen(c, events)
    decreases |events|
  {
    hide Run, Step, Invariant, Reset;
    if events == [] {
      NoRun(c);
    } else {
      var n := |events| - 1;
      var before, e := events[..n], events[n];
      assert events == before + [e];
      var d := Run(Reset(c), before);
      RunOneMore(Reset(c), before, e);
      FlagAfter(d, e);
      FlagSaysEightSeen(c, before);
      assert forall i :: 0 <= i <= n ==> before[..i] == events[..i];
      if Executes(d, e, 8) {
        assert events[..n] == before;
      } else if e != ResetCard && !Executes(d, e, 0) {
        StillSeen(c, events);
      } else {
        assert events[..n] == before;
      }
    }
  }

  lemma NoRun(c: Card)
    requires Invariant(Reset(c))
    ensures !Run(Reset(c), []).cmd8
  {
  }

  /** An event that does not matter to command 8. */
  lemma StillSeen(c: Card, events: seq<Event>)
    requires Invariant(Reset(c)) && events != []
    requires var n := |events| - 1;
             var d, e := Run(Reset(c), events[..n]), events[n];
             e != ResetCard && !Executes(d, e, 0) && !Executes(d, e, 8)
    ensures CommandEightSeen(c, events) <==> CommandEightSeen(c, events[..|events| - 1])
  {
    hide Run, Step, Invariant, Reset, Executes;
    var n := |events| - 1;
    var before := events[..n];
    assert forall i :: 0 <= i <= n ==> before[..i] == events[..i];
    if CommandEightSeen(c, before) {
      var i :| 0 <= i < |before|
        && Executes(Run(Reset(c), before[..i]), before[i], 8)
        && forall j :: i < j < |before| ==>
             before[j] != ResetCard && !Executes(Run(Reset(c), before[..j]), before[j], 0);
      assert Executes(Run(Reset(c), events[..i]), events[i], 8);
      forall j | i < j < |events|
        ensures events[j] != ResetCard && !Executes(Run(Reset(c), events[..j]), events[j], 0)
      {
        if j < n {
          assert before[j] == events[j] && before[..j] == events[..j];
        }
      }
    }
    if CommandEightSeen(c, events) {
      var i :| 0 <= i < |events|
        && Executes(Run(Reset(c), events[..i]), events[i], 8)
        && forall j :: i < j < |events| ==>
             events[j] != ResetCard && !Executes(Run(Reset(c), events[..j]), events[j], 0);
      assert i != n;
      assert Executes(Run(Reset(c), before[..i]), before[i], 8);
      forall j | i < j < |before|
        ensures before[j] != ResetCard && !Executes(Run(Reset(c), before[..j]), before[j], 0)
      {
        assert before[j] == events[j] && before[..j] == events[..j];
      }
    }
  }

  lemma StepKeepsCapacity(c: Card, e: Event)
    requires Invariant(c)
    ensures |Step(c, e).sectors| == |c.sectors|
  {
    hide Send, Invariant, Sound;
    if e.Write? {
      SendKeeps(c, e.value);
    }
  }

  lemma {:induction false} RunKeepsCapacity(c: Card, events: seq<Event>)
    requires Invariant(c)
    ensures |Run(c, events).sectors| == |c.sectors|
    decreases |events|
  {
    if events != [] {
      StepKeepsCapacity(c, events[0]);
      RunKeepsCapacity(Step(c, events[0]), events[1..]);
    }
  }

  /** The data on the card changes at two bytes only: the last of a block being written, and the last of an erase
      command with a complete range; and only on an initialised card. */
  lemma DataChangesOnlyWhenAsked(c: Card, e: Event)
    requires Invariant(c) && Step(c, e).sectors != c.sectors
    ensures e.Write? && !c.status.idle
    ensures (c.phase.AwaitDataCrc2? && c.command == 24) || (c.phase == AwaitCrc && c.command == 38 && c.erase.Range?)
  {
    hide StatusByte, Argument, Capacity, Execute;
    if e.Write? && c.phase == AwaitCrc {
      ExecuteChangesData(c);
    }
  }

  lemma ExecuteChangesData(c: Card)
    requires Invariant(c)
    ensures Execute(c).sectors != c.sectors ==> !c.status.idle && c.command == 38 && c.erase.Range?
  {
    hide StatusByte, Argument, Capacity, Invariant, Standard;
    InvariantIsSound(c);
    var d := c.(cmd55 := false);
    StandardChangesData(d);
    StandardChangesData(d.(erase := NotErasing, status := d.status.(eraseReset := true)));
  }

  lemma StandardChangesData(c: Card)
    requires |c.argument| == 4 && Capacity(|c.sectors|)
    ensures Standard(c).sectors != c.sectors ==> !c.status.idle && c.command == 38 && c.erase.Range?
  {
    hide StatusByte, Argument, Capacity, CsdOf, CID, Erased;
  }

  /** A card comes out of the idle state at one point only: the application command 41, announced by command 55, saying
      that the host knows high capacity cards, after a command 8. */
  lemma LeavingIdle(c: Card, e: Event)
    requires Invariant(c) && c.status.idle
    ensures !Step(c, e).status.idle <==>
            e.Write? && c.phase == AwaitCrc && c.command == 41 && c.cmd55 && c.cmd8 && c.argument[0] / 64 % 2 == 1
  {
    hide StatusByte, Argument, Capacity, Execute;
    if e.Write? && c.phase == AwaitCrc {
      ExecuteLeavesIdle(c);
    }
  }

  lemma ExecuteLeavesIdle(c: Card)
    requires Sound(c) && c.status.idle
    ensures !Execute(c).status.idle <==> c.command == 41 && c.cmd55 && c.cmd8 && c.argument[0] / 64 % 2 == 1
  {
    hide StatusByte, Argument, Capacity, Standard;
    var d := c.(cmd55 := false);
    StandardStaysIdle(d);
    StandardStaysIdle(d.(erase := NotErasing, status := d.status.(eraseReset := true)));
  }

  lemma StandardStaysIdle(c: Card)
    requires |c.argument| == 4 && Capacity(|c.sectors|) && c.status.idle
    ensures Standard(c).status.idle
  {
    hide StatusByte, Argument, Capacity, CsdOf, CID, Erased;
  }

  // ----- Reading what the card answers is independent of sending to it -----

  predicate SameButResponse(c: Card, d: Card) {
    c == d.(response := c.response)
  }

  lemma EraseIgnoresResponse(c: Card, response: seq<byte>, n: nat)
    ensures var d := c.(response := response);
            && SameButResponse(EraseStart(c, n), EraseStart(d, n))
            && SameButResponse(EraseEnd(c, n), EraseEnd(d, n))
            && SameButResponse(EraseBlocks(c), EraseBlocks(d))
  {
    hide StatusByte, Erased;
  }

  lemma DataIgnoresResponse(c: Card, response: seq<byte>, n: nat, register: seq<byte>)
    ensures var d := c.(response := response);
            && SameButResponse(ReadBlock(c, n), ReadBlock(d, n))
            && SameButResponse(SendRegister(c, register), SendRegister(d, register))
  {
    hide StatusByte;
  }

  lemma StandardIgnoresResponse(c: Card, response: seq<byte>)
    requires |c.argument| == 4 && Capacity(|c.sectors|)
    ensures SameButResponse(Standard(c), Standard(c.(response := response)))
  {
    hide StatusByte, Argument, Capacity, Csd, EraseStart, EraseEnd, EraseBlocks, ReadBlock, SendRegister, CID;
    EraseIgnoresResponse(c, response, Argument(c.argument));
    DataIgnoresResponse(c, response, Argument(c.argument), if c.command == 9 then CsdOf(c) else CID);
  }

  lemma ExecuteIgnoresResponse(c: Card, response: seq<byte>)
    requires |c.argument| == 4 && Capacity(|c.sectors|)
    ensures SameButResponse(Execute(c), Execute(c.(response := response)))
  {
    hide StatusByte, Argument, Capacity, Standard;
    var d := c.(cmd55 := false);
    StandardIgnoresResponse(d, response);
    StandardIgnoresResponse(d.(erase := NotErasing, status := d.status.(eraseReset := true)), response);
  }

  lemma SendIgnoresResponse(c: Card, d: Card, b: byte)
    requires Sound(c) && Sound(d) && SameButResponse(c, d)
    ensures SameButResponse(Send(c, b), Send(d, b))
  {
    hide StatusByte, Argument, Capacity, Execute;
    assert d == c.(response := d.response);
    if c.phase == AwaitCrc {
      ExecuteIgnoresResponse(c, d.response);
    }
  }

  lemma InvariantIsSound(c: Card)
    requires Invariant(c)
    ensures Sound(c)
  {
  }

  function Writes(events: seq<Event>): seq<byte> {
    if events == [] then []
    else (if events[0].Write? then [events[0].value] else []) + Writes(events[1..])
  }

  function SendAll(c: Card, bytes: seq<byte>): (r: Card)
    requires Invariant(c)
    ensures Invariant(r)
    decreases |bytes|
  {
    if bytes == [] then c
    else SendKeeps(c, bytes[0]); SendAll(Send(c, bytes[0]), bytes[1..])
  }

  /** Reads may come between the bytes sent in any way: the card ends up as if they had not. */
  lemma {:induction false} ReadsDoNotMatter(c: Card, d: Card, events: seq<Event>)
    requires Invariant(c) && Invariant(d) && SameButResponse(c, d)
    requires forall i :: 0 <= i < |events| ==> !events[i].ResetCard?
    ensures SameButResponse(Run(c, events), SendAll(d, Writes(events)))
    decreases |events|
  {
    hide Invariant, Send;
    if events != [] {
      assert !events[0].ResetCard?;
      if events[0].Write? {
        InvariantIsSound(c);
        InvariantIsSound(d);
        SendIgnoresResponse(c, d, events[0].value);
        SendKeeps(d, events[0].value);
        assert Writes(events)[1..] == Writes(events[1..]);
        ReadsDoNotMatter(Step(c, events[0]), Send(d, events[0].value), events[1..]);
      } else {
        assert Writes(events) == Writes(events[1..]);
        ReadsDoNotMatter(Step(c, events[0]), d, events[1..]);
      }
    }
  }

  // ----- Whole commands -----

  lemma {:induction false} SendAppended(c: Card, one: seq<byte>, other: seq<byte>)
    requires Invariant(c)
    ensures SendAll(c, one + other) == SendAll(SendAll(c, one), other)
    decreases |one|
  {
    hide Invariant, Send;
    if one == [] {
      assert one + other == other;
    } else {
      assert (one + other)[1..] == one[1..] + other;
      InvariantIsSound(c);
      SendKeeps(c, one[0]);
      SendAppended(Send(c, one[0]), one[1..], other);
    }
  }

  function Frame(command: nat, argument: dword, crc: byte): seq<byte>
    requires command < 64
  {
    [64 + command] + ArgumentBytes(argument) + [crc]
  }

  function Given(c: Card, command: nat, argument: dword): Card {
    c.(phase := AwaitCrc, command := command, argument := ArgumentBytes(argument))
  }

  lemma CommandByte(c: Card, command: nat)
    requires Sound(c) && c.phase == AwaitCommand && command < 64
    ensures Send(c, 64 + command) == c.(command := command, phase := AwaitArgument(0))
  {
  }

  lemma ArgumentByte(c: Card, got: nat, b: byte, next: Phase)
    requires Sound(c) && c.phase == AwaitArgument(got) && next == if got < 3 then AwaitArgument(got + 1) else AwaitCrc
    ensures Send(c, b) == c.(argument := c.argument[got := b], phase := next)
  {
  }

  lemma LastByte(c: Card, b: byte)
    requires Sound(c) && c.phase == AwaitCrc
    ensures Send(c, b) == Finished(Execute(c))
  {
  }

  /** Six bytes are a command: whatever the last byte is, it is executed with its argument. */
  lemma FrameExecutes(c: Card, command: nat, argument: dword, crc: byte)
    requires Invariant(c) && c.phase == AwaitCommand && command < 64
    ensures var g := Given(c, command, argument);
            Invariant(g) && SendAll(c, Frame(command, argument, crc)) == Finished(Execute(g))
  {
    hide Send, Invariant, Execute, ArgumentBytes, Finished, Capacity;
    var a := ArgumentBytes(argument);
    var frame := Frame(command, argument, crc);
    assert frame == [64 + command] + ([a[0]] + ([a[1]] + ([a[2]] + ([a[3]] + [crc]))));
    InvariantIsSound(c);
    CommandByte(c, command);
    SendFirst(c, 64 + command, [a[0]] + ([a[1]] + ([a[2]] + ([a[3]] + [crc]))));
    var c1 := c.(command := command, phase := AwaitArgument(0));
    ArgumentByte(c1, 0, a[0], AwaitArgument(1));
    SendFirst(c1, a[0], [a[1]] + ([a[2]] + ([a[3]] + [crc])));
    var c2 := c1.(argument := c.argument[0 := a[0]], phase := AwaitArgument(1));
    ArgumentByte(c2, 1, a[1], AwaitArgument(2));
    SendFirst(c2, a[1], [a[2]] + ([a[3]] + [crc]));
    var c3 := c2.(argument := c2.argument[1 := a[1]], phase := AwaitArgument(2));
    ArgumentByte(c3, 2, a[2], AwaitArgument(3));
    SendFirst(c3, a[2], [a[3]] + [crc]);
    var c4 := c3.(argument := c3.argument[2 := a[2]], phase := AwaitArgument(3));
    ArgumentByte(c4, 3, a[3], AwaitCrc);
    SendFirst(c4, a[3], [crc]);
    var g := c4.(argument := c4.argument[3 := a[3]], phase := AwaitCrc);
    assert g.argument == a;
    LastByte(g, crc);
    assert [crc] == [crc] + [];
    SendFirst(g, crc, []);
  }

  lemma SendFirst(c: Card, b: byte, rest: seq<byte>)
    requires Invariant(c) && Sound(c)
    ensures Invariant(Send(c, b)) && SendAll(c, [b] + rest) == SendAll(Send(c, b), rest)
  {
    hide Send, Invariant;
    InvariantIsSound(c);
    SendKeeps(c, b);
    assert ([b] + rest)[1..] == rest;
  }

  /** Until the start token, anything may be sent. */
  lemma {:induction false} NoiseBeforeToken(c: Card, noise: seq<byte>)
    requires Invariant(c) && c.phase == AwaitToken && 0xfe !in noise
    ensures SendAll(c, noise) == c
    decreases |noise|
  {
    if noise != [] {
      assert noise[0] != 0xfe;
      NoiseBeforeToken(c, noise[1..]);
    }
  }

  lemma {:induction false} DataCollected(c: Card, data: seq<byte>)
    requires Invariant(c) && c.phase.AwaitData? && 0 < |data| && |c.phase.data| + |data| == 512
    ensures SendAll(c, data) == c.(phase := AwaitDataCrc1(c.phase.data + data))
    decreases |data|
  {
    var next := Send(c, data[0]);
    SendKeeps(c, data[0]);
    assert data == [data[0]] + data[1..];
    SendFirst(c, data[0], data[1..]);
    if |data| > 1 {
      DataCollected(next, data[1..]);
      assert c.phase.data + [data[0]] + data[1..] == c.phase.data + data;
    }
  }

  function DataPacket(noise: seq<byte>, data: seq<byte>, crc1: byte, crc2: byte): seq<byte> {
    noise + ([0xfe] + (data + [crc1, crc2]))
  }

  lemma PacketWrites(c: Card, noise: seq<byte>, data: seq<byte>, crc1: byte, crc2: byte)
    requires Invariant(c) && c.phase == AwaitToken && 0xfe !in noise && |data| == 512
    ensures SendAll(c, DataPacket(noise, data, crc1, crc2)) ==
            WriteBlock(c, Argument(c.argument), data).(phase := AwaitCommand)
  {
    hide StatusByte, Argument, Capacity;
    NoiseBeforeToken(c, noise);
    SendAppended(c, noise, [0xfe] + (data + [crc1, crc2]));
    SendFirst(c, 0xfe, data + [crc1, crc2]);
    var c1 := Send(c, 0xfe);
    SendAppended(c1, data, [crc1, crc2]);
    DataCollected(c1, data);
    assert c1.phase.data + data == data;
    var c2 := c.(phase := AwaitDataCrc1(data));
    assert [crc1, crc2] == [crc1] + [crc2];
    SendFirst(c2, crc1, [crc2]);
    SendFirst(c.(phase := AwaitDataCrc2(data)), crc2, []);
  }

  lemma WriteCommand(g: Card)
    requires Invariant(g) && g.phase == AwaitCrc && g.command == 24
    ensures Finished(Execute(g)) ==
            g.(phase := AwaitToken, cmd55 := false, erase := NotErasing, response := Finished(Execute(g)).response,
               status := Status(g.status.idle, false, false, false, false))
  {
    hide Capacity, StatusByte, Argument;
  }

  /** Command 24, the token, a block and its CRC update exactly one sector. */
  lemma BlockIsWritten(c: Card, n: dword, crc: byte, noise: seq<byte>, data: seq<byte>, crc1: byte, crc2: byte)
    requires Invariant(c) && c.phase == AwaitCommand && !c.status.idle
    requires 0xfe !in noise && |data| == 512
    ensures var d := SendAll(c, Frame(24, n, crc) + DataPacket(noise, data, crc1, crc2));
            && d.phase == AwaitCommand && !d.status.idle
            && (n < |c.sectors| ==> d.sectors == c.sectors[n := data] && d.response == [0x05, 0x01])
            && (n >= |c.sectors| ==> d.sectors == c.sectors && d.response == [0x40])
  {
    hide Capacity, SendAll, Argument, ArgumentBytes, Frame, DataPacket, Execute, Finished;
    SendAppended(c, Frame(24, n, crc), DataPacket(noise, data, crc1, crc2));
    FrameExecutes(c, 24, n, crc);
    ArgumentRoundTrip(n);
    var g := Given(c, 24, n);
    WriteCommand(g);
    PacketWrites(Finished(Execute(g)), noise, data, crc1, crc2);
  }

  // ----- Reading an answer -----

  function ReceiveAll(c: Card, count: nat): seq<byte>
    decreases count
  {
    if count == 0 then [] else [Received(c)] + ReceiveAll(AfterReceive(c), count - 1)
  }

  /** The answer comes byte by byte, and nothing but 0xff after it. */
  lemma {:induction false} AnswerIsReceived(c: Card, idle: nat)
    ensures ReceiveAll(c, |c.response| + idle) == c.response + Repeat(0xff, idle)
    decreases |c.response| + idle
  {
    if c.response != [] {
      AnswerIsReceived(AfterReceive(c), idle);
      assert c.response == [c.response[0]] + c.response[1..];
    } else if idle > 0 {
      AnswerIsReceived(c, idle - 1);
      assert Repeat(0xff, idle) == [0xff] + Repeat(0xff, idle - 1);
    }
  }

  /** The status byte in front of an answer: what a failed data block left is still in it, and an erase sequence that is
      broken off shows. */
  function FirstStatus(c: Card): byte {
    StatusByte(c.status.(eraseReset := c.status.eraseReset || c.erase != NotErasing))
  }

  lemma ReadCommand(g: Card, n: nat)
    requires Invariant(g) && g.phase == AwaitCrc && g.command == 17 && !g.status.idle
    requires n == Argument(g.argument) && n < |g.sectors|
    ensures var d := Finished(Execute(g));
            && d.phase == AwaitCommand && d.sectors == g.sectors && |d.response| == 516
            && d.response == [FirstStatus(g), 0xfe] + g.sectors[n] + [0, 0]
  {
    hide Capacity, StatusByte, Argument;
  }

  /** Command 17 and 516 reads give a sector. */
  lemma BlockIsRead(c: Card, n: dword, crc: byte)
    requires Invariant(c) && c.phase == AwaitCommand && !c.status.idle && n < |c.sectors|
    ensures var d := SendAll(c, Frame(17, n, crc));
            && d.phase == AwaitCommand && d.sectors == c.sectors
            && ReceiveAll(d, 516) == [FirstStatus(c), 0xfe] + c.sectors[n] + [0, 0]
  {
    hide Capacity, SendAll, Argument, ArgumentBytes, StatusByte, Frame, Execute, Finished, ReceiveAll;
    FrameExecutes(c, 17, n, crc);
    ArgumentRoundTrip(n);
    ReadCommand(Given(c, 17, n), n);
    var d := Finished(Execute(Given(c, 17, n)));
    AnswerIsReceived(d, 0);
    assert d.response + Repeat(0xff, 0) == d.response;
  }

  lemma EraseCommand(g: Card, n: nat)
    requires Invariant(g) && g.phase == AwaitCrc && !g.status.idle && n == Argument(g.argument) && IsErase(g.command)
    ensures var d := Finished(Execute(g));
            && !d.status.idle
            && (g.command == 32 && g.erase == NotErasing && n < |g.sectors| ==>
                  d == g.(phase := AwaitCommand, cmd55 := false, status := d.status, response := d.response,
                          erase := From(n)))
            && (g.command == 33 && g.erase.From? && g.erase.start <= n < |g.sectors| ==>
                  d == g.(phase := AwaitCommand, cmd55 := false, status := d.status, response := d.response,
                          erase := Range(g.erase.start, n)))
            && (g.command == 38 && g.erase.Range? ==>
                  d == g.(phase := AwaitCommand, cmd55 := false, status := d.status, response := d.response,
                          erase := NotErasing, sectors := Erased(g.sectors, g.erase.start, g.erase.end)))
  {
    hide Capacity, StatusByte, Argument, Erased;
  }

  /** Commands 32, 33 and 38 zero the blocks of a range, both ends included, and no others. */
  lemma RangeIsErased(c: Card, start: dword, end: dword, crc1: byte, crc2: byte, crc3: byte)
    requires Invariant(c) && c.phase == AwaitCommand && !c.status.idle && c.erase == NotErasing
    requires start <= end < |c.sectors|
    ensures var d := SendAll(c, Frame(32, start, crc1) + (Frame(33, end, crc2) + Frame(38, 0, crc3)));
            && d.phase == AwaitCommand && d.erase == NotErasing && d.sectors == Erased(c.sectors, start, end)
  {
    hide Capacity, SendAll, Argument, ArgumentBytes, StatusByte, Frame, Execute, Finished, Erased;
    var f1, f2, f3 := Frame(32, start, crc1), Frame(33, end, crc2), Frame(38, 0, crc3);
    SendAppended(c, f1, f2 + f3);
    FrameExecutes(c, 32, start, crc1);
    ArgumentRoundTrip(start);
    EraseCommand(Given(c, 32, start), start);
    var c1 := SendAll(c, f1);
    SendAppended(c1, f2, f3);
    FrameExecutes(c1, 33, end, crc2);
    ArgumentRoundTrip(end);
    EraseCommand(Given(c1, 33, end), end);
    var c2 := SendAll(c1, f2);
    FrameExecutes(c2, 38, 0, crc3);
    ArgumentRoundTrip(0);
    EraseCommand(Given(c2, 38, 0), 0);
  }

  /** The way from reset to an initialised card: commands 0, 8, 55 and 41. */
  lemma CardIsInitialised(c: Card, pattern: dword, crc0: byte, crc8: byte, crc55: byte, crc41: byte)
    requires |c.argument| == 4 && Capacity(|c.sectors|) && forall i :: 0 <= i < |c.sectors| ==> |c.sectors[i]| == 512
    ensures Invariant(Reset(c))
    ensures var d := SendAll(Reset(c),
                             Frame(0, 0, crc0) + (Frame(8, pattern, crc8)
                                                  + (Frame(55, 0, crc55) + Frame(41, 0x4000_0000, crc41))));
            && d.phase == AwaitCommand && !d.status.idle && d.response == [0]
            && d.sectors == c.sectors && d.erase == NotErasing
  {
    hide Capacity, SendAll, Argument, ArgumentBytes, Frame;
    var f0, f8 := Frame(0, 0, crc0), Frame(8, pattern, crc8);
    var f55, f41 := Frame(55, 0, crc55), Frame(41, 0x4000_0000, crc41);
    var c0 := Reset(c);
    SendAppended(c0, f0, f8 + (f55 + f41));
    FrameExecutes(c0, 0, 0, crc0);
    var c1 := SendAll(c0, f0);
    SendAppended(c1, f8, f55 + f41);
    FrameExecutes(c1, 8, pattern, crc8);
    var c2 := SendAll(c1, f8);
    SendAppended(c2, f55, f41);
    FrameExecutes(c2, 55, 0, crc55);
    var c3 := SendAll(c2, f55);
    FrameExecutes(c3, 41, 0x4000_0000, crc41);
    HighCapacityBit();
  }

  lemma HighCapacityBit()
    ensures ArgumentBytes(0x4000_0000)[0] / 64 % 2 == 1
  {
  }

  // ----- What each command is answered -----

  /** A card that waits for a command, with nothing left over from the last one. */
  predicate Clean(c: Card) {
    && Invariant(c) && c.phase == AwaitCommand
    && c.status == Status(c.status.idle, false, false, false, false)
  }

  /** A command is answered with these bytes, and nothing comes after them. */
  ghost predicate Answers(c: Card, command: nat, argument: dword, bytes: seq<byte>)
    requires Invariant(c) && c.phase == AwaitCommand && command < 64
  {
    forall crc: byte :: ReceiveAll(SendAll(c, Frame(command, argument, crc)), |bytes| + 1) == bytes + [0xff]
  }

  /** What the command is executed on. */
  predicate Commanded(g: Card) {
    |g.argument| == 4 && Capacity(|g.sectors|) && g.status == Status(g.status.idle, false, false, false, false)
  }

  lemma AnswersWith(c: Card, command: nat, argument: dword, bytes: seq<byte>)
    requires Clean(c) && command < 64
    requires var g := Given(c, command, argument);
             Commanded(g) ==> Execute(g).response == bytes
    ensures Answers(c, command, argument, bytes)
  {
    hide Execute, SendAll, Frame, ReceiveAll, Capacity;
    forall crc: byte ensures ReceiveAll(SendAll(c, Frame(command, argument, crc)), |bytes| + 1) == bytes + [0xff] {
      FrameExecutes(c, command, argument, crc);
      AnswerIsReceived(SendAll(c, Frame(command, argument, crc)), 1);
      assert Repeat(0xff, 1) == [0xff];
    }
  }

  /** Commands that are answered in any state: 8 gives the check pattern back, 58 says that the card is powered up and
      of high capacity. */
  lemma AnswersAlways(c: Card, argument: dword)
    requires Clean(c) && c.erase == NotErasing
    ensures var idle: byte := if c.status.idle then 1 else 0;
            && Answers(c, 0, argument, [1])
            && Answers(c, 8, argument, [idle, 0, 0, 1, argument % 256])
            && Answers(c, 24, argument, [idle]) && Answers(c, 55, argument, [idle])
            && Answers(c, 58, argument, [idle, 0xc0, 0, 0, 0])
  {
    hide Clean, Answers, Execute, Commanded;
    var idle: byte := if c.status.idle then 1 else 0;
    ErasesNothing(c);
    ExecuteAlways(Given(c, 0, argument));
    AnswersWith(c, 0, argument, [1]);
    ExecuteAlways(Given(c, 8, argument));
    LastArgumentByte(argument);
    AnswersWith(c, 8, argument, [idle, 0, 0, 1, argument % 256]);
    ExecuteAlways(Given(c, 24, argument));
    AnswersWith(c, 24, argument, [idle]);
    ExecuteAlways(Given(c, 55, argument));
    AnswersWith(c, 55, argument, [idle]);
    ExecuteAlways(Given(c, 58, argument));
    AnswersWith(c, 58, argument, [idle, 0xc0, 0, 0, 0]);
  }

  lemma LastArgumentByte(n: dword)
    ensures ArgumentBytes(n)[3] == n % 256
  {
  }

  lemma ErasesNothing(c: Card)
    requires Clean(c)
    ensures c.erase != NotErasing ==> !c.status.idle && !c.cmd55
  {
  }

  lemma ExecuteAlways(g: Card)
    ensures Commanded(g) && g.erase == NotErasing ==>
              var idle: byte := if g.status.idle then 1 else 0;
              && (g.command == 0 ==> Execute(g).response == [1])
              && (g.command == 8 ==> Execute(g).response == [idle, 0, 0, 1, g.argument[3]])
              && (g.command == 24 || g.command == 55 ==> Execute(g).response == [idle])
              && (g.command == 58 ==> Execute(g).response == [idle, 0xc0, 0, 0, 0])
  {
    hide Capacity, Argument, Csd, EraseStart, EraseEnd, EraseBlocks, ReadBlock, SendRegister;
  }

  predicate NeedsReady(command: nat) {
    command == 9 || command == 10 || command == 17 || IsErase(command)
  }

  predicate IsKnown(command: nat) {
    NeedsReady(command) || command == 0 || command == 8 || command == 24 || command == 55 || command == 58
  }

  /** Commands for the data or the registers are illegal until the card is initialised, and unknown ones always. So are
      the application commands, but for 41, which answers with the state that it leads to. */
  lemma AnswersToIllegalCommands(c: Card, command: nat, argument: dword)
    requires Clean(c) && c.erase == NotErasing && command < 64
    ensures c.status.idle && NeedsReady(command) ==> Answers(c, command, argument, [5])
    ensures !IsKnown(command) && !(command == 41 && c.cmd55) ==>
              Answers(c, command, argument, [if c.status.idle then 5 else 4])
    ensures command == 41 && c.cmd55 ==>
              var stays := c.status.idle && !(c.cmd8 && argument / 0x4000_0000 % 2 == 1);
              Answers(c, command, argument, [if stays then 1 else 0])
  {
    hide Clean, Answers, Execute, Commanded, IsErase;
    var g := Given(c, command, argument);
    ExecuteIllegal(g);
    if c.status.idle && NeedsReady(command) {
      AnswersWith(c, command, argument, [5]);
    }
    if !IsKnown(command) && !(command == 41 && c.cmd55) {
      AnswersWith(c, command, argument, [if c.status.idle then 5 else 4]);
    }
    if command == 41 && c.cmd55 {
      FirstArgumentByte(argument);
      AnswersWith(c, command, argument,
                  [if c.status.idle && !(c.cmd8 && argument / 0x4000_0000 % 2 == 1) then 1 else 0]);
    }
  }

  lemma FirstArgumentByte(n: dword)
    ensures ArgumentBytes(n)[0] / 64 % 2 == n / 0x4000_0000 % 2
  {
    var top := n / 0x100_0000;
    assert ArgumentBytes(n)[0] == top % 256 == top;
    assert n / 0x4000_0000 == top / 64;
  }

  lemma ExecuteIllegal(g: Card)
    ensures Commanded(g) && g.erase == NotErasing ==>
              && (g.status.idle && NeedsReady(g.command) ==> Execute(g).response == [5])
              && (!IsKnown(g.command) && !(g.command == 41 && g.cmd55) ==>
                    Execute(g).response == [if g.status.idle then 5 else 4])
              && (g.command == 41 && g.cmd55 ==>
                    var stays := g.status.idle && !(g.cmd8 && g.argument[0] / 64 % 2 == 1);
                    Execute(g).response == [if stays then 1 else 0])
  {
    hide Capacity, Argument, Csd, CID, Erased;
  }

  /** On an initialised card, the registers are sent behind a token, sectors off the card are a parameter error, and an
      erase sequence starts with command 32. */
  lemma AnswersWhenReady(c: Card, argument: dword)
    requires Clean(c) && c.erase == NotErasing && !c.status.idle
    ensures var size := |c.sectors| / SECTORS_PER_UNIT - 1;
            && 0 <= size < 65536
            && Answers(c, 9, argument, [0, 0xfe, 0x40, 0, 0, 0, 0x5b, 0x0d, 0, 0, size / 256, size % 256,
                                        0x7f, 0x80, 0x10, 0x01, 0, 0x01, 0, 0])
    ensures Answers(c, 10, argument, [0, 0xfe, 0, 0x20, 0x20, 0x46, 0x75, 0x73, 0x65,
                                      0, 0, 0, 0, 0, 0, 0, 0, 0x01, 0, 0])
    ensures argument >= |c.sectors| ==> Answers(c, 17, argument, [0x40])
    ensures Answers(c, 32, argument, [if argument < |c.sectors| then 0 else 0x40])
    ensures Answers(c, 33, argument, [0x10]) && Answers(c, 38, argument, [0x10])
  {
    hide Answers, Execute, Commanded, ArgumentBytes, Invariant;
    CleanHasCapacity(c);
    var size := |c.sectors| / SECTORS_PER_UNIT - 1;
    ArgumentRoundTrip(argument);
    ExecuteRegisters(Given(c, 9, argument));
    CsdBytes(|c.sectors|);
    AnswersWith(c, 9, argument, [0, 0xfe, 0x40, 0, 0, 0, 0x5b, 0x0d, 0, 0, size / 256, size % 256,
                                 0x7f, 0x80, 0x10, 0x01, 0, 0x01, 0, 0]);
    ExecuteRegisters(Given(c, 10, argument));
    CidBytes();
    AnswersWith(c, 10, argument, [0, 0xfe, 0, 0x20, 0x20, 0x46, 0x75, 0x73, 0x65,
                                  0, 0, 0, 0, 0, 0, 0, 0, 0x01, 0, 0]);
    ExecuteOnSectors(Given(c, 17, argument));
    if argument >= |c.sectors| {
      AnswersWith(c, 17, argument, [0x40]);
    }
    ExecuteOnSectors(Given(c, 32, argument));
    AnswersWith(c, 32, argument, [if argument < |c.sectors| then 0 else 0x40]);
    ExecuteOnSectors(Given(c, 33, argument));
    AnswersWith(c, 33, argument, [0x10]);
    ExecuteOnSectors(Given(c, 38, argument));
    AnswersWith(c, 38, argument, [0x10]);
  }

  lemma CleanHasCapacity(c: Card)
    requires Clean(c)
    ensures Capacity(|c.sectors|) && Invariant(c)
  {
  }

  lemma ExecuteRegisters(g: Card)
    ensures Commanded(g) && g.erase == NotErasing && !g.status.idle ==>
              && (g.command == 9 ==> Execute(g).response == [0, 0xfe] + CsdOf(g) + [0, 0])
              && (g.command == 10 ==> Execute(g).response == [0, 0xfe] + CID + [0, 0])
  {
    hide Argument, Capacity, Csd, CID;
  }

  lemma CsdBytes(sectors: nat)
    requires Capacity(sectors)
    ensures var size := sectors / SECTORS_PER_UNIT - 1;
            && 0 <= size < 65536
            && [0, 0xfe] + Csd(sectors / SECTORS_PER_UNIT) + [0, 0]
               == [0, 0xfe, 0x40, 0, 0, 0, 0x5b, 0x0d, 0, 0, size / 256, size % 256,
                   0x7f, 0x80, 0x10, 0x01, 0, 0x01, 0, 0]
  {
  }

  lemma CidBytes()
    ensures [0, 0xfe] + CID + [0, 0] == [0, 0xfe, 0, 0x20, 0x20, 0x46, 0x75, 0x73, 0x65,
                                         0, 0, 0, 0, 0, 0, 0, 0, 0x01, 0, 0]
  {
  }

  lemma ExecuteOnSectors(g: Card)
    ensures Commanded(g) && g.erase == NotErasing && !g.status.idle ==>
              && (g.command == 17 && Argument(g.argument) >= |g.sectors| ==> Execute(g).response == [0x40])
              && (g.command == 32 ==>
                    Execute(g).response == [if Argument(g.argument) < |g.sectors| then 0 else 0x40])
              && (g.command == 33 || g.command == 38 ==> Execute(g).response == [0x10])
  {
    hide Argument, Capacity, Csd, CID;
  }

  /** In an erase sequence: the end must lie on the card and not before the start, command 38 needs both, and any other
      command ends the sequence and says so. */
  lemma AnswersInAnEraseSequence(c: Card, argument: dword, command: nat)
    requires Clean(c) && c.erase != NotErasing && command < 64
    ensures Answers(c, 32, argument, [0x10])
    ensures Answers(c, 33, argument, [if c.erase.Range? then 0x10
                                      else if c.erase.start <= argument < |c.sectors| then 0 else 0x40])
    ensures if c.erase.Range? then Answers(c, 38, argument, [0, 1]) else Answers(c, 38, argument, [0x10])
    ensures command == 24 || command == 55 ==> Answers(c, command, argument, [2])
    ensures !IsKnown(command) ==> Answers(c, command, argument, [6])
  {
    hide Answers, Execute, Commanded, ArgumentBytes, Invariant, IsErase;
    ErasesNothing(c);
    ArgumentRoundTrip(argument);
    ExecuteErasing(Given(c, 32, argument));
    AnswersWith(c, 32, argument, [0x10]);
    ExecuteErasing(Given(c, 33, argument));
    AnswersWith(c, 33, argument, [if c.erase.Range? then 0x10
                                  else if c.erase.start <= argument < |c.sectors| then 0 else 0x40]);
    ExecuteErasing(Given(c, 38, argument));
    AnswersWith(c, 38, argument, if c.erase.Range? then [0, 1] else [0x10]);
    ExecuteErasing(Given(c, command, argument));
    if command == 24 || command == 55 {
      AnswersWith(c, command, argument, [2]);
    }
    if !IsKnown(command) {
      AnswersWith(c, command, argument, [6]);
    }
  }

  lemma ExecuteErasing(g: Card)
    requires !g.status.idle && !g.cmd55
    ensures Commanded(g) && g.erase != NotErasing ==>
              && (g.command == 32 ==> Execute(g).response == [0x10])
              && (g.command == 33 ==>
                    Execute(g).response == [if g.erase.Range? then 0x10
                                            else if g.erase.start <= Argument(g.argument) < |g.sectors| then 0
                                            else 0x40])
              && (g.command == 38 ==> Execute(g).response == if g.erase.Range? then [0, 1] else [0x10])
              && (g.command == 24 || g.command == 55 ==> Execute(g).response == [2])
              && (!IsKnown(g.command) ==> Execute(g).response == [6])
  {
    hide Argument, Capacity, Csd, CID;
  }

  lemma CsdCommand(g: Card)
    requires Invariant(g) && g.phase == AwaitCrc && g.command == 9 && !g.status.idle
    ensures var r := Finished(Execute(g)).response;
            r != [] && r == [r[0], 0xfe] + CsdOf(g) + [0, 0]
  {
    hide Capacity, StatusByte, Argument, Csd;
  }

  /** The capacity that the card specific data state is that of the card. */
  lemma CapacityIsTold(c: Card, crc: byte)
    requires Invariant(c) && c.phase == AwaitCommand && !c.status.idle
    ensures var d := SendAll(c, Frame(9, 0, crc));
            && |d.response| == 20
            && var high: int, middle: int, low: int := d.response[9], d.response[10], d.response[11];
               SECTORS_PER_UNIT * (65536 * (high % 64) + 256 * middle + low + 1) == |c.sectors|
  {
    hide SendAll, Argument, ArgumentBytes, StatusByte, Frame, Execute, Finished;
    FrameExecutes(c, 9, 0, crc);
    CsdCommand(Given(c, 9, 0));
  }
}
