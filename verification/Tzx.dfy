/** The blocks of a .tzx file (revision 1.20 of the TZX format): how each is written (tzx_write.c), how each is read
    (tzx_read.c), and which blocks come back as they were. */
module Tzx {
  import opened Bytes

  datatype Selection = Selection(offset: int, text: seq<byte>)
  datatype Info = Info(id: int, text: seq<byte>)
  datatype Machine = Machine(kind: int, id: int, value: int)

  /** Pauses are in milliseconds, and again in t-states, which is what is played. The bytes of a text have no zero
      among them: a zero ends it. */
  datatype Block =
    | Rom(pause: nat, tstates: nat, data: seq<byte>)
    | Turbo(pilotLength: nat, sync1: nat, sync2: nat, bit0: nat, bit1: nat, pilotPulses: nat, bits: nat,
            pause: nat, tstates: nat, data: seq<byte>)
    | Tone(length: nat, count: nat)
    | Pulses(lengths: seq<nat>)
    | PureData(bit0: nat, bit1: nat, bits: nat, pause: nat, tstates: nat, data: seq<byte>)
    | RawData(bitLength: nat, pause: nat, tstates: nat, bits: nat, data: seq<byte>)
    | Pause(level: int, pause: nat, tstates: nat)
    | GroupStart(text: seq<byte>)
    | GroupEnd
    | Jump(jump: int)
    | LoopStart(rounds: int)
    | LoopEnd
    | Select(selections: seq<Selection>)
    | Stop48
    | SignalLevel(level: int)
    | Comment(text: seq<byte>)
    | Message(pause: nat, tstates: nat, text: seq<byte>)
    | Archive(infos: seq<Info>)
    | Hardware(machines: seq<Machine>)
    | Custom(description: seq<byte>, data: seq<byte>)

  const LF: byte := 0x0a
  const CR: byte := 0x0d
  const TSTATES_PER_MS: nat := 3500

  // ----- Numbers, texts and lists -----

  function Lsb(n: int): byte {
    n % 256
  }

  /** A number in so many bytes, the lowest first; what does not fit is lost. */
  function Number(n: int, bytes: nat): (r: seq<byte>)
    ensures |r| == bytes
    decreases bytes, n
  {
    if bytes == 0 then [] else [Lsb(n)] + Number(n / 256, bytes - 1)
  }

  predicate FitsIn(n: int, bytes: nat)
    decreases bytes, n
  {
    if bytes == 0 then n == 0 else FitsIn(n / 256, bytes - 1)
  }

  function NumberAt(data: seq<byte>, bytes: nat): nat
    requires bytes <= |data|
    decreases bytes
  {
    if bytes == 0 then 0 else data[0] + 256 * NumberAt(data[1..], bytes - 1)
  }

  /** A number is read back exactly when it fits. */
  lemma {:induction false} NumberIsRead(n: int, bytes: nat, rest: seq<byte>)
    ensures var data := Number(n, bytes) + rest;
            data[bytes..] == rest && (NumberAt(data, bytes) == n <==> FitsIn(n, bytes))
    ensures n >= 0 ==> NumberAt(Number(n, bytes) + rest, bytes) <= n
    decreases bytes, n
  {
    if bytes > 0 {
      var data := Number(n, bytes) + rest;
      assert data == [Lsb(n)] + (Number(n / 256, bytes - 1) + rest);
      assert data[1..] == Number(n / 256, bytes - 1) + rest;
      NumberIsRead(n / 256, bytes - 1, rest);
    }
  }

  /** A length and that many bytes (tzx_write_bytes, tzx_read_data). */
  function PrintData(data: seq<byte>, bytes: nat): seq<byte> {
    Number(|data|, bytes) + data
  }

  function ReadData(data: seq<byte>, bytes: nat): Result<Read<seq<byte>>>
    requires bytes <= |data|
  {
    var length := NumberAt(data, bytes);
    if |data| - bytes < length then Err(Corrupt) else Ok(Read(data[bytes..bytes + length], data[bytes + length..]))
  }

  lemma DataIsRead(data: seq<byte>, bytes: nat, rest: seq<byte>)
    ensures bytes <= |PrintData(data, bytes) + rest|
    ensures var r := ReadData(PrintData(data, bytes) + rest, bytes);
            && (FitsIn(|data|, bytes) ==> r == Ok(Read(data, rest)))
            && (!FitsIn(|data|, bytes) ==> r.Ok? && |r.value.value| < |data|)
  {
    var d := PrintData(data, bytes) + rest;
    assert d == Number(|data|, bytes) + (data + rest);
    NumberIsRead(|data|, bytes, data + rest);
    if FitsIn(|data|, bytes) {
      assert d[bytes..bytes + |data|] == data;
      assert d[bytes + |data|..] == rest;
    }
  }

  function LineEnd(c: byte, from: byte, to: byte): byte {
    if c == from then to else c
  }

  function LineEnds(text: seq<byte>, from: byte, to: byte): (r: seq<byte>)
    ensures |r| == |text| && forall i :: 0 <= i < |r| ==> r[i] == LineEnd(text[i], from, to)
  {
    seq(|text|, i requires 0 <= i < |text| => LineEnd(text[i], from, to))
  }

  /** Only the lowest byte of the length counts. */
  function PrintText(text: seq<byte>): seq<byte> {
    var kept := text[..Lsb(|text|)];
    [Lsb(|text|)] + LineEnds(kept, LF, CR)
  }

  /** The text before the first zero. */
  function UpToZero(text: seq<byte>): (r: seq<byte>)
    ensures |r| <= |text| && r == text[..|r|] && 0 !in r
  {
    if text == [] || text[0] == 0 then [] else [text[0]] + UpToZero(text[1..])
  }

  function ReadText(data: seq<byte>): Result<Read<seq<byte>>>
    requires data != []
  {
    var r := ReadData(data, 1);
    if r.Err? then Err(r.error) else Ok(Read(LineEnds(UpToZero(r.value.value), CR, LF), r.value.rest))
  }

  predicate TextFits(text: seq<byte>) {
    |text| < 256 && CR !in text
  }

  lemma {:induction false} NoZeros(text: seq<byte>)
    requires 0 !in text
    ensures UpToZero(text) == text
  {
    if text != [] {
      assert text[0] in text;
      NoZeros(text[1..]);
    }
  }

  lemma LineEndsComeBack(text: seq<byte>)
    ensures LineEnds(LineEnds(text, LF, CR), CR, LF) == text <==> CR !in text
  {
    var back := LineEnds(LineEnds(text, LF, CR), CR, LF);
    if CR in text {
      var i :| 0 <= i < |text| && text[i] == CR;
      assert back[i] == LF;
    }
  }

  lemma PrintedTextIsData(text: seq<byte>, rest: seq<byte>)
    ensures var kept := LineEnds(text[..Lsb(|text|)], LF, CR);
            |PrintText(text) + rest| >= 1 && ReadData(PrintText(text) + rest, 1) == Ok(Read(kept, rest))
  {
    var kept := LineEnds(text[..Lsb(|text|)], LF, CR);
    var d := PrintText(text) + rest;
    assert NumberAt(d, 1) == d[0] == |kept|;
    assert d[1..1 + |kept|] == kept && d[1 + |kept|..] == rest;
  }

  lemma TextIsRead(text: seq<byte>, rest: seq<byte>)
    requires 0 !in text
    ensures |PrintText(text) + rest| >= 1
    ensures var r := ReadText(PrintText(text) + rest);
            r.Ok? && r.value.rest == rest && (r.value.value == text <==> TextFits(text))
  {
    hide LineEnds, ReadData, PrintText;
    PrintedTextIsData(text, rest);
    var short := text[..Lsb(|text|)];
    var kept := LineEnds(short, LF, CR);
    assert 0 !in kept;
    NoZeros(kept);
    LineEndsComeBack(short);
    if |text| < 256 {
      assert short == text;
    }
  }

  // ----- Writing blocks -----

  function W(n: int): (r: seq<byte>)
    ensures |r| == 2
  {
    Number(n, 2)
  }

  function TextLengths(selections: seq<Selection>): nat {
    if selections == [] then 0 else |selections[0].text| + TextLengths(selections[1..])
  }

  function InfoLengths(infos: seq<Info>): nat {
    if infos == [] then 0 else |infos[0].text| + InfoLengths(infos[1..])
  }

  function PrintLengths(lengths: seq<nat>): seq<byte> {
    if lengths == [] then [] else W(lengths[0]) + PrintLengths(lengths[1..])
  }

  function PrintSelections(selections: seq<Selection>): seq<byte> {
    if selections == [] then []
    else W(selections[0].offset) + (PrintText(selections[0].text) + PrintSelections(selections[1..]))
  }

  function PrintInfos(infos: seq<Info>): seq<byte> {
    if infos == [] then [] else [Lsb(infos[0].id)] + (PrintText(infos[0].text) + PrintInfos(infos[1..]))
  }

  function PrintMachines(machines: seq<Machine>): seq<byte> {
    if machines == [] then []
    else [Lsb(machines[0].kind), Lsb(machines[0].id), Lsb(machines[0].value)] + PrintMachines(machines[1..])
  }

  function PrintTone(length: nat, count: nat): seq<byte> {
    [0x12] + (W(length) + W(count))
  }

  function PrintLevel(level: int): seq<byte> {
    [0x2b] + (Number(1, 4) + [level % 256])
  }

  /** A block in the file. A pause that is not low becomes a level and a tone of one pulse. */
  function Print(b: Block): seq<byte> {
    match b
    case Rom(pause, _, data) => [0x10] + (W(pause) + PrintData(data, 2))
    case Turbo(pilot, sync1, sync2, bit0, bit1, pulses, bits, pause, _, data) =>
      [0x11] + (W(pilot) + (W(sync1) + (W(sync2) + (W(bit0) + (W(bit1) + (W(pulses) + ([Lsb(bits)]
        + (W(pause) + PrintData(data, 3)))))))))
    case Tone(length, count) => PrintTone(length, count)
    case Pulses(lengths) => [0x13] + ([Lsb(|lengths|)] + PrintLengths(lengths))
    case PureData(bit0, bit1, bits, pause, _, data) =>
      [0x14] + (W(bit0) + (W(bit1) + ([Lsb(bits)] + (W(pause) + PrintData(data, 3)))))
    case RawData(length, pause, _, bits, data) => [0x15] + (W(length) + (W(pause) + ([Lsb(bits)] + PrintData(data, 3))))
    case Pause(level, pause, tstates) =>
      if level == 0 then [0x20] + W(pause)
      else (if level == 1 then PrintLevel(1) else []) + PrintTone(tstates, 1)
    case GroupStart(text) => [0x21] + PrintText(text)
    case GroupEnd => [0x22]
    case Jump(jump) => [0x23] + W(Unsigned(jump))
    case LoopStart(count) => [0x24] + W(count)
    case LoopEnd => [0x25]
    case Select(selections) =>
      [0x28] + (W(4 + 3 * |selections| + TextLengths(selections)) + ([Lsb(|selections|)] + PrintSelections(selections)))
    case Stop48 => [0x2a] + Number(0, 4)
    case SignalLevel(level) => PrintLevel(level)
    case Comment(text) => [0x30] + PrintText(text)
    case Message(pause, _, text) => [0x31] + ([Lsb(pause)] + PrintText(text))
    case Archive(infos) =>
      [0x32] + (W(1 + 2 * |infos| + InfoLengths(infos)) + ([Lsb(|infos|)] + PrintInfos(infos)))
    case Hardware(machines) => [0x33] + ([Lsb(|machines|)] + PrintMachines(machines))
    case Custom(description, data) => [0x35] + (description + PrintData(data, 4))
  }

  /** A negative number as it is put into a word; a number that no word holds loses its upper part. */
  function Unsigned(n: int): nat {
    if n < 0 then (n + WORD_MODULUS) % WORD_MODULUS else n
  }

  function PrintAll(blocks: seq<Block>): seq<byte> {
    if blocks == [] then [] else Print(blocks[0]) + PrintAll(blocks[1..])
  }

  // ----- Byte by byte -----

  lemma NumberDigits(n: int)
    ensures Number(n, 1) == [n % 256] && Number(n, 2) == [n % 256, n / 256 % 256]
    ensures Number(n, 3) == [n % 256, n / 256 % 256, n / 0x1_0000 % 256]
    ensures Number(n, 4) == [n % 256, n / 256 % 256, n / 0x1_0000 % 256, n / 0x100_0000 % 256]
  {
    var a, b := n / 256, n / 0x1_0000;
    assert a / 256 == b && b / 256 == n / 0x100_0000;
    assert Number(b, 1) == [b % 256];
    assert Number(b, 2) == [b % 256] + Number(b / 256, 1);
    assert Number(a, 2) == [a % 256] + Number(b, 1);
    assert Number(a, 3) == [a % 256] + Number(b, 2);
  }

  /** Where the fields of the blocks with data are. */
  lemma TurboLayout(b: Block)
    requires b.Turbo?
    ensures Print(b) == [0x11, b.pilotLength % 256, b.pilotLength / 256 % 256, b.sync1 % 256, b.sync1 / 256 % 256,
                         b.sync2 % 256, b.sync2 / 256 % 256, b.bit0 % 256, b.bit0 / 256 % 256,
                         b.bit1 % 256, b.bit1 / 256 % 256, b.pilotPulses % 256, b.pilotPulses / 256 % 256,
                         b.bits % 256, b.pause % 256, b.pause / 256 % 256,
                         |b.data| % 256, |b.data| / 256 % 256, |b.data| / 0x1_0000 % 256] + b.data
  {
    hide Number;
    NumberDigits(b.pilotLength);
    NumberDigits(b.sync1);
    NumberDigits(b.sync2);
    NumberDigits(b.bit0);
    NumberDigits(b.bit1);
    NumberDigits(b.pilotPulses);
    TurboTail(b.bits, b.pause, b.data);
    var tail := [Lsb(b.bits)] + (W(b.pause) + PrintData(b.data, 3));
    hide PrintData;
    assert W(b.bit1) + (W(b.pilotPulses) + tail)
        == [b.bit1 % 256, b.bit1 / 256 % 256, b.pilotPulses % 256, b.pilotPulses / 256 % 256] + tail;
  }

  lemma TurboTail(bits: nat, pause: nat, data: seq<byte>)
    ensures [Lsb(bits)] + (W(pause) + PrintData(data, 3))
         == [bits % 256, pause % 256, pause / 256 % 256, |data| % 256, |data| / 256 % 256, |data| / 0x1_0000 % 256]
            + data
  {
    hide Number;
    NumberDigits(pause);
    NumberDigits(|data|);
  }

  lemma RomLayout(b: Block)
    requires b.Rom?
    ensures Print(b) == [0x10, b.pause % 256, b.pause / 256 % 256, |b.data| % 256, |b.data| / 256 % 256] + b.data
  {
    hide Number;
    NumberDigits(b.pause);
    NumberDigits(|b.data|);
  }

  lemma PureDataLayout(b: Block)
    requires b.PureData?
    ensures Print(b) == [0x14, b.bit0 % 256, b.bit0 / 256 % 256, b.bit1 % 256, b.bit1 / 256 % 256,
                         b.bits % 256, b.pause % 256, b.pause / 256 % 256,
                         |b.data| % 256, |b.data| / 256 % 256, |b.data| / 0x1_0000 % 256] + b.data
  {
    hide Number;
    NumberDigits(b.bit0);
    NumberDigits(b.bit1);
    NumberDigits(b.pause);
    NumberDigits(|b.data|);
  }

  lemma RawDataLayout(b: Block)
    requires b.RawData?
    ensures Print(b) == [0x15, b.bitLength % 256, b.bitLength / 256 % 256, b.pause % 256, b.pause / 256 % 256,
                         b.bits % 256, |b.data| % 256, |b.data| / 256 % 256, |b.data| / 0x1_0000 % 256] + b.data
  {
    hide Number;
    NumberDigits(b.bitLength);
    NumberDigits(b.pause);
    NumberDigits(|b.data|);
  }

  lemma CustomLayout(b: Block)
    requires b.Custom?
    ensures Print(b) == [0x35] + b.description
                        + [|b.data| % 256, |b.data| / 256 % 256, |b.data| / 0x1_0000 % 256, |b.data| / 0x100_0000 % 256]
                        + b.data
  {
    hide Number;
    NumberDigits(|b.data|);
  }

  /** A text is its length in a byte and its bytes, with carriage returns for line feeds. */
  lemma TextLayout(text: seq<byte>, k: nat)
    ensures |PrintText(text)| == 1 + |text| % 256 && PrintText(text)[0] == |text| % 256
    ensures k < |text| % 256 ==> PrintText(text)[1 + k] == if text[k] == 0x0a then 0x0d else text[k]
  {
  }

  lemma {:induction false} LengthsLayout(lengths: seq<nat>, k: nat)
    ensures |PrintLengths(lengths)| == 2 * |lengths|
    ensures k < |lengths| ==>
              && PrintLengths(lengths)[2 * k] == lengths[k] % 256
              && PrintLengths(lengths)[2 * k + 1] == lengths[k] / 256 % 256
  {
    hide Number;
    if lengths != [] {
      NumberDigits(lengths[0]);
      LengthsLayout(lengths[1..], if k == 0 then 0 else k - 1);
      var rest := PrintLengths(lengths[1..]);
      if 0 < k < |lengths| {
        assert PrintLengths(lengths)[2 * k] == rest[2 * (k - 1)];
        assert PrintLengths(lengths)[2 * k + 1] == rest[2 * (k - 1) + 1];
      }
    }
  }

  lemma PulsesLayout(lengths: seq<nat>, k: nat)
    ensures var d := Print(Pulses(lengths));
            && |d| == 2 + 2 * |lengths| && d[0] == 0x13 && d[1] == |lengths| % 256
            && (k < |lengths| ==> d[2 + 2 * k] == lengths[k] % 256 && d[3 + 2 * k] == lengths[k] / 256 % 256)
  {
    hide PrintLengths;
    LengthsLayout(lengths, k);
  }

  /** Where the fields of the blocks without data are. */
  lemma FieldLayouts(b: Block)
    ensures b.Tone? ==>
              Print(b) == [0x12, b.length % 256, b.length / 256 % 256, b.count % 256, b.count / 256 % 256]
    ensures b.Pause? && b.level == 0 ==> Print(b) == [0x20, b.pause % 256, b.pause / 256 % 256]
    ensures b.Jump? ==> Print(b) == [0x23, b.jump % 256, b.jump / 256 % 256]
    ensures b.LoopStart? ==> Print(b) == [0x24, b.rounds % 256, b.rounds / 256 % 256]
    ensures b.GroupEnd? ==> Print(b) == [0x22]
    ensures b.LoopEnd? ==> Print(b) == [0x25]
    ensures b.Stop48? ==> Print(b) == [0x2a, 0, 0, 0, 0]
    ensures b.SignalLevel? ==> Print(b) == [0x2b, 1, 0, 0, 0, b.level % 256]
  {
    hide Number;
    match b {
      case Tone(length, count) =>
        NumberDigits(length);
        NumberDigits(count);
      case Pause(_, pause, _) => NumberDigits(pause);
      case Jump(jump) =>
        NumberDigits(Unsigned(jump));
        UnsignedDigits(jump);
      case LoopStart(rounds) => NumberDigits(rounds);
      case Stop48 => NumberDigits(0);
      case SignalLevel(_) => NumberDigits(1);
      case _ =>
    }
  }

  lemma UnsignedDigits(n: int)
    ensures Unsigned(n) % 256 == n % 256 && Unsigned(n) / 256 % 256 == n / 256 % 256
  {
    if n < 0 {
      var k := (n + WORD_MODULUS) / WORD_MODULUS;
      assert Unsigned(n) == n + 256 * (256 * (1 - k));
      assert Unsigned(n) / 256 == n / 256 + 256 * (1 - k);
    }
  }

  /** And of those with texts. */
  lemma TextLayouts(b: Block)
    ensures b.GroupStart? ==> Print(b) == [0x21] + PrintText(b.text)
    ensures b.Comment? ==> Print(b) == [0x30] + PrintText(b.text)
    ensures b.Message? ==> Print(b) == [0x31, b.pause % 256] + PrintText(b.text)
  {
    hide PrintText;
  }

  /** Lists of one. The length that is written for a selection is three too large. */
  lemma SelectLayout(offset: int, text: seq<byte>)
    requires |text| < 256
    ensures Print(Select([Selection(offset, text)]))
         == [0x28, (|text| + 7) % 256, (|text| + 7) / 256, 1, offset % 256, offset / 256 % 256] + PrintText(text)
  {
    hide Number, PrintText, PrintSelections, TextLengths;
    var length, at := W(|text| + 7), W(offset);
    NumberDigits(|text| + 7);
    NumberDigits(offset);
    OneOfEach(offset, text);
    assert Print(Select([Selection(offset, text)])) == [0x28] + (length + ([1] + (at + PrintText(text))));
  }

  lemma OneOfEach(n: int, text: seq<byte>)
    ensures TextLengths([Selection(n, text)]) == InfoLengths([Info(n, text)]) == |text|
    ensures PrintSelections([Selection(n, text)]) == W(n) + PrintText(text)
    ensures PrintInfos([Info(n, text)]) == [n % 256] + PrintText(text)
  {
    hide W, PrintText;
    var s, i := [Selection(n, text)], [Info(n, text)];
    assert s[1..] == [] && i[1..] == [];
    assert PrintText(text) + [] == PrintText(text);
    assert PrintSelections([]) == [] && PrintInfos([]) == [];
  }

  lemma ArchiveLayout(id: int, text: seq<byte>)
    requires |text| < 256
    ensures Print(Archive([Info(id, text)]))
         == [0x32, (|text| + 3) % 256, (|text| + 3) / 256, 1, id % 256] + PrintText(text)
  {
    hide Number, PrintText, PrintInfos, InfoLengths;
    var length := W(|text| + 3);
    NumberDigits(|text| + 3);
    OneOfEach(id, text);
    assert Print(Archive([Info(id, text)])) == [0x32] + (length + ([1] + ([id % 256] + PrintText(text))));
  }

  lemma HardwareLayout(kind: int, id: int, value: int)
    ensures Print(Hardware([Machine(kind, id, value)])) == [0x33, 1, kind % 256, id % 256, value % 256]
  {
    var m := [Machine(kind, id, value)];
    assert m[1..] == [];
    assert PrintMachines(m) == [kind % 256, id % 256, value % 256] + PrintMachines(m[1..]);
  }

  // ----- Reading blocks -----

  function Bits(bits: nat, data: seq<byte>, least: nat): (r: (nat, seq<byte>))
    requires least > 0
  {
    if bits == 0 && |data| >= least then (8, data[..|data| - 1]) else (if bits > 8 then 8 else bits, data)
  }

  function Word(d: seq<byte>): nat
    requires |d| >= 2
  {
    NumberAt(d, 2)
  }

  function First(d: seq<byte>): nat
    requires d != []
  {
    d[0]
  }

  function ReadRom(d: seq<byte>): (r: Result<Read<Block>>)
    ensures r.Ok? ==> |r.value.rest| <= |d|
  {
    if |d| < 4 then Err(Corrupt)
    else
      var data := ReadData(d[2..], 2);
      if data.Err? then Err(data.error)
      else Ok(Read(Rom(Word(d), TSTATES_PER_MS * Word(d), data.value.value), data.value.rest))
  }

  function ReadTurbo(d: seq<byte>): (r: Result<Read<Block>>)
    ensures r.Ok? ==> |r.value.rest| <= |d|
  {
    if |d| < 18 then Err(Corrupt)
    else
      var d1 := d[2..];
      var d2 := d1[2..];
      var d3 := d2[2..];
      var d4 := d3[2..];
      var d5 := d4[2..];
      var d6 := d5[2..];
      var d7 := d6[1..];
      var data := ReadData(d7[2..], 3);
      if data.Err? then Err(data.error)
      else
        var (bits, kept) := Bits(d6[0], data.value.value, 1);
        Ok(Read(Turbo(Word(d), Word(d1), Word(d2), Word(d3), Word(d4), Word(d5), bits, Word(d7),
                      TSTATES_PER_MS * Word(d7), kept),
                data.value.rest))
  }

  function ReadTone(d: seq<byte>): (r: Result<Read<Block>>)
    ensures r.Ok? ==> |r.value.rest| <= |d|
  {
    if |d| < 4 then Err(Corrupt) else Ok(Read(Tone(Word(d), Word(d[2..])), d[2..][2..]))
  }

  function ReadLengths(n: nat, d: seq<byte>): (r: Read<seq<nat>>)
    requires |d| >= 2 * n
    ensures |r.value| == n && |r.rest| <= |d|
    decreases n, d
  {
    if n == 0 then Read([], d)
    else
      var rest := ReadLengths(n - 1, d[2..]);
      Read([Word(d)] + rest.value, rest.rest)
  }

  function ReadPulses(d: seq<byte>): (r: Result<Read<Block>>)
    ensures r.Ok? ==> |r.value.rest| <= |d|
  {
    if d == [] then Err(Corrupt)
    else if |d| - 1 < 2 * First(d) then Err(Corrupt)
    else
      var r := ReadLengths(d[0], d[1..]);
      Ok(Read(Pulses(r.value), r.rest))
  }

  function ReadPureData(d: seq<byte>): (r: Result<Read<Block>>)
    ensures r.Ok? ==> |r.value.rest| <= |d|
  {
    if |d| < 10 then Err(Corrupt)
    else
      var d1 := d[2..];
      var d2 := d1[2..];
      var d3 := d2[1..];
      var data := ReadData(d3[2..], 3);
      if data.Err? then Err(data.error)
      else
        var (bits, kept) := Bits(d2[0], data.value.value, 2);
        Ok(Read(PureData(Word(d), Word(d1), bits, Word(d3), TSTATES_PER_MS * Word(d3), kept), data.value.rest))
  }

  function ReadRawData(d: seq<byte>): (r: Result<Read<Block>>)
    ensures r.Ok? ==> |r.value.rest| <= |d|
  {
    if |d| < 8 then Err(Corrupt)
    else
      var d1 := d[2..];
      var d2 := d1[2..];
      var data := ReadData(d2[1..], 3);
      if data.Err? then Err(data.error)
      else
        var (bits, kept) := Bits(d2[0], data.value.value, 1);
        Ok(Read(RawData(Word(d), Word(d1), TSTATES_PER_MS * Word(d1), bits, kept), data.value.rest))
  }

  function ReadPause(d: seq<byte>): (r: Result<Read<Block>>)
    ensures r.Ok? ==> |r.value.rest| <= |d|
  {
    if |d| < 2 then Err(Corrupt) else Ok(Read(Pause(0, Word(d), TSTATES_PER_MS * Word(d)), d[2..]))
  }

  function ReadGroupStart(d: seq<byte>): (r: Result<Read<Block>>)
    ensures r.Ok? ==> |r.value.rest| <= |d|
  {
    if d == [] then Err(Corrupt)
    else
      var r := ReadText(d);
      if r.Err? then Err(r.error) else Ok(Read(GroupStart(r.value.value), r.value.rest))
  }

  function ReadJump(d: seq<byte>): (r: Result<Read<Block>>)
    ensures r.Ok? ==> |r.value.rest| <= |d|
  {
    if |d| < 2 then Err(Corrupt) else Ok(Read(Jump(if Word(d) >= 32768 then Word(d) - 65536 else Word(d)), d[2..]))
  }

  function ReadLoopStart(d: seq<byte>): (r: Result<Read<Block>>)
    ensures r.Ok? ==> |r.value.rest| <= |d|
  {
    if |d| < 2 then Err(Corrupt) else Ok(Read(LoopStart(Word(d)), d[2..]))
  }

  function ReadSelections(n: nat, d: seq<byte>): (r: Result<Read<seq<Selection>>>)
    ensures r.Ok? ==> |r.value.value| == n && |r.value.rest| <= |d|
    decreases n, d
  {
    if n == 0 then Ok(Read([], d))
    else if |d| < 3 then Err(Corrupt)
    else
      var text := ReadText(d[2..]);
      if text.Err? then Err(text.error)
      else
        var rest := ReadSelections(n - 1, text.value.rest);
        if rest.Err? then rest
        else Ok(Read([Selection(Word(d), text.value.value)] + rest.value.value, rest.value.rest))
  }

  /** The length is only looked at to see that so much is there. */
  function ReadSelect(d: seq<byte>): (r: Result<Read<Block>>)
    ensures r.Ok? ==> |r.value.rest| <= |d|
  {
    if |d| < 3 then Err(Corrupt)
    else if |d[2..]| < Word(d) then Err(Corrupt)
    else
      var r := ReadSelections(d[2..][0], d[2..][1..]);
      if r.Err? then Err(r.error) else Ok(Read(Select(r.value.value), r.value.rest))
  }

  function ReadStop48(d: seq<byte>): (r: Result<Read<Block>>)
    ensures r.Ok? ==> |r.value.rest| <= |d|
  {
    if |d| < 4 then Err(Corrupt) else Ok(Read(Stop48, d[4..]))
  }

  function ReadSignalLevel(d: seq<byte>): (r: Result<Read<Block>>)
    ensures r.Ok? ==> |r.value.rest| <= |d|
  {
    if |d| < 5 then Err(Corrupt) else Ok(Read(SignalLevel(if d[4..][0] == 0 then 0 else 1), d[4..][1..]))
  }

  function ReadComment(d: seq<byte>): (r: Result<Read<Block>>)
    ensures r.Ok? ==> |r.value.rest| <= |d|
  {
    if d == [] then Err(Corrupt)
    else
      var r := ReadText(d);
      if r.Err? then Err(r.error) else Ok(Read(Comment(r.value.value), r.value.rest))
  }

  /** The time is in seconds. */
  function ReadMessage(d: seq<byte>): (r: Result<Read<Block>>)
    ensures r.Ok? ==> |r.value.rest| <= |d|
  {
    if |d| < 2 then Err(Corrupt)
    else
      var r := ReadText(d[1..]);
      var pause := 1000 * First(d);
      if r.Err? then Err(r.error) else Ok(Read(Message(pause, TSTATES_PER_MS * pause, r.value.value), r.value.rest))
  }

  function ReadInfos(n: nat, d: seq<byte>): (r: Result<Read<seq<Info>>>)
    ensures r.Ok? ==> |r.value.value| == n && |r.value.rest| <= |d|
    decreases n, d
  {
    if n == 0 then Ok(Read([], d))
    else if |d| < 2 then Err(Corrupt)
    else
      var text := ReadText(d[1..]);
      if text.Err? then Err(text.error)
      else
        var rest := ReadInfos(n - 1, text.value.rest);
        if rest.Err? then rest
        else Ok(Read([Info(d[0], text.value.value)] + rest.value.value, rest.value.rest))
  }

  /** The length is skipped. */
  function ReadArchive(d: seq<byte>): (r: Result<Read<Block>>)
    ensures r.Ok? ==> |r.value.rest| <= |d|
  {
    if |d| < 3 then Err(Corrupt)
    else
      var r := ReadInfos(d[2..][0], d[2..][1..]);
      if r.Err? then Err(r.error) else Ok(Read(Archive(r.value.value), r.value.rest))
  }

  function ReadMachines(n: nat, d: seq<byte>): (r: Read<seq<Machine>>)
    requires |d| >= 3 * n
    ensures |r.value| == n && |r.rest| <= |d|
    decreases n, d
  {
    if n == 0 then Read([], d)
    else
      var rest := ReadMachines(n - 1, d[3..]);
      Read([Machine(d[0], d[1], d[2])] + rest.value, rest.rest)
  }

  function ReadHardware(d: seq<byte>): (r: Result<Read<Block>>)
    ensures r.Ok? ==> |r.value.rest| <= |d|
  {
    if d == [] then Err(Corrupt)
    else if |d| - 1 < 3 * First(d) then Err(Corrupt)
    else
      var r := ReadMachines(d[0], d[1..]);
      Ok(Read(Hardware(r.value), r.rest))
  }

  function ReadCustom(d: seq<byte>): (r: Result<Read<Block>>)
    ensures r.Ok? ==> |r.value.rest| <= |d|
  {
    if |d| < 20 then Err(Corrupt)
    else
      var data := ReadData(d[16..], 4);
      if data.Err? then Err(data.error) else Ok(Read(Custom(d[..16], data.value.value), data.value.rest))
  }

  /** One block, by its identifier. Generalised data is not part of this model. */
  function ReadBlock(id: byte, d: seq<byte>): (r: Result<Read<Block>>)
    ensures r.Ok? ==> |r.value.rest| <= |d|
  {
    if id == 0x10 then ReadRom(d)
    else if id == 0x11 then ReadTurbo(d)
    else if id == 0x12 then ReadTone(d)
    else if id == 0x13 then ReadPulses(d)
    else if id == 0x14 then ReadPureData(d)
    else if id == 0x15 then ReadRawData(d)
    else if id == 0x19 then Err(Undefined)
    else if id == 0x20 then ReadPause(d)
    else if id == 0x21 then ReadGroupStart(d)
    else if id == 0x22 then Ok(Read(GroupEnd, d))
    else if id == 0x23 then ReadJump(d)
    else if id == 0x24 then ReadLoopStart(d)
    else if id == 0x25 then Ok(Read(LoopEnd, d))
    else if id == 0x28 then ReadSelect(d)
    else if id == 0x2a then ReadStop48(d)
    else if id == 0x2b then ReadSignalLevel(d)
    else if id == 0x30 then ReadComment(d)
    else if id == 0x31 then ReadMessage(d)
    else if id == 0x32 then ReadArchive(d)
    else if id == 0x33 then ReadHardware(d)
    else if id == 0x35 then ReadCustom(d)
    else Err(Unknown)
  }

  // ----- Which blocks come back -----

  /** What the types of the source say: no zero in a text, and sixteen characters of description. */
  predicate Representable(b: Block) {
    match b
    case GroupStart(text) => 0 !in text
    case Comment(text) => 0 !in text
    case Message(_, _, text) => 0 !in text
    case Select(selections) => forall i :: 0 <= i < |selections| ==> 0 !in selections[i].text
    case Archive(infos) => forall i :: 0 <= i < |infos| ==> 0 !in infos[i].text
    case Custom(description, _) => |description| == 16
    case _ => true
  }

  predicate BitsFit(bits: nat, data: seq<byte>, least: nat) {
    bits <= 8 && (bits == 0 ==> |data| < least)
  }

  /** Only the milliseconds are in the file, and the t-states are worked out from them. */
  predicate PauseFits(pause: nat, tstates: nat) {
    FitsIn(pause, 2) && tstates == TSTATES_PER_MS * pause
  }

  predicate SelectionFits(s: Selection) {
    FitsIn(s.offset, 2) && TextFits(s.text)
  }

  predicate InfoFits(i: Info) {
    0 <= i.id < 256 && TextFits(i.text)
  }

  predicate MachineFits(m: Machine) {
    0 <= m.kind < 256 && 0 <= m.id < 256 && 0 <= m.value < 256
  }

  /** The length that is written for a selection is three too large, so that much must follow, unless it is cut off. */
  predicate SelectFits(selections: seq<Selection>, after: nat) {
    && |selections| < 256
    && (forall i :: 0 <= i < |selections| ==> SelectionFits(selections[i]))
    && (after >= 3 || 4 + 3 * |selections| + TextLengths(selections) >= WORD_MODULUS)
  }

  /** Whether a block with so many bytes after it is read as it was written. */
  predicate Printable(b: Block, after: nat) {
    match b
    case Rom(pause, tstates, data) => PauseFits(pause, tstates) && FitsIn(|data|, 2)
    case Turbo(pilot, sync1, sync2, bit0, bit1, pulses, bits, pause, tstates, data) =>
      && FitsIn(pilot, 2) && FitsIn(sync1, 2) && FitsIn(sync2, 2) && FitsIn(bit0, 2) && FitsIn(bit1, 2)
      && FitsIn(pulses, 2) && BitsFit(bits, data, 1) && PauseFits(pause, tstates) && FitsIn(|data|, 3)
    case Tone(length, count) => FitsIn(length, 2) && FitsIn(count, 2)
    case Pulses(lengths) => |lengths| < 256 && forall i :: 0 <= i < |lengths| ==> FitsIn(lengths[i], 2)
    case PureData(bit0, bit1, bits, pause, tstates, data) =>
      FitsIn(bit0, 2) && FitsIn(bit1, 2) && BitsFit(bits, data, 2) && PauseFits(pause, tstates) && FitsIn(|data|, 3)
    case RawData(length, pause, tstates, bits, data) =>
      FitsIn(length, 2) && PauseFits(pause, tstates) && BitsFit(bits, data, 1) && FitsIn(|data|, 3)
    case Pause(level, pause, tstates) => level == 0 && PauseFits(pause, tstates)
    case GroupStart(text) => TextFits(text)
    case GroupEnd => true
    case Jump(jump) => -32768 <= jump < 32768
    case LoopStart(count) => FitsIn(count, 2)
    case LoopEnd => true
    case Select(selections) => SelectFits(selections, after)
    case Stop48 => true
    case SignalLevel(level) => level == 0 || level == 1
    case Comment(text) => TextFits(text)
    case Message(pause, tstates, text) => pause == tstates == 0 && TextFits(text)
    case Archive(infos) => |infos| < 256 && forall i :: 0 <= i < |infos| ==> InfoFits(infos[i])
    case Hardware(machines) => |machines| < 256 && forall i :: 0 <= i < |machines| ==> MachineFits(machines[i])
    case Custom(description, data) => FitsIn(|data|, 4)
  }

  /** Reading gives a block and what is behind it when the condition holds, and does not give that block otherwise. */
  predicate Back(r: Result<Read<Block>>, b: Block, rest: seq<byte>, condition: bool) {
    if condition then r == Ok(Read(b, rest)) else !(r.Ok? && r.value.value == b)
  }

  lemma WordIsRead(n: int, rest: seq<byte>)
    ensures var d := W(n) + rest;
            |d| >= 2 && d[2..] == rest && (Word(d) == n <==> FitsIn(n, 2))
  {
    NumberIsRead(n, 2, rest);
  }

  lemma RomBack(b: Block, rest: seq<byte>)
    requires b.Rom?
    ensures Back(ReadRom(W(b.pause) + (PrintData(b.data, 2) + rest)), b, rest, Printable(b, |rest|))
  {
    hide W, Word, FitsIn, PrintData, ReadData;
    WordIsRead(b.pause, PrintData(b.data, 2) + rest);
    DataIsRead(b.data, 2, rest);
  }

  lemma BitsBack(bits: nat, data: seq<byte>, least: nat)
    requires least > 0
    ensures BitsFit(bits, data, least) <==> Bits(Lsb(bits), data, least) == (bits, data)
  {
  }

  function WithBits(b: Block, n: nat, kept: seq<byte>): Block {
    match b
    case Turbo(pilot, sync1, sync2, bit0, bit1, pulses, _, pause, tstates, _) =>
      Turbo(pilot, sync1, sync2, bit0, bit1, pulses, n, pause, tstates, kept)
    case PureData(bit0, bit1, _, pause, tstates, _) => PureData(bit0, bit1, n, pause, tstates, kept)
    case RawData(length, pause, tstates, _, _) => RawData(length, pause, tstates, n, kept)
    case _ => b
  }

  predicate HasBits(b: Block) {
    b.Turbo? || b.PureData? || b.RawData?
  }

  /** What is read of a block that fits, but for its bits. */
  function BitsRead(b: Block, least: nat): Block
    requires HasBits(b) && least > 0
  {
    var (bits, kept) := Bits(Lsb(b.bits), b.data, least);
    WithBits(b, bits, kept)
  }

  lemma TurboBack(b: Block, rest: seq<byte>)
    requires b.Turbo?
    ensures var d8 := [Lsb(b.bits)] + (W(b.pause) + (PrintData(b.data, 3) + rest));
            var d6 := W(b.bit0) + (W(b.bit1) + (W(b.pilotPulses) + d8));
            var r := ReadTurbo(W(b.pilotLength) + (W(b.sync1) + (W(b.sync2) + d6)));
            && Back(r, b, rest, Printable(b, |rest|))
            && (Printable(WithBits(b, 8, b.data), |rest|) ==> r == Ok(Read(BitsRead(b, 1), rest)))
  {
    hide W, Word, FitsIn, PrintData, ReadData, BitsFit, Lsb;
    var d8 := PrintData(b.data, 3) + rest;
    var d7 := W(b.pause) + d8;
    var d6 := [Lsb(b.bits)] + d7;
    var d5 := W(b.pilotPulses) + d6;
    var d4 := W(b.bit1) + d5;
    var d3 := W(b.bit0) + d4;
    var d2 := W(b.sync2) + d3;
    var d1 := W(b.sync1) + d2;
    WordIsRead(b.pilotLength, d1);
    WordIsRead(b.sync1, d2);
    WordIsRead(b.sync2, d3);
    WordIsRead(b.bit0, d4);
    WordIsRead(b.bit1, d5);
    WordIsRead(b.pilotPulses, d6);
    assert d6[1..] == d7;
    WordIsRead(b.pause, d8);
    DataIsRead(b.data, 3, rest);
    BitsBack(b.bits, b.data, 1);
    BitsBack(8, b.data, 1);
  }

  lemma ToneBack(b: Block, rest: seq<byte>)
    requires b.Tone?
    ensures Back(ReadTone(W(b.length) + (W(b.count) + rest)), b, rest, Printable(b, |rest|))
  {
    hide W, Word, FitsIn;
    WordIsRead(b.length, W(b.count) + rest);
    WordIsRead(b.count, rest);
  }

  lemma {:induction false} LengthsAreRead(lengths: seq<nat>, rest: seq<byte>)
    ensures var d := PrintLengths(lengths) + rest;
            && |d| >= 2 * |lengths|
            && var r := ReadLengths(|lengths|, d);
               r.rest == rest && (r.value == lengths <==> forall i :: 0 <= i < |lengths| ==> FitsIn(lengths[i], 2))
  {
    hide W, Word, FitsIn;
    if lengths == [] {
      assert PrintLengths(lengths) + rest == rest;
    } else {
      var more := PrintLengths(lengths[1..]) + rest;
      assert PrintLengths(lengths) + rest == W(lengths[0]) + more;
      WordIsRead(lengths[0], more);
      LengthsAreRead(lengths[1..], rest);
      var r := ReadLengths(|lengths| - 1, more);
      SameParts(Word(W(lengths[0]) + more), r.value, lengths[0], lengths[1..]);
      assert lengths == [lengths[0]] + lengths[1..];
      assert (forall i :: 0 <= i < |lengths| ==> FitsIn(lengths[i], 2)) <==>
             FitsIn(lengths[0], 2) && forall i :: 0 <= i < |lengths[1..]| ==> FitsIn(lengths[1..][i], 2) by {
        AllWords(lengths);
      }
    }
  }

  lemma AllWords(lengths: seq<nat>)
    requires lengths != []
    ensures (forall i :: 0 <= i < |lengths| ==> FitsIn(lengths[i], 2)) <==>
            FitsIn(lengths[0], 2) && forall i :: 0 <= i < |lengths[1..]| ==> FitsIn(lengths[1..][i], 2)
  {
    hide FitsIn;
    if FitsIn(lengths[0], 2) && forall i :: 0 <= i < |lengths[1..]| ==> FitsIn(lengths[1..][i], 2) {
      forall i | 0 <= i < |lengths| ensures FitsIn(lengths[i], 2) {
        assert i > 0 ==> lengths[i] == lengths[1..][i - 1];
      }
    }
  }

  lemma PureDataBack(b: Block, rest: seq<byte>)
    requires b.PureData?
    ensures var d3 := W(b.pause) + (PrintData(b.data, 3) + rest);
            var r := ReadPureData(W(b.bit0) + (W(b.bit1) + ([Lsb(b.bits)] + d3)));
            && Back(r, b, rest, Printable(b, |rest|))
            && (Printable(WithBits(b, 8, b.data), |rest|) ==> r == Ok(Read(BitsRead(b, 2), rest)))
  {
    hide W, Word, FitsIn, PrintData, ReadData, BitsFit, Lsb;
    var d4 := PrintData(b.data, 3) + rest;
    var d3 := W(b.pause) + d4;
    var d2 := [Lsb(b.bits)] + d3;
    WordIsRead(b.bit0, W(b.bit1) + d2);
    WordIsRead(b.bit1, d2);
    assert d2[1..] == d3;
    WordIsRead(b.pause, d4);
    DataIsRead(b.data, 3, rest);
    BitsBack(b.bits, b.data, 2);
    BitsBack(8, b.data, 2);
  }

  lemma RawDataBack(b: Block, rest: seq<byte>)
    requires b.RawData?
    ensures var d2 := [Lsb(b.bits)] + (PrintData(b.data, 3) + rest);
            var r := ReadRawData(W(b.bitLength) + (W(b.pause) + d2));
            && Back(r, b, rest, Printable(b, |rest|))
            && (Printable(WithBits(b, 8, b.data), |rest|) ==> r == Ok(Read(BitsRead(b, 1), rest)))
  {
    hide W, Word, FitsIn, PrintData, ReadData, BitsFit, Lsb;
    var d3 := PrintData(b.data, 3) + rest;
    var d2 := [Lsb(b.bits)] + d3;
    WordIsRead(b.bitLength, W(b.pause) + d2);
    WordIsRead(b.pause, d2);
    assert d2[1..] == d3;
    DataIsRead(b.data, 3, rest);
    BitsBack(b.bits, b.data, 1);
    BitsBack(8, b.data, 1);
  }

  lemma PauseBack(b: Block, rest: seq<byte>)
    requires b.Pause? && b.level == 0
    ensures Back(ReadPause(W(b.pause) + rest), b, rest, Printable(b, |rest|))
  {
    hide W, Word, FitsIn;
    WordIsRead(b.pause, rest);
  }

  lemma JumpBack(b: Block, rest: seq<byte>)
    requires b.Jump?
    ensures Back(ReadJump(W(Unsigned(b.jump)) + rest), b, rest, Printable(b, |rest|))
  {
    hide W, Word, FitsIn;
    WordIsRead(Unsigned(b.jump), rest);
    SmallWord(W(Unsigned(b.jump)) + rest);
    FitsWord(Unsigned(b.jump));
  }

  lemma FitsWord(n: int)
    ensures FitsIn(n, 2) <==> 0 <= n < WORD_MODULUS
  {
    assert FitsIn(n, 2) <==> FitsIn(n / 256, 1);
    assert FitsIn(n / 256, 1) <==> FitsIn(n / 256 / 256, 0);
  }

  lemma SmallWord(d: seq<byte>)
    requires |d| >= 2
    ensures Word(d) < WORD_MODULUS
  {
    assert NumberAt(d[1..], 1) == d[1];
  }

  lemma LoopStartBack(b: Block, rest: seq<byte>)
    requires b.LoopStart?
    ensures Back(ReadLoopStart(W(b.rounds) + rest), b, rest, Printable(b, |rest|))
  {
    hide W, Word, FitsIn;
    WordIsRead(b.rounds, rest);
  }

  /** A message comes back only if it is not to be shown at all: the time is written as it is, and read as seconds. */
  lemma MessageBack(b: Block, rest: seq<byte>)
    requires b.Message? && Representable(b)
    ensures Back(ReadMessage([Lsb(b.pause)] + (PrintText(b.text) + rest)), b, rest, Printable(b, |rest|))
  {
    hide PrintText, ReadText, TextFits;
    var d := PrintText(b.text) + rest;
    TextIsRead(b.text, rest);
    assert ([Lsb(b.pause)] + d)[1..] == d;
    ThousandTimes(b.pause, Lsb(b.pause));
  }

  lemma ThousandTimes(pause: nat, k: nat)
    requires k == pause % 256
    ensures 1000 * k == pause <==> pause == 0
  {
    if 1000 * k == pause {
      assert k == 256 * (215 * (pause / 256) - 839 * k);
    }
  }

  lemma SignalLevelBack(b: Block, rest: seq<byte>)
    requires b.SignalLevel?
    ensures Back(ReadSignalLevel(Number(1, 4) + ([b.level % 256] + rest)), b, rest, Printable(b, |rest|))
  {
    hide Number;
    var d := Number(1, 4) + ([b.level % 256] + rest);
    assert d[4..] == [b.level % 256] + rest;
    assert d[4..][1..] == rest;
  }

  lemma CustomBack(b: Block, rest: seq<byte>)
    requires b.Custom? && Representable(b)
    ensures Back(ReadCustom(b.description + (PrintData(b.data, 4) + rest)), b, rest, Printable(b, |rest|))
  {
    hide FitsIn, PrintData, ReadData;
    var d1 := PrintData(b.data, 4) + rest;
    DataIsRead(b.data, 4, rest);
    assert (b.description + d1)[16..] == d1;
    assert (b.description + d1)[..16] == b.description;
  }

  // ----- Lists inside blocks -----

  predicate AllSelectionsFit(selections: seq<Selection>) {
    forall i :: 0 <= i < |selections| ==> SelectionFits(selections[i])
  }

  predicate AllInfosFit(infos: seq<Info>) {
    forall i :: 0 <= i < |infos| ==> InfoFits(infos[i])
  }

  predicate AllMachinesFit(machines: seq<Machine>) {
    forall i :: 0 <= i < |machines| ==> MachineFits(machines[i])
  }

  lemma {:induction false} SelectionsAreRead(selections: seq<Selection>, rest: seq<byte>)
    requires forall i :: 0 <= i < |selections| ==> 0 !in selections[i].text
    ensures var r := ReadSelections(|selections|, PrintSelections(selections) + rest);
            r.Ok? && r.value.rest == rest && (r.value.value == selections <==> AllSelectionsFit(selections))
  {
    hide W, Word, FitsIn, PrintText, ReadText, TextFits, AllSelectionsFit;
    if selections == [] {
      assert PrintSelections(selections) + rest == rest;
      SelectionsFit(selections);
    } else {
      var s, more := selections[0], PrintSelections(selections[1..]) + rest;
      assert PrintSelections(selections) + rest == W(s.offset) + (PrintText(s.text) + more);
      WordIsRead(s.offset, PrintText(s.text) + more);
      TextIsRead(s.text, more);
      SelectionsAreRead(selections[1..], rest);
      var r := ReadSelections(|selections| - 1, more);
      var d := W(s.offset) + (PrintText(s.text) + more);
      SameParts(Selection(Word(d), ReadText(d[2..]).value.value), r.value.value, s, selections[1..]);
      assert selections == [s] + selections[1..];
      SelectionsFit(selections);
    }
  }

  lemma SelectionsFit(selections: seq<Selection>)
    ensures AllSelectionsFit(selections) <==>
            selections == [] || (SelectionFits(selections[0]) && AllSelectionsFit(selections[1..]))
  {
    hide FitsIn, TextFits;
    if selections != [] && SelectionFits(selections[0]) && AllSelectionsFit(selections[1..]) {
      forall i | 0 <= i < |selections| ensures SelectionFits(selections[i]) {
        assert i > 0 ==> selections[i] == selections[1..][i - 1];
      }
    }
  }

  lemma {:induction false} InfosAreRead(infos: seq<Info>, rest: seq<byte>)
    requires forall i :: 0 <= i < |infos| ==> 0 !in infos[i].text
    ensures var r := ReadInfos(|infos|, PrintInfos(infos) + rest);
            r.Ok? && r.value.rest == rest && (r.value.value == infos <==> AllInfosFit(infos))
  {
    hide PrintText, ReadText, InfoFits, TextFits, AllInfosFit, Lsb;
    InfosFit(infos);
    if infos == [] {
      assert PrintInfos(infos) + rest == rest;
    } else {
      var s, more := infos[0], PrintInfos(infos[1..]) + rest;
      var d := [Lsb(s.id)] + (PrintText(s.text) + more);
      assert PrintInfos(infos) + rest == d;
      InfoIsRead(s, more);
      InfosAreRead(infos[1..], rest);
      var r := ReadInfos(|infos| - 1, more);
      SameParts(Info(d[0], ReadText(d[1..]).value.value), r.value.value, s, infos[1..]);
      assert infos == [s] + infos[1..];
    }
  }

  lemma InfoIsRead(info: Info, rest: seq<byte>)
    requires 0 !in info.text
    ensures var d := [Lsb(info.id)] + (PrintText(info.text) + rest);
            && |d| >= 2
            && var text := ReadText(d[1..]);
               text.Ok? && text.value.rest == rest && (Info(d[0], text.value.value) == info <==> InfoFits(info))
  {
    hide PrintText, ReadText, TextFits;
    var d := [Lsb(info.id)] + (PrintText(info.text) + rest);
    assert d[1..] == PrintText(info.text) + rest;
    TextIsRead(info.text, rest);
  }

  lemma InfosFit(infos: seq<Info>)
    ensures AllInfosFit(infos) <==>
            infos == [] || (InfoFits(infos[0]) && AllInfosFit(infos[1..]))
  {
    hide TextFits;
    if infos != [] && InfoFits(infos[0]) && AllInfosFit(infos[1..]) {
      forall i | 0 <= i < |infos| ensures InfoFits(infos[i]) {
        assert i > 0 ==> infos[i] == infos[1..][i - 1];
      }
    }
  }

  lemma MachineBack(m: Machine)
    ensures Machine(Lsb(m.kind), Lsb(m.id), Lsb(m.value)) == m <==> MachineFits(m)
  {
  }

  /** One entry of a hardware block. */
  lemma FirstMachine(machines: seq<Machine>, rest: seq<byte>)
    requires machines != [] && |PrintMachines(machines[1..]) + rest| >= 3 * |machines[1..]|
    ensures var m, more := machines[0], PrintMachines(machines[1..]) + rest;
            var d := PrintMachines(machines) + rest;
            && |d| >= 3 * |machines|
            && ReadMachines(|machines|, d) ==
               Read([Machine(Lsb(m.kind), Lsb(m.id), Lsb(m.value))] + ReadMachines(|machines| - 1, more).value,
                    ReadMachines(|machines| - 1, more).rest)
  {
    hide Lsb;
    var m, more := machines[0], PrintMachines(machines[1..]) + rest;
    var entry := [Lsb(m.kind), Lsb(m.id), Lsb(m.value)];
    var d := PrintMachines(machines) + rest;
    Assoc(entry, PrintMachines(machines[1..]), rest);
    assert d == entry + more;
    assert d[3..] == more;
  }

  lemma {:induction false} MachinesAreRead(machines: seq<Machine>, rest: seq<byte>)
    ensures var d := PrintMachines(machines) + rest;
            && |d| >= 3 * |machines|
            && var r := ReadMachines(|machines|, d);
               r.rest == rest && (r.value == machines <==> AllMachinesFit(machines))
  {
    hide AllMachinesFit, MachineFits, Lsb;
    MachinesFit(machines);
    if machines == [] {
      assert PrintMachines(machines) + rest == rest;
    } else {
      hide PrintMachines, ReadMachines;
      var m, more := machines[0], PrintMachines(machines[1..]) + rest;
      MachinesAreRead(machines[1..], rest);
      FirstMachine(machines, rest);
      MachineBack(m);
      SameParts(Machine(Lsb(m.kind), Lsb(m.id), Lsb(m.value)), ReadMachines(|machines| - 1, more).value,
                m, machines[1..]);
      assert machines == [m] + machines[1..];
    }
  }

  lemma MachinesFit(machines: seq<Machine>)
    ensures AllMachinesFit(machines) <==>
            machines == [] || (MachineFits(machines[0]) && AllMachinesFit(machines[1..]))
  {
    hide MachineFits;
    if machines != [] && MachineFits(machines[0]) && AllMachinesFit(machines[1..]) {
      forall i | 0 <= i < |machines| ensures MachineFits(machines[i]) {
        assert i > 0 ==> machines[i] == machines[1..][i - 1];
      }
    }
  }

  lemma PulsesBack(b: Block, rest: seq<byte>)
    requires b.Pulses?
    ensures Back(ReadPulses([Lsb(|b.lengths|)] + (PrintLengths(b.lengths) + rest)), b, rest, Printable(b, |rest|))
  {
    hide FitsIn, ReadLengths, PrintLengths;
    var d := PrintLengths(b.lengths) + rest;
    assert ([Lsb(|b.lengths|)] + d)[1..] == d;
    LengthsAreRead(b.lengths, rest);
  }

  lemma HardwareBack(b: Block, rest: seq<byte>)
    requires b.Hardware?
    ensures Back(ReadHardware([Lsb(|b.machines|)] + (PrintMachines(b.machines) + rest)), b, rest, Printable(b, |rest|))
  {
    hide MachineFits, ReadMachines, PrintMachines;
    var d := PrintMachines(b.machines) + rest;
    assert ([Lsb(|b.machines|)] + d)[1..] == d;
    MachinesAreRead(b.machines, rest);
  }

  lemma ArchiveBack(b: Block, rest: seq<byte>)
    requires b.Archive? && Representable(b)
    ensures var d := [Lsb(|b.infos|)] + (PrintInfos(b.infos) + rest);
            Back(ReadArchive(W(1 + 2 * |b.infos| + InfoLengths(b.infos)) + d), b, rest, Printable(b, |rest|))
  {
    hide InfoFits, ReadInfos, PrintInfos, W;
    var d := PrintInfos(b.infos) + rest;
    var d1 := [Lsb(|b.infos|)] + d;
    assert d1[1..] == d;
    assert (W(1 + 2 * |b.infos| + InfoLengths(b.infos)) + d1)[2..] == d1;
    InfosAreRead(b.infos, rest);
  }

  lemma {:induction false} SelectionsLength(selections: seq<Selection>)
    requires AllSelectionsFit(selections)
    ensures |PrintSelections(selections)| == 3 * |selections| + TextLengths(selections)
    ensures TextLengths(selections) <= 255 * |selections|
  {
    hide LineEnds, FitsIn;
    SelectionsFit(selections);
    if selections != [] {
      SelectionsLength(selections[1..]);
      assert |PrintText(selections[0].text)| == 1 + |selections[0].text|;
    }
  }

  lemma TwoDigits(n: nat)
    ensures n % 256 + 256 * (n / 256 % 256) == n % WORD_MODULUS
  {
    var a := n / 256;
    var q := a / 256;
    assert n == WORD_MODULUS * q + (n % 256 + 256 * (a % 256));
  }

  lemma WordOf(n: nat, rest: seq<byte>)
    ensures Word(W(n) + rest) == n % WORD_MODULUS
  {
    var d := W(n) + rest;
    assert W(n) == [Lsb(n)] + Number(n / 256, 1);
    assert Number(n / 256, 1) == [Lsb(n / 256)] + Number(n / 256 / 256, 0);
    assert d[0] == Lsb(n) && d[1] == Lsb(n / 256);
    assert NumberAt(d[1..], 1) == d[1];
    TwoDigits(n);
  }

  lemma SelectBack(b: Block, rest: seq<byte>)
    requires b.Select? && Representable(b)
    ensures var d := [Lsb(|b.selections|)] + (PrintSelections(b.selections) + rest);
            Back(ReadSelect(W(4 + 3 * |b.selections| + TextLengths(b.selections)) + d), b, rest, Printable(b, |rest|))
  {
    hide SelectionFits, ReadSelections, PrintSelections, W, Word, TextLengths;
    var d := PrintSelections(b.selections) + rest;
    var d1 := [Lsb(|b.selections|)] + d;
    assert d1[1..] == d;
    var total := 4 + 3 * |b.selections| + TextLengths(b.selections);
    assert (W(total) + d1)[2..] == d1;
    WordOf(total, d1);
    SelectionsAreRead(b.selections, rest);
    if AllSelectionsFit(b.selections) {
      SelectionsLength(b.selections);
      if |b.selections| < 256 {
        assert total < 2 * WORD_MODULUS;
      }
    }
  }

  // ----- The round trip -----

  lemma TextsBack(b: Block, rest: seq<byte>)
    requires (b.GroupStart? || b.Comment?) && Representable(b)
    ensures var d := PrintText(b.text) + rest;
            Back(if b.GroupStart? then ReadGroupStart(d) else ReadComment(d), b, rest, Printable(b, |rest|))
  {
    hide PrintText, ReadText, TextFits;
    TextIsRead(b.text, rest);
  }

  /** The fields of a printed block, with more behind them. */
  function Fields(b: Block, rest: seq<byte>): seq<byte> {
    match b
    case Rom(pause, _, data) => W(pause) + (PrintData(data, 2) + rest)
    case Turbo(pilot, sync1, sync2, bit0, bit1, pulses, bits, pause, _, data) =>
      W(pilot) + (W(sync1) + (W(sync2) + (W(bit0) + (W(bit1) + (W(pulses) + ([Lsb(bits)]
        + (W(pause) + (PrintData(data, 3) + rest))))))))
    case Tone(length, count) => W(length) + (W(count) + rest)
    case Pulses(lengths) => [Lsb(|lengths|)] + (PrintLengths(lengths) + rest)
    case PureData(bit0, bit1, bits, pause, _, data) =>
      W(bit0) + (W(bit1) + ([Lsb(bits)] + (W(pause) + (PrintData(data, 3) + rest))))
    case RawData(length, pause, _, bits, data) => W(length) + (W(pause) + ([Lsb(bits)] + (PrintData(data, 3) + rest)))
    case Pause(level, pause, tstates) =>
      if level == 0 then W(pause) + rest
      else if level == 1 then Number(1, 4) + ([1] + (PrintTone(tstates, 1) + rest))
      else W(tstates) + (W(1) + rest)
    case GroupStart(text) => PrintText(text) + rest
    case GroupEnd => rest
    case Jump(jump) => W(Unsigned(jump)) + rest
    case LoopStart(count) => W(count) + rest
    case LoopEnd => rest
    case Select(selections) =>
      W(4 + 3 * |selections| + TextLengths(selections)) + ([Lsb(|selections|)] + (PrintSelections(selections) + rest))
    case Stop48 => Number(0, 4) + rest
    case SignalLevel(level) => Number(1, 4) + ([level % 256] + rest)
    case Comment(text) => PrintText(text) + rest
    case Message(pause, _, text) => [Lsb(pause)] + (PrintText(text) + rest)
    case Archive(infos) => W(1 + 2 * |infos| + InfoLengths(infos)) + ([Lsb(|infos|)] + (PrintInfos(infos) + rest))
    case Hardware(machines) => [Lsb(|machines|)] + (PrintMachines(machines) + rest)
    case Custom(description, data) => description + (PrintData(data, 4) + rest)
  }

  function Id(b: Block): byte {
    match b
    case Rom(_, _, _) => 0x10
    case Turbo(_, _, _, _, _, _, _, _, _, _) => 0x11
    case Tone(_, _) => 0x12
    case Pulses(_) => 0x13
    case PureData(_, _, _, _, _, _) => 0x14
    case RawData(_, _, _, _, _) => 0x15
    case Pause(level, _, _) => if level == 0 then 0x20 else if level == 1 then 0x2b else 0x12
    case GroupStart(_) => 0x21
    case GroupEnd => 0x22
    case Jump(_) => 0x23
    case LoopStart(_) => 0x24
    case LoopEnd => 0x25
    case Select(_) => 0x28
    case Stop48 => 0x2a
    case SignalLevel(_) => 0x2b
    case Comment(_) => 0x30
    case Message(_, _, _) => 0x31
    case Archive(_) => 0x32
    case Hardware(_) => 0x33
    case Custom(_, _) => 0x35
  }

  lemma Group2(x: seq<byte>, a: seq<byte>, b: seq<byte>, rest: seq<byte>)
    ensures x + (a + b) + rest == x + (a + (b + rest))
  {
    Assoc(x, a + b, rest);
    Assoc(a, b, rest);
  }

  lemma Group3(x: seq<byte>, a: seq<byte>, b: seq<byte>, c: seq<byte>, rest: seq<byte>)
    ensures x + (a + (b + c)) + rest == x + (a + (b + (c + rest)))
  {
    Assoc(x, a + (b + c), rest);
    Group2(a, b, c, rest);
  }

  lemma Group5(x: seq<byte>, a: seq<byte>, b: seq<byte>, c: seq<byte>, d: seq<byte>, e: seq<byte>, rest: seq<byte>)
    ensures x + (a + (b + (c + (d + e)))) + rest == x + (a + (b + (c + (d + (e + rest)))))
  {
    Assoc(x, a + (b + (c + (d + e))), rest);
    Assoc(a, b + (c + (d + e)), rest);
    Group3(b, c, d, e, rest);
  }

  lemma PrintedTurbo(b: Block, rest: seq<byte>)
    requires b.Turbo?
    ensures Print(b) + rest == [Id(b)] + Fields(b, rest)
  {
    hide W, PrintData, Lsb;
  }

  lemma PrintedPause(b: Block, rest: seq<byte>)
    requires b.Pause?
    ensures Print(b) + rest == [Id(b)] + Fields(b, rest)
  {
    hide W, Number;
    if b.level == 0 {
      Assoc([0x20], W(b.pause), rest);
    } else {
      var tone := PrintTone(b.tstates, 1);
      Group2([0x12], W(b.tstates), W(1), rest);
      if b.level == 1 {
        Assoc(PrintLevel(1), tone, rest);
        Group2([0x2b], Number(1, 4), [1], tone + rest);
      } else {
        assert [] + tone == tone;
      }
    }
  }

  predicate IsWave(b: Block) {
    b.Rom? || b.Turbo? || b.Tone? || b.Pulses? || b.PureData? || b.RawData?
  }

  predicate IsControl(b: Block) {
    b.Pause? || b.GroupEnd? || b.Jump? || b.LoopStart? || b.LoopEnd? || b.Stop48? || b.SignalLevel?
  }

  lemma PrintedWave(b: Block, rest: seq<byte>)
    requires IsWave(b)
    ensures Print(b) + rest == [Id(b)] + Fields(b, rest)
  {
    hide W, PrintData, Lsb, Number, PrintText, PrintLengths, PrintSelections, PrintInfos, PrintMachines,
      TextLengths, InfoLengths, Unsigned;
    match b
    case Rom(pause, _, data) => Group2([0x10], W(pause), PrintData(data, 2), rest);
    case Turbo(_, _, _, _, _, _, _, _, _, _) => PrintedTurbo(b, rest);
    case Tone(length, count) => Group2([0x12], W(length), W(count), rest);
    case Pulses(lengths) => Group2([0x13], [Lsb(|lengths|)], PrintLengths(lengths), rest);
    case PureData(bit0, bit1, bits, pause, _, data) =>
      Group5([0x14], W(bit0), W(bit1), [Lsb(bits)], W(pause), PrintData(data, 3), rest);
    case RawData(length, pause, _, bits, data) =>
      Assoc([0x15], W(length) + (W(pause) + ([Lsb(bits)] + PrintData(data, 3))), rest);
      Group3(W(length), W(pause), [Lsb(bits)], PrintData(data, 3), rest);
  }

  lemma PrintedControl(b: Block, rest: seq<byte>)
    requires IsControl(b)
    ensures Print(b) + rest == [Id(b)] + Fields(b, rest)
  {
    hide W, PrintData, Lsb, Number, PrintText, PrintLengths, PrintSelections, PrintInfos, PrintMachines,
      TextLengths, InfoLengths, Unsigned;
    match b
    case Pause(_, _, _) => PrintedPause(b, rest);
    case GroupEnd =>
    case Jump(jump) => Assoc([0x23], W(Unsigned(jump)), rest);
    case LoopStart(count) => Assoc([0x24], W(count), rest);
    case LoopEnd =>
    case Stop48 => Assoc([0x2a], Number(0, 4), rest);
    case SignalLevel(level) => Group2([0x2b], Number(1, 4), [level % 256], rest);
  }

  lemma PrintedText(b: Block, rest: seq<byte>)
    requires !IsWave(b) && !IsControl(b)
    ensures Print(b) + rest == [Id(b)] + Fields(b, rest)
  {
    hide W, PrintData, Lsb, Number, PrintText, PrintLengths, PrintSelections, PrintInfos, PrintMachines,
      TextLengths, InfoLengths, Unsigned;
    match b
    case GroupStart(text) => Assoc([0x21], PrintText(text), rest);
    case Select(selections) =>
      Group3([0x28], W(4 + 3 * |selections| + TextLengths(selections)), [Lsb(|selections|)],
             PrintSelections(selections), rest);
    case Comment(text) => Assoc([0x30], PrintText(text), rest);
    case Message(pause, _, text) => Group2([0x31], [Lsb(pause)], PrintText(text), rest);
    case Archive(infos) =>
      Group3([0x32], W(1 + 2 * |infos| + InfoLengths(infos)), [Lsb(|infos|)], PrintInfos(infos), rest);
    case Hardware(machines) => Group2([0x33], [Lsb(|machines|)], PrintMachines(machines), rest);
    case Custom(description, data) => Group2([0x35], description, PrintData(data, 4), rest);
  }

  lemma Printed(b: Block, rest: seq<byte>)
    ensures Print(b) + rest == [Id(b)] + Fields(b, rest)
  {
    hide Print, Id, Fields;
    if IsWave(b) {
      PrintedWave(b, rest);
    } else if IsControl(b) {
      PrintedControl(b, rest);
    } else {
      PrintedText(b, rest);
    }
  }

  /** A block is read as it was written exactly when it is printable, whatever is behind it. */
  lemma BlockRoundTrip(b: Block, rest: seq<byte>)
    requires Representable(b)
    ensures var d := Print(b) + rest;
            d != [] && Back(ReadBlock(d[0], d[1..]), b, rest, Printable(b, |rest|))
  {
    hide Print, Fields;
    Printed(b, rest);
    assert (Print(b) + rest)[1..] == Fields(b, rest);
    FieldsBack(b, rest);
  }

  /** The bits in the last byte as they are read: more than 8 are 8, and none at all are the 8 of the byte before it,
      unless there is no data, or a single byte of pure data. */
  lemma BitsAreRead(b: Block, rest: seq<byte>)
    requires HasBits(b) && Printable(WithBits(b, 8, b.data), |rest|)
    ensures var d, n, length := Print(b) + rest, b.bits % 256, |b.data|;
            && d != []
            && ReadBlock(d[0], d[1..])
               == if n == 0 && (if b.PureData? then length > 1 else length >= 1)
                  then Ok(Read(WithBits(b, 8, b.data[..length - 1]), rest))
                  else Ok(Read(WithBits(b, if n > 8 then 8 else n, b.data), rest))
  {
    hide Print, ReadTurbo, ReadPureData, ReadRawData, Printable, W, PrintData, Back;
    Printed(b, rest);
    assert (Print(b) + rest)[1..] == Fields(b, rest);
    if b.Turbo? {
      TurboBack(b, rest);
    } else if b.PureData? {
      PureDataBack(b, rest);
    } else {
      RawDataBack(b, rest);
    }
  }

  /** Blocks without fields, and pauses that become other blocks. */
  lemma PlainBack(b: Block, rest: seq<byte>)
    requires b.GroupEnd? || b.LoopEnd? || b.Stop48? || (b.Pause? && b.level != 0)
    ensures Back(ReadBlock(Id(b), Fields(b, rest)), b, rest, Printable(b, |rest|))
  {
    hide W, Number, Word;
    if b.Stop48? {
      assert (Number(0, 4) + rest)[4..] == rest;
    }
  }

  lemma WaveBack(b: Block, rest: seq<byte>)
    requires IsWave(b)
    ensures Back(ReadBlock(Id(b), Fields(b, rest)), b, rest, Printable(b, |rest|))
  {
    hide W, PrintData, Lsb, Number, PrintText, PrintLengths, PrintSelections, PrintInfos, PrintMachines,
      TextLengths, InfoLengths, Unsigned,
      ReadRom, ReadTurbo, ReadTone, ReadPulses, ReadPureData, ReadRawData, ReadGroupStart, ReadPause, ReadJump,
      ReadLoopStart, ReadSelect, ReadStop48, ReadSignalLevel, ReadComment, ReadMessage, ReadArchive, ReadHardware,
      ReadCustom, Word, Printable, Representable, Back;
    match b
    case Rom(_, _, _) => RomBack(b, rest);
    case Turbo(_, _, _, _, _, _, _, _, _, _) => TurboBack(b, rest);
    case Tone(_, _) => ToneBack(b, rest);
    case Pulses(_) => PulsesBack(b, rest);
    case PureData(_, _, _, _, _, _) => PureDataBack(b, rest);
    case RawData(_, _, _, _, _) => RawDataBack(b, rest);
  }

  lemma ControlBack(b: Block, rest: seq<byte>)
    requires IsControl(b)
    ensures Back(ReadBlock(Id(b), Fields(b, rest)), b, rest, Printable(b, |rest|))
  {
    hide W, PrintData, Lsb, Number, PrintText, PrintLengths, PrintSelections, PrintInfos, PrintMachines,
      TextLengths, InfoLengths, Unsigned,
      ReadRom, ReadTurbo, ReadTone, ReadPulses, ReadPureData, ReadRawData, ReadGroupStart, ReadPause, ReadJump,
      ReadLoopStart, ReadSelect, ReadStop48, ReadSignalLevel, ReadComment, ReadMessage, ReadArchive, ReadHardware,
      ReadCustom, Word, Printable, Representable, Back;
    match b
    case Pause(level, _, _) =>
      if level == 0 {
        PauseBack(b, rest);
      } else {
        PlainBack(b, rest);
      }
    case GroupEnd => PlainBack(b, rest);
    case Jump(_) => JumpBack(b, rest);
    case LoopStart(_) => LoopStartBack(b, rest);
    case LoopEnd => PlainBack(b, rest);
    case Stop48 => PlainBack(b, rest);
    case SignalLevel(_) => SignalLevelBack(b, rest);
  }

  lemma TextBack(b: Block, rest: seq<byte>)
    requires !IsWave(b) && !IsControl(b) && Representable(b)
    ensures Back(ReadBlock(Id(b), Fields(b, rest)), b, rest, Printable(b, |rest|))
  {
    hide W, PrintData, Lsb, Number, PrintText, PrintLengths, PrintSelections, PrintInfos, PrintMachines,
      TextLengths, InfoLengths, Unsigned,
      ReadRom, ReadTurbo, ReadTone, ReadPulses, ReadPureData, ReadRawData, ReadGroupStart, ReadPause, ReadJump,
      ReadLoopStart, ReadSelect, ReadStop48, ReadSignalLevel, ReadComment, ReadMessage, ReadArchive, ReadHardware,
      ReadCustom, Word, Printable, Representable, Back;
    match b
    case GroupStart(_) => TextsBack(b, rest);
    case Select(_) => SelectBack(b, rest);
    case Comment(_) => TextsBack(b, rest);
    case Message(_, _, _) => MessageBack(b, rest);
    case Archive(_) => ArchiveBack(b, rest);
    case Hardware(_) => HardwareBack(b, rest);
    case Custom(_, _) => CustomBack(b, rest);
  }

  lemma FieldsBack(b: Block, rest: seq<byte>)
    requires Representable(b)
    ensures Back(ReadBlock(Id(b), Fields(b, rest)), b, rest, Printable(b, |rest|))
  {
    hide ReadBlock, Id, Fields, Printable, Representable, Back;
    if IsWave(b) {
      WaveBack(b, rest);
    } else if IsControl(b) {
      ControlBack(b, rest);
    } else {
      TextBack(b, rest);
    }
  }

  // ----- Whole files -----

  const SIGNATURE: seq<byte> := [0x5a, 0x58, 0x54, 0x61, 0x70, 0x65, 0x21, 0x1a]
  const CONCAT: byte := 0x5a

  /** All blocks to the end of the data. A concatenation block, which is another header, is skipped. */
  function ReadAll(d: seq<byte>): Result<seq<Block>>
    decreases |d|
  {
    if d == [] then Ok([])
    else if d[0] == CONCAT then
      if |d| - 1 < |SIGNATURE| + 1 then Err(Corrupt) else ReadAll(d[|SIGNATURE| + 2..])
    else
      var first := ReadBlock(d[0], d[1..]);
      if first.Err? then Err(first.error)
      else
        var rest := ReadAll(first.value.rest);
        if rest.Err? then rest else Ok([first.value.value] + rest.value)
  }

  function PrintTape(blocks: seq<Block>): seq<byte> {
    SIGNATURE + ([1, 20] + PrintAll(blocks))
  }

  /** The start of a file: a name, a byte 1a and the version, 1.20. */
  lemma TapeLayout(blocks: seq<Block>)
    ensures var d := PrintTape(blocks);
            && |d| >= 10 && d[..10] == [0x5a, 0x58, 0x54, 0x61, 0x70, 0x65, 0x21, 0x1a, 1, 20]
            && d[10..] == PrintAll(blocks)
  {
    hide PrintAll;
    var all := PrintAll(blocks);
    var start := SIGNATURE + [1, 20];
    Assoc(SIGNATURE, [1, 20], all);
    assert (start + all)[..10] == start && (start + all)[10..] == all;
  }

  function ReadTape(data: seq<byte>): Result<seq<Block>> {
    if |data| < |SIGNATURE| + 2 then Err(Corrupt)
    else if data[..|SIGNATURE|] != SIGNATURE then Err(Error.Signature)
    else ReadAll(data[|SIGNATURE| + 2..])
  }

  predicate AllPrintable(blocks: seq<Block>) {
    blocks == [] || (Printable(blocks[0], |PrintAll(blocks[1..])|) && AllPrintable(blocks[1..]))
  }

  lemma {:induction false} BlocksRoundTrip(blocks: seq<Block>)
    requires forall i :: 0 <= i < |blocks| ==> Representable(blocks[i])
    ensures ReadAll(PrintAll(blocks)) == Ok(blocks) <==> AllPrintable(blocks)
  {
    hide Print, Printable, ReadBlock, Representable, Fields, Id;
    if blocks != [] {
      var b, rest := blocks[0], blocks[1..];
      var d := Print(b) + PrintAll(rest);
      BlockRoundTrip(b, PrintAll(rest));
      BlocksRoundTrip(rest);
      NotAHeader(b, PrintAll(rest));
      assert blocks == [b] + rest;
      var first := ReadBlock(d[0], d[1..]);
      if first.Ok? {
        var more := ReadAll(first.value.rest);
        if more.Ok? {
          SameParts(first.value.value, more.value, b, rest);
        }
      }
    }
  }

  lemma NotAHeader(b: Block, rest: seq<byte>)
    ensures var d := Print(b) + rest; d != [] && d[0] != CONCAT
  {
    hide Print, Fields;
    Printed(b, rest);
  }

  /** A tape is read as it was written exactly when all of its blocks are printable. */
  lemma TapeRoundTrip(blocks: seq<Block>)
    requires forall i :: 0 <= i < |blocks| ==> Representable(blocks[i])
    ensures ReadTape(PrintTape(blocks)) == Ok(blocks) <==> AllPrintable(blocks)
  {
    hide PrintAll, ReadAll, AllPrintable, Representable;
    var d := PrintTape(blocks);
    assert d[..|SIGNATURE|] == SIGNATURE;
    assert d[|SIGNATURE| + 2..] == PrintAll(blocks);
    BlocksRoundTrip(blocks);
  }

  /** Blocks with something behind them. */
  lemma {:induction false} BlocksThen(blocks: seq<Block>, d: seq<byte>)
    requires |d| >= 3 && forall i :: 0 <= i < |blocks| ==> Representable(blocks[i]) && Printable(blocks[i], 3)
    ensures var r := ReadAll(d);
            ReadAll(PrintAll(blocks) + d) == if r.Err? then r else Ok(blocks + r.value)
    decreases |blocks|
  {
    hide Print, Printable, ReadBlock, Representable, Fields, Id;
    if blocks == [] {
      assert PrintAll(blocks) + d == d;
      assert ReadAll(d).Ok? ==> blocks + ReadAll(d).value == ReadAll(d).value;
    } else {
      var b, rest := blocks[0], PrintAll(blocks[1..]) + d;
      Assoc(Print(b), PrintAll(blocks[1..]), d);
      BlockRoundTrip(b, rest);
      MoreBehind(b, |rest|);
      NotAHeader(b, rest);
      BlocksThen(blocks[1..], d);
      if ReadAll(d).Ok? {
        assert blocks == [b] + blocks[1..];
        Assoc([b], blocks[1..], ReadAll(d).value);
      }
    }
  }

  lemma MoreBehind(b: Block, n: nat)
    requires Printable(b, 3) && n >= 3
    ensures Printable(b, n)
  {
    hide FitsIn, TextFits, TextLengths, SelectionFits, InfoFits, MachineFits, BitsFit, PauseFits;
  }

  /** Two files put together are the tape of both: the start of the second is taken for a block that says so. */
  lemma TapesJoin(one: seq<Block>, other: seq<Block>)
    requires forall i :: 0 <= i < |one| ==> Representable(one[i]) && Printable(one[i], 3)
    requires AllPrintable(other) && forall i :: 0 <= i < |other| ==> Representable(other[i])
    ensures ReadTape(PrintTape(one) + PrintTape(other)) == Ok(one + other)
  {
    hide *;
    HeaderIsSkipped(one, PrintTape(other));
    HeaderIsSkipped(other, []);
    assert PrintTape(other) + [] == PrintTape(other) && PrintAll(other) + [] == PrintAll(other);
    BlocksThen(one, PrintTape(other));
    BlocksRoundTrip(other);
  }

  lemma HeaderIsSkipped(blocks: seq<Block>, rest: seq<byte>)
    ensures var d := PrintTape(blocks) + rest;
            |d| >= 10 && ReadTape(d) == ReadAll(d) == ReadAll(PrintAll(blocks) + rest)
  {
    hide PrintAll, ReadBlock;
    var d := PrintTape(blocks) + rest;
    assert d[..|SIGNATURE|] == SIGNATURE && d[0] == SIGNATURE[0];
    assert d[|SIGNATURE| + 2..] == PrintAll(blocks) + rest;
  }

  // ----- Blocks that do not come back -----

  /** A file with one block in it. */
  lemma OneBlockFile(b: Block, bytes: seq<byte>)
    requires Print(b) == bytes && bytes != [] && bytes[0] != CONCAT
    ensures var first := ReadBlock(bytes[0], bytes[1..]);
            && (first.Err? ==> ReadTape(PrintTape([b])) == Err(first.error))
            && (first.Ok? && first.value.rest == [] ==> ReadTape(PrintTape([b])) == Ok([first.value.value]))
  {
    hide Print, ReadBlock;
    assert [b][1..] == [];
    assert PrintAll([b]) == bytes + PrintAll([]) == bytes;
    var d := PrintTape([b]);
    assert d[..|SIGNATURE|] == SIGNATURE;
    assert d[|SIGNATURE| + 2..] == bytes;
    var first := ReadBlock(bytes[0], bytes[1..]);
    if first.Ok? && first.value.rest == [] {
      assert ReadAll([]) == Ok([]);
      assert [first.value.value] + [] == [first.value.value];
    }
  }

  /** A word below 256. */
  lemma ShortWord(n: nat)
    requires n < 256
    ensures W(n) == [n, 0]
  {
    assert Number(n, 2) == [Lsb(n)] + Number(n / 256, 1);
    assert Number(0, 1) == [0] + Number(0, 0);
  }

  /** The text of one letter. */
  lemma OneLetter()
    ensures PrintText([0x41]) == [1, 0x41]
  {
    var text: seq<byte> := [0x41];
    assert LineEnds(text[..1], LF, CR) == [0x41];
  }

  lemma PrintedSelection()
    ensures Print(Select([Selection(1, [0x41])])) == [0x28, 8, 0, 1, 1, 0, 1, 0x41]
  {
    hide PrintText, W;
    var s := Selection(1, [0x41]);
    OneLetter();
    ShortWord(8);
    ShortWord(1);
    assert [s][1..] == [] && PrintSelections([s]) == [1, 0] + ([1, 0x41] + []);
    assert TextLengths([s]) == 1 + TextLengths([]);
  }

  /** A selection that is last on its tape is too short for the length that is written for it. */
  lemma SelectionIsLast()
    ensures ReadTape(PrintTape([Select([Selection(1, [0x41])])])) == Err(Corrupt)
  {
    hide Print, PrintTape, ReadTape, Word, W;
    var bytes: seq<byte> := [0x28, 8, 0, 1, 1, 0, 1, 0x41];
    PrintedSelection();
    OneBlockFile(Select([Selection(1, [0x41])]), bytes);
    ShortWord(8);
    assert bytes[1..] == W(8) + [1, 1, 0, 1, 0x41];
    WordOf(8, [1, 1, 0, 1, 0x41]);
  }

  lemma PrintedMessage()
    ensures Print(Message(1000, 3500000, [0x41])) == [0x31, 232, 1, 0x41]
  {
    hide PrintText;
    OneLetter();
  }

  /** A message that is to be shown for a second comes back to be shown for nearly four minutes. */
  lemma MessageOfASecond()
    ensures ReadTape(PrintTape([Message(1000, 3500000, [0x41])])) == Ok([Message(232000, 812000000, [0x41])])
  {
    hide Print, PrintTape, ReadTape, ReadText, PrintText;
    var bytes: seq<byte> := [0x31, 232, 1, 0x41];
    PrintedMessage();
    OneBlockFile(Message(1000, 3500000, [0x41]), bytes);
    OneLetter();
    assert bytes[1..][1..] == PrintText([0x41]) + [];
    TextIsRead([0x41], []);
  }

  /** A pause of 5000 t-states is more than a millisecond, and comes back as one. */
  lemma PauseIsRounded()
    ensures ReadTape(PrintTape([Rom(1, 5000, [])])) == Ok([Rom(1, 3500, [])])
  {
    var b := Rom(1, 5000, []);
    ShortWord(1);
    ShortWord(0);
    var bytes: seq<byte> := [0x10, 1, 0, 0, 0];
    assert Print(b) == [0x10] + (W(1) + PrintData([], 2)) == bytes;
    OneBlockFile(b, bytes);
    RomBack(Rom(1, 3500, []), []);
    assert bytes[1..] == W(1) + (PrintData([], 2) + []);
    FitsWord(1);
    FitsWord(0);
  }
}
