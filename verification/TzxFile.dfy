/** The loops that write .tzx files (tzx_write.c) and read them (tzx_read.c). */
module TzxFile {
  import opened Bytes
  import opened Tzx

  class Writer {
    var buffer: seq<byte>

    constructor ()
      ensures buffer == []
    {
      buffer := [];
    }

    method Append(data: seq<byte>)
      modifies this
      ensures buffer == old(buffer) + data
    {
      buffer := buffer + data;
    }

    /** tzx_write_bytes: the length, byte by byte, and the data. */
    method WriteBytes(length: nat, lengthBytes: nat)
      modifies this
      ensures buffer == old(buffer) + Number(length, lengthBytes)
    {
      var i, shifter := 0, length;
      ghost var whole := Number(length, lengthBytes);
      assert buffer + whole == old(buffer) + whole;
      while i < lengthBytes
        invariant i <= lengthBytes && buffer + Number(shifter, lengthBytes - i) == old(buffer) + whole
      {
        ghost var rest := Number(shifter / 256, lengthBytes - i - 1);
        Assoc(buffer, [Lsb(shifter)], rest);
        buffer := buffer + [Lsb(shifter)];
        shifter, i := shifter / 256, i + 1;
      }
      assert buffer + [] == buffer;
    }

    method WriteData(data: seq<byte>, lengthBytes: nat)
      modifies this
      ensures buffer == old(buffer) + PrintData(data, lengthBytes)
    {
      WriteBytes(|data|, lengthBytes);
      Assoc(old(buffer), Number(|data|, lengthBytes), data);
      Append(data);
    }

    /** tzx_write_string: line feeds become carriage returns on the way. */
    method WriteString(text: seq<byte>)
      modifies this
      ensures buffer == old(buffer) + PrintText(text)
    {
      var length := |text| % 256;
      Append([length]);
      var i := 0;
      ghost var before, kept := buffer, LineEnds(text[..length], LF, CR);
      while i < length
        invariant i <= length && buffer == before + kept[..i]
      {
        Append([if text[i] == LF then CR else text[i]]);
        assert kept[..i + 1] == kept[..i] + [kept[i]];
        i := i + 1;
      }
      assert kept[..i] == kept;
      Assoc(old(buffer), [length], kept);
    }

    method WriteLengths(lengths: seq<nat>)
      modifies this
      ensures buffer == old(buffer) + PrintLengths(lengths)
    {
      hide W;
      var i := 0;
      assert lengths[0..] == lengths;
      while i < |lengths|
        invariant i <= |lengths| && buffer + PrintLengths(lengths[i..]) == old(buffer) + PrintLengths(lengths)
      {
        assert lengths[i..][1..] == lengths[i + 1..];
        Assoc(buffer, W(lengths[i]), PrintLengths(lengths[i + 1..]));
        Append(W(lengths[i]));
        i := i + 1;
      }
      assert buffer + [] == buffer;
    }

    method WriteSelections(selections: seq<Selection>)
      modifies this
      ensures buffer == old(buffer) + PrintSelections(selections)
    {
      hide W, PrintText;
      var i := 0;
      assert selections[0..] == selections;
      while i < |selections|
        invariant i <= |selections|
        invariant buffer + PrintSelections(selections[i..]) == old(buffer) + PrintSelections(selections)
      {
        ghost var rest := PrintSelections(selections[i + 1..]);
        assert selections[i..][1..] == selections[i + 1..];
        Assoc(buffer, W(selections[i].offset), PrintText(selections[i].text) + rest);
        Assoc(buffer + W(selections[i].offset), PrintText(selections[i].text), rest);
        Append(W(selections[i].offset));
        WriteString(selections[i].text);
        i := i + 1;
      }
      assert buffer + [] == buffer;
    }

    method WriteInfos(infos: seq<Info>)
      modifies this
      ensures buffer == old(buffer) + PrintInfos(infos)
    {
      hide PrintText;
      var i := 0;
      assert infos[0..] == infos;
      while i < |infos|
        invariant i <= |infos| && buffer + PrintInfos(infos[i..]) == old(buffer) + PrintInfos(infos)
      {
        ghost var rest := PrintInfos(infos[i + 1..]);
        assert infos[i..][1..] == infos[i + 1..];
        Assoc(buffer, [Lsb(infos[i].id)], PrintText(infos[i].text) + rest);
        Assoc(buffer + [Lsb(infos[i].id)], PrintText(infos[i].text), rest);
        Append([Lsb(infos[i].id)]);
        WriteString(infos[i].text);
        i := i + 1;
      }
      assert buffer + [] == buffer;
    }

    method WriteMachines(machines: seq<Machine>)
      modifies this
      ensures buffer == old(buffer) + PrintMachines(machines)
    {
      var i := 0;
      assert machines[0..] == machines;
      while i < |machines|
        invariant i <= |machines| && buffer + PrintMachines(machines[i..]) == old(buffer) + PrintMachines(machines)
      {
        ghost var entry := [Lsb(machines[i].kind), Lsb(machines[i].id), Lsb(machines[i].value)];
        assert machines[i..][1..] == machines[i + 1..];
        Assoc(buffer, entry, PrintMachines(machines[i + 1..]));
        Append([Lsb(machines[i].kind), Lsb(machines[i].id), Lsb(machines[i].value)]);
        i := i + 1;
      }
      assert buffer + [] == buffer;
    }

    /** The lengths of the texts of an archive or selection block are added up before it is written. */
    method SelectLength(selections: seq<Selection>) returns (total: nat)
      ensures total == 4 + 3 * |selections| + TextLengths(selections)
    {
      total := 4 + 3 * |selections|;
      var i := 0;
      assert selections[0..] == selections;
      while i < |selections|
        invariant i <= |selections|
        invariant total + TextLengths(selections[i..]) == 4 + 3 * |selections| + TextLengths(selections)
      {
        assert selections[i..][1..] == selections[i + 1..];
        total := total + |selections[i].text|;
        i := i + 1;
      }
    }

    method ArchiveLength(infos: seq<Info>) returns (total: nat)
      ensures total == 1 + 2 * |infos| + InfoLengths(infos)
    {
      total := 1 + 2 * |infos|;
      var i := 0;
      assert infos[0..] == infos;
      while i < |infos|
        invariant i <= |infos| && total + InfoLengths(infos[i..]) == 1 + 2 * |infos| + InfoLengths(infos)
      {
        assert infos[i..][1..] == infos[i + 1..];
        total := total + |infos[i].text|;
        i := i + 1;
      }
    }

    method WriteSelect(selections: seq<Selection>)
      modifies this
      ensures buffer == old(buffer) + Print(Select(selections))
    {
      hide W, PrintSelections, TextLengths;
      var total := SelectLength(selections);
      Append([0x28]);
      Append(W(total));
      Append([Lsb(|selections|)]);
      WriteSelections(selections);
      Chain3(old(buffer), [0x28], W(total), [Lsb(|selections|)], PrintSelections(selections));
    }

    method WriteArchive(infos: seq<Info>)
      modifies this
      ensures buffer == old(buffer) + Print(Archive(infos))
    {
      hide W, PrintInfos, InfoLengths;
      var total := ArchiveLength(infos);
      Append([0x32]);
      Append(W(total));
      Append([Lsb(|infos|)]);
      WriteInfos(infos);
      Chain3(old(buffer), [0x32], W(total), [Lsb(|infos|)], PrintInfos(infos));
    }

    method WriteBlock(b: Block)
      modifies this
      ensures buffer == old(buffer) + Print(b)
    {
      match b
      case Rom(pause, _, data) =>
        Append([0x10]);
        Append(W(pause));
        WriteData(data, 2);
        Chain2(old(buffer), [0x10], W(pause), PrintData(data, 2));
      case Pulses(lengths) =>
        Append([0x13]);
        Append([Lsb(|lengths|)]);
        WriteLengths(lengths);
        Chain2(old(buffer), [0x13], [Lsb(|lengths|)], PrintLengths(lengths));
      case GroupStart(text) =>
        Append([0x21]);
        WriteString(text);
        Assoc(old(buffer), [0x21], PrintText(text));
      case Select(selections) => WriteSelect(selections);
      case Comment(text) =>
        Append([0x30]);
        WriteString(text);
        Assoc(old(buffer), [0x30], PrintText(text));
      case Message(pause, _, text) =>
        Append([0x31]);
        Append([Lsb(pause)]);
        WriteString(text);
        Chain2(old(buffer), [0x31], [Lsb(pause)], PrintText(text));
      case Archive(infos) => WriteArchive(infos);
      case Hardware(machines) =>
        Append([0x33]);
        Append([Lsb(|machines|)]);
        WriteMachines(machines);
        Chain2(old(buffer), [0x33], [Lsb(|machines|)], PrintMachines(machines));
      case Custom(description, data) =>
        Append([0x35]);
        Append(description);
        WriteData(data, 4);
        Chain2(old(buffer), [0x35], description, PrintData(data, 4));
      case _ => Append(Print(b));
    }

    /** internal_tzx_write. */
    method WriteTape(blocks: seq<Block>)
      requires buffer == []
      modifies this
      ensures buffer == PrintTape(blocks)
    {
      hide Print;
      Append(SIGNATURE);
      Append([1, 20]);
      var i := 0;
      assert blocks[0..] == blocks;
      while i < |blocks|
        invariant i <= |blocks| && buffer + PrintAll(blocks[i..]) == SIGNATURE + [1, 20] + PrintAll(blocks)
      {
        assert blocks[i..][1..] == blocks[i + 1..];
        Assoc(buffer, Print(blocks[i]), PrintAll(blocks[i + 1..]));
        WriteBlock(blocks[i]);
        i := i + 1;
      }
      assert buffer + [] == buffer;
      Assoc(SIGNATURE, [1, 20], PrintAll(blocks));
    }
  }

  // ----- Reading -----

  lemma Multiply(m: nat, d: nat, n: nat)
    ensures m * (d + 256 * n) == m * d + 256 * m * n
  {
  }

  class Reader {
    /** What lies between the reading position and the end. */
    var left: seq<byte>

    constructor (data: seq<byte>)
      ensures left == data
    {
      left := data;
    }

    /** The length in front of some data. */
    method TakeNumber(bytes: nat) returns (length: nat)
      requires bytes <= |left|
      modifies this
      ensures length == NumberAt(old(left), bytes) && left == old(left)[bytes..]
    {
      var multiplier: nat := 1;
      length := 0;
      var i := 0;
      ghost var whole := NumberAt(left, bytes);
      ghost var ahead := whole;
      while i < bytes
        invariant i <= bytes && left == old(left)[i..]
        invariant ahead == NumberAt(left, bytes - i) && length + multiplier * ahead == whole
      {
        ghost var next := NumberAt(left[1..], bytes - i - 1);
        assert ahead == left[0] + 256 * next;
        Multiply(multiplier, left[0], next);
        length := length + multiplier * left[0];
        left := left[1..];
        i, multiplier := i + 1, 256 * multiplier;
        ahead := next;
      }
    }

    /** tzx_read_data. */
    method TakeData(bytes: nat) returns (r: Result<seq<byte>>)
      requires bytes <= |left|
      modifies this
      ensures var spec := ReadData(old(left), bytes);
              if spec.Err? then r == Err(spec.error) else r == Ok(spec.value.value) && left == spec.value.rest
    {
      hide NumberAt;
      var length := TakeNumber(bytes);
      if |left| < length {
        return Err(Corrupt);
      }
      r := Ok(left[..length]);
      left := left[length..];
      assert old(left)[bytes..bytes + length] == old(left)[bytes..][..length];
      assert old(left)[bytes + length..] == old(left)[bytes..][length..];
    }

    /** tzx_read_string: the text ends at the first zero, and its line ends are translated in place. */
    method TakeString() returns (r: Result<seq<byte>>)
      requires left != []
      modifies this
      ensures var spec := ReadText(old(left));
              if spec.Err? then r == Err(spec.error) else r == Ok(spec.value.value) && left == spec.value.rest
    {
      var data := TakeData(1);
      if data.Err? {
        return Err(data.error);
      }
      var text := LineFeeds(data.value);
      r := Ok(text);
    }

    /** A text in memory, up to its first zero. */
    method LineFeeds(text: seq<byte>) returns (r: seq<byte>)
      ensures r == LineEnds(UpToZero(text), CR, LF)
    {
      var dest := new byte[|text| + 1](i => if 0 <= i < |text| then text[i] else 0);
      ghost var kept := UpToZero(text);
      ZeroAfter(text);
      var i := 0;
      while dest[i] != 0
        invariant i <= |kept| && dest[|text|] == 0
        invariant forall k :: i <= k < |text| ==> dest[k] == text[k]
        invariant forall k :: 0 <= k < i ==> dest[k] == LineEnd(text[k], CR, LF)
        decreases |text| - i
      {
        if dest[i] == CR {
          dest[i] := LF;
        }
        i := i + 1;
      }
      assert i == |kept|;
      r := dest[..i];
    }

    method ReadPulses() returns (r: Result<Block>)
      modifies this
      ensures Follows(r, left, Tzx.ReadPulses(old(left)))
    {
      hide Word;
      if left == [] {
        return Err(Corrupt);
      }
      var count: nat := left[0];
      left := left[1..];
      if |left| < 2 * count {
        return Err(Corrupt);
      }
      var lengths: seq<nat> := [];
      ghost var whole := ReadLengths(count, left);
      NothingBehind(Ok(whole));
      var i := 0;
      while i < count
        invariant i <= count && |left| >= 2 * (count - i)
        invariant Ok(whole) == Behind(lengths, Ok(ReadLengths(count - i, left)))
      {
        OneMoreBehind(lengths, Word(left), Ok(ReadLengths(count - i - 1, left[2..])));
        lengths := lengths + [Word(left)];
        left := left[2..];
        i := i + 1;
      }
      assert lengths + [] == lengths;
      r := Ok(Pulses(lengths));
    }

    method ReadHardware() returns (r: Result<Block>)
      modifies this
      ensures Follows(r, left, Tzx.ReadHardware(old(left)))
    {
      if left == [] {
        return Err(Corrupt);
      }
      var count: nat := left[0];
      left := left[1..];
      if |left| < 3 * count {
        return Err(Corrupt);
      }
      var machines: seq<Machine> := [];
      ghost var whole := ReadMachines(count, left);
      NothingBehind(Ok(whole));
      var i := 0;
      while i < count
        invariant i <= count && |left| >= 3 * (count - i)
        invariant Ok(whole) == Behind(machines, Ok(ReadMachines(count - i, left)))
      {
        var m := Machine(left[0], left[1], left[2]);
        OneMoreBehind(machines, m, Ok(ReadMachines(count - i - 1, left[3..])));
        machines := machines + [m];
        left := left[3..];
        i := i + 1;
      }
      assert machines + [] == machines;
      r := Ok(Hardware(machines));
    }

    method ReadSelect() returns (r: Result<Block>)
      modifies this
      ensures Follows(r, left, Tzx.ReadSelect(old(left)))
    {
      hide Word, ReadText;
      if |left| < 3 {
        return Err(Corrupt);
      }
      var length := Word(left);
      left := left[2..];
      if |left| < length {
        return Err(Corrupt);
      }
      var count: nat := left[0];
      left := left[1..];
      var selections: seq<Selection> := [];
      ghost var whole := ReadSelections(count, left);
      NothingBehind(whole);
      var i := 0;
      while i < count
        invariant i <= count
        invariant whole == Behind(selections, ReadSelections(count - i, left))
      {
        if |left| < 3 {
          return Err(Corrupt);
        }
        ghost var before := left;
        var offset := Word(left);
        left := left[2..];
        var text := TakeString();
        if text.Err? {
          return Err(text.error);
        }
        OneMoreBehind(selections, Selection(offset, text.value), ReadSelections(count - i - 1, left));
        selections := selections + [Selection(offset, text.value)];
        i := i + 1;
      }
      assert selections + [] == selections;
      r := Ok(Select(selections));
    }

    method ReadArchive() returns (r: Result<Block>)
      modifies this
      ensures Follows(r, left, Tzx.ReadArchive(old(left)))
    {
      hide ReadText;
      if |left| < 3 {
        return Err(Corrupt);
      }
      left := left[2..];
      var count: nat := left[0];
      left := left[1..];
      var infos: seq<Info> := [];
      ghost var whole := ReadInfos(count, left);
      NothingBehind(whole);
      var i := 0;
      while i < count
        invariant i <= count
        invariant whole == Behind(infos, ReadInfos(count - i, left))
      {
        if |left| < 2 {
          return Err(Corrupt);
        }
        var id := left[0];
        left := left[1..];
        var text := TakeString();
        if text.Err? {
          return Err(text.error);
        }
        OneMoreBehind(infos, Info(id, text.value), ReadInfos(count - i - 1, left));
        infos := infos + [Info(id, text.value)];
        i := i + 1;
      }
      assert infos + [] == infos;
      r := Ok(Archive(infos));
    }

    /** A block whose identifier has been read. */
    method ReadNext(id: byte) returns (r: Result<Block>)
      modifies this
      ensures Follows(r, left, ReadBlock(id, old(left)))
    {
      hide Tzx.ReadPulses, Tzx.ReadHardware, Tzx.ReadSelect, Tzx.ReadArchive, ReadText;
      if id == 0x13 {
        r := ReadPulses();
      } else if id == 0x28 {
        r := ReadSelect();
      } else if id == 0x32 {
        r := ReadArchive();
      } else if id == 0x33 {
        r := ReadHardware();
      } else if id == 0x21 || id == 0x30 {
        if left == [] {
          return Err(Corrupt);
        }
        var text := TakeString();
        r := if text.Err? then Err(text.error)
             else Ok(if id == 0x21 then GroupStart(text.value) else Comment(text.value));
      } else if id == 0x31 {
        if |left| < 2 {
          return Err(Corrupt);
        }
        var pause: nat := 1000 * First(left);
        left := left[1..];
        var text := TakeString();
        r := if text.Err? then Err(text.error) else Ok(Message(pause, TSTATES_PER_MS * pause, text.value));
      } else {
        var block := ReadBlock(id, left);
        if block.Ok? {
          left := block.value.rest;
        }
        r := if block.Err? then Err(block.error) else Ok(block.value.value);
      }
    }

    /** internal_tzx_read. */
    method ReadTape() returns (r: Result<seq<Block>>)
      modifies this
      ensures r == Tzx.ReadTape(old(left))
    {
      hide ReadBlock;
      if |left| < |SIGNATURE| + 2 {
        return Err(Corrupt);
      }
      if left[..|SIGNATURE|] != SIGNATURE {
        return Err(Error.Signature);
      }
      left := left[|SIGNATURE| + 2..];
      ghost var whole := ReadAll(left);
      var blocks: seq<Block> := [];
      NothingBefore(whole);
      while |left| > 0
        invariant whole == Before(blocks, ReadAll(left))
        decreases |left|
      {
        ghost var was := left;
        var id := left[0];
        left := left[1..];
        if id == CONCAT {
          if |left| < |SIGNATURE| + 1 {
            return Err(Corrupt);
          }
          assert was[|SIGNATURE| + 2..] == left[|SIGNATURE| + 1..];
          left := left[|SIGNATURE| + 1..];
        } else {
          var block := ReadNext(id);
          if block.Err? {
            return Err(block.error);
          }
          OneMoreBefore(blocks, block.value, ReadAll(left));
          blocks := blocks + [block.value];
        }
      }
      assert blocks + [] == blocks;
      r := Ok(blocks);
    }
  }

  /** A reader that goes along with the specification of a block. */
  predicate Follows(r: Result<Block>, left: seq<byte>, spec: Result<Read<Block>>) {
    if spec.Err? then r == Err(spec.error) else r == Ok(spec.value.value) && left == spec.value.rest
  }

  function Before(done: seq<Block>, r: Result<seq<Block>>): Result<seq<Block>> {
    if r.Err? then r else Ok(done + r.value)
  }

  lemma NothingBefore(r: Result<seq<Block>>)
    ensures Before([], r) == r
  {
    if r.Ok? {
      assert [] + r.value == r.value;
    }
  }

  lemma OneMoreBefore(done: seq<Block>, b: Block, r: Result<seq<Block>>)
    ensures Before(done + [b], r) == Before(done, Before([b], r))
  {
    if r.Ok? {
      Assoc(done, [b], r.value);
    }
  }

  /** The text up to its first zero is followed by that zero, or by nothing. */
  lemma {:induction false} ZeroAfter(text: seq<byte>)
    ensures var n := |UpToZero(text)|;
            (forall k :: 0 <= k < n ==> text[k] != 0) && (n < |text| ==> text[n] == 0)
  {
    if text != [] && text[0] != 0 {
      ZeroAfter(text[1..]);
      forall k | 0 <= k < |UpToZero(text)| ensures text[k] != 0 {
        assert k > 0 ==> text[k] == text[1..][k - 1];
      }
    }
  }

  lemma Chain2(x: seq<byte>, a: seq<byte>, b: seq<byte>, c: seq<byte>)
    ensures x + a + b + c == x + (a + (b + c))
  {
  }

  lemma Chain3(x: seq<byte>, a: seq<byte>, b: seq<byte>, c: seq<byte>, d: seq<byte>)
    ensures x + a + b + c + d == x + (a + (b + (c + d)))
  {
    Chain2(x + a, b, c, d);
    Assoc(x, a, b + (c + d));
  }
}
