/** The card of mmc.c as its fields hold it: arrays that are filled in place, and a drive with a cache behind them. */
module MmcCard {
  import opened Bytes
  import opened Drives
  import opened SdCard

  // ----- Inserting an image -----

  /** libspectrum_mmc_insert: the C_SIZE field for an image, or an error. Its size is computed in 32 bits. */
  function CardSize(cylinders: word, heads: word, sectors: word, sectorSize: nat): Result<word> {
    var total := cylinders * heads * sectors % DWORD_MODULUS;
    if sectorSize != 512 || total % 1024 != 0 then Err(Unknown)
    else
      var size := (total / 1024 + (DWORD_MODULUS - 1)) % DWORD_MODULUS;
      if size >= 65375 then Err(Unknown) else Ok(size)
  }

  /** An image is accepted exactly when it makes whole units of 512 K, and at most 65375 of them. */
  lemma AcceptedSizes(cylinders: word, heads: word, sectors: word, sectorSize: nat)
    ensures var total := cylinders * heads * sectors % DWORD_MODULUS;
            var r := CardSize(cylinders, heads, sectors, sectorSize);
            && (r.Ok? <==> sectorSize == 512 && Capacity(total))
            && (r.Ok? ==> SECTORS_PER_UNIT * (r.value + 1) == total)
  {
    var total := cylinders * heads * sectors % DWORD_MODULUS;
    UnitsLess(total / 1024);
  }

  lemma UnitsLess(units: nat)
    requires units < 0x40_0000
    ensures (units + (DWORD_MODULUS - 1)) % DWORD_MODULUS == if units == 0 then DWORD_MODULUS - 1 else units - 1
  {
  }

  // ----- The states of the card, numbered as they follow each other -----

  const WAITING_FOR_COMMAND: nat := 0
  const WAITING_FOR_DATA0: nat := 1
  const WAITING_FOR_CRC: nat := 5
  const WAITING_FOR_DATA_TOKEN: nat := 6
  const WAITING_FOR_DATA: nat := 7
  const WAITING_FOR_DATA_CRC1: nat := 8
  const WAITING_FOR_DATA_CRC2: nat := 9

  function PhaseOf(state: nat, data: seq<byte>): Phase {
    if state == WAITING_FOR_COMMAND then AwaitCommand
    else if state < WAITING_FOR_CRC then AwaitArgument(state - 1)
    else if state == WAITING_FOR_CRC then AwaitCrc
    else if state == WAITING_FOR_DATA_TOKEN then AwaitToken
    else if state == WAITING_FOR_DATA then AwaitData(data)
    else if state == WAITING_FOR_DATA_CRC1 then AwaitDataCrc1(data)
    else AwaitDataCrc2(data)
  }

  datatype EraseSequence = NoSequence | BlkStart | BlkEnd

  function EraseOf(sequence: EraseSequence, start: nat, end: nat): Erase {
    match sequence
    case NoSequence => NotErasing
    case BlkStart => From(start)
    case BlkEnd => Range(start, end)
  }

  lemma WholeSector(src: seq<byte>)
    requires |src| == 512
    ensures Seen(src, 512) == src
  {
  }

  lemma Units(units: nat, sectors: nat)
    requires Capacity(sectors) && SECTORS_PER_UNIT * units == sectors
    ensures 0 < units <= MAX_UNITS && units == sectors / SECTORS_PER_UNIT
  {
  }

  lemma BlockAnswer(b: seq<byte>, r1: byte, data: seq<byte>)
    requires |b| == |data| + 4 && b[0] == r1 && b[1] == 0xfe && b[|data| + 2] == b[|data| + 3] == 0
    requires b[2..|data| + 2] == data
    ensures b == [r1, 0xfe] + data + [0, 0]
  {
    assert forall k :: 2 <= k < |data| + 2 ==> b[k] == b[2..|data| + 2][k - 2];
  }

  class Mmc {
    const drive: Drive
    const cSize: word
    const totalSectors: dword
    var status: Status
    var commandState: nat
    var currentCommand: nat
    const currentArgument: array<byte>
    var dataCount: nat
    const sendBuffer: array<byte>
    const responseBuffer: array<byte>
    var responseNext: nat
    var responseEnd: nat
    var cmd8Issued: bool
    var cmd55Issued: bool
    var eraseSequence: EraseSequence
    var eraseBlockStart: dword
    var eraseBlockEnd: dword

    ghost predicate Valid()
      reads this, drive, drive.cache
    {
      && drive.Valid() && drive.size == 512 && drive.total == totalSectors
      && Capacity(totalSectors) && SECTORS_PER_UNIT * (cSize + 1) == totalSectors
      && currentArgument.Length == 4 && sendBuffer.Length == 512 && responseBuffer.Length == 516
      && currentArgument != sendBuffer && currentArgument != responseBuffer && sendBuffer != responseBuffer
      && responseNext <= responseEnd <= 516
      && commandState <= 9
      && dataCount <= 512
    }

    /** The card as the bus sees it. */
    ghost function Card(): Card
      requires Valid()
      reads this, drive, drive.cache, currentArgument, sendBuffer, responseBuffer
    {
      SdCard.Card(PhaseOf(commandState, sendBuffer[..dataCount]), currentCommand, currentArgument[..], status,
                  cmd8Issued, cmd55Issued, EraseOf(eraseSequence, eraseBlockStart, eraseBlockEnd),
                  responseBuffer[responseNext..responseEnd], Contents(drive))
    }

    /** A card just inserted: nothing is sent, nothing cached. */
    constructor (drive: Drive)
      requires drive.Valid() && drive.size == 512 && Capacity(drive.total)
      ensures Valid() && Card() == Reset(Card()) && Invariant(Card())
      ensures this.drive == drive && Contents(drive) == old(Contents(drive))
    {
      this.drive, totalSectors, cSize := drive, drive.total, drive.total / 1024 - 1;
      currentArgument, sendBuffer, responseBuffer := new byte[4], new byte[512], new byte[516];
      status, commandState, currentCommand, dataCount := Status(true, false, false, false, false), 0, 0, 0;
      responseNext, responseEnd, cmd8Issued, cmd55Issued := 0, 0, false, false;
      eraseSequence, eraseBlockStart, eraseBlockEnd := NoSequence, 0, 0;
    }

    /** libspectrum_mmc_read. */
    method Read() returns (r: byte)
      requires Valid()
      modifies this
      ensures Valid() && r == Received(old(Card())) && Card() == AfterReceive(old(Card()))
    {
      if responseNext < responseEnd {
        r := responseBuffer[responseNext];
        responseNext := responseNext + 1;
      } else {
        r := 0xff;
      }
    }

    // ----- Answers -----

    method SetResponseR1()
      requires Valid()
      modifies this`responseNext, this`responseEnd, responseBuffer
      ensures Valid() && Card() == R1(old(Card()))
    {
      hide StatusByte, Capacity, PhaseOf, EraseOf;
      responseBuffer[0] := StatusByte(status);
      responseNext, responseEnd := 0, 1;
    }

    /** An answer of two bytes, the second of which says that the card is no longer busy. */
    method SetResponsePair(first: byte, second: byte)
      requires Valid()
      modifies this`responseNext, this`responseEnd, responseBuffer
      ensures Valid() && Card() == old(Card()).(response := [first, second])
    {
      hide StatusByte, Capacity, PhaseOf, EraseOf, Contents;
      responseBuffer[0], responseBuffer[1] := first, second;
      responseNext, responseEnd := 0, 2;
    }

    method SetResponseR7(value: seq<byte>)
      requires Valid() && |value| == 4
      modifies this`responseNext, this`responseEnd, responseBuffer
      ensures Valid() && Card() == R7(old(Card()), value)
    {
      hide StatusByte, Capacity, PhaseOf, EraseOf;
      responseBuffer[0] := StatusByte(status);
      responseBuffer[1], responseBuffer[2], responseBuffer[3], responseBuffer[4] :=
        value[0], value[1], value[2], value[3];
      responseNext, responseEnd := 0, 5;
    }

    /** A command that the card does not accept now. */
    method Refuse()
      requires Valid()
      modifies this`status, this`responseNext, this`responseEnd, responseBuffer
      ensures Valid() && Card() == Illegal(old(Card()))
    {
      hide StatusByte, Capacity, PhaseOf, EraseOf;
      status := status.(illegal := true);
      SetResponseR1();
    }

    method RefuseParameter()
      requires Valid()
      modifies this`status, this`responseNext, this`responseEnd, responseBuffer
      ensures Valid() && Card() == BadParameter(old(Card()))
    {
      hide StatusByte, Capacity, PhaseOf, EraseOf;
      status := status.(parameter := true);
      SetResponseR1();
    }

    // ----- The erase sequence -----

    method ResetEraseSequence()
      requires Valid()
      modifies this`eraseSequence, this`eraseBlockStart, this`eraseBlockEnd
      ensures Valid() && Card() == old(Card()).(erase := NotErasing)
    {
      hide Capacity, PhaseOf;
      eraseSequence, eraseBlockStart, eraseBlockEnd := NoSequence, 0, 0;
    }

    method RefuseSequence()
      requires Valid()
      modifies this, responseBuffer
      ensures Valid() && Card() == EraseError(old(Card()))
    {
      hide StatusByte, Capacity, PhaseOf, EraseOf;
      status := status.(sequence := true);
      SetResponseR1();
      ResetEraseSequence();
    }

    method EraseWrBlkStart()
      requires Valid()
      modifies this, responseBuffer
      ensures Valid() && Card() == EraseStart(old(Card()), Argument(old(Card().argument)))
    {
      hide StatusByte, Capacity, PhaseOf, Argument;
      if status.idle {
        Refuse();
        return;
      }
      if eraseSequence != NoSequence {
        RefuseSequence();
        return;
      }
      eraseBlockStart := Argument(currentArgument[..]);
      if eraseBlockStart >= totalSectors {
        RefuseParameter();
        ResetEraseSequence();
        return;
      }
      SetResponseR1();
      eraseSequence := BlkStart;
    }

    method EraseWrBlkEnd()
      requires Valid()
      modifies this, responseBuffer
      ensures Valid() && Card() == EraseEnd(old(Card()), Argument(old(Card().argument)))
    {
      hide StatusByte, Capacity, PhaseOf, Argument;
      if status.idle {
        Refuse();
        return;
      }
      if eraseSequence != BlkStart {
        RefuseSequence();
        return;
      }
      eraseBlockEnd := Argument(currentArgument[..]);
      if eraseBlockEnd >= totalSectors {
        RefuseParameter();
        ResetEraseSequence();
        return;
      }
      if eraseBlockStart > eraseBlockEnd {
        RefuseParameter();
        ResetEraseSequence();
        return;
      }
      SetResponseR1();
      eraseSequence := BlkEnd;
    }

    method ZeroSectors(start: dword, end: dword)
      requires Valid() && start <= end < totalSectors
      modifies sendBuffer, drive.cache
      ensures Valid() && Contents(drive) == Erased(old(Contents(drive)), start, end)
    {
      hide Capacity, PhaseOf;
      var k := 0;
      while k < 512
        modifies sendBuffer
        invariant k <= 512 && forall j :: 0 <= j < k ==> sendBuffer[j] == 0
      {
        sendBuffer[k] := 0;
        k := k + 1;
      }
      assert sendBuffer[..] == Repeat(0, 512);
      var i := start;
      while i <= end
        invariant start <= i <= end + 1 && Valid() && sendBuffer[..] == Repeat(0, 512)
        invariant forall n: dword :: n < totalSectors ==>
                    drive.Sector(n) == if start <= n < i then Repeat(0, 512) else old(drive.Sector(n))
      {
        drive.WriteSector(i, sendBuffer[..]);
        WholeSector(sendBuffer[..]);
        i := i + 1;
      }
      var was := old(Contents(drive));
      forall n: dword | n < totalSectors ensures Contents(drive)[n] == Erased(was, start, end)[n] {
        assert was[n] == old(drive.Sector(n));
      }
    }

    method EraseRange()
      requires Valid() && Invariant(Card()) && commandState == WAITING_FOR_CRC
      modifies this, sendBuffer, responseBuffer, drive.cache
      ensures Valid() && Card() == SdCard.EraseBlocks(old(Card()))
    {
      hide StatusByte, Capacity, Argument, Erased, Illegal, EraseError, Contents;
      if status.idle {
        Refuse();
        return;
      }
      if eraseSequence != BlkEnd {
        RefuseSequence();
        return;
      }
      ZeroSectors(eraseBlockStart, eraseBlockEnd);
      SetResponsePair(StatusByte(status), 0x01);
      ResetEraseSequence();
    }

    // ----- Blocks and registers -----

    method ReadSingleBlock()
      requires Valid()
      modifies this`status, this`responseNext, this`responseEnd, responseBuffer
      ensures Valid() && Card() == ReadBlock(old(Card()), Argument(old(Card().argument)))
    {
      hide StatusByte, Capacity, PhaseOf, EraseOf, Argument;
      if status.idle {
        Refuse();
        return;
      }
      var sector := Argument(currentArgument[..]);
      if sector >= totalSectors {
        RefuseParameter();
        return;
      }
      FetchBlock(sector);
      responseNext, responseEnd := 0, 516;
    }

    /** A sector in a block answer. */
    method FetchBlock(sector: dword)
      requires Valid() && sector < totalSectors
      modifies responseBuffer
      ensures responseBuffer[..516] == [StatusByte(status), 0xfe] + Contents(drive)[sector] + [0, 0]
    {
      hide StatusByte, Capacity, PhaseOf, EraseOf;
      drive.ReadSector(sector, responseBuffer, 2);
      ghost var data := responseBuffer[2..514];
      responseBuffer[0], responseBuffer[1] := StatusByte(status), 0xfe;
      responseBuffer[514], responseBuffer[515] := 0, 0;
      assert responseBuffer[2..514] == data;
      BlockAnswer(responseBuffer[..516], StatusByte(status), data);
    }

    /** The card specific data and the card identification are sent as a block of 16 bytes. */
    method SendBlock(register: seq<byte>)
      requires Valid() && |register| == 16
      modifies this`status, this`responseNext, this`responseEnd, responseBuffer
      ensures Valid() && Card() == SendRegister(old(Card()), register)
    {
      hide StatusByte, Capacity, PhaseOf, EraseOf;
      if status.idle {
        Refuse();
        return;
      }
      responseBuffer[0], responseBuffer[1] := StatusByte(status), 0xfe;
      var i := 0;
      while i < 16
        modifies responseBuffer
        invariant i <= 16 && responseBuffer[..2] == [StatusByte(status), 0xfe]
        invariant forall k :: 2 <= k < 2 + i ==> responseBuffer[k] == register[k - 2]
      {
        responseBuffer[2 + i] := register[i];
        i := i + 1;
      }
      assert responseBuffer[2..18] == register;
      responseBuffer[18], responseBuffer[19] := 0, 0;
      responseNext, responseEnd := 0, 20;
      assert responseBuffer[..20] == responseBuffer[..2] + responseBuffer[2..18] + [0, 0];
    }

    method WriteSingleBlock()
      requires Valid() && dataCount == 512
      modifies this`status, this`responseNext, this`responseEnd, responseBuffer, drive.cache
      ensures Valid() && Card() == WriteBlock(old(Card()), Argument(old(Card().argument)), old(sendBuffer[..]))
    {
      hide StatusByte, Capacity, PhaseOf, EraseOf, Argument;
      if status.idle {
        Refuse();
        return;
      }
      var sector := Argument(currentArgument[..]);
      if sector >= totalSectors {
        RefuseParameter();
        return;
      }
      ghost var was := Contents(drive);
      drive.WriteSector(sector, sendBuffer[..]);
      WholeSector(sendBuffer[..]);
      forall n: dword | n < totalSectors ensures Contents(drive)[n] == was[sector := sendBuffer[..]][n] {
        assert was[n] == old(drive.Sector(n));
      }
      assert Contents(drive) == was[sector := sendBuffer[..]];
      SetResponsePair(0x05, 0x01);
    }

    // ----- Commands -----

    method DoApplicationCommand() returns (done: bool)
      requires Valid()
      modifies this`status, this`responseNext, this`responseEnd, responseBuffer
      ensures Valid() && done == IsApplication(currentCommand)
      ensures Card() == if done then Application(old(Card())) else old(Card())
    {
      hide StatusByte, Capacity, PhaseOf, EraseOf;
      if currentCommand in {13, 22, 23, 42, 51} {
        Refuse();
        done := true;
      } else if currentCommand == 41 {
        if cmd8Issued && currentArgument[0] / 64 % 2 == 1 {
          status := status.(idle := false);
        }
        SetResponseR1();
        done := true;
      } else {
        done := false;
      }
    }

    method DoStandardCommand()
      requires Valid() && Invariant(Card()) && commandState == WAITING_FOR_CRC
      modifies this, sendBuffer, responseBuffer, drive.cache
      ensures Valid() && Card() == Standard(old(Card()))
    {
      hide StatusByte, Capacity, Argument, Csd, R1, R7, Illegal, SendRegister, ReadBlock, SdCard.EraseStart,
        SdCard.EraseEnd, SdCard.EraseBlocks;
      match currentCommand {
        case 0 =>
          status := status.(idle := true);
          cmd8Issued := false;
          SetResponseR1();
        case 8 =>
          cmd8Issued := true;
          SetResponseR7([0, 0, 1, currentArgument[3]]);
        case 9 =>
          Units(cSize + 1, totalSectors);
          SendBlock(Csd(cSize + 1));
        case 10 => SendBlock(CID);
        case 17 => ReadSingleBlock();
        case 24 => SetResponseR1();
        case 32 => EraseWrBlkStart();
        case 33 => EraseWrBlkEnd();
        case 38 => EraseRange();
        case 55 =>
          cmd55Issued := true;
          SetResponseR1();
        case 58 => SetResponseR7([0xc0, 0, 0, 0]);
        case _ => Refuse();
      }
    }

    method DoCommand()
      requires Valid() && Invariant(Card()) && commandState == WAITING_FOR_CRC
      modifies this, sendBuffer, responseBuffer, drive.cache
      ensures Valid() && Card() == Execute(old(Card()))
    {
      hide StatusByte, Capacity, Argument, Standard, Application;
      if cmd55Issued {
        cmd55Issued := false;
        var done := DoApplicationCommand();
        if done {
          return;
        }
      }
      if eraseSequence != NoSequence && currentCommand !in {32, 33, 38} {
        ResetEraseSequence();
        status := status.(eraseReset := true);
      }
      DoStandardCommand();
    }

    method DoCommandData()
      requires Valid() && dataCount == 512
      modifies this`status, this`responseNext, this`responseEnd, responseBuffer, drive.cache
      ensures Valid()
      ensures Card() == if currentCommand == 24
                        then WriteBlock(old(Card()), Argument(old(Card().argument)), old(sendBuffer[..]))
                        else old(Card())
    {
      hide WriteBlock, Argument;
      if currentCommand == 24 {
        WriteSingleBlock();
      }
      // For any other command there is a message only. EndOfData shows that none gets here.
    }

    method StoreArgument(data: byte)
      requires Valid() && WAITING_FOR_DATA0 <= commandState < WAITING_FOR_CRC
      modifies this`commandState, currentArgument
      ensures Valid() && Sound(old(Card())) && Card() == Send(old(Card()), data)
    {
      hide Capacity, EraseOf, Execute, WriteBlock, Contents;
      currentArgument[commandState - 1] := data;
      commandState := commandState + 1;
    }

    method StoreData(data: byte)
      requires Valid() && commandState == WAITING_FOR_DATA && dataCount < 512
      modifies this`commandState, this`dataCount, sendBuffer
      ensures Valid() && Sound(old(Card())) && Card() == Send(old(Card()), data)
    {
      hide Capacity, EraseOf, Execute, WriteBlock, Contents;
      sendBuffer[dataCount] := data;
      dataCount := dataCount + 1;
      assert sendBuffer[..dataCount] == old(sendBuffer[..dataCount]) + [data];
      if dataCount == 512 {
        commandState := WAITING_FOR_DATA_CRC1;
      }
    }

    /** The last byte of a command: it is executed, and only the idle flag stays. */
    method EndOfCommand(crc: byte)
      requires Valid() && Invariant(Card()) && commandState == WAITING_FOR_CRC
      modifies this, sendBuffer, responseBuffer, drive.cache
      ensures Valid() && Card() == Send(old(Card()), crc)
    {
      hide StatusByte, Capacity, Argument, Execute, Contents, EraseOf, Sound;
      DoCommand();
      status := Status(status.idle, false, false, false, false);
      commandState := if currentCommand == 24 then WAITING_FOR_DATA_TOKEN else WAITING_FOR_COMMAND;
    }

    /** The last byte of a block of data. */
    method EndOfData(crc: byte)
      requires Valid() && Invariant(Card()) && commandState == WAITING_FOR_DATA_CRC2
      modifies this, responseBuffer, drive.cache
      ensures Valid() && Card() == Send(old(Card()), crc)
    {
      hide StatusByte, Capacity, Argument, WriteBlock, Contents, EraseOf;
      assert sendBuffer[..dataCount] == sendBuffer[..];
      DoCommandData();
      commandState := WAITING_FOR_COMMAND;
    }

    /** libspectrum_mmc_write. */
    method Write(data: byte)
      requires Valid() && Invariant(Card())
      modifies this, currentArgument, sendBuffer, responseBuffer, drive.cache
      ensures Valid() && Invariant(Card()) && Card() == Send(old(Card()), data)
    {
      hide StatusByte, Capacity, Argument, Execute, WriteBlock, Contents, EraseOf;
      SendKeeps(Card(), data);
      if commandState == WAITING_FOR_COMMAND {
        if 64 <= data < 128 {
          currentCommand := data - 64;
          commandState := WAITING_FOR_DATA0;
        }
      } else if commandState < WAITING_FOR_CRC {
        StoreArgument(data);
      } else if commandState == WAITING_FOR_CRC {
        EndOfCommand(data);
      } else if commandState == WAITING_FOR_DATA_TOKEN {
        if data == 0xfe {
          commandState := WAITING_FOR_DATA;
          dataCount := 0;
        }
      } else if commandState == WAITING_FOR_DATA {
        StoreData(data);
      } else if commandState == WAITING_FOR_DATA_CRC1 {
        commandState := WAITING_FOR_DATA_CRC2;
      } else {
        EndOfData(data);
      }
    }

    /** libspectrum_mmc_reset. */
    method ResetCard()
      requires Valid()
      modifies this
      ensures Valid() && Card() == Reset(old(Card()))
    {
      hide Contents, Capacity;
      status, commandState := Status(true, false, false, false, false), WAITING_FOR_COMMAND;
      responseNext, responseEnd, cmd8Issued, cmd55Issued := 0, 0, false, false;
      eraseSequence, eraseBlockStart, eraseBlockEnd := NoSequence, 0, 0;
    }

    /** libspectrum_mmc_commit: nothing stays in the cache, and the bus sees no difference, on images of up to 4 Gb. */
    method Commit()
      requires Valid()
      modifies drive, drive.cache
      ensures Valid() && drive.cache.nnodes == 0
      ensures 512 * totalSectors <= DWORD_MODULUS ==> Card() == old(Card())
    {
      hide PhaseOf, EraseOf, Capacity;
      ghost var was := Contents(drive);
      drive.Commit();
      if 512 * totalSectors <= DWORD_MODULUS {
        forall n: dword | n < totalSectors ensures Contents(drive)[n] == was[n] {
          assert was[n] == old(drive.Sector(n));
        }
        assert Contents(drive) == was;
      }
    }
  }
}
