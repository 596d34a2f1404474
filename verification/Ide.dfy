/** An ATA drive behind its registers (ide.c): addressing, transfers of several sectors, and the drive's geometry. */
module Ide {
  import opened Bytes
  import opened Drives

  datatype Geometry = Geometry(cylinders: nat, heads: nat, sectors: nat)

  datatype Registers = Registers(count: byte, sector: byte, cylinderLow: byte, cylinderHigh: byte, head: byte)

  function Capacity(g: Geometry): nat {
    g.cylinders * g.heads * g.sectors
  }

  /** What the arithmetic on the registers needs: an int holds every sector number, and each field fits its register. */
  predicate Addressable(g: Geometry) {
    Capacity(g) < 0x8000_0000 && g.cylinders <= 0xffff && g.heads <= 16 && g.sectors <= 255
  }

  predicate Lba(r: Registers) {
    r.head / 64 % 2 == 1
  }

  /** Bit 6 of the head register chooses. */
  lemma LbaIsBitSix(r: Registers)
    ensures Lba(r) <==> r.head % 128 >= 64
  {
  }

  function Cylinder(r: Registers): nat {
    var high: int, low: int := r.cylinderHigh, r.cylinderLow;
    256 * high + low
  }

  /** The sector that the registers address, when it is on the drive. The bits of the head register do not count in
      LBA mode: the mask for them is shifted to where the register has none. */
  function Address(r: Registers, g: Geometry): Option<nat> {
    if Lba(r) then
      var a := 256 * Cylinder(r) + r.sector;
      if a < Capacity(g) then Some(a) else None
    else if Cylinder(r) < g.cylinders && r.head % 16 < g.heads && 0 < r.sector <= g.sectors then
      Some((Cylinder(r) * g.heads + r.head % 16) * g.sectors + (r.sector - 1))
    else None
  }

  /** The address that the ATA standard gives the registers in LBA mode, head bits and all. */
  function LbaAddress(r: Registers): nat {
    0x100_0000 * (r.head % 16) + 256 * Cylinder(r) + r.sector
  }

  /** The drive follows it exactly when no head bit is set, or the rest of the address is off the drive anyway. */
  lemma HeadBitsAreLost(r: Registers, g: Geometry)
    requires Lba(r)
    ensures var a := LbaAddress(r);
            Address(r, g) == (if a < Capacity(g) then Some(a) else None)
            <==> r.head % 16 == 0 || 256 * Cylinder(r) + r.sector >= Capacity(g)
  {
    hide Capacity;
    assert r.head % 16 != 0 ==> LbaAddress(r) >= 0x100_0000 > 256 * Cylinder(r) + r.sector;
  }

  /** Sector 0x1000005 of a large drive is asked for, and sector 5 is found. */
  lemma HeadBitIsLost()
    ensures var r, g := Registers(1, 5, 0, 0, 0x41), Geometry(65535, 16, 255);
            Addressable(g) && Lba(r) && LbaAddress(r) == 0x100_0005 < Capacity(g) && Address(r, g) == Some(5)
  {
    assert Capacity(Geometry(65535, 16, 255)) == 267382800;
  }

  /** A byte counted up. */
  function Inc(b: byte): byte {
    if b == 255 then 0 else b + 1
  }

  function WithHead(head: byte, low: nat): byte
    requires low < 16
  {
    head - head % 16 + low
  }

  function NextLba(r: Registers): Registers {
    var s := r.(sector := Inc(r.sector));
    if s.sector != 0 then s
    else
      var l := s.(cylinderLow := Inc(s.cylinderLow));
      if l.cylinderLow != 0 then l
      else
        var h := l.(cylinderHigh := Inc(l.cylinderHigh));
        if h.cylinderHigh != 0 then h else h.(head := WithHead(h.head, (h.head % 16 + 1) % 16))
  }

  function NextChs(r: Registers, g: Geometry): Registers
    requires 0 < g.heads <= 16 && 0 < g.sectors <= 255
  {
    var s := r.(sector := r.sector % g.sectors + 1);
    if s.sector != 1 then s
    else
      var head := (s.head % 16 + 1) % g.heads;
      var h := s.(head := WithHead(s.head, head));
      if head != 0 then h
      else
        var l := h.(cylinderLow := Inc(h.cylinderLow));
        if l.cylinderLow != 0 then l else l.(cylinderHigh := Inc(l.cylinderHigh))
  }

  /** What seek leaves in the registers: the address goes on to the next sector unless this is the last. */
  function Advanced(r: Registers, g: Geometry): Registers
    requires 0 < g.heads <= 16 && 0 < g.sectors <= 255
  {
    var c := r.(count := if r.count == 0 then 255 else r.count - 1);
    if c.count == 0 then c else if Lba(c) then NextLba(c) else NextChs(c, g)
  }

  /** How many sectors are still to come: a count of 0 is 256. */
  function Left(r: Registers): nat {
    if r.count == 0 then 256 else r.count
  }

  // ----- The registers count up through the sectors -----

  /** In LBA mode all 28 bits of the registers are counted up, those in the head register too. */
  lemma NextLbaCounts(r: Registers)
    ensures LbaAddress(NextLba(r)) == (LbaAddress(r) + 1) % 0x1000_0000
    ensures NextLba(r).head / 16 == r.head / 16 && NextLba(r).count == r.count
  {
    hide WithHead;
    var n := NextLba(r);
    if r.sector == 255 && r.cylinderLow == 255 && r.cylinderHigh == 255 {
      HeadSet(r.head, (r.head % 16 + 1) % 16);
      HeadKept(r.head, (r.head % 16 + 1) % 16);
      assert n.sector == 0 && Cylinder(n) == 0;
      assert LbaAddress(r) == 0x100_0000 * (r.head % 16) + 0xff_ffff;
    } else {
      assert n.head == r.head;
    }
  }

  lemma HeadKept(head: byte, low: nat)
    requires low < 16
    ensures WithHead(head, low) / 16 == head / 16
  {
    assert WithHead(head, low) == 16 * (head / 16) + low;
  }

  lemma ProductOfNext(a: nat, b: nat)
    ensures (a + 1) * b == a * b + b
  {
  }

  lemma AddressBound(c: nat, h: nat, s: nat, g: Geometry)
    requires c < g.cylinders && h < g.heads && s < g.sectors
    ensures (c * g.heads + h) * g.sectors + s < Capacity(g)
    ensures (c + 1) * g.heads * g.sectors <= Capacity(g)
  {
    var t := c * g.heads + h;
    assert (c + 1) * g.heads == c * g.heads + g.heads;
    assert (c + 1) * g.heads <= g.cylinders * g.heads by { Monotone(c + 1, g.cylinders, g.heads); }
    Monotone(t + 1, (c + 1) * g.heads, g.sectors);
    Monotone((c + 1) * g.heads, g.cylinders * g.heads, g.sectors);
    ProductOfNext(t, g.sectors);
  }

  lemma Monotone(a: nat, b: nat, k: nat)
    requires a <= b
    ensures a * k <= b * k
  {
  }

  /** In the registers, the sector counts fastest, from 1, then the head, then the cylinder; off the drive is any
      of them that is out of its range. */
  lemma ChsAddress(r: Registers, g: Geometry)
    requires !Lba(r)
    ensures Address(r, g).Some? <==> Cylinder(r) < g.cylinders && r.head % 16 < g.heads && 1 <= r.sector <= g.sectors
    ensures Address(r, g).Some? ==>
              var n := Address(r, g).value;
              && n % g.sectors == r.sector - 1
              && n / g.sectors % g.heads == r.head % 16 && n / g.sectors / g.heads == Cylinder(r)
  {
    if Address(r, g).Some? {
      var t := Cylinder(r) * g.heads + r.head % 16;
      QuotientAndRest(t, r.sector - 1, g.sectors);
      QuotientAndRest(Cylinder(r), r.head % 16, g.heads);
    }
  }

  /** After a sector comes the next one. */
  lemma NextSector(r: Registers, g: Geometry)
    requires Addressable(g) && Address(r, g).Some? && g.heads > 0 && g.sectors > 0
    requires Address(r, g).value + 1 < Capacity(g)
    requires Lba(r) ==> Address(r, g).value + 1 < 0x100_0000
    ensures var n := if Lba(r) then NextLba(r) else NextChs(r, g);
            Lba(n) == Lba(r) && n.count == r.count && Address(n, g) == Some(Address(r, g).value + 1)
  {
    if Lba(r) {
      hide Capacity;
    } else {
      NextSectorChs(r, g);
    }
  }

  /** On the registers: the sector, then the head, then the cylinder. */
  lemma NextRegisters(r: Registers, g: Geometry)
    requires 0 < g.heads <= 16 && 0 < g.sectors <= 255 && r.head % 16 < g.heads && 0 < r.sector <= g.sectors
    requires r.sector == g.sectors && r.head % 16 + 1 == g.heads ==> Cylinder(r) < 0xffff
    ensures var n := NextChs(r, g);
            && Lba(n) == Lba(r) && n.count == r.count
            && n.sector == (if r.sector < g.sectors then r.sector + 1 else 1)
            && n.head % 16 == (if r.sector < g.sectors then r.head % 16
                               else if r.head % 16 + 1 < g.heads then r.head % 16 + 1 else 0)
            && Cylinder(n)
               == (if r.sector == g.sectors && r.head % 16 + 1 == g.heads then Cylinder(r) + 1 else Cylinder(r))
  {
    hide WithHead, Lba;
    Small(r.sector, g.sectors);
    Small(r.head % 16 + 1, g.heads);
    var head := (r.head % 16 + 1) % g.heads;
    HeadSet(r.head, head);
    LbaIsInHead(r, NextChs(r, g));
  }

  lemma HeadSet(head: byte, low: nat)
    requires low < 16
    ensures WithHead(head, low) % 16 == low && WithHead(head, low) / 64 == head / 64
  {
    assert WithHead(head, low) == 16 * (head / 16) + low;
    assert WithHead(head, low) / 16 == head / 16;
  }

  lemma LbaIsInHead(r: Registers, n: Registers)
    ensures r.head / 64 == n.head / 64 ==> Lba(n) == Lba(r)
  {
  }

  lemma Small(a: nat, b: nat)
    requires 0 < a <= b
    ensures a % b == if a < b then a else 0
  {
  }

  lemma NextSectorChs(r: Registers, g: Geometry)
    requires Addressable(g) && Address(r, g).Some? && g.heads > 0 && g.sectors > 0 && !Lba(r)
    requires Address(r, g).value + 1 < Capacity(g)
    ensures var n := NextChs(r, g);
            !Lba(n) && n.count == r.count && Address(n, g) == Some(Address(r, g).value + 1)
  {
    hide NextChs, Lba, Cylinder;
    var c, h := Cylinder(r), r.head % 16;
    ProductOfNext(c * g.heads + h, g.sectors);
    ProductOfNext(c, g.heads);
    if r.sector == g.sectors && h + 1 == g.heads {
      assert Address(r, g).value + 1 == (c + 1) * g.heads * g.sectors;
      if c + 1 >= g.cylinders {
        assert false;
      }
    }
    NextRegisters(r, g);
  }

  /** As many sectors as the count says lie on the drive from the address on, and below 2^24 in LBA mode. */
  predicate InRange(r: Registers, g: Geometry) {
    && Addressable(g) && g.heads > 0 && g.sectors > 0
    && Address(r, g).Some?
    && Address(r, g).value + Left(r) <= Capacity(g)
    && (Lba(r) ==> Address(r, g).value + Left(r) <= 0x100_0000)
  }

  /** One seek of a run leads to the seek of the rest of it. */
  lemma SeekGoesOn(r: Registers, g: Geometry)
    requires InRange(r, g)
    ensures var n := Advanced(r, g);
            && n.count == Left(r) - 1
            && (n.count > 0 ==> InRange(n, g) && Address(n, g) == Some(Address(r, g).value + 1))
  {
    hide Address, Capacity, Lba, NextLba, NextChs;
    var c := r.(count := if r.count == 0 then 255 else r.count - 1);
    CountIsNoAddress(r, c.count, g);
    if c.count > 0 {
      NextSector(c, g);
    }
  }

  lemma CountIsNoAddress(r: Registers, count: byte, g: Geometry)
    ensures var c := r.(count := count); Address(c, g) == Address(r, g) && Lba(c) == Lba(r)
  {
  }

  // ----- The geometry that a host may ask for -----

  /** init_device_params with the head and count registers. */
  function Reshaped(g: Geometry, head: byte, count: byte): Geometry {
    if count == 0 then g
    else
      var size := if Capacity(g) > 16514064 then 16514064 else Capacity(g);
      var heads := head % 16 + 1;
      Monotone(1, heads, count);
      var cylinders := size / (heads * count);
      Geometry(if cylinders > 65535 then 65535 else cylinders, heads, count)
  }

  function ReshapedAll(g: Geometry, requests: seq<(byte, byte)>): Geometry
    decreases |requests|
  {
    if requests == [] then g else ReshapedAll(Reshaped(g, requests[0].0, requests[0].1), requests[1..])
  }

  lemma QuotientBound(size: nat, k: nat, c: nat)
    requires k > 0 && c <= size / k
    ensures c * k <= size
  {
    Monotone(c, size / k, k);
  }

  lemma ReshapingNeverGrows(g: Geometry, head: byte, count: byte)
    ensures var n := Reshaped(g, head, count);
            && Capacity(n) <= Capacity(g)
            && (Addressable(g) || count != 0 ==> Addressable(n))
            && (count != 0 ==> Capacity(n) <= 16514064 && n.heads > 0 && n.sectors > 0)
  {
    if count != 0 {
      var n := Reshaped(g, head, count);
      var size := if Capacity(g) > 16514064 then 16514064 else Capacity(g);
      var k := n.heads * n.sectors;
      Monotone(1, n.heads, n.sectors);
      QuotientBound(size, k, n.cylinders);
      assert n.cylinders * k == n.cylinders * n.heads * n.sectors by { ThreeFactors(n.cylinders, n.heads, n.sectors); }
    }
  }

  /** The new geometry has the heads and sectors that were asked for, and as many whole cylinders of them as make no
      more than the drive has, up to the most that its fields hold. */
  lemma ReshapedIsLargest(g: Geometry, head: byte, count: byte)
    requires count > 0
    ensures var n, size := Reshaped(g, head, count), if Capacity(g) > 16514064 then 16514064 else Capacity(g);
            var k := n.heads * n.sectors;
            && n.heads == head % 16 + 1 && n.sectors == count && n.cylinders <= 65535
            && n.cylinders * k <= size && (size < (n.cylinders + 1) * k || n.cylinders == 65535)
  {
    hide Reshaped, Capacity;
    var size, k := if Capacity(g) > 16514064 then 16514064 else Capacity(g), (head % 16 + 1) * count;
    Monotone(1, head % 16 + 1, count);
    ReshapedIs(g, head, count, size, k);
    LargestQuotient(size, k, 65535);
  }

  lemma ReshapedIs(g: Geometry, head: byte, count: byte, size: nat, k: nat)
    requires count > 0 && size == (if Capacity(g) > 16514064 then 16514064 else Capacity(g))
    requires k == (head % 16 + 1) * count && k > 0
    ensures Reshaped(g, head, count)
            == Geometry(if size / k > 65535 then 65535 else size / k, head % 16 + 1, count)
  {
    hide Capacity;
  }

  lemma LargestQuotient(size: nat, k: nat, most: nat)
    requires k > 0
    ensures var c := if size / k > most then most else size / k;
            c * k <= size && (size < (c + 1) * k || c == most)
  {
    var q := size / k;
    assert size == k * q + size % k && size % k < k;
    ProductOfNext(q, k);
    if q > most {
      QuotientBound(size, k, most);
    }
  }

  lemma ThreeFactors(a: nat, b: nat, c: nat)
    ensures a * (b * c) == a * b * c
  {
  }

  /** No sequence of INITIALIZE DEVICE PARAMETERS commands makes a drive larger, whatever its header said. */
  lemma {:induction false} CapacityNeverGrows(g: Geometry, requests: seq<(byte, byte)>)
    ensures Capacity(ReshapedAll(g, requests)) <= Capacity(g)
    ensures Addressable(g) ==> Addressable(ReshapedAll(g, requests))
    decreases |requests|
  {
    if requests != [] {
      ReshapingNeverGrows(g, requests[0].0, requests[0].1);
      CapacityNeverGrows(Reshaped(g, requests[0].0, requests[0].1), requests[1..]);
    }
  }

  // ----- The data port -----

  datatype Bus = Data8 | Data16 | Data16Swapped | Data16Data2

  /** How many bytes of the buffer one access takes. */
  function Width(bus: Bus): nat {
    if bus == Data8 || bus == Data16Data2 then 2 else 1
  }

  /** What goes through the two data registers at one access. Only a bus with a second register uses it. */
  datatype Item = Item(data: byte, data2: byte)

  /** What an access to the data port reads of a sector. */
  function ReadAt(bus: Bus, sector: seq<byte>, c: nat): Item
    requires |sector| == 512 && c < 512 && c % Width(bus) == 0
  {
    match bus
    case Data16Swapped => Item(sector[if c % 2 == 0 then c + 1 else c - 1], 0)
    case Data16Data2 => Item(sector[c], sector[c + 1])
    case _ => Item(sector[c], 0)
  }

  function ReadFrom(bus: Bus, sector: seq<byte>, c: nat): seq<Item>
    requires |sector| == 512 && c % Width(bus) == 0
    decreases 512 - c
  {
    if c >= 512 then [] else [ReadAt(bus, sector, c)] + ReadFrom(bus, sector, c + Width(bus))
  }

  datatype TransferPhase = Ready | PioOut | PioIn

  /** The sectors from one on. */
  ghost function Run(drive: Drive, n: nat, count: nat): (r: seq<seq<byte>>)
    requires drive.Valid() && n + count <= drive.total
    reads drive, drive.cache
    ensures |r| == count
  {
    Contents(drive)[n..n + count]
  }

  lemma RunStarts(drive: Drive, n: dword, count: nat)
    requires drive.Valid() && 0 < count && n + count <= drive.total
    ensures Run(drive, n, count) == [drive.Sector(n)] + Run(drive, n + 1, count - 1)
  {
  }

  lemma RunHasSectors(drive: Drive, n: nat, count: nat)
    requires drive.Valid() && n + count <= drive.total
    ensures forall i :: 0 <= i < count ==> |Run(drive, n, count)[i]| == 512
  {
    forall i | 0 <= i < count ensures |Run(drive, n, count)[i]| == 512 {
      var k: dword := n + i;
      assert Run(drive, n, count)[i] == drive.Sector(k);
    }
  }

  function ReadSectors(bus: Bus, sectors: seq<seq<byte>>): seq<Item>
    requires forall i :: 0 <= i < |sectors| ==> |sectors[i]| == 512
  {
    if sectors == [] then [] else ReadFrom(bus, sectors[0], 0) + ReadSectors(bus, sectors[1..])
  }

  lemma FirstSectorRead(bus: Bus, drive: Drive, n: nat, count: nat)
    requires drive.Valid() && 0 < count && n + count <= drive.total
    ensures ReadSectors(bus, Run(drive, n, count)) ==
            ReadFrom(bus, drive.Sector(n), 0) + ReadSectors(bus, Run(drive, n + 1, count - 1))
  {
    hide ReadFrom, Run;
    RunStarts(drive, n, count);
    assert Run(drive, n, count)[1..] == Run(drive, n + 1, count - 1);
  }

  lemma NothingTimes(g: Geometry)
    ensures g.heads == 0 || g.sectors == 0 ==> Capacity(g) == 0
  {
  }

  lemma Somewhere(r: Registers, g: Geometry)
    requires Address(r, g).Some?
    ensures g.heads > 0 && g.sectors > 0 && Address(r, g).value < Capacity(g)
  {
    if Lba(r) {
      NothingTimes(g);
    } else {
      AddressBound(Cylinder(r), r.head % 16, r.sector - 1, g);
    }
  }

  // ----- Writing -----

  function Accesses(bus: Bus): nat {
    512 / Width(bus)
  }

  /** The accesses from one on fill a sector buffer: an 8-bit bus leaves every other byte as it was. */
  predicate Filled(bus: Bus, sector: seq<byte>, was: seq<byte>, items: seq<Item>, from: nat, count: nat)
    requires |sector| == |was| == 512 && count <= Accesses(bus) && from + count <= |items|
  {
    match bus
    case Data8 =>
      forall p :: 0 <= p < 512 ==>
        sector[p] == if p % 2 == 0 && p / 2 < count then items[from + p / 2].data else was[p]
    case Data16 => forall p :: 0 <= p < 512 ==> sector[p] == if p < count then items[from + p].data else was[p]
    case Data16Swapped =>
      forall p :: 0 <= p < 512 ==>
        sector[p] == if Swapped(p) < count then items[from + Swapped(p)].data else was[p]
    case Data16Data2 =>
      forall p :: 0 <= p < 512 ==>
        sector[p] == if p / 2 >= count then was[p]
                     else if p % 2 == 0 then items[from + p / 2].data else items[from + p / 2].data2
  }

  function Swapped(p: nat): nat {
    if p % 2 == 0 then p + 1 else p - 1
  }

  /** One access. */
  function Put(bus: Bus, sector: seq<byte>, c: nat, item: Item): (r: seq<byte>)
    requires |sector| == 512 && c < 512 && c % Width(bus) == 0
    ensures |r| == 512
  {
    match bus
    case Data8 => sector[c := item.data]
    case Data16 => sector[c := item.data]
    case Data16Swapped => sector[Swapped(c) := item.data]
    case Data16Data2 => sector[c := item.data][c + 1 := item.data2]
  }

  lemma PutFills8(bus: Bus, sector: seq<byte>, was: seq<byte>, items: seq<Item>, from: nat, count: nat)
    requires bus == Data8
    requires |sector| == |was| == 512 && count < Accesses(bus) && from + count < |items|
    requires Filled(bus, sector, was, items, from, count)
    ensures Filled(bus, Put(bus, sector, count * Width(bus), items[from + count]), was, items, from, count + 1)
  {
    var after := Put(bus, sector, count * Width(bus), items[from + count]);
    forall p | 0 <= p < 512
      ensures after[p] == if p % 2 == 0 && p / 2 < count + 1 then items[from + p / 2].data else was[p]
    {
      if p == 2 * count {
        assert p / 2 == count;
      } else {
        assert after[p] == sector[p];
      }
    }
  }

  lemma PutFillsSwapped(bus: Bus, sector: seq<byte>, was: seq<byte>, items: seq<Item>, from: nat, count: nat)
    requires bus == Data16Swapped
    requires |sector| == |was| == 512 && count < Accesses(bus) && from + count < |items|
    requires Filled(bus, sector, was, items, from, count)
    ensures Filled(bus, Put(bus, sector, count * Width(bus), items[from + count]), was, items, from, count + 1)
  {
    var after := Put(bus, sector, count * Width(bus), items[from + count]);
    forall p | 0 <= p < 512
      ensures after[p] == if Swapped(p) < count + 1 then items[from + Swapped(p)].data else was[p]
    {
      if Swapped(p) != count {
        assert after[p] == sector[p];
      }
    }
  }

  lemma PutFillsBoth(bus: Bus, sector: seq<byte>, was: seq<byte>, items: seq<Item>, from: nat, count: nat)
    requires bus == Data16Data2
    requires |sector| == |was| == 512 && count < Accesses(bus) && from + count < |items|
    requires Filled(bus, sector, was, items, from, count)
    ensures Filled(bus, Put(bus, sector, count * Width(bus), items[from + count]), was, items, from, count + 1)
  {
    var after := Put(bus, sector, count * Width(bus), items[from + count]);
    forall p | 0 <= p < 512
      ensures after[p] == if p / 2 >= count + 1 then was[p]
                          else if p % 2 == 0 then items[from + p / 2].data else items[from + p / 2].data2
    {
      if p / 2 != count {
        assert after[p] == sector[p];
      }
    }
  }

  lemma PutFills(bus: Bus, sector: seq<byte>, was: seq<byte>, items: seq<Item>, from: nat, count: nat)
    requires |sector| == |was| == 512 && count < Accesses(bus) && from + count < |items|
    requires Filled(bus, sector, was, items, from, count)
    ensures Filled(bus, Put(bus, sector, count * Width(bus), items[from + count]), was, items, from, count + 1)
  {
    if bus == Data16 {
    } else {
      hide Filled, Put;
      if bus == Data8 {
        PutFills8(bus, sector, was, items, from, count);
      } else if bus == Data16Swapped {
        PutFillsSwapped(bus, sector, was, items, from, count);
      } else {
        PutFillsBoth(bus, sector, was, items, from, count);
      }
    }
  }

  lemma FilledOver(bus: Bus, sector: seq<byte>, before: seq<byte>, was: seq<byte>, items: seq<Item>, from: nat,
      from2: nat)
    requires |sector| == |before| == |was| == 512 && from + Accesses(bus) <= |items| && from2 + Accesses(bus) <= |items|
    requires Filled(bus, before, was, items, from, Accesses(bus))
    requires Filled(bus, sector, before, items, from2, Accesses(bus))
    ensures Filled(bus, sector, was, items, from2, Accesses(bus))
  {
  }

  /** How many accesses some sectors take. */
  function ItemsFor(bus: Bus, sectors: nat): nat {
    if Width(bus) == 2 then 256 * sectors else 512 * sectors
  }

  /** Every block is filled by its share of the accesses. */
  predicate Shares(bus: Bus, blocks: seq<seq<byte>>, was: seq<byte>, items: seq<Item>)
    requires |was| == 512
  {
    forall k :: 0 <= k < |blocks| ==>
      |blocks[k]| == 512 && ItemsFor(bus, k) + Accesses(bus) <= |items|
      && Filled(bus, blocks[k], was, items, ItemsFor(bus, k), Accesses(bus))
  }

  /** The sectors from an address on are what comes back of some blocks; the others are as before. */
  predicate Replaced(after: seq<seq<byte>>, before: seq<seq<byte>>, address: nat, blocks: seq<seq<byte>>, size: nat)
    requires size == 256 || size == 512
  {
    && |after| == |before| && address + |blocks| <= |after|
    && (forall k :: 0 <= k < |blocks| ==> |blocks[k]| == 512)
    && (forall n :: 0 <= n < |after| ==>
          after[n] == if address <= n < address + |blocks| then Seen(blocks[n - address], size) else before[n])
  }

  lemma NothingReplaced(sectors: seq<seq<byte>>, address: nat, size: nat)
    requires (size == 256 || size == 512) && address <= |sectors|
    ensures Replaced(sectors, sectors, address, [], size)
  {
  }

  lemma OneMoreReplaced(after: seq<seq<byte>>, before: seq<seq<byte>>, address: nat, blocks: seq<seq<byte>>,
      size: nat, block: seq<byte>)
    requires (size == 256 || size == 512) && |block| == 512
    requires Replaced(after, before, address, blocks, size) && address + |blocks| < |after|
    ensures Replaced(after[address + |blocks| := Seen(block, size)], before, address, blocks + [block], size)
  {
    hide Seen;
  }

  lemma NoShares(bus: Bus, was: seq<byte>, items: seq<Item>)
    requires |was| == 512
    ensures Shares(bus, [], was, items)
  {
  }

  /** The next block holds its share, and what the bus does not touch of it is as it was at first. */
  lemma OneMoreShare(bus: Bus, blocks: seq<seq<byte>>, before: seq<byte>, block: seq<byte>, was: seq<byte>,
      items: seq<Item>, left: nat)
    requires |was| == |before| == |block| == 512 && Shares(bus, blocks, was, items)
    requires |blocks| < left && |items| == ItemsFor(bus, left)
    requires if blocks == [] then before == was else before == blocks[|blocks| - 1]
    requires Filled(bus, block, before, items, ItemsFor(bus, |blocks|), Accesses(bus))
    ensures Shares(bus, blocks + [block], was, items)
  {
    hide Filled;
    var i := |blocks|;
    if i > 0 {
      FilledOver(bus, block, before, was, items, ItemsFor(bus, i - 1), ItemsFor(bus, i));
    }
  }

  lemma FilledNone(bus: Bus, sector: seq<byte>, items: seq<Item>, from: nat)
    requires |sector| == 512 && from <= |items|
    ensures Filled(bus, sector, sector, items, from, 0)
  {
  }

  lemma AccessCount(bus: Bus, i: nat)
    requires i < Accesses(bus)
    ensures i * Width(bus) < 512 && (i * Width(bus)) % Width(bus) == 0
    ensures i * Width(bus) + Width(bus) == (i + 1) * Width(bus)
    ensures i + 1 < Accesses(bus) <==> (i + 1) * Width(bus) < 512
  {
  }

  // ----- What was written is read -----

  /** What comes back of access k: all of it, except that an image of 256 bytes a sector keeps every other byte. */
  function Kept(bus: Bus, size: nat, k: nat, item: Item): Item {
    match bus
    case Data8 => Item(item.data, 0)
    case Data16 => Item(if size == 512 || k % 2 == 0 then item.data else 0xff, 0)
    case Data16Swapped => Item(if size == 512 || k % 2 == 1 then item.data else 0xff, 0)
    case Data16Data2 => Item(item.data, if size == 512 then item.data2 else 0xff)
  }

  /** What comes back of the accesses from one on. */
  predicate KeptFrom(bus: Bus, size: nat, items: seq<Item>, from: nat, read: seq<Item>) {
    && from + |read| <= |items|
    && forall k :: 0 <= k < |read| ==> read[k] == Kept(bus, size, from + k, items[from + k])
  }

  lemma {:induction false} ReadFromAt(bus: Bus, sector: seq<byte>, c: nat, k: nat)
    requires |sector| == 512 && c % Width(bus) == 0 && c + k * Width(bus) < 512
    ensures k < |ReadFrom(bus, sector, c)| && (c + k * Width(bus)) % Width(bus) == 0
    ensures ReadFrom(bus, sector, c)[k] == ReadAt(bus, sector, c + k * Width(bus))
    decreases k
  {
    hide ReadAt;
    if k > 0 {
      assert k * Width(bus) == (k - 1) * Width(bus) + Width(bus);
      ReadFromAt(bus, sector, c + Width(bus), k - 1);
    }
  }

  lemma {:induction false} ReadFromLength(bus: Bus, sector: seq<byte>, c: nat)
    requires |sector| == 512 && c <= 512 && c % Width(bus) == 0
    ensures |ReadFrom(bus, sector, c)| * Width(bus) == 512 - c
    decreases 512 - c
  {
    hide ReadAt;
    if c < 512 {
      ReadFromLength(bus, sector, c + Width(bus));
    }
  }

  lemma SameAccesses(bus: Bus, n: nat)
    requires n * Width(bus) == 512
    ensures n == Accesses(bus) && forall k :: 0 <= k < n ==> k * Width(bus) < 512
  {
  }

  /** The accesses to a sector that was filled by accesses. */
  lemma SectorReadsBack(bus: Bus, size: nat, sector: seq<byte>, was: seq<byte>, items: seq<Item>, from: nat)
    requires (size == 256 || size == 512) && |sector| == |was| == 512 && from % 2 == 0
    requires from + Accesses(bus) <= |items| && Filled(bus, sector, was, items, from, Accesses(bus))
    ensures |ReadFrom(bus, Seen(sector, size), 0)| == Accesses(bus)
    ensures KeptFrom(bus, size, items, from, ReadFrom(bus, Seen(sector, size), 0))
  {
    hide ReadFrom;
    var seen := Seen(sector, size);
    ReadFromLength(bus, seen, 0);
    SameAccesses(bus, |ReadFrom(bus, seen, 0)|);
    forall k | 0 <= k < Accesses(bus)
      ensures ReadFrom(bus, seen, 0)[k] == Kept(bus, size, from + k, items[from + k])
    {
      ReadFromAt(bus, seen, 0, k);
      AccessReadsBack(bus, size, sector, was, items, from, k);
    }
  }

  /** What stands at a place of a sector that was filled. */
  lemma FilledAt(bus: Bus, sector: seq<byte>, was: seq<byte>, items: seq<Item>, from: nat, p: nat)
    requires |sector| == |was| == 512 && p < 512
    requires from + Accesses(bus) <= |items| && Filled(bus, sector, was, items, from, Accesses(bus))
    ensures bus == Data8 && p % 2 == 0 ==> p / 2 < Accesses(bus) && sector[p] == items[from + p / 2].data
    ensures bus == Data16 ==> p < Accesses(bus) && sector[p] == items[from + p].data
    ensures bus == Data16Swapped ==> Swapped(p) < Accesses(bus) && sector[p] == items[from + Swapped(p)].data
    ensures bus == Data16Data2 ==>
              && p / 2 < Accesses(bus)
              && sector[p] == if p % 2 == 0 then items[from + p / 2].data else items[from + p / 2].data2
  {
  }

  lemma PlaceOfAccess(bus: Bus, k: nat)
    ensures k * Width(bus) == if bus == Data8 || bus == Data16Data2 then 2 * k else k
    ensures (2 * k) % 2 == 0 && 2 * k / 2 == k && (2 * k + 1) % 2 == 1 && (2 * k + 1) / 2 == k
    ensures Swapped(Swapped(k)) == k && Swapped(k) % 2 != k % 2 && (k < 512 ==> Swapped(k) < 512)
  {
  }

  lemma SeenAt(sector: seq<byte>, size: nat, p: nat)
    requires |sector| == 512 && (size == 256 || size == 512) && p < 512
    ensures Seen(sector, size)[p] == if size == 512 || p % 2 == 0 then sector[p] else 0xff
  {
  }

  lemma AccessReadsBack(bus: Bus, size: nat, sector: seq<byte>, was: seq<byte>, items: seq<Item>, from: nat, k: nat)
    requires (size == 256 || size == 512) && |sector| == |was| == 512 && from % 2 == 0
    requires from + Accesses(bus) <= |items| && Filled(bus, sector, was, items, from, Accesses(bus))
    requires k < Accesses(bus) && k * Width(bus) < 512 && (k * Width(bus)) % Width(bus) == 0
    ensures ReadAt(bus, Seen(sector, size), k * Width(bus)) == Kept(bus, size, from + k, items[from + k])
  {
    hide Filled, Accesses, Width, Swapped, Seen, Kept, ReadAt;
    var p, seen := k * Width(bus), Seen(sector, size);
    PlaceOfAccess(bus, k);
    SwappedIs(k);
    WhatAnAccessReads(bus, seen, p);
    WhatIsKept(bus, size, from + k, items[from + k]);
    SeenAt(sector, size, p);
    if bus == Data16Swapped {
      SeenAt(sector, size, Swapped(k));
      FilledAt(bus, sector, was, items, from, Swapped(k));
    } else {
      FilledAt(bus, sector, was, items, from, p);
      if bus == Data16Data2 {
        SeenAt(sector, size, p + 1);
        FilledAt(bus, sector, was, items, from, p + 1);
      }
    }
  }

  lemma WhatAnAccessReads(bus: Bus, sector: seq<byte>, c: nat)
    requires |sector| == 512 && c < 512 && c % Width(bus) == 0
    ensures Swapped(c) < 512 && (bus == Data16Data2 ==> c + 1 < 512)
    ensures bus == Data8 || bus == Data16 ==> ReadAt(bus, sector, c) == Item(sector[c], 0)
    ensures bus == Data16Swapped ==> ReadAt(bus, sector, c) == Item(sector[Swapped(c)], 0)
    ensures bus == Data16Data2 ==> ReadAt(bus, sector, c) == Item(sector[c], sector[c + 1])
  {
  }

  lemma WhatIsKept(bus: Bus, size: nat, k: nat, item: Item)
    ensures bus == Data8 ==> Kept(bus, size, k, item) == Item(item.data, 0)
    ensures bus == Data16 ==> Kept(bus, size, k, item) == Item(if size == 512 || k % 2 == 0 then item.data else 0xff, 0)
    ensures bus == Data16Swapped ==>
              Kept(bus, size, k, item) == Item(if size == 512 || k % 2 == 1 then item.data else 0xff, 0)
    ensures bus == Data16Data2 ==>
              Kept(bus, size, k, item) == Item(item.data, if size == 512 then item.data2 else 0xff)
  {
  }

  lemma SwappedIs(p: nat)
    ensures Swapped(p) == if p % 2 == 0 then p + 1 else p - 1
  {
  }

  function AllSeen(blocks: seq<seq<byte>>, size: nat): (r: seq<seq<byte>>)
    requires (size == 256 || size == 512) && forall i :: 0 <= i < |blocks| ==> |blocks[i]| == 512
    ensures |r| == |blocks| && forall i :: 0 <= i < |r| ==> |r[i]| == 512 && r[i] == Seen(blocks[i], size)
  {
    seq(|blocks|, i requires 0 <= i < |blocks| => Seen(blocks[i], size))
  }

  lemma ReplacedRun(after: seq<seq<byte>>, before: seq<seq<byte>>, address: nat, blocks: seq<seq<byte>>, size: nat)
    requires (size == 256 || size == 512) && Replaced(after, before, address, blocks, size)
    ensures address + |blocks| <= |after| && forall i :: 0 <= i < |blocks| ==> |blocks[i]| == 512
    ensures after[address..address + |blocks|] == AllSeen(blocks, size)
  {
    hide Seen;
  }

  lemma RunIs(drive: Drive, n: nat, count: nat)
    requires drive.Valid() && n + count <= drive.total
    ensures |Contents(drive)| == drive.total && Run(drive, n, count) == Contents(drive)[n..n + count]
  {
  }

  lemma {:induction false} SectorsReadBack(bus: Bus, size: nat, blocks: seq<seq<byte>>, was: seq<byte>,
      items: seq<Item>, j: nat)
    requires (size == 256 || size == 512) && |was| == 512 && j <= |blocks|
    requires Shares(bus, blocks, was, items) && ItemsFor(bus, |blocks|) <= |items|
    ensures forall i :: 0 <= i < |blocks| ==> |blocks[i]| == 512
    ensures KeptFrom(bus, size, items, ItemsFor(bus, j), ReadSectors(bus, AllSeen(blocks, size)[j..]))
    ensures ItemsFor(bus, j) + |ReadSectors(bus, AllSeen(blocks, size)[j..])| == ItemsFor(bus, |blocks|)
    decreases |blocks| - j
  {
    hide ReadFrom, ReadSectors, KeptFrom, Shares, Filled, ItemsFor, Seen;
    ShareOf(bus, blocks, was, items, j);
    var all := AllSeen(blocks, size);
    if j == |blocks| {
      assert all[j..] == [];
      NothingRead(bus, size, items, ItemsFor(bus, j));
    } else {
      SectorReadsBack(bus, size, blocks[j], was, items, ItemsFor(bus, j));
      SectorsReadBack(bus, size, blocks, was, items, j + 1);
      SectorThenRest(bus, size, items, ItemsFor(bus, j), ReadFrom(bus, all[j], 0), ReadSectors(bus, all[j + 1..]));
      ReadSectorsStep(bus, all, j);
    }
  }

  lemma NothingRead(bus: Bus, size: nat, items: seq<Item>, from: nat)
    requires from <= |items|
    ensures ReadSectors(bus, []) == [] && KeptFrom(bus, size, items, from, [])
  {
  }

  lemma SectorThenRest(bus: Bus, size: nat, items: seq<Item>, from: nat, first: seq<Item>, rest: seq<Item>)
    requires KeptFrom(bus, size, items, from, first) && KeptFrom(bus, size, items, from + |first|, rest)
    ensures KeptFrom(bus, size, items, from, first + rest)
  {
    hide Kept;
    forall k | 0 <= k < |first + rest|
      ensures (first + rest)[k] == Kept(bus, size, from + k, items[from + k])
    {
      if k >= |first| {
        assert rest[k - |first|] == Kept(bus, size, from + |first| + (k - |first|), items[from + k]);
      }
    }
  }

  lemma ReadSectorsStep(bus: Bus, all: seq<seq<byte>>, j: nat)
    requires j < |all| && forall i :: 0 <= i < |all| ==> |all[i]| == 512
    ensures ReadSectors(bus, all[j..]) == ReadFrom(bus, all[j], 0) + ReadSectors(bus, all[j + 1..])
  {
    hide ReadFrom;
    assert all[j..][1..] == all[j + 1..];
  }

  lemma ShareOf(bus: Bus, blocks: seq<seq<byte>>, was: seq<byte>, items: seq<Item>, j: nat)
    requires |was| == 512 && Shares(bus, blocks, was, items) && j <= |blocks|
    requires ItemsFor(bus, |blocks|) <= |items|
    ensures forall i :: 0 <= i < |blocks| ==> |blocks[i]| == 512
    ensures ItemsFor(bus, j) % 2 == 0 && ItemsFor(bus, j) <= |items|
    ensures j < |blocks| ==> ItemsFor(bus, j + 1) == ItemsFor(bus, j) + Accesses(bus) <= |items|
    ensures j < |blocks| ==> Filled(bus, blocks[j], was, items, ItemsFor(bus, j), Accesses(bus))
  {
    hide Filled, ItemsFor, Accesses;
    ItemsCount(bus, j, |blocks|);
    if j < |blocks| {
      ItemsCount(bus, j + 1, |blocks|);
    }
  }

  lemma ItemsCount(bus: Bus, i: nat, n: nat)
    requires i <= n
    ensures ItemsFor(bus, i) % 2 == 0 && ItemsFor(bus, i) <= ItemsFor(bus, n)
    ensures ItemsFor(bus, i + 1) == ItemsFor(bus, i) + Accesses(bus)
  {
    hide Accesses, Width;
    AccessesAre(bus);
    var half := if Width(bus) == 2 then 128 * i else 256 * i;
    assert ItemsFor(bus, i) == 2 * half;
  }

  lemma AccessesAre(bus: Bus)
    ensures Width(bus) == 2 ==> Accesses(bus) == 256
    ensures Width(bus) != 2 ==> Accesses(bus) == 512
  {
  }

  class Channel {
    const bus: Bus
    const drive: Drive
    var geometry: Geometry
    var registers: Registers
    var data2: byte
    var phase: TransferPhase
    var datacounter: nat
    const buffer: array<byte>
    var sectorNumber: dword
    var error: bool

    constructor (bus: Bus, drive: Drive, geometry: Geometry)
      requires drive.Valid() && Addressable(geometry) && Capacity(geometry) <= drive.total
      ensures Valid() && phase == Ready
      ensures this.bus == bus && this.drive == drive && this.geometry == geometry
    {
      this.bus, this.drive, this.geometry := bus, drive, geometry;
      registers := Registers(1, 1, 0, 0, 0);
      data2, phase, datacounter, sectorNumber, error := 0, Ready, 0, 0, false;
      buffer := new byte[512];
    }

    ghost predicate OnDrive()
      reads this, drive, drive.cache
    {
      && drive.Valid() && buffer.Length == 512
      && Addressable(geometry) && Capacity(geometry) <= drive.total <= DWORD_MODULUS
    }

    /** A transfer under way has the rest of its sectors before it. */
    ghost predicate Valid()
      reads this, drive, drive.cache
    {
      && OnDrive()
      && (phase != Ready ==>
            && datacounter < 512 && datacounter % Width(bus) == 0
            && (registers.count > 0 ==> InRange(registers, geometry)))
      && (phase == PioOut ==> sectorNumber < drive.total)
    }

    /** What is still to be read from the data port: the rest of the buffer, and then whole sectors. */
    ghost function ToRead(): seq<Item>
      requires Valid()
      reads this, drive, drive.cache, buffer
    {
      if phase != PioIn then []
      else ReadFrom(bus, buffer[..], datacounter) + ReadSectors(bus, SectorsLeft())
    }

    ghost function SectorsLeft(): (r: seq<seq<byte>>)
      requires OnDrive() && (registers.count > 0 ==> InRange(registers, geometry))
      reads this, drive, drive.cache
      ensures forall i :: 0 <= i < |r| ==> |r[i]| == 512
    {
      if registers.count == 0 then [] else Run(drive, Address(registers, geometry).value, registers.count)
    }

    /** INITIALIZE DEVICE PARAMETERS. */
    method InitDeviceParams()
      requires Valid()
      modifies this
      ensures Valid() && geometry == Reshaped(old(geometry), old(registers).head, old(registers).count)
      ensures if old(registers).count != 0 then phase == Ready && !error else phase == old(phase) && error
    {
      ReshapingNeverGrows(geometry, registers.head, registers.count);
      if registers.count == 0 {
        error := true;
        return;
      }
      var size := geometry.heads * geometry.sectors * geometry.cylinders;
      assert size == Capacity(geometry) by { ThreeFactors(geometry.cylinders, geometry.heads, geometry.sectors); }
      if size > 16514064 {
        size := 16514064;
      }
      var heads, sectors := registers.head % 16 + 1, registers.count;
      assert heads * sectors > 0 by { Monotone(1, heads, sectors); }
      var cylinders := size / (heads * sectors);
      if cylinders > 65535 {
        cylinders := 65535;
      }
      geometry := Geometry(cylinders, heads, sectors);
      phase := Ready;
      error := false;
    }

    /** Find the addressed sector, and set the registers to the next one unless it is the last. */
    method Seek() returns (found: bool)
      requires OnDrive()
      modifies this`registers, this`sectorNumber, this`error
      ensures found == Address(old(registers), geometry).Some?
      ensures found ==> sectorNumber == Address(old(registers), geometry).value < Capacity(geometry)
      ensures found ==> geometry.heads > 0 && geometry.sectors > 0 && registers == Advanced(old(registers), geometry)
      ensures found ==> error == old(error)
      ensures !found ==> registers == old(registers) && error
    {
      hide Capacity, Cylinder, NextLba, NextChs;
      var a := Address(registers, geometry);
      if a.None? {
        error := true;
        return false;
      }
      Somewhere(registers, geometry);
      sectorNumber := a.value;
      registers := registers.(count := if registers.count == 0 then 255 else registers.count - 1);
      if registers.count == 0 {
        return true;
      }
      registers := if Lba(registers) then NextLba(registers) else NextChs(registers, geometry);
      return true;
    }

    /** Fetch the addressed sector into the buffer. */
    method ReadSector()
      requires OnDrive() && InRange(registers, geometry)
      modifies this, buffer
      ensures Valid() && phase == PioIn && datacounter == 0 && geometry == old(geometry)
      ensures error == old(error) && data2 == old(data2) && registers.count == Left(old(registers)) - 1
      ensures ToRead() == ReadSectors(bus, Run(drive, Address(old(registers), geometry).value, Left(old(registers))))
    {
      hide Address, Capacity, ReadFrom, ReadSectors, Run, Advanced;
      ghost var was := registers;
      SeekGoesOn(registers, geometry);
      InRangeFits(registers, geometry);
      var found := Seek();
      drive.ReadSector(sectorNumber, buffer, 0);
      assert buffer[..] == buffer[0..0 + 512] == drive.Sector(sectorNumber);
      phase, datacounter := PioIn, 0;
      FirstSectorRead(bus, drive, Address(was, geometry).value, Left(was));
      if registers.count == 0 {
        NoneLeft(drive, Address(was, geometry).value + 1);
      }
    }

    /** READ SECTOR. All the sectors that the count says come through the data port, from the addressed one on. */
    method ExecuteRead()
      requires Valid() && (Address(registers, geometry).Some? ==> InRange(registers, geometry))
      modifies this, buffer
      ensures Valid() && geometry == old(geometry)
      ensures Address(old(registers), geometry).None? ==> error && phase == Ready
      ensures Address(old(registers), geometry).Some? ==>
              && !error && phase == PioIn
              && ToRead() == ReadSectors(bus, Run(drive, Address(old(registers), geometry).value, Left(old(registers))))
    {
      hide Address, Capacity, ReadFrom, ReadSectors, Run, Advanced;
      phase, error := Ready, false;
      if Address(registers, geometry).None? {
        var found := Seek();
      } else {
        InRangeFits(registers, geometry);
        ReadSector();
      }
    }

    method TakeData() returns (data: byte)
      requires buffer.Length == 512 && datacounter < 512 && datacounter % Width(bus) == 0
      modifies this`datacounter, this`data2
      ensures ReadAt(bus, buffer[..], old(datacounter)) == Item(data, if bus == Data16Data2 then data2 else 0)
      ensures datacounter == old(datacounter) + Width(bus)
    {
      match bus {
        case Data8 =>
          data := buffer[datacounter];
          datacounter := datacounter + 2;
        case Data16 =>
          data := buffer[datacounter];
          datacounter := datacounter + 1;
        case Data16Swapped =>
          data := buffer[if datacounter % 2 == 0 then datacounter + 1 else datacounter - 1];
          datacounter := datacounter + 1;
        case Data16Data2 =>
          data := buffer[datacounter];
          data2 := buffer[datacounter + 1];
          datacounter := datacounter + 2;
      }
    }

    /** One access to the data port. */
    method ReadData() returns (data: byte)
      requires Valid()
      modifies this, buffer
      ensures Valid() && geometry == old(geometry) && error == old(error)
      ensures old(phase) != PioIn ==> data == 0xff && phase == old(phase)
      ensures old(phase) == PioIn ==> phase != PioOut
      ensures old(phase) == PioIn ==>
                old(ToRead()) == [Item(data, if bus == Data16Data2 then data2 else 0)] + ToRead()
    {
      hide Address, Capacity, ReadFrom, ReadAt, ReadSectors, Run, Advanced, InRange;
      if phase != PioIn {
        return 0xff;
      }
      ghost var sector := buffer[..];
      ghost var left := SectorsLeft();
      ReadFromStep(bus, sector, datacounter);
      Assoc([ReadAt(bus, sector, datacounter)], ReadFrom(bus, sector, datacounter + Width(bus)),
            ReadSectors(bus, left));
      data := TakeData();
      if datacounter >= 512 {
        if registers.count > 0 {
          InRangeFits(registers, geometry);
          ReadSector();
        } else {
          phase := Ready;
        }
      }
    }

    /** Set up for the addressed sector to be written. */
    method WriteSector()
      requires OnDrive() && InRange(registers, geometry)
      modifies this
      ensures Valid() && phase == PioOut && datacounter == 0 && geometry == old(geometry)
      ensures error == old(error) && data2 == old(data2) && registers.count == Left(old(registers)) - 1
      ensures sectorNumber == Address(old(registers), geometry).value
      ensures registers.count > 0 ==> Address(registers, geometry) == Some(sectorNumber + 1)
    {
      hide Address, Capacity, Advanced;
      SeekGoesOn(registers, geometry);
      InRangeFits(registers, geometry);
      var found := Seek();
      phase, datacounter := PioOut, 0;
    }

    /** WRITE SECTOR. */
    method ExecuteWrite()
      requires Valid() && (Address(registers, geometry).Some? ==> InRange(registers, geometry))
      modifies this
      ensures Valid() && geometry == old(geometry)
      ensures Address(old(registers), geometry).None? ==> error && phase == Ready
      ensures Address(old(registers), geometry).Some? ==>
              && !error && phase == PioOut && datacounter == 0
              && sectorNumber == Address(old(registers), geometry).value && registers.count == Left(old(registers)) - 1
              && (registers.count > 0 ==> Address(registers, geometry) == Some(sectorNumber + 1))
    {
      hide Address, Capacity, Advanced;
      phase, error := Ready, false;
      if Address(registers, geometry).None? {
        var found := Seek();
      } else {
        InRangeFits(registers, geometry);
        WriteSector();
      }
    }

    method StoreData(data: byte)
      requires buffer.Length == 512 && datacounter < 512 && datacounter % Width(bus) == 0
      modifies this`datacounter, buffer
      ensures datacounter == old(datacounter) + Width(bus)
      ensures buffer[..] == Put(bus, old(buffer[..]), old(datacounter), Item(data, data2))
    {
      match bus {
        case Data8 =>
          buffer[datacounter] := data;
          datacounter := datacounter + 2;
        case Data16 =>
          buffer[datacounter] := data;
          datacounter := datacounter + 1;
        case Data16Swapped =>
          buffer[Swapped(datacounter)] := data;
          datacounter := datacounter + 1;
        case Data16Data2 =>
          buffer[datacounter] := data;
          buffer[datacounter + 1] := data2;
          datacounter := datacounter + 2;
      }
    }

    /** One access to the data port. The last of a sector writes it, and goes on to the next if there is one. */
    method WriteData(data: byte)
      requires Valid()
      modifies this, buffer, drive.cache
      ensures Valid() && geometry == old(geometry) && error == old(error) && data2 == old(data2)
      ensures old(phase) != PioOut ==> phase == old(phase) && Contents(drive) == old(Contents(drive))
      ensures old(phase) == PioOut ==> buffer[..] == Put(bus, old(buffer[..]), old(datacounter), Item(data, data2))
      ensures old(phase) == PioOut && old(datacounter) + Width(bus) < 512 ==>
                && phase == PioOut && datacounter == old(datacounter) + Width(bus)
                && registers == old(registers) && sectorNumber == old(sectorNumber)
                && Contents(drive) == old(Contents(drive))
      ensures old(phase) == PioOut && old(datacounter) + Width(bus) >= 512 ==>
                Contents(drive) == old(Contents(drive))[old(sectorNumber) := Seen(buffer[..], drive.size)]
      ensures old(phase) == PioOut && old(datacounter) + Width(bus) >= 512 && old(registers).count > 0 ==>
                && phase == PioOut && datacounter == 0
                && sectorNumber == Address(old(registers), geometry).value
                && registers.count == old(registers).count - 1
                && (registers.count > 0 ==> Address(registers, geometry) == Some(sectorNumber + 1))
      ensures old(phase) == PioOut && old(datacounter) + Width(bus) >= 512 && old(registers).count == 0 ==>
                phase == Ready
    {
      hide Address, Capacity, Advanced, InRange, Put, Seen;
      if phase != PioOut {
        return;
      }
      StoreData(data);
      if datacounter >= 512 {
        FinishSector();
        if registers.count > 0 {
          InRangeFits(registers, geometry);
          WriteSector();
        } else {
          phase := Ready;
        }
      }
    }

    method FinishSector()
      requires drive.Valid() && buffer.Length == 512 && sectorNumber < drive.total
      modifies drive.cache
      ensures drive.Valid() && Contents(drive) == old(Contents(drive))[sectorNumber := Seen(buffer[..], drive.size)]
    {
      hide Seen;
      ghost var was := Contents(drive);
      drive.WriteSector(sectorNumber, buffer[..]);
      forall n: dword | n < drive.total
        ensures Contents(drive)[n] == was[sectorNumber := Seen(buffer[..], drive.size)][n]
      {
        assert was[n] == old(drive.Sector(n));
      }
    }

    // ----- Whole transfers -----

    /** One sector of a WRITE SECTOR command: as many accesses as the bus takes for one. */
    method WriteOne(items: seq<Item>, from: nat)
      requires Valid() && phase == PioOut && datacounter == 0 && from + Accesses(bus) <= |items|
      modifies this, buffer, drive.cache
      ensures Valid() && geometry == old(geometry) && error == old(error)
      ensures Filled(bus, buffer[..], old(buffer[..]), items, from, Accesses(bus))
      ensures Contents(drive) == old(Contents(drive))[old(sectorNumber) := Seen(buffer[..], drive.size)]
      ensures if old(registers).count == 0 then phase == Ready
              else phase == PioOut && datacounter == 0 && registers.count == old(registers).count - 1
                   && sectorNumber == Address(old(registers), geometry).value
                   && (registers.count > 0 ==> Address(registers, geometry) == Some(sectorNumber + 1))
    {
      hide Address, Capacity, Filled, Put, Seen, InRange;
      ghost var was := buffer[..];
      var i := 0;
      FilledNone(bus, was, items, from);
      AccessCount(bus, 0);
      while i + 1 < Accesses(bus)
        invariant i < Accesses(bus) && Valid() && phase == PioOut && datacounter == i * Width(bus)
        invariant registers == old(registers) && sectorNumber == old(sectorNumber)
        invariant geometry == old(geometry) && error == old(error)
        invariant Contents(drive) == old(Contents(drive))
        invariant Filled(bus, buffer[..], was, items, from, i)
      {
        AccessCount(bus, i);
        PutFills(bus, buffer[..], was, items, from, i);
        data2 := items[from + i].data2;
        WriteData(items[from + i].data);
        i := i + 1;
      }
      AccessCount(bus, i);
      PutFills(bus, buffer[..], was, items, from, i);
      data2 := items[from + i].data2;
      WriteData(items[from + i].data);
    }

    /** A WRITE SECTOR command and the data for it: as many sectors as the count says are written, from the addressed
        one on, each with its share of the data, and no others. */
    method WriteSectors(items: seq<Item>) returns (ghost blocks: seq<seq<byte>>)
      requires Valid() && InRange(registers, geometry)
      requires |items| == ItemsFor(bus, Left(registers))
      modifies this, buffer, drive.cache
      ensures Valid() && phase == Ready && !error && geometry == old(geometry)
      ensures |blocks| == Left(old(registers))
      ensures Shares(bus, blocks, old(buffer[..]), items)
      ensures Address(old(registers), geometry).Some?
      ensures Replaced(Contents(drive), old(Contents(drive)), Address(old(registers), geometry).value, blocks,
                       drive.size)
    {
      hide Address, Capacity, Filled, Seen, InRange, Shares, Replaced;
      InRangeFits(registers, geometry);
      ghost var address, left := Address(registers, geometry).value, Left(registers);
      ghost var was, before := buffer[..], Contents(drive);
      ExecuteWrite();
      blocks := [];
      assert Shares(bus, [], was, items) by { NoShares(bus, was, items); }
      NothingReplaced(before, address, drive.size);
      ghost var i := 0;
      var sent := 0;
      while phase == PioOut
        invariant sent == ItemsFor(bus, i)
        invariant Valid() && !error && geometry == old(geometry)
        invariant |blocks| == i <= left
        invariant if i < left
                  then phase == PioOut && datacounter == 0
                       && registers.count == left - 1 - i && sectorNumber == address + i
                  else phase == Ready
        invariant i < left && registers.count > 0 ==> Address(registers, geometry) == Some(sectorNumber + 1)
        invariant if i == 0 then buffer[..] == was else buffer[..] == blocks[i - 1]
        invariant Shares(bus, blocks, was, items)
        invariant Replaced(Contents(drive), before, address, blocks, drive.size)
        decreases left - i
      {
        ghost var last, contents := buffer[..], Contents(drive);
        WriteOne(items, sent);
        OneMoreShare(bus, blocks, last, buffer[..], was, items, left);
        OneMoreReplaced(contents, before, address, blocks, drive.size, buffer[..]);
        blocks := blocks + [buffer[..]];
        i := i + 1;
        sent := sent + Accesses(bus);
      }
    }

    /** A READ SECTOR command and the accesses for it: the sectors come in order, as many as the count says. */
    method ReadSectorsOut() returns (data: seq<Item>)
      requires Valid() && InRange(registers, geometry)
      modifies this, buffer
      ensures Valid() && phase == Ready && !error && geometry == old(geometry)
      ensures Address(old(registers), geometry).Some?
      ensures data == ReadSectors(bus, Run(drive, Address(old(registers), geometry).value, Left(old(registers))))
    {
      hide Address, Capacity, ReadFrom, ReadSectors, Run, InRange;
      InRangeFits(registers, geometry);
      RunHasSectors(drive, Address(registers, geometry).value, Left(registers));
      ghost var whole := ReadSectors(bus, Run(drive, Address(registers, geometry).value, Left(registers)));
      ExecuteRead();
      data := [];
      while phase == PioIn
        invariant Valid() && !error && geometry == old(geometry)
        invariant phase != PioOut
        invariant data + ToRead() == whole
        decreases |ToRead()|
      {
        var d := ReadData();
        var item := Item(d, if bus == Data16Data2 then data2 else 0);
        Assoc(data, [item], ToRead());
        data := data + [item];
      }
    }

    /** What was written to some sectors is what is read from them, as far as the image keeps it. */
    method WriteAndRead(items: seq<Item>) returns (back: seq<Item>)
      requires Valid() && InRange(registers, geometry)
      requires |items| == ItemsFor(bus, Left(registers))
      modifies this, buffer, drive.cache
      ensures Valid() && phase == Ready && !error
      ensures |back| == |items| && KeptFrom(bus, drive.size, items, 0, back)
    {
      hide Address, Capacity, Filled, Seen, InRange, Shares, Replaced, ReadSectors, Run, KeptFrom;
      var saved := registers;
      ghost var was, before := buffer[..], Contents(drive);
      var blocks := WriteSectors(items);
      ghost var contents := Contents(drive);
      InRangeFits(saved, geometry);
      ghost var address := Address(saved, geometry).value;
      registers := saved;
      back := ReadSectorsOut();
      ReplacedRun(contents, before, address, blocks, drive.size);
      RunIs(drive, address, Left(saved));
      assert AllSeen(blocks, drive.size)[0..] == AllSeen(blocks, drive.size);
      SectorsReadBack(bus, drive.size, blocks, was, items, 0);
    }
  }

  lemma ReadFromStep(bus: Bus, sector: seq<byte>, c: nat)
    requires |sector| == 512 && c < 512 && c % Width(bus) == 0
    ensures ReadFrom(bus, sector, c) == [ReadAt(bus, sector, c)] + ReadFrom(bus, sector, c + Width(bus))
    ensures c + Width(bus) >= 512 ==> ReadFrom(bus, sector, c + Width(bus)) == []
    ensures ReadSectors(bus, []) == []
  {
  }

  lemma InRangeFits(r: Registers, g: Geometry)
    requires InRange(r, g)
    ensures Address(r, g).Some? && Address(r, g).value + Left(r) <= Capacity(g)
  {
  }

  lemma NoneLeft(drive: Drive, n: nat)
    requires drive.Valid() && n <= drive.total <= DWORD_MODULUS
    ensures Run(drive, n, 0) == []
  {
  }
}
