/** The four kinds of .tap files (tap.c): blocks with their length in front, and a last byte of parity that is kept,
    changed or left out. */
module Tap {
  import opened Bytes
  import Tzx

  datatype Kind = Tap | Spc | Sta | Ltp

  /** Whether so many binary digits hold a number. */
  predicate Below(a: nat, n: nat)
    decreases n, a
  {
    if n == 0 then a == 0 else Below(a / 2, n - 1)
  }

  /** Exclusive or, digit by digit. */
  function XorDigits(a: nat, b: nat, n: nat): (r: nat)
    ensures Below(r, n)
    decreases n, a
  {
    if n == 0 then 0 else 2 * XorDigits(a / 2, b / 2, n - 1) + if a % 2 == b % 2 then 0 else 1
  }

  lemma EightDigits(a: nat, n: nat)
    requires n == 8
    ensures Below(a, n) <==> a < 256
  {
    var b, c, d := a / 4, a / 16, a / 64;
    assert a / 2 / 2 == b && b / 2 / 2 == c && c / 2 / 2 == d;
    assert Below(a, n) <==> Below(b, n - 2);
    assert Below(b, n - 2) <==> Below(c, n - 4);
    assert Below(c, n - 4) <==> Below(d, n - 6);
    assert Below(d, n - 6) <==> Below(d / 2 / 2, n - 8);
    assert Below(d / 2 / 2, n - 8) <==> d / 2 / 2 == 0;
  }

  function Xor(a: byte, b: byte): byte {
    EightDigits(XorDigits(a, b, 8), 8);
    XorDigits(a, b, 8)
  }

  /** The parity of some bytes. */
  function Parity(data: seq<byte>): byte {
    if data == [] then 0 else Xor(Parity(data[..|data| - 1]), data[|data| - 1])
  }

  /** How much longer a block is than its length says. */
  function Extra(kind: Kind): nat {
    if kind == Tap then 0 else 2
  }

  // ----- Writing -----

  /** What is put into a file of a block, behind its length. */
  function Stored(kind: Kind, data: seq<byte>): seq<byte>
    requires data != []
  {
    var all := data[..|data| - 1];
    if kind == Spc then all + [Xor(data[|data| - 1], data[0])] else if kind == Sta then all else data
  }

  /** write_tap_block. A block of no bytes has no last byte: the source reads the one in front of it. */
  function Print(kind: Kind, data: seq<byte>): Result<seq<byte>> {
    if |data| < Extra(kind) then Err(Invalid)
    else if data == [] then Err(Undefined)
    else
      Ok(WordBytes(|data| - Extra(kind)) + Stored(kind, data))
  }

  function PrintAll(kind: Kind, blocks: seq<seq<byte>>): Result<seq<byte>> {
    if blocks == [] then Ok([])
    else
      var first := Print(kind, blocks[0]);
      if first.Err? then first
      else
        var rest := PrintAll(kind, blocks[1..]);
        if rest.Err? then rest else Ok(first.value + rest.value)
  }

  // ----- Reading -----

  /** The data of a block as it is in the file, and as the tape has it. */
  function Restored(kind: Kind, stored: seq<byte>): seq<byte>
    requires kind == Spc ==> |stored| >= 2
  {
    match kind
    case Tap => stored
    case Ltp => stored
    case Spc => stored[..|stored| - 1] + [Xor(stored[|stored| - 1], stored[0])]
    case Sta => stored + [Parity(stored)]
  }

  function StoredLength(kind: Kind, length: nat): nat {
    length + Extra(kind) - (if kind == Sta then 1 else 0)
  }

  function ReadBlock(kind: Kind, d: seq<byte>): (r: Result<Read<seq<byte>>>)
    ensures r.Ok? ==> |r.value.rest| < |d|
  {
    if |d| < 2 then Err(Corrupt)
    else
      var n := StoredLength(kind, WordAt(d, 0));
      if |d| - 2 < n then Err(Corrupt) else Ok(Read(Restored(kind, d[2..][..n]), d[2..][n..]))
  }

  function ReadAll(kind: Kind, d: seq<byte>): Result<seq<seq<byte>>>
    decreases |d|
  {
    if d == [] then Ok([])
    else
      var first := ReadBlock(kind, d);
      if first.Err? then Err(first.error)
      else
        var rest := ReadAll(kind, first.value.rest);
        if rest.Err? then rest else Ok([first.value.value] + rest.value)
  }

  // ----- What exclusive or is -----

  /** A binary digit of a number, the lowest first. */
  function Digit(a: nat, k: nat): (d: nat)
    ensures d <= 1
    decreases k
  {
    if k == 0 then a % 2 else Digit(a / 2, k - 1)
  }

  /** A digit is set where the digits of the numbers differ. */
  lemma {:induction false} XorAt(a: nat, b: nat, n: nat, k: nat)
    ensures Digit(XorDigits(a, b, n), k) == if k < n && Digit(a, k) != Digit(b, k) then 1 else 0
    decreases n, k
  {
    if n == 0 {
      ZeroAt(k);
    } else {
      var x := XorDigits(a, b, n);
      assert x / 2 == XorDigits(a / 2, b / 2, n - 1);
      if k > 0 {
        XorAt(a / 2, b / 2, n - 1, k - 1);
      }
    }
  }

  lemma {:induction false} ZeroAt(k: nat)
    ensures Digit(0, k) == 0
  {
    if k > 0 {
      ZeroAt(k - 1);
    }
  }

  /** Numbers with the same digits are the same. */
  lemma {:induction false} SameDigits(a: nat, b: nat, n: nat)
    requires Below(a, n) && Below(b, n) && forall k :: 0 <= k < n ==> Digit(a, k) == Digit(b, k)
    ensures a == b
    decreases n, a
  {
    if n > 0 {
      assert Digit(a, 0) == Digit(b, 0);
      forall k | 0 <= k < n - 1 ensures Digit(a / 2, k) == Digit(b / 2, k) {
        assert Digit(a, k + 1) == Digit(b, k + 1);
      }
      SameDigits(a / 2, b / 2, n - 1);
    }
  }

  lemma XorByteAt(a: byte, b: byte, k: nat)
    requires k < 8
    ensures Digit(Xor(a, b), k) == if Digit(a, k) != Digit(b, k) then 1 else 0
  {
    hide XorDigits, Digit;
    XorAt(a, b, 8, k);
  }

  lemma SameBytes(a: byte, b: byte)
    requires forall k :: 0 <= k < 8 ==> Digit(a, k) == Digit(b, k)
    ensures a == b
  {
    hide Digit, Below;
    EightDigits(a, 8);
    EightDigits(b, 8);
    SameDigits(a, b, 8);
  }

  /** Exclusive or is a commutative group in which each byte undoes itself. */
  lemma XorIsGroup(a: byte, b: byte, c: byte)
    ensures Xor(a, 0) == a && Xor(a, a) == 0
    ensures Xor(a, b) == Xor(b, a)
    ensures Xor(Xor(a, b), c) == Xor(a, Xor(b, c))
  {
    hide Digit, Xor;
    forall k: nat | k < 8 ensures Digit(0, k) == 0 && Digit(Xor(a, 0), k) == Digit(a, k) && Digit(Xor(a, a), k) == 0 {
      ZeroAt(k);
      XorByteAt(a, 0, k);
      XorByteAt(a, a, k);
    }
    SameBytes(Xor(a, 0), a);
    SameBytes(Xor(a, a), 0);
    forall k: nat | k < 8
      ensures Digit(Xor(a, b), k) == Digit(Xor(b, a), k)
      ensures Digit(Xor(Xor(a, b), c), k) == Digit(Xor(a, Xor(b, c)), k)
    {
      XorByteAt(a, b, k);
      XorByteAt(b, a, k);
      XorByteAt(b, c, k);
      XorByteAt(Xor(a, b), c, k);
      XorByteAt(a, Xor(b, c), k);
    }
    SameBytes(Xor(a, b), Xor(b, a));
    SameBytes(Xor(Xor(a, b), c), Xor(a, Xor(b, c)));
  }

  lemma XorTwice(a: byte, b: byte)
    ensures Xor(Xor(a, b), b) == a
  {
    hide Xor;
    XorIsGroup(a, b, b);
    XorIsGroup(b, b, b);
  }

  /** How many of some bytes have a digit set. */
  function Ones(data: seq<byte>, k: nat): nat {
    if data == [] then 0 else Ones(data[..|data| - 1], k) + Digit(data[|data| - 1], k)
  }

  /** A digit of the parity says whether the number of bytes with that digit is odd. */
  lemma {:induction false} ParityCounts(data: seq<byte>, k: nat)
    requires k < 8
    ensures Digit(Parity(data), k) == Ones(data, k) % 2
  {
    hide Digit, Xor;
    if data == [] {
      ZeroAt(k);
    } else {
      ParityCounts(data[..|data| - 1], k);
      XorByteAt(Parity(data[..|data| - 1]), data[|data| - 1], k);
    }
  }

  /** Bytes and their parity have parity 0, and no other byte behind them does that. A block without its parity is read
      from a .sta file with the byte that gives it parity 0. */
  lemma ParityCompletes(data: seq<byte>, last: byte)
    ensures Parity(data + [last]) == 0 <==> last == Parity(data)
    ensures Restored(Sta, data) == data + [last] <==> Parity(data + [last]) == 0
  {
    hide Xor;
    assert (data + [last])[..|data|] == data;
    var p := Parity(data);
    XorIsGroup(p, p, last);
    XorIsGroup(last, p, last);
    if Xor(p, last) == 0 {
      assert Xor(p, Xor(p, last)) == p;
    }
    assert (data + [last])[|data|] == last && (data + [p])[|data|] == p;
  }

  // ----- The round trip -----

  /** The blocks that a file of some kind can hold. */
  predicate Holds(kind: Kind, data: seq<byte>)
  {
    && data != [] && Extra(kind) <= |data| < Extra(kind) + WORD_MODULUS
    && (kind == Sta ==> data[|data| - 1] == Parity(data[..|data| - 1]))
  }

  lemma PrintsStored(kind: Kind, data: seq<byte>)
    requires data != [] && |data| >= Extra(kind)
    ensures Print(kind, data) == Ok(WordBytes(|data| - Extra(kind)) + Stored(kind, data))
    ensures |Stored(kind, data)| == StoredLength(kind, |data| - Extra(kind))
  {
    hide Xor, WordBytes;
  }

  /** What is stored of a block is what makes the block again, except that a parity that is left out comes back
      right. */
  lemma StoredComesBack(kind: Kind, data: seq<byte>)
    requires data != [] && |data| >= Extra(kind)
    ensures Restored(kind, Stored(kind, data)) == data
        <==> (kind == Sta ==> data[|data| - 1] == Parity(data[..|data| - 1]))
  {
    hide Xor, Parity;
    var all, last := data[..|data| - 1], data[|data| - 1];
    assert data == all + [last];
    if kind == Spc {
      XorTwice(last, data[0]);
    } else if kind == Sta {
      assert Restored(kind, all)[|all|] == Parity(all);
    }
  }

  /** A block is read as it was written exactly when its kind of file can hold it. */
  lemma BlockRoundTrip(kind: Kind, data: seq<byte>, rest: seq<byte>)
    requires Print(kind, data).Ok?
    ensures var r := ReadBlock(kind, Print(kind, data).value + rest);
            && (Holds(kind, data) ==> r == Ok(Read(data, rest)))
            && (r.Ok? && r.value.value == data ==> Holds(kind, data))
  {
    hide Xor, Parity, WordBytes, WordAt, Restored, Print, Stored;
    PrintedIsNotEmpty(kind, data);
    PrintsStored(kind, data);
    StoredComesBack(kind, data);
    var n := |data| - Extra(kind);
    var stored := Stored(kind, data);
    var d := Print(kind, data).value + rest;
    Assoc(WordBytes(n), stored, rest);
    WordIsRead(n, stored + rest);
    if n < WORD_MODULUS {
      assert (stored + rest)[..|stored|] == stored && (stored + rest)[|stored|..] == rest;
    } else {
      var r := ReadBlock(kind, d);
      if r.Ok? {
        RestoredLength(kind, d[2..][..StoredLength(kind, n % WORD_MODULUS)]);
      }
    }
  }

  lemma PrintedIsNotEmpty(kind: Kind, data: seq<byte>)
    requires Print(kind, data).Ok?
    ensures data != [] && |data| >= Extra(kind)
  {
  }

  lemma RestoredLength(kind: Kind, stored: seq<byte>)
    requires kind == Spc ==> |stored| >= 2
    ensures |Restored(kind, stored)| == |stored| + if kind == Sta then 1 else 0
  {
  }

  predicate HoldsAll(kind: Kind, blocks: seq<seq<byte>>) {
    forall i :: 0 <= i < |blocks| ==> Holds(kind, blocks[i])
  }

  /** The data of some blocks that can be written is read as it was exactly when the file can hold all of it. */
  lemma {:induction false} DataRoundTrip(kind: Kind, blocks: seq<seq<byte>>)
    requires PrintAll(kind, blocks).Ok?
    ensures ReadAll(kind, PrintAll(kind, blocks).value) == Ok(blocks) <==> HoldsAll(kind, blocks)
  {
    hide Print, ReadBlock, Holds, HoldsAll;
    FirstHolds(kind, blocks);
    if blocks != [] {
      var b, rest := blocks[0], PrintAll(kind, blocks[1..]).value;
      BlockRoundTrip(kind, b, rest);
      DataRoundTrip(kind, blocks[1..]);
      LongerThanTwo(kind, b);
      assert blocks == [b] + blocks[1..];
      var first := ReadBlock(kind, Print(kind, b).value + rest);
      if first.Ok? {
        var more := ReadAll(kind, first.value.rest);
        if more.Ok? && [first.value.value] + more.value == blocks {
          assert ([first.value.value] + more.value)[0] == b;
          assert ([first.value.value] + more.value)[1..] == blocks[1..];
        }
      }
    }
  }

  lemma LongerThanTwo(kind: Kind, data: seq<byte>)
    requires Print(kind, data).Ok?
    ensures Print(kind, data).value != []
  {
  }

  lemma FirstHolds(kind: Kind, blocks: seq<seq<byte>>)
    ensures HoldsAll(kind, blocks) <==> blocks == [] || (Holds(kind, blocks[0]) && HoldsAll(kind, blocks[1..]))
  {
    hide Holds;
    if blocks != [] && Holds(kind, blocks[0]) && HoldsAll(kind, blocks[1..]) {
      forall i | 0 <= i < |blocks| ensures Holds(kind, blocks[i]) {
        assert i > 0 ==> blocks[i] == blocks[1..][i - 1];
      }
    }
  }

  /** The same three bytes in the four kinds of file: the length is that of all bytes in a .tap file and two less in
      the others, and the last byte is kept, patched with the first, or left out. */
  lemma BlockInFourFiles(a: byte, b: byte, c: byte)
    ensures Print(Tap, [a, b, c]) == Ok([3, 0, a, b, c])
    ensures Print(Ltp, [a, b, c]) == Ok([1, 0, a, b, c])
    ensures Print(Spc, [a, b, c]) == Ok([1, 0, a, b, Xor(c, a)])
    ensures Print(Sta, [a, b, c]) == Ok([1, 0, a, b])
  {
    hide Xor;
    assert WordBytes(3) == [3, 0] && WordBytes(1) == [1, 0];
    var data := [a, b, c];
    assert data[..2] == [a, b];
    assert Stored(Tap, data) == Stored(Ltp, data) == data;
    assert Stored(Spc, data) == [a, b, Xor(c, a)] && Stored(Sta, data) == [a, b];
    assert [3, 0] + data == [3, 0, a, b, c] && [1, 0] + data == [1, 0, a, b, c];
    assert [1, 0] + [a, b, Xor(c, a)] == [1, 0, a, b, Xor(c, a)] && [1, 0] + [a, b] == [1, 0, a, b];
  }

  // ----- Whole tapes -----

  /** The blocks that have data for a file; all others are skipped. */
  predicate HasData(b: Tzx.Block) {
    b.Rom? || b.Turbo? || b.PureData?
  }

  function Written(blocks: seq<Tzx.Block>): seq<seq<byte>> {
    if blocks == [] then []
    else (if HasData(blocks[0]) then [blocks[0].data] else []) + Written(blocks[1..])
  }

  const PAUSE: nat := 1000

  /** Every block that is read is a ROM block, with a pause of a second. */
  function AsRom(data: seq<byte>): Tzx.Block {
    Tzx.Rom(PAUSE, Tzx.TSTATES_PER_MS * PAUSE, data)
  }

  function AllAsRom(all: seq<seq<byte>>): (r: seq<Tzx.Block>)
    ensures |r| == |all| && forall i :: 0 <= i < |r| ==> r[i] == AsRom(all[i])
  {
    seq(|all|, i requires 0 <= i < |all| => AsRom(all[i]))
  }

  function TapeRead(kind: Kind, d: seq<byte>): Result<seq<Tzx.Block>> {
    var all := ReadAll(kind, d);
    if all.Err? then Err(all.error) else Ok(AllAsRom(all.value))
  }

  /** The shortest .spc file: a flag of 0 leaves the byte behind it alone. It is played at the speed of the ROM, with a
      second of 3500000 t-states behind it. */
  lemma FlagOfZero(p: byte)
    ensures TapeRead(Spc, [0, 0, 0, p]) == Ok([Tzx.Rom(1000, 3500000, [0, p])])
  {
    hide Xor;
    var d := [0, 0, 0, p];
    XorIsGroup(p, 0, 0);
    assert WordAt(d, 0) == 0;
    assert d[2..][..2] == [0, p] && [0, p][..1] == [0] && d[2..][2..] == [];
    assert Restored(Spc, [0, p]) == [0, p];
    assert StoredLength(Spc, 0) == 2;
    assert ReadBlock(Spc, d) == Ok(Read([0, p], []));
    var none: seq<seq<byte>> := [];
    assert ReadAll(Spc, []) == Ok(none) && [[0, p]] + none == [[0, p]];
    assert AllAsRom([[0, p]]) == [AsRom([0, p])];
  }

  /** Of a tape it is the data of ROM, turbo and pure data blocks that is written, in their order, and nothing else. */
  lemma {:induction false} WhatIsWritten(blocks: seq<Tzx.Block>, more: seq<Tzx.Block>, b: Tzx.Block)
    ensures Written(blocks + more) == Written(blocks) + Written(more)
    ensures Written([b]) == match b
                            case Rom(_, _, data) => [data]
                            case Turbo(_, _, _, _, _, _, _, _, _, data) => [data]
                            case PureData(_, _, _, _, _, data) => [data]
                            case _ => []
  {
    assert [b][1..] == [] && Written([]) == [];
    if blocks == [] {
      assert blocks + more == more;
    } else {
      assert (blocks + more)[1..] == blocks[1..] + more;
      WhatIsWritten(blocks[1..], more, b);
    }
  }

  lemma {:induction false} RomsAreWritten(all: seq<seq<byte>>)
    ensures Written(AllAsRom(all)) == all
  {
    if all != [] {
      RomsAreWritten(all[1..]);
      assert AllAsRom(all)[1..] == AllAsRom(all[1..]);
      assert Written(AllAsRom(all)) == [all[0]] + Written(AllAsRom(all[1..]));
    }
  }

  predicate IsAsRead(b: Tzx.Block) {
    b.Rom? && b == AsRom(b.data)
  }

  lemma {:induction false} WrittenRoms(blocks: seq<Tzx.Block>)
    requires forall i :: 0 <= i < |blocks| ==> IsAsRead(blocks[i])
    ensures AllAsRom(Written(blocks)) == blocks
  {
    if blocks != [] {
      WrittenRoms(blocks[1..]);
      assert IsAsRead(blocks[0]);
      assert Written(blocks) == [blocks[0].data] + Written(blocks[1..]);
      assert AllAsRom(Written(blocks)) == [blocks[0]] + AllAsRom(Written(blocks[1..]));
    }
  }

  /** A tape that can be written is read as it was exactly when it consists of ROM blocks with a pause of a second, and
      the file can hold all of them. */
  lemma TapeRoundTrip(kind: Kind, blocks: seq<Tzx.Block>)
    requires PrintAll(kind, Written(blocks)).Ok?
    ensures TapeRead(kind, PrintAll(kind, Written(blocks)).value) == Ok(blocks)
        <==> forall i :: 0 <= i < |blocks| ==> IsAsRead(blocks[i]) && Holds(kind, blocks[i].data)
  {
    hide PrintAll, ReadAll, Holds, Written;
    var all := Written(blocks);
    DataRoundTrip(kind, all);
    var back := ReadAll(kind, PrintAll(kind, all).value);
    if back.Ok? && AllAsRom(back.value) == blocks {
      RomsAreWritten(back.value);
      assert forall i :: 0 <= i < |blocks| ==> blocks[i] == AsRom(all[i]);
    }
    if forall i :: 0 <= i < |blocks| ==> IsAsRead(blocks[i]) {
      WrittenRoms(blocks);
      assert forall i :: 0 <= i < |blocks| ==> blocks[i] == AsRom(all[i]);
    }
  }

  // ----- The loops of the source -----

  method ParityOf(data: seq<byte>) returns (parity: byte)
    ensures parity == Parity(data)
  {
    hide Xor;
    parity := 0;
    var i := 0;
    while i < |data|
      invariant i <= |data| && parity == Parity(data[..i])
    {
      assert data[..i + 1][..i] == data[..i];
      parity := Xor(parity, data[i]);
      i := i + 1;
    }
    assert data[..i] == data;
  }

  /** One block of a file. */
  method ReadOne(kind: Kind, d: seq<byte>) returns (r: Result<Read<seq<byte>>>)
    ensures r == ReadBlock(kind, d)
  {
    hide Xor, Parity, WordAt;
    if |d| < 2 {
      return Err(Corrupt);
    }
    var dataLength: nat := WordAt(d, 0);
    if kind != Tap {
      dataLength := dataLength + 2;
    }
    var left := d[2..];
    var bufLength := if kind == Sta then dataLength - 1 else dataLength;
    if |left| < bufLength {
      return Err(Corrupt);
    }
    ghost var stored := left[..bufLength];
    var data := new byte[dataLength](i => 0);
    CopyInto(data, left[..bufLength]);
    if kind == Spc {
      assert data[dataLength - 1] == stored[dataLength - 1] && data[0] == stored[0];
      data[dataLength - 1] := Xor(data[dataLength - 1], data[0]);
      assert data[..] == stored[..dataLength - 1] + [data[dataLength - 1]];
    } else if kind == Sta {
      data[dataLength - 1] := ParityOf(left[..bufLength]);
      assert data[..] == stored + [data[dataLength - 1]];
    } else {
      assert data[..] == stored;
    }
    r := Ok(Read(data[..], left[bufLength..]));
  }

  /** internal_tap_read. */
  method ReadTape(kind: Kind, buffer: seq<byte>) returns (r: Result<seq<Tzx.Block>>)
    ensures r == TapeRead(kind, buffer)
  {
    hide ReadBlock;
    var left := buffer;
    var blocks: seq<Tzx.Block> := [];
    ghost var all: seq<seq<byte>> := [];
    Behind([], ReadAll(kind, left));
    while |left| > 0
      invariant ReadAll(kind, buffer) == After(all, ReadAll(kind, left)) && blocks == AllAsRom(all)
      decreases |left|
    {
      var next := ReadOne(kind, left);
      if next.Err? {
        return Err(next.error);
      }
      left := next.value.rest;
      OneMore(all, next.value.value, ReadAll(kind, left));
      blocks := blocks + [Tzx.Rom(1000, 1000 * Tzx.TSTATES_PER_MS, next.value.value)];
      all := all + [next.value.value];
    }
    assert all + [] == all;
    r := Ok(blocks);
  }

  method CopyInto(data: array<byte>, from: seq<byte>)
    requires |from| <= data.Length
    modifies data
    ensures data[..|from|] == from
  {
    var i := 0;
    while i < |from|
      invariant i <= |from| && data[..i] == from[..i]
    {
      data[i] := from[i];
      i := i + 1;
    }
  }

  function After(done: seq<seq<byte>>, r: Result<seq<seq<byte>>>): Result<seq<seq<byte>>> {
    if r.Err? then r else Ok(done + r.value)
  }

  lemma Behind(done: seq<seq<byte>>, r: Result<seq<seq<byte>>>)
    ensures done == [] ==> After(done, r) == r
  {
    if r.Ok? {
      assert [] + r.value == r.value;
    }
  }

  lemma OneMore(done: seq<seq<byte>>, b: seq<byte>, r: Result<seq<seq<byte>>>)
    ensures After(done + [b], r) == After(done, After([b], r))
  {
    if r.Ok? {
      Assoc(done, [b], r.value);
    }
  }

  lemma WrittenFrom(blocks: seq<Tzx.Block>, i: nat)
    requires i < |blocks|
    ensures Written(blocks[i..])
         == (if HasData(blocks[i]) then [blocks[i].data] else []) + Written(blocks[i + 1..])
  {
    assert blocks[i..][1..] == blocks[i + 1..];
  }

  /** What is printed of some data and then more. */
  lemma PrintedFirst(kind: Kind, data: seq<byte>, rest: seq<seq<byte>>)
    ensures var first, all := Print(kind, data), PrintAll(kind, [data] + rest);
            all == if first.Err? then first
                   else if PrintAll(kind, rest).Err? then PrintAll(kind, rest)
                   else Ok(first.value + PrintAll(kind, rest).value)
  {
    hide Print;
    assert ([data] + rest)[1..] == rest;
  }

  function Appended(buffer: seq<byte>, r: Result<seq<byte>>): Result<seq<byte>> {
    if r.Err? then r else Ok(buffer + r.value)
  }

  /** internal_tap_write. */
  method WriteTape(kind: Kind, blocks: seq<Tzx.Block>) returns (r: Result<seq<byte>>)
    ensures r == PrintAll(kind, Written(blocks))
  {
    hide Print, PrintAll, Written;
    var buffer: seq<byte> := [];
    var i := 0;
    ghost var whole := PrintAll(kind, Written(blocks));
    assert blocks[0..] == blocks;
    assert whole.Ok? ==> [] + whole.value == whole.value;
    while i < |blocks|
      invariant i <= |blocks|
      invariant whole == Appended(buffer, PrintAll(kind, Written(blocks[i..])))
    {
      ghost var rest := Written(blocks[i + 1..]);
      WrittenFrom(blocks, i);
      if HasData(blocks[i]) {
        PrintedFirst(kind, blocks[i].data, rest);
        var block := Print(kind, blocks[i].data);
        if block.Err? {
          return block;
        }
        if PrintAll(kind, rest).Ok? {
          Assoc(buffer, block.value, PrintAll(kind, rest).value);
        }
        buffer := buffer + block.value;
      } else {
        assert [] + rest == rest;
      }
      i := i + 1;
    }
    assert blocks[i..] == [];
    NothingPrinted(kind);
    assert buffer + [] == buffer;
    r := Ok(buffer);
  }

  lemma NothingPrinted(kind: Kind)
    ensures PrintAll(kind, Written([])) == Ok([])
  {
    assert Written([]) == [];
  }
}
