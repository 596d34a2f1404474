/** The checksums of a microdrive cartridge (microdrive.c). */
module Microdrive {
  import opened Bytes

  const HEAD_LEN: nat := 15
  const DATA_LEN: nat := 512
  const BLOCK_LEN: nat := HEAD_LEN + HEAD_LEN + DATA_LEN + 1

  /** The sum modulo 255 of some bytes: all that a checksum knows of them. */
  function Residue(bytes: seq<byte>): nat {
    Total(bytes) % 255
  }

  function Total(bytes: seq<byte>): nat {
    if bytes == [] then 0 else Total(bytes[..|bytes| - 1]) + bytes[|bytes| - 1]
  }

  /** The addition with carry of the ROM: one is added along with the carry to step over 255, and taken off again. */
  method AddByte(checksum: nat, b: byte) returns (r: nat)
    requires checksum < 255
    ensures r == (checksum + b) % 255
  {
    r := checksum + b;
    var carry;
    if r > 255 {
      carry := 1;
      r := r - 256;
    } else {
      carry := 0;
    }
    r := r + carry + 1;
    if r == 256 {
      r := r - 256;
    } else {
      r := r - 1;
    }
  }

  lemma ResidueStep(total: nat, b: byte)
    ensures (total % 255 + b) % 255 == (total + b) % 255
  {
    var q := total / 255;
    assert total + b == 255 * q + (total % 255 + b);
    Shifted(q, total % 255 + b);
  }

  lemma Shifted(q: nat, x: nat)
    ensures (255 * q + x) % 255 == x % 255
  {
  }

  /** The checksum of a stretch of the cartridge. It is never 255. */
  method Sum(data: seq<byte>, start: nat, count: nat) returns (checksum: nat)
    requires start + count <= |data|
    ensures checksum == Residue(data[start..start + count]) < 255
  {
    checksum := 0;
    var i := count;
    while i > 0
      invariant 0 <= i <= count
      invariant checksum == Residue(data[start..start + count - i])
    {
      var at := start + count - i;
      ghost var before, after := data[start..at], data[start..at + 1];
      assert after[..|after| - 1] == before;
      ResidueStep(Total(before), data[at]);
      checksum := AddByte(checksum, data[at]);
      i := i - 1;
    }
  }

  /** A changed byte is noticed unless it is 0 and becomes 255, or the other way round. */
  lemma ChangeIsNoticed(before: seq<byte>, x: byte, y: byte, after: seq<byte>)
    ensures Residue(before + [x] + after) == Residue(before + [y] + after)
            <==> x == y || (x == 0 && y == 255) || (x == 255 && y == 0)
  {
    TotalOf(before, x, after);
    TotalOf(before, y, after);
    SameResidue(Total(before) + Total(after), x, y);
  }

  lemma SameResidue(rest: nat, x: byte, y: byte)
    ensures (rest + x) % 255 == (rest + y) % 255 <==> x == y || (x == 0 && y == 255) || (x == 255 && y == 0)
  {
    var a, b := (rest + x) / 255, (rest + y) / 255;
    assert rest + x == 255 * a + (rest + x) % 255 && rest + y == 255 * b + (rest + y) % 255;
    if x == 0 && y == 255 {
      Shifted(1, rest);
    }
    if x == 255 && y == 0 {
      Shifted(1, rest);
    }
  }

  lemma {:induction false} TotalAppend(one: seq<byte>, other: seq<byte>)
    ensures Total(one + other) == Total(one) + Total(other)
  {
    if other == [] {
      assert one + other == one;
    } else {
      var n := |other| - 1;
      assert (one + other)[..|one| + n] == one + other[..n];
      TotalAppend(one, other[..n]);
    }
  }

  lemma TotalOf(before: seq<byte>, x: byte, after: seq<byte>)
    ensures Total(before + [x] + after) == Total(before) + Total(after) + x
  {
    TotalAppend(before + [x], after);
    TotalAppend(before, [x]);
    assert Total([x]) == Total([x][..0]) + x;
  }

  predicate IsBad(block: seq<byte>)
    requires |block| == BLOCK_LEN
  {
    block[15] / 2 % 2 == 1 && block[17] == 0 && block[18] == 0
  }

  predicate HeaderGood(block: seq<byte>)
    requires |block| == BLOCK_LEN
  {
    block[14] == Residue(block[0..14])
  }

  predicate RecordGood(block: seq<byte>)
    requires |block| == BLOCK_LEN
  {
    block[29] == Residue(block[15..29])
  }

  predicate IsEmpty(block: seq<byte>)
    requires |block| == BLOCK_LEN
  {
    block[17] == 0 && block[18] == 0
  }

  predicate DataGood(block: seq<byte>)
    requires |block| == BLOCK_LEN
  {
    block[542] == Residue(block[30..542])
  }

  /** libspectrum_microdrive_checksum, of one block. */
  method Checksum(block: seq<byte>) returns (r: int)
    requires |block| == BLOCK_LEN
    ensures r == -1 <==> IsBad(block)
    ensures r == 0 <==> !IsBad(block) && HeaderGood(block) && RecordGood(block) && (IsEmpty(block) || DataGood(block))
    ensures r == 1 <==> !IsBad(block) && !HeaderGood(block)
    ensures r == 2 <==> !IsBad(block) && HeaderGood(block) && !RecordGood(block)
    ensures r == 3 <==> !IsBad(block) && HeaderGood(block) && RecordGood(block) && !IsEmpty(block) && !DataGood(block)
  {
    hide Residue;
    if block[15] / 2 % 2 == 1 && block[17] == 0 && block[18] == 0 {
      return -1;
    }
    var data := 0;
    var checksum := Sum(block, data, HEAD_LEN - 1);
    data := data + HEAD_LEN;
    if block[data - 1] != checksum {
      return 1;
    }
    checksum := Sum(block, data, HEAD_LEN - 1);
    data := data + HEAD_LEN;
    if block[data - 1] != checksum {
      return 2;
    }
    if block[data - 13] == 0 && block[data - 12] == 0 {
      return 0;
    }
    checksum := Sum(block, data, DATA_LEN);
    data := data + DATA_LEN;
    if block[data] != checksum {
      return 3;
    }
    return 0;
  }
}
