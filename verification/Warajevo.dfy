/** The decompressor of Warajevo tapes (warajevo_read.c): control bits in one stream, bytes in another. First the
    code it reads, token by token; then the bit-by-bit machine, which decodes the same. */
module Warajevo {
  import opened Bytes
  import opened TapeEdges
  import opened GeneralisedData

  /** A copy of offset n starts n - 1 bytes back. */
  datatype Token = Literal(value: byte) | Copy(size: nat, offset: nat)

  // ----- The code -----

  /** The bits that give a size of 2 to 9, and those that say a byte gives the rest. */
  function SizeCode(size: nat): seq<bool> {
    if size == 2 then [false, true, false]
    else if size == 3 then [false, false]
    else if size == 4 then [true, false, false]
    else if size == 5 then [true, false, true]
    else if size == 6 then [true, true, false, false]
    else if size == 7 then [true, true, false, true]
    else if size == 8 then [true, true, true, false]
    else if size == 9 then [true, true, true, true]
    else [false, true, true]
  }

  function SizeBytes(size: nat): seq<byte> {
    if 10 <= size < 266 then [size - 10] else []
  }

  /** The last binary digits of a number, most significant first. */
  function Digits(n: nat, count: nat): (r: seq<bool>)
    ensures |r| == count
    decreases count, n
  {
    if count == 0 then [] else Digits(n / 2, count - 1) + [n % 2 == 1]
  }

  /** The bits that give the upper part of an offset. */
  function HighCode(high: nat): seq<bool> {
    if high == 0 then [true]
    else if high == 1 then [false, false, false, false]
    else if high == 2 then [false, false, false, true]
    else if high == 3 then [false, false, true, false, false]
    else if high == 4 then [false, false, true, false, true]
    else if high == 5 then [false, false, true, true, false]
    else if high == 6 then [false, false, true, true, true]
    else if high <= 22 then [false, true] + Digits(high - 7, 4)
    else []
  }

  lemma {:induction false} ValueOfFew(x: seq<bool>)
    requires 1 <= |x| <= 6
    ensures |x| == 1 ==> BinaryValue(x) == Digit(x[0])
    ensures |x| == 2 ==> BinaryValue(x) == 2 * Digit(x[0]) + Digit(x[1])
    ensures |x| == 3 ==> BinaryValue(x) == 4 * Digit(x[0]) + 2 * Digit(x[1]) + Digit(x[2])
    ensures |x| == 4 ==> BinaryValue(x) == 8 * Digit(x[0]) + 4 * Digit(x[1]) + 2 * Digit(x[2]) + Digit(x[3])
    ensures |x| == 5 ==>
              BinaryValue(x) == 16 * Digit(x[0]) + 8 * Digit(x[1]) + 4 * Digit(x[2]) + 2 * Digit(x[3]) + Digit(x[4])
    ensures |x| == 6 ==>
              BinaryValue(x) == 32 * Digit(x[0]) + 16 * Digit(x[1]) + 8 * Digit(x[2]) + 4 * Digit(x[3])
                                + 2 * Digit(x[4]) + Digit(x[5])
  {
    if |x| > 1 {
      ValueOfFew(x[..|x| - 1]);
    } else {
      assert x[..0] == [];
    }
  }

  /** The codes as binary numbers: a size of 4 or 5 is itself in three bits, and one of 6 to 9 is six more in four; an
      upper part is one less in four bits, one more in five, or nine more in six. */
  lemma CodeValues(size: nat, high: nat)
    requires high <= 22
    ensures var code := SizeCode(size);
            && |code| == (if size == 3 then 2 else if 6 <= size <= 9 then 4 else 3)
            && BinaryValue(code) == if size == 2 then 2 else if size == 3 then 0 else if 4 <= size <= 5 then size
                                    else if 6 <= size <= 9 then size + 6 else 3
    ensures var code := HighCode(high);
            && |code| == (if high == 0 then 1 else if high <= 2 then 4 else if high <= 6 then 5 else 6)
            && BinaryValue(code) == if high == 0 then 1 else if high <= 2 then high - 1 else if high <= 6 then high + 1
                                    else high + 9
  {
    hide BinaryValue;
    ValueOfFew(SizeCode(size));
    HighIs(high);
    ValueOfFew(HighCode(high));
    if high > 6 {
      NibbleDigits(high - 7);
    }
  }

  lemma HighIs(high: nat)
    requires high <= 22
    ensures 1 <= |HighCode(high)| <= 6
    ensures high > 6 ==> |HighCode(high)| == 6 && HighCode(high)[0] == false && HighCode(high)[1] == true
                         && HighCode(high)[2..] == Digits(high - 7, 4)
  {
  }

  lemma NibbleDigits(n: nat)
    requires n < 16
    ensures var d := Digits(n, 4);
            |d| == 4 && 8 * Digit(d[0]) + 4 * Digit(d[1]) + 2 * Digit(d[2]) + Digit(d[3]) == n
  {
    assert Digits(n, 4) == Digits(n / 2, 3) + [n % 2 == 1];
    assert Digits(n / 2, 3) == Digits(n / 2 / 2, 2) + [n / 2 % 2 == 1];
    assert Digits(n / 4, 2) == Digits(n / 4 / 2, 1) + [n / 4 % 2 == 1];
    assert Digits(n / 8, 1) == Digits(n / 8 / 2, 0) + [n / 8 % 2 == 1];
    assert n / 2 / 2 == n / 4 && n / 4 / 2 == n / 8;
  }

  function Control(t: Token): seq<bool> {
    match t
    case Literal(_) => [false]
    case Copy(size, offset) => [true] + (SizeCode(size) + if size == 2 then [] else HighCode(offset / 256))
  }

  function Data(t: Token): seq<byte> {
    match t
    case Literal(b) => [b]
    case Copy(size, offset) => SizeBytes(size) + [offset % 256]
  }

  predicate Encodable(t: Token) {
    t.Copy? ==> 2 <= t.size <= 265 && t.offset <= 5887 && (t.size == 2 ==> t.offset < 256)
  }

  function ControlBits(tokens: seq<Token>): seq<bool> {
    if tokens == [] then [] else Control(tokens[0]) + ControlBits(tokens[1..])
  }

  function DataBytes(tokens: seq<Token>): seq<byte> {
    if tokens == [] then [] else Data(tokens[0]) + DataBytes(tokens[1..])
  }

  // ----- What tokens stand for -----

  /** A copy may only use what is there already, and may not overlap itself. */
  predicate Possible(t: Token, out: seq<byte>) {
    t.Copy? ==> t.size < t.offset <= |out| + 1
  }

  function Written(t: Token, out: seq<byte>): seq<byte>
    requires Possible(t, out)
  {
    match t
    case Literal(b) => out + [b]
    case Copy(size, offset) =>
      var from := |out| - offset + 1;
      out + out[from..from + size]
  }

  /** Every byte of a copy is the one that its offset less one says lies before it. */
  lemma CopyRepeats(size: nat, offset: nat, out: seq<byte>, k: nat)
    requires Possible(Copy(size, offset), out) && k < size
    ensures var r := Written(Copy(size, offset), out);
            && |r| == |out| + size && r[..|out|] == out
            && 1 <= offset <= |out| + k + 1 && r[|out| + k] == r[|out| + k - (offset - 1)]
  {
  }

  predicate AllPossible(tokens: seq<Token>, out: seq<byte>) {
    tokens != [] ==> Possible(tokens[0], out) && AllPossible(tokens[1..], Written(tokens[0], out))
  }

  function Expanded(tokens: seq<Token>, out: seq<byte>): (r: seq<byte>)
    requires AllPossible(tokens, out)
    ensures |out| <= |r|
  {
    if tokens == [] then out else Expanded(tokens[1..], Written(tokens[0], out))
  }

  // ----- Reading the code -----

  datatype Code = Code(value: nat, length: nat)

  /** The size at the head of some bits, 10 standing for 10 plus the next byte. */
  function ParseSize(b: seq<bool>): Option<Code> {
    if |b| < 2 then None
    else if !b[0] && !b[1] then Some(Code(3, 2))
    else if |b| < 3 then None
    else if !b[0] then Some(Code(if b[2] then 10 else 2, 3))
    else if !b[1] then Some(Code(if b[2] then 5 else 4, 3))
    else if |b| < 4 then None
    else Some(Code(6 + 2 * Digit(b[2]) + Digit(b[3]), 4))
  }

  /** The upper part of an offset at the head of some bits. */
  function ParseHigh(b: seq<bool>): Option<Code> {
    if |b| < 1 then None
    else if b[0] then Some(Code(0, 1))
    else if |b| < 4 then None
    else if !b[1] && !b[2] then Some(Code(1 + Digit(b[3]), 4))
    else if |b| < 5 then None
    else if !b[1] then Some(Code(3 + 2 * Digit(b[3]) + Digit(b[4]), 5))
    else if |b| < 6 then None
    else Some(Code(7 + 8 * Digit(b[2]) + 4 * Digit(b[3]) + 2 * Digit(b[4]) + Digit(b[5]), 6))
  }

  datatype Parse = Short | NoData | Parsed(token: Token, bits: nat, data: nat)

  function ParseOffset(size: nat, b: seq<bool>, d: seq<byte>, bits: nat, data: nat): Parse {
    if b == [] then Short
    else if d == [] then NoData
    else
      match ParseHigh(b)
      case None => Short
      case Some(high) =>
        var low: int := d[0];
        Parsed(Copy(size, 256 * high.value + low), bits + high.length, data + 1)
  }

  /** The token at the head of both streams: Short when the bits run out, NoData when the bytes do. */
  function ParseToken(b: seq<bool>, d: seq<byte>): (p: Parse)
    ensures p.Parsed? ==> 0 < p.bits <= |b| && 0 < p.data <= |d|
  {
    if b == [] then Short
    else if !b[0] then if d == [] then NoData else Parsed(Literal(d[0]), 1, 1)
    else
      match ParseSize(b[1..])
      case None => Short
      case Some(size) =>
        var rest := b[1 + size.length..];
        if size.value == 2 then
          if d == [] then NoData else Parsed(Copy(2, d[0]), 1 + size.length, 1)
        else if size.value == 10 then
          if d == [] then NoData
          else
            var more: int := d[0];
            ParseOffset(10 + more, rest, d[1..], 1 + size.length, 1)
        else ParseOffset(size.value, rest, d, 1 + size.length, 0)
  }

  /** execute_copy_command and the copying of single bytes. The check that a copy is corrupt is the source's;
      copies that overlap, or that overrun the output, pass it and leave the source undefined. */
  function Execute(t: Token, out: seq<byte>, limit: nat): (r: Result<seq<byte>>)
    ensures r.Ok? ==> |r.value| <= limit
  {
    if t.Literal? then if |out| < limit then Ok(out + [t.value]) else Err(Undefined)
    else if |out| + 1 < t.offset || |out| - t.offset + 1 + t.size > limit then Err(Corrupt)
    else if t.offset <= t.size || |out| + t.size > limit then Err(Undefined)
    else Ok(Written(t, out))
  }

  /** Decode until the output is full or the control bits run out. */
  function Decode(b: seq<bool>, d: seq<byte>, out: seq<byte>, limit: nat): Result<seq<byte>>
    decreases |b|
  {
    if |out| >= limit then Ok(out)
    else match ParseToken(b, d)
      case Short => Ok(out)
      case NoData => Err(Undefined)
      case Parsed(t, bits, data) =>
        match Execute(t, out, limit)
        case Err(e) => Err(e)
        case Ok(more) => Decode(b[bits..], d[data..], more, limit)
  }

  // ----- Encoding and decoding -----

  lemma NibbleIsRead(n: nat, count: nat)
    requires n < 16 && count == 4
    ensures var x := Digits(n, count); 8 * Digit(x[0]) + 4 * Digit(x[1]) + 2 * Digit(x[2]) + Digit(x[3]) == n
  {
    assert Digits(n, count) == Digits(n / 2, count - 1) + [n % 2 == 1];
    assert Digits(n / 2, count - 1) == Digits(n / 2 / 2, count - 2) + [n / 2 % 2 == 1];
    assert Digits(n / 2 / 2, count - 2) == Digits(n / 2 / 2 / 2, count - 3) + [n / 2 / 2 % 2 == 1];
    assert Digits(n / 2 / 2 / 2, count - 3) == [n / 2 / 2 / 2 % 2 == 1];
  }

  lemma SizeIsRead(size: nat, after: seq<bool>)
    requires 2 <= size
    ensures ParseSize(SizeCode(size) + after) == Some(Code(if size > 10 then 10 else size, |SizeCode(size)|))
  {
  }

  lemma HighIsRead(high: nat, after: seq<bool>)
    requires high <= 22
    ensures ParseHigh(HighCode(high) + after) == Some(Code(high, |HighCode(high)|))
  {
    if high >= 7 {
      var n: nat, four := high - 7, 4;
      var x := Digits(n, four);
      NibbleIsRead(n, four);
      var b := HighCode(high) + after;
      assert b[2] == x[0] && b[3] == x[1] && b[4] == x[2] && b[5] == x[3];
    }
  }

  /** The offset of a copy, read with as many bits and bytes behind it as there may be. */
  lemma OffsetIsRead(size: nat, offset: nat, bits: seq<bool>, data: seq<byte>, m: nat, n: nat)
    requires offset <= 5887
    ensures var high := HighCode(offset / 256);
            ParseOffset(size, high + bits, [offset % 256] + data, m, n) == Parsed(Copy(size, offset), m + |high|, n + 1)
  {
    hide ParseHigh, HighCode, Digits;
    HighIsRead(offset / 256, bits);
    assert HighCode(offset / 256) != [] by { SomeHighCode(offset / 256); }
  }

  lemma SomeHighCode(high: nat)
    requires high <= 22
    ensures HighCode(high) != []
  {
  }

  /** What the size of a copy leads to. */
  lemma CopyIsRead(size: nat, after: seq<bool>, d: seq<byte>)
    requires 2 <= size <= 265
    ensures var code := SizeCode(size);
            var m := 1 + |code|;
            ParseToken([true] + (code + after), SizeBytes(size) + d) ==
            if size == 2 then if d == [] then NoData else Parsed(Copy(2, d[0]), m, 1)
            else ParseOffset(size, after, d, m, |SizeBytes(size)|)
  {
    hide ParseSize, SizeCode, ParseOffset;
    var code := SizeCode(size);
    SizeIsRead(size, after);
    var b := [true] + (code + after);
    assert b[1..] == code + after;
    assert b[1 + |code|..] == after;
    if size < 10 {
      assert SizeBytes(size) + d == d;
    } else {
      assert (SizeBytes(size) + d)[1..] == d;
    }
  }

  /** The code is prefix-free: a token is read back whatever follows it in either stream. */
  lemma TokenIsRead(t: Token, bits: seq<bool>, data: seq<byte>)
    requires Encodable(t)
    ensures ParseToken(Control(t) + bits, Data(t) + data) == Parsed(t, |Control(t)|, |Data(t)|)
  {
    if t.Copy? {
      CopyTokenIsRead(t.size, t.offset, bits, data);
    }
  }

  lemma CopyTokenIsRead(size: nat, offset: nat, bits: seq<bool>, data: seq<byte>)
    requires Encodable(Copy(size, offset))
    ensures var t := Copy(size, offset);
            ParseToken(Control(t) + bits, Data(t) + data) == Parsed(t, |Control(t)|, |Data(t)|)
  {
    hide ParseToken, SizeCode, HighCode, ParseOffset;
    var t := Copy(size, offset);
    var high := if size == 2 then [] else HighCode(offset / 256);
    var d := [offset % 256] + data;
    assert Control(t) + bits == [true] + (SizeCode(size) + (high + bits));
    assert Data(t) + data == SizeBytes(size) + d;
    CopyIsRead(size, high + bits, d);
    if size > 2 {
      OffsetIsRead(size, offset, bits, data, 1 + |SizeCode(size)|, |SizeBytes(size)|);
    }
  }

  /** Decoding the canonical encoding of a possible token list yields what the tokens stand for. */
  lemma {:induction false} DecodeInvertsEncoding(tokens: seq<Token>, bits: seq<bool>, data: seq<byte>, out: seq<byte>)
    requires forall i :: 0 <= i < |tokens| ==> Encodable(tokens[i])
    requires AllPossible(tokens, out)
    ensures var x := Expanded(tokens, out);
            Decode(ControlBits(tokens) + bits, DataBytes(tokens) + data, out, |x|) == Ok(x)
    decreases tokens
  {
    if tokens != [] {
      var t, rest := tokens[0], tokens[1..];
      var x := Expanded(tokens, out);
      Assoc(Control(t), ControlBits(rest), bits);
      Assoc(Data(t), DataBytes(rest), data);
      TokenIsRead(t, ControlBits(rest) + bits, DataBytes(rest) + data);
      DecodeInvertsEncoding(rest, bits, data, Written(t, out));
      EveryTokenWrites(t, out);
      assert Execute(t, out, |x|) == Ok(Written(t, out));
    }
  }

  lemma EveryTokenWrites(t: Token, out: seq<byte>)
    requires Possible(t, out) && Encodable(t)
    ensures |Written(t, out)| > |out|
  {
  }

  // ----- The machine -----

  // The nodes of the two bit automata, named for the bits that lead to them.
  datatype State = B | B0 | B1 | B01 | B10 | B11 | B110 | B111
  datatype VState = V | V0 | V01 | V00 | V000 | V001 | V0010 | V0011

  /** Mode 0: a byte to copy or the start of a copy; 1: reading the size; 2: reading the offset; 3: complete. */
  datatype Command = Command(
    mode: nat, state: State, vstate: VState, offset: nat, size: nat, pattern: nat, patternDepth: nat)

  const RESET: Command := Command(0, B, V, 0, 0, 0, 0)

  function StatePath(s: State): seq<bool> {
    match s
    case B => []
    case B0 => [false]
    case B1 => [true]
    case B01 => [false, true]
    case B10 => [true, false]
    case B11 => [true, true]
    case B110 => [true, true, false]
    case B111 => [true, true, true]
  }

  function VStatePath(c: Command): seq<bool> {
    match c.vstate
    case V => []
    case V0 => [false]
    case V01 => [false, true] + Digits(c.pattern, c.patternDepth)
    case V00 => [false, false]
    case V000 => [false, false, false]
    case V001 => [false, false, true]
    case V0010 => [false, false, true, false]
    case V0011 => [false, false, true, true]
  }

  /** The bits that have led to a state since the last token was complete. */
  function Path(c: Command): seq<bool> {
    if c.mode == 0 then [] else [true] + if c.mode == 1 then StatePath(c.state) else SizeCode(c.size) + VStatePath(c)
  }

  /** The bytes that have been read meanwhile. */
  function Taken(c: Command): seq<byte> {
    if c.mode == 2 then SizeBytes(c.size) + (if c.vstate == V then [] else [c.offset % 256]) else []
  }

  predicate Underway(c: Command) {
    && c.mode < 3
    && (c.mode == 0 ==> c == RESET)
    && (c.mode == 1 ==> c.vstate == V)
    && (c.mode == 2 ==> 3 <= c.size <= 265 && (c.vstate != V ==> c.offset < 256))
    && c.patternDepth < 4
    && c.pattern < Power(c.patternDepth)
    && (c.vstate != V01 ==> c.patternDepth == 0)
  }

  function Power(n: nat): nat {
    if n == 0 then 1 else if n == 1 then 2 else if n == 2 then 4 else if n == 3 then 8 else 16
  }

  /** What is decoded from here, were the bits behind the current ones to be these. */
  function Ahead(c: Command, rest: seq<bool>, data: seq<byte>, out: seq<byte>, limit: nat): Result<seq<byte>> {
    Decode(Path(c) + rest, Taken(c) + data, out, limit)
  }

  /** A bit that completes no token only lengthens the path. */
  lemma BitTaken(c: Command, after: Command, bit: bool, rest: seq<bool>, data: seq<byte>, left: seq<byte>,
      out: seq<byte>, limit: nat)
    requires Path(after) == Path(c) + [bit]
    requires Taken(after) + left == Taken(c) + data
    ensures Ahead(after, rest, left, out, limit) == Ahead(c, [bit] + rest, data, out, limit)
  {
    hide *;
    AheadIs(c, [bit] + rest, data, out, limit);
    AheadIs(after, rest, left, out, limit);
    Assoc(Path(c), [bit], rest);
  }

  lemma AheadIs(c: Command, rest: seq<bool>, data: seq<byte>, out: seq<byte>, limit: nat)
    ensures Ahead(c, rest, data, out, limit) == Decode(Path(c) + rest, Taken(c) + data, out, limit)
  {
  }

  /** A bit that completes a token leads to what its execution leads to. */
  lemma TokenComplete(c: Command, t: Token, bit: bool, rest: seq<bool>, data: seq<byte>, left: seq<byte>,
      out: seq<byte>, limit: nat)
    requires |out| < limit && Encodable(t)
    requires Control(t) == Path(c) + [bit]
    requires Data(t) + left == Taken(c) + data
    ensures var r := Execute(t, out, limit);
            Ahead(c, [bit] + rest, data, out, limit) == if r.Err? then r else Ahead(RESET, rest, left, r.value, limit)
  {
    hide Path, Taken, Control, Data, ParseToken, Execute, Decode;
    AheadIs(c, [bit] + rest, data, out, limit);
    Assoc(Path(c), [bit], rest);
    TokenIsRead(t, rest, left);
    DecodeOneToken(t, rest, left, out, limit);
    if Execute(t, out, limit).Ok? {
      FromReset(rest, left, Execute(t, out, limit).value, limit);
    }
  }

  lemma FromReset(rest: seq<bool>, left: seq<byte>, out: seq<byte>, limit: nat)
    ensures Ahead(RESET, rest, left, out, limit) == Decode(rest, left, out, limit)
  {
    hide Decode;
    assert Path(RESET) + rest == rest && Taken(RESET) + left == left;
  }

  lemma DecodeOneToken(t: Token, rest: seq<bool>, left: seq<byte>, out: seq<byte>, limit: nat)
    requires |out| < limit && Encodable(t)
    ensures var r := Execute(t, out, limit);
            Decode(Control(t) + rest, Data(t) + left, out, limit)
            == if r.Err? then r else Decode(rest, left, r.value, limit)
  {
    hide ParseToken, Execute, Control, Data;
    TokenIsRead(t, rest, left);
    var b, d := Control(t) + rest, Data(t) + left;
    assert b[|Control(t)|..] == rest && d[|Data(t)|..] == left;
  }

  /** A byte that is not there is needed. */
  lemma NoByteLeft(c: Command, bit: bool, rest: seq<bool>, out: seq<byte>, limit: nat)
    requires Underway(c) && |out| < limit
    requires if c.mode == 0 then !bit else if c.mode == 1 then c.state == B01 else c.vstate == V
    ensures Ahead(c, [bit] + rest, [], out, limit) == Err(Undefined)
  {
    hide Decode, ParseToken;
    AheadIs(c, [bit] + rest, [], out, limit);
    NoDataParses(c, bit, rest);
    StopsAt(Path(c) + ([bit] + rest), Taken(c) + [], out, limit);
  }

  lemma NoDataParses(c: Command, bit: bool, rest: seq<bool>)
    requires Underway(c)
    requires if c.mode == 0 then !bit else if c.mode == 1 then c.state == B01 else c.vstate == V
    ensures ParseToken(Path(c) + ([bit] + rest), Taken(c) + []) == NoData
  {
    hide ParseHigh;
    if c.mode == 2 {
      NoOffsetParses(c, [bit] + rest);
    }
  }

  lemma NoOffsetParses(c: Command, after: seq<bool>)
    requires Underway(c) && c.mode == 2 && c.vstate == V && after != []
    ensures ParseToken(Path(c) + after, Taken(c) + []) == NoData
  {
    hide ParseHigh, ParseToken, SizeCode;
    CopyIsRead(c.size, after, []);
    assert Path(c) + after == [true] + (SizeCode(c.size) + after);
    assert Taken(c) + [] == SizeBytes(c.size) + [];
  }

  lemma StopsAt(b: seq<bool>, d: seq<byte>, out: seq<byte>, limit: nat)
    requires |out| < limit
    ensures ParseToken(b, d) == NoData ==> Decode(b, d, out, limit) == Err(Undefined)
    ensures ParseToken(b, d) == Short ==> Decode(b, d, out, limit) == Ok(out)
  {
    hide ParseToken, Execute;
  }

  /** When the bits run out in the middle of a token, it is dropped. */
  lemma BitsRunOut(c: Command, data: seq<byte>, out: seq<byte>, limit: nat)
    requires Underway(c)
    ensures Ahead(c, [], data, out, limit) == Ok(out)
  {
    hide Decode, ParseToken;
    AheadIs(c, [], data, out, limit);
    assert Path(c) + [] == Path(c);
    UnfinishedParses(c, data);
    if |out| < limit {
      StopsAt(Path(c), Taken(c) + data, out, limit);
    } else {
      FullDecodes(Path(c), Taken(c) + data, out, limit);
    }
  }

  lemma FullDecodes(b: seq<bool>, d: seq<byte>, out: seq<byte>, limit: nat)
    requires |out| >= limit
    ensures Decode(b, d, out, limit) == Ok(out)
  {
  }

  lemma UnfinishedParses(c: Command, data: seq<byte>)
    requires Underway(c)
    ensures ParseToken(Path(c), Taken(c) + data) == Short
  {
    if c.mode == 2 {
      UnfinishedOffset(c, data);
    }
  }

  lemma UnfinishedOffset(c: Command, data: seq<byte>)
    requires Underway(c) && c.mode == 2
    ensures ParseToken(Path(c), Taken(c) + data) == Short
  {
    hide ParseToken, SizeCode, Digits, ParseHigh;
    var v := VStatePath(c);
    var d := (if c.vstate == V then [] else [c.offset % 256]) + data;
    CopyIsRead(c.size, v, d);
    assert Path(c) == [true] + (SizeCode(c.size) + v);
    assert Taken(c) + data == SizeBytes(c.size) + d;
    UnfinishedHigh(c);
  }

  lemma UnfinishedHigh(c: Command)
    requires c.patternDepth < 4
    ensures ParseHigh(VStatePath(c)) == None
  {
  }

  // ----- What each kind of step does to the path -----

  lemma StateStep(c: Command, next: State, bit: bool)
    requires c.mode == 1 && StatePath(next) == StatePath(c.state) + [bit]
    ensures var after := c.(state := next);
            Path(after) == Path(c) + [bit] && Taken(after) == Taken(c)
  {
    hide StatePath, SizeCode, VStatePath;
  }

  /** The size is known; one that a byte gives has taken that byte. */
  lemma SizeStep(c: Command, size: nat, bit: bool, data: seq<byte>, left: seq<byte>)
    requires Underway(c) && c.mode == 1 && SizeCode(size) == StatePath(c.state) + [bit]
    requires data == SizeBytes(size) + left
    ensures var after := c.(size := size, mode := 2);
            Path(after) == Path(c) + [bit] && Taken(after) + left == Taken(c) + data
  {
    hide StatePath, SizeCode;
    var after := c.(size := size, mode := 2);
    assert SizeCode(size) + VStatePath(after) == SizeCode(size);
    assert Taken(after) == SizeBytes(size);
    assert Taken(c) + data == data;
  }

  lemma ShortCopy(c: Command, next: byte, bit: bool, left: seq<byte>)
    requires c.mode == 1 && SizeCode(2) == StatePath(c.state) + [bit]
    ensures var t := Copy(2, next);
            Encodable(t) && Control(t) == Path(c) + [bit] && Data(t) + left == Taken(c) + ([next] + left)
  {
    hide StatePath, SizeCode;
    assert SizeCode(2) + [] == SizeCode(2);
    assert SizeBytes(2) + [next] == [next];
    assert Taken(c) + ([next] + left) == [next] + left;
  }

  /** The first bit of an offset takes the byte with its lower part. */
  predicate LowTaken(c: Command, low: nat, data: seq<byte>, left: seq<byte>) {
    low < 256 && if c.vstate == V then data == [low] + left else data == left && c.offset == low
  }

  lemma OffsetStep(c: Command, after: Command, bit: bool, data: seq<byte>, left: seq<byte>)
    requires c.mode == after.mode == 2 && c.size == after.size && after.vstate != V
    requires VStatePath(after) == VStatePath(c) + [bit] && LowTaken(c, after.offset, data, left)
    ensures Path(after) == Path(c) + [bit] && Taken(after) + left == Taken(c) + data
  {
    hide VStatePath, SizeCode;
    Assoc(SizeCode(c.size), VStatePath(c), [bit]);
    assert Path(after) == [true] + (SizeCode(c.size) + VStatePath(c) + [bit]);
    LowBytes(c, after.offset, data, left);
    Assoc(SizeBytes(c.size), [after.offset], left);
  }

  lemma LowBytes(c: Command, low: nat, data: seq<byte>, left: seq<byte>)
    requires c.mode == 2 && LowTaken(c, low, data, left)
    ensures Taken(c) + data == SizeBytes(c.size) + ([low] + left)
  {
    hide SizeBytes;
    if c.vstate == V {
      assert Taken(c) == SizeBytes(c.size);
    } else {
      assert Taken(c) == SizeBytes(c.size) + [low];
      Assoc(SizeBytes(c.size), [low], left);
    }
  }

  lemma OffsetDone(c: Command, high: nat, low: nat, bit: bool, data: seq<byte>, left: seq<byte>)
    requires Underway(c) && c.mode == 2 && high <= 22
    requires HighCode(high) == VStatePath(c) + [bit] && LowTaken(c, low, data, left)
    ensures var t := Copy(c.size, low + 256 * high);
            Encodable(t) && Control(t) == Path(c) + [bit] && Data(t) + left == Taken(c) + data
  {
    hide VStatePath, SizeCode, HighCode;
    var offset := low + 256 * high;
    assert offset / 256 == high && offset % 256 == low;
    Assoc(SizeCode(c.size), VStatePath(c), [bit]);
    Assoc([true], SizeCode(c.size) + VStatePath(c), [bit]);
    LowBytes(c, low, data, left);
    Assoc(SizeBytes(c.size), [low], left);
  }

  /** The moves of the offset automaton that complete no offset. */
  lemma OffsetPath(c: Command, after: Command, bit: bool)
    requires c.vstate != V01 && after.patternDepth == 0
    requires match c.vstate
             case V => !bit && after.vstate == V0
             case V0 => after.vstate == if bit then V01 else V00
             case V00 => after.vstate == if bit then V001 else V000
             case V001 => after.vstate == if bit then V0011 else V0010
             case _ => false
    ensures VStatePath(after) == VStatePath(c) + [bit]
  {
  }

  /** Those that do. */
  lemma HighPath(c: Command, high: nat, bit: bool)
    requires match c.vstate
             case V => bit && high == 0
             case V000 => high == 1 + Digit(bit)
             case V0010 => high == 3 + Digit(bit)
             case V0011 => high == 5 + Digit(bit)
             case _ => false
    ensures HighCode(high) == VStatePath(c) + [bit]
  {
  }

  lemma PatternPath(c: Command, bit: bool)
    requires Underway(c) && c.vstate == V01
    ensures var after := c.(pattern := 2 * c.pattern + Digit(bit), patternDepth := c.patternDepth + 1);
            && VStatePath(after) == VStatePath(c) + [bit]
            && after.pattern < Power(after.patternDepth)
            && (after.patternDepth == 4 ==> HighCode(after.pattern + 7) == VStatePath(after))
  {
    var n, depth := 2 * c.pattern + Digit(bit), c.patternDepth + 1;
    assert n / 2 == c.pattern && (n % 2 == 1) == bit;
    assert Digits(n, depth) == Digits(c.pattern, c.patternDepth) + [bit];
  }

  lemma TopBit(b: byte, left: nat, rest: seq<bool>)
    ensures Bits(b, left + 1) + rest == [b >= 128] + (Bits(ShiftLeft(b), left) + rest)
  {
    assert Bits(b, left + 1) == [b >= 128] + Bits(ShiftLeft(b), left);
  }

  class Decompressor {
    const src: seq<byte>
    const limit: nat
    var command: Command
    var sp: nat
    var out: seq<byte>

    /** The data bytes follow the control bytes, the last of which is at the signature. */
    constructor (src: seq<byte>, signature: nat, limit: nat)
      requires signature < |src|
      ensures this.src == src && this.limit == limit
      ensures command == RESET && sp == signature + 1 && out == [] && Valid()
    {
      this.src, this.limit := src, limit;
      command, sp, out := RESET, signature + 1, [];
    }

    ghost predicate Valid()
      reads this
    {
      Underway(command) && sp <= |src|
    }

    ghost function Total(rest: seq<bool>): Result<seq<byte>>
      requires sp <= |src|
      reads this
    {
      Ahead(command, rest, src[sp..], out, limit)
    }

    method ExecuteCopy(ghost was: Command, ghost bit: bool, ghost rest: seq<bool>, ghost data: seq<byte>)
      returns (error: Option<Error>)
      requires sp <= |src| && |out| < limit
      requires Encodable(Copy(command.size, command.offset))
      requires Control(Copy(command.size, command.offset)) == Path(was) + [bit]
      requires Data(Copy(command.size, command.offset)) + src[sp..] == Taken(was) + data
      modifies this`command, this`out
      ensures error.None? ==>
                Valid() && |out| <= limit && Total(rest) == Ahead(was, [bit] + rest, data, old(out), limit)
      ensures error.Some? ==> Ahead(was, [bit] + rest, data, old(out), limit) == Err(error.value)
    {
      hide Ahead, Path, Taken, Control, Data;
      TokenComplete(was, Copy(command.size, command.offset), bit, rest, data, src[sp..], out, limit);
      if |out| + 1 < command.offset || |out| - command.offset + 1 + command.size > limit {
        return Some(Corrupt);
      }
      if command.offset <= command.size || |out| + command.size > limit {
        return Some(Undefined);
      }
      var from := |out| - command.offset + 1;
      out := out + out[from..from + command.size];
      command := RESET;
      return None;
    }

    method AddSizeBit(bit: bool, ghost rest: seq<bool>) returns (error: Option<Error>)
      requires Valid() && command.mode == 1 && |out| < limit
      modifies this
      ensures error.None? ==> Valid() && |out| <= limit && Total(rest) == old(Total([bit] + rest))
      ensures error.Some? ==> old(Total([bit] + rest)) == Err(error.value)
    {
      hide Ahead, Digits, HighCode, Path, Taken, Control, Data;
      ghost var was, data := command, src[sp..];
      match command.state {
        case B => MoveTo(if bit then B1 else B0, bit);
        case B0 => if bit { MoveTo(B01, bit); } else { SetSize(3, bit); }
        case B1 => MoveTo(if bit then B11 else B10, bit);
        case B01 =>
          if sp == |src| {
            assert data == [];
            NoByteLeft(was, bit, rest, out, limit);
            return Some(Undefined);
          }
          var next: int := src[sp];
          sp := sp + 1;
          assert data == [next] + src[sp..];
          if !bit {
            command := command.(size := 2, mode := 3, offset := next);
            ShortCopy(was, next, bit, src[sp..]);
            error := ExecuteCopy(was, bit, rest, data);
            return;
          }
          command := command.(size := 10 + next, mode := 2);
          SizeStep(was, 10 + next, bit, data, src[sp..]);
        case B10 => SetSize(if bit then 5 else 4, bit);
        case B11 => MoveTo(if bit then B111 else B110, bit);
        case B110 => SetSize(if bit then 7 else 6, bit);
        case B111 => SetSize(if bit then 9 else 8, bit);
      }
      BitTaken(was, command, bit, rest, data, src[sp..], out, limit);
      return None;
    }

    method MoveTo(next: State, ghost bit: bool)
      requires Valid() && command.mode == 1 && StatePath(next) == StatePath(command.state) + [bit]
      modifies this`command
      ensures Valid() && command == old(command).(state := next)
      ensures Path(command) == Path(old(command)) + [bit] && Taken(command) == Taken(old(command))
    {
      StateStep(command, next, bit);
      command := command.(state := next);
    }

    method SetSize(size: nat, ghost bit: bool)
      requires Valid() && command.mode == 1 && SizeCode(size) == StatePath(command.state) + [bit] && 3 <= size < 10
      modifies this`command
      ensures Valid() && command == old(command).(size := size, mode := 2)
      ensures Path(command) == Path(old(command)) + [bit] && Taken(command) == Taken(old(command))
    {
      SizeStep(command, size, bit, [], []);
      command := command.(size := size, mode := 2);
    }

    method AddOffsetBit(bit: bool, ghost rest: seq<bool>) returns (error: Option<Error>)
      requires Valid() && command.mode == 2 && |out| < limit
      modifies this
      ensures error.None? ==> Valid() && |out| <= limit && Total(rest) == old(Total([bit] + rest))
      ensures error.Some? ==> old(Total([bit] + rest)) == Err(error.value)
    {
      hide Ahead, SizeCode, SizeBytes, Path, Taken, Control, Data, VStatePath, HighCode, Digits, Encodable;
      ghost var was, data := command, src[sp..];
      ghost var high := 0;
      match command.vstate {
        case V =>
          if sp == |src| {
            assert data == [];
            NoByteLeft(was, bit, rest, out, limit);
            return Some(Undefined);
          }
          command := command.(offset := src[sp]);
          sp := sp + 1;
          command := if bit then command.(mode := 3) else command.(vstate := V0);
        case V0 => command := command.(vstate := if bit then V01 else V00);
        case V01 =>
          PatternPath(command, bit);
          command := command.(pattern := 2 * command.pattern + Digit(bit), patternDepth := command.patternDepth + 1);
          if command.patternDepth == 4 {
            high := command.pattern + 7;
            command := command.(offset := command.offset + 256 * (command.pattern + 7), mode := 3);
          }
        case V00 => command := command.(vstate := if bit then V001 else V000);
        case V000 =>
          high := 1 + Digit(bit);
          command := command.(offset := command.offset + 256 * (1 + Digit(bit)), mode := 3);
        case V001 => command := command.(vstate := if bit then V0011 else V0010);
        case V0010 =>
          high := 3 + Digit(bit);
          command := command.(offset := command.offset + 256 * (3 + Digit(bit)), mode := 3);
        case V0011 =>
          high := 5 + Digit(bit);
          command := command.(offset := command.offset + 256 * (5 + Digit(bit)), mode := 3);
      }
      if command.mode == 3 {
        if was.vstate != V01 {
          HighPath(was, high, bit);
        }
        OffsetDone(was, high, command.offset - 256 * high, bit, data, src[sp..]);
        error := ExecuteCopy(was, bit, rest, data);
      } else {
        if was.vstate != V01 {
          OffsetPath(was, command, bit);
        }
        OffsetStep(was, command, bit, data, src[sp..]);
        BitTaken(was, command, bit, rest, data, src[sp..], out, limit);
        error := None;
      }
    }

    /** One control bit. However many bits follow, what is decoded in all stays the same. */
    method AddBit(bit: bool, ghost rest: seq<bool>) returns (error: Option<Error>)
      requires Valid() && |out| < limit
      modifies this
      ensures error.None? ==> Valid() && |out| <= limit && Total(rest) == old(Total([bit] + rest))
      ensures error.Some? ==> old(Total([bit] + rest)) == Err(error.value)
    {
      hide Ahead;
      ghost var was, data := command, src[sp..];
      if command.mode == 0 {
        if !bit {
          if sp == |src| {
            assert data == [];
            NoByteLeft(was, bit, rest, out, limit);
            return Some(Undefined);
          }
          out, sp := out + [src[sp]], sp + 1;
          assert data == [src[sp - 1]] + src[sp..];
          TokenComplete(was, Literal(src[sp - 1]), bit, rest, data, src[sp..], old(out), limit);
        } else {
          command := command.(mode := 1);
          BitTaken(was, command, bit, rest, data, src[sp..], out, limit);
        }
        error := None;
      } else if command.mode == 1 {
        error := AddSizeBit(bit, rest);
      } else {
        error := AddOffsetBit(bit, rest);
      }
    }

    /** Eight control bits, or as many as it takes to fill the output. */
    method ExecCommand(commandByte: byte, ghost rest: seq<bool>) returns (error: Option<Error>)
      requires Valid() && |out| < limit
      modifies this
      ensures error.None? ==> Valid() && |out| <= limit && Total(rest) == old(Total(Bits(commandByte, 8) + rest))
      ensures error.Some? ==> old(Total(Bits(commandByte, 8) + rest)) == Err(error.value)
    {
      hide Ahead, Bits, Underway;
      var i, left := 0, commandByte;
      ghost var total := Total(Bits(commandByte, 8) + rest);
      while i < 8
        invariant 0 <= i <= 8
        invariant Valid() && |out| < limit && Total(Bits(left, 8 - i) + rest) == total
      {
        ghost var after := Bits(ShiftLeft(left), 7 - i) + rest;
        TopBit(left, 7 - i, rest);
        error := AddBit(left >= 128, after);
        if error.Some? {
          return;
        }
        left, i := ShiftLeft(left), i + 1;
        if |out| >= limit {
          FullAhead(command, after, rest, src[sp..], out, limit);
          return;
        }
      }
      assert Bits(left, 0) + rest == rest;
      return None;
    }
  }

  lemma FullAhead(c: Command, one: seq<bool>, other: seq<bool>, data: seq<byte>, out: seq<byte>, limit: nat)
    requires |out| >= limit
    ensures Ahead(c, one, data, out, limit) == Ahead(c, other, data, out, limit) == Ok(out)
  {
  }

  lemma NextEight(stream: seq<byte>, i: nat)
    requires i < |stream|
    ensures StreamBits(stream, i) == Bits(stream[i], 8) + StreamBits(stream, i + 1)
  {
  }

  lemma NoMoreBits(stream: seq<byte>, i: nat)
    requires i >= |stream|
    ensures StreamBits(stream, i) == []
  {
  }

  /** decompress_block decodes the bits of the control bytes and the bytes behind them. The source does not check that
      the control bytes are there. */
  method DecompressBlock(src: seq<byte>, signature: nat, length: nat) returns (r: Result<seq<byte>>)
    ensures length == 0 ==> r == Ok([])
    ensures length > 0 && signature >= |src| ==> r == Err(Undefined)
    ensures length > 0 && signature < |src| ==>
            r == Decode(StreamBits(src[..signature + 1], 0), src[signature + 1..], [], length)
  {
    hide Ahead, Decode, StreamBits, Bits, Underway;
    if length == 0 {
      return Ok([]);
    }
    if signature >= |src| {
      return Err(Undefined);
    }
    var d := new Decompressor(src, signature, length);
    var pc := 0;
    ghost var control := src[..signature + 1];
    ghost var total := Decode(StreamBits(control, 0), src[signature + 1..], [], length);
    FromReset(StreamBits(control, 0), src[signature + 1..], [], length);
    while pc <= signature && |d.out| != length
      invariant pc <= signature + 1
      invariant d.Valid() && d.src == src && d.limit == length && |d.out| <= length
      invariant d.Total(StreamBits(control, pc)) == total
    {
      NextEight(control, pc);
      pc := pc + 1;
      var error := d.ExecCommand(src[pc - 1], StreamBits(control, pc));
      if error.Some? {
        return Err(error.value);
      }
    }
    if |d.out| == length {
      FullAhead(d.command, StreamBits(control, pc), [], d.src[d.sp..], d.out, length);
    } else {
      NoMoreBits(control, pc);
      BitsRunOut(d.command, d.src[d.sp..], d.out, length);
    }
    r := Ok(d.out);
  }

  // ----- The encoder, and the round trip -----

  /** Bits in bytes, the last byte filled up with zeros. */
  function Packed(bits: seq<bool>): seq<byte> {
    if bits == [] then []
    else if |bits| < 8 then [SymbolIndex(bits + Repeat(false, 8 - |bits|))]
    else [SymbolIndex(bits[..8])] + Packed(bits[8..])
  }

  lemma {:induction false} SameValueSameBits(x: seq<bool>, y: seq<bool>)
    requires |x| == |y| && BinaryValue(x) == BinaryValue(y)
    ensures x == y
  {
    if x != [] {
      var n := |x| - 1;
      SameValueSameBits(x[..n], y[..n]);
      assert x == x[..n] + [x[n]] && y == y[..n] + [y[n]];
    }
  }

  lemma ByteIsUnpacked(x: seq<bool>, n: nat)
    requires |x| == n == 8
    ensures Bits(SymbolIndex(x), n) == x
  {
    hide Bits, SymbolIndex, BinaryValue;
    SymbolIndexIsValue(x);
    EightBits(SymbolIndex(x), n);
    SameValueSameBits(Bits(SymbolIndex(x), n), x);
  }

  /** How many zeros fill the last byte. */
  function Filler(bits: seq<bool>): seq<bool> {
    if bits == [] then [] else if |bits| < 8 then Repeat(false, 8 - |bits|) else Filler(bits[8..])
  }

  lemma {:induction false} Unpacked(bits: seq<bool>, before: seq<byte>)
    ensures StreamBits(before + Packed(bits), |before|) == bits + Filler(bits)
    decreases |bits|
  {
    hide Bits, SymbolIndex;
    var stream := before + Packed(bits);
    if bits != [] {
      var x := if |bits| < 8 then bits + Repeat(false, 8 - |bits|) else bits[..8];
      var rest := if |bits| < 8 then [] else bits[8..];
      ByteIsUnpacked(x, 8);
      assert Packed(bits) == [SymbolIndex(x)] + Packed(rest);
      assert stream == before + [SymbolIndex(x)] + Packed(rest);
      Unpacked(rest, before + [SymbolIndex(x)]);
      NextEight(stream, |before|);
      assert bits + Filler(bits) == x + (rest + Filler(rest));
    } else {
      NoMoreBits(stream, |before|);
    }
  }

  /** Tokens as they are stored: the control bits in bytes, then the data bytes. */
  function Encoded(tokens: seq<Token>): seq<byte> {
    Packed(ControlBits(tokens)) + DataBytes(tokens)
  }

  function LastControlByte(tokens: seq<Token>): int {
    |Packed(ControlBits(tokens))| - 1
  }

  lemma SomethingExpands(tokens: seq<Token>)
    requires tokens != [] && (forall i :: 0 <= i < |tokens| ==> Encodable(tokens[i])) && AllPossible(tokens, [])
    ensures Expanded(tokens, []) != [] && 0 <= LastControlByte(tokens) < |Encoded(tokens)|
  {
    hide Encodable, SymbolIndex, Possible;
    EveryTokenWrites(tokens[0], []);
    assert ControlBits(tokens) != [];
  }

  /** Decompressing the canonical encoding of a token list yields its expansion. */
  lemma DecompressionInvertsEncoding(tokens: seq<Token>)
    requires tokens != [] && forall i :: 0 <= i < |tokens| ==> Encodable(tokens[i])
    requires AllPossible(tokens, [])
    ensures var src, signature, x := Encoded(tokens), LastControlByte(tokens), Expanded(tokens, []);
            && x != [] && 0 <= signature < |src|
            && Decode(StreamBits(src[..signature + 1], 0), src[signature + 1..], [], |x|) == Ok(x)
  {
    hide Packed, Decode, Filler, AllPossible, Expanded, Encodable, ControlBits, DataBytes, StreamBits;
    SomethingExpands(tokens);
    var bits := ControlBits(tokens);
    var control, src := Packed(bits), Encoded(tokens);
    Unpacked(bits, []);
    assert [] + Packed(bits) == control;
    assert src[..|control|] == control && src[|control|..] == DataBytes(tokens);
    assert DataBytes(tokens) + [] == DataBytes(tokens);
    DecodeInvertsEncoding(tokens, Filler(bits), [], []);
  }
}
