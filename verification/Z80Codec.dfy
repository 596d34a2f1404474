/** The run-length codec of the .z80 snapshot format (z80.c): the byte 0xED escapes a run. */
module Z80Codec {
  import opened Bytes

  const ED: byte := 0xed

  // ----- Compression -----

  /** Where the run that starts at x[i] ends, looking from index j on; at most 255 bytes count. */
  function RunEnd(x: seq<byte>, i: nat, j: nat): (r: nat)
    requires i < j <= |x| && j <= i + 255
    requires forall k :: i <= k < j ==> x[k] == x[i]
    ensures j <= r <= |x| && r <= i + 255
    ensures forall k :: i <= k < r ==> x[k] == x[i]
    ensures r == i + 255 || r == |x| || x[r] != x[i]
    decreases |x| - j
  {
    if j < |x| && x[j] == x[i] && j < i + 255 then RunEnd(x, i, j + 1) else j
  }

  function Token(b: byte, run: nat): (t: seq<byte>)
    requires 2 <= run <= 255
  {
    if run >= 5 || b == ED then [ED, ED, run, b] else Repeat(b, run)
  }

  /** The compressed form of x[i..], given whether the byte just written was a lone 0xED. */
  function Compress(x: seq<byte>, i: nat, lastCharEd: bool): (c: seq<byte>)
    requires i <= |x|
    ensures i < |x| ==> c != []
    decreases |x| - i
  {
    if i == |x| then []
    else if i == |x| - 1 then [x[i]]
    else if x[i] == x[i + 1] && !lastCharEd then
      var end := RunEnd(x, i, i + 2);
      Token(x[i], end - i) + Compress(x, end, false)
    else
      [x[i]] + Compress(x, i + 1, x[i] == ED)
  }

  function Compressed(x: seq<byte>): seq<byte> {
    Compress(x, 0, false)
  }

  /** A lone 0xED is never followed by another 0xED: what the flag guarantees at every turn. */
  ghost predicate FlagAgrees(x: seq<byte>, i: nat, lastCharEd: bool) {
    i <= |x| && (lastCharEd && i < |x| ==> x[i] != ED)
  }

  /** The loop that measures a run; src[i] and src[i + 1] are already known to be equal. */
  method MeasureRun(src: seq<byte>, i: nat) returns (end: nat)
    requires i + 2 <= |src| && src[i] == src[i + 1]
    ensures end == RunEnd(src, i, i + 2)
  {
    end := i + 2;
    while end < |src| && src[end] == src[i] && end - i < 255
      invariant i + 2 <= end <= |src| && end <= i + 255
      invariant forall k :: i <= k < end ==> src[k] == src[i]
      invariant RunEnd(src, i, end) == RunEnd(src, i, i + 2)
    {
      end := end + 1;
    }
  }

  /** Bytes done and bytes to do make up the whole; a turn moves t from one to the other. */
  lemma TurnKeepsWhole(whole: seq<byte>, done: seq<byte>, todo: seq<byte>, t: seq<byte>, todo': seq<byte>)
    requires whole == done + todo && todo == t + todo'
    ensures whole == (done + t) + todo'
  {
  }

  lemma CompressStep(x: seq<byte>, i: nat, lastCharEd: bool)
    requires i <= |x|
    ensures i == |x| ==> Compress(x, i, lastCharEd) == []
    ensures i + 1 == |x| ==> Compress(x, i, lastCharEd) == [x[i]]
    ensures i + 1 < |x| && x[i] == x[i + 1] && !lastCharEd ==>
              var end := RunEnd(x, i, i + 2);
              Compress(x, i, lastCharEd) == Token(x[i], end - i) + Compress(x, end, false)
    ensures i + 1 < |x| && !(x[i] == x[i + 1] && !lastCharEd) ==>
              Compress(x, i, lastCharEd) == [x[i]] + Compress(x, i + 1, x[i] == ED)
  {
  }

  method CompressBlock(src: seq<byte>) returns (dest: seq<byte>)
    ensures dest == Compressed(src)
  {
    hide Compress, RunEnd;
    dest := [];
    var i, lastCharEd := 0, false;
    ghost var todo := Compressed(src);
    while i < |src|
      invariant i <= |src|
      invariant todo == Compress(src, i, lastCharEd)
      invariant Compressed(src) == dest + todo
    {
      CompressStep(src, i, lastCharEd);
      var t: seq<byte>;
      if i == |src| - 1 {
        t := [src[i]];
        i := i + 1;
      } else if src[i] == src[i + 1] && !lastCharEd {
        var end := MeasureRun(src, i);
        var run := end - i;
        if run >= 5 || src[i] == ED {
          t := [ED, ED, run, src[i]];
        } else {
          t := Repeat(src[i], run);
        }
        i := end;
      } else {
        lastCharEd := src[i] == ED;
        t := [src[i]];
        i := i + 1;
      }
      ghost var todo' := Compress(src, i, lastCharEd);
      CompressStep(src, i, lastCharEd);
      assert todo == t + todo';
      TurnKeepsWhole(Compressed(src), dest, todo, t, todo');
      todo := todo';
      dest := dest + t;
    }
    CompressStep(src, i, lastCharEd);
    assert dest + [] == dest;
  }

  // ----- Decompression -----

  function Prepend(p: seq<byte>, r: Option<seq<byte>>): Option<seq<byte>> {
    match r
    case None => None
    case Some(x) => Some(p + x)
  }

  lemma PrependNothing(r: Option<seq<byte>>)
    ensures Prepend([], r) == r
  {
    if r.Some? {
      assert [] + r.value == r.value;
    }
  }

  lemma PrependTwice(p: seq<byte>, q: seq<byte>, r: Option<seq<byte>>)
    ensures Prepend(p, Prepend(q, r)) == Prepend(p + q, r)
  {
    if r.Some? {
      assert p + (q + r.value) == p + q + r.value;
    }
  }

  /** The bytes that the first n bytes of s expand to. A run that is cut off takes its count and
      byte from what follows in the caller's buffer; None when the buffer ends there too. */
  function Uncompress(s: seq<byte>, n: int): (r: Option<seq<byte>>)
    requires n <= |s|
    decreases |s|
  {
    if n <= 0 then Some([])
    else if n == 1 then Some([s[0]])
    else if s[0] == ED && s[1] == ED then
      if |s| < 4 then None else Prepend(Repeat(s[3], s[2]), Uncompress(s[4..], n - 4))
    else Prepend([s[0]], Uncompress(s[1..], n - 1))
  }

  /** A byte that does not start a run stands for itself, be it the last one or not. */
  lemma UncompressByte(b: byte, rest: seq<byte>, n: nat)
    requires n <= |rest|
    requires !(b == ED && n > 0 && rest[0] == ED)
    ensures Uncompress([b] + rest, n + 1) == Prepend([b], Uncompress(rest, n))
  {
    var s := [b] + rest;
    assert s[1..] == rest;
    if n == 0 {
      assert [b] + [] == [b];
    }
  }

  method UncompressBlock(src: seq<byte>, length: nat) returns (dest: Option<seq<byte>>)
    requires length <= |src|
    ensures dest == Uncompress(src, length)
  {
    var out: seq<byte>, i := [], 0;
    assert src[0..] == src;
    PrependNothing(Uncompress(src, length));
    while i < length
      invariant i <= |src|
      invariant Uncompress(src, length) == Prepend(out, Uncompress(src[i..], length - i))
      decreases length - i
    {
      ghost var left, rest := length - i, src[i..];
      var written: seq<byte>;
      if i == length - 1 {
        written := [src[i]];
        i := i + 1;
        assert rest == written + src[i..];
        UncompressByte(written[0], src[i..], 0);
      } else if src[i] == ED && src[i + 1] == ED {
        if i + 4 > |src| {
          return None;
        }
        var run, repeated := src[i + 2], src[i + 3];
        written := Repeat(repeated, run);
        i := i + 4;
        assert rest[4..] == src[i..];
      } else {
        written := [src[i]];
        i := i + 1;
        assert rest[1..] == src[i..];
      }
      PrependTwice(out, written, Uncompress(src[i..], length - i));
      out := out + written;
    }
    assert out + [] == out;
    dest := Some(out);
  }

  // ----- Round trip -----

  /** A byte other than the escape decodes to itself, so a stretch of them does. */
  lemma {:induction false} UncompressLiterals(b: byte, k: nat, rest: seq<byte>, n: nat)
    requires b != ED && n <= |rest|
    ensures Uncompress(Repeat(b, k) + rest, k + n) == Prepend(Repeat(b, k), Uncompress(rest, n))
  {
    var s := Repeat(b, k) + rest;
    if k == 0 {
      assert s == rest;
      PrependNothing(Uncompress(rest, n));
    } else {
      assert s[1..] == Repeat(b, k - 1) + rest;
      UncompressLiterals(b, k - 1, rest, n);
      PrependTwice([b], Repeat(b, k - 1), Uncompress(rest, n));
      assert Repeat(b, k) == [b] + Repeat(b, k - 1);
      assert s == [b] + (Repeat(b, k - 1) + rest);
      UncompressByte(b, Repeat(b, k - 1) + rest, k - 1 + n);
    }
  }

  /** A token followed by anything decodes to its run. */
  lemma UncompressToken(b: byte, run: nat, rest: seq<byte>, n: nat)
    requires 2 <= run <= 255 && n <= |rest|
    ensures Uncompress(Token(b, run) + rest, |Token(b, run)| + n) == Prepend(Repeat(b, run), Uncompress(rest, n))
  {
    if run >= 5 || b == ED {
      var s := Token(b, run) + rest;
      assert s[4..] == rest;
    } else {
      UncompressLiterals(b, run, rest, n);
    }
  }

  /** Decompressing exactly c gives y, whatever comes after it in the buffer. */
  ghost predicate Decodes(c: seq<byte>, y: seq<byte>) {
    forall after: seq<byte> :: Uncompress(c + after, |c|) == Some(y)
  }

  lemma DecodeAfterByte(b: byte, c: seq<byte>, y: seq<byte>)
    requires Decodes(c, y)
    requires !(b == ED && c != [] && c[0] == ED)
    ensures Decodes([b] + c, [b] + y)
  {
    forall after: seq<byte> ensures Uncompress([b] + c + after, |[b] + c|) == Some([b] + y) {
      Assoc([b], c, after);
      UncompressByte(b, c + after, |c|);
    }
  }

  lemma DecodeAfterToken(b: byte, run: nat, c: seq<byte>, y: seq<byte>)
    requires 2 <= run <= 255 && Decodes(c, y)
    ensures Decodes(Token(b, run) + c, Repeat(b, run) + y)
  {
    var t := Token(b, run);
    forall after: seq<byte> ensures Uncompress(t + c + after, |t + c|) == Some(Repeat(b, run) + y) {
      Assoc(t, c, after);
      UncompressToken(b, run, c + after, |c|);
    }
  }

  lemma SuffixRun(x: seq<byte>, i: nat, end: nat)
    requires i < end <= |x| && forall k :: i <= k < end ==> x[k] == x[i]
    ensures x[i..] == Repeat(x[i], end - i) + x[end..]
  {
  }

  lemma {:induction false} RoundTripFrom(x: seq<byte>, i: nat, lastCharEd: bool)
    requires FlagAgrees(x, i, lastCharEd)
    ensures Decodes(Compress(x, i, lastCharEd), x[i..])
    decreases |x| - i
  {
    if i == |x| {
    } else if i == |x| - 1 {
      DecodeAfterByte(x[i], [], []);
      assert x[i..] == [x[i]] == [x[i]] + [];
    } else if x[i] == x[i + 1] && !lastCharEd {
      var end := RunEnd(x, i, i + 2);
      RoundTripFrom(x, end, false);
      DecodeAfterToken(x[i], end - i, Compress(x, end, false), x[end..]);
      SuffixRun(x, i, end);
    } else {
      RoundTripFrom(x, i + 1, x[i] == ED);
      DecodeAfterByte(x[i], Compress(x, i + 1, x[i] == ED), x[i + 1..]);
      assert x[i..] == [x[i]] + x[i + 1..];
    }
  }

  /** uncompress_block undoes compress_block on every byte string, whatever follows in the buffer. */
  lemma RoundTrip(x: seq<byte>, after: seq<byte>)
    ensures Uncompress(Compressed(x) + after, |Compressed(x)|) == Some(x)
  {
    RoundTripFrom(x, 0, false);
  }

  // ----- Size -----

  /** The worst expansion: pairs of 0xED, each followed by one other byte, end to end. */
  lemma {:induction false} SizeBoundFrom(x: seq<byte>, i: nat, lastCharEd: bool)
    requires FlagAgrees(x, i, lastCharEd)
    ensures 3 * |Compress(x, i, lastCharEd)| <= 5 * (|x| - i) + (if i < |x| && x[i] == ED then 2 else 0)
    decreases |x| - i
  {
    if i + 1 < |x| {
      if x[i] == x[i + 1] && !lastCharEd {
        SizeBoundFrom(x, RunEnd(x, i, i + 2), false);
      } else {
        SizeBoundFrom(x, i + 1, x[i] == ED);
      }
    }
  }

  lemma SizeBound(x: seq<byte>)
    ensures 3 * |Compressed(x)| <= 5 * |x| + 2
  {
    SizeBoundFrom(x, 0, false);
  }

  /** The bound is met, so no smaller constant would do. */
  lemma SizeBoundIsMet()
    ensures Compressed([ED, ED]) == [ED, ED, 2, ED]
    ensures 3 * |Compressed([ED, ED])| == 5 * |[ED, ED]| + 2
  {
    var x := [ED, ED];
    assert RunEnd(x, 0, 2) == 2;
    assert Compress(x, 0, false) == Token(ED, 2) + Compress(x, 2, false);
  }

  lemma {:induction false} RunEndBehind(x: seq<byte>, m: nat, i: nat, j: nat)
    requires m <= |x| && i < j <= |x| - m && j <= i + 255
    requires forall k :: m + i <= k < m + j ==> x[k] == x[m + i]
    ensures RunEnd(x, m + i, m + j) == m + RunEnd(x[m..], i, j)
    decreases |x| - m - j
  {
    if m + j < |x| && x[m + j] == x[m + i] && j < i + 255 {
      RunEndBehind(x, m, i, j + 1);
    }
  }

  /** What is compressed depends on nothing in front of it. */
  lemma {:induction false} CompressBehind(x: seq<byte>, m: nat, i: nat, lastCharEd: bool)
    requires m <= |x| && i <= |x| - m
    ensures Compress(x, m + i, lastCharEd) == Compress(x[m..], i, lastCharEd)
    decreases |x| - m - i
  {
    hide Compress, RunEnd, Token;
    var y := x[m..];
    CompressStep(x, m + i, lastCharEd);
    CompressStep(y, i, lastCharEd);
    if m + i + 1 < |x| {
      assert y[i] == x[m + i] && y[i + 1] == x[m + i + 1];
      if x[m + i] == x[m + i + 1] && !lastCharEd {
        RunEndBehind(x, m, i, i + 2);
        CompressBehind(x, m, RunEnd(y, i, i + 2), false);
      } else {
        CompressBehind(x, m, i + 1, x[m + i] == ED);
      }
    }
  }

  /** A run of five bytes or more is coded as ED ED, its length and the byte, and so are two bytes ED. */
  lemma RunIsCoded(b: byte, n: nat)
    requires 1 <= n <= 255
    ensures Compressed(Repeat(b, n))
         == if n >= 5 || (b == 0xed && n >= 2) then [0xed, 0xed, n, b] else Repeat(b, n)
  {
    var x := Repeat(b, n);
    CompressStep(x, 0, false);
    if n >= 2 {
      assert RunEnd(x, 0, 2) == n && Compress(x, n, false) == [];
      assert Token(b, n) + [] == Token(b, n);
    }
  }

  /** Behind a single ED a byte is never coded, and the rest is compressed on its own. */
  lemma SingleEd(b: byte, rest: seq<byte>)
    requires b != 0xed
    ensures Compressed([0xed, b] + rest) == [0xed, b] + Compressed(rest)
  {
    var x := [0xed, b] + rest;
    assert x[2..] == rest;
    CompressBehind(x, 2, 0, false);
    assert Compress(x, 1, true) == [b] + Compress(x, 2, false);
    assert Compressed(x) == [0xed] + Compress(x, 1, true);
  }

  // ----- The end marker of version 1 files -----

  const MARKER: seq<byte> := [0x00, 0xed, 0xed, 0x00]

  predicate MarkerAt(s: seq<byte>, i: nat) {
    i + 4 <= |s| && s[i] == 0x00 && s[i + 1] == 0xed && s[i + 2] == 0xed && s[i + 3] == 0x00
  }

  /** The scanner stops just past the first marker and fails exactly when there is none. */
  method FindEnd(buffer: seq<byte>) returns (end: Option<nat>)
    ensures end.Some? ==> end.value >= 4 && MarkerAt(buffer, end.value - 4)
    ensures end.Some? ==> forall j :: 0 <= j < end.value - 4 ==> !MarkerAt(buffer, j)
    ensures end.None? <==> forall j :: 0 <= j ==> !MarkerAt(buffer, j)
  {
    var i, state := 0, 0;
    while state != 4
      invariant i <= |buffer| && 0 <= state <= 4 && state <= i
      invariant state == 4 <==> i >= 4 && MarkerAt(buffer, i - 4)
      invariant forall j :: 0 <= j < i - 4 ==> !MarkerAt(buffer, j)
      invariant state != 4 ==>
          && (state == 1 <==> i >= 1 && buffer[i - 1] == 0)
          && (state == 2 <==> i >= 2 && buffer[i - 2] == 0 && buffer[i - 1] == ED)
          && (state == 3 <==> i >= 3 && buffer[i - 3] == 0 && buffer[i - 2] == ED && buffer[i - 1] == ED)
      decreases |buffer| - i, 4 - state
    {
      if i == |buffer| {
        return None;
      }
      var b := buffer[i];
      i := i + 1;
      state := match state
        case 0 => if b == 0x00 then 1 else 0
        case 1 => if b == 0x00 then 1 else if b == 0xed then 2 else 0
        case 2 => if b == 0x00 then 1 else if b == 0xed then 3 else 0
        case _ => if b == 0x00 then 4 else 0;
    }
    end := Some(i);
  }

  /** Compressed bytes followed by the marker never start with ED ED 00. */
  lemma NoRunOfZero(x: seq<byte>, i: nat, lastCharEd: bool, after: seq<byte>)
    requires FlagAgrees(x, i, lastCharEd) && MARKER <= after
    ensures var s := Compress(x, i, lastCharEd) + after;
            !(|s| >= 3 && s[0] == ED && s[1] == ED && s[2] == 0)
  {
    assert after[0] == 0;
  }

  /** A marker in t + rest starts in rest, or at the last byte of t, or lies early in t. */
  lemma MarkerInConcat(t: seq<byte>, rest: seq<byte>, j: nat)
    requires MarkerAt(t + rest, j)
    ensures j >= |t| ==> MarkerAt(rest, j - |t|)
    ensures j == |t| - 1 ==> |rest| >= 3 && rest[0] == ED && rest[1] == ED && rest[2] == 0
    ensures j + 1 < |t| ==> t[j] == 0 && t[j + 1] == ED
  {
    var s := t + rest;
    if j == |t| - 1 {
      assert s[j + 1] == rest[0] && s[j + 2] == rest[1] && s[j + 3] == rest[2];
    }
  }

  /** No marker begins inside compressed bytes, not even one that reaches into what follows. */
  lemma {:induction false} NoMarkerInside(x: seq<byte>, i: nat, lastCharEd: bool, after: seq<byte>, j: nat)
    requires FlagAgrees(x, i, lastCharEd) && MARKER <= after
    requires j < |Compress(x, i, lastCharEd)|
    ensures !MarkerAt(Compress(x, i, lastCharEd) + after, j)
    decreases |x| - i
  {
    hide Compress, RunEnd;
    CompressStep(x, i, lastCharEd);
    if MarkerAt(Compress(x, i, lastCharEd) + after, j) {
      var runs := i + 1 < |x| && x[i] == x[i + 1] && !lastCharEd;
      var next := if runs then RunEnd(x, i, i + 2) else i + 1;
      var flag := i + 1 < |x| && !runs && x[i] == ED;
      var t := if runs then Token(x[i], next - i) else [x[i]];
      var c := Compress(x, next, flag);
      assert Compress(x, i, lastCharEd) == t + c;
      Assoc(t, c, after);
      MarkerInConcat(t, c + after, j);
      if j >= |t| {
        NoMarkerInside(x, next, flag, after, j - |t|);
      } else {
        NoRunOfZero(x, next, flag, after);
      }
      assert false;
    }
  }

  /** So scanning a compressed block and its marker recovers exactly that block. */
  lemma FirstMarkerEndsBlock(x: seq<byte>, after: seq<byte>)
    requires MARKER <= after
    ensures var c := Compressed(x);
            MarkerAt(c + after, |c|) && forall j :: 0 <= j < |c| ==> !MarkerAt(c + after, j)
  {
    var c := Compressed(x);
    assert (c + after)[|c|..][..4] == after[..4] == MARKER;
    forall j | 0 <= j < |c| ensures !MarkerAt(c + after, j) {
      NoMarkerInside(x, 0, false, after, j);
    }
  }
}
