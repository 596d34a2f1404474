/** A hard disk image and the cache of sectors written to it (ide.c:262-295, 410-510). */
module Drives {
  import opened Bytes
  import opened HashTable

  /** Where a sector lies in the image: the sum is made in unsigned 32-bit arithmetic. */
  function Position(offset: word, size: nat, n: nat): nat {
    (offset + size * n) % DWORD_MODULUS
  }

  predicate Holds(file: seq<byte>, offset: word, size: nat, total: nat) {
    && (size == 256 || size == 512)
    && total <= DWORD_MODULUS
    && forall n :: 0 <= n < total ==> Position(offset, size, n) + size <= |file|
  }

  function Stored(file: seq<byte>, offset: word, size: nat, n: nat): seq<byte>
    requires Position(offset, size, n) + size <= |file|
  {
    var p := Position(offset, size, n);
    file[p..p + size]
  }

  /** Sector n lies behind the header and the n sectors before it, as far as 32 bits go. */
  lemma SectorsAreInOrder(file: seq<byte>, offset: word, size: nat, n: nat)
    requires offset + size * n + size <= DWORD_MODULUS && 0 < size && offset + size * n + size <= |file|
    ensures Position(offset, size, n) + size <= |file|
    ensures Stored(file, offset, size, n) == file[offset + size * n..][..size]
  {
    assert offset + size * n < DWORD_MODULUS;
    assert Position(offset, size, n) == offset + size * n;
  }

  function Splice(file: seq<byte>, p: nat, value: seq<byte>): (r: seq<byte>)
    requires p + |value| <= |file|
    ensures |r| == |file|
  {
    file[..p] + value + file[p + |value|..]
  }

  lemma SpliceAt(file: seq<byte>, p: nat, value: seq<byte>)
    requires p + |value| <= |file|
    ensures Splice(file, p, value)[p..p + |value|] == value
  {
  }

  lemma SpliceElsewhere(file: seq<byte>, p: nat, value: seq<byte>, q: nat, size: nat)
    requires p + |value| <= |file| && q + size <= |file|
    requires q + size <= p || p + |value| <= q
    ensures Splice(file, p, value)[q..q + size] == file[q..q + size]
  {
  }

  // ----- Which sectors lie apart -----

  /** No two sectors overlap as long as the image, without its header, is no longer than 4 Gb. */
  lemma SectorsLieApart(offset: word, size: nat, n: nat, m: nat)
    requires (size == 256 || size == 512) && n < m && size * (m + 1) <= DWORD_MODULUS
    ensures var p, q := Position(offset, size, n), Position(offset, size, m); p + size <= q || q + size <= p
  {
    var k := if size == 256 then 256 else 512;
    Wrapped(offset + k * n);
    Wrapped(offset + k * m);
  }

  lemma Wrapped(x: nat)
    requires x < DWORD_MODULUS + WORD_MODULUS
    ensures x % DWORD_MODULUS == if x < DWORD_MODULUS then x else x - DWORD_MODULUS
  {
  }

  /** The first sector beyond that is the same place as sector 0. */
  lemma SectorsMeet(offset: word, size: nat)
    requires size == 256 || size == 512
    ensures Position(offset, size, DWORD_MODULUS / size) == Position(offset, size, 0) == offset
  {
    assert size * (DWORD_MODULUS / size) == DWORD_MODULUS;
    assert (offset + DWORD_MODULUS) % DWORD_MODULUS == offset;
  }

  // ----- Writing the cache to the image -----

  /** write_to_disk: the node may go once it is written. */
  function WriteToDisk(offset: word, size: nat, node: Node, file: seq<byte>): (bool, seq<byte>) {
    var p := Position(offset, size, node.key);
    if |node.value| == size && p + size <= |file| then (true, Splice(file, p, node.value)) else (false, file)
  }

  function Writer(offset: word, size: nat): (Node, seq<byte>) -> (bool, seq<byte>) {
    (node, file) => WriteToDisk(offset, size, node, file)
  }

  predicate Sectors(chain: seq<Node>, size: nat, total: nat) {
    forall i :: 0 <= i < |chain| ==> chain[i].key < total && |chain[i].value| == size
  }

  /** What is stored at a sector afterwards: what the chain held for it, or what was there before. */
  predicate Written(chain: seq<Node>, offset: word, size: nat, n: dword, file: seq<byte>, after: seq<byte>)
    requires Position(offset, size, n) + size <= |file| && |after| == |file|
  {
    Stored(after, offset, size, n) ==
    if Find(chain, n).Some? then Find(chain, n).value else Stored(file, offset, size, n)
  }

  lemma OneIsWritten(node: Node, offset: word, size: nat, total: nat, file: seq<byte>, n: dword)
    requires Holds(file, offset, size, total)
    requires node.key < total && |node.value| == size && n < total
    ensures var (gone, after) := WriteToDisk(offset, size, node, file);
            && gone && |after| == |file|
            && (size * total <= DWORD_MODULUS ==>
                  Stored(after, offset, size, n) == if n == node.key then node.value else Stored(file, offset, size, n))
  {
    hide Position;
    assert Position(offset, size, node.key) + size <= |file|;
    var p, q := Position(offset, size, node.key), Position(offset, size, n);
    if n == node.key {
      SpliceAt(file, p, node.value);
    } else if size * total <= DWORD_MODULUS {
      var lo: nat, hi: nat := if n < node.key then n else node.key, if n < node.key then node.key else n;
      assert size * (hi + 1) <= size * total;
      SectorsLieApart(offset, size, lo, hi);
      SpliceElsewhere(file, p, node.value, q, size);
    }
  }

  lemma {:induction false} ChainIsWritten(chain: seq<Node>, bucket: nat, offset: word, size: nat, total: nat,
      file: seq<byte>, n: dword)
    requires Holds(file, offset, size, total)
    requires Proper(chain, bucket) && Sectors(chain, size, total) && n < total
    ensures var (rest, after) := Sweep(chain, Writer(offset, size), file);
            && rest == [] && |after| == |file|
            && (size * total <= DWORD_MODULUS ==> Written(chain, offset, size, n, file, after))
  {
    hide Position, WriteToDisk, Stored;
    assert Position(offset, size, n) + size <= |file|;
    if chain != [] {
      OneIsWritten(chain[0], offset, size, total, file, n);
      var after := WriteToDisk(offset, size, chain[0], file).1;
      ChainIsWritten(chain[1..], bucket, offset, size, total, after, n);
      if n == chain[0].key {
        FindNone(chain[1..], n);
      }
    }
  }

  /** The chains from some bucket on. */
  predicate ProperFrom(nodes: seq<seq<Node>>, first: nat, size: nat, total: nat) {
    forall i :: 0 <= i < |nodes| ==> Proper(nodes[i], first + i) && Sectors(nodes[i], size, total)
  }

  function FindFrom(nodes: seq<seq<Node>>, first: nat, n: dword): Option<seq<byte>> {
    if first <= n % BUCKETS < first + |nodes| then Find(nodes[n % BUCKETS - first], n) else None
  }

  lemma {:induction false} AllIsWritten(nodes: seq<seq<Node>>, first: nat, offset: word, size: nat, total: nat,
      file: seq<byte>, n: dword)
    requires Holds(file, offset, size, total)
    requires ProperFrom(nodes, first, size, total) && n < total
    ensures var (rest, after) := SweepAll(nodes, Writer(offset, size), file);
            && rest == Repeat([], |nodes|) && |after| == |file|
            && Position(offset, size, n) + size <= |file|
            && (size * total <= DWORD_MODULUS ==>
                  Stored(after, offset, size, n) ==
                  if FindFrom(nodes, first, n).Some? then FindFrom(nodes, first, n).value
                   else Stored(file, offset, size, n))
  {
    hide Position, Stored, Sweep, Sectors;
    assert Position(offset, size, n) + size <= |file|;
    if nodes != [] {
      ChainIsWritten(nodes[0], first, offset, size, total, file, n);
      var after := Sweep(nodes[0], Writer(offset, size), file).1;
      AllIsWritten(nodes[1..], first + 1, offset, size, total, after, n);
      if n % BUCKETS != first {
        NotInBucket(nodes[0], first, n);
      }
      assert SweepAll(nodes, Writer(offset, size), file).0 == [[]] + Repeat([], |nodes| - 1);
    }
  }

  lemma NotInBucket(chain: seq<Node>, bucket: nat, n: dword)
    requires Proper(chain, bucket) && n % BUCKETS != bucket
    ensures Find(chain, n) == None
  {
    FindNone(chain, n);
  }

  // ----- When the image holds what the cache held -----

  /** Whatever is in the cache, the image has it once it is written, and keeps the rest. */
  ghost predicate WritesAreFaithful(file: seq<byte>, offset: word, size: nat, total: nat)
    requires Holds(file, offset, size, total)
  {
    forall nodes: seq<seq<Node>>, n: dword | ProperFrom(nodes, 0, size, total) && |nodes| == BUCKETS && n < total ::
      IsFaithful(nodes, file, offset, size, n)
  }

  predicate IsFaithful(nodes: seq<seq<Node>>, file: seq<byte>, offset: word, size: nat, n: dword) {
    var after := SweepAll(nodes, Writer(offset, size), file).1;
    && Position(offset, size, n) + size <= |file| == |after|
    && Stored(after, offset, size, n) ==
       if FindFrom(nodes, 0, n).Some? then FindFrom(nodes, 0, n).value else Stored(file, offset, size, n)
  }

  /** Sector numbers are multiplied in 32 bits, so this is so exactly for images of up to 4 Gb. */
  lemma WritesAreFaithfulUpTo4Gb(file: seq<byte>, offset: word, size: nat, total: nat)
    requires Holds(file, offset, size, total)
    ensures WritesAreFaithful(file, offset, size, total) <==> size * total <= DWORD_MODULUS
  {
    hide *;
    if size * total <= DWORD_MODULUS {
      Faithful(file, offset, size, total);
    } else {
      Unfaithful(file, offset, size, total);
    }
  }

  lemma Faithful(file: seq<byte>, offset: word, size: nat, total: nat)
    requires Holds(file, offset, size, total) && size * total <= DWORD_MODULUS
    ensures WritesAreFaithful(file, offset, size, total)
  {
    hide Holds, Position, Stored, ProperFrom, FindFrom, SweepAll, Writer;
    forall nodes: seq<seq<Node>>, n: dword | ProperFrom(nodes, 0, size, total) && |nodes| == BUCKETS && n < total
      ensures IsFaithful(nodes, file, offset, size, n)
    {
      AllIsWritten(nodes, 0, offset, size, total, file, n);
    }
  }

  lemma FirstKey(chain: seq<Node>, size: nat, total: nat)
    requires Sectors(chain, size, total) && chain != []
    ensures chain[0].key < total
  {
  }

  lemma NoSectors(nodes: seq<seq<Node>>, first: nat, size: nat)
    requires ProperFrom(nodes, first, size, 0)
    ensures forall i :: 0 <= i < |nodes| ==> nodes[i] == []
  {
    hide Sectors;
    forall i | 0 <= i < |nodes| ensures nodes[i] == [] {
      if nodes[i] != [] {
        FirstKey(nodes[i], size, 0);
        assert false;
      }
    }
  }

  lemma {:induction false} EmptySweep(nodes: seq<seq<Node>>, offset: word, size: nat, file: seq<byte>)
    requires forall i :: 0 <= i < |nodes| ==> nodes[i] == []
    ensures SweepAll(nodes, Writer(offset, size), file) == (Repeat([], |nodes|), file)
  {
    if nodes != [] {
      EmptySweep(nodes[1..], offset, size, file);
      assert [[]] + Repeat([], |nodes| - 1) == Repeat<seq<Node>>([], |nodes|);
    }
  }

  lemma {:induction false} SweepOne(nodes: seq<seq<Node>>, b: nat, node: Node, offset: word, size: nat, file: seq<byte>)
    requires b < |nodes| && nodes[b] == [node] && forall i :: 0 <= i < |nodes| && i != b ==> nodes[i] == []
    ensures SweepAll(nodes, Writer(offset, size), file).1 == WriteToDisk(offset, size, node, file).1
  {
    hide WriteToDisk;
    if b > 0 {
      SweepOne(nodes[1..], b - 1, node, offset, size, file);
    } else {
      assert Sweep([node], Writer(offset, size), file).1 == WriteToDisk(offset, size, node, file).1;
      EmptySweep(nodes[1..], offset, size, WriteToDisk(offset, size, node, file).1);
    }
  }

  lemma Unfaithful(file: seq<byte>, offset: word, size: nat, total: nat)
    requires Holds(file, offset, size, total) && size * total > DWORD_MODULUS
    ensures !WritesAreFaithful(file, offset, size, total)
  {
    hide Position, SweepAll, Writer;
    SectorsMeet(offset, size);
    assert Position(offset, size, 0) + size <= |file|;
    var k: dword := DWORD_MODULUS / size;
    assert k < total && k % BUCKETS < BUCKETS;
    var x: byte := if file[offset] == 0 then 1 else 0;
    var node := Node(k, Repeat(x, size));
    var none: seq<seq<Node>> := Repeat([], BUCKETS);
    var nodes := none[k % BUCKETS := [node]];
    SweepOne(nodes, k % BUCKETS, node, offset, size, file);
    assert Proper([node], k % BUCKETS) && Sectors([node], size, total);
    assert ProperFrom(nodes, 0, size, total);
    SpliceAt(file, offset, node.value);
    assert FindFrom(nodes, 0, 0) == None;
    assert Stored(file, offset, size, 0)[0] == file[offset];
    assert !IsFaithful(nodes, file, offset, size, 0);
  }

  // ----- The drive -----

  /** Images of 256-byte sectors hold every other byte. */
  function Packed(src: seq<byte>, size: nat): (r: seq<byte>)
    requires |src| == 512 && (size == 256 || size == 512)
    ensures |r| == size
  {
    if size == 256 then seq(256, i requires 0 <= i < 256 => src[2 * i]) else src
  }

  function Unpacked(stored: seq<byte>): (r: seq<byte>)
    requires |stored| == 256 || |stored| == 512
    ensures |r| == 512
  {
    if |stored| == 512 then stored
    else seq(512, i requires 0 <= i < 512 => if i % 2 == 0 then stored[i / 2] else 0xff)
  }

  /** What comes back of a sector. */
  function Seen(src: seq<byte>, size: nat): (r: seq<byte>)
    requires |src| == 512 && (size == 256 || size == 512)
    ensures |r| == 512
    ensures forall i :: 0 <= i < 512 ==> r[i] == if size == 512 || i % 2 == 0 then src[i] else 0xff
  {
    Unpacked(Packed(src, size))
  }

  lemma StoredIs(file: seq<byte>, offset: word, size: nat, n: nat)
    requires Position(offset, size, n) + size <= |file|
    ensures Stored(file, offset, size, n) == file[Position(offset, size, n)..Position(offset, size, n) + size]
    ensures |Stored(file, offset, size, n)| == size
  {
  }

  lemma HeldAt(file: seq<byte>, offset: word, size: nat, total: nat, n: nat)
    requires Holds(file, offset, size, total)
    ensures size == 256 || size == 512
    ensures n < total ==> Position(offset, size, n) + size <= |file|
  {
  }

  lemma SeenIs(src: seq<byte>, size: nat)
    requires |src| == 512 && (size == 256 || size == 512)
    ensures Seen(src, size) == Unpacked(Packed(src, size))
  {
  }

  /** Every node of the cache can be found. */
  lemma NodesAreFound(nodes: seq<seq<Node>>, size: nat, total: nat)
    requires |nodes| == BUCKETS && forall i :: 0 <= i < |nodes| ==> Proper(nodes[i], i)
    requires forall k: dword :: Find(nodes[k % BUCKETS], k).Some? ==>
               k < total && |Find(nodes[k % BUCKETS], k).value| == size
    ensures ProperFrom(nodes, 0, size, total)
  {
    forall i | 0 <= i < |nodes| ensures Proper(nodes[i], 0 + i) && Sectors(nodes[i], size, total) {
      forall j | 0 <= j < |nodes[i]| ensures nodes[i][j].key < total && |nodes[i][j].value| == size {
        FindAt(nodes[i], i, j);
        assert nodes[i][j].key % BUCKETS == i;
      }
    }
  }

  lemma SameLength(one: seq<byte>, other: seq<byte>, offset: word, size: nat, total: nat)
    requires Holds(one, offset, size, total) && |one| == |other|
    ensures Holds(other, offset, size, total)
  {
  }

  lemma AllGo(nodes: seq<seq<Node>>, offset: word, size: nat, total: nat, file: seq<byte>)
    requires Holds(file, offset, size, total) && ProperFrom(nodes, 0, size, total)
    ensures var (rest, after) := SweepAll(nodes, Writer(offset, size), file);
            rest == Repeat([], |nodes|) && |after| == |file|
  {
    hide *;
    if total > 0 {
      HeldAt(file, offset, size, total, 0);
      AllIsWritten(nodes, 0, offset, size, total, file, 0);
    } else {
      NoSectors(nodes, 0, size);
      EmptySweep(nodes, offset, size, file);
    }
  }

  lemma NothingFound(nodes: seq<seq<Node>>, k: dword)
    requires nodes == Repeat([], BUCKETS)
    ensures Find(nodes[k % BUCKETS], k) == None
  {
  }

  class Drive {
    var file: seq<byte>
    const offset: word
    const size: nat
    const total: nat
    const cache: Table

    constructor (file: seq<byte>, offset: word, size: nat, total: nat)
      requires Holds(file, offset, size, total)
      ensures Valid() && fresh(cache)
      ensures this.file == file && this.offset == offset && this.size == size && this.total == total
      ensures forall k: dword :: cache.Get(k) == None
    {
      this.file, this.offset, this.size, this.total := file, offset, size, total;
      cache := new Table();
    }

    /** The image has all sectors, and every cached sector is one of the drive's. */
    ghost predicate Valid()
      reads this, cache
    {
      && cache.Valid()
      && Holds(file, offset, size, total)
      && forall k: dword :: cache.Get(k).Some? ==> k < total && |cache.Get(k).value| == size
    }

    /** A sector as it is read: from the cache if it is there. */
    ghost function Sector(n: dword): (r: seq<byte>)
      requires Valid() && n < total
      reads this, cache
      ensures |r| == 512
    {
      if cache.Get(n).Some? then Unpacked(cache.Get(n).value)
      else
        assert Position(offset, size, n) + size <= |file|;
        Unpacked(Stored(file, offset, size, n))
    }

    method ReadSector(n: dword, dest: array<byte>, at: nat)
      requires Valid() && n < total && at + 512 <= dest.Length
      modifies dest
      ensures dest[at..at + 512] == Sector(n)
      ensures dest[..at] == old(dest[..at]) && dest[at + 512..] == old(dest[at + 512..])
    {
      hide Position, Stored;
      assert Position(offset, size, n) + size <= |file|;
      var found := cache.Lookup(n);
      var buffer: seq<byte>;
      if found.Some? {
        buffer := found.value;
      } else {
        var p := Position(offset, size, n);
        buffer := file[p..p + size];
        assert buffer == Stored(file, offset, size, n) by { StoredIs(file, offset, size, n); }
      }
      assert |buffer| == size;
      var i := 0;
      if size == 256 {
        while i < 256
          invariant i <= 256
          invariant forall k :: at <= k < at + 2 * i ==> dest[k] == Unpacked(buffer)[k - at]
          invariant dest[..at] == old(dest[..at]) && dest[at + 512..] == old(dest[at + 512..])
        {
          dest[at + 2 * i] := buffer[i];
          dest[at + 2 * i + 1] := 0xff;
          i := i + 1;
        }
      } else {
        while i < 512
          invariant i <= 512
          invariant forall k :: at <= k < at + i ==> dest[k] == Unpacked(buffer)[k - at]
          invariant dest[..at] == old(dest[..at]) && dest[at + 512..] == old(dest[at + 512..])
        {
          dest[at + i] := buffer[i];
          i := i + 1;
        }
      }
    }

    method WriteSector(n: dword, src: seq<byte>)
      requires Valid() && n < total && |src| == 512
      modifies cache
      ensures Valid()
      ensures Sector(n) == Seen(src, size)
      ensures forall k: dword :: k < total && k != n ==> Sector(k) == old(Sector(k))
    {
      hide Position, Stored, Packed, Unpacked, Seen, Holds;
      HeldAt(file, offset, size, total, n);
      var buffer := Packed(src, size);
      cache.Insert(n, buffer);
      assert Sector(n) == Unpacked(buffer);
      SeenIs(src, size);
    }

    /** The cache is emptied into the image; the sectors are the same afterwards unless the image is longer than
        4 Gb. */
    method Commit()
      requires Valid()
      modifies this, cache
      ensures Valid() && cache.nnodes == 0
      ensures size * total <= DWORD_MODULUS ==> forall k: dword :: k < total ==> Sector(k) == old(Sector(k))
    {
      hide Position, Stored, Unpacked, SweepAll, Find, Writer, Holds, Proper, Sectors;
      ghost var was, before := cache.nodes, file;
      forall k: dword ensures cache.Get(k) == Find(was[k % BUCKETS], k) {
      }
      NodesAreFound(was, size, total);
      var deleted;
      file, deleted := cache.ForeachRemove(Writer(offset, size), file);
      AllGo(was, offset, size, total, before);
      NoNodes(BUCKETS);
      SameLength(before, file, offset, size, total);
      forall k: dword ensures cache.Get(k) == None {
        NothingFound(cache.nodes, k);
      }
      if size * total <= DWORD_MODULUS {
        forall n: dword | n < total ensures Sector(n) == old(Sector(n)) {
          AllIsWritten(was, 0, offset, size, total, before, n);
          assert old(cache.Get(n)) == FindFrom(was, 0, n);
        }
      }
    }
  }

  /** All sectors of a drive. */
  ghost function Contents(drive: Drive): (r: seq<seq<byte>>)
    requires drive.Valid()
    reads drive, drive.cache
    ensures |r| == drive.total
    ensures forall n: dword :: n < drive.total ==> r[n] == drive.Sector(n)
  {
    seq(drive.total, n requires 0 <= n < drive.total && drive.Valid() && drive.total <= DWORD_MODULUS
                       reads drive, drive.cache => drive.Sector(n))
  }
}
