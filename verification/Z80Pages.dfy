/** How .z80 files store memory (z80.c): the single block of version 1, the paged blocks since. */
module Z80Pages {
  import opened Bytes
  import opened Z80Codec

  const PAGE_SIZE: nat := 0x4000
  const RAM_PAGES: nat := 16
  const SLT_SIGNATURE: seq<byte> := [0, 0, 0, 'S' as int, 'L' as int, 'T' as int]

  // ----- Version 1 -----

  datatype V1Block = V1Block(data: seq<byte>, next: nat)

  ghost predicate FirstMarker(buffer: seq<byte>, p: nat) {
    MarkerAt(buffer, p) && forall j :: 0 <= j < p ==> !MarkerAt(buffer, j)
  }

  /** A compressed version 1 block: everything up to the first end marker, 48K once expanded. */
  method ReadV1Block(buffer: seq<byte>) returns (r: Result<V1Block>)
    ensures r.Err? ==> r.error == Corrupt
    ensures r.Ok? ==>
        && 4 <= r.value.next <= |buffer| && FirstMarker(buffer, r.value.next - 4)
        && |r.value.data| == 0xc000
        && Uncompress(buffer, r.value.next - 4) == Some(r.value.data)
    ensures r.Err? ==> forall p: nat | FirstMarker(buffer, p) ::
        Uncompress(buffer, p).Some? && |Uncompress(buffer, p).value| != 0xc000
  {
    var end := FindEnd(buffer);
    if end == None {
      return Err(Corrupt);
    }
    var data := UncompressBlock(buffer, end.value - 4);
    UncompressNeedsTwoMore(buffer, end.value - 4);
    if |data.value| != 0xc000 {
      forall p: nat | FirstMarker(buffer, p) ensures p == end.value - 4 {
        assert !(p < end.value - 4) && !(end.value - 4 < p);
      }
      return Err(Corrupt);
    }
    return Ok(V1Block(data.value, end.value));
  }

  /** A run that is cut off reads at most two bytes further. */
  lemma {:induction false} UncompressNeedsTwoMore(s: seq<byte>, n: int)
    requires n + 2 <= |s|
    ensures Uncompress(s, n).Some?
    decreases |s|
  {
    if n >= 2 {
      if s[0] == ED && s[1] == ED {
        if n - 4 > -2 {
          UncompressNeedsTwoMore(s[4..], n - 4);
        }
      } else {
        UncompressNeedsTwoMore(s[1..], n - 1);
      }
    }
  }

  /** The version 1 reader recovers any 48K memory image from its compressed form and the marker. */
  lemma V1RoundTrip(memory: seq<byte>, after: seq<byte>, p: nat)
    requires MARKER <= after && FirstMarker(Compressed(memory) + after, p)
    ensures p == |Compressed(memory)| && Uncompress(Compressed(memory) + after, p) == Some(memory)
  {
    FirstMarkerEndsBlock(memory, after);
    var c := Compressed(memory);
    assert !(p < |c|) && !(|c| < p);
    RoundTrip(memory, after);
  }

  // ----- Versions 2 and 3: one page -----

  /** The compress argument that libspectrum_z80_write2 passes on, from the caller's two flags. */
  function CompressArgument(noCompression: bool, alwaysCompress: bool): nat {
    (if noCompression then 0 else 1) + (if alwaysCompress then 2 else 0)
  }

  /** What write_page appends. The length field is a word, so it wraps. */
  function PageRecord(number: byte, page: seq<byte>, compress: nat): seq<byte> {
    var compressed := Compressed(page);
    if compress == 0 || (compress / 2 % 2 == 0 && |compressed| >= PAGE_SIZE)
    then WordBytes(0xffff) + [number] + page
    else WordBytes(|compressed|) + [number] + compressed
  }

  method WritePage(buffer: seq<byte>, number: byte, page: seq<byte>, compress: nat) returns (written: seq<byte>)
    requires |page| == PAGE_SIZE
    ensures written == buffer + PageRecord(number, page, compress)
  {
    var compressed := [];
    if compress != 0 {
      compressed := CompressBlock(page);
    }
    if compress == 0 || (compress / 2 % 2 == 0 && |compressed| >= PAGE_SIZE) {
      written := buffer + (WordBytes(0xffff) + [number] + page);
    } else {
      written := buffer + (WordBytes(|compressed|) + [number] + compressed);
    }
  }

  /** The two bytes of the length, the number of the page and its bytes. A length of ff ff says that they are not
      compressed: they are not if they need not be, and either may not be or would not get shorter. */
  lemma RecordLayout(number: byte, page: seq<byte>, noCompression: bool, alwaysCompress: bool)
    requires |page| == PAGE_SIZE
    ensures var c := Compressed(page);
            PageRecord(number, page, CompressArgument(noCompression, alwaysCompress))
            == if !alwaysCompress && (noCompression || |c| >= 0x4000) then [0xff, 0xff, number] + page
               else [|c| % 256, |c| / 256, number] + c
  {
    hide Compressed;
    NeverTheSentinel(page);
    var n := |Compressed(page)|;
    assert WordBytes(0xffff) == [0xff, 0xff] && WordBytes(n) == [n % 256, n / 256];
  }

  datatype V2Block = V2Block(data: seq<byte>, page: byte, next: nat)

  /** read_v2_block on a buffer that starts at the block and ends with the file. */
  function ReadV2Block(buffer: seq<byte>): Result<V2Block> {
    if |buffer| < 3 then Err(Undefined)
    else
      var length, page := WordAt(buffer, 0), buffer[2];
      if length == 0 && page == 0 && |buffer| > 8 && buffer[..6] == SLT_SIGNATURE then Err(Slt)
      else if length != 0xffff then
        if 3 + length > |buffer| then Err(Corrupt)
        else
          match Uncompress(buffer[3..], length)
          case None => Err(Undefined)
          case Some(data) => Ok(V2Block(data, page, 3 + length))
      else if 3 + PAGE_SIZE > |buffer| then Err(Corrupt)
      else Ok(V2Block(buffer[3..3 + PAGE_SIZE], page, 3 + PAGE_SIZE))
  }

  /** When a record cannot be read: without a head, as the start of the SLT extension, or when the file ends inside it.
      What is read of any other is the page number and all the bytes that its length says. */
  lemma WhichRecords(buffer: seq<byte>)
    ensures var r, slt := ReadV2Block(buffer), |buffer| > 8 && buffer[..6] == [0, 0, 0, 83, 76, 84];
            && (r == Err(Slt) <==> slt)
            && (|buffer| >= 3 ==>
                  var length := 256 * (buffer[1] as int) + buffer[0];
                  var bytes := if length == 0xffff then 0x4000 else length;
                  && (r == Err(Corrupt) <==> !slt && |buffer| < 3 + bytes)
                  && (r == Err(Undefined) <==> !slt && length != 0xffff && 3 + bytes <= |buffer|
                                               && Uncompress(buffer[3..], length).None?)
                  && (r.Ok? ==> r.value.page == buffer[2] && r.value.next == 3 + bytes))
            && (|buffer| < 3 ==> r == Err(Undefined))
  {
    hide Uncompress;
  }

  /** No compressed page is long enough to look like the 0xffff that marks an uncompressed one. */
  lemma NeverTheSentinel(page: seq<byte>)
    requires |page| == PAGE_SIZE
    ensures |Compressed(page)| < 0xffff
  {
    SizeBound(page);
  }

  /** A page record reads back as its page under every compression argument. */
  lemma PageRecordRoundTrip(number: byte, page: seq<byte>, compress: nat, after: seq<byte>)
    requires |page| == PAGE_SIZE && number > 0
    ensures var record := PageRecord(number, page, compress);
            record != [] && ReadV2Block(record + after) == Ok(V2Block(page, number, |record|))
  {
    var record := PageRecord(number, page, compress);
    var body := record[3..];
    var length := if compress == 0 || (compress / 2 % 2 == 0 && |Compressed(page)| >= PAGE_SIZE)
                  then 0xffff else |Compressed(page)|;
    var buffer := record + after;
    assert record == WordBytes(length) + [number] + body;
    assert buffer[0..2] == WordBytes(length);
    NeverTheSentinel(page);
    WordRoundTrip(length, buffer, 0);
    assert buffer[2] == number;
    assert buffer[3..] == body + after;
    if length == 0xffff {
      assert body == page;
      assert buffer[3..3 + PAGE_SIZE] == page;
    } else {
      assert body == Compressed(page);
      RoundTrip(page, after);
    }
  }

  // ----- Versions 2 and 3: all pages -----

  datatype Machine = Machine(has128Memory: bool, hasScorpionMemory: bool)

  type Pages = p: seq<Option<seq<byte>>> | |p| == 16 witness Repeat(None, 16)

  const NO_PAGES: Pages := Repeat(None, RAM_PAGES)

  /** The RAM pages that write_pages looks at, in its order. */
  function StoredPages(m: Machine): seq<nat> {
    if !m.has128Memory then [2, 0, 5]
    else seq(if m.hasScorpionMemory then 16 else 8, i => i)
  }

  /** The page number in the file for a RAM page. */
  function FileNumber(m: Machine, page: nat): byte
    requires page < RAM_PAGES
  {
    if m.has128Memory then page + 3
    else if page == 2 then 4
    else if page == 0 then 5
    else if page == 5 then 8
    else 0
  }

  datatype Place = Discard | Bad | Ram(page: nat)

  /** Where read_block puts a page of the file, with neither Interface 1 nor +D active. */
  function PlaceFor(m: Machine, number: byte): (p: Place)
    ensures p.Ram? ==> p.page < RAM_PAGES
  {
    if number == 0 || number > 18 then Bad
    else if number < 3 then Discard
    else if number == 11 && !m.hasScorpionMemory then Discard
    else if !m.has128Memory && number == 3 then Discard
    else if !m.has128Memory && number == 4 then Ram(2)
    else if !m.has128Memory && number == 5 then Ram(0)
    else Ram(number - 3)
  }

  /** The renumbering of the writer is undone by the reader, on exactly the pages it writes. */
  lemma PlaceUndoesFileNumber(m: Machine, page: nat)
    requires page < RAM_PAGES
    ensures page in StoredPages(m) ==> FileNumber(m, page) > 0 && PlaceFor(m, FileNumber(m, page)) == Ram(page)
  {
  }

  /** Which pages of a file are unknown, which are thrown away as pages of ROM, and where those of RAM go: each has a
      place of its own. */
  lemma WhichPages(m: Machine, number: byte, other: byte)
    ensures PlaceFor(m, number) == Bad <==> number == 0 || 18 < number
    ensures PlaceFor(m, number) == Discard <==>
            || number == 1 || number == 2 || (number == 3 && !m.has128Memory) || (number == 11 && !m.hasScorpionMemory)
    ensures PlaceFor(m, number).Ram? && PlaceFor(m, other) == PlaceFor(m, number) ==> other == number
    ensures PlaceFor(m, number).Ram? && (m.has128Memory || number > 5) ==> PlaceFor(m, number).page + 3 == number
  {
  }

  datatype Reading = Reading(pages: Pages, error: Option<Error>)

  /** What read_blocks leaves behind. */
  function ReadBlocks(m: Machine, buffer: seq<byte>, pages: Pages): Reading
    decreases |buffer|
  {
    if buffer == [] then Reading(pages, None)
    else
      match ReadV2Block(buffer)
      case Err(e) => Reading(pages, Some(e))
      case Ok(block) =>
        match PlaceFor(m, block.page)
        case Bad => Reading(pages, Some(Unknown))
        case Discard => ReadBlocks(m, buffer[block.next..], pages)
        case Ram(page) =>
          if pages[page].Some? then Reading(pages, Some(Corrupt))
          else ReadBlocks(m, buffer[block.next..], pages[page := Some(block.data)])
  }

  /** The pages of a snapshot, as the reader fills them in and the writer finds them. */
  class Snap {
    const machine: Machine
    var pages: Pages

    constructor (m: Machine)
      ensures machine == m && pages == NO_PAGES
    {
      machine := m;
      pages := NO_PAGES;
    }

    method Read(buffer: seq<byte>) returns (error: Option<Error>)
      modifies this
      ensures Reading(pages, error) == ReadBlocks(machine, buffer, old(pages))
    {
      var rest := buffer;
      while rest != []
        invariant ReadBlocks(machine, rest, pages) == ReadBlocks(machine, buffer, old(pages))
        decreases |rest|
      {
        var r := ReadV2Block(rest);
        if r.Err? {
          return Some(r.error);
        }
        var place := PlaceFor(machine, r.value.page);
        if place == Bad {
          return Some(Unknown);
        }
        if place.Ram? {
          if pages[place.page].Some? {
            return Some(Corrupt);
          }
          pages := pages[place.page := Some(r.value.data)];
        }
        rest := rest[r.value.next..];
      }
      error := None;
    }

    /** On a 48K machine the three pages are written without a look whether they are there. */
    method Write(compress: nat) returns (buffer: seq<byte>)
      requires Writable(machine, pages)
      ensures buffer == Records(machine, StoredPages(machine), pages, compress)
    {
      buffer := [];
      var todo := StoredPages(machine);
      while todo != []
        invariant forall i :: 0 <= i < |todo| ==> todo[i] < RAM_PAGES && todo[i] in StoredPages(machine)
        invariant buffer + Records(machine, todo, pages, compress)
               == Records(machine, StoredPages(machine), pages, compress)
      {
        var page := todo[0];
        ghost var rest := Records(machine, todo[1..], pages, compress);
        if pages[page].Some? {
          ghost var before := buffer;
          buffer := WritePage(buffer, FileNumber(machine, page), pages[page].value, compress);
          Assoc(before, PageRecord(FileNumber(machine, page), pages[page].value, compress), rest);
        } else {
          assert [] + rest == rest;
        }
        todo := todo[1..];
      }
    }
  }

  ghost predicate Writable(m: Machine, pages: Pages) {
    && (forall p :: 0 <= p < RAM_PAGES && pages[p].Some? ==> |pages[p].value| == PAGE_SIZE)
    && (!m.has128Memory ==> pages[0].Some? && pages[2].Some? && pages[5].Some?)
  }

  function Records(m: Machine, list: seq<nat>, pages: Pages, compress: nat): seq<byte>
    requires forall i :: 0 <= i < |list| ==> list[i] < RAM_PAGES
  {
    if list == [] then []
    else (if pages[list[0]].Some? then PageRecord(FileNumber(m, list[0]), pages[list[0]].value, compress) else [])
         + Records(m, list[1..], pages, compress)
  }

  /** The pages of one snapshot, dropped where the machine does not store them. */
  function Kept(m: Machine, pages: Pages): Pages {
    seq(16, p requires 0 <= p < 16 => if p in StoredPages(m) then pages[p] else None)
  }

  /** Reading the records of a list of pages adds just those pages to what is there. */
  lemma {:induction false} RecordsRoundTrip(m: Machine, list: seq<nat>, pages: Pages, compress: nat, before: Pages)
    requires forall i :: 0 <= i < |list| ==> list[i] < RAM_PAGES && list[i] in StoredPages(m)
    requires forall i, j :: 0 <= i < j < |list| ==> list[i] != list[j]
    requires forall i :: 0 <= i < |list| ==> before[list[i]] == None
    requires Writable(m, pages)
    ensures var after := ReadBlocks(m, Records(m, list, pages, compress), before);
            after.error == None &&
            forall p :: 0 <= p < RAM_PAGES ==> after.pages[p] == if p in list then pages[p] else before[p]
    decreases list
  {
    hide PageRecord, ReadV2Block, PlaceFor, FileNumber, StoredPages;
    if list != [] {
      var p, rest := list[0], Records(m, list[1..], pages, compress);
      if pages[p].Some? {
        var record := PageRecord(FileNumber(m, p), pages[p].value, compress);
        PlaceUndoesFileNumber(m, p);
        PageRecordRoundTrip(FileNumber(m, p), pages[p].value, compress, rest);
        assert (record + rest)[|record|..] == rest;
        RecordsRoundTrip(m, list[1..], pages, compress, before[p := pages[p]]);
      } else {
        assert [] + rest == rest;
        RecordsRoundTrip(m, list[1..], pages, compress, before);
      }
    }
  }

  /** Writing a snapshot's pages and reading them into a fresh one restores every page the machine has,
      under every pair of compression flags. */
  lemma PagesRoundTrip(m: Machine, pages: Pages, noCompression: bool, alwaysCompress: bool)
    requires Writable(m, pages)
    ensures var compress := CompressArgument(noCompression, alwaysCompress);
            ReadBlocks(m, Records(m, StoredPages(m), pages, compress), NO_PAGES) == Reading(Kept(m, pages), None)
  {
    var compress := CompressArgument(noCompression, alwaysCompress);
    RecordsRoundTrip(m, StoredPages(m), pages, compress, NO_PAGES);
    var after := ReadBlocks(m, Records(m, StoredPages(m), pages, compress), NO_PAGES);
    assert after.pages == Kept(m, pages);
  }
}
