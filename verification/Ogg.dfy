/** The duration of an Opus file, found by scanning Ogg pages (section 6 of RFC 3533) for the largest granule position
    (48 kHz samples, section 4 of RFC 7845). */
module Ogg {
  import opened Basics

  const HEADER_SIZE := 27
  const SAMPLE_RATE := 48000

  /** "OggS" */
  const CAPTURE: seq<byte> := [0x4F, 0x67, 0x67, 0x53]

  // ---------------------------------------------------------------- numbers

  function Pow256(n: nat): nat {
    if n == 0 then 1 else 256 * Pow256(n - 1)
  }

  /** binary.LittleEndian, for any number of bytes. */
  function FromBytes(b: seq<byte>): nat {
    if b == [] then 0 else b[0] as int + 256 * FromBytes(b[1..])
  }

  function ToBytes(n: nat, u: nat): (b: seq<byte>)
    ensures |b| == n
  {
    if n == 0 then [] else [(u % 256) as byte] + ToBytes(n - 1, u / 256)
  }

  lemma {:induction false} BytesRoundTrip(n: nat, u: nat)
    requires u < Pow256(n)
    ensures FromBytes(ToBytes(n, u)) == u
  {
    if n > 0 { BytesRoundTrip(n - 1, u / 256); }
  }

  /** A byte at the end counts 256 to the power of the number of bytes before it. */
  lemma {:induction false} LastByteCountsMost(b: seq<byte>, x: byte)
    ensures FromBytes(b + [x]) == FromBytes(b) + x as int * Pow256(|b|)
  {
    if b == [] {
      assert [] + [x] == [x] && [x][1..] == [];
    } else {
      assert (b + [x])[1..] == b[1..] + [x];
      LastByteCountsMost(b[1..], x);
      Shift(x as int, Pow256(|b| - 1));
    }
  }

  lemma Shift(x: nat, p: nat)
    ensures 256 * (x * p) == x * (256 * p)
  {
  }

  const TWO_63 := 0x8000_0000_0000_0000
  const TWO_64 := 0x1_0000_0000_0000_0000

  /** int64(uint64) and back. */
  function Signed(u: nat): int {
    if u >= TWO_63 then u - TWO_64 else u
  }

  function Unsigned(i: int): nat
    requires -TWO_63 <= i < TWO_63
  {
    if i < 0 then i + TWO_64 else i
  }

  lemma Pow256Of8()
    ensures Pow256(8) == 0x1_0000_0000_0000_0000 == TWO_64
  {
    assert Pow256(2) == 65536;
    assert Pow256(4) == 256 * (256 * Pow256(2));
    assert Pow256(6) == 256 * (256 * Pow256(4));
    assert Pow256(8) == 256 * (256 * Pow256(6));
  }

  /** The number of 64 bits with a sign that has the same bits. */
  lemma SignedIs(u: nat)
    requires u < 0x1_0000_0000_0000_0000
    ensures -0x8000_0000_0000_0000 <= Signed(u) < 0x8000_0000_0000_0000
    ensures Signed(u) == u || Signed(u) == u - 0x1_0000_0000_0000_0000
  {
  }

  lemma SignedRoundTrip(i: int)
    requires -TWO_63 <= i < TWO_63
    ensures Signed(FromBytes(ToBytes(8, Unsigned(i)))) == i
  {
    Pow256Of8();
    BytesRoundTrip(8, Unsigned(i));
  }

  // ---------------------------------------------------------------- the scanner

  function Sum(b: seq<byte>): nat {
    if b == [] then 0 else Sum(b[..|b| - 1]) + b[|b| - 1] as int
  }

  predicate Captured(data: seq<byte>, pos: nat) {
    pos + 4 <= |data| && data[pos..pos + 4] == CAPTURE
  }

  function Larger(a: int, b: int): int {
    if b > a then b else a
  }

  /** What is found at a position: no page, a page whose segment table is cut off, or a page and where it ends. */
  datatype Found = NoPage | CutOff(granule: int) | Page(granule: int, next: nat)

  function ReadPage(data: seq<byte>, pos: nat): (f: Found)
    ensures f.Page? ==> f.next > pos
  {
    if pos + HEADER_SIZE > |data| || !Captured(data, pos) then NoPage else
    var granule, tableEnd := Signed(FromBytes(data[pos + 6..pos + 14])), pos + HEADER_SIZE + data[pos + 26] as int;
    if tableEnd > |data| then CutOff(granule) else Page(granule, tableEnd + Sum(data[pos + HEADER_SIZE..tableEnd]))
  }

  ghost predicate Advances(at: nat -> Found) {
    forall p: nat :: at(p).Page? ==> at(p).next > p
  }

  /** The largest granule position found from `pos` on in a file of n bytes, or `best`. */
  ghost function Scan(n: nat, at: nat -> Found, pos: nat, best: int): int
    requires Advances(at)
    decreases n - pos
  {
    if pos + HEADER_SIZE > n then best else
    match at(pos)
    case NoPage => Scan(n, at, pos + 1, best)
    case CutOff(granule) => Larger(best, granule)
    case Page(granule, next) => Scan(n, at, next, Larger(best, granule))
  }

  function Reader(data: seq<byte>): (at: nat -> Found)
    ensures forall p: nat :: at(p) == ReadPage(data, p)
  {
    (p: nat) => ReadPage(data, p)
  }

  /** The largest of 0 and the granule positions that a scan of the file meets. */
  ghost function LastGranule(data: seq<byte>): int {
    Scan(|data|, Reader(data), 0, 0)
  }

  /** The size of a page's data, from its segment table. */
  method PageData(table: seq<byte>) returns (size: nat)
    ensures size == Sum(table)
  {
    size := 0;
    for i := 0 to |table|
      invariant size == Sum(table[..i])
    {
      assert table[..i + 1][..i] == table[..i];
      size := size + table[i] as int;
    }
    assert table[..|table|] == table;
  }

  lemma HeaderParts(data: seq<byte>, pos: nat)
    requires pos + HEADER_SIZE <= |data|
    ensures var buf := data[pos..pos + HEADER_SIZE];
      buf[0..4] == data[pos..pos + 4] && buf[6..14] == data[pos + 6..pos + 14] && buf[26] == data[pos + 26]
  {
    var buf := data[pos..pos + HEADER_SIZE];
    assert forall i | 0 <= i < HEADER_SIZE :: buf[i] == data[pos + i];
    assert forall i | 0 <= i < 8 :: buf[6..14][i] == data[pos + 6..pos + 14][i];
  }

  /** One turn of the loop that has a whole header: the bytes from `pos` on are read, and the reader is left at `next`
      unless the segment table is cut off. */
  method ReadOne(data: seq<byte>, pos: nat) returns (f: Found, next: nat)
    requires pos + HEADER_SIZE <= |data|
    ensures f == ReadPage(data, pos) && (f.NoPage? ==> next == pos + 1) && (f.Page? ==> next == f.next)
  {
    var buf := data[pos..pos + HEADER_SIZE];
    HeaderParts(data, pos);
    next := pos + HEADER_SIZE;
    if buf[0..4] != CAPTURE { return NoPage, next - 26; }
    var granule, count := Signed(FromBytes(buf[6..14])), buf[26] as int;
    if next + count > |data| { return CutOff(granule), |data|; }              // io.ErrUnexpectedEOF
    var pageSize := PageData(data[next..next + count]);
    next := next + count + pageSize;
    return Page(granule, next), next;
  }

  /** getOpusDuration.  Each turn starts further on in the file, so it ends for every input. */
  method OpusDuration(data: seq<byte>) returns (duration: real)
    ensures duration == LastGranule(data) as real / 48000.0
  {
    ghost var n, at := |data|, Reader(data);
    var pos, total := 0, 0;
    while pos + HEADER_SIZE <= |data|                                         // until io.EOF or a short read
      invariant Scan(n, at, pos, total) == Scan(n, at, 0, 0)
      decreases |data| - pos
    {
      var f, next := ReadOne(data, pos);
      if !f.NoPage? && f.granule > total { total := f.granule; }
      if f.CutOff? { break; }
      pos := next;
    }
    duration := total as real / SAMPLE_RATE as real;
  }

  // ---------------------------------------------------------------- pages

  /** The layout of a page: the capture pattern, the granule position at offset 6, the number of segments at offset 26,
      the segment table and as many bytes of data as the table adds up to. */
  ghost predicate IsPage(page: seq<byte>, granule: int) {
    && HEADER_SIZE <= |page| && page[..4] == CAPTURE && Signed(FromBytes(page[6..14])) == granule
    && var tableEnd := HEADER_SIZE + page[26] as int;
    && tableEnd <= |page| && |page| == tableEnd + Sum(page[HEADER_SIZE..tableEnd])
  }

  /** The same, byte by byte. */
  lemma PageIs(page: seq<byte>, granule: int)
    ensures IsPage(page, granule) <==>
      && |page| >= 27 && page[0] == 0x4F && page[1] == 0x67 && page[2] == 0x67 && page[3] == 0x53
      && Signed(FromBytes(page[6..14])) == granule
      && 27 + page[26] as int <= |page| == 27 + page[26] as int + Sum(page[27..27 + page[26] as int])
  {
    if |page| >= 4 { assert page[..4] == [page[0], page[1], page[2], page[3]]; }
  }

  /** `fields` are the serial number, the sequence number and the checksum. */
  function Layout(version: byte, kind: byte, position: seq<byte>, fields: seq<byte>, segments: seq<byte>,
                  body: seq<byte>): seq<byte>
    requires |segments| < 256
  {
    CAPTURE + [version, kind] + position + fields + [|segments| as byte] + segments + body
  }

  lemma LayoutIsPage(version: byte, kind: byte, position: seq<byte>, fields: seq<byte>, segments: seq<byte>,
                     body: seq<byte>)
    requires |position| == 8 && |fields| == 12 && |segments| < 256 && |body| == Sum(segments)
    ensures IsPage(Layout(version, kind, position, fields, segments, body), Signed(FromBytes(position)))
  {
    var page := Layout(version, kind, position, fields, segments, body);
    LayoutParts(version, kind, position, fields, segments, body, page);
  }

  lemma LayoutParts(version: byte, kind: byte, position: seq<byte>, fields: seq<byte>, segments: seq<byte>,
                    body: seq<byte>, page: seq<byte>)
    requires |position| == 8 && |fields| == 12 && |segments| < 256
    requires page == Layout(version, kind, position, fields, segments, body)
    ensures |page| == HEADER_SIZE + |segments| + |body| && page[..4] == CAPTURE && page[6..14] == position
    ensures page[26] as int == |segments| && page[HEADER_SIZE..HEADER_SIZE + |segments|] == segments
  {
    var front := CAPTURE + [version, kind];
    assert page == front + (position + (fields + ([|segments| as byte] + (segments + body))));
    assert front[..4] == CAPTURE;
  }

  /** Every granule position, header and body make a page, and the scanner reads the position back. */
  lemma EncodedPage(version: byte, kind: byte, granule: int, fields: seq<byte>, segments: seq<byte>, body: seq<byte>)
    requires -TWO_63 <= granule < TWO_63 && |fields| == 12 && |segments| < 256 && |body| == Sum(segments)
    ensures IsPage(Layout(version, kind, ToBytes(8, Unsigned(granule)), fields, segments, body), granule)
  {
    SignedRoundTrip(granule);
    LayoutIsPage(version, kind, ToBytes(8, Unsigned(granule)), fields, segments, body);
  }

  /** A page with whatever bytes precede it. */
  datatype Chunk = Chunk(junk: seq<byte>, page: seq<byte>, granule: int)

  ghost predicate NoCapture(b: seq<byte>) {
    forall i: nat :: !Captured(b, i)
  }

  ghost predicate Clean(c: Chunk) {
    IsPage(c.page, c.granule) && NoCapture(c.junk)
  }

  function Stream(chunks: seq<Chunk>, tail: seq<byte>): seq<byte> {
    if chunks == [] then tail else chunks[0].junk + chunks[0].page + Stream(chunks[1..], tail)
  }

  function LargestGranule(chunks: seq<Chunk>, best: int): int {
    if chunks == [] then best else LargestGranule(chunks[1..], Larger(best, chunks[0].granule))
  }

  ghost predicate PageAt(data: seq<byte>, pos: nat, page: seq<byte>) {
    pos + |page| <= |data| && data[pos..pos + |page|] == page
  }

  lemma PartsOf(data: seq<byte>, pos: nat, page: seq<byte>, i: nat, j: nat)
    requires PageAt(data, pos, page) && i <= j <= |page|
    ensures data[pos + i..pos + j] == page[i..j]
  {
    forall k | 0 <= k < j - i ensures data[pos + i..pos + j][k] == page[i..j][k] {
      assert page[i + k] == data[pos..pos + |page|][i + k] == data[pos + (i + k)];
    }
  }

  lemma ReadsPage(data: seq<byte>, pos: nat, page: seq<byte>, granule: int)
    requires PageAt(data, pos, page) && IsPage(page, granule)
    ensures ReadPage(data, pos) == Page(granule, pos + |page|)
  {
    PartsOf(data, pos, page, 0, 4);
    PartsOf(data, pos, page, 6, 14);
    PartsOf(data, pos, page, HEADER_SIZE, HEADER_SIZE + page[26] as int);
    assert page[26] == data[pos..pos + |page|][26] == data[pos + 26];
  }

  lemma {:induction false} ScanGap(n: nat, at: nat -> Found, lo: nat, hi: nat, best: int)
    requires Advances(at) && lo <= hi <= n && forall i: nat | lo <= i < hi :: at(i) == NoPage
    ensures hi + HEADER_SIZE <= n ==> Scan(n, at, lo, best) == Scan(n, at, hi, best)
    ensures hi == n ==> Scan(n, at, lo, best) == best
    decreases hi - lo
  {
    if lo < hi { ScanGap(n, at, lo + 1, hi, best); }
  }

  /** The chunks lie one after the other from `pos` on, and no page is found outside of them. */
  ghost predicate Laid(n: nat, at: nat -> Found, pos: nat, chunks: seq<Chunk>)
    decreases |chunks|
  {
    if chunks == [] then pos <= n && forall i: nat | pos <= i < n :: at(i) == NoPage
    else
      var start := pos + |chunks[0].junk|;
      && (forall i: nat | pos <= i < start :: at(i) == NoPage)
      && start + HEADER_SIZE <= n && at(start) == Page(chunks[0].granule, start + |chunks[0].page|)
      && Laid(n, at, start + |chunks[0].page|, chunks[1..])
  }

  /** The scanner finds every page that is laid out and nothing else. */
  lemma {:induction false} ScanLaid(n: nat, at: nat -> Found, pos: nat, chunks: seq<Chunk>, best: int)
    requires Advances(at) && Laid(n, at, pos, chunks)
    ensures Scan(n, at, pos, best) == LargestGranule(chunks, best)
    decreases |chunks|
  {
    if chunks == [] {
      ScanGap(n, at, pos, n, best);
    } else {
      var c := chunks[0];
      ScanGap(n, at, pos, pos + |c.junk|, best);
      ScanLaid(n, at, pos + |c.junk| + |c.page|, chunks[1..], Larger(best, c.granule));
    }
  }

  /** No capture pattern starts in bytes that are free of it and are followed by a page. */
  lemma NoStraddling(junk: seq<byte>, after: seq<byte>, i: nat)
    requires NoCapture(junk) && i < |junk| && |after| >= 4 && after[..4] == CAPTURE
    ensures !Captured(junk + after, i)
  {
    var data := junk + after;
    if i + 4 <= |junk| {
      assert data[i..i + 4] == junk[i..i + 4] && !Captured(junk, i);
    } else {
      var k := |junk| - i;
      assert data[i..i + 4][k] == after[0] == after[..4][0] == 0x4F != CAPTURE[k];
    }
  }

  lemma CapturedShift(before: seq<byte>, b: seq<byte>, i: nat)
    ensures Captured(before + b, |before| + i) <==> Captured(b, i)
  {
    if i + 4 <= |b| { assert (before + b)[|before| + i..|before| + i + 4] == b[i..i + 4]; }
  }

  /** The bytes of one chunk lie where they should. */
  lemma ChunkLaid(before: seq<byte>, junk: seq<byte>, page: seq<byte>, rest: seq<byte>)
    requires NoCapture(junk) && |page| >= 4 && page[..4] == CAPTURE
    ensures var data, start := before + junk + page + rest, |before| + |junk|;
      (forall i | |before| <= i < start :: !Captured(data, i)) && PageAt(data, start, page)
  {
    var data, after := before + junk + page + rest, page + rest;
    assert after[..4] == page[..4];
    assert data == before + (junk + after);
    forall i | |before| <= i < |before| + |junk| ensures !Captured(data, i) {
      NoStraddling(junk, after, i - |before|);
      CapturedShift(before, junk + after, i - |before|);
    }
  }

  ghost predicate Reads(at: nat -> Found, data: seq<byte>) {
    forall p: nat {:trigger ReadPage(data, p)} :: at(p) == ReadPage(data, p)
  }

  /** The scanner meets a chunk of the stream as it should. */
  lemma ChunkFound(data: seq<byte>, at: nat -> Found, before: seq<byte>, c: Chunk, rest: seq<byte>)
    requires Clean(c) && data == before + c.junk + c.page + rest && Reads(at, data)
    ensures var start := |before| + |c.junk|;
      && (forall i: nat | |before| <= i < start :: at(i) == NoPage)
      && start + HEADER_SIZE <= |data| && at(start) == Page(c.granule, start + |c.page|)
  {
    ChunkLaid(before, c.junk, c.page, rest);
    ReadsPage(data, |before| + |c.junk|, c.page, c.granule);
    forall i: nat | |before| <= i < |before| + |c.junk| ensures at(i) == NoPage { assert ReadPage(data, i) == NoPage; }
  }

  lemma LaidBefore(n: nat, at: nat -> Found, pos: nat, chunks: seq<Chunk>)
    requires chunks != [] && var start := pos + |chunks[0].junk|;
      && (forall i: nat | pos <= i < start :: at(i) == NoPage)
      && start + HEADER_SIZE <= n && at(start) == Page(chunks[0].granule, start + |chunks[0].page|)
      && Laid(n, at, start + |chunks[0].page|, chunks[1..])
    ensures Laid(n, at, pos, chunks)
  {
  }

  lemma TailFound(data: seq<byte>, at: nat -> Found, before: seq<byte>, tail: seq<byte>)
    requires NoCapture(tail) && data == before + tail && Reads(at, data)
    ensures forall i: nat | |before| <= i :: at(i) == NoPage
  {
    forall i: nat | |before| <= i ensures at(i) == NoPage {
      CapturedShift(before, tail, i - |before|);
      assert ReadPage(data, i) == NoPage;
    }
  }

  lemma {:induction false} StreamLaid(data: seq<byte>, at: nat -> Found, before: seq<byte>, chunks: seq<Chunk>,
                                      tail: seq<byte>)
    requires (forall i | 0 <= i < |chunks| :: Clean(chunks[i])) && NoCapture(tail)
    requires data == before + Stream(chunks, tail) && Reads(at, data)
    ensures Laid(|data|, at, |before|, chunks)
    decreases |chunks|
  {
    if chunks == [] {
      TailFound(data, at, before, tail);
    } else {
      var c, rest := chunks[0], Stream(chunks[1..], tail);
      assert before + (c.junk + c.page + rest) == before + c.junk + c.page + rest;
      ChunkFound(data, at, before, c, rest);
      StreamLaid(data, at, before + c.junk + c.page, chunks[1..], tail);
      LaidBefore(|data|, at, |before|, chunks);
    }
  }

  /** The scanner passes the chunks and comes to what is behind them. */
  lemma {:induction false} StreamPassed(data: seq<byte>, at: nat -> Found, before: seq<byte>, chunks: seq<Chunk>,
                                        tail: seq<byte>, best: int)
    requires (forall i | 0 <= i < |chunks| :: Clean(chunks[i])) && Advances(at)
    requires data == before + Stream(chunks, tail) && Reads(at, data)
    ensures |tail| <= |data|
    ensures Scan(|data|, at, |before|, best) == Scan(|data|, at, |data| - |tail|, LargestGranule(chunks, best))
    decreases |chunks|
  {
    if chunks != [] {
      var c, rest := chunks[0], Stream(chunks[1..], tail);
      assert before + (c.junk + c.page + rest) == before + c.junk + c.page + rest;
      ChunkFound(data, at, before, c, rest);
      StreamPassed(data, at, before + c.junk + c.page, chunks[1..], tail, Larger(best, c.granule));
      ScanGap(|data|, at, |before|, |before| + |c.junk|, best);
    }
  }

  /** What is found where a page is cut off. */
  lemma CutFound(data: seq<byte>, pos: nat, page: seq<byte>, granule: int, n: nat)
    requires IsPage(page, granule) && n <= |page| && |data| == pos + n && data[pos..] == page[..n]
    ensures n < HEADER_SIZE ==> ReadPage(data, pos) == NoPage
    ensures n >= HEADER_SIZE ==>
      || ReadPage(data, pos) == CutOff(granule)
      || (ReadPage(data, pos).Page? && ReadPage(data, pos).granule == granule && ReadPage(data, pos).next >= |data|)
  {
    if n >= HEADER_SIZE {
      forall i | 0 <= i < n ensures data[pos + i] == page[i] { assert data[pos..][i] == page[..n][i]; }
      assert data[pos..pos + 4] == page[..4] && data[pos + 6..pos + 14] == page[6..14];
      var tableEnd := HEADER_SIZE + page[26] as int;
      if tableEnd <= n { assert data[pos + HEADER_SIZE..pos + tableEnd] == page[HEADER_SIZE..tableEnd]; }
    }
  }

  lemma CutScanned(data: seq<byte>, at: nat -> Found, before: seq<byte>, junk: seq<byte>, page: seq<byte>,
                   granule: int, n: nat, best: int)
    requires NoCapture(junk) && IsPage(page, granule) && HEADER_SIZE <= n <= |page|
    requires data == before + junk + page[..n] && Reads(at, data) && Advances(at)
    ensures Scan(|data|, at, |before|, best) == Larger(best, granule)
  {
    var pos := |before| + |junk|;
    assert data == before + junk + page[..n] + [];
    assert page[..n][..4] == page[..4];
    ChunkLaid(before, junk, page[..n], []);
    forall i: nat | |before| <= i < pos ensures at(i) == NoPage { assert ReadPage(data, i) == NoPage; }
    ScanGap(|data|, at, |before|, pos, best);
    CutFound(data, pos, page, granule, n);
    assert at(pos) == ReadPage(data, pos);
  }

  /** A last page of which the header has arrived counts, wherever it is cut off behind that. */
  lemma CutOffPageCounts(chunks: seq<Chunk>, junk: seq<byte>, page: seq<byte>, granule: int, n: nat)
    requires (forall i | 0 <= i < |chunks| :: Clean(chunks[i])) && NoCapture(junk) && IsPage(page, granule)
    requires 27 <= n <= |page|
    ensures LastGranule(Stream(chunks, junk + page[..n])) ==
      if granule > LargestGranule(chunks, 0) then granule else LargestGranule(chunks, 0)
  {
    var tail := junk + page[..n];
    var data := Stream(chunks, tail);
    var before := StreamSplit(chunks, tail);
    assert [] + data == data;
    StreamPassed(data, Reader(data), [], chunks, tail, 0);
    SplitTwice(data, before, junk, page[..n]);
    CutScanned(data, Reader(data), before, junk, page, granule, n, LargestGranule(chunks, 0));
  }

  lemma SplitTwice(data: seq<byte>, before: seq<byte>, junk: seq<byte>, part: seq<byte>)
    requires data == before + (junk + part)
    ensures data == before + junk + part
  {
  }

  lemma {:induction false} StreamSplit(chunks: seq<Chunk>, tail: seq<byte>) returns (before: seq<byte>)
    ensures Stream(chunks, tail) == before + tail
  {
    before := [];
    if chunks != [] {
      before := StreamSplit(chunks[1..], tail);
      SplitTwice(chunks[0].junk + chunks[0].page + (before + tail), chunks[0].junk + chunks[0].page, before, tail);
      before := chunks[0].junk + chunks[0].page + before;
    }
  }

  lemma {:induction false} LargestGranuleIsMaximum(chunks: seq<Chunk>, best: int)
    ensures best <= LargestGranule(chunks, best)
    ensures forall i | 0 <= i < |chunks| :: chunks[i].granule <= LargestGranule(chunks, best)
    ensures
      || LargestGranule(chunks, best) == best
      || exists i :: 0 <= i < |chunks| && chunks[i].granule == LargestGranule(chunks, best)
  {
    if chunks != [] {
      var next := Larger(best, chunks[0].granule);
      LargestGranuleIsMaximum(chunks[1..], next);
      assert forall i | 1 <= i < |chunks| :: chunks[i] == chunks[1..][i - 1];
      if i :| 0 <= i < |chunks| - 1 && chunks[1..][i].granule == LargestGranule(chunks, best) {
        assert chunks[i + 1].granule == LargestGranule(chunks, best);
      }
    }
  }

  /** Whatever junk lies before, between and after the pages, the result is the largest of 0 and their granule
      positions; a body that itself contains the capture pattern makes no difference. */
  lemma ScansLargestGranule(chunks: seq<Chunk>, tail: seq<byte>)
    requires (forall i | 0 <= i < |chunks| :: Clean(chunks[i])) && NoCapture(tail)
    ensures var g := LastGranule(Stream(chunks, tail));
      && g >= 0 && (forall i | 0 <= i < |chunks| :: chunks[i].granule <= g)
      && (g == 0 || exists i :: 0 <= i < |chunks| && chunks[i].granule == g)
  {
    var data := Stream(chunks, tail);
    assert [] + data == data;
    StreamLaid(data, Reader(data), [], chunks, tail);
    ScanLaid(|data|, Reader(data), 0, chunks, 0);
    LargestGranuleIsMaximum(chunks, 0);
  }
}
