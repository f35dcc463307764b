/** The reader finds what the writer stored, byte for byte. */
module ZipProof {
  import opened Text
  import opened Zip

  // -------------------------------------------------------------------- fields

  lemma LowByte(v: nat)
    ensures v % 256 + 256 * (v / 256 % 256) == v % 65536
  {
    var q := v / 256;
    DivModUnique(v, 65536, q / 256, v % 256 + 256 * (q % 256));
  }

  lemma Read16(s: Bytes, at: nat, v: nat)
    requires at + 2 <= |s| && s[at..at + 2] == U16(v)
    ensures Get16(s, at) == v % 65536
  {
    assert s[at..at + 2][0] == s[at] && s[at..at + 2][1] == s[at + 1];
    LowByte(v);
  }

  lemma Halves(v: nat)
    ensures v % 65536 + 65536 * (v / 65536 % 65536) == v % 0x1_0000_0000
  {
    var q := v / 65536;
    DivModUnique(v, 0x1_0000_0000, q / 65536, v % 65536 + 65536 * (q % 65536));
  }

  lemma Read32(s: Bytes, at: nat, v: nat)
    requires at + 4 <= |s| && s[at..at + 4] == U32(v)
    ensures Get32(s, at) == v % 0x1_0000_0000
  {
    assert s[at..at + 2] == s[at..at + 4][..2] == U16(v);
    assert s[at + 2..at + 4] == s[at..at + 4][2..] == U16(v / 65536);
    Read16(s, at, v);
    Read16(s, at + 2, v / 65536);
    Halves(v);
  }

  lemma ReadZeros(s: Bytes, at: nat)
    requires at + 2 <= |s| && s[at..at + 2] == [0, 0]
    ensures Get16(s, at) == 0
  {
    assert s[at..at + 2][0] == s[at] && s[at..at + 2][1] == s[at + 1];
  }

  lemma CentralPieces(e: Entry, crc: nat, offset: nat)
    ensures var h := CentralHeader(e, crc, offset);
            && h[0..4] == U32(CENTRAL) && h[10..12] == [0, 0] && h[20..24] == U32(|e.body|) && h[28..30] == U16(|e.name|)
            && h[30..32] == [0, 0] && h[32..34] == [0, 0] && h[42..46] == U32(offset) && h[46..] == e.name
  {
    hide U16, U32;
  }

  lemma LocalPieces(e: Entry, crc: nat)
    ensures var h := LocalHeader(e, crc);
            && h[0..4] == U32(LOCAL) && h[26..28] == U16(|e.name|) && h[28..30] == [0, 0] && h[30..] == e.name
  {
    hide U16, U32;
  }

  lemma Window(s: Bytes, at: nat, h: Bytes, i: nat, j: nat)
    requires at + |h| <= |s| && s[at..at + |h|] == h && i <= j <= |h|
    ensures s[at + i..at + j] == h[i..j]
  {
    forall k | 0 <= k < j - i ensures s[at + i..at + j][k] == h[i..j][k] {
      assert s[at..at + |h|][i + k] == s[at + i + k];
    }
  }

  predicate FitsFields(e: Entry) {
    |e.name| < 65536 && |e.body| < 0x1_0000_0000
  }

  /** A directory record reads back as what it was written from. */
  lemma RecordReads(s: Bytes, at: nat, e: Entry, crc: nat, offset: nat)
    requires FitsFields(e) && offset < 0x1_0000_0000
    requires var h := CentralHeader(e, crc, offset); at + |h| <= |s| && s[at..at + |h|] == h
    ensures RecordAt(s, at) == Ok((e.name, Member(0, offset, |e.body|), at + 46 + |e.name|))
  {
    CentralPieces(e, crc, offset);
    var h := CentralHeader(e, crc, offset);
    hide CentralHeader, U16, U32, Get16, Get32;
    Window(s, at, h, 0, 4);
    Window(s, at, h, 20, 24);
    Window(s, at, h, 28, 30);
    Window(s, at, h, 42, 46);
    Window(s, at, h, 46, |h|);
    Window(s, at, h, 10, 12);
    Window(s, at, h, 30, 32);
    Window(s, at, h, 32, 34);
    Read32(s, at, CENTRAL);
    ReadZeros(s, at + 10);
    Read32(s, at + 20, |e.body|);
    Read16(s, at + 28, |e.name|);
    ReadZeros(s, at + 30);
    ReadZeros(s, at + 32);
    Read32(s, at + 42, offset);
  }

  // ------------------------------------------------------------------ positions

  lemma DirectoryNext(es: seq<Entry>, crc: Bytes -> nat, k: nat)
    requires k < |es|
    ensures Directory(es[..k + 1], crc) == Directory(es[..k], crc) + CentralHeader(es[k], crc(es[k].body), |Chunks(es[..k], crc)|)
  {
    hide CentralHeader, Chunks;
    assert es[..k + 1][..k] == es[..k] && es[..k + 1][k] == es[k];
  }

  lemma ChunksNext(es: seq<Entry>, crc: Bytes -> nat, k: nat)
    requires k < |es|
    ensures Chunks(es[..k + 1], crc) == Chunks(es[..k], crc) + (LocalHeader(es[k], crc(es[k].body)) + es[k].body)
  {
    hide LocalHeader;
    assert es[..k + 1][..k] == es[..k] && es[..k + 1][k] == es[k];
  }

  lemma {:induction false} Prefixes(es: seq<Entry>, crc: Bytes -> nat, k: nat)
    requires k <= |es|
    ensures Directory(es[..k], crc) <= Directory(es, crc) && Chunks(es[..k], crc) <= Chunks(es, crc)
    decreases |es| - k
  {
    hide Directory, Chunks, CentralHeader, LocalHeader;
    if k == |es| {
      assert es[..k] == es;
    } else {
      DirectoryNext(es, crc, k);
      ChunksNext(es, crc, k);
      Prefixes(es, crc, k + 1);
    }
  }

  lemma DirectoryAt(es: seq<Entry>, crc: Bytes -> nat, k: nat)
    requires k < |es|
    ensures var h := CentralHeader(es[k], crc(es[k].body), |Chunks(es[..k], crc)|);
            var at := |Directory(es[..k], crc)|;
            at + |h| <= |Directory(es, crc)| && Directory(es, crc)[at..at + |h|] == h
  {
    hide Directory, Chunks, CentralHeader;
    DirectoryNext(es, crc, k);
    Prefixes(es, crc, k + 1);
  }

  lemma ChunkAt(es: seq<Entry>, crc: Bytes -> nat, k: nat)
    requires k < |es|
    ensures var c := LocalHeader(es[k], crc(es[k].body)) + es[k].body;
            var at := |Chunks(es[..k], crc)|;
            at + |c| <= |Chunks(es, crc)| && Chunks(es, crc)[at..at + |c|] == c
  {
    hide Directory, Chunks, LocalHeader;
    ChunksNext(es, crc, k);
    Prefixes(es, crc, k + 1);
  }

  // ------------------------------------------------------------------ the layout

  predicate Zeroed(s: Bytes, from: nat, to: nat)
    requires to <= |s|
  {
    forall k :: from <= k < to ==> s[k] == 0
  }

  /** A local header with its name and data: section 4.3.7 of APPNOTE.TXT. */
  predicate LocalAt(s: Bytes, at: nat, e: Entry, crc: nat) {
    && at + 30 + |e.name| + |e.body| <= |s| && Marked(s, at, 3, 4)
    && Little(s[at + 4..at + 6]) == 20 && Zeroed(s, at + 6, at + 14)
    && Little(s[at + 14..at + 18]) == crc % 0x1_0000_0000
    && Little(s[at + 18..at + 22]) == |e.body| % 0x1_0000_0000 && Little(s[at + 22..at + 26]) == |e.body| % 0x1_0000_0000
    && Little(s[at + 26..at + 28]) == |e.name| % 65536 && Zeroed(s, at + 28, at + 30)
    && s[at + 30..at + 30 + |e.name|] == e.name
    && s[at + 30 + |e.name|..at + 30 + |e.name| + |e.body|] == e.body
  }

  /** A directory record: section 4.3.12. */
  predicate CentralAt(s: Bytes, at: nat, e: Entry, crc: nat, offset: nat) {
    && at + 46 + |e.name| <= |s| && Marked(s, at, 1, 2)
    && Little(s[at + 4..at + 6]) == 20 && Little(s[at + 6..at + 8]) == 20 && Zeroed(s, at + 8, at + 16)
    && Little(s[at + 16..at + 20]) == crc % 0x1_0000_0000
    && Little(s[at + 20..at + 24]) == |e.body| % 0x1_0000_0000 && Little(s[at + 24..at + 28]) == |e.body| % 0x1_0000_0000
    && Little(s[at + 28..at + 30]) == |e.name| % 65536 && Zeroed(s, at + 30, at + 42)
    && Little(s[at + 42..at + 46]) == offset % 0x1_0000_0000 && s[at + 46..at + 46 + |e.name|] == e.name
  }

  /** The end record: section 4.3.16. */
  predicate EndRecordAt(s: Bytes, at: nat, count: nat, size: nat, offset: nat) {
    && at + 22 == |s| && Marked(s, at, 5, 6) && Zeroed(s, at + 4, at + 8)
    && Little(s[at + 8..at + 10]) == count % 65536 && Little(s[at + 10..at + 12]) == count % 65536
    && Little(s[at + 12..at + 16]) == size % 0x1_0000_0000 && Little(s[at + 16..at + 20]) == offset % 0x1_0000_0000
    && Zeroed(s, at + 20, at + 22)
  }

  /** How many bytes the first `k` entries take in front of the directory. */
  function LocalSize(es: seq<Entry>, k: nat): nat
    requires k <= |es|
  {
    if k == 0 then 0 else LocalSize(es, k - 1) + 30 + |es[k - 1].name| + |es[k - 1].body|
  }

  /** And in it. */
  function CentralSize(es: seq<Entry>, k: nat): nat
    requires k <= |es|
  {
    if k == 0 then 0 else CentralSize(es, k - 1) + 46 + |es[k - 1].name|
  }

  /** Entries one behind the other, then a record for each that points at it, then
      the end record. */
  ghost predicate LaidOut(es: seq<Entry>, crc: Bytes -> nat, s: Bytes) {
    var directory, size := LocalSize(es, |es|), CentralSize(es, |es|);
    && EndRecordAt(s, directory + size, |es|, size, directory)
    && forall k :: 0 <= k < |es| ==>
         && LocalAt(s, LocalSize(es, k), es[k], crc(es[k].body))
         && CentralAt(s, directory + CentralSize(es, k), es[k], crc(es[k].body), LocalSize(es, k))
  }

  lemma LittleOf16(s: Bytes, at: nat, v: nat)
    requires at + 2 <= |s| && s[at..at + 2] == U16(v)
    ensures Little(s[at..at + 2]) == v % 65536
  {
    Read16(s, at, v);
    Get16Is(s, at);
  }

  lemma LittleOf32(s: Bytes, at: nat, v: nat)
    requires at + 4 <= |s| && s[at..at + 4] == U32(v)
    ensures Little(s[at..at + 4]) == v % 0x1_0000_0000
  {
    Read32(s, at, v);
    Get32Is(s, at);
  }

  lemma ZeroedOf(s: Bytes, from: nat, to: nat)
    requires from <= to <= |s| && s[from..to] == Zeros(to - from)
    ensures Zeroed(s, from, to)
  {
    forall k | from <= k < to ensures s[k] == 0 {
      assert s[from..to][k - from] == 0;
    }
  }

  lemma LocalFields(e: Entry, crc: nat)
    ensures var h := LocalHeader(e, crc);
            && h[0..4] == [0x50, 0x4b, 3, 4] && h[4..6] == U16(20) && h[6..14] == Zeros(8) && h[14..18] == U32(crc)
            && h[18..22] == U32(|e.body|) && h[22..26] == U32(|e.body|) && h[26..28] == U16(|e.name|) && h[28..30] == Zeros(2)
            && h[30..] == e.name
  {
    assert U32(LOCAL) == [0x50, 0x4b, 3, 4];
    hide U16, U32, Zeros;
  }

  lemma CentralFields(e: Entry, crc: nat, offset: nat)
    ensures var h := CentralHeader(e, crc, offset);
            && h[0..4] == [0x50, 0x4b, 1, 2] && h[4..6] == U16(20) && h[6..8] == U16(20) && h[8..16] == Zeros(8)
            && h[16..20] == U32(crc) && h[20..24] == U32(|e.body|) && h[24..28] == U32(|e.body|) && h[28..30] == U16(|e.name|)
            && h[30..42] == Zeros(12) && h[42..46] == U32(offset) && h[46..] == e.name
  {
    assert U32(CENTRAL) == [0x50, 0x4b, 1, 2];
    hide U16, U32, Zeros;
  }

  lemma EndFields(count: nat, size: nat, offset: nat)
    ensures var h := EndRecord(count, size, offset);
            && h[0..4] == [0x50, 0x4b, 5, 6] && h[4..8] == Zeros(4) && h[8..10] == U16(count) && h[10..12] == U16(count)
            && h[12..16] == U32(size) && h[16..20] == U32(offset) && h[20..22] == Zeros(2)
  {
    assert U32(END) == [0x50, 0x4b, 5, 6];
    hide U16, U32, Zeros;
  }

  lemma LocalInPlace(s: Bytes, at: nat, e: Entry, crc: nat)
    requires var c := LocalHeader(e, crc) + e.body; at + |c| <= |s| && s[at..at + |c|] == c
    ensures LocalAt(s, at, e, crc)
  {
    LocalFields(e, crc);
    var h := LocalHeader(e, crc);
    hide LocalHeader, U16, U32, Zeros, Little, Zeroed;
    Window(s, at, h + e.body, |h|, |h| + |e.body|);
    Window(s, at, h + e.body, 0, |h|);
    Window(s, at, h, 0, 4);
    Window(s, at, h, 4, 6);
    Window(s, at, h, 6, 14);
    Window(s, at, h, 14, 18);
    Window(s, at, h, 18, 22);
    Window(s, at, h, 22, 26);
    Window(s, at, h, 26, 28);
    Window(s, at, h, 28, 30);
    Window(s, at, h, 30, |h|);
    LittleOf16(s, at + 4, 20);
    ZeroedOf(s, at + 6, at + 14);
    LittleOf32(s, at + 14, crc);
    LittleOf32(s, at + 18, |e.body|);
    LittleOf32(s, at + 22, |e.body|);
    LittleOf16(s, at + 26, |e.name|);
    ZeroedOf(s, at + 28, at + 30);
  }

  lemma CentralInPlace(s: Bytes, at: nat, e: Entry, crc: nat, offset: nat)
    requires var h := CentralHeader(e, crc, offset); at + |h| <= |s| && s[at..at + |h|] == h
    ensures CentralAt(s, at, e, crc, offset)
  {
    CentralFields(e, crc, offset);
    var h := CentralHeader(e, crc, offset);
    hide CentralHeader, U16, U32, Zeros, Little, Zeroed;
    Window(s, at, h, 0, 4);
    Window(s, at, h, 4, 6);
    Window(s, at, h, 6, 8);
    Window(s, at, h, 8, 16);
    Window(s, at, h, 16, 20);
    Window(s, at, h, 20, 24);
    Window(s, at, h, 24, 28);
    Window(s, at, h, 28, 30);
    Window(s, at, h, 30, 42);
    Window(s, at, h, 42, 46);
    Window(s, at, h, 46, |h|);
    LittleOf16(s, at + 4, 20);
    LittleOf16(s, at + 6, 20);
    ZeroedOf(s, at + 8, at + 16);
    LittleOf32(s, at + 16, crc);
    LittleOf32(s, at + 20, |e.body|);
    LittleOf32(s, at + 24, |e.body|);
    LittleOf16(s, at + 28, |e.name|);
    ZeroedOf(s, at + 30, at + 42);
    LittleOf32(s, at + 42, offset);
  }

  lemma EndInPlace(s: Bytes, at: nat, count: nat, size: nat, offset: nat)
    requires at + 22 == |s| && s[at..] == EndRecord(count, size, offset)
    ensures EndRecordAt(s, at, count, size, offset)
  {
    EndFields(count, size, offset);
    var h := EndRecord(count, size, offset);
    hide EndRecord, U16, U32, Zeros, Little, Zeroed;
    assert s[at..at + |h|] == h;
    Window(s, at, h, 0, 4);
    Window(s, at, h, 4, 8);
    Window(s, at, h, 8, 10);
    Window(s, at, h, 10, 12);
    Window(s, at, h, 12, 16);
    Window(s, at, h, 16, 20);
    Window(s, at, h, 20, 22);
    ZeroedOf(s, at + 4, at + 8);
    LittleOf16(s, at + 8, count);
    LittleOf16(s, at + 10, count);
    LittleOf32(s, at + 12, size);
    LittleOf32(s, at + 16, offset);
    ZeroedOf(s, at + 20, at + 22);
  }

  lemma {:induction false} Sizes(es: seq<Entry>, crc: Bytes -> nat, k: nat)
    requires k <= |es|
    ensures |Chunks(es[..k], crc)| == LocalSize(es, k) && |Directory(es[..k], crc)| == CentralSize(es, k)
  {
    if k > 0 {
      hide Chunks, Directory, LocalHeader, CentralHeader;
      Sizes(es, crc, k - 1);
      ChunksNext(es, crc, k - 1);
      DirectoryNext(es, crc, k - 1);
    }
  }

  lemma EntryInPlace(s: Bytes, c: Bytes, d: Bytes, es: seq<Entry>, crc: Bytes -> nat, k: nat)
    requires k < |es| && c == Chunks(es, crc) && d == Directory(es, crc)
    requires |c| + |d| <= |s| && s[..|c|] == c && s[|c|..|c| + |d|] == d
    ensures LocalAt(s, |Chunks(es[..k], crc)|, es[k], crc(es[k].body))
    ensures CentralAt(s, |c| + |Directory(es[..k], crc)|, es[k], crc(es[k].body), |Chunks(es[..k], crc)|)
  {
    hide Chunks, Directory, LocalHeader, CentralHeader, LocalAt, CentralAt;
    ChunkAt(es, crc, k);
    DirectoryAt(es, crc, k);
    var sum, at, ahead := crc(es[k].body), |Chunks(es[..k], crc)|, |Directory(es[..k], crc)|;
    var local, central := LocalHeader(es[k], sum) + es[k].body, CentralHeader(es[k], sum, at);
    assert s[0..0 + |c|] == c;
    Window(s, 0, c, at, at + |local|);
    LocalInPlace(s, at, es[k], sum);
    Window(s, |c|, d, ahead, ahead + |central|);
    CentralInPlace(s, |c| + ahead, es[k], sum, at);
  }

  lemma EntryLaidOut(es: seq<Entry>, crc: Bytes -> nat, k: nat)
    requires k < |es|
    ensures LocalAt(Archive(es, crc), LocalSize(es, k), es[k], crc(es[k].body))
    ensures CentralAt(Archive(es, crc), LocalSize(es, |es|) + CentralSize(es, k), es[k], crc(es[k].body), LocalSize(es, k))
  {
    hide Archive, Chunks, Directory, EndRecord, LocalAt, CentralAt, LocalSize, CentralSize;
    ArchiveParts(es, crc);
    WholeSizes(es, crc);
    Sizes(es, crc, k);
    EntryInPlace(Archive(es, crc), Chunks(es, crc), Directory(es, crc), es, crc, k);
  }

  lemma WholeSizes(es: seq<Entry>, crc: Bytes -> nat)
    ensures |Chunks(es, crc)| == LocalSize(es, |es|) && |Directory(es, crc)| == CentralSize(es, |es|)
  {
    hide Chunks, Directory, LocalSize, CentralSize;
    Sizes(es, crc, |es|);
    assert es[..|es|] == es;
  }

  lemma EndLaidOut(es: seq<Entry>, crc: Bytes -> nat)
    ensures var directory, size := LocalSize(es, |es|), CentralSize(es, |es|);
            EndRecordAt(Archive(es, crc), directory + size, |es|, size, directory)
  {
    hide Archive, Chunks, Directory, EndRecord, EndRecordAt, LocalSize, CentralSize;
    ArchiveParts(es, crc);
    WholeSizes(es, crc);
    EndInPlace(Archive(es, crc), LocalSize(es, |es|) + CentralSize(es, |es|), |es|, CentralSize(es, |es|), LocalSize(es, |es|));
  }

  /** Every byte of a written archive is where the format wants it. */
  lemma ArchiveIsLaidOut(es: seq<Entry>, crc: Bytes -> nat)
    ensures LaidOut(es, crc, Archive(es, crc))
  {
    hide Archive, LocalAt, CentralAt, EndRecordAt, LocalSize, CentralSize;
    EndLaidOut(es, crc);
    forall k | 0 <= k < |es|
      ensures LocalAt(Archive(es, crc), LocalSize(es, k), es[k], crc(es[k].body))
      ensures CentralAt(Archive(es, crc), LocalSize(es, |es|) + CentralSize(es, k), es[k], crc(es[k].body), LocalSize(es, k))
    {
      EntryLaidOut(es, crc, k);
    }
  }

  // ------------------------------------------------------------- the round trip

  /** Sizes within the 16- and 32-bit fields, and every local header within reach. */
  predicate Representable(es: seq<Entry>, crc: Bytes -> nat) {
    (forall k :: 0 <= k < |es| ==> FitsFields(es[k])) && |Chunks(es, crc)| < 0x1_0000_0000
  }

  predicate DistinctNames(es: seq<Entry>) {
    forall i, j :: 0 <= i < j < |es| ==> es[i].name != es[j].name
  }

  /** The directory of the entries from `k` up to `m`, over what is already known. */
  function Listed(es: seq<Entry>, crc: Bytes -> nat, k: nat, m: nat, found: map<Bytes, Member>): map<Bytes, Member>
    requires k <= m <= |es|
    decreases m - k
  {
    if k == m then found
    else Listed(es, crc, k + 1, m, found[es[k].name := Member(0, |Chunks(es[..k], crc)|, |es[k].body|)])
  }

  lemma RecordInPlace(s: Bytes, base: nat, es: seq<Entry>, crc: Bytes -> nat, k: nat)
    requires k < |es| && FitsFields(es[k]) && |Chunks(es[..k], crc)| < 0x1_0000_0000
    requires var d := Directory(es, crc); base + |d| <= |s| && s[base..base + |d|] == d
    ensures var at := base + |Directory(es[..k], crc)|;
            && RecordAt(s, at) == Ok((es[k].name, Member(0, |Chunks(es[..k], crc)|, |es[k].body|), at + 46 + |es[k].name|))
            && |Directory(es[..k + 1], crc)| == |Directory(es[..k], crc)| + 46 + |es[k].name|
  {
    hide RecordAt, CentralHeader, Chunks;
    DirectoryAt(es, crc, k);
    DirectoryNext(es, crc, k);
    hide Directory;
    var at, offset := |Directory(es[..k], crc)|, |Chunks(es[..k], crc)|;
    var h := CentralHeader(es[k], crc(es[k].body), offset);
    Window(s, base, Directory(es, crc), at, at + |h|);
    RecordReads(s, base + at, es[k], crc(es[k].body), offset);
  }

  lemma {:induction false} RecordsRead(s: Bytes, base: nat, es: seq<Entry>, crc: Bytes -> nat, k: nat, m: nat, found: map<Bytes, Member>)
    requires Representable(es, crc) && k <= m <= |es|
    requires var d := Directory(es, crc); base + |d| <= |s| && s[base..base + |d|] == d
    ensures RecordsFrom(s, base + |Directory(es[..k], crc)|, m - k, found) == Ok(Listed(es, crc, k, m, found))
    decreases m - k
  {
    hide RecordAt, Chunks, Directory;
    if k < m {
      ChunkAt(es, crc, k);
      RecordInPlace(s, base, es, crc, k);
      RecordsRead(s, base, es, crc, k + 1, m, found[es[k].name := Member(0, |Chunks(es[..k], crc)|, |es[k].body|)]);
    }
  }

  lemma EndPieces(count: nat, size: nat, offset: nat)
    ensures var h := EndRecord(count, size, offset);
            h[0..4] == U32(END) && h[10..12] == U16(count) && h[16..20] == U32(offset)
  {
    hide U16, U32;
  }

  lemma LastEnd(s: Bytes)
    requires |s| >= 22 && Get32(s, |s| - 22) == END
    ensures EndOf(s, |s| - 22) == |s| - 22
  {
    hide Get32;
  }

  lemma EndFound(s: Bytes, count: nat, size: nat, offset: nat)
    requires |s| >= 22 && s[|s| - 22..] == EndRecord(count, size, offset) && offset < 0x1_0000_0000
    ensures Members(s) == RecordsFrom(s, offset, count % 65536, map[])
  {
    EndPieces(count, size, offset);
    var h, at := EndRecord(count, size, offset), |s| - 22;
    hide EndRecord, U16, U32, Get16, Get32, RecordsFrom, EndOf;
    assert s[at..at + 22] == h;
    Window(s, at, h, 0, 4);
    Window(s, at, h, 10, 12);
    Window(s, at, h, 16, 20);
    Read32(s, at, END);
    LastEnd(s);
    Read16(s, at + 10, count);
    Read32(s, at + 16, offset);
  }

  lemma ArchiveParts(es: seq<Entry>, crc: Bytes -> nat)
    ensures var s, c, d := Archive(es, crc), Chunks(es, crc), Directory(es, crc);
            && |s| == |c| + |d| + 22 && s[..|c|] == c && s[|c|..|c| + |d|] == d
            && s[|s| - 22..] == EndRecord(|es|, |d|, |c|)
  {
    hide Chunks, Directory, EndRecord;
  }

  lemma NoRecordsYet(es: seq<Entry>, crc: Bytes -> nat)
    ensures |Directory(es[..0], crc)| == 0
  {
  }

  /** The reader lists the first `|entries| mod 65536` entries. */
  lemma MembersOfArchive(es: seq<Entry>, crc: Bytes -> nat)
    requires Representable(es, crc)
    ensures Members(Archive(es, crc)) == Ok(Listed(es, crc, 0, |es| % 65536, map[]))
  {
    hide Archive, RecordsFrom, Chunks, EndRecord, Listed, Members, Directory;
    ArchiveParts(es, crc);
    NoRecordsYet(es, crc);
    var s, c, d := Archive(es, crc), Chunks(es, crc), Directory(es, crc);
    EndFound(s, |es|, |d|, |c|);
    RecordsRead(s, |c|, es, crc, 0, |es| % 65536, map[]);
  }

  predicate Named(es: seq<Entry>, k: nat, m: nat, n: Bytes)
    requires m <= |es|
  {
    exists j :: k <= j < m && es[j].name == n
  }

  lemma {:induction false} ListedKeys(es: seq<Entry>, crc: Bytes -> nat, k: nat, m: nat, found: map<Bytes, Member>, n: Bytes)
    requires k <= m <= |es|
    ensures n in Listed(es, crc, k, m, found) <==> n in found || Named(es, k, m, n)
    decreases m - k
  {
    if k < m {
      hide Chunks;
      ListedKeys(es, crc, k + 1, m, found[es[k].name := Member(0, |Chunks(es[..k], crc)|, |es[k].body|)], n);
      if Named(es, k, m, n) {
        var j :| k <= j < m && es[j].name == n;
        assert j > k ==> Named(es, k + 1, m, n);
      }
    }
  }

  lemma {:induction false} ListedKeeps(es: seq<Entry>, crc: Bytes -> nat, k: nat, m: nat, found: map<Bytes, Member>, n: Bytes)
    requires k <= m <= |es| && n in found && !Named(es, k, m, n)
    ensures n in Listed(es, crc, k, m, found) && Listed(es, crc, k, m, found)[n] == found[n]
    decreases m - k
  {
    if k < m {
      hide Chunks;
      assert es[k].name != n;
      ListedKeeps(es, crc, k + 1, m, found[es[k].name := Member(0, |Chunks(es[..k], crc)|, |es[k].body|)], n);
    }
  }

  lemma {:induction false} ListedAt(es: seq<Entry>, crc: Bytes -> nat, k: nat, m: nat, found: map<Bytes, Member>, j: nat)
    requires k <= j < m <= |es| && DistinctNames(es)
    ensures es[j].name in Listed(es, crc, k, m, found)
    ensures Listed(es, crc, k, m, found)[es[j].name] == Member(0, |Chunks(es[..j], crc)|, |es[j].body|)
    decreases m - k
  {
    hide Chunks;
    var next := found[es[k].name := Member(0, |Chunks(es[..k], crc)|, |es[k].body|)];
    if k < j {
      ListedAt(es, crc, k + 1, m, next, j);
    } else {
      ListedKeeps(es, crc, k + 1, m, next, es[j].name);
    }
  }

  lemma LocalReads(s: Bytes, at: nat, e: Entry, crc: nat)
    requires FitsFields(e)
    requires var h := LocalHeader(e, crc); at + |h| <= |s| && s[at..at + |h|] == h
    ensures Get32(s, at) == LOCAL && Get16(s, at + 26) == |e.name| && Get16(s, at + 28) == 0
  {
    LocalPieces(e, crc);
    var h := LocalHeader(e, crc);
    hide LocalHeader, U16, U32, Get16, Get32;
    Window(s, at, h, 0, 4);
    Window(s, at, h, 26, 28);
    Window(s, at, h, 28, 30);
    Read32(s, at, LOCAL);
    Read16(s, at + 26, |e.name|);
    ReadZeros(s, at + 28);
  }

  lemma ContentReads(s: Bytes, e: Entry, crc: nat, at: nat, members: map<Bytes, Member>)
    requires FitsFields(e)
    requires var c := LocalHeader(e, crc) + e.body; at + |c| <= |s| && s[at..at + |c|] == c
    requires e.name in members && members[e.name] == Member(0, at, |e.body|)
    ensures MemberContent(s, members, e.name) == Ok(Stored(e.body))
  {
    hide LocalHeader, Get16, Get32;
    var h := LocalHeader(e, crc);
    Window(s, at, h + e.body, 0, |h|);
    Window(s, at, h + e.body, |h|, |h| + |e.body|);
    LocalReads(s, at, e, crc);
  }

  lemma StoredReads(es: seq<Entry>, crc: Bytes -> nat, k: nat, members: map<Bytes, Member>)
    requires k < |es| && FitsFields(es[k])
    requires es[k].name in members && members[es[k].name] == Member(0, |Chunks(es[..k], crc)|, |es[k].body|)
    ensures MemberContent(Archive(es, crc), members, es[k].name) == Ok(Stored(es[k].body))
  {
    ArchiveParts(es, crc);
    ChunkAt(es, crc, k);
    hide Archive, Chunks, Directory, LocalHeader, MemberContent;
    var s, c := Archive(es, crc), LocalHeader(es[k], crc(es[k].body)) + es[k].body;
    var at := |Chunks(es[..k], crc)|;
    Window(s, 0, Chunks(es, crc), at, at + |c|);
    ContentReads(s, es[k], crc(es[k].body), at, members);
  }

  /** Every one of the first `m` entries is found under its name with exactly
      its bytes, and nothing else is found. */
  ghost predicate FindsFirst(s: Bytes, found: map<Bytes, Member>, es: seq<Entry>, m: nat)
    requires m <= |es|
  {
    && (forall n :: n in found <==> Named(es, 0, m, n))
    && (forall k :: 0 <= k < m ==> MemberContent(s, found, es[k].name) == Ok(Stored(es[k].body)))
  }

  /** All entries are listed if and only if their number fits the 16-bit count. */
  ghost predicate ReadsBack(es: seq<Entry>, s: Bytes, r: Result<map<Bytes, Member>>) {
    && r.Ok? && FindsFirst(s, r.value, es, |es| % 65536)
    && ((forall k :: 0 <= k < |es| ==> es[k].name in r.value) <==> |es| < 65536)
  }

  /** ZIP round trip: the reader finds the first `|entries| mod 65536` entries
      with exactly their bytes. */
  lemma ZipRoundTrip(es: seq<Entry>, crc: Bytes -> nat)
    requires Representable(es, crc) && DistinctNames(es)
    ensures ReadsBack(es, Archive(es, crc), Members(Archive(es, crc)))
  {
    hide Archive, Members, MemberContent, Chunks;
    var m := |es| % 65536;
    MembersOfArchive(es, crc);
    hide Listed;
    var s, found := Archive(es, crc), Members(Archive(es, crc)).value;
    forall n ensures n in found <==> Named(es, 0, m, n) {
      ListedKeys(es, crc, 0, m, map[], n);
    }
    forall k | 0 <= k < m ensures MemberContent(s, found, es[k].name) == Ok(Stored(es[k].body)) {
      ListedAt(es, crc, 0, m, map[], k);
      StoredReads(es, crc, k, found);
    }
    assert FindsFirst(s, found, es, m);
    if m < |es| {
      assert es[m].name !in found;
    }
  }
}
