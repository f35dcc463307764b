/** The hand-written archive of frontend/src/lib/simpleXlsx.ts and the
    hand-written reader of frontend/src/lib/attachmentExcel.ts. Layouts are those
    of PKWARE APPNOTE.TXT sections 4.3.7, 4.3.12 and 4.3.16. */
module Zip {
  type byte = b: int | 0 <= b < 256

  type Bytes = seq<byte>

  datatype Entry = Entry(name: Bytes, body: Bytes)

  datatype Member = Member(how: nat, offset: nat, compressedSize: nat)

  /** `RangeError` is what a DataView throws for a read past the end. */
  datatype Failure = NotAZip | CorruptDirectory | CorruptEntry | RangeError | UnsupportedMethod

  datatype Result<+T> = Ok(value: T) | Err(error: Failure)

  const LOCAL: nat := 0x04034b50
  const CENTRAL: nat := 0x02014b50
  const END: nat := 0x06054b50

  // -------------------------------------------------------------- byte fields

  /** What `setUint16` stores, little-endian; higher bits are dropped. */
  function U16(v: nat): (s: Bytes)
    ensures |s| == 2
  {
    [v % 256, v / 256 % 256]
  }

  function U32(v: nat): (s: Bytes)
    ensures |s| == 4
  {
    U16(v) + U16(v / 65536)
  }

  function Zeros(n: nat): (s: Bytes)
    ensures |s| == n
  {
    seq(n, i => 0)
  }

  function Get16(s: Bytes, at: nat): nat
    requires at + 2 <= |s|
  {
    s[at] as int + 256 * (s[at + 1] as int)
  }

  function Get32(s: Bytes, at: nat): nat
    requires at + 4 <= |s|
  {
    Get16(s, at) + 65536 * Get16(s, at + 2)
  }

  /** `subarray`, which clamps its bounds. */
  function Sub(s: Bytes, from: nat, to: nat): Bytes {
    if from >= |s| || to <= from then [] else s[from..if to <= |s| then to else |s|]
  }

  // ---------------------------------------------------------------- the layout

  function LocalHeader(e: Entry, crc: nat): (s: Bytes)
    ensures |s| == 30 + |e.name|
  {
    U32(LOCAL) + U16(20) + Zeros(8) + U32(crc) + U32(|e.body|) + U32(|e.body|) + U16(|e.name|) + Zeros(2) + e.name
  }

  function CentralHeader(e: Entry, crc: nat, offset: nat): (s: Bytes)
    ensures |s| == 46 + |e.name|
  {
    U32(CENTRAL) + U16(20) + U16(20) + Zeros(8) + U32(crc) + U32(|e.body|) + U32(|e.body|) + U16(|e.name|)
    + Zeros(12) + U32(offset) + e.name
  }

  function EndRecord(count: nat, size: nat, offset: nat): (s: Bytes)
    ensures |s| == 22
  {
    U32(END) + Zeros(4) + U16(count) + U16(count) + U32(size) + U32(offset) + Zeros(2)
  }

  /** Local headers and bodies, entry after entry. */
  function Chunks(es: seq<Entry>, crc: Bytes -> nat): Bytes {
    if es == [] then []
    else
      var e := es[|es| - 1];
      Chunks(es[..|es| - 1], crc) + LocalHeader(e, crc(e.body)) + e.body
  }

  /** The central directory; each entry points at its local header. */
  function Directory(es: seq<Entry>, crc: Bytes -> nat): Bytes {
    if es == [] then []
    else
      var before, e := es[..|es| - 1], es[|es| - 1];
      Directory(before, crc) + CentralHeader(e, crc(e.body), |Chunks(before, crc)|)
  }

  function Archive(es: seq<Entry>, crc: Bytes -> nat): Bytes {
    Chunks(es, crc) + Directory(es, crc) + EndRecord(|es|, |Directory(es, crc)|, |Chunks(es, crc)|)
  }

  // ---------------------------------------------------------------- the writer

  method SetUint16(a: array<byte>, at: nat, v: nat)
    requires at + 2 <= a.Length
    modifies a
    ensures a[at..at + 2] == U16(v)
    ensures forall k :: 0 <= k < a.Length && !(at <= k < at + 2) ==> a[k] == old(a[k])
  {
    a[at] := v % 256;
    a[at + 1] := v / 256 % 256;
  }

  method SetUint32(a: array<byte>, at: nat, v: nat)
    requires at + 4 <= a.Length
    modifies a
    ensures a[at..at + 4] == U32(v)
    ensures forall k :: 0 <= k < a.Length && !(at <= k < at + 4) ==> a[k] == old(a[k])
  {
    SetUint16(a, at, v);
    SetUint16(a, at + 2, v / 65536);
    assert a[at..at + 4] == a[at..at + 2] + a[at + 2..at + 4];
  }

  method SetBytes(a: array<byte>, at: nat, s: Bytes)
    requires at + |s| <= a.Length
    modifies a
    ensures a[at..at + |s|] == s
    ensures forall k :: 0 <= k < a.Length && !(at <= k < at + |s|) ==> a[k] == old(a[k])
  {
    for i := 0 to |s|
      invariant forall k :: 0 <= k < i ==> a[at + k] == s[k]
      invariant forall k :: 0 <= k < a.Length && !(at <= k < at + i) ==> a[k] == old(a[k])
    {
      a[at + i] := s[i];
    }
  }

  /** The checksum, both sizes and the name length, side by side in both headers. */
  method SetSizes(a: array<byte>, at: nat, crc: nat, size: nat, nameLength: nat)
    requires at + 14 <= a.Length
    modifies a
    ensures a[at..at + 4] == U32(crc) && a[at + 4..at + 8] == U32(size) && a[at + 8..at + 12] == U32(size)
    ensures a[at + 12..at + 14] == U16(nameLength)
    ensures forall k :: 0 <= k < a.Length && !(at <= k < at + 14) ==> a[k] == old(a[k])
  {
    hide U16, U32;
    SetUint32(a, at, crc);
    SetUint32(a, at + 4, size);
    SetUint32(a, at + 8, size);
    SetUint16(a, at + 12, nameLength);
  }

  lemma Extend(s: Bytes, i: nat, j: nat)
    requires i <= j <= |s|
    ensures s[..j] == s[..i] + s[i..j]
  {
  }

  lemma LocalOfFields(s: Bytes, e: Entry, crc: nat)
    requires |s| == 30 + |e.name|
    requires s[0..4] == U32(LOCAL) && s[4..6] == U16(20) && s[6..14] == Zeros(8) && s[14..18] == U32(crc)
    requires s[18..22] == U32(|e.body|) && s[22..26] == U32(|e.body|) && s[26..28] == U16(|e.name|)
    requires s[28..30] == Zeros(2) && s[30..] == e.name
    ensures s == LocalHeader(e, crc)
  {
    hide U16, U32, Zeros;
    Extend(s, 4, 6);
    Extend(s, 6, 14);
    Extend(s, 14, 18);
    Extend(s, 18, 22);
    Extend(s, 22, 26);
    Extend(s, 26, 28);
    Extend(s, 28, 30);
    assert s == s[..30] + s[30..];
  }

  lemma CentralOfFields(s: Bytes, e: Entry, crc: nat, offset: nat)
    requires |s| == 46 + |e.name|
    requires s[0..4] == U32(CENTRAL) && s[4..6] == U16(20) && s[6..8] == U16(20) && s[8..16] == Zeros(8)
    requires s[16..20] == U32(crc) && s[20..24] == U32(|e.body|) && s[24..28] == U32(|e.body|) && s[28..30] == U16(|e.name|)
    requires s[30..42] == Zeros(12) && s[42..46] == U32(offset) && s[46..] == e.name
    ensures s == CentralHeader(e, crc, offset)
  {
    hide U16, U32, Zeros;
    Extend(s, 4, 6);
    Extend(s, 6, 8);
    Extend(s, 8, 16);
    Extend(s, 16, 20);
    Extend(s, 20, 24);
    Extend(s, 24, 28);
    Extend(s, 28, 30);
    Extend(s, 30, 42);
    Extend(s, 42, 46);
    assert s == s[..46] + s[46..];
  }

  lemma EndOfFields(s: Bytes, count: nat, size: nat, offset: nat)
    requires |s| == 22
    requires s[0..4] == U32(END) && s[4..8] == Zeros(4) && s[8..10] == U16(count) && s[10..12] == U16(count)
    requires s[12..16] == U32(size) && s[16..20] == U32(offset) && s[20..22] == Zeros(2)
    ensures s == EndRecord(count, size, offset)
  {
    hide U16, U32, Zeros;
    Extend(s, 4, 8);
    Extend(s, 8, 10);
    Extend(s, 10, 12);
    Extend(s, 12, 16);
    Extend(s, 16, 20);
    Extend(s, 20, 22);
    assert s == s[..22];
  }

  method WriteLocal(e: Entry, crc: nat) returns (header: Bytes)
    ensures header == LocalHeader(e, crc)
  {
    hide U16, U32;
    var a := new byte[30 + |e.name|](i => 0);
    SetUint32(a, 0, LOCAL);
    SetUint16(a, 4, 20);
    SetSizes(a, 14, crc, |e.body|, |e.name|);
    SetBytes(a, 30, e.name);
    header := a[..];
    hide LocalHeader;
    LocalOfFields(header, e, crc);
  }

  method WriteCentral(e: Entry, crc: nat, offset: nat) returns (header: Bytes)
    ensures header == CentralHeader(e, crc, offset)
  {
    hide U16, U32;
    var a := new byte[46 + |e.name|](i => 0);
    SetUint32(a, 0, CENTRAL);
    SetUint16(a, 4, 20);
    SetUint16(a, 6, 20);
    SetSizes(a, 16, crc, |e.body|, |e.name|);
    SetUint32(a, 42, offset);
    SetBytes(a, 46, e.name);
    header := a[..];
    hide CentralHeader;
    CentralOfFields(header, e, crc, offset);
  }

  method WriteEnd(count: nat, size: nat, offset: nat) returns (record: Bytes)
    ensures record == EndRecord(count, size, offset)
  {
    hide U16, U32;
    var a := new byte[22](i => 0);
    SetUint32(a, 0, END);
    SetUint16(a, 8, count);
    SetUint16(a, 10, count);
    SetUint32(a, 12, size);
    SetUint32(a, 16, offset);
    record := a[..];
    hide EndRecord;
    EndOfFields(record, count, size, offset);
  }

  /** `storedZip`: local headers, bodies, the directory and its end record. */
  method StoredZip(es: seq<Entry>, crc: Bytes -> nat) returns (zip: Bytes)
    ensures zip == Archive(es, crc)
  {
    var chunks: Bytes, directory: Bytes := [], [];
    var offset := 0;
    for k := 0 to |es|
      invariant chunks == Chunks(es[..k], crc) && directory == Directory(es[..k], crc) && offset == |chunks|
    {
      var e := es[k];
      assert es[..k + 1][..k] == es[..k] && es[..k + 1][k] == e;
      var checksum := crc(e.body);
      var local := WriteLocal(e, checksum);
      var central := WriteCentral(e, checksum, offset);
      chunks := chunks + local + e.body;
      directory := directory + central;
      offset := offset + |local| + |e.body|;
    }
    assert es[..|es|] == es;
    var end := WriteEnd(|es|, |directory|, offset);
    zip := chunks + directory + end;
  }

  // ---------------------------------------------------------------- the reader

  /** The number that bytes stand for, the lowest first. */
  function Little(s: Bytes): nat {
    if s == [] then 0 else s[0] as nat + 256 * Little(s[1..])
  }

  /** The letters PK and two more bytes: how every part of an archive starts. */
  predicate Marked(s: Bytes, at: nat, a: byte, b: byte) {
    at + 4 <= |s| && s[at..at + 4] == [0x50, 0x4b, a, b]
  }

  lemma Get16Is(s: Bytes, at: nat)
    requires at + 2 <= |s|
    ensures Get16(s, at) == Little(s[at..at + 2])
  {
    var two := s[at..at + 2];
    assert Little(two[1..]) == two[1] as nat + 256 * Little(two[1..][1..]) && two[1..][1..] == [];
  }

  lemma Get32Is(s: Bytes, at: nat)
    requires at + 4 <= |s|
    ensures Get32(s, at) == Little(s[at..at + 4])
  {
    var four := s[at..at + 4];
    assert four[1..][1..] == s[at + 2..at + 4];
    Get16Is(s, at + 2);
    hide Little;
    assert Little(four) == four[0] as nat + 256 * Little(four[1..]) && Little(four[1..]) == four[1] as nat + 256 * Little(four[1..][1..]) by {
      LittleNext(four);
      LittleNext(four[1..]);
    }
  }

  lemma LittleNext(s: Bytes)
    requires s != []
    ensures Little(s) == s[0] as nat + 256 * Little(s[1..])
  {
  }

  lemma MarkIs(s: Bytes, at: nat, a: byte, b: byte)
    requires at + 4 <= |s|
    ensures Marked(s, at, a, b) <==> Get32(s, at) == 0x50 + 256 * 0x4b + 65536 * (a as nat) + 0x100_0000 * (b as nat)
  {
    var four := s[at..at + 4];
    assert four[0] == s[at] && four[1] == s[at + 1] && four[2] == s[at + 2] && four[3] == s[at + 3];
    assert four == [s[at], s[at + 1], s[at + 2], s[at + 3]];
  }

  /** The last end record, no further than 65535 bytes in front of the end. */
  ghost predicate EndsAt(s: Bytes, at: nat) {
    && at + 22 <= |s| <= at + 22 + 65535 && Marked(s, at, 5, 6)
    && forall k: nat :: at < k && k + 22 <= |s| ==> !Marked(s, k, 5, 6)
  }

  ghost predicate NoEnd(s: Bytes) {
    forall k: nat :: k + 22 <= |s| <= k + 22 + 65535 ==> !Marked(s, k, 5, 6)
  }

  predicate WholeRecord(s: Bytes, at: nat) {
    at + 46 <= |s| && Marked(s, at, 1, 2)
  }

  /** The data of a part that may run past the end of the file. */
  predicate Slice(s: Bytes, at: nat, size: nat, data: Bytes) {
    if |s| < at then data == []
    else |data| == (if size <= |s| - at then size else |s| - at) && data == s[at..at + |data|]
  }

  /** A record follows the one before it, behind its name, extra field and comment. */
  predicate Follows(s: Bytes, at: nat, next: nat) {
    && WholeRecord(s, at)
    && next == at + 46 + Little(s[at + 28..at + 30]) + Little(s[at + 30..at + 32]) + Little(s[at + 32..at + 34])
  }

  /** A record of a name: its method, compressed size and offset. */
  predicate RecordOf(s: Bytes, at: nat, name: Bytes, m: Member) {
    && WholeRecord(s, at) && Slice(s, at + 46, Little(s[at + 28..at + 30]), name)
    && m.how == Little(s[at + 10..at + 12]) && m.compressedSize == Little(s[at + 20..at + 24]) && m.offset == Little(s[at + 42..at + 46])
  }

  ghost predicate Adds(s: Bytes, at: nat, before: map<Bytes, Member>, after: map<Bytes, Member>) {
    exists name, m :: RecordOf(s, at, name, m) && after == before[name := m]
  }

  /** The records found at `starts`, in turn; a name that comes again counts anew. */
  ghost predicate Lists(s: Bytes, starts: seq<nat>, found: map<Bytes, Member>) {
    if starts == [] then found == map[]
    else
      var at, front := starts[|starts| - 1], starts[..|starts| - 1];
      exists before :: Adds(s, at, before, found) && Lists(s, front, before)
  }

  /** A directory of `count` records from `first` on: all of them, or up to the
      first that is not there. */
  ghost predicate DirectoryOk(s: Bytes, first: nat, count: nat, starts: seq<nat>, r: Result<map<Bytes, Member>>) {
    && 0 < |starts| <= count + 1 && starts[0] == first
    && (forall k :: 0 <= k < |starts| - 1 ==> Follows(s, starts[k], starts[k + 1]))
    && match r
       case Ok(found) => |starts| == count + 1 && Lists(s, starts[..count], found)
       case Err(e) =>
         var at := starts[|starts| - 1];
         && |starts| <= count && !WholeRecord(s, at)
         && e == if at + 4 <= |s| && !Marked(s, at, 1, 2) then CorruptDirectory else RangeError
  }

  predicate EndAt(s: Bytes, i: nat) {
    i + 22 <= |s| && Get32(s, i) == END
  }

  function FirstEnd(s: Bytes): int {
    if |s| - 22 - 0xffff > 0 then |s| - 22 - 0xffff else 0
  }

  /** The last end record within the last 64 KiB, or -1. */
  function EndOf(s: Bytes, from: int): (i: int)
    requires from + 22 <= |s|
    ensures i >= 0 ==> FirstEnd(s) <= i <= from && EndAt(s, i) && forall k :: i < k <= from ==> !EndAt(s, k)
    ensures i < 0 ==> forall k: nat :: FirstEnd(s) <= k <= from ==> !EndAt(s, k)
    decreases from - FirstEnd(s) + 1
  {
    if from < FirstEnd(s) then -1
    else if EndAt(s, from) then from
    else EndOf(s, from - 1)
  }

  /** One directory record: the name, where the member is, and where the next
      record starts. */
  function RecordAt(s: Bytes, at: nat): Result<(Bytes, Member, nat)> {
    if at + 4 > |s| then Err(RangeError)
    else if Get32(s, at) != CENTRAL then Err(CorruptDirectory)
    else if at + 46 > |s| then Err(RangeError)
    else
      var next := at + 46 + Get16(s, at + 28);
      Ok((Sub(s, at + 46, next), Member(Get16(s, at + 10), Get32(s, at + 42), Get32(s, at + 20)),
          next + Get16(s, at + 30) + Get16(s, at + 32)))
  }

  function RecordsFrom(s: Bytes, at: nat, count: nat, found: map<Bytes, Member>): Result<map<Bytes, Member>>
    decreases count
  {
    if count == 0 then Ok(found)
    else match RecordAt(s, at)
      case Err(e) => Err(e)
      case Ok((name, member, next)) => RecordsFrom(s, next, count - 1, found[name := member])
  }

  function Members(s: Bytes): Result<map<Bytes, Member>> {
    var end := EndOf(s, |s| - 22);
    if end < 0 then Err(NotAZip) else RecordsFrom(s, Get32(s, end + 16), Get16(s, end + 10), map[])
  }

  lemma EndIs(s: Bytes, at: int)
    requires at == EndOf(s, |s| - 22)
    ensures at >= 0 ==> EndsAt(s, at)
    ensures at < 0 ==> NoEnd(s)
  {
    hide EndOf, Get32, Marked;
    forall k: nat | k + 22 <= |s| ensures Marked(s, k, 5, 6) <==> EndAt(s, k) {
      MarkIs(s, k, 5, 6);
    }
  }

  method FindEnd(s: Bytes) returns (eocd: int)
    ensures eocd == EndOf(s, |s| - 22)
    ensures eocd >= 0 ==> EndsAt(s, eocd)
    ensures eocd < 0 ==> NoEnd(s)
  {
    hide Get32, EndsAt, NoEnd;
    EndIs(s, EndOf(s, |s| - 22));
    var i := |s| - 22;
    while i >= FirstEnd(s)
      invariant i <= |s| - 22 && EndOf(s, |s| - 22) == EndOf(s, i)
      decreases i - FirstEnd(s) + 1
    {
      if Get32(s, i) == END {
        return i;
      }
      i := i - 1;
    }
    return -1;
  }

  /** The fields of one directory record, as numbers. */
  lemma RecordFields(s: Bytes, at: nat)
    requires at + 46 <= |s|
    ensures Get16(s, at + 10) == Little(s[at + 10..at + 12]) && Get32(s, at + 20) == Little(s[at + 20..at + 24])
    ensures Get32(s, at + 42) == Little(s[at + 42..at + 46]) && Get16(s, at + 28) == Little(s[at + 28..at + 30])
    ensures Get16(s, at + 30) == Little(s[at + 30..at + 32]) && Get16(s, at + 32) == Little(s[at + 32..at + 34])
  {
    hide Get16, Get32, Little;
    Get16Is(s, at + 10);
    Get32Is(s, at + 20);
    Get16Is(s, at + 28);
    Get16Is(s, at + 30);
    Get16Is(s, at + 32);
    Get32Is(s, at + 42);
  }

  lemma SubIs(s: Bytes, at: nat, size: nat)
    ensures Slice(s, at, size, Sub(s, at, at + size))
  {
  }

  lemma Listed1(s: Bytes, starts: seq<nat>, next: nat, before: map<Bytes, Member>, name: Bytes, m: Member)
    requires starts != [] && Lists(s, starts[..|starts| - 1], before) && RecordOf(s, starts[|starts| - 1], name, m)
    ensures Lists(s, (starts + [next])[..|starts|], before[name := m])
  {
    hide RecordOf;
    assert (starts + [next])[..|starts|] == starts;
    assert Adds(s, starts[|starts| - 1], before, before[name := m]);
  }

  /** `zipMembers`; `starts` are the places of the directory records it met. */
  method ZipMembers(s: Bytes) returns (r: Result<map<Bytes, Member>>, ghost starts: seq<nat>)
    ensures r == Members(s)
    ensures NoEnd(s) ==> r == Err(NotAZip)
    ensures forall end: nat :: EndsAt(s, end) ==>
              DirectoryOk(s, Little(s[end + 16..end + 20]), Little(s[end + 10..end + 12]), starts, r)
  {
    hide Get16, Get32, Sub, EndOf, Little, Lists, Slice, Marked;
    starts := [];
    var eocd := FindEnd(s);
    OneEnd(s, eocd);
    hide EndsAt, NoEnd;
    if eocd < 0 {
      return Err(NotAZip), [];
    }
    Get16Is(s, eocd + 10);
    Get32Is(s, eocd + 16);
    var count := Get16(s, eocd + 10);
    var offset: nat := Get32(s, eocd + 16);
    var members: map<Bytes, Member> := map[];
    ghost var first := offset;
    starts := [offset];
    NoneListed(s);
    assert starts[..0] == [];
    for k := 0 to count
      invariant RecordsFrom(s, offset, count - k, members) == Members(s)
      invariant |starts| == k + 1 && starts[0] == first && starts[k] == offset && Lists(s, starts[..k], members)
      invariant forall j :: 0 <= j < k ==> Follows(s, starts[j], starts[j + 1])
    {
      if offset + 4 > |s| {
        return Err(RangeError), starts;
      }
      MarkIs(s, offset, 1, 2);
      if Get32(s, offset) != CENTRAL {
        return Err(CorruptDirectory), starts;
      }
      if offset + 46 > |s| {
        return Err(RangeError), starts;
      }
      RecordFields(s, offset);
      var nameLength := Get16(s, offset + 28);
      var name := Sub(s, offset + 46, offset + 46 + nameLength);
      SubIs(s, offset + 46, nameLength);
      var member := Member(Get16(s, offset + 10), Get32(s, offset + 42), Get32(s, offset + 20));
      var next := offset + 46 + nameLength + Get16(s, offset + 30) + Get16(s, offset + 32);
      Listed1(s, starts, next, members, name, member);
      members := members[name := member];
      starts := starts + [next];
      offset := next;
    }
    return Ok(members), starts;
  }

  lemma NoneListed(s: Bytes)
    ensures Lists(s, [], map[])
  {
  }

  /** No archive has two last end records, nor one and none. */
  lemma OneEnd(s: Bytes, at: int)
    requires at >= 0 ==> EndsAt(s, at)
    requires at < 0 ==> NoEnd(s)
    ensures forall end: nat :: EndsAt(s, end) ==> end == at
    ensures NoEnd(s) ==> at < 0
  {
    hide Marked;
  }

  datatype Content = Absent | Stored(data: Bytes) | Deflated(data: Bytes)

  /** `memberText` up to inflation and decoding. */
  function MemberContent(s: Bytes, members: map<Bytes, Member>, name: Bytes): Result<Content> {
    if name !in members then Ok(Absent)
    else
      var m := members[name];
      if m.offset + 4 > |s| then Err(RangeError)
      else if Get32(s, m.offset) != LOCAL then Err(CorruptEntry)
      else if m.offset + 30 > |s| then Err(RangeError)
      else
        var start := m.offset + 30 + Get16(s, m.offset + 26) + Get16(s, m.offset + 28);
        var data := Sub(s, start, start + m.compressedSize);
        if m.how == 0 then Ok(Stored(data))
        else if m.how == 8 then Ok(Deflated(data))
        else Err(UnsupportedMethod)
  }

  /** What a member holds: the bytes behind its local header, with the name and
      extra field of that header skipped, as long as the directory says. */
  predicate ContentOk(s: Bytes, m: Member, r: Result<Content>) {
    var at := m.offset;
    if at + 30 > |s| || !Marked(s, at, 3, 4) then
      r == Err(if at + 4 <= |s| && !Marked(s, at, 3, 4) then CorruptEntry else RangeError)
    else
      var start := at + 30 + Little(s[at + 26..at + 28]) + Little(s[at + 28..at + 30]);
      match r
      case Ok(Absent) => false
      case Ok(Stored(data)) => m.how == 0 && Slice(s, start, m.compressedSize, data)
      case Ok(Deflated(data)) => m.how == 8 && Slice(s, start, m.compressedSize, data)
      case Err(e) => m.how != 0 && m.how != 8 && e == UnsupportedMethod
  }

  method ReadMember(s: Bytes, members: map<Bytes, Member>, name: Bytes) returns (r: Result<Content>)
    ensures r == MemberContent(s, members, name)
    ensures name !in members ==> r == Ok(Absent)
    ensures name in members ==> ContentOk(s, members[name], r)
  {
    hide Get16, Get32, Sub, Little, Slice, Marked;
    if name !in members {
      return Ok(Absent);
    }
    var m := members[name];
    if m.offset + 4 > |s| {
      return Err(RangeError);
    }
    MarkIs(s, m.offset, 3, 4);
    if Get32(s, m.offset) != LOCAL {
      return Err(CorruptEntry);
    }
    if m.offset + 30 > |s| {
      return Err(RangeError);
    }
    var start := m.offset + 30 + Get16(s, m.offset + 26) + Get16(s, m.offset + 28);
    Get16Is(s, m.offset + 26);
    Get16Is(s, m.offset + 28);
    SubIs(s, start, m.compressedSize);
    var slice := Sub(s, start, start + m.compressedSize);
    if m.how == 0 {
      return Ok(Stored(slice));
    }
    if m.how == 8 {
      return Ok(Deflated(slice));
    }
    return Err(UnsupportedMethod);
  }
}
