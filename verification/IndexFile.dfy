/** The index file of a pool (src/pool/index-file.go): its writer, and the reader of the block commented out at lines
    243-404 of that file, which shares the layout up to the offsets. */
module IndexFiles {
  import opened Base
  import opened Pool
  import opened Props

  type U32 = n: nat | n < UINT32

  datatype IndexValue = IndexValue(offset: U32, kind: Bytes)

  /** `RamIndex`. */
  type RamIndex = map<OID, IndexValue>

  const INDEX_MAGIC: Bytes := "ldumpidx"
  const INDEX_VERSION := 4

  // ---- the tables --------------------------------------------------------------------------

  /** How many keys have a first byte of at most `b`. */
  function CountTo(keys: seq<OID>, b: int): (n: nat)
    ensures n <= |keys|
  {
    if keys == [] then 0
    else CountTo(keys[..|keys| - 1], b) + if keys[|keys| - 1][0] as int <= b then 1 else 0
  }

  function TopTable(keys: seq<OID>): (t: seq<Bytes>)
    ensures |t| == 256 && forall b :: 0 <= b < 256 ==> t[b] == LE32(CountTo(keys, b))
  {
    seq(256, b => LE32(CountTo(keys, b)))
  }

  function OffsetTable(keys: seq<OID>, ri: RamIndex): (t: seq<Bytes>)
    requires forall k :: k in keys ==> k in ri
    ensures |t| == |keys| && forall i :: 0 <= i < |keys| ==> t[i] == LE32(ri[keys[i]].offset)
  {
    seq(|keys|, i requires 0 <= i < |keys| => LE32(ri[keys[i]].offset))
  }

  function KindsOf(ri: RamIndex): set<Bytes> {
    set k | k in ri :: ri[k].kind
  }

  function IndexOf(table: seq<Bytes>, kind: Bytes): (i: nat)
    requires kind in table
    ensures i < |table| && table[i] == kind
  {
    if table[0] == kind then 0 else 1 + IndexOf(table[1..], kind)
  }

  /** One byte a key: the place of its kind in the table, of which `byte` keeps eight bits. */
  function KindBytes(keys: seq<OID>, ri: RamIndex, table: seq<Bytes>): (t: seq<Bytes>)
    requires forall k :: k in keys ==> k in ri && ri[k].kind in table
    ensures |t| == |keys| && forall i :: 0 <= i < |keys| ==> t[i] == [Chr(IndexOf(table, ri[keys[i]].kind))]
  {
    seq(|keys|, i requires 0 <= i < |keys| => [Chr(IndexOf(table, ri[keys[i]].kind))])
  }

  function IndexHeader(size: nat): (b: Bytes)
    ensures |b| == 16
  {
    INDEX_MAGIC + LE32(INDEX_VERSION) + LE32(size)
  }

  function KindSection(keys: seq<OID>, ri: RamIndex, table: seq<Bytes>): Bytes
    requires forall k :: k in keys ==> k in ri && ri[k].kind in table
  {
    LE32(|table|) + Concat(table) + Concat(KindBytes(keys, ri, table))
  }

  ghost function SortedOids(s: set<OID>): (keys: seq<OID>)
    ensures StrictlySorted(keys) && forall k :: k in keys <==> k in s
  {
    var keys := SortedKeys(s);
    assert forall i :: 0 <= i < |keys| ==> keys[i] in s;
    keys
  }

  /** The contents of the file. */
  ghost function IndexBytes(ri: RamIndex, size: nat): Bytes {
    var keys, table := SortedOids(ri.Keys), SortedKeys(KindsOf(ri));
    IndexHeader(size) + Concat(TopTable(keys)) + Concat(keys) + Concat(OffsetTable(keys, ri))
    + KindSection(keys, ri, table)
  }

  // ---- looking into the tables -------------------------------------------------------------

  /** In sorted keys the first `CountTo(b)` are exactly those with a first byte of at most `b`. */
  lemma {:induction false} TopSplits(keys: seq<OID>, b: int, i: nat)
    requires StrictlySorted(keys) && i < |keys|
    ensures keys[i][0] as int <= b <==> i < CountTo(keys, b)
  {
    var n := |keys| - 1;
    if i < n {
      TopSplits(keys[..n], b, i);
      assert Less(keys[i], keys[n]);
      if keys[n][0] as int <= b {
        AllCount(keys[..n], b, keys[n]);
      }
    } else if keys[n][0] as int <= b {
      AllCount(keys[..n], b, keys[n]);
    }
  }

  lemma {:induction false} AllCount(keys: seq<OID>, b: int, last: OID)
    requires last[0] as int <= b && forall i :: 0 <= i < |keys| ==> Less(keys[i], last)
    ensures CountTo(keys, b) == |keys|
  {
    if keys != [] {
      AllCount(keys[..|keys| - 1], b, last);
    }
  }

  /** Entries of equal width can be found by multiplication. */
  lemma {:induction false} ConcatAt(things: seq<Bytes>, w: nat, i: nat)
    requires i <= |things| && forall k :: 0 <= k < |things| ==> |things[k]| == w
    ensures |Concat(things)| == w * |things| && w * i <= |Concat(things)|
    ensures i < |things| ==> w * i + w <= |Concat(things)| && Concat(things)[w * i..w * i + w] == things[i]
  {
    if things != [] {
      var rest := Concat(things[1..]);
      ConcatAt(things[1..], w, if i == 0 then 0 else i - 1);
      WidthStep(w, |things|);
      if i > 0 {
        WidthStep(w, i);
        if i < |things| {
          assert (things[0] + rest)[w * i..w * i + w] == rest[w * (i - 1)..w * (i - 1) + w];
        }
      }
    }
  }

  lemma WidthStep(w: nat, n: nat)
    requires n >= 1
    ensures w * n == w + w * (n - 1)
  {
  }

  /** `FileIndex`: the three tables as bytes. */
  datatype FileIndex = FileIndex(top: Bytes, oids: Bytes, offsets: Bytes) {
    predicate Valid() {
      |top| == 1024 && |oids| == OID_LEN * Len() && |offsets| == 4 * Len()
    }

    function GetTop(i: nat): nat
      requires |top| == 1024 && i < 256
    {
      UnLE32(top[4 * i..4 * i + 4])
    }

    function Len(): nat
      requires |top| == 1024
    {
      GetTop(255)
    }

    function GetOid(i: nat): OID
      requires Valid() && i < Len()
    {
      oids[OID_LEN * i..OID_LEN * i + OID_LEN]
    }

    function GetOffset(i: nat): nat
      requires Valid() && i < Len()
    {
      UnLE32(offsets[4 * i..4 * i + 4])
    }
  }

  /** The tables of sorted keys. */
  ghost predicate Tabulates(fi: FileIndex, keys: seq<OID>, ri: RamIndex) {
    && StrictlySorted(keys) && |keys| < UINT32 && (forall k :: k in keys <==> k in ri)
    && fi == FileIndex(Concat(TopTable(keys)), Concat(keys), Concat(OffsetTable(keys, ri)))
  }

  lemma TabulatesTop(fi: FileIndex, keys: seq<OID>, ri: RamIndex, b: nat)
    requires Tabulates(fi, keys, ri) && b < 256
    ensures |fi.top| == 1024 && fi.GetTop(b) == CountTo(keys, b)
  {
    hide LE32, UnLE32, CountTo, Concat, StrictlySorted;
    ConcatAt(TopTable(keys), 4, b);
    LE32RoundTrip(CountTo(keys, b));
  }

  lemma {:induction false} CountAll(keys: seq<OID>)
    ensures CountTo(keys, 255) == |keys|
  {
    if keys != [] {
      CountAll(keys[..|keys| - 1]);
    }
  }

  lemma TabulatesValid(fi: FileIndex, keys: seq<OID>, ri: RamIndex)
    requires Tabulates(fi, keys, ri)
    ensures fi.Valid() && fi.Len() == |keys|
  {
    TabulatesTop(fi, keys, ri, 255);
    CountAll(keys);
    ConcatAt(keys, OID_LEN, 0);
    ConcatAt(OffsetTable(keys, ri), 4, 0);
  }

  lemma TabulatesRow(fi: FileIndex, keys: seq<OID>, ri: RamIndex, i: nat)
    requires Tabulates(fi, keys, ri) && fi.Valid() && i < |keys| == fi.Len()
    ensures fi.GetOid(i) == keys[i] && keys[i] in ri && fi.GetOffset(i) == ri[keys[i]].offset
  {
    hide LE32, UnLE32, CountTo, Concat, StrictlySorted;
    ConcatAt(keys, OID_LEN, i);
    ConcatAt(OffsetTable(keys, ri), 4, i);
    assert keys[i] in keys;
    LE32RoundTrip(ri[keys[i]].offset);
  }

  /** `bytes.Compare`. */
  function Compare(a: Bytes, b: Bytes): int {
    if Less(a, b) then -1 else if a == b then 0 else 1
  }

  lemma FirstByte(a: OID, b: OID)
    requires a[0] < b[0]
    ensures Less(a, b)
  {
  }

  /** Before `low` the keys are smaller, beyond `high` they are greater. */
  ghost predicate Around(keys: seq<OID>, oid: OID, low: int, high: int) {
    && 0 <= low <= |keys| && -1 <= high < |keys| && low <= high + 1
    && (forall i :: 0 <= i < low ==> Less(keys[i], oid))
    && (forall i :: high < i < |keys| ==> Less(oid, keys[i]))
  }

  lemma StartAround(keys: seq<OID>, oid: OID)
    requires StrictlySorted(keys)
    ensures var b := oid[0] as int; Around(keys, oid, if b > 0 then CountTo(keys, b - 1) else 0, CountTo(keys, b) - 1)
  {
    var b := oid[0] as int;
    forall i | 0 <= i < |keys|
      ensures i < CountTo(keys, b - 1) ==> Less(keys[i], oid)
      ensures i >= CountTo(keys, b) ==> Less(oid, keys[i])
      ensures i < CountTo(keys, b - 1) ==> i < CountTo(keys, b)
    {
      TopSplits(keys, b - 1, i);
      TopSplits(keys, b, i);
      if keys[i][0] < oid[0] {
        FirstByte(keys[i], oid);
      }
    }
    assert CountTo(keys, b - 1) <= CountTo(keys, b) by {
      if CountTo(keys, b - 1) > 0 {
        TopSplits(keys, b - 1, CountTo(keys, b - 1) - 1);
        TopSplits(keys, b, CountTo(keys, b - 1) - 1);
      }
    }
  }

  lemma Narrow(keys: seq<OID>, oid: OID, low: int, high: int, mid: int)
    requires StrictlySorted(keys) && Around(keys, oid, low, high) && low <= mid <= high
    ensures Less(oid, keys[mid]) ==> Around(keys, oid, low, mid - 1)
    ensures Less(keys[mid], oid) ==> Around(keys, oid, mid + 1, high)
  {
    forall i | 0 <= i < |keys|
      ensures Less(oid, keys[mid]) && i > mid ==> Less(oid, keys[i])
      ensures Less(keys[mid], oid) && i < mid ==> Less(keys[i], oid)
    {
      if Less(oid, keys[mid]) && i > mid {
        LessTransitive(oid, keys[mid], keys[i]);
      }
      if Less(keys[mid], oid) && i < mid {
        LessTransitive(keys[i], keys[mid], oid);
      }
    }
  }

  lemma NotAround(keys: seq<OID>, oid: OID, low: int, high: int)
    requires Around(keys, oid, low, high) && low > high
    ensures oid !in keys
  {
    LessIrreflexive(oid);
  }

  /** Binary search in the part of the table for the first byte finds a key exactly when the map has it, and then
      gives the offset of the map. */
  method Lookup(fi: FileIndex, oid: OID, ghost keys: seq<OID>, ghost ri: RamIndex) returns (offset: Option<nat>)
    requires Tabulates(fi, keys, ri)
    ensures offset == if oid in ri then Some(ri[oid].offset) else None
  {
    hide StrictlySorted, Around, Less, CountTo, Tabulates, UnLE32, LE32, Concat;
    TabulatesKeys(fi, keys, ri);
    TabulatesValid(fi, keys, ri);
    StartAround(keys, oid);
    var topByte := oid[0] as int;
    var low := 0;
    if topByte > 0 {
      TabulatesTop(fi, keys, ri, topByte - 1);
      low := fi.GetTop(topByte - 1);
    }
    TabulatesTop(fi, keys, ri, topByte);
    var high := fi.GetTop(topByte) - 1;
    while high >= low
      invariant Around(keys, oid, low, high)
      decreases high - low
    {
      AroundBounds(keys, oid, low, high);
      var mid := low + (high - low) / 2;
      TabulatesRow(fi, keys, ri, mid);
      Narrow(keys, oid, low, high, mid);
      var v := Compare(fi.GetOid(mid), oid);
      if v > 0 {
        LessTotal(keys[mid], oid);
        high := mid - 1;
      } else if v < 0 {
        low := mid + 1;
      } else {
        return Some(fi.GetOffset(mid));
      }
    }
    NotAround(keys, oid, low, high);
    return None;
  }

  lemma TabulatesKeys(fi: FileIndex, keys: seq<OID>, ri: RamIndex)
    requires Tabulates(fi, keys, ri)
    ensures StrictlySorted(keys) && forall k :: k in keys <==> k in ri
  {
  }

  lemma AroundBounds(keys: seq<OID>, oid: OID, low: int, high: int)
    requires Around(keys, oid, low, high)
    ensures 0 <= low && high < |keys|
  {
  }

  // ---- reading a file ----------------------------------------------------------------------

  /** The file is long enough for its own size, and made for this version and pool size. */
  predicate Readable(file: Bytes, version: nat, poolSize: U32) {
    && |file| >= 1040 && file[..8] == INDEX_MAGIC
    && UnLE32(file[8..12]) == version && UnLE32(file[12..16]) == poolSize
    && |file| >= 1040 + (OID_LEN + 4) * FileIndex(file[16..1040], [], []).GetTop(255)
  }

  function Reading(file: Bytes): (fi: FileIndex)
    requires |file| >= 1040 && |file| >= 1040 + (OID_LEN + 4) * FileIndex(file[16..1040], [], []).GetTop(255)
    ensures fi.Valid()
  {
    var n := FileIndex(file[16..1040], [], []).GetTop(255);
    FileIndex(file[16..1040], file[1040..1040 + OID_LEN * n], file[1040 + OID_LEN * n..1040 + (OID_LEN + 4) * n])
  }

  /** `readFileIndex`. The version it accepts is a parameter: the old reader asks for 2 where the writer writes 4. */
  method ReadFileIndex(file: Bytes, version: nat, poolSize: U32) returns (fi: Option<FileIndex>)
    ensures fi == if Readable(file, version, poolSize) then Some(Reading(file)) else None
  {
    hide UnLE32;
    if |file| < 16 {
      return None;
    }
    if file[..8] != INDEX_MAGIC || UnLE32(file[8..12]) != version || UnLE32(file[12..16]) != poolSize {
      return None;
    }
    if |file| < 1040 {
      return None;
    }
    var r := FileIndex(file[16..1040], [], []);
    var size := r.GetTop(255);
    var a := 1040 + OID_LEN * size;
    if |file| < a {
      return None;
    }
    if |file| < a + 4 * size {
      return None;
    }
    r := r.(oids := file[1040..a], offsets := file[a..a + 4 * size]);
    return Some(r);
  }

  /** The parts of a sequence that begins with them. */
  lemma Parts(file: Bytes, h: Bytes, a: Bytes, b: Bytes, c: Bytes, rest: Bytes)
    requires file == h + a + b + c + rest
    ensures file[..|h|] == h && file[|h|..|h| + |a|] == a
    ensures file[|h| + |a|..|h| + |a| + |b|] == b
    ensures file[|h| + |a| + |b|..|h| + |a| + |b| + |c|] == c
  {
  }

  lemma HeaderParts(size: U32)
    ensures var h := IndexHeader(size);
      h[..8] == INDEX_MAGIC && UnLE32(h[8..12]) == INDEX_VERSION && UnLE32(h[12..16]) == size
  {
    hide LE32, UnLE32;
    LE32RoundTrip(INDEX_VERSION);
    LE32RoundTrip(size);
    assert IndexHeader(size)[8..12] == LE32(INDEX_VERSION) && IndexHeader(size)[12..16] == LE32(size);
  }

  lemma Prefix16(file: Bytes, h: Bytes)
    requires |h| == 16 && |file| >= 16 && file[..16] == h
    ensures file[..8] == h[..8] && file[8..12] == h[8..12] && file[12..16] == h[12..16]
  {
    assert forall i :: 0 <= i < 16 ==> file[i] == h[i];
  }

  /** A written file can be read by a reader of its version, and gives the tables of the map. */
  lemma WrittenReadable(ri: RamIndex, size: U32)
    requires |ri| < UINT32
    ensures var file, keys := IndexBytes(ri, size), SortedOids(ri.Keys);
      Readable(file, INDEX_VERSION, size) && Tabulates(Reading(file), keys, ri)
  {
    hide LE32, UnLE32, CountTo, Concat, StrictlySorted, KindSection;
    var keys, table := SortedOids(ri.Keys), SortedKeys(KindsOf(ri));
    FewKeys(ri);
    var fi := FileIndex(Concat(TopTable(keys)), Concat(keys), Concat(OffsetTable(keys, ri)));
    TabulatesValid(fi, keys, ri);
    HeaderParts(size);
    Laid(IndexBytes(ri, size), IndexHeader(size), fi, KindSection(keys, ri, table), size);
  }

  lemma Laid(file: Bytes, h: Bytes, fi: FileIndex, rest: Bytes, size: U32)
    requires file == h + fi.top + fi.oids + fi.offsets + rest && fi.Valid() && |h| == 16
    requires h[..8] == INDEX_MAGIC && UnLE32(h[8..12]) == INDEX_VERSION && UnLE32(h[12..16]) == size
    ensures Readable(file, INDEX_VERSION, size) && Reading(file) == fi
  {
    hide UnLE32;
    Parts(file, h, fi.top, fi.oids, fi.offsets, rest);
    Prefix16(file, h);
    assert FileIndex(file[16..1040], [], []).GetTop(255) == fi.Len();
  }

  function TopAt(b: Bytes, i: nat): nat
    requires i < 256 && |b| >= 1040
  {
    UnLE32(b[16 + 4 * i..20 + 4 * i])
  }

  function KeyAt(b: Bytes, i: nat): Bytes
    requires |b| >= 1060 + 20 * i
  {
    b[1040 + 20 * i..1060 + 20 * i]
  }

  function OffsetAt(b: Bytes, n: nat, i: nat): nat
    requires i < n && |b| >= 1040 + 24 * n
  {
    UnLE32(b[1040 + 20 * n + 4 * i..1044 + 20 * n + 4 * i])
  }

  /** The layout of the file: the magic, version 4 and the size of the pool; from 16 a count for each first byte; from
      1040 the keys, twenty bytes each; then their offsets, four bytes each; then the kinds. */
  lemma FileLayout(ri: RamIndex, size: U32, b: Bytes, keys: seq<OID>)
    requires |ri| < UINT32 && b == IndexBytes(ri, size) && keys == SortedOids(ri.Keys)
    ensures |b| >= 1040 + 24 * |keys|
    ensures b[..8] == "ldumpidx" && UnLE32(b[8..12]) == 4 && UnLE32(b[12..16]) == size
    ensures forall i :: 0 <= i < 256 ==> TopAt(b, i) == CountTo(keys, i)
    ensures forall i :: 0 <= i < |keys| ==> KeyAt(b, i) == keys[i]
    ensures forall i :: 0 <= i < |keys| ==> keys[i] in ri && OffsetAt(b, |keys|, i) == ri[keys[i]].offset
    ensures b[1040 + 24 * |keys|..] == KindSection(keys, ri, SortedKeys(KindsOf(ri)))
  {
    hide *;
    WrittenReadable(ri, size);
    ReadableHeader(b, size);
    var fi := Reading(b);
    TabulatesValid(fi, keys, ri);
    KindsLast(ri, size, fi, keys);
    ReadingTables(b, fi, |keys|);
    forall i | 0 <= i < 256 ensures TopAt(b, i) == CountTo(keys, i) {
      TabulatesTop(fi, keys, ri, i);
      TopIn(b, fi, i);
    }
    forall i | 0 <= i < |keys|
      ensures KeyAt(b, i) == keys[i] && keys[i] in ri && OffsetAt(b, |keys|, i) == ri[keys[i]].offset
    {
      TabulatesRow(fi, keys, ri, i);
      RowIn(b, fi, |keys|, i);
    }
  }

  lemma ReadableHeader(b: Bytes, size: U32)
    requires Readable(b, INDEX_VERSION, size)
    ensures |b| >= 1040 && |b| >= 1040 + (OID_LEN + 4) * FileIndex(b[16..1040], [], []).GetTop(255)
    ensures b[..8] == "ldumpidx" && UnLE32(b[8..12]) == 4 && UnLE32(b[12..16]) == size
  {
    hide UnLE32;
  }

  lemma ReadingTables(b: Bytes, fi: FileIndex, n: nat)
    requires |b| >= 1040 && |b| >= 1040 + (OID_LEN + 4) * FileIndex(b[16..1040], [], []).GetTop(255)
    requires fi == Reading(b) && fi.Valid() && fi.Len() == n && |b| >= 1040 + 24 * n
    ensures fi.top == b[16..1040] && fi.oids == b[1040..1040 + 20 * n]
    ensures fi.offsets == b[1040 + 20 * n..1040 + 24 * n]
  {
    hide UnLE32;
    assert FileIndex(b[16..1040], [], []).GetTop(255) == n;
  }

  lemma TopIn(b: Bytes, fi: FileIndex, i: nat)
    requires i < 256 && |b| >= 1040 && fi.top == b[16..1040]
    ensures fi.GetTop(i) == TopAt(b, i)
  {
    hide UnLE32;
    Within(b, 16, 1024, 4 * i, 4);
  }

  lemma RowIn(b: Bytes, fi: FileIndex, n: nat, i: nat)
    requires i < n && |b| >= 1040 + 24 * n && fi.Valid() && fi.Len() == n
    requires fi.oids == b[1040..1040 + 20 * n] && fi.offsets == b[1040 + 20 * n..1040 + 24 * n]
    ensures fi.GetOid(i) == KeyAt(b, i) && fi.GetOffset(i) == OffsetAt(b, n, i)
  {
    hide UnLE32;
    Within(b, 1040, 20 * n, 20 * i, 20);
    Within(b, 1040 + 20 * n, 4 * n, 4 * i, 4);
  }

  lemma Within(b: Bytes, at: nat, len: nat, from: nat, w: nat)
    requires at + len <= |b| && from + w <= len
    ensures b[at..at + len][from..from + w] == b[at + from..at + from + w]
  {
    var c, d := b[at..at + len][from..from + w], b[at + from..at + from + w];
    assert forall k :: 0 <= k < w ==> c[k] == d[k];
  }

  lemma KindsLast(ri: RamIndex, size: U32, fi: FileIndex, keys: seq<OID>)
    requires keys == SortedOids(ri.Keys) && Tabulates(fi, keys, ri) && fi.Valid() && fi.Len() == |keys|
    ensures |IndexBytes(ri, size)| >= 1040 + 24 * |keys|
    ensures IndexBytes(ri, size)[1040 + 24 * |keys|..] == KindSection(keys, ri, SortedKeys(KindsOf(ri)))
  {
    hide LE32, CountTo, Concat, StrictlySorted, KindSection;
    var front := IndexHeader(size) + fi.top + fi.oids + fi.offsets;
    assert IndexBytes(ri, size) == front + KindSection(keys, ri, SortedKeys(KindsOf(ri)));
  }

  lemma FewKeys(ri: RamIndex)
    ensures |SortedOids(ri.Keys)| <= |ri|
  {
    assert |ri.Keys| == |ri|;
  }

  /** Looking a key up in a written file gives what the map gives. */
  method LookupInFile(file: Bytes, size: U32, oid: OID, ghost ri: RamIndex) returns (offset: Option<nat>)
    requires |ri| < UINT32 && file == IndexBytes(ri, size)
    ensures offset == if oid in ri then Some(ri[oid].offset) else None
  {
    hide LE32, UnLE32, CountTo, Concat, StrictlySorted, IndexBytes;
    WrittenReadable(ri, size);
    ghost var keys := SortedOids(ri.Keys);
    var fi := ReadFileIndex(file, INDEX_VERSION, size);
    offset := Lookup(fi.value, oid, keys, ri);
  }

  // ---- kinds -------------------------------------------------------------------------------

  /** The kind of key `i` as the kind section gives it: what a reader would do. The source only writes the section; the
      loader stops at the offsets. */
  function ReadKind(section: Bytes, i: nat): Option<Bytes> {
    if |section| < 4 then None
    else
      var n := UnLE32(section[..4]);
      if |section| <= 4 + 4 * n + i then None
      else
        var at := 4 + 4 * section[4 + 4 * n + i] as int;
        if |section| < at + 4 then None else Some(section[at..at + 4])
  }

  lemma ReadKindParts(section: Bytes, count: Bytes, names: Bytes, bytes: Bytes, n: nat, index: nat, i: nat)
    requires section == count + names + bytes && |count| == 4 && UnLE32(count) == n && |names| == 4 * n
    requires i < |bytes| && bytes[i] as int == index && index < n
    ensures ReadKind(section, i) == Some(names[4 * index..4 * index + 4])
  {
    hide UnLE32;
    assert section[..4] == count;
    assert section[4 + 4 * n + i] == bytes[i];
    assert section[4 + 4 * index..4 + 4 * index + 4] == names[4 * index..4 * index + 4];
  }

  /** The place that a byte keeps of a kind's place. */
  function PlaceRead(table: seq<Bytes>, kind: Bytes): (i: nat)
    requires kind in table
    ensures i < |table| && Chr(IndexOf(table, kind)) as int == i
    ensures IndexOf(table, kind) < 256 ==> i == IndexOf(table, kind)
  {
    IndexOf(table, kind) % 256
  }

  /** What the kind section belongs to. */
  ghost predicate Kinds(keys: seq<OID>, ri: RamIndex, table: seq<Bytes>) {
    && StrictlySorted(table) && |table| < UINT32 && (forall k :: k in table <==> k in KindsOf(ri))
    && (forall k :: k in keys <==> k in ri) && forall k :: k in ri ==> |ri[k].kind| == 4
  }

  lemma KindsTable(keys: seq<OID>, ri: RamIndex, table: seq<Bytes>)
    requires Kinds(keys, ri, table)
    ensures forall k :: k in keys ==> k in ri && ri[k].kind in table
    ensures forall i :: 0 <= i < |table| ==> |table[i]| == 4
  {
    hide StrictlySorted;
    forall i | 0 <= i < |table| ensures |table[i]| == 4 {
      assert table[i] in table;
    }
  }

  lemma ReadKindOf(keys: seq<OID>, ri: RamIndex, table: seq<Bytes>, i: nat)
    requires i < |keys| && Kinds(keys, ri, table)
    ensures keys[i] in ri && ri[keys[i]].kind in table && forall k :: k in keys ==> k in ri && ri[k].kind in table
    ensures ReadKind(KindSection(keys, ri, table), i) == Some(table[PlaceRead(table, ri[keys[i]].kind)])
  {
    hide LE32, UnLE32, Concat, IndexOf, Kinds, ReadKind, Chr, PlaceRead;
    KindsTable(keys, ri, table);
    assert keys[i] in keys;
    var index := PlaceRead(table, ri[keys[i]].kind);
    var names, bytes := Concat(table), Concat(KindBytes(keys, ri, table));
    ConcatAt(table, 4, index);
    ConcatAt(KindBytes(keys, ri, table), 1, i);
    LE32RoundTrip(|table|);
    FewTable(keys, ri, table);
    assert bytes[i] == bytes[i..i + 1][0];
    ReadKindParts(KindSection(keys, ri, table), LE32(|table|), names, bytes, |table|, index, i);
  }

  lemma FewTable(keys: seq<OID>, ri: RamIndex, table: seq<Bytes>)
    requires Kinds(keys, ri, table)
    ensures |table| % UINT32 == |table|
  {
    hide StrictlySorted;
  }

  /** The section gives every key its kind exactly when there are at most 256 different kinds. */
  lemma KindsReadBack(keys: seq<OID>, ri: RamIndex, table: seq<Bytes>)
    requires Kinds(keys, ri, table)
    ensures forall k :: k in keys ==> k in ri && ri[k].kind in table
    ensures (forall i :: 0 <= i < |keys| ==> ReadKind(KindSection(keys, ri, table), i) == Some(ri[keys[i]].kind))
      <==> |table| <= 256
  {
    hide ReadKind, KindSection, IndexOf, Kinds;
    KindsTable(keys, ri, table);
    if |table| > 256 {
      var i := LostKind(keys, ri, table);
    } else {
      forall i | 0 <= i < |keys|
        ensures ReadKind(KindSection(keys, ri, table), i) == Some(ri[keys[i]].kind)
      {
        ReadKindOf(keys, ri, table, i);
      }
    }
  }

  lemma LostKind(keys: seq<OID>, ri: RamIndex, table: seq<Bytes>) returns (i: nat)
    requires Kinds(keys, ri, table) && |table| > 256
    ensures forall k :: k in keys ==> k in ri && ri[k].kind in table
    ensures i < |keys| && ReadKind(KindSection(keys, ri, table), i) != Some(ri[keys[i]].kind)
  {
    hide ReadKind, KindSection, IndexOf, StrictlySorted;
    KindsTable(keys, ri, table);
    assert table[256] in table;
    i := KeyOfKind(keys, ri, table[256]);
    KindPlace(table, 256);
    Different(table, 0, 256);
    ReadKindOf(keys, ri, table, i);
  }

  lemma KeyOfKind(keys: seq<OID>, ri: RamIndex, kind: Bytes) returns (i: nat)
    requires kind in KindsOf(ri) && forall k :: k in keys <==> k in ri
    ensures i < |keys| && keys[i] in ri && ri[keys[i]].kind == kind
  {
    var k: OID :| k in ri && ri[k].kind == kind;
    i :| 0 <= i < |keys| && keys[i] == k;
  }

  lemma Different(table: seq<Bytes>, i: nat, j: nat)
    requires StrictlySorted(table) && i < j < |table|
    ensures table[i] != table[j]
  {
    LessIrreflexive(table[i]);
  }

  lemma KindPlace(table: seq<Bytes>, i: nat)
    requires StrictlySorted(table) && i < |table|
    ensures table[i] in table && IndexOf(table, table[i]) == i
  {
    hide Less;
    var j := IndexOf(table, table[i]);
    if j < i {
      Different(table, j, i);
    } else if i < j {
      Different(table, i, j);
    }
  }

  // ---- writing -----------------------------------------------------------------------------

  /** A directory of files. Calls may fail; a failing write may still write a part. */
  class Folder {
    var files: map<Bytes, Bytes>
    ghost var faults: nat   // calls that failed

    constructor ()
      ensures files == map[] && faults == 0
    {
      files, faults := map[], 0;
    }

    method Fails() returns (failed: bool)
      modifies this`faults
      ensures faults == old(faults) + if failed then 1 else 0
    {
      failed := EnvFails();
      faults := faults + if failed then 1 else 0;
    }

    method Create(name: Bytes) returns (ok: bool)
      modifies this
      ensures SameBut(old(files), files, name)
      ensures ok ==> name in files && files[name] == []
      ensures faults >= old(faults) && (!ok ==> faults > old(faults))
    {
      var failed := Fails();
      if failed {
        return false;
      }
      files := files[name := []];
      return true;
    }

    method Write(name: Bytes, b: Bytes) returns (ok: bool)
      requires name in files
      modifies this
      ensures SameBut(old(files), files, name) && name in files
      ensures ok ==> files[name] == old(files[name]) + b
      ensures faults >= old(faults) && (!ok ==> faults > old(faults))
    {
      var failed := Fails();
      var n := *;
      files := files[name := files[name] + if failed && 0 <= n < |b| then b[..n] else b];
      return !failed;
    }

    method Rename(name: Bytes, path: Bytes) returns (ok: bool)
      modifies this
      ensures ok ==> name in old(files) && files == (old(files) - {name})[path := old(files)[name]]
      ensures !ok ==> files == old(files)
      ensures faults >= old(faults) && (!ok ==> name !in old(files) || faults > old(faults))
    {
      var failed := Fails();
      if failed || name !in files {
        return false;
      }
      files := (files - {name})[path := files[name]];
      return true;
    }

    method Remove(name: Bytes) returns (ok: bool)
      modifies this
      ensures files == if ok then old(files) - {name} else old(files)
      ensures faults >= old(faults)
    {
      var failed := Fails();
      if failed {
        return false;
      }
      files := files - {name};
      return true;
    }
  }

  lemma ConcatSnoc(things: seq<Bytes>, i: nat)
    requires i < |things|
    ensures Concat(things[..i + 1]) == Concat(things[..i]) + things[i]
  {
    ConcatAppend(things[..i], [things[i]]);
    assert things[..i + 1] == things[..i] + [things[i]];
    assert Concat([things[i]]) == things[i] + [];
  }

  /** `writeBufferedThings`: for any grouping the same as writing everything at once. `things[i]` is what adding
      the i-th thing puts into the buffer. */
  method WriteBufferedThings(fd: Folder, name: Bytes, grouping: nat, things: seq<Bytes>) returns (ok: bool)
    requires name in fd.files
    modifies fd
    ensures SameBut(old(fd.files), fd.files, name) && name in fd.files
    ensures ok ==> fd.files[name] == old(fd.files[name]) + Concat(things)
    ensures fd.faults >= old(fd.faults) && (!ok ==> fd.faults > old(fd.faults))
  {
    hide Concat;
    ghost var start := fd.files[name];
    var buf: Bytes := [];
    var subcount := 0;
    NothingYet(start, things);
    for i := 0 to |things|
      invariant SameBut(old(fd.files), fd.files, name) && name in fd.files
      invariant fd.files[name] + buf == start + Concat(things[..i]) && fd.faults >= old(fd.faults)
      invariant subcount == 0 ==> buf == []
    {
      ConcatSnoc(things, i);
      Assoc(fd.files[name], buf, things[i]);
      Assoc(start, Concat(things[..i]), things[i]);
      buf := buf + things[i];
      subcount := subcount + 1;
      if subcount == grouping {
        ok := fd.Write(name, buf);
        if !ok {
          return false;
        }
        buf, subcount := [], 0;
        assert fd.files[name] + [] == fd.files[name];
      }
    }
    assert things[..|things|] == things;
    if subcount > 0 {
      ok := fd.Write(name, buf);
      return ok;
    }
    assert fd.files[name] + [] == fd.files[name];
    return true;
  }

  lemma NothingYet(start: Bytes, things: seq<Bytes>)
    ensures start + [] == start + Concat(things[..0])
  {
  }

  /** `writeTop`. */
  method WriteTop(fd: Folder, name: Bytes, keys: seq<OID>) returns (ok: bool)
    requires name in fd.files && StrictlySorted(keys)
    modifies fd
    ensures SameBut(old(fd.files), fd.files, name) && name in fd.files
    ensures ok ==> fd.files[name] == old(fd.files[name]) + Concat(TopTable(keys))
    ensures fd.faults >= old(fd.faults) && (!ok ==> fd.faults > old(fd.faults))
  {
    hide StrictlySorted, Concat, LE32, CountTo;
    var top: Bytes := [];
    var offset := 0;
    ghost var table := TopTable(keys);
    NothingYet([], table);
    CountNone(keys);
    for first := 0 to 256
      invariant fd.files == old(fd.files) && fd.faults == old(fd.faults)
      invariant offset == CountTo(keys, first - 1) && top == Concat(table[..first])
    {
      CountGrows(keys, first);
      while offset < |keys| && keys[offset][0] as int <= first
        invariant fd.files == old(fd.files) && fd.faults == old(fd.faults) && offset <= CountTo(keys, first)
      {
        TopSplits(keys, first, offset);
        offset := offset + 1;
      }
      if offset < |keys| {
        TopSplits(keys, first, offset);
      }
      ConcatSnoc(table, first);
      top := top + LE32(offset);
    }
    assert table[..256] == table;
    ok := fd.Write(name, top);
  }

  lemma {:induction false} CountNone(keys: seq<OID>)
    ensures CountTo(keys, -1) == 0
  {
    if keys != [] {
      CountNone(keys[..|keys| - 1]);
    }
  }

  lemma {:induction false} CountGrows(keys: seq<OID>, b: int)
    ensures CountTo(keys, b - 1) <= CountTo(keys, b)
  {
    if keys != [] {
      CountGrows(keys[..|keys| - 1], b);
    }
  }

  /** `writeKinds`: the kinds in use, sorted, then one byte a key. */
  method WriteKinds(fd: Folder, name: Bytes, keys: seq<OID>, ri: RamIndex) returns (ok: bool)
    requires name in fd.files && forall k :: k in keys <==> k in ri
    modifies fd
    ensures SameBut(old(fd.files), fd.files, name) && name in fd.files
    ensures var table := SortedKeys(KindsOf(ri));
      && (forall k :: k in keys ==> k in ri && ri[k].kind in table)
      && (ok ==> fd.files[name] == old(fd.files[name]) + KindSection(keys, ri, table))
    ensures fd.faults >= old(fd.faults) && (!ok ==> fd.faults > old(fd.faults))
  {
    hide Concat, StrictlySorted, KindBytes, KindsOf;
    var table := KindsInUse(keys, ri);
    var head := LE32(|table|) + Concat(table);
    ok := fd.Write(name, head);
    if !ok {
      return;
    }
    ghost var before := old(fd.files[name]);
    ok := WriteBufferedThings(fd, name, 4096, KindBytes(keys, ri, table));
    Assoc(before, head, Concat(KindBytes(keys, ri, table)));
  }

  method KindsInUse(keys: seq<OID>, ri: RamIndex) returns (table: seq<Bytes>)
    requires forall k :: k in keys <==> k in ri
    ensures table == SortedKeys(KindsOf(ri)) && forall k :: k in keys ==> k in ri && ri[k].kind in table
  {
    hide StrictlySorted, KindsOf;
    var all: seq<Bytes> := [];
    for i := 0 to |keys|
      invariant |all| == i && forall j :: 0 <= j < i ==> all[j] == ri[keys[j]].kind
    {
      all := all + [ri[keys[i]].kind];
    }
    table := SortStrings(all);
    KindsSorted(keys, ri, all, table);
  }

  lemma KindsSorted(keys: seq<OID>, ri: RamIndex, all: seq<Bytes>, table: seq<Bytes>)
    requires StrictlySorted(table) && (forall k :: k in table <==> k in all) && forall k :: k in keys <==> k in ri
    requires |all| == |keys| && forall j :: 0 <= j < |keys| ==> all[j] == ri[keys[j]].kind
    ensures table == SortedKeys(KindsOf(ri)) && forall k :: k in keys ==> k in ri && ri[k].kind in table
  {
    hide StrictlySorted;
    forall kind ensures kind in all <==> kind in KindsOf(ri) {
      if kind in KindsOf(ri) {
        var i := KeyOfKind(keys, ri, kind);
        assert all[i] == kind;
      }
    }
    SortedUnique(table, SortedKeys(KindsOf(ri)));
  }

  /** The keys of the map, in any order, and sorted. */
  method SortedKeysOf(ri: RamIndex) returns (keys: seq<OID>)
    ensures keys == SortedOids(ri.Keys)
  {
    hide StrictlySorted;
    var found: seq<OID> := [];
    var rest := ri.Keys;
    while rest != {}
      invariant rest <= ri.Keys && forall k :: k in found <==> k in ri.Keys && k !in rest
      decreases |rest|
    {
      var k: OID :| k in rest;
      found := found + [k];
      rest := rest - {k};
    }
    var sorted := SortStrings(found);
    assert forall i :: 0 <= i < |sorted| ==> sorted[i] in found;
    keys := sorted;
    SortedUnique(keys, SortedOids(ri.Keys));
  }

  /** `WriteIndex`. Its result does not say whether the rename at the end worked: a reported success leaves the new
      index either in place or under the temporary name, and a failure leaves the old index. */
  method WriteIndex(fd: Folder, path: Bytes, ri: RamIndex, size: U32) returns (ok: bool)
    modifies fd
    ensures forall n :: n != path && n != path + ".tmp" ==>
      (n in fd.files <==> n in old(fd.files)) && (n in fd.files ==> fd.files[n] == old(fd.files)[n])
    ensures ok ==> Holds(fd.files, path, IndexBytes(ri, size)) || Holds(fd.files, path + ".tmp", IndexBytes(ri, size))
    ensures ok ==> Holds(fd.files, path, IndexBytes(ri, size)) || SameAt(old(fd.files), fd.files, path)
    ensures !ok ==> SameAt(old(fd.files), fd.files, path) && fd.faults > old(fd.faults)
    ensures fd.faults == old(fd.faults) ==>
      ok && Holds(fd.files, path, IndexBytes(ri, size)) && path + ".tmp" !in fd.files
  {
    hide Concat, StrictlySorted, IndexBytes, KindSection, KindsOf;
    var tmp := path + ".tmp";
    assert |tmp| > |path|;
    ok := fd.Create(tmp);
    if ok {
      ok := WriteParts(fd, tmp, ri, size);
    }
    if ok {
      var _ := fd.Rename(tmp, path);
    } else {
      var _ := fd.Remove(tmp);
    }
  }

  ghost predicate Holds(f: map<Bytes, Bytes>, name: Bytes, b: Bytes) {
    name in f && f[name] == b
  }

  ghost predicate SameAt(f: map<Bytes, Bytes>, g: map<Bytes, Bytes>, name: Bytes) {
    (name in g <==> name in f) && (name in g ==> g[name] == f[name])
  }

  /** The parts of the file, one after the other. */
  method WriteParts(fd: Folder, name: Bytes, ri: RamIndex, size: U32) returns (ok: bool)
    requires name in fd.files && fd.files[name] == []
    modifies fd
    ensures SameBut(old(fd.files), fd.files, name)
    ensures ok ==> name in fd.files && fd.files[name] == IndexBytes(ri, size)
    ensures fd.faults >= old(fd.faults) && (!ok ==> fd.faults > old(fd.faults))
  {
    hide Concat, StrictlySorted, KindSection, KindsOf, CountTo, LE32;
    ok := fd.Write(name, IndexHeader(size));
    if !ok { return; }
    assert [] + IndexHeader(size) == IndexHeader(size);
    var keys := SortedKeysOf(ri);
    ok := WriteTop(fd, name, keys);
    if !ok { return; }
    ok := WriteBufferedThings(fd, name, 1024, keys);
    if !ok { return; }
    ok := WriteBufferedThings(fd, name, 4096, OffsetTable(keys, ri));
    if !ok { return; }
    ok := WriteKinds(fd, name, keys, ri);
  }
}
