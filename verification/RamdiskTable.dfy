/** The vendor ramdisk table: fragments, their offsets in the ramdisk section, and their names. */
module RamdiskTable {
  import opened Bytes
  import opened Struct
  import opened ImageFiles
  import opened Wrappers

  const VENDOR_RAMDISK_TYPE_PLATFORM := 1
  const VENDOR_RAMDISK_NAME_SIZE := 32
  const VENDOR_RAMDISK_TABLE_ENTRY_BOARD_ID_SIZE := 16
  const VENDOR_RAMDISK_TABLE_ENTRY_V4_SIZE := 108
  // "default"
  const DEFAULT_NAME: seq<byte> := [100, 101, 102, 97, 117, 108, 116]

  /** The files a path can name. */
  type Disk = map<string, seq<byte>>

  datatype Entry = Entry(
    path: string,
    size: nat,
    offset: nat,
    kind: int,
    name: seq<byte>,
    boardId: seq<int>)

  function Content(disk: Disk, path: string): seq<byte> {
    if path in disk then disk[path] else []
  }

  /** One option group of the command line, or the --vendor_ramdisk file. */
  datatype Fragment = Fragment(path: string, kind: int, name: seq<byte>, boardId: Option<seq<int>>)

  /** The bytes of the first n fragments. */
  function SizeSum(entries: seq<Entry>, n: nat): nat
    requires n <= |entries|
  {
    if n == 0 then 0 else SizeSum(entries, n - 1) + entries[n - 1].size
  }

  lemma {:induction false} SizeSumOfPrefix(entries: seq<Entry>, more: seq<Entry>, n: nat)
    requires n <= |entries| && entries <= more
    ensures SizeSum(more, n) == SizeSum(entries, n)
  {
    if n > 0 {
      SizeSumOfPrefix(entries, more, n - 1);
    }
  }

  function BoardId(id: Option<seq<int>>): seq<int> {
    match id
    case None => seq(VENDOR_RAMDISK_TABLE_ENTRY_BOARD_ID_SIZE, _ => 0)
    case Some(words) => words
  }

  predicate WordsFit(words: seq<int>) {
    forall i :: 0 <= i < |words| ==> 0 <= words[i] < 0x1_0000_0000
  }

  /** The exception add_entry raises, in the order it checks. */
  function AddError(names: set<seq<byte>>, disk: Disk, f: Fragment): Outcome<ImageError> {
    var stripped := StripNuls(f.name);
    if stripped == DEFAULT_NAME then Fail(BannedName)
    else if stripped in names then Fail(DuplicatedName)
    else if !WordsFit(BoardId(f.boardId)) then Fail(BoardIdOverflow)
    else if |BoardId(f.boardId)| != VENDOR_RAMDISK_TABLE_ENTRY_BOARD_ID_SIZE then Fail(BoardIdSize)
    else if f.path !in disk then Fail(FileMissing)
    else Pass
  }

  function NewEntry(f: Fragment, disk: Disk, offset: nat): Entry
    requires f.path in disk
  {
    Entry(f.path, |disk[f.path]|, offset, f.kind, f.name, BoardId(f.boardId))
  }

  predicate EntryOk(entries: seq<Entry>, i: nat, disk: Disk)
    requires i < |entries|
  {
    var e := entries[i];
    && e.path in disk && e.size == |disk[e.path]|
    && e.offset == SizeSum(entries, i)
    && StripNuls(e.name) != DEFAULT_NAME
    && WordsFit(e.boardId) && |e.boardId| == VENDOR_RAMDISK_TABLE_ENTRY_BOARD_ID_SIZE
  }

  /** What every table the builder can reach looks like: offsets are prefix sums, names are pairwise
      distinct once their NULs are stripped, and none is the reserved one. */
  predicate TableOk(entries: seq<Entry>, disk: Disk) {
    && (forall i :: 0 <= i < |entries| ==> EntryOk(entries, i, disk))
    && (forall i, j :: 0 <= i < j < |entries| ==> StripNuls(entries[i].name) != StripNuls(entries[j].name))
  }

  lemma TableGrows(entries: seq<Entry>, disk: Disk, f: Fragment)
    requires TableOk(entries, disk)
    requires AddError(Names(entries), disk, f).Pass?
    ensures var more := entries + [NewEntry(f, disk, SizeSum(entries, |entries|))];
            && TableOk(more, disk)
            && SizeSum(more, |more|) == SizeSum(entries, |entries|) + |disk[f.path]|
            && Names(more) == Names(entries) + {StripNuls(f.name)}
  {
    var e := NewEntry(f, disk, SizeSum(entries, |entries|));
    var more := entries + [e];
    assert more[..|entries|] == entries;
    SizeSumOfPrefix(entries, more, |entries|);
    forall i | 0 <= i < |more|
      ensures EntryOk(more, i, disk)
    {
      if i < |entries| {
        assert EntryOk(entries, i, disk);
        SizeSumOfPrefix(entries, more, i);
      }
    }
    forall i | 0 <= i < |entries|
      ensures StripNuls(entries[i].name) in Names(entries)
    {
      NameListed(entries, i);
    }
  }

  function Names(entries: seq<Entry>): set<seq<byte>> {
    if entries == [] then {}
    else Names(entries[..|entries| - 1]) + {StripNuls(entries[|entries| - 1].name)}
  }

  lemma {:induction false} NameListed(entries: seq<Entry>, i: nat)
    requires i < |entries|
    ensures StripNuls(entries[i].name) in Names(entries)
  {
    if i < |entries| - 1 {
      NameListed(entries[..|entries| - 1], i);
    }
  }

  // ---- bytes of the two sections ----

  /** The first n fragments, one after the other. */
  function Fragments(entries: seq<Entry>, disk: Disk, n: nat): seq<byte>
    requires n <= |entries|
  {
    if n == 0 then [] else Fragments(entries, disk, n - 1) + Content(disk, entries[n - 1].path)
  }

  function EntryItems(e: Entry): seq<Item> {
    [U32(e.size), U32(e.offset), U32(e.kind), Text(VENDOR_RAMDISK_NAME_SIZE, e.name)]
    + seq(|e.boardId|, i requires 0 <= i < |e.boardId| => U32(e.boardId[i]))
  }

  function EntryBytes(e: Entry): seq<byte> {
    Pack(EntryItems(e))
  }

  /** The first n table entries. */
  function TableBytes(entries: seq<Entry>, n: nat): seq<byte>
    requires n <= |entries|
  {
    if n == 0 then [] else TableBytes(entries, n - 1) + EntryBytes(entries[n - 1])
  }

  predicate EntryFits(e: Entry) {
    AllFit(EntryItems(e))
  }

  predicate TableFits(entries: seq<Entry>) {
    forall i :: 0 <= i < |entries| ==> EntryFits(entries[i])
  }

  class RamdiskTableBuilder {
    var entries: seq<Entry>
    var totalSize: nat
    var names: set<seq<byte>>

    ghost predicate Valid(disk: Disk)
      reads this
    {
      && TableOk(entries, disk)
      && totalSize == SizeSum(entries, |entries|)
      && names == Names(entries)
    }

    constructor ()
      ensures entries == [] && forall disk: Disk :: Valid(disk)
    {
      entries, totalSize, names := [], 0, {};
    }

    /** add_entry */
    method AddEntry(disk: Disk, f: Fragment) returns (r: Outcome<ImageError>)
      requires Valid(disk)
      modifies this
      ensures r == AddError(old(names), disk, f)
      ensures r.Fail? ==> entries == old(entries) && totalSize == old(totalSize)
      ensures r.Pass? ==> Valid(disk) && entries == old(entries) + [NewEntry(f, disk, old(totalSize))]
    {
      var stripped := StripNuls(f.name);
      if stripped == DEFAULT_NAME {
        return Fail(BannedName);
      }
      if stripped in names {
        return Fail(DuplicatedName);
      }
      names := names + {stripped};

      var boardId := BoardId(f.boardId);
      if !WordsFit(boardId) {
        return Fail(BoardIdOverflow);
      }
      if |boardId| != VENDOR_RAMDISK_TABLE_ENTRY_BOARD_ID_SIZE {
        return Fail(BoardIdSize);
      }
      if f.path !in disk {
        return Fail(FileMissing);
      }
      TableGrows(entries, disk, f);
      var size := |disk[f.path]|;
      entries := entries + [Entry(f.path, size, totalSize, f.kind, f.name, boardId)];
      totalSize := totalSize + size;
      return Pass;
    }

    /** write_ramdisks_padded */
    method WriteRamdisksPadded(disk: Disk, out: ImageFile, alignment: nat)
      requires Valid(disk) && alignment > 0
      modifies out
      ensures out.data == AppendPadded(old(out.data), Some(Fragments(entries, disk, |entries|)), alignment)
    {
      ghost var start := out.data;
      assert start + [] == start;
      for i := 0 to |entries|
        invariant out.data == start + Fragments(entries, disk, i)
      {
        assert EntryOk(entries, i, disk);
        Associative(start, Fragments(entries, disk, i), Content(disk, entries[i].path));
        out.Write(disk[entries[i].path]);
      }
      out.PadFile(alignment);
    }

    /** write_entries_padded */
    method WriteEntriesPadded(out: ImageFile, alignment: nat) returns (r: Outcome<ImageError>)
      requires alignment > 0
      modifies out
      ensures r == if TableFits(entries) then Pass else Fail(StructError)
      ensures r.Pass? ==>
        out.data == AppendPadded(old(out.data), Some(TableBytes(entries, |entries|)), alignment)
    {
      ghost var start := out.data;
      assert start + [] == start;
      for i := 0 to |entries|
        invariant out.data == start + TableBytes(entries, i)
        invariant forall j :: 0 <= j < i ==> EntryFits(entries[j])
      {
        Associative(start, TableBytes(entries, i), EntryBytes(entries[i]));
        :- WriteEntry(entries[i], out);
      }
      out.PadFile(alignment);
      return Pass;
    }
  }

  method WriteEntry(e: Entry, out: ImageFile) returns (r: Outcome<ImageError>)
    modifies out
    ensures r == if EntryFits(e) then Pass else Fail(StructError)
    ensures r.Pass? ==> out.data == old(out.data) + EntryBytes(e)
  {
    r := out.WriteRecord(EntryItems(e));
  }

  // ---- reading the table back ----

  datatype ReadEntry = ReadEntry(fragment: seq<byte>, kind: int, name: seq<byte>, boardId: seq<int>)

  function EntryKinds(): seq<FieldKind> {
    [K32, K32, K32, KText(32)] + Words(16)
  }

  /** One table entry, cutting its fragment out of the ramdisk section at its own offset and size. */
  function ReadOne(record: seq<byte>, ramdisks: seq<byte>): Option<ReadEntry> {
    match Unpack(EntryKinds(), record)
    case None => None
    case Some(f) =>
      if f[0].n < 0 || f[1].n < 0 || f[0].n + f[1].n > |ramdisks| then None
      else
        Some(ReadEntry(ramdisks[f[1].n..f[1].n + f[0].n], f[2].n, StripNuls(f[3].text),
                       seq(16, i requires 0 <= i < 16 => f[4 + i].n)))
  }

  /** The reader of a table of n entries of the given size. */
  function ReadTable(table: seq<byte>, n: nat, entrySize: nat, ramdisks: seq<byte>): Option<seq<ReadEntry>> {
    if n == 0 then Some([])
    else
      var pos := (n - 1) * entrySize;
      match ReadTable(table, n - 1, entrySize, ramdisks)
      case None => None
      case Some(earlier) =>
        if pos > |table| then None
        else
          match ReadOne(table[pos..], ramdisks)
          case None => None
          case Some(e) => Some(earlier + [e])
  }

  /** What the reader must find for each entry. */
  function Expected(entries: seq<Entry>, disk: Disk): (r: seq<ReadEntry>)
    ensures |r| == |entries|
    ensures forall i :: 0 <= i < |entries| ==> r[i] == ExpectedEntry(entries[i], disk)
  {
    seq(|entries|, i requires 0 <= i < |entries| => ExpectedEntry(entries[i], disk))
  }

  function ExpectedEntry(e: Entry, disk: Disk): ReadEntry {
    ReadEntry(Content(disk, e.path), e.kind, StripNuls(FixedWidth(e.name, VENDOR_RAMDISK_NAME_SIZE)), e.boardId)
  }

  lemma EntrySize(e: Entry)
    requires |e.boardId| == VENDOR_RAMDISK_TABLE_ENTRY_BOARD_ID_SIZE
    ensures Kinds(EntryItems(e)) == EntryKinds()
    ensures |EntryBytes(e)| == VENDOR_RAMDISK_TABLE_ENTRY_V4_SIZE
  {
    PackedSize(EntryItems(e));
    assert Kinds(EntryItems(e)) == EntryKinds();
    var start := [K32, K32, K32, KText(32)];
    assert start == Words(3) + [KText(32)];
    SizeAppend(start, Words(16));
    SizeAppend(Words(3), [KText(32)]);
    SizeWords(3);
    SizeWords(16);
  }

  /** The slice of the first n fragments that entry i names is its fragment. */
  lemma {:induction false} FragmentSlice(entries: seq<Entry>, disk: Disk, i: nat, n: nat)
    requires TableOk(entries, disk) && i < n <= |entries|
    ensures |Fragments(entries, disk, n)| == SizeSum(entries, n)
    ensures entries[i].offset + entries[i].size <= SizeSum(entries, n)
    ensures Fragments(entries, disk, n)[entries[i].offset..entries[i].offset + entries[i].size]
         == Content(disk, entries[i].path)
  {
    var before, last := Fragments(entries, disk, n - 1), Content(disk, entries[n - 1].path);
    FragmentsLength(entries, disk, n - 1);
    assert EntryOk(entries, n - 1, disk);
    if i < n - 1 {
      FragmentSlice(entries, disk, i, n - 1);
      SliceOfPrefix(before, last, entries[i].offset, entries[i].size);
    } else {
      SliceOfSuffix(before, last);
    }
  }

  lemma SliceOfSuffix(a: seq<byte>, b: seq<byte>)
    ensures (a + b)[|a|..|a| + |b|] == b
  {
  }

  lemma SliceOfPrefix(a: seq<byte>, b: seq<byte>, from: nat, n: nat)
    requires from + n <= |a|
    ensures (a + b)[from..from + n] == a[from..from + n]
  {
  }

  lemma {:induction false} FragmentsLength(entries: seq<Entry>, disk: Disk, n: nat)
    requires TableOk(entries, disk) && n <= |entries|
    ensures |Fragments(entries, disk, n)| == SizeSum(entries, n)
  {
    if n > 0 {
      assert EntryOk(entries, n - 1, disk);
      FragmentsLength(entries, disk, n - 1);
    }
  }

  lemma {:induction false} TableLength(entries: seq<Entry>, disk: Disk, n: nat)
    requires TableOk(entries, disk) && n <= |entries|
    ensures |TableBytes(entries, n)| == n * VENDOR_RAMDISK_TABLE_ENTRY_V4_SIZE
  {
    if n > 0 {
      assert EntryOk(entries, n - 1, disk);
      EntrySize(entries[n - 1]);
      TableLength(entries, disk, n - 1);
    }
  }

  lemma EntryRead(e: Entry, rest: seq<byte>, ramdisks: seq<byte>)
    requires EntryFits(e) && |e.boardId| == VENDOR_RAMDISK_TABLE_ENTRY_BOARD_ID_SIZE
    requires e.offset + e.size <= |ramdisks|
    ensures ReadOne(EntryBytes(e) + rest, ramdisks)
         == Some(ReadEntry(ramdisks[e.offset..e.offset + e.size], e.kind,
                           StripNuls(FixedWidth(e.name, VENDOR_RAMDISK_NAME_SIZE)), e.boardId))
  {
    hide Unpack, Pack;
    EntrySize(e);
    UnpackPack(EntryItems(e), rest);
    var f := ReadItems(EntryItems(e));
    assert seq(16, i requires 0 <= i < 16 => f[4 + i].n) == e.boardId;
  }

  /** Entry k of the table, read where the entry size says it is. */
  lemma EntryReadAt(entries: seq<Entry>, disk: Disk, k: nat)
    requires TableOk(entries, disk) && TableFits(entries) && k < |entries|
    ensures k * VENDOR_RAMDISK_TABLE_ENTRY_V4_SIZE <= |TableBytes(entries, |entries|)|
    ensures ReadOne(TableBytes(entries, |entries|)[k * VENDOR_RAMDISK_TABLE_ENTRY_V4_SIZE..],
                    Fragments(entries, disk, |entries|))
         == Some(ExpectedEntry(entries[k], disk))
  {
    hide TableBytes, Fragments, ReadOne, EntryBytes;
    var n := |entries|;
    assert EntryOk(entries, k, disk);
    var rest := TableTail(entries, disk, k, n);
    FragmentSlice(entries, disk, k, n);
    EntryRead(entries[k], rest, Fragments(entries, disk, n));
  }

  lemma {:induction false} ReadEach(table: seq<byte>, n: nat, size: nat, ramdisks: seq<byte>, expected: seq<ReadEntry>)
    requires n <= |expected|
    requires forall k :: 0 <= k < n ==>
      k * size <= |table| && ReadOne(table[k * size..], ramdisks) == Some(expected[k])
    ensures ReadTable(table, n, size, ramdisks) == Some(expected[..n])
  {
    if n > 0 {
      ReadEach(table, n - 1, size, ramdisks, expected);
      assert expected[..n] == expected[..n - 1] + [expected[n - 1]];
    }
  }

  /** Reading a table finds exactly its fragments. */
  lemma TableRoundTrip(entries: seq<Entry>, disk: Disk)
    requires TableOk(entries, disk) && TableFits(entries)
    ensures ReadTable(TableBytes(entries, |entries|), |entries|, VENDOR_RAMDISK_TABLE_ENTRY_V4_SIZE,
                      Fragments(entries, disk, |entries|))
         == Some(Expected(entries, disk))
  {
    var table, ramdisks := TableBytes(entries, |entries|), Fragments(entries, disk, |entries|);
    var expected, size := Expected(entries, disk), VENDOR_RAMDISK_TABLE_ENTRY_V4_SIZE;
    forall k | 0 <= k < |entries|
      ensures k * size <= |table| && ReadOne(table[k * size..], ramdisks) == Some(expected[k])
    {
      EntryReadAt(entries, disk, k);
    }
    ReadEach(table, |entries|, size, ramdisks, expected);
    assert expected[..|entries|] == expected;
  }

  lemma DropOfSum(a: seq<byte>, b: seq<byte>, pos: nat)
    requires pos <= |a|
    ensures (a + b)[pos..] == a[pos..] + b
  {
  }

  /** Entry k starts k entry sizes into the table. */
  lemma {:induction false} TableTail(entries: seq<Entry>, disk: Disk, k: nat, n: nat) returns (rest: seq<byte>)
    requires TableOk(entries, disk) && k < n <= |entries|
    ensures k * VENDOR_RAMDISK_TABLE_ENTRY_V4_SIZE <= |TableBytes(entries, n)|
    ensures TableBytes(entries, n)[k * VENDOR_RAMDISK_TABLE_ENTRY_V4_SIZE..] == EntryBytes(entries[k]) + rest
  {
    TableLength(entries, disk, n - 1);
    var last := EntryBytes(entries[n - 1]);
    if k == n - 1 {
      rest := [];
      assert last + [] == last;
    } else {
      var inner := TableTail(entries, disk, k, n - 1);
      rest := inner + last;
      var pos := k * VENDOR_RAMDISK_TABLE_ENTRY_V4_SIZE;
      DropOfSum(TableBytes(entries, n - 1), last, pos);
      Associative(EntryBytes(entries[k]), inner, last);
    }
  }

  /** A name that came through AsciizBytes fits its field, so the name on disk is the name that was
      checked: names in the image are pairwise distinct and never the reserved one. */
  lemma NamesOnDisk(entries: seq<Entry>, disk: Disk)
    requires TableOk(entries, disk)
    requires forall i :: 0 <= i < |entries| ==> |entries[i].name| <= VENDOR_RAMDISK_NAME_SIZE
    ensures var r := Expected(entries, disk);
            && (forall i :: 0 <= i < |r| ==> r[i].name == StripNuls(entries[i].name) && r[i].name != DEFAULT_NAME)
            && (forall i, j :: 0 <= i < j < |r| ==> r[i].name != r[j].name)
  {
    forall i | 0 <= i < |entries|
      ensures StripNuls(FixedWidth(entries[i].name, VENDOR_RAMDISK_NAME_SIZE)) == StripNuls(entries[i].name)
      ensures StripNuls(entries[i].name) != DEFAULT_NAME
    {
      StripNulsFill(entries[i].name, VENDOR_RAMDISK_NAME_SIZE - |entries[i].name|);
      assert EntryOk(entries, i, disk);
    }
  }
}
