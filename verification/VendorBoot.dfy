/** The writer of vendor_boot images, versions 3 and 4, and a reader that works from the header. */
module VendorBoot {
  import opened Bytes
  import opened Struct
  import opened Paging
  import opened ImageFiles
  import opened RamdiskTable
  import opened Wrappers

  // "VNDRBOOT"
  const VENDOR_BOOT_MAGIC: seq<byte> := [86, 78, 68, 82, 66, 79, 79, 84]
  const VENDOR_BOOT_ARGS_SIZE := 2048
  const VENDOR_BOOT_NAME_SIZE := 16
  const VENDOR_BOOT_IMAGE_HEADER_V3_SIZE := 2112
  const VENDOR_BOOT_IMAGE_HEADER_V4_SIZE := 2128

  datatype VendorArgs = VendorArgs(
    headerVersion: int,
    pageSize: nat,
    vendorRamdisk: Option<string>,
    dtb: File,
    bootconfig: File,
    base: int,
    kernelOffset: int,
    ramdiskOffset: int,
    tagsOffset: int,
    dtbOffset: int,
    vendorCmdline: seq<byte>,
    board: seq<byte>)

  datatype VendorHeader = VendorHeader(
    version: int,
    pageSize: int,
    kernelAddress: int,
    ramdiskAddress: int,
    ramdiskSize: nat,
    cmdline: seq<byte>,
    tagsAddress: int,
    board: seq<byte>,
    dtbSize: nat,
    dtbAddress: int,
    entryCount: nat,
    bootconfigSize: nat)

  function HeaderOf(args: VendorArgs, ramdiskSize: nat, entryCount: nat): VendorHeader {
    VendorHeader(
      args.headerVersion,
      args.pageSize,
      args.base + args.kernelOffset,
      args.base + args.ramdiskOffset,
      ramdiskSize,
      args.vendorCmdline,
      args.base + args.tagsOffset,
      args.board,
      FileSize(args.dtb),
      args.base + args.dtbOffset,
      entryCount,
      FileSize(args.bootconfig))
  }

  function CommonItems(h: VendorHeader): seq<Item> {
    [ Text(8, VENDOR_BOOT_MAGIC),
      U32(h.version),
      U32(h.pageSize),
      U32(h.kernelAddress),
      U32(h.ramdiskAddress),
      U32(h.ramdiskSize),
      Text(VENDOR_BOOT_ARGS_SIZE, h.cmdline),
      U32(h.tagsAddress),
      Text(VENDOR_BOOT_NAME_SIZE, h.board),
      U32(if h.version > 3 then VENDOR_BOOT_IMAGE_HEADER_V4_SIZE else VENDOR_BOOT_IMAGE_HEADER_V3_SIZE),
      U32(h.dtbSize),
      U64(h.dtbAddress)
    ]
  }

  function TableItems(h: VendorHeader): seq<Item> {
    [ U32(h.entryCount * VENDOR_RAMDISK_TABLE_ENTRY_V4_SIZE),
      U32(h.entryCount),
      U32(VENDOR_RAMDISK_TABLE_ENTRY_V4_SIZE),
      U32(h.bootconfigSize)
    ]
  }

  function HeaderItems(h: VendorHeader): seq<Item> {
    CommonItems(h) + (if h.version > 3 then TableItems(h) else [])
  }

  function HeaderOutcome(h: VendorHeader): Outcome<ImageError> {
    if h.dtbSize == 0 then Fail(DtbEmpty)
    else if AllFit(HeaderItems(h)) then Pass
    else Fail(StructError)
  }

  function HeaderBytes(h: VendorHeader, page: nat): seq<byte>
    requires page > 0
  {
    AppendPadded([], Some(Pack(HeaderItems(h))), page)
  }

  /** write_vendor_boot_header, at the start of the file */
  method WriteVendorBootHeader(h: VendorHeader, page: nat, out: ImageFile) returns (r: Outcome<ImageError>)
    requires page > 0 && out.data == []
    modifies out
    ensures r == HeaderOutcome(h)
    ensures r.Pass? ==> out.data == HeaderBytes(h, page)
  {
    if h.dtbSize == 0 {
      return Fail(DtbEmpty);
    }
    ghost var rest := if h.version > 3 then TableItems(h) else [];
    PackTwice(out.data, CommonItems(h), rest);
    :- out.WriteRecord(CommonItems(h));
    if h.version > 3 {
      :- out.WriteRecord(TableItems(h));
    } else {
      assert CommonItems(h) + [] == CommonItems(h);
    }
    out.PadFile(page);
    return Pass;
  }

  // ---- version 3 ----

  function ImageV3(args: VendorArgs, disk: Disk): seq<byte>
    requires args.pageSize > 0 && args.vendorRamdisk.Some?
  {
    var ramdisk := Content(disk, args.vendorRamdisk.value);
    AppendAll(HeaderBytes(HeaderOf(args, |ramdisk|, 0), args.pageSize),
              [Some(ramdisk), args.dtb], args.pageSize)
  }

  function OutcomeV3(args: VendorArgs, disk: Disk): Outcome<ImageError> {
    if args.vendorRamdisk.None? then Fail(VendorRamdiskMissing)
    else HeaderOutcome(HeaderOf(args, |Content(disk, args.vendorRamdisk.value)|, 0))
  }

  /** The vendor_boot half of main for version 3. */
  method WriteVendorBootV3(args: VendorArgs, disk: Disk, out: ImageFile) returns (r: Outcome<ImageError>)
    requires args.headerVersion == 3 && args.pageSize > 0 && out.data == []
    modifies out
    ensures r == OutcomeV3(args, disk)
    ensures r.Pass? ==> out.data == ImageV3(args, disk)
  {
    if args.vendorRamdisk.None? {
      return Fail(VendorRamdiskMissing);
    }
    var ramdisk := Content(disk, args.vendorRamdisk.value);
    :- WriteVendorBootHeader(HeaderOf(args, |ramdisk|, 0), args.pageSize, out);
    AppendTwo(out.data, Some(ramdisk), args.dtb, args.pageSize);
    out.WritePaddedFile(Some(ramdisk), args.pageSize);
    out.WritePaddedFile(args.dtb, args.pageSize);
    return Pass;
  }

  lemma AppendTwo(data: seq<byte>, a: File, b: File, page: nat)
    requires page > 0
    ensures AppendAll(data, [a, b], page) == AppendPadded(AppendPadded(data, a, page), b, page)
  {
    assert [a, b][1..] == [b] && [b][1..] == [];
    var next := AppendPadded(data, a, page);
    assert AppendAll(next, [b], page) == AppendAll(AppendPadded(next, b, page), [], page);
  }

  lemma AppendFour(data: seq<byte>, a: File, b: File, c: File, d: File, page: nat)
    requires page > 0
    ensures AppendAll(data, [a, b, c, d], page)
         == AppendPadded(AppendPadded(AppendPadded(AppendPadded(data, a, page), b, page), c, page), d, page)
  {
    var one := AppendPadded(data, a, page);
    var two := AppendPadded(one, b, page);
    assert [a, b, c, d][1..] == [b, c, d] && [b, c, d][1..] == [c, d];
    assert AppendAll(one, [b, c, d], page) == AppendAll(two, [c, d], page);
    AppendTwo(two, c, d, page);
  }

  // ---- version 4 ----

  /** The --vendor_ramdisk file becomes the first fragment, of type platform and with no name. */
  function AllFragments(args: VendorArgs, groups: seq<Fragment>): seq<Fragment> {
    (match args.vendorRamdisk
     case None => []
     case Some(path) => [Fragment(path, VENDOR_RAMDISK_TYPE_PLATFORM, [], None)])
    + groups
  }

  predicate Describes(e: Entry, f: Fragment) {
    e.path == f.path && e.kind == f.kind && e.name == f.name && e.boardId == BoardId(f.boardId)
  }

  predicate DescribesAll(entries: seq<Entry>, fragments: seq<Fragment>) {
    && |entries| == |fragments|
    && forall i :: 0 <= i < |entries| ==> Describes(entries[i], fragments[i])
  }

  lemma DescribesNext(entries: seq<Entry>, fragments: seq<Fragment>, e: Entry, k: nat)
    requires k < |fragments| && DescribesAll(entries, fragments[..k]) && Describes(e, fragments[k])
    ensures DescribesAll(entries + [e], fragments[..k + 1])
  {
  }

  /** The stripped names of fragments, taken in the order of the command line. */
  function NamesOf(fragments: seq<Fragment>): set<seq<byte>> {
    if fragments == [] then {}
    else NamesOf(fragments[..|fragments| - 1]) + {StripNuls(fragments[|fragments| - 1].name)}
  }

  /** The first exception add_entry raises over the fragments, if any. */
  function BuildOutcome(fragments: seq<Fragment>, disk: Disk): Outcome<ImageError> {
    if fragments == [] then Pass
    else
      var earlier := fragments[..|fragments| - 1];
      if BuildOutcome(earlier, disk).Fail? then BuildOutcome(earlier, disk)
      else AddError(NamesOf(earlier), disk, fragments[|fragments| - 1])
  }

  lemma BuildNext(fragments: seq<Fragment>, disk: Disk, k: nat)
    requires k < |fragments|
    ensures NamesOf(fragments[..k + 1]) == NamesOf(fragments[..k]) + {StripNuls(fragments[k].name)}
    ensures BuildOutcome(fragments[..k + 1], disk) ==
            if BuildOutcome(fragments[..k], disk).Fail? then BuildOutcome(fragments[..k], disk)
            else AddError(NamesOf(fragments[..k]), disk, fragments[k])
  {
    assert fragments[..k + 1][..k] == fragments[..k];
  }

  lemma {:induction false} FailureStays(fragments: seq<Fragment>, disk: Disk, k: nat)
    requires k <= |fragments| && BuildOutcome(fragments[..k], disk).Fail?
    ensures BuildOutcome(fragments, disk) == BuildOutcome(fragments[..k], disk)
    decreases |fragments| - k
  {
    if k == |fragments| {
      assert fragments[..k] == fragments;
    } else {
      BuildNext(fragments, disk, k);
      FailureStays(fragments, disk, k + 1);
    }
  }

  /** The entries are those of the first k fragments. */
  ghost predicate BuiltSoFar(builder: RamdiskTableBuilder, fragments: seq<Fragment>, disk: Disk, k: nat)
    reads builder
    requires k <= |fragments|
  {
    && builder.Valid(disk)
    && DescribesAll(builder.entries, fragments[..k])
    && BuildOutcome(fragments[..k], disk).Pass?
    && builder.names == NamesOf(fragments[..k])
  }

  method AddNext(builder: RamdiskTableBuilder, ghost fragments: seq<Fragment>, f: Fragment, disk: Disk, ghost k: nat)
    returns (r: Outcome<ImageError>)
    requires k < |fragments| && fragments[k] == f && BuiltSoFar(builder, fragments, disk, k)
    modifies builder
    ensures r.Pass? ==> BuiltSoFar(builder, fragments, disk, k + 1)
    ensures r.Fail? ==> r == BuildOutcome(fragments, disk)
  {
    BuildNext(fragments, disk, k);
    ghost var before := builder.entries;
    r := builder.AddEntry(disk, f);
    if r.Pass? {
      DescribesNext(before, fragments, builder.entries[|before|], k);
      TableGrows(before, disk, f);
    } else {
      FailureStays(fragments, disk, k + 1);
    }
  }

  /** From position first on, the fragments are the groups. */
  predicate GroupsFrom(fragments: seq<Fragment>, first: nat, groups: seq<Fragment>) {
    |fragments| == first + |groups| && forall i :: 0 <= i < |groups| ==> fragments[first + i] == groups[i]
  }

  lemma AllFragmentsAre(args: VendorArgs, groups: seq<Fragment>)
    ensures GroupsFrom(AllFragments(args, groups), if args.vendorRamdisk.Some? then 1 else 0, groups)
    ensures args.vendorRamdisk.Some? ==>
      AllFragments(args, groups)[0] == Fragment(args.vendorRamdisk.value, VENDOR_RAMDISK_TYPE_PLATFORM, [], None)
  {
  }

  lemma NothingBuilt(builder: RamdiskTableBuilder, fragments: seq<Fragment>, disk: Disk)
    requires builder.Valid(disk) && builder.entries == []
    ensures BuiltSoFar(builder, fragments, disk, 0)
  {
    assert fragments[..0] == [];
  }

  lemma AllBuilt(builder: RamdiskTableBuilder, fragments: seq<Fragment>, disk: Disk)
    requires BuiltSoFar(builder, fragments, disk, |fragments|)
    ensures builder.Valid(disk) && DescribesAll(builder.entries, fragments) && BuildOutcome(fragments, disk).Pass?
  {
    assert fragments[..|fragments|] == fragments;
  }

  /** The loop of parse_vendor_ramdisk_args */
  method AddGroups(builder: RamdiskTableBuilder, ghost fragments: seq<Fragment>, ghost first: nat,
                   groups: seq<Fragment>, disk: Disk)
    returns (r: Outcome<ImageError>)
    requires GroupsFrom(fragments, first, groups) && BuiltSoFar(builder, fragments, disk, first)
    modifies builder
    ensures r.Pass? ==> BuiltSoFar(builder, fragments, disk, |fragments|)
    ensures r.Fail? ==> r == BuildOutcome(fragments, disk)
  {
    for i := 0 to |groups|
      invariant BuiltSoFar(builder, fragments, disk, first + i)
    {
      assert fragments[first + i] == groups[i];
      :- AddNext(builder, fragments, groups[i], disk, first + i);
    }
    return Pass;
  }

  /** parse_vendor_ramdisk_args, after the option groups have been parsed */
  method BuildTable(args: VendorArgs, groups: seq<Fragment>, disk: Disk, builder: RamdiskTableBuilder)
    returns (r: Outcome<ImageError>)
    requires builder.Valid(disk) && builder.entries == []
    modifies builder
    ensures r == BuildOutcome(AllFragments(args, groups), disk)
    ensures r.Pass? ==> builder.Valid(disk) && DescribesAll(builder.entries, AllFragments(args, groups))
  {
    ghost var fragments := AllFragments(args, groups);
    AllFragmentsAre(args, groups);
    NothingBuilt(builder, fragments, disk);
    if args.vendorRamdisk.Some? {
      var f := Fragment(args.vendorRamdisk.value, VENDOR_RAMDISK_TYPE_PLATFORM, [], None);
      :- AddNext(builder, fragments, f, disk, 0);
    }
    :- AddGroups(builder, fragments, if args.vendorRamdisk.Some? then 1 else 0, groups, disk);
    AllBuilt(builder, fragments, disk);
    return Pass;
  }

  function HeaderV4(args: VendorArgs, entries: seq<Entry>): VendorHeader {
    HeaderOf(args, SizeSum(entries, |entries|), |entries|)
  }

  function SectionsV4(args: VendorArgs, entries: seq<Entry>, disk: Disk): seq<File> {
    [Some(Fragments(entries, disk, |entries|)), args.dtb, Some(TableBytes(entries, |entries|)), args.bootconfig]
  }

  function ImageV4(args: VendorArgs, entries: seq<Entry>, disk: Disk): seq<byte>
    requires args.pageSize > 0
  {
    AppendAll(HeaderBytes(HeaderV4(args, entries), args.pageSize), SectionsV4(args, entries, disk), args.pageSize)
  }

  function OutcomeV4(args: VendorArgs, entries: seq<Entry>): Outcome<ImageError> {
    var header := HeaderOutcome(HeaderV4(args, entries));
    if header.Fail? then header
    else if TableFits(entries) then Pass
    else Fail(StructError)
  }

  /** The vendor_boot half of main for version 4, after the table was built. */
  method WriteVendorBootV4(args: VendorArgs, disk: Disk, builder: RamdiskTableBuilder, out: ImageFile)
    returns (r: Outcome<ImageError>)
    requires args.headerVersion == 4 && args.pageSize > 0 && out.data == []
    requires builder.Valid(disk)
    modifies out
    ensures r == OutcomeV4(args, builder.entries)
    ensures r.Pass? ==> out.data == ImageV4(args, builder.entries, disk)
  {
    var page := args.pageSize;
    :- WriteVendorBootHeader(HeaderOf(args, builder.totalSize, |builder.entries|), page, out);
    AppendFour(out.data, Some(Fragments(builder.entries, disk, |builder.entries|)), args.dtb,
               Some(TableBytes(builder.entries, |builder.entries|)), args.bootconfig, page);
    builder.WriteRamdisksPadded(disk, out, page);
    out.WritePaddedFile(args.dtb, page);
    :- builder.WriteEntriesPadded(out, page);
    out.WritePaddedFile(args.bootconfig, page);
    return Pass;
  }

  // ---- the reader ----

  // "VNDRBOOT"
  const MAGIC: seq<byte> := [86, 78, 68, 82, 66, 79, 79, 84]

  /** Where the header places things in memory, and the page size it names. */
  datatype Placement = Placement(
    pageSize: int, kernelAddress: int, ramdiskAddress: int, tagsAddress: int, dtbAddress: int)

  datatype VendorContents = VendorContents(
    version: int,
    placement: Placement,
    cmdline: seq<byte>,
    board: seq<byte>,
    ramdisks: seq<byte>,
    dtb: seq<byte>,
    table: seq<ReadEntry>,
    bootconfig: seq<byte>)

  function CommonKinds(): seq<FieldKind> {
    [KText(8), K32, K32, K32, K32, K32, KText(2048), K32, KText(16), K32, K32, K64]
  }

  function HeaderKinds(version: int): seq<FieldKind> {
    CommonKinds() + (if version > 3 then [K32, K32, K32, K32] else [])
  }

  /** A boot loader's view: the header's declared size, section sizes, entry count and entry size. */
  function ReadVendorBoot(image: seq<byte>): Option<VendorContents> {
    match Unpack(CommonKinds(), image)
    case None => None
    case Some(c) =>
      if c[0].text != MAGIC || !(3 <= c[1].n <= 4) then None
      else
        match Unpack(HeaderKinds(c[1].n), image)
        case None => None
        case Some(h) => if HasFields(h, c[1].n) then ReadPayload(image, c[1].n, h) else None
  }

  predicate HasFields(h: seq<Item>, version: int) {
    && |h| >= 12
    && h[2].U32? && h[3].U32? && h[4].U32? && h[5].U32? && h[6].Text? && h[7].U32? && h[8].Text?
    && h[9].U32? && h[10].U32? && h[11].U64?
    && (version == 4 ==> |h| == 16 && h[12].U32? && h[13].U32? && h[14].U32? && h[15].U32?)
  }

  function PlacementIn(h: seq<Item>): Placement
    requires |h| >= 12 && h[2].U32? && h[3].U32? && h[4].U32? && h[7].U32? && h[11].U64?
  {
    Placement(h[2].n, h[3].n, h[4].n, h[7].n, h[11].n)
  }

  function PlacementOf(h: VendorHeader): Placement {
    Placement(h.pageSize, h.kernelAddress, h.ramdiskAddress, h.tagsAddress, h.dtbAddress)
  }

  function ReadPayload(image: seq<byte>, version: int, h: seq<Item>): Option<VendorContents>
    requires 3 <= version <= 4 && HasFields(h, version)
  {
    var page := h[2].n;
    if page < 0 || !PageSize(page) || h[5].n < 0 || h[9].n < 0 || h[10].n < 0
       || (version == 4 && (h[12].n < 0 || h[13].n < 0 || h[14].n < 0 || h[15].n < 0)) then None
    else
      var sizes: seq<nat> := [h[5].n, h[10].n] + if version == 4 then [h[12].n, h[15].n] else [];
      match Cut(image, page * NumberOfPages(h[9].n, page), sizes, page)
      case None => None
      case Some(f) =>
        if version == 3 then
          Some(VendorContents(3, PlacementIn(h), CString(h[6].text), CString(h[8].text), f[0], f[1], [], []))
        else
          match ReadTable(f[2], h[13].n, h[14].n, f[0])
          case None => None
          case Some(table) =>
            Some(VendorContents(4, PlacementIn(h), CString(h[6].text), CString(h[8].text), f[0], f[1], table, f[3]))
  }

  lemma HeaderKindsOf(h: VendorHeader)
    requires 3 <= h.version <= 4
    ensures Kinds(CommonItems(h)) == CommonKinds()
    ensures Kinds(HeaderItems(h)) == HeaderKinds(h.version)
  {
    assert Kinds(CommonItems(h)) == CommonKinds();
    assert Kinds(TableItems(h)) == [K32, K32, K32, K32];
  }

  lemma DeclaredSize(h: VendorHeader)
    ensures CommonItems(h)[9] ==
            U32(if h.version > 3 then VENDOR_BOOT_IMAGE_HEADER_V4_SIZE else VENDOR_BOOT_IMAGE_HEADER_V3_SIZE)
  {
  }

  lemma TableKindsSize()
    ensures Size([K32, K32, K32, K32]) == 16
  {
    SizeWords(4);
    assert Words(4) == [K32, K32, K32, K32];
  }

  lemma HeaderSize(common: seq<FieldKind>, version: int)
    requires common == CommonKinds()
    ensures Size(HeaderKinds(version)) ==
            if version > 3 then VENDOR_BOOT_IMAGE_HEADER_V4_SIZE else VENDOR_BOOT_IMAGE_HEADER_V3_SIZE
  {
    CommonSize();
    if version > 3 {
      TableKindsSize();
      SizeAppend(common, [K32, K32, K32, K32]);
      assert HeaderKinds(version) == common + [K32, K32, K32, K32];
    } else {
      assert HeaderKinds(version) == common;
    }
  }

  /** The header size the image declares is the number of bytes its fields take. */
  lemma DeclaredHeaderSize(h: VendorHeader)
    requires 3 <= h.version <= 4
    ensures CommonItems(h)[9] == U32(|Pack(HeaderItems(h))|)
  {
    PackedSize(HeaderItems(h));
    HeaderKindsOf(h);
    HeaderSize(CommonKinds(), h.version);
    DeclaredSize(h);
  }

  lemma CommonSize()
    ensures Size(CommonKinds()) == VENDOR_BOOT_IMAGE_HEADER_V3_SIZE
  {
    var start := [KText(8)] + Words(5);
    var texts := [KText(2048)] + Words(1) + [KText(16)] + Words(2) + [K64];
    SizeWords(5);
    SizeWords(1);
    SizeWords(2);
    SizeAppend([KText(8)], Words(5));
    SizeAppend([KText(2048)], Words(1));
    SizeAppend([KText(2048)] + Words(1), [KText(16)]);
    SizeAppend([KText(2048)] + Words(1) + [KText(16)], Words(2));
    SizeAppend([KText(2048)] + Words(1) + [KText(16)] + Words(2), [K64]);
    SizeAppend(start, texts);
    assert CommonKinds() == start + texts;
  }

  /** At the smallest page size the vendor header takes two pages, at the others one. */
  lemma HeaderPages(h: VendorHeader, page: nat)
    requires 3 <= h.version <= 4 && PageSize(page)
    ensures |HeaderBytes(h, page)| == page * NumberOfPages(|Pack(HeaderItems(h))|, page)
    ensures |HeaderBytes(h, page)| == if page == 2048 then 2 * page else page
  {
    DeclaredHeaderSize(h);
    PageSizeIsPowerOfTwo(page);
    var record := Pack(HeaderItems(h));
    assert [] + record == record;
    PadCompletesPage(|record|, page);
    if page == 2048 {
      assert NumberOfPages(|record|, page) == 2;
    } else {
      assert NumberOfPages(|record|, page) == 1;
    }
  }

  /** A record, padded to its page, and page-aligned sections: the sections read back, and what
      follows the record does not disturb it. */
  lemma SectionsReadBack(record: seq<byte>, page: nat, files: seq<File>) returns (tail: seq<byte>)
    requires PageSize(page)
    ensures var header := AppendPadded([], Some(record), page);
            var image := AppendAll(header, files, page);
            && Cut(image, |header|, Sizes(Contents(files)), page) == Some(Contents(files))
            && image == record + tail
  {
    PageSizeIsPowerOfTwo(page);
    var header := AppendPadded([], Some(record), page);
    HeaderIsPadded(record, page);
    PaddedLength(record, page);
    AppendAllIsSections(header, files, page);
    CutSections(header, Contents(files), page);
    tail := Zeros(PadLength(|record|, page)) + Sections(Contents(files), page);
    Associative(record, Zeros(PadLength(|record|, page)), Sections(Contents(files), page));
  }

  lemma HeaderIsPadded(record: seq<byte>, page: nat)
    requires page > 0
    ensures AppendPadded([], Some(record), page) == Padded(record, page)
  {
    assert [] + record == record;
  }

  lemma RecordReadBack(a: seq<Item>, b: seq<Item>, page: nat, files: seq<File>)
    requires PageSize(page) && AllFit(a + b)
    ensures var header := AppendPadded([], Some(Pack(a + b)), page);
            var image := AppendAll(header, files, page);
            && Unpack(Kinds(a), image) == Some(ReadItems(a))
            && Unpack(Kinds(a + b), image) == Some(ReadItems(a + b))
            && Cut(image, |header|, Sizes(Contents(files)), page) == Some(Contents(files))
  {
    var tail := SectionsReadBack(Pack(a + b), page, files);
    UnpackPack(a + b, tail);
    AllFitAppend(a, b);
    UnpackPrefix(a, b, tail);
  }

  lemma HeaderReadBack(h: VendorHeader, page: nat, files: seq<File>)
    requires 3 <= h.version <= 4 && PageSize(page) && AllFit(HeaderItems(h)) && h.pageSize == page
    ensures var image := AppendAll(HeaderBytes(h, page), files, page);
            && Unpack(CommonKinds(), image) == Some(ReadItems(CommonItems(h)))
            && Unpack(HeaderKinds(h.version), image) == Some(ReadItems(HeaderItems(h)))
            && Cut(image, page * NumberOfPages(|Pack(HeaderItems(h))|, page), Sizes(Contents(files)), page)
               == Some(Contents(files))
  {
    HeaderPages(h, page);
    HeaderKindsOf(h);
    RecordReadBack(CommonItems(h), if h.version > 3 then TableItems(h) else [], page, files);
  }

  lemma FieldsRead(h: VendorHeader, f: seq<Item>)
    requires 3 <= h.version <= 4 && f == ReadItems(HeaderItems(h))
    ensures HasFields(f, h.version)
    ensures f[1] == U32(h.version) && f[2] == U32(h.pageSize) && f[5] == U32(h.ramdiskSize)
    ensures PlacementIn(f) == PlacementOf(h)
    ensures f[6] == Text(2048, FixedWidth(h.cmdline, 2048)) && f[8] == Text(16, FixedWidth(h.board, 16))
    ensures f[9] == U32(|Pack(HeaderItems(h))|) && f[10] == U32(h.dtbSize)
    ensures h.version == 4 ==> f[12] == U32(h.entryCount * 108) && f[13] == U32(h.entryCount)
                               && f[14] == U32(108) && f[15] == U32(h.bootconfigSize)
  {
    DeclaredHeaderSize(h);
    assert forall i :: 0 <= i < 12 ==> HeaderItems(h)[i] == CommonItems(h)[i];
    if h.version == 4 {
      assert forall i :: 0 <= i < 4 ==> HeaderItems(h)[12 + i] == TableItems(h)[i];
    }
  }

  /** The payload behind a header whose fields were read. */
  lemma PayloadRead(h: VendorHeader, image: seq<byte>, files: seq<seq<byte>>, table: seq<ReadEntry>)
    requires 3 <= h.version <= 4 && h.pageSize >= 0 && PageSize(h.pageSize)
    requires |files| == if h.version == 4 then 4 else 2
    requires h.ramdiskSize == |files[0]| && h.dtbSize == |files[1]|
    requires h.version == 4 ==> h.entryCount * 108 == |files[2]| && h.bootconfigSize == |files[3]|
                                && ReadTable(files[2], h.entryCount, 108, files[0]) == Some(table)
    requires Cut(image, h.pageSize * NumberOfPages(|Pack(HeaderItems(h))|, h.pageSize), Sizes(files), h.pageSize)
          == Some(files)
    ensures var f := ReadItems(HeaderItems(h));
            && HasFields(f, h.version)
            && ReadPayload(image, h.version, f)
               == Some(VendorContents(h.version, PlacementOf(h),
                                      CString(FixedWidth(h.cmdline, 2048)), CString(FixedWidth(h.board, 16)),
                                      files[0], files[1],
                                      if h.version == 4 then table else [], if h.version == 4 then files[3] else []))
  {
    hide Cut, CString, ReadTable, Pack, FixedWidth;
    var f := ReadItems(HeaderItems(h));
    FieldsRead(h, f);
    var sizes: seq<nat> := [f[5].n, f[10].n] + if h.version == 4 then [f[12].n, f[15].n] else [];
    assert sizes == Sizes(files);
  }

  lemma ImageRead(h: VendorHeader, page: nat, files: seq<File>, table: seq<ReadEntry>)
    requires 3 <= h.version <= 4 && PageSize(page) && AllFit(HeaderItems(h)) && h.pageSize == page
    requires |files| == if h.version == 4 then 4 else 2
    requires h.ramdiskSize == |FileBytes(files[0])| && h.dtbSize == |FileBytes(files[1])|
    requires h.version == 4 ==>
      && h.entryCount * 108 == |FileBytes(files[2])| && h.bootconfigSize == |FileBytes(files[3])|
      && ReadTable(FileBytes(files[2]), h.entryCount, 108, FileBytes(files[0])) == Some(table)
    ensures ReadVendorBoot(AppendAll(HeaderBytes(h, page), files, page))
         == Some(VendorContents(h.version, PlacementOf(h),
                                CString(FixedWidth(h.cmdline, 2048)), CString(FixedWidth(h.board, 16)),
                                FileBytes(files[0]), FileBytes(files[1]),
                                if h.version == 4 then table else [],
                                if h.version == 4 then FileBytes(files[3]) else []))
  {
    hide Unpack, Cut, HeaderItems, HeaderBytes, AppendAll, ReadPayload, HeaderKinds, ReadTable;
    HeaderReadBack(h, page, files);
    CommonRead(h);
    PayloadRead(h, AppendAll(HeaderBytes(h, page), files, page), Contents(files), table);
  }

  /** Each load address is the base and the named offset. */
  function Placed(args: VendorArgs): Placement {
    Placement(args.pageSize, args.base + args.kernelOffset, args.base + args.ramdiskOffset,
              args.base + args.tagsOffset, args.base + args.dtbOffset)
  }

  /** vendor_boot version 3: the ramdisk and the dtb come back byte for byte. */
  lemma VendorBootV3RoundTrip(args: VendorArgs, disk: Disk)
    requires args.headerVersion == 3 && PageSize(args.pageSize) && OutcomeV3(args, disk).Pass?
    ensures ReadVendorBoot(ImageV3(args, disk))
         == Some(VendorContents(3, Placed(args),
                                CString(FixedWidth(args.vendorCmdline, 2048)), CString(FixedWidth(args.board, 16)),
                                Content(disk, args.vendorRamdisk.value), FileBytes(args.dtb), [], []))
  {
    hide ReadVendorBoot, CString, FixedWidth, AppendAll, HeaderItems, HeaderBytes;
    var ramdisk := Content(disk, args.vendorRamdisk.value);
    var h := HeaderOf(args, |ramdisk|, 0);
    ImageRead(h, args.pageSize, [Some(ramdisk), args.dtb], []);
  }

  lemma CommonRead(h: VendorHeader)
    ensures ReadItems(CommonItems(h))[0] == Text(8, VENDOR_BOOT_MAGIC)
    ensures ReadItems(CommonItems(h))[1] == U32(h.version)
  {
  }

  /** vendor_boot version 4: a reader that works from the header alone finds the table, every
      fragment at the offset and size its entry declares, the dtb and the boot config. */
  lemma VendorBootV4RoundTrip(args: VendorArgs, entries: seq<Entry>, disk: Disk)
    requires args.headerVersion == 4 && PageSize(args.pageSize)
    requires TableOk(entries, disk) && OutcomeV4(args, entries).Pass?
    ensures ReadVendorBoot(ImageV4(args, entries, disk))
         == Some(VendorContents(4, Placed(args),
                                CString(FixedWidth(args.vendorCmdline, 2048)), CString(FixedWidth(args.board, 16)),
                                Fragments(entries, disk, |entries|), FileBytes(args.dtb),
                                Expected(entries, disk), FileBytes(args.bootconfig)))
  {
    hide ReadVendorBoot, CString, FixedWidth, AppendAll, HeaderItems, HeaderBytes;
    var h := HeaderV4(args, entries);
    FragmentsLength(entries, disk, |entries|);
    TableLength(entries, disk, |entries|);
    TableRoundTrip(entries, disk);
    ImageRead(h, args.pageSize, SectionsV4(args, entries, disk), Expected(entries, disk));
  }

  /** Entry i of the image is fragment i of the command line. */
  predicate HoldsFragment(e: ReadEntry, f: Fragment, disk: Disk) {
    && e.fragment == Content(disk, f.path)
    && e.kind == f.kind
    && e.boardId == BoardId(f.boardId)
    && (|f.name| <= VENDOR_RAMDISK_NAME_SIZE ==> e.name == StripNuls(f.name))
  }

  lemma TableHoldsFragments(entries: seq<Entry>, fragments: seq<Fragment>, disk: Disk)
    requires DescribesAll(entries, fragments)
    ensures forall i :: 0 <= i < |fragments| ==> HoldsFragment(Expected(entries, disk)[i], fragments[i], disk)
  {
    forall i | 0 <= i < |fragments|
      ensures HoldsFragment(Expected(entries, disk)[i], fragments[i], disk)
    {
      assert Describes(entries[i], fragments[i]);
      if |fragments[i].name| <= VENDOR_RAMDISK_NAME_SIZE {
        StripNulsFill(fragments[i].name, VENDOR_RAMDISK_NAME_SIZE - |fragments[i].name|);
      }
    }
  }

  /** The board id of a fragment that was given none is sixteen zeros. */
  lemma NoBoardId(e: ReadEntry, f: Fragment, disk: Disk)
    requires HoldsFragment(e, f, disk)
    ensures match f.boardId
            case None => |e.boardId| == 16 && forall i :: 0 <= i < 16 ==> e.boardId[i] == 0
            case Some(words) => e.boardId == words
  {
  }

  /** A name given on the command line, which AsciizBytes ends with a NUL, is the name in the image. */
  lemma NameReadsBack(e: ReadEntry, f: Fragment, disk: Disk, text: seq<byte>)
    requires HoldsFragment(e, f, disk) && NulFree(text)
    requires f.name == text + [0] && |f.name| <= VENDOR_RAMDISK_NAME_SIZE
    ensures e.name == text
  {
    StripNulsAsciiz(text);
  }

  // ---- which input raises which exception ----

  /** The integers of the header. */
  predicate NumbersFit(args: VendorArgs, ramdiskSize: nat, entryCount: nat) {
    && Fits32(args.headerVersion) && Fits32(args.pageSize) && Fits32(args.base + args.kernelOffset)
    && Fits32(args.base + args.ramdiskOffset) && Fits32(ramdiskSize) && Fits32(args.base + args.tagsOffset)
    && Fits32(|FileBytes(args.dtb)|) && Fits64(args.base + args.dtbOffset)
    && (args.headerVersion > 3 ==>
          Fits32(108 * entryCount) && Fits32(entryCount) && Fits32(|FileBytes(args.bootconfig)|))
  }

  /** An empty dtb is refused first; then every integer has to fit its field. */
  lemma HeaderOutcomeIs(args: VendorArgs, ramdiskSize: nat, entryCount: nat)
    ensures HeaderOutcome(HeaderOf(args, ramdiskSize, entryCount)) ==
            if FileBytes(args.dtb) == [] then Fail(DtbEmpty)
            else if NumbersFit(args, ramdiskSize, entryCount) then Pass
            else Fail(StructError)
  {
    var h := HeaderOf(args, ramdiskSize, entryCount);
    var common, table := CommonItems(h), TableItems(h);
    assert AllFit(common) <==>
           (common[1].Fits() && common[2].Fits() && common[3].Fits() && common[4].Fits() && common[5].Fits()
            && common[7].Fits() && common[10].Fits() && common[11].Fits());
    assert AllFit(table) <==> table[0].Fits() && table[1].Fits() && table[3].Fits();
    AllFitAppend(common, table);
    assert common + [] == common;
  }

  /** A fragment that add_entry can take, whatever came before it. */
  predicate Acceptable(f: Fragment, disk: Disk) {
    && StripNuls(f.name) != [100, 101, 102, 97, 117, 108, 116]
    && (f.boardId.Some? ==> |f.boardId.value| == 16 && forall i :: 0 <= i < 16 ==> Fits32(f.boardId.value[i]))
    && f.path in disk
  }

  predicate NamesDiffer(fragments: seq<Fragment>) {
    forall i, j :: 0 <= i < j < |fragments| ==> StripNuls(fragments[i].name) != StripNuls(fragments[j].name)
  }

  lemma {:induction false} NamesOfAre(fragments: seq<Fragment>, name: seq<byte>)
    ensures name in NamesOf(fragments) <==> exists i :: 0 <= i < |fragments| && StripNuls(fragments[i].name) == name
  {
    if fragments != [] {
      var last := |fragments| - 1;
      NamesOfAre(fragments[..last], name);
      assert forall i :: 0 <= i < last ==> fragments[..last][i] == fragments[i];
      if StripNuls(fragments[last].name) != name && name in NamesOf(fragments[..last]) {
        var i :| 0 <= i < last && StripNuls(fragments[..last][i].name) == name;
        assert StripNuls(fragments[i].name) == name;
      }
    }
  }

  /** The table can be built if and only if every fragment is acceptable and no two have the same name. */
  lemma {:induction false} BuildPassesIff(fragments: seq<Fragment>, disk: Disk)
    ensures BuildOutcome(fragments, disk).Pass? <==>
            NamesDiffer(fragments) && forall i :: 0 <= i < |fragments| ==> Acceptable(fragments[i], disk)
  {
    if fragments != [] {
      var last := |fragments| - 1;
      var earlier := fragments[..last];
      BuildPassesIff(earlier, disk);
      assert forall i :: 0 <= i < last ==> earlier[i] == fragments[i];
      AddErrorIs(NamesOf(earlier), disk, fragments[last]);
      NamesDifferNext(fragments);
    }
  }

  lemma NamesDifferNext(fragments: seq<Fragment>)
    requires fragments != []
    ensures var last := |fragments| - 1;
            NamesDiffer(fragments) <==>
              NamesDiffer(fragments[..last]) && StripNuls(fragments[last].name) !in NamesOf(fragments[..last])
  {
    var last := |fragments| - 1;
    var earlier := fragments[..last];
    NamesOfAre(earlier, StripNuls(fragments[last].name));
    assert forall i :: 0 <= i < last ==> earlier[i] == fragments[i];
  }

  /** Which exception add_entry raises. */
  lemma AddErrorIs(names: set<seq<byte>>, disk: Disk, f: Fragment)
    ensures var name := StripNuls(f.name);
            AddError(names, disk, f) ==
            if name == [100, 101, 102, 97, 117, 108, 116] then Fail(BannedName)
            else if name in names then Fail(DuplicatedName)
            else if f.boardId.Some? && exists i :: 0 <= i < |f.boardId.value| && !Fits32(f.boardId.value[i]) then
              Fail(BoardIdOverflow)
            else if f.boardId.Some? && |f.boardId.value| != 16 then Fail(BoardIdSize)
            else if f.path !in disk then Fail(FileMissing)
            else Pass
    ensures AddError(names, disk, f).Pass? <==> StripNuls(f.name) !in names && Acceptable(f, disk)
  {
    if f.boardId.Some? {
      assert WordsFit(f.boardId.value) <==>
             !exists i :: 0 <= i < |f.boardId.value| && !Fits32(f.boardId.value[i]);
    }
  }

  /** A table that cannot be built fails at the first fragment that is refused. */
  lemma {:induction false} BuildFailsAt(fragments: seq<Fragment>, disk: Disk) returns (k: nat)
    requires BuildOutcome(fragments, disk).Fail?
    ensures k < |fragments| && BuildOutcome(fragments[..k], disk).Pass?
    ensures BuildOutcome(fragments, disk) == AddError(NamesOf(fragments[..k]), disk, fragments[k])
  {
    var last := |fragments| - 1;
    if BuildOutcome(fragments[..last], disk).Fail? {
      k := BuildFailsAt(fragments[..last], disk);
      assert fragments[..last][..k] == fragments[..k];
    } else {
      k := last;
    }
  }

  /** The fragments in the order of the command line; --vendor_ramdisk comes first, as type 1 and without a
      name. */
  lemma FragmentsInOrder(args: VendorArgs, groups: seq<Fragment>)
    ensures AllFragments(args, groups) ==
            if args.vendorRamdisk.None? then groups
            else [Fragment(args.vendorRamdisk.value, 1, [], None)] + groups
  {
  }

  /** parse_vendor_ramdisk_args and the vendor_boot half of main: a run that raises nothing leaves an
      image whose reader gets back every file it was given. */
  method WriteVendorBoot(args: VendorArgs, groups: seq<Fragment>, disk: Disk, out: ImageFile)
    returns (r: Outcome<ImageError>)
    requires PageSize(args.pageSize) && out.data == []
    modifies out
    ensures args.headerVersion < 3 ==> r == Fail(VendorVersion)
    ensures args.headerVersion == 3 ==> r == OutcomeV3(args, disk)
    ensures args.headerVersion > 3 && BuildOutcome(AllFragments(args, groups), disk).Fail? ==>
      r == BuildOutcome(AllFragments(args, groups), disk)
    ensures args.headerVersion > 4 && BuildOutcome(AllFragments(args, groups), disk).Pass? ==> r == Fail(VendorVersion)
    ensures args.headerVersion == 4 && BuildOutcome(AllFragments(args, groups), disk).Pass? ==>
      exists entries :: TableOk(entries, disk) && DescribesAll(entries, AllFragments(args, groups))
                        && r == OutcomeV4(args, entries)
    ensures args.headerVersion == 3 && args.vendorRamdisk.None? ==> r == Fail(VendorRamdiskMissing)
    ensures r.Pass? ==> 3 <= args.headerVersion <= 4 && ReadVendorBoot(out.data).Some?
    ensures r.Pass? ==>
      var c := ReadVendorBoot(out.data).value;
      && c.version == args.headerVersion && c.placement == Placed(args)
      && c.cmdline == CString(FixedWidth(args.vendorCmdline, 2048)) && c.board == CString(FixedWidth(args.board, 16))
      && c.dtb == FileBytes(args.dtb) != []
      && (c.version == 3 ==> args.vendorRamdisk.Some? && c.ramdisks == Content(disk, args.vendorRamdisk.value))
      && (c.version == 4 ==>
            && c.bootconfig == FileBytes(args.bootconfig)
            && |c.table| == |AllFragments(args, groups)|
            && forall i :: 0 <= i < |c.table| ==> HoldsFragment(c.table[i], AllFragments(args, groups)[i], disk))
  {
    hide ReadVendorBoot, CString, FixedWidth, HoldsFragment;
    var builder := new RamdiskTableBuilder();
    if args.headerVersion > 3 {
      :- BuildTable(args, groups, disk, builder);
    }
    if args.headerVersion !in {3, 4} {
      return Fail(VendorVersion);
    }
    if args.headerVersion == 3 {
      :- WriteVendorBootV3(args, disk, out);
      VendorBootV3RoundTrip(args, disk);
    } else {
      :- WriteVendorBootV4(args, disk, builder, out);
      VendorBootV4RoundTrip(args, builder.entries, disk);
      TableHoldsFragments(builder.entries, AllFragments(args, groups), disk);
    }
    return Pass;
  }
}
