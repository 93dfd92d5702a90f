/** A boot loader's view of a boot image: it knows the field widths of each header version and the
    page arithmetic, and nothing of how the image was written. */
module BootImageReader {
  import opened Bits
  import opened Bytes
  import opened Struct
  import opened Paging
  import opened ImageFiles
  import opened BootImage
  import opened Wrappers

  // "ANDROID!"
  const MAGIC: seq<byte> := [65, 78, 68, 82, 79, 73, 68, 33]

  /** Where an old header places things in memory and in the image, and its image id. */
  datatype Placement = Placement(
    kernelAddress: int,
    ramdiskAddress: int,
    secondAddress: int,
    tagsAddress: int,
    pageSize: int,
    imageId: seq<byte>,
    recoveryOffset: Option<int>,
    dtbAddress: Option<int>)

  datatype BootContents = BootContents(
    version: int,
    osWord: int,
    board: seq<byte>,
    cmdline: seq<byte>,
    payload: seq<seq<byte>>,
    placement: Option<Placement>)

  // All versions share a magic and nine words, the last being the header version.
  function PrefixKinds(): seq<FieldKind> {
    [KText(8)] + Words(9)
  }

  // Versions 0 to 2: words are kernel size and address, ramdisk size and address, second size and
  // address, tags address, page size, version, os version.
  function OldKinds(version: nat): seq<FieldKind> {
    [KText(8)] + Words(10) + [KText(16), KText(512), KText(32), KText(1024)]
    + (if version >= 1 then [K32, K64, K32] else [])
    + (if version >= 2 then [K32, K64] else [])
  }

  // Versions 3 and 4: words are kernel size, ramdisk size, os version, header size, four reserved
  // words, version.
  function NewKinds(version: nat): seq<FieldKind> {
    [KText(8)] + Words(9) + [KText(1536)] + (if version >= 4 then [K32] else [])
  }

  function ReadBoot(image: seq<byte>): Option<BootContents> {
    match Unpack(PrefixKinds(), image)
    case None => None
    case Some(p) =>
      var version := p[9].n;
      if p[0].text != MAGIC || version < 0 then None
      else if version <= 2 then ReadOld(image, version)
      else if version <= 4 then ReadNew(image, version)
      else None
  }

  function ReadOld(image: seq<byte>, version: nat): Option<BootContents>
    requires version <= 2
  {
    match Unpack(OldKinds(version), image)
    case None => None
    case Some(h) =>
      var page := h[8].n;
      if page < 0 || !PageSize(page) || h[1].n < 0 || h[3].n < 0 || h[5].n < 0
         || (version >= 1 && h[15].n < 0) || (version >= 2 && h[18].n < 0) then None
      else
        var sizes: seq<nat> := [h[1].n, h[3].n, h[5].n]
                             + (if version >= 1 then [h[15].n] else [])
                             + (if version >= 2 then [h[18].n] else []);
        match Cut(image, page, sizes, page)
        case None => None
        case Some(payload) =>
          Some(BootContents(version, h[10].n, CString(h[11].text),
                            CString(h[12].text) + CString(h[14].text), payload, Some(PlacementIn(h, version))))
  }

  function PlacementIn(h: seq<Item>, version: nat): Placement
    requires |h| >= 15 && h[2].U32? && h[4].U32? && h[6].U32? && h[7].U32? && h[8].U32? && h[13].Text?
    requires version >= 1 ==> |h| >= 18 && h[16].U64?
    requires version >= 2 ==> |h| >= 20 && h[19].U64?
  {
    Placement(h[2].n, h[4].n, h[6].n, h[7].n, h[8].n, h[13].text,
              if version >= 1 then Some(h[16].n) else None,
              if version >= 2 then Some(h[19].n) else None)
  }

  function ReadNew(image: seq<byte>, version: nat): Option<BootContents>
    requires 3 <= version <= 4
  {
    match Unpack(NewKinds(version), image)
    case None => None
    case Some(h) =>
      if h[1].n < 0 || h[2].n < 0 || (version >= 4 && h[11].n < 0) then None
      else
        var sizes: seq<nat> := [h[1].n, h[2].n] + (if version >= 4 then [h[11].n] else []);
        match Cut(image, 4096, sizes, 4096)
        case None => None
        case Some(payload) =>
          Some(BootContents(version, h[3].n, [], CString(h[10].text), payload, None))
  }

  // ---- header sizes ----

  lemma OldHeaderSize(version: nat)
    requires version <= 2
    ensures Size(OldKinds(version)) == if version == 0 then 1632 else if version == 1 then 1648 else 1660
  {
    var start := [KText(8)] + Words(10);
    var texts := [KText(16), KText(512), KText(32), KText(1024)];
    var recovery := if version >= 1 then [K32, K64, K32] else [];
    var dtb := if version >= 2 then [K32, K64] else [];
    SizeWords(10);
    SizeAppend([KText(8)], Words(10));
    SizeAppend(start, texts);
    SizeAppend(start + texts, recovery);
    SizeAppend(start + texts + recovery, dtb);
    assert Size([KText(8)]) == 8;
    SizeOfTexts();
    SizeOfWords();
  }

  lemma SizeOfTexts()
    ensures Size([KText(16), KText(512), KText(32), KText(1024)]) == 1584
  {
    SizeAppend([KText(16), KText(512)], [KText(32), KText(1024)]);
    SizeAppend([KText(16)], [KText(512)]);
    SizeAppend([KText(32)], [KText(1024)]);
  }

  lemma SizeOfWords()
    ensures Size([K32, K64, K32]) == 16 && Size([K32, K64]) == 12
  {
    SizeAppend([K32, K64], [K32]);
    SizeAppend([K32], [K64]);
  }

  lemma NewHeaderSize(version: nat)
    requires 3 <= version <= 4
    ensures Size(NewKinds(version)) == if version == 3 then 1580 else 1584
  {
    var start := [KText(8)] + Words(9);
    SizeWords(9);
    SizeAppend([KText(8)], Words(9));
    SizeAppend(start, [KText(1536)]);
    SizeAppend(start + [KText(1536)], if version >= 4 then [K32] else []);
  }

  function HeaderKinds(version: nat): seq<FieldKind>
    requires version <= 4
  {
    if version <= 2 then OldKinds(version) else NewKinds(version)
  }

  lemma HeaderKindsOf(h: Header)
    requires 0 <= h.version <= 4
    ensures Kinds(HeaderItems(h)) == HeaderKinds(h.version)
  {
  }

  /** The fields of an old header that a reader looks at. */
  lemma OldFields(h: Header)
    requires 0 <= h.version <= 2
    ensures var items := HeaderItems(h);
            && |items| == |OldKinds(h.version)|
            && items[..15] == CommonItems(h)
            && (h.version >= 1 ==> items[15] == U32(h.recoverySize))
            && (h.version >= 1 ==> items[16] == U64(h.recoveryOffset))
            && (h.version >= 1 ==> items[17..18] == HeaderSizeItems(h))
            && (h.version >= 2 ==> items[18] == U32(h.dtbSize) && items[19] == U64(h.dtbAddress))
  {
  }

  lemma CommonFields(h: Header, items: seq<Item>)
    requires |items| >= 15 && items[..15] == CommonItems(h)
    ensures items[1] == U32(h.kernelSize) && items[3] == U32(h.ramdiskSize) && items[5] == U32(h.secondSize)
    ensures items[2] == U32(h.kernelAddress) && items[4] == U32(h.ramdiskAddress) && items[6] == U32(h.secondAddress)
    ensures items[7] == U32(h.tagsAddress) && items[13] == Text(32, h.digest)
    ensures items[8] == U32(h.pageSize) && items[9] == U32(h.version) && items[10] == U32(h.osWord)
    ensures items[11] == Text(BOOT_NAME_SIZE, h.board) && items[12] == Text(BOOT_ARGS_SIZE, h.cmdline)
    ensures items[14] == Text(BOOT_EXTRA_ARGS_SIZE, h.extraCmdline)
  {
    assert forall i :: 0 <= i < 15 ==> items[i] == items[..15][i];
  }

  lemma OnePage(record: seq<Item>, page: nat)
    requires PageSize(page) && 0 < |Pack(record)| <= page
    ensures |AppendRecord([], record, page)| == page
  {
    PageSizeIsPowerOfTwo(page);
    PadCompletesPage(|Pack(record)|, page);
    assert NumberOfPages(|Pack(record)|, page) == 1;
  }

  /** The header size the image declares (versions 1 to 4) is the number of bytes the header fields
      take. */
  lemma DeclaredHeaderSize(h: Header)
    requires 0 <= h.version <= 4
    ensures |Pack(HeaderItems(h))| == match h.version
                                      case 0 => 1632
                                      case 1 => BOOT_IMAGE_HEADER_V1_SIZE
                                      case 2 => BOOT_IMAGE_HEADER_V2_SIZE
                                      case 3 => BOOT_IMAGE_HEADER_V3_SIZE
                                      case _ => BOOT_IMAGE_HEADER_V4_SIZE
    ensures 1 <= h.version <= 2 ==> HeaderSizeItems(h) == [U32(|Pack(HeaderItems(h))|)]
    ensures h.version >= 3 ==> HeaderItems(h)[4] == U32(|Pack(HeaderItems(h))|)
  {
    PackedSize(HeaderItems(h));
    HeaderKindsOf(h);
    if h.version <= 2 {
      OldHeaderSize(h.version);
    } else {
      NewHeaderSize(h.version);
    }
  }

  /** Whatever the version, the header is exactly one page. */
  lemma HeaderIsOnePage(args: BootArgs, sha1: Digest)
    requires PageSize(args.pageSize) && 0 <= args.headerVersion <= 4
    ensures |HeaderBytes(args, sha1)| == HeaderPage(args)
  {
    var h := HeaderOf(args, sha1(HashInput(args)));
    DeclaredHeaderSize(h);
    OnePage(HeaderItems(h), HeaderPage(args));
  }

  // ---- round trip ----

  /** What a reader must find in an image built from args. */
  function Written(args: BootArgs, sha1: Digest): BootContents
    requires args.pageSize > 0
  {
    var osWord := Or(Shl(args.osVersion, 11), args.osPatchLevel);
    if args.headerVersion <= 2 then
      BootContents(args.headerVersion, osWord,
                   CString(FixedWidth(args.board, 16)),
                   CString(FixedWidth(args.cmdline, 512)) + CString(FixedWidth(args.extraCmdline, 1024)),
                   OldPayload(args), Some(Placed(args, sha1)))
    else
      BootContents(args.headerVersion, osWord, [], CString(FixedWidth(args.cmdline, 1536)), NewPayload(args), None)
  }

  /** Each load address is the base and the named offset, 0 for an empty ramdisk or second stage. */
  function Placed(args: BootArgs, sha1: Digest): Placement
    requires args.pageSize > 0
  {
    Placement(args.base + args.kernelOffset,
              if FileBytes(args.ramdisk) == [] then 0 else args.base + args.ramdiskOffset,
              if FileBytes(args.second) == [] then 0 else args.base + args.secondOffset,
              args.base + args.tagsOffset,
              args.pageSize,
              FixedWidth(sha1(HashInput(args)), 32),
              if args.headerVersion < 1 then None
              else if args.recoveryDtbo.None? then Some(0)
              else Some(RecoveryDtboOffset(args)),
              if args.headerVersion < 2 then None else Some(args.base + args.dtbOffset))
  }

  function OldPayload(args: BootArgs): seq<seq<byte>> {
    [FileBytes(args.kernel), FileBytes(args.ramdisk), FileBytes(args.second)]
    + (if args.headerVersion >= 1 then [FileBytes(args.recoveryDtbo)] else [])
    + (if args.headerVersion == 2 then [FileBytes(args.dtb)] else [])
  }

  function NewPayload(args: BootArgs): seq<seq<byte>> {
    [FileBytes(args.kernel), FileBytes(args.ramdisk)]
    + if args.headerVersion >= 4 then [Zeros(4096)] else []
  }

  lemma ImageIsHeaderAndSections(args: BootArgs, sha1: Digest)
    requires PageSize(args.pageSize) && 0 <= args.headerVersion <= 4
    ensures ImageBytes(args, sha1)
         == HeaderBytes(args, sha1) + Sections(Contents(DataFiles(args)), HeaderPage(args))
  {
    HeaderIsOnePage(args, sha1);
    PageSizeIsPowerOfTwo(HeaderPage(args));
    AppendAllIsSections(HeaderBytes(args, sha1), DataFiles(args), HeaderPage(args));
  }

  /** The header fields come back by their widths alone, first the common prefix, then all. */
  lemma HeaderFieldsRead(h: Header, rest: seq<byte>)
    requires 0 <= h.version <= 4 && AllFit(HeaderItems(h))
    ensures var items := HeaderItems(h);
            && Unpack(PrefixKinds(), Pack(items) + rest) == Some(ReadItems(items[..10]))
            && Unpack(HeaderKinds(h.version), Pack(items) + rest) == Some(ReadItems(items))
  {
    hide Unpack;
    var items := HeaderItems(h);
    HeaderKindsOf(h);
    UnpackPack(items, rest);
    assert HeaderKinds(h.version)[..10] == PrefixKinds();
    assert Kinds(items[..10]) == Kinds(items)[..10];
    assert items == items[..10] + items[10..];
    UnpackPrefix(items[..10], items[10..], rest);
  }

  lemma RecordThenRest(items: seq<Item>, page: nat, tail: seq<byte>) returns (rest: seq<byte>)
    requires page > 0
    ensures AppendRecord([], items, page) + tail == Pack(items) + rest
  {
    var packed := [] + Pack(items);
    assert packed == Pack(items);
    rest := Zeros(PadLength(|packed|, page)) + tail;
  }

  /** Every boot image that is written can be read back: kernel, ramdisk, second stage, recovery dtbo, dtb
      and signature byte for byte, and the os version word, board, command line, load addresses and image
      id from the header. */
  lemma BootImageRoundTrip(args: BootArgs, sha1: Digest)
    requires PageSize(args.pageSize)
    requires BootOutcome(args, sha1).Pass?
    ensures ReadBoot(ImageBytes(args, sha1)) == Some(Written(args, sha1))
  {
    VersionInRange(HeaderOf(args, sha1(HashInput(args))));
    if args.headerVersion <= 2 {
      OldRoundTrip(args, sha1);
    } else {
      NewRoundTrip(args, sha1);
    }
  }

  lemma OldRoundTrip(args: BootArgs, sha1: Digest)
    requires PageSize(args.pageSize) && 0 <= args.headerVersion <= 2
    requires AllFit(HeaderItems(HeaderOf(args, sha1(HashInput(args)))))
    ensures ReadBoot(ImageBytes(args, sha1)) == Some(Written(args, sha1))
  {
    hide HeaderOf, PlacementOf, Placed, OldPayload, HashInput, DataFiles, ReadBoot, CString, FixedWidth, Or, Shl;
    var h := HeaderOf(args, sha1(HashInput(args)));
    ImageIsHeaderAndSections(args, sha1);
    HeaderIsOnePage(args, sha1);
    HeaderSizesMatchPayload(args, sha1(HashInput(args)));
    HeaderPlaces(args, sha1);
    OldImageRead(h, args.pageSize, Contents(DataFiles(args)));
  }

  lemma HeaderPlaces(args: BootArgs, sha1: Digest)
    requires args.pageSize > 0 && 0 <= args.headerVersion <= 2
    ensures var h := HeaderOf(args, sha1(HashInput(args)));
            && PlacementOf(h) == Placed(args, sha1)
            && h.osWord == Or(Shl(args.osVersion, 11), args.osPatchLevel)
            && h.version == args.headerVersion && h.pageSize == args.pageSize && h.board == args.board
            && h.cmdline == args.cmdline && h.extraCmdline == args.extraCmdline
  {
    hide HashInput, RecoveryDtboOffset, FixedWidth, Or, Shl;
  }

  lemma HeaderSizesMatchPayload(args: BootArgs, digest: seq<byte>)
    requires args.pageSize > 0 && 0 <= args.headerVersion <= 2
    ensures var h, files := HeaderOf(args, digest), Contents(DataFiles(args));
            && files == OldPayload(args) && |files| == 3 + h.version
            && h.kernelSize == |files[0]| && h.ramdiskSize == |files[1]| && h.secondSize == |files[2]|
            && (h.version >= 1 ==> h.recoverySize == |files[3]|)
            && (h.version >= 2 ==> h.dtbSize == |files[4]|)
  {
  }

  lemma NewRoundTrip(args: BootArgs, sha1: Digest)
    requires PageSize(args.pageSize) && 3 <= args.headerVersion <= 4 && args.second.None?
    requires AllFit(HeaderItems(HeaderOf(args, sha1(HashInput(args)))))
    ensures ReadBoot(ImageBytes(args, sha1)) == Some(Written(args, sha1))
  {
    var h := HeaderOf(args, sha1(HashInput(args)));
    ImageIsHeaderAndSections(args, sha1);
    HeaderIsOnePage(args, sha1);
    NewImageFiles(args);
    NewImageRead(h, NewPayload(args));
  }

  lemma VersionInRange(h: Header)
    requires HeaderOutcome(h).Pass?
    ensures 0 <= h.version <= 4 && AllFit(HeaderItems(h))
  {
    if h.version < 3 {
      assert HeaderItems(h)[9] == U32(h.version);
    }
  }

  function PlacementOf(h: Header): Placement {
    Placement(h.kernelAddress, h.ramdiskAddress, h.secondAddress, h.tagsAddress, h.pageSize, FixedWidth(h.digest, 32),
              if h.version >= 1 then Some(h.recoveryOffset) else None,
              if h.version >= 2 then Some(h.dtbAddress) else None)
  }

  lemma OldImageRead(h: Header, page: nat, files: seq<seq<byte>>)
    requires 0 <= h.version <= 2 && AllFit(HeaderItems(h))
    requires h.pageSize == page && PageSize(page) && |files| == 3 + h.version
    requires h.kernelSize == |files[0]| && h.ramdiskSize == |files[1]| && h.secondSize == |files[2]|
    requires h.version >= 1 ==> h.recoverySize == |files[3]|
    requires h.version >= 2 ==> h.dtbSize == |files[4]|
    requires |AppendRecord([], HeaderItems(h), page)| == page
    ensures ReadBoot(AppendRecord([], HeaderItems(h), page) + Sections(files, page))
         == Some(BootContents(h.version, h.osWord, CString(FixedWidth(h.board, BOOT_NAME_SIZE)),
                              CString(FixedWidth(h.cmdline, BOOT_ARGS_SIZE))
                              + CString(FixedWidth(h.extraCmdline, BOOT_EXTRA_ARGS_SIZE)), files,
                              Some(PlacementOf(h))))
  {
    hide CString, FixedWidth, Sections, Unpack, ReadOld;
    var items := HeaderItems(h);
    var header := AppendRecord([], items, page);
    var rest := RecordThenRest(items, page, Sections(files, page));
    HeaderFieldsRead(h, rest);
    OldFields(h);
    CommonFields(h, items);
    assert items[0] == items[..15][0];
    OldFilesRead(ReadItems(items), h.version, header, files, page);
  }

  /** The payload of an old image, whatever its header says besides the sizes. */
  lemma OldFilesRead(h: seq<Item>, version: nat, header: seq<byte>, files: seq<seq<byte>>, page: nat)
    requires version <= 2 && PageSize(page) && |header| == page && |files| == 3 + version
    requires |h| == |OldKinds(version)| && forall i :: 0 <= i < |h| ==> h[i].Kind() == OldKinds(version)[i]
    requires h[8] == U32(page) && h[1] == U32(|files[0]|) && h[3] == U32(|files[1]|) && h[5] == U32(|files[2]|)
    requires version >= 1 ==> h[15] == U32(|files[3]|)
    requires version >= 2 ==> h[18] == U32(|files[4]|)
    requires Unpack(OldKinds(version), header + Sections(files, page)) == Some(h)
    ensures ReadOld(header + Sections(files, page), version)
         == Some(BootContents(version, h[10].n, CString(h[11].text),
                              CString(h[12].text) + CString(h[14].text), files, Some(PlacementIn(h, version))))
  {
    hide Unpack, Cut, CString, Sections;
    PageSizeIsPowerOfTwo(page);
    CutSections(header, files, page);
    var sizes: seq<nat> := [h[1].n, h[3].n, h[5].n]
                         + (if version >= 1 then [h[15].n] else [])
                         + (if version >= 2 then [h[18].n] else []);
    assert sizes == Sizes(files);
  }

  /** Without a second stage, its place in the payload takes no bytes. */
  lemma NewImageFiles(args: BootArgs)
    requires 3 <= args.headerVersion <= 4 && args.second.None?
    ensures Sections(Contents(DataFiles(args)), 4096) == Sections(NewPayload(args), 4096)
  {
    var all, files := Contents(DataFiles(args)), NewPayload(args);
    assert all == files[..2] + [[]] + files[2..] && files == files[..2] + files[2..];
    EmptySection(files[..2], files[2..], 4096);
  }

  lemma {:induction false} EmptySection(a: seq<seq<byte>>, b: seq<seq<byte>>, page: nat)
    requires PageSize(page)
    ensures Sections(a + [[]] + b, page) == Sections(a + b, page)
    decreases |a|
  {
    var all := a + [[]] + b;
    if a == [] {
      assert all[0] == [] && all[1..] == b && a + b == b;
      PageSizeIsPowerOfTwo(page);
      PaddedEmpty(page);
    } else {
      assert all[1..] == a[1..] + [[]] + b && (a + b)[1..] == a[1..] + b;
      EmptySection(a[1..], b, page);
    }
  }

  /** The fields of a new header that a reader looks at. */
  lemma NewFields(h: Header)
    requires 3 <= h.version <= 4
    ensures var f := ReadItems(HeaderItems(h));
            && |f| == |NewKinds(h.version)|
            && (forall i :: 0 <= i < |f| ==> f[i].Kind() == NewKinds(h.version)[i])
            && f[1] == U32(h.kernelSize) && f[2] == U32(h.ramdiskSize) && f[3] == U32(h.osWord)
            && f[10] == Text(BOOT_ARGS_SIZE + BOOT_EXTRA_ARGS_SIZE,
                             FixedWidth(h.cmdline, BOOT_ARGS_SIZE + BOOT_EXTRA_ARGS_SIZE))
            && (h.version == 4 ==> f[11] == U32(BOOT_IMAGE_V4_SIGNATURE_SIZE))
    ensures var p := ReadItems(HeaderItems(h)[..10]);
            p[0] == Text(8, BOOT_MAGIC) && p[9] == U32(h.version)
  {
    var items := HeaderItems(h);
    HeaderKindsOf(h);
    var f := ReadItems(items);
    forall i | 0 <= i < |f|
      ensures f[i].Kind() == NewKinds(h.version)[i]
    {
      assert f[i] == items[i].Read();
      assert items[i].Kind() == Kinds(items)[i];
    }
    assert items[0] == Text(8, BOOT_MAGIC) && items[9] == U32(h.version);
    assert items[1] == U32(h.kernelSize) && items[2] == U32(h.ramdiskSize) && items[3] == U32(h.osWord);
    assert items[10] == Text(BOOT_ARGS_SIZE + BOOT_EXTRA_ARGS_SIZE, h.cmdline);
  }

  /** The four reserved words of a new header are zero. */
  lemma ReservedWords(h: Header, rest: seq<byte>)
    requires 3 <= h.version <= 4 && AllFit(HeaderItems(h))
    ensures var r := Unpack(NewKinds(h.version), Pack(HeaderItems(h)) + rest);
            r.Some? && forall i :: 5 <= i < 9 ==> r.value[i] == U32(0)
  {
    hide Unpack, Pack;
    HeaderFieldsRead(h, rest);
    var items := HeaderItems(h);
    assert items[5] == U32(0) && items[6] == U32(0) && items[7] == U32(0) && items[8] == U32(0);
  }

  lemma NewImageRead(h: Header, files: seq<seq<byte>>)
    requires 3 <= h.version <= 4 && AllFit(HeaderItems(h)) && |files| == h.version - 1
    requires h.kernelSize == |files[0]| && h.ramdiskSize == |files[1]|
    requires h.version >= 4 ==> |files[2]| == BOOT_IMAGE_V4_SIGNATURE_SIZE
    requires |AppendRecord([], HeaderItems(h), 4096)| == 4096
    ensures ReadBoot(AppendRecord([], HeaderItems(h), 4096) + Sections(files, 4096))
         == Some(BootContents(h.version, h.osWord, [],
                              CString(FixedWidth(h.cmdline, BOOT_ARGS_SIZE + BOOT_EXTRA_ARGS_SIZE)), files, None))
  {
    var items := HeaderItems(h);
    var header := AppendRecord([], items, 4096);
    var rest := RecordThenRest(items, 4096, Sections(files, 4096));
    HeaderFieldsRead(h, rest);
    NewFields(h);
    NewFilesRead(ReadItems(items), h.version, header, files);
  }

  lemma NewFilesRead(h: seq<Item>, version: nat, header: seq<byte>, files: seq<seq<byte>>)
    requires 3 <= version <= 4 && |header| == 4096 && |files| == version - 1
    requires |h| == |NewKinds(version)| && forall i :: 0 <= i < |h| ==> h[i].Kind() == NewKinds(version)[i]
    requires h[1] == U32(|files[0]|) && h[2] == U32(|files[1]|)
    requires version >= 4 ==> h[11] == U32(|files[2]|)
    requires Unpack(NewKinds(version), header + Sections(files, 4096)) == Some(h)
    ensures ReadNew(header + Sections(files, 4096), version)
         == Some(BootContents(version, h[3].n, [], CString(h[10].text), files, None))
  {
    hide Unpack, Cut, CString, Sections;
    PageSizeIsPowerOfTwo(4096);
    CutSections(header, files, 4096);
    var sizes: seq<nat> := [h[1].n, h[2].n] + (if version >= 4 then [h[11].n] else []);
    assert sizes == Sizes(files);
  }

  // ---- the recovery dtbo offset ----

  /** The offset the header declares is where write_data puts the recovery dtbo: the stream position
      after the header, kernel, ramdisk and second stage, for absent and empty files too. */
  lemma RecoveryDtboOffsetAgrees(args: BootArgs, sha1: Digest)
    requires PageSize(args.pageSize) && 1 <= args.headerVersion <= 2 && args.recoveryDtbo.Some?
    ensures var before := AppendAll(HeaderBytes(args, sha1), DataFiles(args)[..3], args.pageSize);
            && |before| == RecoveryDtboOffset(args)
            && HeaderItems(HeaderOf(args, sha1(HashInput(args))))[16] == U64(|before|)
            && before + args.recoveryDtbo.value <= ImageBytes(args, sha1)
  {
    hide HeaderBytes, AppendAll;
    HeaderIsOnePage(args, sha1);
    ThreeSections(HeaderBytes(args, sha1), DataFiles(args)[..3], args.pageSize);
    FourthFile(HeaderBytes(args, sha1), DataFiles(args), args.pageSize);
    OldFields(HeaderOf(args, sha1(HashInput(args))));
  }

  /** So a reader finds the recovery dtbo where the header says. */
  lemma RecoveryDtboFound(args: BootArgs, sha1: Digest)
    requires PageSize(args.pageSize) && 1 <= args.headerVersion <= 2 && args.recoveryDtbo.Some?
    requires BootOutcome(args, sha1).Pass?
    ensures var image := ImageBytes(args, sha1);
            var c := ReadBoot(image);
            && c.Some? && c.value.placement.Some? && c.value.placement.value.recoveryOffset.Some?
            && var offset := c.value.placement.value.recoveryOffset.value;
               && 0 <= offset <= offset + |args.recoveryDtbo.value| <= |image|
               && image[offset..offset + |args.recoveryDtbo.value|] == args.recoveryDtbo.value
  {
    hide ImageBytes, AppendAll, HeaderItems, ReadBoot;
    BootImageRoundTrip(args, sha1);
    RecoveryDtboOffsetAgrees(args, sha1);
    var before := AppendAll(HeaderBytes(args, sha1), DataFiles(args)[..3], args.pageSize);
    PrefixSlice(before, args.recoveryDtbo.value, ImageBytes(args, sha1));
  }

  lemma PrefixSlice(a: seq<byte>, b: seq<byte>, all: seq<byte>)
    requires a + b <= all
    ensures all[|a|..|a| + |b|] == b
  {
  }

  lemma FourthFile(header: seq<byte>, files: seq<File>, page: nat)
    requires page > 0 && |files| >= 4 && files[3].Some?
    ensures AppendAll(header, files[..3], page) + files[3].value <= AppendAll(header, files, page)
  {
    var before := AppendAll(header, files[..3], page);
    assert files == files[..3] + files[3..];
    AppendAllSplit(header, files[..3], files[3..], page);
    assert files[3..][1..] == files[4..];
    AppendGrows(AppendPadded(before, files[3], page), files[4..], page);
  }

  lemma ThreeSections(header: seq<byte>, files: seq<File>, page: nat)
    requires PageSize(page) && |header| == page && |files| == 3
    ensures |AppendAll(header, files, page)|
         == page * (1 + NumberOfPages(FileSize(files[0]), page) + NumberOfPages(FileSize(files[1]), page)
                      + NumberOfPages(FileSize(files[2]), page))
  {
    PageSizeIsPowerOfTwo(page);
    AppendAllIsSections(header, files, page);
    var c := Contents(files);
    SectionsOfThree(c, page);
    PaddedLength(c[0], page);
    PaddedLength(c[1], page);
    PaddedLength(c[2], page);
    Distribute(page, NumberOfPages(|c[0]|, page), NumberOfPages(|c[1]|, page), NumberOfPages(|c[2]|, page));
  }

  lemma SectionsOfThree(c: seq<seq<byte>>, page: nat)
    requires page > 0 && |c| == 3
    ensures |Sections(c, page)| == |Padded(c[0], page)| + |Padded(c[1], page)| + |Padded(c[2], page)|
  {
    assert c[1..][1..] == c[2..] && c[2..][1..] == [];
    assert |Sections(c[2..], page)| == |Padded(c[2], page)|;
  }

  lemma Distribute(p: nat, a: nat, b: nat, c: nat)
    ensures p * (1 + a + b + c) == p + p * a + p * b + p * c
  {
  }

  lemma {:induction false} AppendGrows(data: seq<byte>, files: seq<File>, page: nat)
    requires page > 0
    ensures data <= AppendAll(data, files, page)
    decreases |files|
  {
    if files != [] {
      AppendGrows(AppendPadded(data, files[0], page), files[1..], page);
    }
  }
}
