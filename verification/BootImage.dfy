/** The writer of boot images, header versions 0 to 4. */
module BootImage {
  import opened Bits
  import opened Bytes
  import opened Struct
  import opened Paging
  import opened ImageFiles
  import opened Wrappers

  // "ANDROID!"
  const BOOT_MAGIC: seq<byte> := [65, 78, 68, 82, 79, 73, 68, 33]
  const BOOT_NAME_SIZE := 16
  const BOOT_ARGS_SIZE := 512
  const BOOT_EXTRA_ARGS_SIZE := 1024
  const BOOT_IMAGE_HEADER_V1_SIZE := 1648
  const BOOT_IMAGE_HEADER_V2_SIZE := 1660
  const BOOT_IMAGE_HEADER_V3_SIZE := 1580
  const BOOT_IMAGE_HEADER_V4_SIZE := 1584
  const BOOT_IMAGE_HEADER_V3_PAGESIZE := 4096
  const BOOT_IMAGE_V4_SIGNATURE_SIZE := 4096

  datatype BootArgs = BootArgs(
    headerVersion: int,
    pageSize: nat,
    kernel: File,
    ramdisk: File,
    second: File,
    recoveryDtbo: File,
    dtb: File,
    base: int,
    kernelOffset: int,
    ramdiskOffset: int,
    secondOffset: int,
    tagsOffset: int,
    dtbOffset: int,
    osVersion: nat,
    osPatchLevel: nat,
    board: seq<byte>,
    cmdline: seq<byte>,
    extraCmdline: seq<byte>)

  /** sha1 is not part of this model: any function from bytes to a digest. */
  type Digest = seq<byte> -> seq<byte>

  function UpdateSha(sha: seq<byte>, f: File): seq<byte> {
    sha + FileBytes(f) + LittleEndian(FileSize(f), 4)
  }

  /** The bytes whose digest becomes the image id. */
  function HashInput(args: BootArgs): seq<byte> {
    var sha := UpdateSha(UpdateSha(UpdateSha([], args.kernel), args.ramdisk), args.second);
    var sha := if args.headerVersion > 0 then UpdateSha(sha, args.recoveryDtbo) else sha;
    if args.headerVersion > 1 then UpdateSha(sha, args.dtb) else sha
  }

  function RecoveryDtboOffset(args: BootArgs): nat
    requires args.pageSize > 0
  {
    args.pageSize * (1 + NumberOfPages(FileSize(args.kernel), args.pageSize)
                     + NumberOfPages(FileSize(args.ramdisk), args.pageSize)
                     + NumberOfPages(FileSize(args.second), args.pageSize))
  }

  function OsWord(args: BootArgs): nat {
    Or(Shl(args.osVersion, 11), args.osPatchLevel)
  }

  /** The values a header is made of. */
  datatype Header = Header(
    version: int,
    pageSize: int,
    kernelSize: nat,
    kernelAddress: int,
    ramdiskSize: nat,
    ramdiskAddress: int,
    secondSize: nat,
    secondAddress: int,
    tagsAddress: int,
    osWord: nat,
    board: seq<byte>,
    cmdline: seq<byte>,
    digest: seq<byte>,
    extraCmdline: seq<byte>,
    recoverySize: nat,
    recoveryOffset: nat,
    dtbSize: nat,
    dtbAddress: int)

  function HeaderOf(args: BootArgs, digest: seq<byte>): Header
    requires args.pageSize > 0
  {
    Header(
      args.headerVersion,
      args.pageSize,
      FileSize(args.kernel),
      args.base + args.kernelOffset,
      FileSize(args.ramdisk),
      if FileSize(args.ramdisk) > 0 then args.base + args.ramdiskOffset else 0,
      FileSize(args.second),
      if FileSize(args.second) > 0 then args.base + args.secondOffset else 0,
      args.base + args.tagsOffset,
      OsWord(args),
      args.board,
      args.cmdline,
      digest,
      args.extraCmdline,
      if args.recoveryDtbo.Some? then FileSize(args.recoveryDtbo) else 0,
      if args.recoveryDtbo.Some? then RecoveryDtboOffset(args) else 0,
      FileSize(args.dtb),
      args.base + args.dtbOffset)
  }

  // ---- header layout, versions 0 to 2 ----

  function CommonItems(h: Header): seq<Item> {
    [ Text(8, BOOT_MAGIC),
      U32(h.kernelSize),
      U32(h.kernelAddress),
      U32(h.ramdiskSize),
      U32(h.ramdiskAddress),
      U32(h.secondSize),
      U32(h.secondAddress),
      U32(h.tagsAddress),
      U32(h.pageSize),
      U32(h.version),
      U32(h.osWord),
      Text(BOOT_NAME_SIZE, h.board),
      Text(BOOT_ARGS_SIZE, h.cmdline),
      Text(32, h.digest),
      Text(BOOT_EXTRA_ARGS_SIZE, h.extraCmdline)
    ]
  }

  function RecoveryItems(h: Header): seq<Item> {
    [U32(h.recoverySize), U64(h.recoveryOffset)]
  }

  function HeaderSizeItems(h: Header): seq<Item> {
    if h.version == 1 then [U32(BOOT_IMAGE_HEADER_V1_SIZE)]
    else if h.version == 2 then [U32(BOOT_IMAGE_HEADER_V2_SIZE)]
    else []
  }

  function DtbItems(h: Header): seq<Item> {
    [U32(h.dtbSize), U64(h.dtbAddress)]
  }

  function ItemsBeforeDtb(h: Header): seq<Item> {
    CommonItems(h) + (if h.version > 0 then RecoveryItems(h) else []) + HeaderSizeItems(h)
  }

  // ---- header layout, versions 3 and 4 ----

  function ItemsV3(h: Header): seq<Item> {
    [ Text(8, BOOT_MAGIC),
      U32(h.kernelSize),
      U32(h.ramdiskSize),
      U32(h.osWord),
      U32(if h.version > 3 then BOOT_IMAGE_HEADER_V4_SIZE else BOOT_IMAGE_HEADER_V3_SIZE),
      U32(0), U32(0), U32(0), U32(0),
      U32(h.version),
      Text(BOOT_ARGS_SIZE + BOOT_EXTRA_ARGS_SIZE, h.cmdline)
    ]
    + (if h.version >= 4 then [U32(BOOT_IMAGE_V4_SIGNATURE_SIZE)] else [])
  }

  function HeaderItems(h: Header): seq<Item> {
    if h.version >= 3 then ItemsV3(h)
    else ItemsBeforeDtb(h) + (if h.version > 1 then DtbItems(h) else [])
  }

  function HeaderPage(args: BootArgs): nat {
    if args.headerVersion >= 3 then BOOT_IMAGE_HEADER_V3_PAGESIZE else args.pageSize
  }

  /** Which exception the header writer raises, if any. */
  function HeaderOutcome(h: Header): Outcome<ImageError> {
    if h.version > 4 then Fail(UnsupportedVersion)
    else if h.version >= 3 then
      if AllFit(HeaderItems(h)) then Pass else Fail(StructError)
    else if !AllFit(ItemsBeforeDtb(h)) then Fail(StructError)
    else if h.version > 1 && h.dtbSize == 0 then Fail(DtbEmpty)
    else if AllFit(HeaderItems(h)) then Pass
    else Fail(StructError)
  }

  function AppendRecord(data: seq<byte>, record: seq<Item>, page: nat): seq<byte>
    requires page > 0
  {
    data + Pack(record) + Zeros(PadLength(|data + Pack(record)|, page))
  }

  /** write_header_v3_and_above */
  method WriteHeaderV3AndAbove(h: Header, out: ImageFile) returns (r: Outcome<ImageError>)
    requires h.version in {3, 4}
    modifies out
    ensures r == HeaderOutcome(h)
    ensures r.Pass? ==> out.data == AppendRecord(old(out.data), HeaderItems(h), BOOT_IMAGE_HEADER_V3_PAGESIZE)
  {
    var fields := ItemsV3(h);
    :- out.WriteRecord(fields);
    out.PadFile(BOOT_IMAGE_HEADER_V3_PAGESIZE);
    return Pass;
  }

  /** The hash of write_header, taken over the payload in the order the header lists it. */
  method HashPayload(args: BootArgs) returns (sha: seq<byte>)
    ensures sha == HashInput(args)
  {
    sha := UpdateSha([], args.kernel);
    sha := UpdateSha(sha, args.ramdisk);
    sha := UpdateSha(sha, args.second);
    if args.headerVersion > 0 {
      sha := UpdateSha(sha, args.recoveryDtbo);
    }
    if args.headerVersion > 1 {
      sha := UpdateSha(sha, args.dtb);
    }
  }

  /** write_header for versions below 3, up to the dtb fields */
  method WriteFieldsBeforeDtb(h: Header, out: ImageFile) returns (r: Outcome<ImageError>)
    modifies out
    ensures r == if AllFit(ItemsBeforeDtb(h)) then Pass else Fail(StructError)
    ensures r.Pass? ==> out.data == old(out.data) + Pack(ItemsBeforeDtb(h))
  {
    ghost var start := out.data;
    ghost var layout := ItemsBeforeDtb(h);
    ghost var items := CommonItems(h);
    AllFitPrefix(items, layout);
    :- out.WriteRecord(CommonItems(h));
    if h.version > 0 {
      PackTwice(start, items, RecoveryItems(h));
      AllFitPrefix(items + RecoveryItems(h), layout);
      :- out.WriteRecord(RecoveryItems(h));
      items := items + RecoveryItems(h);
    }
    PackTwice(start, items, HeaderSizeItems(h));
    assert items + HeaderSizeItems(h) == layout;
    if h.version == 1 {
      :- out.WriteRecord([U32(BOOT_IMAGE_HEADER_V1_SIZE)]);
    } else if h.version == 2 {
      :- out.WriteRecord([U32(BOOT_IMAGE_HEADER_V2_SIZE)]);
    }
    return Pass;
  }

  /** write_header */
  method WriteHeader(args: BootArgs, sha1: Digest, out: ImageFile) returns (r: Outcome<ImageError>)
    requires args.pageSize > 0
    modifies out
    ensures r == HeaderOutcome(HeaderOf(args, sha1(HashInput(args))))
    ensures r.Pass? ==>
      out.data == AppendRecord(old(out.data), HeaderItems(HeaderOf(args, sha1(HashInput(args)))), HeaderPage(args))
  {
    if args.headerVersion > 4 {
      return Fail(UnsupportedVersion);
    }
    var sha := HashPayload(args);
    var h := HeaderOf(args, sha1(sha));
    if args.headerVersion in {3, 4} {
      r := WriteHeaderV3AndAbove(h, out);
      return;
    }
    r := WriteHeaderBelowV3(h, args.pageSize, out);
  }

  method WriteHeaderBelowV3(h: Header, page: nat, out: ImageFile) returns (r: Outcome<ImageError>)
    requires h.version < 3 && page > 0
    modifies out
    ensures r == HeaderOutcome(h)
    ensures r.Pass? ==> out.data == AppendRecord(old(out.data), HeaderItems(h), page)
  {
    ghost var fields := ItemsBeforeDtb(h);
    :- WriteFieldsBeforeDtb(h, out);
    if h.version > 1 {
      if h.dtbSize == 0 {
        return Fail(DtbEmpty);
      }
      PackTwice(old(out.data), fields, DtbItems(h));
      :- out.WriteRecord(DtbItems(h));
    } else {
      assert fields + [] == fields;
    }
    out.PadFile(page);
    return Pass;
  }

  // ---- payload ----

  /** The files after the header, in order; version 4 ends in a signature of zeros. */
  function DataFiles(args: BootArgs): seq<File> {
    [args.kernel, args.ramdisk, args.second]
    + (if 0 < args.headerVersion < 3 then [args.recoveryDtbo] else [])
    + (if args.headerVersion == 2 then [args.dtb] else [])
    + (if args.headerVersion >= 4 then [Some(Zeros(BOOT_IMAGE_V4_SIGNATURE_SIZE))] else [])
  }

  /** write_data, with the unsigned form of add_boot_image_signature */
  method WriteData(args: BootArgs, page: nat, out: ImageFile)
    requires page > 0
    modifies out
    ensures out.data == AppendAll(old(out.data), DataFiles(args), page)
  {
    ghost var start := [args.kernel, args.ramdisk, args.second];
    ghost var rest := DataFiles(args)[3..];
    assert DataFiles(args) == start + rest;
    out.WritePaddedFile(args.kernel, page);
    out.WritePaddedFile(args.ramdisk, page);
    out.WritePaddedFile(args.second, page);
    AppendAllPrefix(old(out.data), start, page);
    AppendAllSplit(old(out.data), start, rest, page);
    ghost var data := out.data;
    if args.headerVersion > 0 && args.headerVersion < 3 {
      AppendAllSplit(data, [args.recoveryDtbo], rest[1..], page);
      AppendAllOne(data, [args.recoveryDtbo], page);
      assert rest == [args.recoveryDtbo] + rest[1..];
      out.WritePaddedFile(args.recoveryDtbo, page);
    }
    if args.headerVersion == 2 {
      AppendAllOne(out.data, [args.dtb], page);
      assert rest[1..] == [args.dtb];
      out.WritePaddedFile(args.dtb, page);
    }
    if args.headerVersion >= 4 {
      AppendAllOne(data, rest, page);
      out.Write(Zeros(BOOT_IMAGE_V4_SIGNATURE_SIZE));
      out.PadFile(page);
    }
  }

  lemma AppendAllPrefix(data: seq<byte>, f: seq<File>, page: nat)
    requires page > 0 && |f| == 3
    ensures AppendAll(data, f, page)
         == AppendPadded(AppendPadded(AppendPadded(data, f[0], page), f[1], page), f[2], page)
  {
    var one := AppendPadded(data, f[0], page);
    var two := AppendPadded(one, f[1], page);
    assert f[1..][1..] == f[2..] && f[2..][1..] == [];
    assert AppendAll(one, f[1..], page) == AppendAll(two, f[2..], page);
    AppendAllOne(two, f[2..], page);
  }

  lemma AppendAllOne(data: seq<byte>, f: seq<File>, page: nat)
    requires page > 0 && |f| == 1
    ensures AppendAll(data, f, page) == AppendPadded(data, f[0], page)
  {
    assert f[1..] == [];
  }

  lemma {:induction false} AppendAllSplit(data: seq<byte>, a: seq<File>, b: seq<File>, page: nat)
    requires page > 0
    ensures AppendAll(data, a + b, page) == AppendAll(AppendAll(data, a, page), b, page)
    decreases |a|
  {
    if a == [] {
      assert a + b == b;
    } else {
      assert (a + b)[1..] == a[1..] + b;
      AppendAllSplit(AppendPadded(data, a[0], page), a[1..], b, page);
    }
  }

  // ---- the whole image ----

  function BootOutcome(args: BootArgs, sha1: Digest): Outcome<ImageError>
    requires args.pageSize > 0
  {
    if args.second.Some? && args.headerVersion > 2 then Fail(SecondNotSupported)
    else HeaderOutcome(HeaderOf(args, sha1(HashInput(args))))
  }

  function HeaderBytes(args: BootArgs, sha1: Digest): seq<byte>
    requires args.pageSize > 0
  {
    AppendRecord([], HeaderItems(HeaderOf(args, sha1(HashInput(args)))), HeaderPage(args))
  }

  function ImageBytes(args: BootArgs, sha1: Digest): seq<byte>
    requires args.pageSize > 0
  {
    AppendAll(HeaderBytes(args, sha1), DataFiles(args), HeaderPage(args))
  }

  /** The boot-image half of main. */
  method WriteBootImage(args: BootArgs, sha1: Digest, out: ImageFile) returns (r: Outcome<ImageError>)
    requires args.pageSize > 0
    requires out.data == []
    modifies out
    ensures r == BootOutcome(args, sha1)
    ensures r.Pass? ==> out.data == ImageBytes(args, sha1)
  {
    if args.second.Some? && args.headerVersion > 2 {
      return Fail(SecondNotSupported);
    }
    :- WriteHeader(args, sha1, out);
    if args.headerVersion > 2 {
      WriteData(args, BOOT_IMAGE_HEADER_V3_PAGESIZE, out);
    } else {
      WriteData(args, args.pageSize, out);
    }
    return Pass;
  }

  // ---- which input raises which exception ----

  predicate FitsWord(args: BootArgs) {
    Fits32(Or(Shl(args.osVersion, 11), args.osPatchLevel))
  }

  /** The integers of a header below version 3, without the dtb's. */
  predicate OldNumbersFit(args: BootArgs)
    requires args.pageSize > 0
  {
    && Fits32(FileSize(args.kernel)) && Fits32(FileSize(args.ramdisk)) && Fits32(FileSize(args.second))
    && Fits32(args.base + args.kernelOffset)
    && (FileSize(args.ramdisk) > 0 ==> Fits32(args.base + args.ramdiskOffset))
    && (FileSize(args.second) > 0 ==> Fits32(args.base + args.secondOffset))
    && Fits32(args.base + args.tagsOffset) && Fits32(args.pageSize)
    && args.headerVersion >= 0 && FitsWord(args)
    && (args.headerVersion > 0 && args.recoveryDtbo.Some? ==>
          Fits32(FileSize(args.recoveryDtbo)) && Fits64(RecoveryDtboOffset(args)))
  }

  predicate NewNumbersFit(args: BootArgs) {
    Fits32(FileSize(args.kernel)) && Fits32(FileSize(args.ramdisk)) && FitsWord(args)
  }

  predicate DtbNumbersFit(args: BootArgs) {
    Fits32(FileSize(args.dtb)) && Fits64(args.base + args.dtbOffset)
  }

  lemma OldItemsFit(args: BootArgs, digest: seq<byte>)
    requires args.pageSize > 0 && args.headerVersion < 3
    ensures AllFit(ItemsBeforeDtb(HeaderOf(args, digest))) <==> OldNumbersFit(args)
    ensures AllFit(DtbItems(HeaderOf(args, digest))) <==> DtbNumbersFit(args)
  {
    hide RecoveryDtboOffset, Or, Shl;
    var h := HeaderOf(args, digest);
    CommonItemsFit(h);
    FitTwo(h.recoverySize, h.recoveryOffset);
    FitTwo(h.dtbSize, h.dtbAddress);
    AllFitAppend(CommonItems(h), if h.version > 0 then RecoveryItems(h) else []);
    AllFitAppend(CommonItems(h) + (if h.version > 0 then RecoveryItems(h) else []), HeaderSizeItems(h));
    assert AllFit(HeaderSizeItems(h));
  }

  lemma FitTwo(a: int, b: int)
    ensures AllFit([U32(a), U64(b)]) <==> Fits32(a) && Fits64(b)
  {
    var items := [U32(a), U64(b)];
    assert items[0].Fits() <==> Fits32(a);
    assert items[1].Fits() <==> Fits64(b);
  }

  lemma CommonItemsFit(h: Header)
    ensures AllFit(CommonItems(h)) <==>
            && Fits32(h.kernelSize) && Fits32(h.kernelAddress) && Fits32(h.ramdiskSize) && Fits32(h.ramdiskAddress)
            && Fits32(h.secondSize) && Fits32(h.secondAddress) && Fits32(h.tagsAddress) && Fits32(h.pageSize)
            && Fits32(h.version) && Fits32(h.osWord)
  {
    var items := CommonItems(h);
    assert items[1].Fits() <==> Fits32(h.kernelSize);
    assert items[2].Fits() <==> Fits32(h.kernelAddress);
    assert items[3].Fits() <==> Fits32(h.ramdiskSize);
    assert items[4].Fits() <==> Fits32(h.ramdiskAddress);
    assert items[5].Fits() <==> Fits32(h.secondSize);
    assert items[6].Fits() <==> Fits32(h.secondAddress);
    assert items[7].Fits() <==> Fits32(h.tagsAddress);
    assert items[8].Fits() <==> Fits32(h.pageSize);
    assert items[9].Fits() <==> Fits32(h.version);
    assert items[10].Fits() <==> Fits32(h.osWord);
  }

  lemma NewItemsFit(args: BootArgs, digest: seq<byte>)
    requires args.pageSize > 0 && 3 <= args.headerVersion <= 4
    ensures AllFit(HeaderItems(HeaderOf(args, digest))) <==> NewNumbersFit(args)
  {
    hide RecoveryDtboOffset, Or, Shl;
    var h := HeaderOf(args, digest);
    var items := HeaderItems(h);
    assert items[1].Fits() <==> Fits32(h.kernelSize);
    assert items[2].Fits() <==> Fits32(h.ramdiskSize);
    assert items[3].Fits() <==> Fits32(h.osWord);
  }

  /** Which exception a run raises, in terms of its arguments: every integer has to fit its field, and the
      checks come in this order. */
  lemma BootOutcomeIs(args: BootArgs, sha1: Digest)
    requires args.pageSize > 0
    ensures BootOutcome(args, sha1) ==
            if args.headerVersion >= 3 then
              if args.second.Some? then Fail(SecondNotSupported)
              else if args.headerVersion >= 5 then Fail(UnsupportedVersion)
              else if NewNumbersFit(args) then Pass else Fail(StructError)
            else if !OldNumbersFit(args) then Fail(StructError)
            else if args.headerVersion == 2 && FileBytes(args.dtb) == [] then Fail(DtbEmpty)
            else if args.headerVersion == 2 && !DtbNumbersFit(args) then Fail(StructError)
            else Pass
  {
    hide OldNumbersFit, NewNumbersFit, DtbNumbersFit, ItemsBeforeDtb, DtbItems, ItemsV3, HashInput;
    var h := HeaderOf(args, sha1(HashInput(args)));
    if args.headerVersion < 3 {
      OldItemsFit(args, sha1(HashInput(args)));
      AllFitAppend(ItemsBeforeDtb(h), if h.version > 1 then DtbItems(h) else []);
    } else if args.headerVersion <= 4 {
      NewItemsFit(args, sha1(HashInput(args)));
    }
  }

  // ---- the image id ----

  /** Each part, then its length in four bytes. */
  function Tagged(parts: seq<seq<byte>>): seq<byte> {
    if parts == [] then []
    else
      var last := |parts| - 1;
      Tagged(parts[..last]) + (parts[last] + LittleEndian(|parts[last]|, 4))
  }

  lemma TaggedNext(parts: seq<seq<byte>>, f: File)
    ensures Tagged(parts + [FileBytes(f)]) == UpdateSha(Tagged(parts), f)
  {
    var more := parts + [FileBytes(f)];
    assert more[..|parts|] == parts;
    Associative(Tagged(parts), FileBytes(f), LittleEndian(FileSize(f), 4));
  }

  /** What the image id is a digest of: kernel, ramdisk and second stage, from version 1 on the recovery
      dtbo, from version 2 on the dtb, each followed by its length. */
  lemma HashInputIs(args: BootArgs)
    ensures HashInput(args) ==
            Tagged([FileBytes(args.kernel), FileBytes(args.ramdisk), FileBytes(args.second)]
                   + (if args.headerVersion >= 1 then [FileBytes(args.recoveryDtbo)] else [])
                   + (if args.headerVersion >= 2 then [FileBytes(args.dtb)] else []))
  {
    hide Tagged, UpdateSha;
    var k, r, s := FileBytes(args.kernel), FileBytes(args.ramdisk), FileBytes(args.second);
    var d := FileBytes(args.recoveryDtbo);
    TaggedNothing();
    TaggedNext([], args.kernel);
    TaggedNext([k], args.ramdisk);
    TaggedNext([k, r], args.second);
    TaggedNext([k, r, s], args.recoveryDtbo);
    TaggedNext([k, r, s, d], args.dtb);
    assert [] + [k] == [k] && [k] + [r] == [k, r] && [k, r] + [s] == [k, r, s];
    assert [k, r, s] + [] + [] == [k, r, s] && [k, r, s] + [d] + [] == [k, r, s] + [d] == [k, r, s, d];
  }

  lemma TaggedNothing()
    ensures Tagged([]) == []
  {
  }
}
