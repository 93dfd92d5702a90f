/** Command-line text and version numbers on their way into a boot header. */
module CommandLine {
  import opened Bits
  import opened Bytes
  import opened Struct
  import opened Paging
  import opened ImageFiles
  import opened BootImage
  import opened BootImageReader
  import opened Wrappers

  /** AsciizBytes(bufsize): the encoded text with its terminator, if that fits the buffer. */
  function AsciizBytes(bufsize: nat, text: seq<byte>): Option<seq<byte>> {
    if |text| + 1 > bufsize then None else Some(text + [0])
  }

  function CmdlineSize(headerVersion: int): nat {
    if headerVersion < 3 then BOOT_ARGS_SIZE + BOOT_EXTRA_ARGS_SIZE - 1
    else BOOT_ARGS_SIZE + BOOT_EXTRA_ARGS_SIZE
  }

  /** What parse_cmdline leaves in (cmdline, extra_cmdline) for versions below 3. */
  function SplitCmdline(asciiz: seq<byte>): (seq<byte>, seq<byte>) {
    var cut := BOOT_ARGS_SIZE - 1;
    if |asciiz| <= cut then (asciiz + [0], []) else (asciiz[..cut] + [0], asciiz[cut..])
  }

  /** Both length assertions of parse_cmdline hold for every command line the parser accepts. */
  lemma SplitFits(text: seq<byte>)
    requires AsciizBytes(CmdlineSize(0), text).Some?
    ensures var (cmdline, extra) := SplitCmdline(text + [0]);
            |cmdline| <= BOOT_ARGS_SIZE && |extra| <= BOOT_EXTRA_ARGS_SIZE
  {
  }

  /** The cmdline field read to its NUL, then the extra field read to its NUL, is the text. */
  lemma SplitRoundTrip(text: seq<byte>)
    requires NulFree(text) && AsciizBytes(CmdlineSize(0), text).Some?
    ensures var (cmdline, extra) := SplitCmdline(text + [0]);
            CString(FixedWidth(cmdline, BOOT_ARGS_SIZE)) + CString(FixedWidth(extra, BOOT_EXTRA_ARGS_SIZE)) == text
  {
    var (cmdline, extra) := SplitCmdline(text + [0]);
    SplitFits(text);
    var cut := BOOT_ARGS_SIZE - 1;
    if |text| < cut {
      var zeros := [0, 0] + Zeros(BOOT_ARGS_SIZE - |cmdline|);
      assert FixedWidth(cmdline, BOOT_ARGS_SIZE) == text + zeros;
      CStringStops(text, zeros);
      CStringStops([], Zeros(BOOT_EXTRA_ARGS_SIZE));
      assert FixedWidth(extra, BOOT_EXTRA_ARGS_SIZE) == [] + Zeros(BOOT_EXTRA_ARGS_SIZE);
      assert text + [] == text;
    } else {
      var zeros := [0] + Zeros(BOOT_EXTRA_ARGS_SIZE - |extra|);
      assert cmdline == text[..cut] + [0] && FixedWidth(cmdline, BOOT_ARGS_SIZE) == cmdline;
      CStringStops(text[..cut], [0]);
      assert FixedWidth(extra, BOOT_EXTRA_ARGS_SIZE) == text[cut..] + zeros;
      CStringStops(text[cut..], zeros);
      assert text == text[..cut] + text[cut..];
    }
  }

  /** An accepted command line goes into the header whole and comes out whole, for every version. */
  lemma CmdlineRoundTrip(args: BootArgs, sha1: Digest, text: seq<byte>)
    requires PageSize(args.pageSize) && BootOutcome(args, sha1).Pass?
    requires NulFree(text) && AsciizBytes(CmdlineSize(args.headerVersion), text).Some?
    requires var asciiz := AsciizBytes(CmdlineSize(args.headerVersion), text).value;
             if args.headerVersion < 3 then (args.cmdline, args.extraCmdline) == SplitCmdline(asciiz)
             else args.cmdline == asciiz
    ensures ReadBoot(ImageBytes(args, sha1)).Some?
    ensures ReadBoot(ImageBytes(args, sha1)).value.cmdline == text
  {
    BootImageRoundTrip(args, sha1);
    if args.headerVersion < 3 {
      SplitRoundTrip(text);
    } else {
      var size := BOOT_ARGS_SIZE + BOOT_EXTRA_ARGS_SIZE;
      var zeros := [0] + Zeros(size - |text| - 1);
      assert FixedWidth(args.cmdline, size) == text + zeros;
      CStringStops(text, zeros);
    }
  }

  // ---- version word ----

  /** parse_os_version of three matched numbers: None stands for a failed assertion. */
  function ParseOsVersion(a: nat, b: nat, c: nat): Option<nat> {
    if a < 128 && b < 128 && c < 128 then Some(Or(Or(Shl(a, 14), Shl(b, 7)), c)) else None
  }

  /** parse_os_patch_level of a matched year and month */
  function ParseOsPatchLevel(year: nat, month: nat): Option<nat> {
    if 2000 <= year < 2128 && 0 < month <= 12 then Some(Or(Shl(year - 2000, 4), month)) else None
  }

  lemma Powers()
    ensures Pow2(4) == 16 && Pow2(7) == 128 && Pow2(11) == 2048
    ensures Pow2(14) == 16384 && Pow2(18) == 262144 && Pow2(25) == 33554432
  {
    assert Pow2(3) == 8 && Pow2(4) == 16;
    Pow2Add(4, 3);
    Pow2Add(7, 4);
    Pow2Add(7, 7);
    Pow2Add(14, 4);
    Pow2Add(18, 7);
  }

  lemma OsVersionSum(a: nat, b: nat, c: nat)
    requires ParseOsVersion(a, b, c).Some?
    ensures ParseOsVersion(a, b, c).value == 16384 * a + 128 * b + c
  {
    Powers();
    OrDisjoint(a, Shl(b, 7), 14);
    assert Shl(a, 14) + Shl(b, 7) == Shl(128 * a + b, 7);
    OrDisjoint(128 * a + b, c, 7);
  }

  lemma PatchLevelSum(year: nat, month: nat)
    requires ParseOsPatchLevel(year, month).Some?
    ensures ParseOsPatchLevel(year, month).value == 16 * (year - 2000) + month
  {
    Powers();
    OrDisjoint(year - 2000, month, 4);
  }

  /** The version word is lossless: it fits its 32-bit field, and shifts and masks recover all five
      numbers. */
  lemma VersionWordLossless(a: nat, b: nat, c: nat, year: nat, month: nat)
    requires ParseOsVersion(a, b, c).Some? && ParseOsPatchLevel(year, month).Some?
    ensures var w := Or(Shl(ParseOsVersion(a, b, c).value, 11), ParseOsPatchLevel(year, month).value);
            && U32(w).Fits()
            && Shr(w, 25) == a
            && And(Shr(w, 18), 127) == b
            && And(Shr(w, 11), 127) == c
            && And(Shr(w, 4), 127) == year - 2000
            && And(w, 15) == month
  {
    OsVersionSum(a, b, c);
    PatchLevelSum(year, month);
    Powers();
    var v, p := ParseOsVersion(a, b, c).value, ParseOsPatchLevel(year, month).value;
    OrDisjoint(v, p, 11);
    var w := Or(Shl(v, 11), p);
    assert w == 2048 * v + p;
    VersionFields(a, b, c, year - 2000, month, w);
    ShrDivides(w, 25);
    ShrDivides(w, 18);
    ShrDivides(w, 11);
    ShrDivides(w, 4);
    AndMask(Shr(w, 18), 7);
    AndMask(Shr(w, 11), 7);
    AndMask(Shr(w, 4), 7);
    AndMask(w, 4);
  }

  lemma VersionFields(a: nat, b: nat, c: nat, y: nat, m: nat, w: nat)
    requires a < 128 && b < 128 && c < 128 && y < 128 && m < 16
    requires w == 2048 * (16384 * a + 128 * b + c) + 16 * y + m
    ensures w < 0x1_0000_0000 && w / 33554432 == a && w / 262144 % 128 == b && w / 2048 % 128 == c
    ensures w / 16 % 128 == y && w % 16 == m
  {
    assert w / 262144 == 128 * a + b;
    assert w / 2048 == 16384 * a + 128 * b + c;
    assert w / 16 == 128 * (16384 * a + 128 * b + c) + y;
  }

  /** The parsers accept exactly the numbers that fit their bits, and months 1 to 12. */
  lemma VersionsAccepted(a: nat, b: nat, c: nat, year: nat, month: nat)
    ensures ParseOsVersion(a, b, c).Some? <==> a < 128 && b < 128 && c < 128
    ensures ParseOsPatchLevel(year, month).Some? <==> 2000 <= year < 2128 && 1 <= month <= 12
  {
  }

  /** The version word a reader finds in an image: version and patch level side by side, for any patch level
      of the 11 bits it is given. */
  lemma OsWordReadBack(args: BootArgs, sha1: Digest)
    requires PageSize(args.pageSize) && BootOutcome(args, sha1).Pass? && args.osPatchLevel < 2048
    ensures var c := ReadBoot(ImageBytes(args, sha1));
            c.Some? && c.value.osWord == 2048 * args.osVersion + args.osPatchLevel
  {
    hide ImageBytes, ReadBoot, BootOutcome;
    BootImageRoundTrip(args, sha1);
    Powers();
    OrDisjoint(args.osVersion, args.osPatchLevel, 11);
  }

  /** All five numbers of a version and a patch level come back out of an image of any header version. */
  lemma VersionsReadBack(args: BootArgs, sha1: Digest, a: nat, b: nat, c: nat, year: nat, month: nat)
    requires PageSize(args.pageSize) && BootOutcome(args, sha1).Pass?
    requires ParseOsVersion(a, b, c) == Some(args.osVersion)
    requires ParseOsPatchLevel(year, month) == Some(args.osPatchLevel)
    ensures var r := ReadBoot(ImageBytes(args, sha1));
            && r.Some? && r.value.osWord >= 0
            && var w: nat := r.value.osWord;
               && Shr(w, 25) == a && And(Shr(w, 18), 127) == b && And(Shr(w, 11), 127) == c
               && 2000 + And(Shr(w, 4), 127) == year && And(w, 15) == month
  {
    hide ImageBytes, ReadBoot, BootOutcome, ParseOsVersion, ParseOsPatchLevel;
    BootImageRoundTrip(args, sha1);
    VersionsAccepted(a, b, c, year, month);
    VersionWordLossless(a, b, c, year, month);
  }

  /** How much command line is accepted: two fields lose a byte to a terminator each, one field only one. It
      is passed on with a terminator. */
  lemma CmdlineAccepted(headerVersion: int, text: seq<byte>)
    ensures AsciizBytes(CmdlineSize(headerVersion), text) ==
            if |text| <= (if headerVersion < 3 then 1534 else 1535) then Some(text + [0]) else None
  {
  }

  // ---- image id ----

  /** Peeling the last length-tagged part off a hash input. */
  lemma LastPartUnique(s: seq<byte>, t: seq<byte>, f: File, g: File)
    requires UpdateSha(s, f) == UpdateSha(t, g)
    requires FileSize(f) < 0x1_0000_0000 && FileSize(g) < 0x1_0000_0000
    ensures s == t && FileBytes(f) == FileBytes(g)
  {
    var a, b := UpdateSha(s, f), UpdateSha(t, g);
    assert a[|a| - 4..] == LittleEndian(FileSize(f), 4);
    assert b[|b| - 4..] == LittleEndian(FileSize(g), 4);
    assert Pow256(4) == 0x1_0000_0000;
    LittleEndianRoundTrip(FileSize(f), 4);
    LittleEndianRoundTrip(FileSize(g), 4);
    assert a[..|s|] == s && b[..|t|] == t;
    assert a[|s|..|a| - 4] == FileBytes(f) && b[|t|..|b| - 4] == FileBytes(g);
  }

  predicate SizesFit(args: BootArgs) {
    && FileSize(args.kernel) < 0x1_0000_0000
    && FileSize(args.ramdisk) < 0x1_0000_0000
    && FileSize(args.second) < 0x1_0000_0000
    && FileSize(args.recoveryDtbo) < 0x1_0000_0000
    && FileSize(args.dtb) < 0x1_0000_0000
  }

  /** The image id binds the payload: images of one version with equal hash inputs carry the same
      bytes in every section. */
  lemma HashInputBindsPayload(x: BootArgs, y: BootArgs)
    requires x.headerVersion == y.headerVersion <= 2 && SizesFit(x) && SizesFit(y)
    requires HashInput(x) == HashInput(y)
    ensures Contents(DataFiles(x)) == Contents(DataFiles(y))
  {
    hide UpdateSha;
    var x1, y1 := UpdateSha([], x.kernel), UpdateSha([], y.kernel);
    var x2, y2 := UpdateSha(x1, x.ramdisk), UpdateSha(y1, y.ramdisk);
    var x3, y3 := UpdateSha(x2, x.second), UpdateSha(y2, y.second);
    if x.headerVersion > 1 {
      LastPartUnique(UpdateSha(x3, x.recoveryDtbo), UpdateSha(y3, y.recoveryDtbo), x.dtb, y.dtb);
    }
    if x.headerVersion > 0 {
      LastPartUnique(x3, y3, x.recoveryDtbo, y.recoveryDtbo);
    }
    LastPartUnique(x2, y2, x.second, y.second);
    LastPartUnique(x1, y1, x.ramdisk, y.ramdisk);
    LastPartUnique([], [], x.kernel, y.kernel);
  }
}
