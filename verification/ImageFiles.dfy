/** The output stream of the image writers. */
module ImageFiles {
  import opened Bytes
  import opened Paging
  import opened Struct
  import opened Wrappers

  datatype ImageError =
    | UnsupportedVersion      // header version above 4
    | StructError             // struct.pack: integer outside its field
    | DtbEmpty
    | SecondNotSupported      // --second with header version above 2
    | VendorVersion           // --vendor_boot with a version other than 3 and 4
    | VendorRamdiskMissing
    | BannedName
    | DuplicatedName
    | BoardIdOverflow
    | BoardIdSize
    | FileMissing
    | ArgumentTooLong

  /** An input file as the writers see it: absent, or its bytes. */
  type File = Option<seq<byte>>

  function FileBytes(f: File): seq<byte> {
    match f
    case None => []
    case Some(bytes) => bytes
  }

  function FileSize(f: File): nat {
    |FileBytes(f)|
  }

  /** The stream after write_padded_file: nothing for an absent file. */
  function AppendPadded(data: seq<byte>, f: File, page: nat): seq<byte>
    requires page > 0
  {
    match f
    case None => data
    case Some(bytes) => data + bytes + Zeros(PadLength(|data| + |bytes|, page))
  }

  function AppendAll(data: seq<byte>, files: seq<File>, page: nat): seq<byte>
    requires page > 0
    decreases |files|
  {
    if files == [] then data
    else AppendAll(AppendPadded(data, files[0], page), files[1..], page)
  }

  function Contents(files: seq<File>): (r: seq<seq<byte>>)
    ensures |r| == |files|
    ensures forall i :: 0 <= i < |files| ==> r[i] == FileBytes(files[i])
  {
    seq(|files|, i requires 0 <= i < |files| => FileBytes(files[i]))
  }

  /** One file written from a page boundary: a padded section, ending on a page boundary. */
  lemma AppendAligned(data: seq<byte>, f: File, page: nat)
    requires PowerOfTwo(page) && page > 0 && |data| % page == 0
    ensures AppendPadded(data, f, page) == data + Padded(FileBytes(f), page)
    ensures |AppendPadded(data, f, page)| % page == 0
  {
    var bytes := FileBytes(f);
    PaddedLength(bytes, page);
    RemainderOfSum(|data|, |Padded(bytes, page)|, page);
    if f.None? {
      PaddedEmpty(page);
    } else {
      PadIgnoresWholePages(|data|, |bytes|, page);
      Associative(data, bytes, Zeros(PadLength(|bytes|, page)));
    }
  }

  /** Written from a page boundary, the files become consecutive page-aligned sections; an absent
      file and an empty one leave the same (no) bytes. */
  lemma {:induction false} AppendAllIsSections(data: seq<byte>, files: seq<File>, page: nat)
    requires PowerOfTwo(page) && page > 0 && |data| % page == 0
    ensures AppendAll(data, files, page) == data + Sections(Contents(files), page)
    decreases |files|
  {
    if files == [] {
      assert data + [] == data;
    } else {
      AppendAligned(data, files[0], page);
      assert Contents(files)[1..] == Contents(files[1..]);
      AppendAllIsSections(AppendPadded(data, files[0], page), files[1..], page);
      Associative(data, Padded(FileBytes(files[0]), page), Sections(Contents(files[1..]), page));
    }
  }

  class ImageFile {
    var data: seq<byte>

    constructor ()
      ensures data == []
    {
      data := [];
    }

    method Write(bytes: seq<byte>)
      modifies `data
      ensures data == old(data) + bytes
    {
      data := data + bytes;
    }

    /** f.write(pack(...)) for each field in turn; the first integer that does not fit raises. */
    method WriteRecord(items: seq<Item>) returns (r: Outcome<ImageError>)
      modifies `data
      ensures r == if AllFit(items) then Pass else Fail(StructError)
      ensures r.Pass? ==> data == old(data) + Pack(items)
    {
      for k := 0 to |items|
        invariant forall j :: 0 <= j < k ==> items[j].Fits()
        invariant data == old(data) + Pack(items[..k])
      {
        if !items[k].Fits() {
          return Fail(StructError);
        }
        PackNext(items, k, old(data));
        Write(items[k].Encode());
      }
      assert items[..|items|] == items;
      return Pass;
    }

    /** pad_file */
    method PadFile(padding: nat)
      requires padding > 0
      modifies `data
      ensures data == old(data) + Zeros(PadLength(|old(data)|, padding))
    {
      Write(Zeros(PadLength(|data|, padding)));
    }

    /** write_padded_file */
    method WritePaddedFile(f: File, padding: nat)
      requires padding > 0
      modifies `data
      ensures data == AppendPadded(old(data), f, padding)
    {
      if f.None? {
        return;
      }
      Write(f.value);
      PadFile(padding);
    }
  }
}
