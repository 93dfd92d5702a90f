/** Page arithmetic of the image formats: padding by bit masks, page counts, and sections that
    each start on a page boundary. */
module Paging {
  import opened Bits
  import opened Bytes
  import opened Wrappers

  ghost predicate PowerOfTwo(p: nat) {
    exists k: nat :: Pow2(k) == p
  }

  predicate PageSize(p: nat) {
    p in {2048, 4096, 8192, 16384}
  }

  lemma PageSizeIsPowerOfTwo(p: nat)
    requires PageSize(p)
    ensures PowerOfTwo(p)
  {
    assert Pow2(4) == 16;
    assert Pow2(8) == 256 by { Pow2Add(4, 4); }
    assert Pow2(11) == 2048 by { Pow2Add(8, 3); }
    assert Pow2(12) == 4096 && Pow2(13) == 8192 && Pow2(14) == 16384;
  }

  function NumberOfPages(size: nat, page: nat): nat
    requires page > 0
  {
    (size + page - 1) / page
  }

  /** The number of zero bytes pad_file writes at stream position pos. */
  function PadLength(pos: nat, padding: nat): nat
    requires padding > 0
  {
    And(padding - AndBelow(pos, padding), padding - 1)
  }

  function AndBelow(pos: nat, padding: nat): (r: nat)
    requires padding > 0
    ensures r < padding
  {
    AndAtMost(pos, padding - 1);
    And(pos, padding - 1)
  }

  lemma PadLengthIs(pos: nat, page: nat)
    requires PowerOfTwo(page)
    ensures page > 0
    ensures PadLength(pos, page) == if pos % page == 0 then 0 else page - pos % page
  {
    var k: nat :| Pow2(k) == page;
    AndMask(pos, k);
    AndMask(page - pos % page, k);
    if pos % page == 0 {
      DivModUnique(page, page, 1, 0);
    } else {
      DivModUnique(page - pos % page, page, 0, page - pos % page);
    }
  }

  lemma PagesCover(size: nat, page: nat)
    requires page > 0
    ensures page * NumberOfPages(size, page) == size + (if size % page == 0 then 0 else page - size % page)
  {
    var q, r := size / page, size % page;
    if r == 0 {
      DivModUnique(size + page - 1, page, q, page - 1);
    } else {
      MulSuccessor(page, q);
      DivModUnique(size + page - 1, page, q + 1, r - 1);
    }
  }

  lemma MulSuccessor(a: nat, b: nat)
    ensures a * (b + 1) == a * b + a
  {
  }

  /** The bit-mask padding agrees with the ceiling division: it completes the current page. */
  lemma PadCompletesPage(pos: nat, page: nat)
    requires PowerOfTwo(page)
    ensures page > 0 && pos + PadLength(pos, page) == page * NumberOfPages(pos, page)
  {
    PadLengthIs(pos, page);
    PagesCover(pos, page);
  }

  /** On a page boundary, padding depends only on what was written since. */
  lemma PadIgnoresWholePages(pos: nat, n: nat, page: nat)
    requires PowerOfTwo(page) && page > 0 && pos % page == 0
    ensures PadLength(pos + n, page) == PadLength(n, page)
  {
    PadLengthIs(pos + n, page);
    PadLengthIs(n, page);
    RemainderOfSum(pos, n, page);
  }

  lemma RemainderOfSum(a: nat, b: nat, page: nat)
    requires page > 0 && a % page == 0
    ensures (a + b) % page == b % page
  {
    assert page * (a / page + b / page) == page * (a / page) + page * (b / page);
    DivModUnique(a + b, page, a / page + b / page, b % page);
  }

  /** A section: its bytes, then zeros up to the page boundary. */
  function Padded(s: seq<byte>, page: nat): (r: seq<byte>)
    requires page > 0
    ensures |s| <= |r| && r[..|s|] == s
  {
    s + Zeros(PadLength(|s|, page))
  }

  lemma PaddedLength(s: seq<byte>, page: nat)
    requires PowerOfTwo(page)
    ensures page > 0 && |Padded(s, page)| == page * NumberOfPages(|s|, page)
    ensures |Padded(s, page)| % page == 0
  {
    PadCompletesPage(|s|, page);
    DivModUnique(|Padded(s, page)|, page, NumberOfPages(|s|, page), 0);
  }

  lemma PaddedEmpty(page: nat)
    requires PowerOfTwo(page)
    ensures page > 0 && Padded([], page) == []
  {
    PadCompletesPage(0, page);
    DivModUnique(page - 1, page, 0, page - 1);
  }

  function Sections(files: seq<seq<byte>>, page: nat): seq<byte>
    requires page > 0
  {
    if files == [] then [] else Padded(files[0], page) + Sections(files[1..], page)
  }

  function Sizes(files: seq<seq<byte>>): (r: seq<nat>)
    ensures |r| == |files|
    ensures forall i :: 0 <= i < |files| ==> r[i] == |files[i]|
  {
    seq(|files|, i requires 0 <= i < |files| => |files[i]|)
  }

  /** The reader of a paged image: it knows the section sizes and the page size, nothing else. */
  function Cut(image: seq<byte>, pos: nat, sizes: seq<nat>, page: nat): (r: Option<seq<seq<byte>>>)
    requires page > 0
    ensures r.Some? ==> |r.value| == |sizes|
    decreases |sizes|
  {
    if sizes == [] then Some([])
    else if pos + sizes[0] > |image| then None
    else
      match Cut(image, pos + page * NumberOfPages(sizes[0], page), sizes[1..], page)
      case None => None
      case Some(rest) => Some([image[pos..pos + sizes[0]]] + rest)
  }

  /** Cutting at the page offsets computed from the sizes alone returns every section, byte for byte. */
  lemma {:induction false} CutSections(before: seq<byte>, files: seq<seq<byte>>, page: nat)
    requires PowerOfTwo(page)
    ensures page > 0 && Cut(before + Sections(files, page), |before|, Sizes(files), page) == Some(files)
    decreases |files|
  {
    PaddedEmpty(page);
    if files == [] {
    } else {
      var section := Padded(files[0], page);
      var image := before + Sections(files, page);
      Associative(before, section, Sections(files[1..], page));
      PaddedLength(files[0], page);
      assert Sizes(files)[1..] == Sizes(files[1..]);
      CutSections(before + section, files[1..], page);
      assert image[|before|..|before| + |files[0]|] == files[0];
      assert [files[0]] + files[1..] == files;
    }
  }
}
