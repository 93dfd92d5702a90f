/** SMBIOS string sets: LogSmbiosData prints one behind a fixed record, GetOptionalStringByIndex
    looks a string up again. DSP0134, section 6.1.3, is the format both implement. */
module SmbiosStrings {
  import opened Bytes
  import opened Wrappers

  /** The strings, each with its terminator. */
  function Packed(strings: seq<seq<byte>>): seq<byte> {
    if strings == [] then []
    else Packed(strings[..|strings| - 1]) + strings[|strings| - 1] + [0]
  }

  /** The whole record: at least a double NUL follows the fixed part. */
  function Record(template: seq<byte>, strings: seq<seq<byte>>): seq<byte> {
    template + Packed(strings) + (if strings == [] then [0, 0] else [0])
  }

  /** An EFI_SMBIOS_TABLE_HEADER is four bytes, the second being the length of the fixed part. */
  predicate FixedPart(template: seq<byte>) {
    |template| >= 4 && template[1] == |template|
  }

  lemma PackedNext(strings: seq<seq<byte>>, i: nat)
    requires i < |strings|
    ensures Packed(strings[..i + 1]) == Packed(strings[..i]) + strings[i] + [0]
  {
    assert strings[..i + 1][..i] == strings[..i];
  }

  /** Where string i starts behind the fixed part; for the number of strings, where the last one has ended. */
  function Offset(strings: seq<seq<byte>>, i: nat): nat
    requires i <= |strings|
  {
    if i == 0 then 0 else Offset(strings, i - 1) + |strings[i - 1]| + 1
  }

  lemma {:induction false} PackedLength(strings: seq<seq<byte>>, i: nat)
    requires i <= |strings|
    ensures |Packed(strings[..i])| == Offset(strings, i)
  {
    if i > 0 {
      PackedLength(strings, i - 1);
      PackedNext(strings, i - 1);
    }
  }

  /** The bytes of string i are where its offset says. */
  predicate StringAt(s: seq<byte>, strings: seq<seq<byte>>, i: nat)
    requires i < |strings|
  {
    var at := Offset(strings, i);
    at + |strings[i]| < |s| && s[at..at + |strings[i]|] == strings[i] && s[at + |strings[i]|] == 0
  }

  lemma {:induction false} PackedAt(strings: seq<seq<byte>>, n: nat, i: nat, rest: seq<byte>)
    requires i < n <= |strings|
    ensures StringAt(Packed(strings[..n]) + rest, strings, i)
  {
    PackedNext(strings, n - 1);
    PackedLength(strings, n - 1);
    var before, last := Packed(strings[..n - 1]), strings[n - 1];
    assert Packed(strings[..n]) + rest == before + (last + [0] + rest);
    if i < n - 1 {
      PackedAt(strings, n - 1, i, last + [0] + rest);
    }
  }

  /** What a string set is: every string at its offset behind those before it, each with its terminator, then
      one more zero, or two if there is no string. */
  predicate HoldsStrings(s: seq<byte>, strings: seq<seq<byte>>) {
    && |s| == Offset(strings, |strings|) + (if strings == [] then 2 else 1)
    && (forall i :: 0 <= i < |strings| ==> StringAt(s, strings, i))
    && forall k :: Offset(strings, |strings|) <= k < |s| ==> s[k] == 0
  }

  lemma RecordHolds(template: seq<byte>, strings: seq<seq<byte>>)
    ensures var r := Record(template, strings);
            |template| <= |r| && r[..|template|] == template && HoldsStrings(r[|template|..], strings)
  {
    var end: seq<byte> := if strings == [] then [0, 0] else [0];
    var r := Record(template, strings);
    assert strings[..|strings|] == strings;
    assert r[..|template|] == template && r[|template|..] == Packed(strings) + end;
    PackedLength(strings, |strings|);
    forall i | 0 <= i < |strings|
      ensures StringAt(r[|template|..], strings, i)
    {
      PackedAt(strings, |strings|, i, end);
    }
  }

  /** The first pass of LogSmbiosData: how much to allocate */
  method RecordSize(template: seq<byte>, strings: seq<seq<byte>>) returns (size: nat)
    ensures size == |Record(template, strings)|
  {
    size := |template|;
    for i := 0 to |strings|
      invariant size == |template| + |Packed(strings[..i])|
    {
      PackedNext(strings, i);
      size := size + |strings[i]| + 1;
    }
    assert strings[..|strings|] == strings;
    if |strings| == 0 {
      size := size + 1;
    }
    size := size + 1;
  }

  /** LogSmbiosData up to the record it adds */
  method LogSmbiosData(template: seq<byte>, strings: seq<seq<byte>>) returns (record: array<byte>)
    requires FixedPart(template)
    ensures fresh(record)
    ensures record[..] == Record(template, strings)
    ensures |template| <= record.Length && record[..|template|] == template
    ensures HoldsStrings(record[|template|..], strings)
  {
    RecordHolds(template, strings);
    var size := RecordSize(template, strings);
    record := new byte[size](_ => 0);
    forall k | 0 <= k < |template| {
      record[k] := template[k];
    }
    var str: nat := record[1];
    assert record[..str] == template + Packed(strings[..0]);
    for i := 0 to |strings|
      invariant str == |template| + |Packed(strings[..i])| < record.Length
      invariant record[..str] == template + Packed(strings[..i])
      invariant strings == [] ==> record[record.Length - 1] == 0
    {
      PackedNext(strings, i);
      PackedGrows(strings, i + 1);
      CopyString(record, str, strings[i]);
      Associative(template, Packed(strings[..i]), strings[i] + [0]);
      Associative(Packed(strings[..i]), strings[i], [0]);
      str := str + |strings[i]| + 1;
    }
    assert strings[..|strings|] == strings;
    record[str] := 0;
    assert record[..] == record[..str] + (if strings == [] then [0, 0] else [0]);
  }

  /** CopyMem of one terminated string */
  method CopyString(record: array<byte>, at: nat, s: seq<byte>)
    requires at + |s| + 1 <= record.Length
    modifies record
    ensures record[..at + |s| + 1] == old(record[..at]) + (s + [0])
    ensures record[at + |s| + 1..] == old(record[at + |s| + 1..])
  {
    forall k | 0 <= k < |s| {
      record[at + k] := s[k];
    }
    record[at + |s|] := 0;
  }

  lemma {:induction false} PackedGrows(strings: seq<seq<byte>>, k: nat)
    requires k <= |strings|
    ensures |Packed(strings[..k])| <= |Packed(strings)|
    decreases |strings|
  {
    if k < |strings| {
      assert strings[..|strings| - 1][..k] == strings[..k];
      PackedGrows(strings[..|strings| - 1], k);
    } else {
      assert strings[..k] == strings;
    }
  }

  // ---- looking a string up ----

  predicate DoubleNulAt(s: seq<byte>, k: nat) {
    k + 1 < |s| && s[k] == 0 && s[k + 1] == 0
  }

  /** A double NUL somewhere: what keeps the search inside the record. */
  ghost predicate Terminated(s: seq<byte>) {
    exists k: nat :: DoubleNulAt(s, k)
  }

  /** AsciiStrSize */
  function StrSize(s: seq<byte>): (n: nat)
    requires 0 in s
    ensures 1 <= n <= |s| && s[n - 1] == 0
    ensures forall i :: 0 <= i < n - 1 ==> s[i] != 0
  {
    if s[0] == 0 then 1
    else
      assert s == [s[0]] + s[1..];
      1 + StrSize(s[1..])
  }

  lemma TerminatedStep(s: seq<byte>)
    requires Terminated(s)
    ensures 0 in s && StrSize(s) < |s|
    ensures s[StrSize(s)] != 0 ==> Terminated(s[StrSize(s)..])
  {
    var k: nat :| DoubleNulAt(s, k);
    assert s[k] in s;
    var n := StrSize(s);
    if s[n] != 0 {
      assert DoubleNulAt(s[n..], k - n);
    }
  }

  /** The string GetOptionalStringByIndex finds from position 0 of s, for an index above 0. */
  ghost function Find(s: seq<byte>, index: nat): Option<seq<byte>>
    requires Terminated(s) && index > 0
    decreases index
  {
    TerminatedStep(s);
    var n := StrSize(s);
    if s[n] != 0 && index > 1 then Find(s[n..], index - 1)
    else if index > 1 || n == 1 then None
    else Some(s[..n - 1])
  }

  ghost function Lookup(s: seq<byte>, index: nat): Option<seq<byte>>
    requires Terminated(s)
  {
    if index == 0 then Some([]) else Find(s, index)
  }

  /** None stands for EFI_NOT_FOUND; a found string is returned without its terminator. */
  method GetOptionalStringByIndex(mem: seq<byte>, optionalStrStart: nat, index: nat)
    returns (r: Option<seq<byte>>)
    requires optionalStrStart <= |mem| && index < 256
    requires Terminated(mem[optionalStrStart..])
    ensures r == Lookup(mem[optionalStrStart..], index)
  {
    hide StrSize;
    if index == 0 {
      return Some([]);
    }
    ghost var goal := Find(mem[optionalStrStart..], index);
    var left := index;
    var start: nat := optionalStrStart;
    var strSize: nat;
    while true
      invariant left > 0 && start <= |mem| && Terminated(mem[start..])
      invariant Find(mem[start..], left) == goal
      decreases left
    {
      TerminatedStep(mem[start..]);
      left := left - 1;
      strSize := StrSize(mem[start..]);
      if mem[start..][strSize] == 0 || left == 0 {
        break;
      }
      DropDrop(mem, start, strSize);
      start := start + strSize;
    }
    if left != 0 || strSize == 1 {
      return None;
    }
    return Some(mem[start..][..strSize - 1]);
  }

  lemma DropDrop(s: seq<byte>, i: nat, j: nat)
    requires i + j <= |s|
    ensures s[i..][j..] == s[i + j..]
  {
  }

  // ---- print, then look up ----

  predicate AllNulFree(strings: seq<seq<byte>>) {
    forall i :: 0 <= i < |strings| ==> NulFree(strings[i])
  }

  /** The bytes behind the fixed part. */
  function StringSet(strings: seq<seq<byte>>): seq<byte> {
    Packed(strings) + (if strings == [] then [0, 0] else [0])
  }

  lemma {:induction false} PackedHead(strings: seq<seq<byte>>)
    requires strings != []
    ensures Packed(strings) == strings[0] + [0] + Packed(strings[1..])
    decreases |strings|
  {
    var last := |strings| - 1;
    if last == 0 {
      assert strings[..0] == [] && strings[1..] == [];
    } else {
      PackedHead(strings[..last]);
      var head, middle := strings[0] + [0], Packed(strings[1..][..last - 1]);
      assert strings[..last][1..] == strings[1..][..last - 1];
      assert strings[1..][last - 1] == strings[last];
      Associative(head, middle, strings[last]);
      Associative(head, middle + strings[last], [0]);
    }
  }

  /** The record ends in two zero bytes, so a search started behind its fixed part stays inside. */
  lemma RecordEndsInDoubleNul(template: seq<byte>, strings: seq<seq<byte>>)
    ensures var r := Record(template, strings);
            |r| >= |template| + 2 && r[|r| - 2] == 0 && r[|r| - 1] == 0
    ensures Terminated(StringSet(strings))
    ensures Record(template, strings)[|template|..] == StringSet(strings)
  {
    var s := StringSet(strings);
    assert DoubleNulAt(s, |s| - 2);
    assert Record(template, strings) == template + s;
  }

  lemma StrSizeOf(s: seq<byte>, text: seq<byte>, rest: seq<byte>)
    requires NulFree(text) && s == text + [0] + rest
    ensures 0 in s && StrSize(s) == |text| + 1
  {
    assert s[|text|] == 0;
    assert forall i :: 0 <= i < |text| ==> s[i] == text[i];
  }

  /** When a lookup succeeds: the string exists and is not empty, and no string after the first one
      and up to it is empty. */
  predicate Reachable(strings: seq<seq<byte>>, index: nat) {
    && 1 <= index <= |strings|
    && strings[index - 1] != []
    && forall j :: 1 <= j < index ==> strings[j] != []
  }

  /** One turn of the search, at a string and what follows it. */
  lemma FindStep(text: seq<byte>, rest: seq<byte>, index: nat)
    requires NulFree(text) && rest != [] && index > 0 && Terminated(text + [0] + rest)
    requires rest[0] != 0 ==> Terminated(rest)
    ensures Find(text + [0] + rest, index) ==
            if rest[0] != 0 && index > 1 then Find(rest, index - 1)
            else if index > 1 || text == [] then None
            else Some(text)
  {
    var s := text + [0] + rest;
    StrSizeOf(s, text, rest);
    assert s[|text| + 1..] == rest && s[..|text|] == text;
  }

  /** Looking any index up in any printed string set, empty strings included. */
  lemma {:induction false} FindInStringSet(strings: seq<seq<byte>>, index: nat)
    requires AllNulFree(strings) && index > 0
    ensures Terminated(StringSet(strings))
    ensures Find(StringSet(strings), index) == if Reachable(strings, index) then Some(strings[index - 1]) else None
    decreases |strings|
  {
    RecordEndsInDoubleNul([], strings);
    if strings == [] {
      assert StringSet(strings) == [] + [0] + [0];
      FindStep([], [0], index);
    } else {
      var others := strings[1..];
      var rest := Packed(others) + [0];
      PackedHead(strings);
      Associative(strings[0] + [0], Packed(others), [0]);
      NextByte(others);
      RecordEndsInDoubleNul([], others);
      FindStep(strings[0], rest, index);
      if others != [] && others[0] != [] && index > 1 {
        FindInStringSet(others, index - 1);
        ReachableTail(strings, index);
      }
    }
  }

  /** The byte after a string's terminator is zero exactly when the next string is missing or empty. */
  lemma NextByte(strings: seq<seq<byte>>)
    requires AllNulFree(strings)
    ensures (Packed(strings) + [0])[0] == 0 <==> strings == [] || strings[0] == []
  {
    if strings != [] {
      PackedHead(strings);
    }
  }

  lemma ReachableTail(strings: seq<seq<byte>>, index: nat)
    requires |strings| > 1 && strings[1] != [] && index > 1
    ensures Reachable(strings, index) <==> Reachable(strings[1..], index - 1)
  {
    var t := strings[1..];
    if Reachable(t, index - 1) {
      forall j | 1 <= j < index
        ensures strings[j] != []
      {
        if j > 1 {
          assert t[j - 1] == strings[j];
        }
      }
    }
    if Reachable(strings, index) {
      forall j | 1 <= j < index - 1
        ensures t[j] != []
      {
        assert strings[j + 1] == t[j];
      }
    }
  }

  predicate AllNonEmpty(strings: seq<seq<byte>>) {
    forall i :: 0 <= i < |strings| ==> strings[i] != []
  }

  /** Looking up string i of n in the record gives string i. */
  ghost predicate RoundTrips(template: seq<byte>, strings: seq<seq<byte>>)
    requires Terminated(Record(template, strings)[|template|..])
  {
    forall i :: 1 <= i <= |strings| ==>
      Lookup(Record(template, strings)[|template|..], i) == Some(strings[i - 1])
  }

  /** The lookup inverts the printer exactly for packs without empty strings, which section 6.1.3
      does not allow. Index 0 is the empty string and an index past the end is not found, always. */
  lemma PackThenLookup(template: seq<byte>, strings: seq<seq<byte>>)
    requires AllNulFree(strings)
    ensures var s := Record(template, strings)[|template|..];
            && Terminated(s)
            && (RoundTrips(template, strings) <==> AllNonEmpty(strings))
            && Lookup(s, 0) == Some([])
            && forall i :: i > |strings| ==> Lookup(s, i) == None
  {
    RecordEndsInDoubleNul(template, strings);
    var s := Record(template, strings)[|template|..];
    forall i: nat | i > 0
      ensures Find(s, i) == if Reachable(strings, i) then Some(strings[i - 1]) else None
    {
      FindInStringSet(strings, i);
    }
    if !AllNonEmpty(strings) {
      var k :| 0 <= k < |strings| && strings[k] == [];
      assert !Reachable(strings, k + 1);
      assert Lookup(s, k + 1) == None;
    }
  }
}
