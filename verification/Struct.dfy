/** Fixed-width binary records: the fields a sequence of struct.pack calls emits, and a reader
    that knows only the field widths. */
module Struct {
  import opened Bytes
  import opened Wrappers

  /** One packed field: "I", "Q" or "<size>s". */
  datatype Item =
    | U32(n: int)
    | U64(n: int)
    | Text(size: nat, text: seq<byte>)
  {
    /** struct.pack raises for an integer outside the field; text is cut or zero-filled. */
    predicate Fits() {
      match this
      case U32(n) => 0 <= n < 0x1_0000_0000
      case U64(n) => 0 <= n < 0x1_0000_0000_0000_0000
      case Text(_, _) => true
    }

    function Kind(): FieldKind {
      match this
      case U32(_) => K32
      case U64(_) => K64
      case Text(size, _) => KText(size)
    }

    function Encode(): (s: seq<byte>)
      ensures |s| == Kind().Width()
    {
      match this
      case U32(n) => LittleEndian(if n < 0 then 0 else n, Kind().Width())
      case U64(n) => LittleEndian(if n < 0 then 0 else n, Kind().Width())
      case Text(size, text) => FixedWidth(text, size)
    }

    /** What a reader of the field sees: text comes back at full field width. */
    function Read(): Item {
      match this
      case Text(size, text) => Text(size, FixedWidth(text, size))
      case _ => this
    }
  }

  datatype FieldKind = K32 | K64 | KText(size: nat) {

    function Width(): nat {
      match this
      case K32 => 4
      case K64 => 8
      case KText(size) => size
    }

    function Decode(s: seq<byte>): Item
      requires |s| == Width()
    {
      match this
      case K32 => U32(FromLittleEndian(s))
      case K64 => U64(FromLittleEndian(s))
      case KText(size) => Text(size, s)
    }
  }

  predicate Fits32(n: int) {
    0 <= n < 0x1_0000_0000
  }

  predicate Fits64(n: int) {
    0 <= n < 0x1_0000_0000_0000_0000
  }

  predicate AllFit(items: seq<Item>) {
    forall i :: 0 <= i < |items| ==> items[i].Fits()
  }

  lemma AllFitAppend(a: seq<Item>, b: seq<Item>)
    ensures AllFit(a + b) <==> AllFit(a) && AllFit(b)
  {
    assert forall i :: 0 <= i < |a| ==> (a + b)[i] == a[i];
    assert forall i :: 0 <= i < |b| ==> (a + b)[|a| + i] == b[i];
  }

  lemma AllFitPrefix(a: seq<Item>, b: seq<Item>)
    requires a <= b
    ensures AllFit(b) ==> AllFit(a)
  {
  }

  function Pack(items: seq<Item>): seq<byte> {
    if items == [] then [] else items[0].Encode() + Pack(items[1..])
  }

  function Kinds(items: seq<Item>): (r: seq<FieldKind>)
    ensures |r| == |items|
    ensures forall i :: 0 <= i < |items| ==> r[i] == items[i].Kind()
  {
    seq(|items|, i requires 0 <= i < |items| => items[i].Kind())
  }

  function ReadItems(items: seq<Item>): (r: seq<Item>)
    ensures |r| == |items|
    ensures forall i :: 0 <= i < |items| ==> r[i] == items[i].Read()
  {
    seq(|items|, i requires 0 <= i < |items| => items[i].Read())
  }

  function Size(kinds: seq<FieldKind>): nat {
    if kinds == [] then 0 else kinds[0].Width() + Size(kinds[1..])
  }

  function Words(n: nat): (r: seq<FieldKind>)
    ensures |r| == n
    ensures forall i :: 0 <= i < n ==> r[i] == K32
  {
    seq(n, _ => K32)
  }

  function Unpack(kinds: seq<FieldKind>, s: seq<byte>): (r: Option<seq<Item>>)
    ensures r.Some? ==> |r.value| == |kinds|
    ensures r.Some? ==> forall i :: 0 <= i < |kinds| ==> r.value[i].Kind() == kinds[i]
  {
    if kinds == [] then Some([])
    else
      var w := kinds[0].Width();
      if |s| < w then None
      else
        match Unpack(kinds[1..], s[w..])
        case None => None
        case Some(rest) => Some([kinds[0].Decode(s[..w])] + rest)
  }

  lemma {:induction false} PackAppend(a: seq<Item>, b: seq<Item>)
    ensures Pack(a + b) == Pack(a) + Pack(b)
  {
    if a == [] {
      assert a + b == b;
    } else {
      assert (a + b)[1..] == a[1..] + b;
      PackAppend(a[1..], b);
      Associative(a[0].Encode(), Pack(a[1..]), Pack(b));
    }
  }

  lemma PackNext(items: seq<Item>, k: nat, before: seq<byte>)
    requires k < |items|
    ensures before + Pack(items[..k + 1]) == before + Pack(items[..k]) + items[k].Encode()
  {
    assert items[..k + 1] == items[..k] + [items[k]];
    PackAppend(items[..k], [items[k]]);
    assert [items[k]][1..] == [];
    assert Pack([items[k]]) == items[k].Encode();
    Associative(before, Pack(items[..k]), items[k].Encode());
  }

  /** Records written one after the other are one record. */
  lemma PackTwice(before: seq<byte>, a: seq<Item>, b: seq<Item>)
    ensures before + Pack(a) + Pack(b) == before + Pack(a + b)
    ensures AllFit(a + b) <==> AllFit(a) && AllFit(b)
  {
    PackAppend(a, b);
    Associative(before, Pack(a), Pack(b));
    AllFitAppend(a, b);
  }

  lemma {:induction false} SizeAppend(a: seq<FieldKind>, b: seq<FieldKind>)
    ensures Size(a + b) == Size(a) + Size(b)
  {
    if a == [] {
      assert a + b == b;
    } else {
      assert (a + b)[1..] == a[1..] + b;
      SizeAppend(a[1..], b);
    }
  }

  lemma {:induction false} SizeWords(n: nat)
    ensures Size(Words(n)) == 4 * n
  {
    if n > 0 {
      assert Words(n)[1..] == Words(n - 1);
      SizeWords(n - 1);
    }
  }

  lemma {:induction false} PackedSize(items: seq<Item>)
    ensures |Pack(items)| == Size(Kinds(items))
  {
    if items != [] {
      assert Kinds(items)[1..] == Kinds(items[1..]);
      PackedSize(items[1..]);
    }
  }

  lemma DecodeEncode(item: Item)
    requires item.Fits()
    ensures item.Kind().Decode(item.Encode()) == item.Read()
  {
    match item
    case U32(n) =>
      assert Pow256(4) == 0x1_0000_0000;
      LittleEndianRoundTrip(n, 4);
    case U64(n) =>
      assert Pow256(4) == 0x1_0000_0000;
      assert Pow256(8) == 0x1_0000_0000_0000_0000;
      LittleEndianRoundTrip(n, 8);
    case Text(_, _) =>
  }

  lemma TakeDrop(a: seq<byte>, b: seq<byte>)
    ensures (a + b)[..|a|] == a && (a + b)[|a|..] == b
  {
  }

  lemma ReadHead(items: seq<Item>)
    requires items != []
    ensures ReadItems(items) == [items[0].Read()] + ReadItems(items[1..])
  {
  }

  /** Reading a packed record by its field widths returns the fields, whatever follows the record. */
  lemma {:induction false} UnpackPack(items: seq<Item>, tail: seq<byte>)
    requires AllFit(items)
    ensures Unpack(Kinds(items), Pack(items) + tail) == Some(ReadItems(items))
  {
    if items == [] {
      assert Kinds(items) == [];
    } else {
      var first, rest := items[0].Encode(), Pack(items[1..]);
      Associative(first, rest, tail);
      assert Kinds(items)[1..] == Kinds(items[1..]);
      TakeDrop(first, rest + tail);
      UnpackPack(items[1..], tail);
      DecodeEncode(items[0]);
      ReadHead(items);
    }
  }

  /** A reader may stop early: the first fields come back the same. */
  lemma UnpackPrefix(a: seq<Item>, b: seq<Item>, tail: seq<byte>)
    requires AllFit(a)
    ensures Unpack(Kinds(a), Pack(a + b) + tail) == Some(ReadItems(a))
  {
    PackAppend(a, b);
    Associative(Pack(a), Pack(b), tail);
    UnpackPack(a, Pack(b) + tail);
  }
}
