/** The word bitmap over atomic word updates, and the plain set it stands for. */
module Bitmap {
  import opened Bits

  const BITMAP_BITS_PER_WORD := 64

  /** UINTN */
  type Word = n: int | 0 <= n < 0x1_0000_0000_0000_0000

  lemma WordWidth()
    ensures Pow2(BITMAP_BITS_PER_WORD) == 0x1_0000_0000_0000_0000
  {
    assert Pow2(8) == 256;
    Pow2Add(8, 8);
    Pow2Add(16, 16);
    Pow2Add(32, 32);
  }

  /** 1UL << k */
  function Mask(k: nat): Word
    requires k < BITMAP_BITS_PER_WORD
  {
    WordWidth();
    Pow2Monotone(k, BITMAP_BITS_PER_WORD);
    Pow2(k)
  }

  /** ~w */
  function Complement(w: Word): Word {
    0x1_0000_0000_0000_0000 - 1 - w
  }

  function OrWords(a: Word, b: Word): Word {
    WordWidth();
    OrBelow(a, b, BITMAP_BITS_PER_WORD);
    Or(a, b)
  }

  function AndWords(a: Word, b: Word): Word {
    AndAtMost(a, b);
    And(a, b)
  }

  /** BITMAP_BIT_IN_WORD and BITMAP_BIT_IN_INT: a mask by 63 */
  function BitInWord(bit: nat): (k: nat)
    ensures k == bit % BITMAP_BITS_PER_WORD
  {
    assert Pow2(6) == 64;
    AndMask(bit, 6);
    And(bit, BITMAP_BITS_PER_WORD - 1)
  }

  predicate InRange(words: seq<Word>, bit: nat) {
    bit / BITMAP_BITS_PER_WORD < |words|
  }

  predicate Has(words: seq<Word>, bit: nat)
    requires InRange(words, bit)
  {
    Bit(words[bit / BITMAP_BITS_PER_WORD], bit % BITMAP_BITS_PER_WORD)
  }

  /** The set a bitmap stands for. */
  ghost function Members(words: seq<Word>): set<nat> {
    set bit: nat | 0 <= bit < BITMAP_BITS_PER_WORD * |words| && InRange(words, bit) && Has(words, bit)
  }

  // ---- single words ----

  lemma SetOneBit(w: Word, i: nat, j: nat)
    requires i < BITMAP_BITS_PER_WORD
    ensures Bit(OrWords(w, Mask(i)), j) <==> i == j || Bit(w, j)
  {
    BitOfOr(w, Mask(i), j);
    BitOfPow2(i, j);
  }

  lemma ClearOneBit(w: Word, i: nat, j: nat)
    requires i < BITMAP_BITS_PER_WORD && j < BITMAP_BITS_PER_WORD
    ensures Bit(AndWords(w, Complement(Mask(i))), j) <==> i != j && Bit(w, j)
  {
    WordWidth();
    BitOfAnd(w, Complement(Mask(i)), j);
    BitOfComplement(Mask(i), BITMAP_BITS_PER_WORD, j);
    BitOfPow2(i, j);
  }

  // ---- AtomicLib ----

  method AtomicAnd(bitmap: array<Word>, address: nat, value: Word) returns (oldValue: Word)
    requires address < bitmap.Length
    modifies bitmap
    ensures oldValue == old(bitmap[address])
    ensures bitmap[..] == old(bitmap[..])[address := AndWords(oldValue, value)]
  {
    oldValue := bitmap[address];
    bitmap[address] := AndWords(bitmap[address], value);
  }

  method AtomicOr(bitmap: array<Word>, address: nat, value: Word) returns (oldValue: Word)
    requires address < bitmap.Length
    modifies bitmap
    ensures oldValue == old(bitmap[address])
    ensures bitmap[..] == old(bitmap[..])[address := OrWords(oldValue, value)]
  {
    oldValue := bitmap[address];
    bitmap[address] := OrWords(bitmap[address], value);
  }

  // ---- BitmapLib ----

  datatype Op = Set(bit: nat) | Clear(bit: nat) | Test(bit: nat)

  /** One operation on the words. */
  function Apply(words: seq<Word>, op: Op): (r: seq<Word>)
    requires InRange(words, op.bit)
    ensures |r| == |words|
  {
    var i, k := op.bit / BITMAP_BITS_PER_WORD, op.bit % BITMAP_BITS_PER_WORD;
    match op
    case Set(_) => words[i := OrWords(words[i], Mask(k))]
    case Clear(_) => words[i := AndWords(words[i], Complement(Mask(k)))]
    case Test(_) => words
  }

  /** The same operation on a set. */
  function ApplyToSet(s: set<nat>, op: Op): set<nat> {
    match op
    case Set(bit) => s + {bit}
    case Clear(bit) => s - {bit}
    case Test(_) => s
  }

  lemma MemberIff(words: seq<Word>, bit: nat)
    ensures bit in Members(words) <==> InRange(words, bit) && Has(words, bit)
  {
    if InRange(words, bit) {
      assert bit < BITMAP_BITS_PER_WORD * |words|;
    }
  }

  /** An operation changes the membership of its own bit and of no other. */
  lemma ApplyRefinesSet(words: seq<Word>, op: Op)
    requires InRange(words, op.bit)
    ensures Members(Apply(words, op)) == ApplyToSet(Members(words), op)
  {
    var after := Apply(words, op);
    var i, k := op.bit / BITMAP_BITS_PER_WORD, op.bit % BITMAP_BITS_PER_WORD;
    forall bit: nat
      ensures bit in Members(after) <==> bit in ApplyToSet(Members(words), op)
    {
      MemberIff(words, bit);
      MemberIff(after, bit);
      if InRange(words, bit) && bit / BITMAP_BITS_PER_WORD == i {
        SetOneBit(words[i], k, bit % BITMAP_BITS_PER_WORD);
        ClearOneBit(words[i], k, bit % BITMAP_BITS_PER_WORD);
      }
    }
  }

  method BitmapSet(bitmap: array<Word>, bit: nat) returns (was: int)
    requires InRange(bitmap[..], bit)
    modifies bitmap
    ensures bitmap[..] == Apply(old(bitmap[..]), Set(bit))
    ensures Members(bitmap[..]) == Members(old(bitmap[..])) + {bit}
    ensures was == if bit in Members(old(bitmap[..])) then 1 else 0
  {
    ApplyRefinesSet(bitmap[..], Set(bit));
    MemberIff(bitmap[..], bit);
    var mask := Mask(BitInWord(bit));
    AndPow2(bitmap[bit / BITMAP_BITS_PER_WORD], BitInWord(bit));
    var oldValue := AtomicOr(bitmap, bit / BITMAP_BITS_PER_WORD, mask);
    was := if AndWords(oldValue, mask) != 0 then 1 else 0;
  }

  method BitmapClear(bitmap: array<Word>, bit: nat) returns (was: int)
    requires InRange(bitmap[..], bit)
    modifies bitmap
    ensures bitmap[..] == Apply(old(bitmap[..]), Clear(bit))
    ensures Members(bitmap[..]) == Members(old(bitmap[..])) - {bit}
    ensures was == if bit in Members(old(bitmap[..])) then 1 else 0
  {
    ApplyRefinesSet(bitmap[..], Clear(bit));
    MemberIff(bitmap[..], bit);
    var mask := Mask(BitInWord(bit));
    AndPow2(bitmap[bit / BITMAP_BITS_PER_WORD], BitInWord(bit));
    var oldValue := AtomicAnd(bitmap, bit / BITMAP_BITS_PER_WORD, Complement(mask));
    was := if AndWords(oldValue, mask) != 0 then 1 else 0;
  }

  method BitmapTest(bitmap: array<Word>, bit: nat) returns (r: int)
    requires InRange(bitmap[..], bit)
    ensures r == if bit in Members(bitmap[..]) then 1 else 0
  {
    MemberIff(bitmap[..], bit);
    AndPow2(bitmap[bit / BITMAP_BITS_PER_WORD], BitInWord(bit));
    r := if AndWords(bitmap[bit / BITMAP_BITS_PER_WORD], Mask(BitInWord(bit))) != 0 then 1 else 0;
  }

  // ---- runs ----

  predicate AllInRange(words: seq<Word>, ops: seq<Op>) {
    forall i :: 0 <= i < |ops| ==> InRange(words, ops[i].bit)
  }

  /** The words after a run, and what each operation returned. */
  function Run(words: seq<Word>, ops: seq<Op>): (r: (seq<Word>, seq<int>))
    requires AllInRange(words, ops)
    ensures |r.0| == |words|
  {
    if ops == [] then (words, [])
    else
      var (before, answers) := Run(words, ops[..|ops| - 1]);
      var op := ops[|ops| - 1];
      (Apply(before, op), answers + [if Has(before, op.bit) then 1 else 0])
  }

  function RunOnSet(s: set<nat>, ops: seq<Op>): (set<nat>, seq<int>) {
    if ops == [] then (s, [])
    else
      var (before, answers) := RunOnSet(s, ops[..|ops| - 1]);
      var op := ops[|ops| - 1];
      (ApplyToSet(before, op), answers + [if op.bit in before then 1 else 0])
  }

  /** Over any sequence of operations the words stand for exactly the set, and every operation
      returned the bit's membership before it. */
  lemma {:induction false} RunRefinesSet(words: seq<Word>, ops: seq<Op>)
    requires AllInRange(words, ops)
    ensures Members(Run(words, ops).0) == RunOnSet(Members(words), ops).0
    ensures Run(words, ops).1 == RunOnSet(Members(words), ops).1
  {
    if ops != [] {
      var earlier, op := ops[..|ops| - 1], ops[|ops| - 1];
      RunRefinesSet(words, earlier);
      var before := Run(words, earlier).0;
      ApplyRefinesSet(before, op);
      MemberIff(before, op.bit);
    }
  }
}
