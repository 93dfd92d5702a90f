/** Byte strings: little-endian integers, zero fill and NUL-terminated text. */
module Bytes {

  type byte = b: int | 0 <= b < 256

  function Pow256(k: nat): (r: nat)
    ensures r >= 1
  {
    if k == 0 then 1 else 256 * Pow256(k - 1)
  }

  function Digit(n: nat, i: nat): byte {
    if i == 0 then n % 256 else Digit(n / 256, i - 1)
  }

  /** The low k bytes of n, least significant first. */
  function LittleEndian(n: nat, k: nat): (s: seq<byte>)
    ensures |s| == k
  {
    seq(k, i requires 0 <= i < k => Digit(n, i))
  }

  /** The order of the bytes. */
  lemma LittleEndianIs(n: nat)
    requires n < 0x1_0000_0000
    ensures LittleEndian(n, 4) == [n % 256, n / 256 % 256, n / 65536 % 256, n / 16777216]
  {
    FourDigits(n);
    hide Digit;
  }

  lemma FourDigits(n: nat)
    requires n < 0x1_0000_0000
    ensures Digit(n, 0) == n % 256 && Digit(n, 1) == n / 256 % 256
    ensures Digit(n, 2) == n / 65536 % 256 && Digit(n, 3) == n / 16777216
  {
    var a, b, c := n / 256, n / 65536, n / 16777216;
    assert a / 256 == b && b / 256 == c && c < 256;
    assert Digit(a, 0) == a % 256 && Digit(b, 0) == b % 256 && Digit(c, 0) == c;
    assert Digit(a, 1) == Digit(b, 0);
    assert Digit(b, 1) == Digit(c, 0);
    assert Digit(a, 2) == Digit(b, 1);
  }

  function FromLittleEndian(s: seq<byte>): nat {
    if s == [] then 0 else s[0] + 256 * FromLittleEndian(s[1..])
  }

  lemma {:induction false} LittleEndianRoundTrip(n: nat, k: nat)
    requires n < Pow256(k)
    ensures FromLittleEndian(LittleEndian(n, k)) == n
  {
    if k > 0 {
      LittleEndianRoundTrip(n / 256, k - 1);
      assert LittleEndian(n, k)[1..] == LittleEndian(n / 256, k - 1);
    }
  }

  function Zeros(n: nat): (s: seq<byte>)
    ensures |s| == n
    ensures forall i :: 0 <= i < n ==> s[i] == 0
  {
    seq(n, _ => 0)
  }

  /** A byte string cut or zero-filled to exactly n bytes (struct format "ns"). */
  function FixedWidth(s: seq<byte>, n: nat): (r: seq<byte>)
    ensures |r| == n
    ensures |s| <= n ==> r == s + Zeros(n - |s|)
    ensures |s| >= n ==> r == s[..n]
  {
    if |s| <= n then s + Zeros(n - |s|) else s[..n]
  }

  lemma Associative(a: seq<byte>, b: seq<byte>, c: seq<byte>)
    ensures a + b + c == a + (b + c)
  {
  }

  /** The text before the first NUL. */
  function CString(s: seq<byte>): seq<byte> {
    if s == [] || s[0] == 0 then [] else [s[0]] + CString(s[1..])
  }

  predicate NulFree(s: seq<byte>) {
    forall i :: 0 <= i < |s| ==> s[i] != 0
  }

  lemma {:induction false} CStringStops(text: seq<byte>, rest: seq<byte>)
    requires NulFree(text) && (rest == [] || rest[0] == 0)
    ensures CString(text + rest) == text
  {
    if text == [] {
      assert text + rest == rest;
    } else {
      assert (text + rest)[1..] == text[1..] + rest;
      CStringStops(text[1..], rest);
    }
  }

  /** bytes.rstrip(b'\x00') */
  function StripNuls(s: seq<byte>): seq<byte> {
    if s != [] && s[|s| - 1] == 0 then StripNuls(s[..|s| - 1]) else s
  }

  lemma {:induction false} StripNulsFill(s: seq<byte>, n: nat)
    ensures StripNuls(s + Zeros(n)) == StripNuls(s)
  {
    if n == 0 {
      assert s + Zeros(0) == s;
    } else {
      assert (s + Zeros(n))[..|s| + n - 1] == s + Zeros(n - 1);
      StripNulsFill(s, n - 1);
    }
  }

  lemma {:induction false} StripNulsAsciiz(s: seq<byte>)
    requires NulFree(s)
    ensures StripNuls(s + [0]) == s
  {
    assert (s + [0])[..|s|] == s;
  }
}
