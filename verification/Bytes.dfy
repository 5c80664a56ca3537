/** Bytes, machine words and the little-endian layout that `memcpy` of a word exposes. */
module Bytes {

  type byte = x: int | 0 <= x < 256

  const TWO_TO_THE_31 := 0x8000_0000
  const TWO_TO_THE_32 := 0x1_0000_0000
  const TWO_TO_THE_64 := 0x1_0000_0000_0000_0000

  type u32 = x: int | 0 <= x < TWO_TO_THE_32
  type u64 = x: int | 0 <= x < TWO_TO_THE_64

  const NUL: byte := 0

  function Pow256(w: nat): (p: nat)
    ensures p >= 1
  {
    if w == 0 then 1 else 256 * Pow256(w - 1)
  }

  /** The first `w` little-endian bytes of `n`; higher bytes are cut off, as a narrowing `memcpy` does. */
  function LE(w: nat, n: nat): (s: seq<byte>)
    ensures |s| == w
  {
    if w == 0 then [] else [n % 256] + LE(w - 1, n / 256)
  }

  function FromLE(s: seq<byte>): (n: nat)
    ensures n < Pow256(|s|)
  {
    if s == [] then 0 else s[0] + 256 * FromLE(s[1..])
  }

  lemma Pow256Of8()
    ensures Pow256(4) == TWO_TO_THE_32
    ensures Pow256(8) == TWO_TO_THE_64
  {
    assert Pow256(4) == TWO_TO_THE_32 by {
      assert Pow256(2) == 0x1_0000;
    }
    assert Pow256(6) == 256 * (256 * Pow256(4));
  }

  lemma {:induction false} FromLEOfLE(w: nat, n: nat)
    requires n < Pow256(w)
    ensures FromLE(LE(w, n)) == n
  {
    if w > 0 {
      FromLEOfLE(w - 1, n / 256);
      assert LE(w, n)[1..] == LE(w - 1, n / 256);
    }
  }

  lemma {:induction false} LEOfFromLE(s: seq<byte>)
    ensures LE(|s|, FromLE(s)) == s
  {
    if s != [] {
      LEOfFromLE(s[1..]);
      var rest := FromLE(s[1..]);
      assert (s[0] + 256 * rest) % 256 == s[0] && (s[0] + 256 * rest) / 256 == rest;
      assert s == [s[0]] + s[1..];
    }
  }

  /** Byte `i` of the layout is digit `i` of the number to base 256, the lowest first. */
  lemma {:induction false} LEDigit(w: nat, n: nat, i: nat)
    requires i < w
    ensures LE(w, n)[i] == n / Pow256(i) % 256
  {
    if i > 0 {
      LEDigit(w - 1, n / 256, i - 1);
      DivideTwice(n, Pow256(i - 1));
    }
  }

  lemma DivideTwice(n: nat, p: nat)
    requires p > 0
    ensures n / 256 / p == n / (256 * p)
  {
    var q, r := n / 256, n % 256;
    var a, b := q / p, q % p;
    assert n == 256 * (a * p + b) + r == (256 * p) * a + (256 * b + r);
    assert 0 <= 256 * b + r < 256 * p;
    QuotientIsUnique(n, 256 * p, a, 256 * b + r);
  }

  lemma QuotientIsUnique(n: nat, d: nat, q: nat, r: nat)
    requires r < d && n == d * q + r
    ensures n / d == q
  {
    var k := n / d - q;
    assert n == d * (n / d) + n % d;
    assert d * k == r - n % d;
    MultipleIsLarge(d, k);
  }

  lemma MultipleIsLarge(d: nat, k: int)
    ensures k >= 1 ==> d * k >= d
    ensures k <= -1 ==> d * k + d <= 0
  {
  }

  lemma U64RoundTrip(n: u64)
    ensures FromLE(LE(8, n)) == n
  {
    Pow256Of8();
    FromLEOfLE(8, n);
  }

  function ReadU64(s: seq<byte>, at: nat): (n: u64)
    requires at + 8 <= |s|
  {
    Pow256Of8();
    FromLE(s[at..at + 8])
  }

  /** `memcpy(s + at, data, |data|)`. */
  function Splice(s: seq<byte>, at: nat, data: seq<byte>): (r: seq<byte>)
    requires at + |data| <= |s|
    ensures |r| == |s|
    ensures r[at..at + |data|] == data
    ensures forall i :: 0 <= i < |s| && !(at <= i < at + |data|) ==> r[i] == s[i]
  {
    s[..at] + data + s[at + |data|..]
  }

  /** Two adjacent copies are one. */
  lemma SpliceTwice(s: seq<byte>, at: nat, a: seq<byte>, b: seq<byte>)
    requires at + |a| + |b| <= |s|
    ensures Splice(Splice(s, at, a), at + |a|, b) == Splice(s, at, a + b)
  {
  }

  method CopyInto(a: array<byte>, at: nat, data: seq<byte>)
    requires at + |data| <= a.Length
    modifies a
    ensures a[..] == Splice(old(a[..]), at, data)
  {
    forall i | 0 <= i < |data| {
      a[at + i] := data[i];
    }
    assert a[..] == Splice(old(a[..]), at, data) by {
      var r := Splice(old(a[..]), at, data);
      forall i | 0 <= i < a.Length
        ensures a[i] == r[i]
      {
        if at <= i < at + |data| {
          assert r[at..at + |data|][i - at] == data[i - at];
        }
      }
    }
  }
}
