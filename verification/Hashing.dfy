/** The 32-bit FNV-1a hash of strings and the bit operations it and the hash table use. */
module Hashing {

  type Byte = b: nat | b < 0x100
  type Word = w: nat | w < 0x1_0000_0000

  const FNV_OFFSET_BASIS: Word := 0x811c9dc5
  const FNV_PRIME: Word := 0x01000193

  function Pow2(k: nat): (r: nat)
    ensures r > 0
  {
    if k == 0 then 1 else 2 * Pow2(k - 1)
  }

  /** Bitwise exclusive or. */
  function Xor(a: nat, b: nat): nat
    decreases a + b
  {
    if a == 0 then b
    else if b == 0 then a
    else (a % 2 + b % 2) % 2 + 2 * Xor(a / 2, b / 2)
  }

  /** Bitwise conjunction. */
  function And(a: nat, b: nat): nat
    decreases a
  {
    if a == 0 || b == 0 then 0 else (a % 2) * (b % 2) + 2 * And(a / 2, b / 2)
  }

  lemma {:induction false} XorFits(a: nat, b: nat, k: nat)
    requires a < Pow2(k) && b < Pow2(k)
    ensures Xor(a, b) < Pow2(k)
    decreases k
  {
    if a != 0 && b != 0 {
      XorFits(a / 2, b / 2, k - 1);
    }
  }

  /** Exclusive or with the same word undoes itself. */
  lemma {:induction false} XorUndone(a: nat, b: nat)
    ensures Xor(Xor(a, b), b) == a
    decreases a + b
  {
    if a == 0 {
      XorSelf(b);
    } else if b != 0 {
      var x := Xor(a, b);
      assert x % 2 == (a % 2 + b % 2) % 2 && x / 2 == Xor(a / 2, b / 2);
      XorUndone(a / 2, b / 2);
      XorBits(x, b);
    }
  }

  lemma {:induction false} XorSelf(b: nat)
    ensures Xor(b, b) == 0
  {
    if b != 0 {
      XorSelf(b / 2);
    }
  }

  lemma XorBits(a: nat, b: nat)
    ensures Xor(a, b) == (a % 2 + b % 2) % 2 + 2 * Xor(a / 2, b / 2)
  {
  }

  lemma {:induction false} XorSwap(a: nat, b: nat)
    ensures Xor(a, b) == Xor(b, a)
    decreases a + b
  {
    if a != 0 && b != 0 {
      XorSwap(a / 2, b / 2);
    }
  }

  /** Masking with a power of two less one is the remainder. */
  lemma {:induction false} MaskIsMod(a: nat, k: nat)
    ensures And(a, Pow2(k) - 1) == a % Pow2(k)
    decreases k
  {
    if k > 0 {
      MaskIsMod(a / 2, k - 1);
      MaskDouble(a, Pow2(k - 1));
    }
  }

  lemma MaskDouble(a: nat, h: nat)
    requires h > 0 && And(a / 2, h - 1) == (a / 2) % h
    ensures And(a, 2 * h - 1) == a % (2 * h)
  {
    hide And;
    AndOdd(a, h - 1);
    HalfMod(a, h);
    assert 2 * (h - 1) + 1 == 2 * h - 1;
  }

  lemma AndOdd(a: nat, m: nat)
    ensures And(a, 2 * m + 1) == a % 2 + 2 * And(a / 2, m)
  {
    var n := 2 * m + 1;
    assert n % 2 == 1 && n / 2 == m;
  }

  lemma HalfMod(a: nat, h: nat)
    requires h > 0
    ensures a % (2 * h) == a % 2 + 2 * ((a / 2) % h)
  {
    var q, r := (a / 2) / h, (a / 2) % h;
    assert a / 2 == q * h + r;
    assert a == q * (2 * h) + (a % 2 + 2 * r);
    Remainder(a, 2 * h, q, a % 2 + 2 * r);
  }

  lemma Remainder(a: nat, n: nat, q: nat, r: nat)
    requires a == q * n + r && r < n
    ensures a % n == r
  {
    SameRemainder(a / n, q, n, a % n, r);
  }

  lemma SameRemainder(d: int, q: int, n: nat, x: int, y: int)
    requires d * n + x == q * n + y && 0 <= x < n && 0 <= y < n
    ensures x == y
  {
    assert d * n - q * n == (d - q) * n;
    if d > q {
      AtLeast(d - q, n);
    } else if d < q {
      AtLeast(q - d, n);
    }
  }

  lemma AtLeast(k: int, n: nat)
    requires k >= 1
    ensures k * n >= n
  {
  }

  // ----- FNV-1a -----

  lemma WordIsPow2()
    ensures Pow2(32) == 0x1_0000_0000
  {
    assert Pow2(8) == 256;
    assert Pow2(16) == 256 * Pow2(8);
    assert Pow2(24) == 256 * Pow2(16);
    assert Pow2(32) == 256 * Pow2(24);
  }

  function FnvStep(h: Word, b: Byte): Word {
    Xor(h, b) * FNV_PRIME % 0x1_0000_0000
  }

  function Fnv(s: seq<Byte>): Word {
    if s == [] then FNV_OFFSET_BASIS else FnvStep(Fnv(s[..|s| - 1]), s[|s| - 1])
  }

  lemma OneByte(b: Byte)
    ensures Fnv([b]) == Xor(FNV_OFFSET_BASIS, b) * FNV_PRIME % 0x1_0000_0000
  {
    assert [b][..0] == [];
  }

  /** The published values for the empty string and for `a`. */
  lemma KnownHashes()
    ensures Fnv([]) == 0x811c9dc5 && Fnv([0x61]) == 0xe40c292c
  {
    hide Xor;
    OneByte(0x61);
    BasisXor();
    hide Fnv;
    Product();
    EmptyHash();
  }

  lemma EmptyHash()
    ensures Fnv([]) == 0x811c9dc5
  {
  }

  lemma Product()
    ensures 0x811c9da4 * 0x01000193 % 0x1_0000_0000 == 0xe40c292c
  {
  }

  lemma BasisXor()
    ensures Xor(0x811c9dc5, 0x61) == 0x811c9da4
  {
    hide Xor;
    XorBits(0x811c9dc5, 0x61);
    XorBits(0x408e4ee2, 0x30);
    XorBits(0x20472771, 0x18);
    XorBits(0x102393b8, 0x0c);
    XorBits(0x0811c9dc, 0x06);
    XorBits(0x0408e4ee, 0x03);
    XorBits(0x02047277, 0x01);
    XorNone(0x0102393b);
  }

  lemma XorNone(a: nat)
    ensures Xor(a, 0) == a
  {
  }

  /** Fold each byte in, then multiply by the prime, modulo the word size. */
  method HashString(s: seq<Byte>) returns (h: Word)
    ensures h == Fnv(s)
  {
    h := FNV_OFFSET_BASIS;
    for i := 0 to |s|
      invariant h == Fnv(s[..i])
    {
      assert s[..i + 1][..i] == s[..i];
      var x: nat := Xor(h, s[i]);
      h := x * FNV_PRIME % 0x1_0000_0000;
    }
    assert s[..|s|] == s;
  }

  /** The prime is odd, so a step loses nothing: it can be undone. */
  lemma StepInjective(g: Word, h: Word, b: Byte, c: Byte)
    requires FnvStep(g, b) == FnvStep(h, c)
    ensures Xor(g, b) == Xor(h, c)
  {
    WordIsPow2();
    XorFits(g, b, 32);
    XorFits(h, c, 32);
    TimesInverse(Xor(g, b));
    TimesInverse(Xor(h, c));
  }

  const FNV_INVERSE := 0x359c449b

  lemma TimesInverse(x: Word)
    ensures (x * FNV_PRIME % 0x1_0000_0000) * FNV_INVERSE % 0x1_0000_0000 == x
  {
    var m := 0x1_0000_0000;
    var q, r := x * FNV_PRIME / m, x * FNV_PRIME % m;
    assert FNV_PRIME * FNV_INVERSE == 0x359c99 * m + 1;
    assert r * FNV_INVERSE == x * (FNV_PRIME * FNV_INVERSE) - q * FNV_INVERSE * m;
  }

  /** Two strings that differ in exactly one byte never collide. */
  lemma {:induction false} OneByteApart(s: seq<Byte>, t: seq<Byte>, i: nat)
    requires |s| == |t| && i < |s| && s[i] != t[i]
    requires forall k :: 0 <= k < |s| && k != i ==> s[k] == t[k]
    ensures Fnv(s) != Fnv(t)
    decreases |s|
  {
    var n := |s| - 1;
    if Fnv(s) == Fnv(t) {
      StepInjective(Fnv(s[..n]), Fnv(t[..n]), s[n], t[n]);
      if i == n {
        assert s[..n] == t[..n];
        XorSwap(Fnv(s[..n]), s[n]);
        XorSwap(Fnv(s[..n]), t[n]);
        XorUndone(s[n], Fnv(s[..n]));
        XorUndone(t[n], Fnv(s[..n]));
      } else {
        XorUndone(Fnv(s[..n]), s[n]);
        XorUndone(Fnv(t[..n]), s[n]);
        OneByteApart(s[..n], t[..n], i);
      }
    }
  }
}
