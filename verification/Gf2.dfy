/** The register of the CRC: a division of polynomials over GF(2), one bit at a time. */
module Gf2 {

  /** The divisor without its leading term. */
  const POLY: bv32 := 0x1EDC6F41

  predicate Top(x: bv32) {
    x & 0x8000_0000 != 0
  }

  /** The register moves by one place; the divisor is subtracted when `q`. */
  function Divide(x: bv32, q: bool): bv32 {
    if q then (x << 1) ^ POLY else x << 1
  }

  /** The register after one more bit of the dividend. */
  function Next(x: bv32, bit: bool): bv32 {
    Divide(x, Top(x) != bit)
  }

  function Next8(x: bv32, a: bool, b: bool, c: bool, d: bool, e: bool, f: bool, g: bool, h: bool): bv32 {
    Next(Next(Next(Next(Next(Next(Next(Next(x, a), b), c), d), e), f), g), h)
  }

  function Shift8(x: bv32): bv32 {
    Next8(x, false, false, false, false, false, false, false, false)
  }

  function Xor(x: bv32, y: bv32): bv32 {
    x ^ y
  }

  function Up(x: bv32): bv32 {
    x << 1
  }

  lemma TopXor(x: bv32, c: bv32)
    ensures Top(x ^ c) == (Top(x) != Top(c))
  {
  }

  lemma DivideXor(x: bv32, c: bv32)
    ensures Divide(x ^ c, true) == Divide(x, true) ^ (c << 1)
    ensures Divide(x ^ c, false) == Divide(x, false) ^ (c << 1)
  {
  }

  lemma Named(x: bv32, c: bv32)
    ensures Xor(x, c) == x ^ c
  {
  }

  lemma AheadOne(x: bv32, c: bv32, y: bv32, u: bv32, bit: bool)
    requires y == x ^ c && u == c << 1 && bit == Top(c)
    ensures Next(y, false) == Xor(Next(x, bit), u)
  {
    TopXor(x, c);
    DivideXor(x, c);
    if Top(x) != bit {
      assert Top(y);
      Named(Divide(x, true), u);
    } else {
      assert !Top(y);
      Named(Divide(x, false), u);
    }
  }

  /** Adding a bit of the dividend to the register beforehand comes to the same. */
  lemma Ahead(x: bv32, c: bv32)
    ensures Next(Xor(x, c), false) == Xor(Next(x, Top(c)), Up(c))
  {
    Named(x, c);
    AheadOne(x, c, Xor(x, c), Up(c), Top(c));
  }

  /** Eight steps at once, for any register with this law. */
  lemma Ahead8<T(!new)>(next: (T, bool) -> T, add: (T, T) -> T, up: T -> T, top: T -> bool, x: T, c0: T)
    requires forall x, c :: next(add(x, c), false) == add(next(x, top(c)), up(c))
    ensures
      var c1 := up(c0); var c2 := up(c1); var c3 := up(c2); var c4 := up(c3);
      var c5 := up(c4); var c6 := up(c5); var c7 := up(c6);
      next(next(next(next(next(next(next(next(add(x, c0), false), false), false), false), false), false), false), false)
      == add(next(next(next(next(next(next(next(next(x, top(c0)), top(c1)), top(c2)), top(c3)), top(c4)), top(c5)),
                  top(c6)), top(c7)), up(c7))
  {
  }

  lemma Ahead8Bits(x: bv32, c: bv32)
    ensures
      var c1 := Up(c); var c2 := Up(c1); var c3 := Up(c2); var c4 := Up(c3);
      var c5 := Up(c4); var c6 := Up(c5); var c7 := Up(c6);
      Shift8(Xor(x, c)) == Xor(Next8(x, Top(c), Top(c1), Top(c2), Top(c3), Top(c4), Top(c5), Top(c6), Top(c7)), Up(c7))
  {
    forall x, c ensures Next(Xor(x, c), false) == Xor(Next(x, Top(c)), Up(c)) {
      Ahead(x, c);
    }
    Ahead8(Next, Xor, Up, Top, x, c);
  }

  // ----- whole bytes

  /** A byte in the top eight places of the register. */
  function High8(w: bv8): bv32 {
    (w as bv32) << 24
  }

  function Low24(x: bv32): bv32 {
    x & 0x00FF_FFFF
  }

  /** The register after the eight bits of a byte, most significant first. */
  function NextByte(x: bv32, w: bv8): bv32 {
    Next8(x, w & 0x80 != 0, w & 0x40 != 0, w & 0x20 != 0, w & 0x10 != 0,
          w & 0x08 != 0, w & 0x04 != 0, w & 0x02 != 0, w & 0x01 != 0)
  }

  lemma ByteTops(w: bv8, c: bv32)
    requires c == High8(w)
    ensures
      var c1 := Up(c); var c2 := Up(c1); var c3 := Up(c2); var c4 := Up(c3);
      var c5 := Up(c4); var c6 := Up(c5); var c7 := Up(c6);
      && Top(c) == (w & 0x80 != 0) && Top(c1) == (w & 0x40 != 0) && Top(c2) == (w & 0x20 != 0)
      && Top(c3) == (w & 0x10 != 0) && Top(c4) == (w & 0x08 != 0) && Top(c5) == (w & 0x04 != 0)
      && Top(c6) == (w & 0x02 != 0) && Top(c7) == (w & 0x01 != 0)
  {
  }

  lemma ByteGone(w: bv8, c: bv32, x: bv32)
    requires c == High8(w)
    ensures Xor(x, Up(Up(Up(Up(Up(Up(Up(Up(c))))))))) == x
  {
  }

  lemma LowTops(c: bv32)
    requires c & 0xFF00_0000 == 0
    ensures
      var c1 := Up(c); var c2 := Up(c1); var c3 := Up(c2); var c4 := Up(c3);
      var c5 := Up(c4); var c6 := Up(c5); var c7 := Up(c6);
      !Top(c) && !Top(c1) && !Top(c2) && !Top(c3) && !Top(c4) && !Top(c5) && !Top(c6) && !Top(c7)
  {
  }

  lemma Up8(c: bv32)
    ensures Up(Up(Up(Up(Up(Up(Up(Up(c)))))))) == c << 8
  {
  }

  /** Eight steps with the byte in the register are eight steps with its bits. */
  lemma ByteAhead(x: bv32, w: bv8)
    ensures Shift8(Xor(x, High8(w))) == NextByte(x, w)
  {
    var c := High8(w);
    Ahead8Bits(x, c);
    ByteTops(w, c);
    ByteGone(w, c, NextByte(x, w));
  }

  /** Eight steps move the low 24 bits up unchanged. */
  lemma LowAhead(x: bv32, c: bv32)
    requires c & 0xFF00_0000 == 0
    ensures Shift8(Xor(x, c)) == Xor(Shift8(x), c << 8)
  {
    Ahead8Bits(x, c);
    LowTops(c);
    Up8(c);
  }

  // ----- the table form

  /** The table entry a register and a byte select. */
  function Selected(x: bv32, w: bv8): bv8 {
    ((x >> 24) as bv8) ^ w
  }

  lemma SplitLow(x: bv32)
    ensures Low24(x) & 0xFF00_0000 == 0 && Low24(x) << 8 == x << 8
  {
  }

  lemma SplitHigh(x: bv32, w: bv32, s: bv32, low: bv32)
    requires w & 0xFFFF_FF00 == 0 && s == (x >> 24) ^ w && low == x & 0x00FF_FFFF
    ensures x ^ (w << 24) == (s << 24) ^ low
  {
  }

  lemma Widen(x: bv32, w: bv8, s: bv8)
    requires s == Selected(x, w)
    ensures (s as bv32) == (x >> 24) ^ (w as bv32) && (w as bv32) & 0xFFFF_FF00 == 0
  {
  }

  lemma SplitNamed(x: bv32, w: bv32, s: bv32, low: bv32, h: bv32, g: bv32)
    requires w & 0xFFFF_FF00 == 0 && s == (x >> 24) ^ w && low == x & 0x00FF_FFFF && h == w << 24 && g == s << 24
    ensures Xor(x, h) == Xor(g, low)
  {
    SplitHigh(x, w, s, low);
    Named(x, h);
    Named(g, low);
  }

  /** The top byte of the register and the new byte meet in the table index. */
  lemma SplitWord(x: bv32, w: bv8, s: bv8)
    requires s == Selected(x, w)
    ensures Xor(x, High8(w)) == Xor(High8(s), Low24(x))
  {
    Widen(x, w, s);
    SplitNamed(x, w as bv32, s as bv32, Low24(x), High8(w), High8(s));
  }

  /** Shifting by a byte and adding a table entry is eight steps of the division. */
  /** The register moved by a byte, and a table entry added. */
  function Merge(x: bv32, entry: bv32): bv32 {
    (x << 8) ^ entry
  }

  lemma MergeXor(x: bv32, entry: bv32)
    ensures Xor(entry, x << 8) == Merge(x, entry)
  {
  }

  lemma TableForm(x: bv32, w: bv8)
    ensures Merge(x, Shift8(High8(Selected(x, w)))) == NextByte(x, w)
  {
    SplitLow(x);
    SplitWord(x, w, Selected(x, w));
    LowAhead(High8(Selected(x, w)), Low24(x));
    MergeXor(x, Shift8(High8(Selected(x, w))));
    ByteAhead(x, w);
  }

  // ----- steps lose nothing

  lemma Parity(x: bv32)
    ensures Divide(x, true) & 1 == 1 && Divide(x, false) & 1 == 0
  {
  }

  lemma LeftInjective(x: bv32, y: bv32)
    requires x << 1 == y << 1 && x & 0x8000_0000 == y & 0x8000_0000
    ensures x == y
  {
  }

  lemma SameTop(x: bv32, y: bv32)
    requires Top(x) == Top(y)
    ensures x & 0x8000_0000 == y & 0x8000_0000
  {
  }

  lemma SameLeft(x: bv32, y: bv32, q: bool)
    requires Divide(x, q) == Divide(y, q)
    ensures x << 1 == y << 1
  {
    assert ((x << 1) ^ POLY) ^ POLY == x << 1;
    assert ((y << 1) ^ POLY) ^ POLY == y << 1;
  }

  lemma DivideInjective(x: bv32, y: bv32, q: bool)
    requires Divide(x, q) == Divide(y, q) && Top(x) == Top(y)
    ensures x == y
  {
    SameTop(x, y);
    SameLeft(x, y, q);
    LeftInjective(x, y);
  }

  lemma NextInjective(x: bv32, y: bv32, bit: bool)
    requires Next(x, bit) == Next(y, bit)
    ensures x == y
  {
    Parity(x);
    Parity(y);
    var q := Top(x) != bit;
    assert q == (Top(y) != bit);
    DivideInjective(x, y, q);
  }

  lemma Next8Injective(x: bv32, y: bv32, a: bool, b: bool, c: bool, d: bool, e: bool, f: bool, g: bool, h: bool)
    requires Next8(x, a, b, c, d, e, f, g, h) == Next8(y, a, b, c, d, e, f, g, h)
    ensures x == y
  {
    forall x, y, bit | Next(x, bit) == Next(y, bit) ensures x == y {
      NextInjective(x, y, bit);
    }
    Injective8(Next, x, y, a, b, c, d, e, f, g, h);
  }

  lemma Injective8<T(!new)>(next: (T, bool) -> T, x: T, y: T,
      a: bool, b: bool, c: bool, d: bool, e: bool, f: bool, g: bool, h: bool)
    requires forall x, y, bit :: next(x, bit) == next(y, bit) ==> x == y
    requires next(next(next(next(next(next(next(next(x, a), b), c), d), e), f), g), h)
          == next(next(next(next(next(next(next(next(y, a), b), c), d), e), f), g), h)
    ensures x == y
  {
  }

  // ----- four bytes

  lemma FoldChain<T>(shift: T -> T, xor: (T, T) -> T, x: T, low: T, all: T, next: T, y: T, z: T)
    requires xor(x, all) == xor(y, low) && shift(xor(y, low)) == xor(shift(y), next) && shift(y) == z
    ensures shift(xor(x, all)) == xor(z, next)
  {
  }

  lemma XorSplit(x: bv32, high: bv32, low: bv32, all: bv32)
    requires all == high ^ low
    ensures Xor(x, all) == Xor(Xor(x, high), low)
  {
    XorAssoc(x, high, low);
  }

  lemma LowMoves(y: bv32, low: bv32, next: bv32)
    requires low & 0xFF00_0000 == 0 && next == low << 8
    ensures Shift8(Xor(y, low)) == Xor(Shift8(y), next)
  {
    LowAhead(y, low);
  }

  lemma HighMoves(x: bv32, a: bv8, high: bv32)
    requires high == High8(a)
    ensures Shift8(Xor(x, high)) == NextByte(x, a)
  {
    ByteAhead(x, a);
  }

  /** A byte followed by up to three others, in the register. */
  lemma FoldByte(x: bv32, a: bv8, low: bv32, all: bv32, next: bv32)
    requires low & 0xFF00_0000 == 0 && all == High8(a) ^ low && next == low << 8
    ensures Shift8(Xor(x, all)) == Xor(NextByte(x, a), next)
  {
    var high := High8(a);
    XorSplit(x, high, low, all);
    LowMoves(Xor(x, high), low, next);
    HighMoves(x, a, high);
    FoldChain(Shift8, Xor, x, low, all, next, Xor(x, high), NextByte(x, a));
  }

  lemma XorAssoc(x: bv32, y: bv32, z: bv32)
    ensures Xor(x, y ^ z) == Xor(Xor(x, y), z)
  {
  }

  function Low3(b: bv8, c: bv8, d: bv8): bv32 {
    ((b as bv32) << 16) ^ ((c as bv32) << 8) ^ (d as bv32)
  }

  function Word4(a: bv8, b: bv8, c: bv8, d: bv8): bv32 {
    High8(a) ^ Low3(b, c, d)
  }

  lemma Shifted(b: bv8, c: bv8, d: bv8, low: bv32, next: bv32)
    requires low == Low3(b, c, d) && next == Word4(b, c, d, 0)
    ensures low & 0xFF00_0000 == 0 && next == low << 8
  {
  }

  lemma FoldWord(x: bv32, a: bv8, b: bv8, c: bv8, d: bv8)
    ensures Shift8(Xor(x, Word4(a, b, c, d))) == Xor(NextByte(x, a), Word4(b, c, d, 0))
  {
    var low, next := Low3(b, c, d), Word4(b, c, d, 0);
    Shifted(b, c, d, low, next);
    FoldByte(x, a, low, Word4(a, b, c, d), next);
  }

  lemma NoWord(x: bv32)
    ensures Xor(x, Word4(0, 0, 0, 0)) == x
  {
  }

  /** Four bytes at once: they can be added to the register beforehand. */
  lemma FourAhead(x: bv32, a: bv8, b: bv8, c: bv8, d: bv8)
    ensures Shift8(Shift8(Shift8(Shift8(Xor(x, Word4(a, b, c, d))))))
         == NextByte(NextByte(NextByte(NextByte(x, a), b), c), d)
  {
    var x1 := NextByte(x, a);
    var x2 := NextByte(x1, b);
    var x3 := NextByte(x2, c);
    FoldWord(x, a, b, c, d);
    FoldWord(x1, b, c, d, 0);
    FoldWord(x2, c, d, 0, 0);
    FoldWord(x3, d, 0, 0, 0);
    NoWord(NextByte(x3, d));
  }

  lemma XorBack(x: bv32, u: bv32, y: bv32)
    requires y == Xor(x, u)
    ensures u == Xor(x, y)
  {
  }

  lemma XorInjective(x: bv32, u: bv32, v: bv32)
    requires Xor(x, u) == Xor(x, v)
    ensures u == v
  {
    XorBack(x, u, Xor(x, u));
    XorBack(x, v, Xor(x, u));
  }

  lemma WordInjective(a: bv8, b: bv8, c: bv8, d: bv8, a': bv8, b': bv8, c': bv8, d': bv8)
    requires Word4(a, b, c, d) == Word4(a', b', c', d')
    ensures a == a' && b == b' && c == c' && d == d'
  {
  }

  lemma Shift8Injective(x: bv32, y: bv32)
    requires Shift8(x) == Shift8(y)
    ensures x == y
  {
    Next8Injective(x, y, false, false, false, false, false, false, false, false);
  }

  lemma NextByteInjective(x: bv32, y: bv32, w: bv8)
    requires NextByte(x, w) == NextByte(y, w)
    ensures x == y
  {
    Next8Injective(x, y, w & 0x80 != 0, w & 0x40 != 0, w & 0x20 != 0, w & 0x10 != 0,
                   w & 0x08 != 0, w & 0x04 != 0, w & 0x02 != 0, w & 0x01 != 0);
  }

  /** From one register, different four bytes lead to different registers. */
  lemma FourInjective(x: bv32, a: bv8, b: bv8, c: bv8, d: bv8, a': bv8, b': bv8, c': bv8, d': bv8)
    requires NextByte(NextByte(NextByte(NextByte(x, a), b), c), d)
          == NextByte(NextByte(NextByte(NextByte(x, a'), b'), c'), d')
    ensures a == a' && b == b' && c == c' && d == d'
  {
    FourAhead(x, a, b, c, d);
    FourAhead(x, a', b', c', d');
    var u, v := Word4(a, b, c, d), Word4(a', b', c', d');
    var y, z := Xor(x, u), Xor(x, v);
    FourShifts(y, z);
    XorInjective(x, u, v);
    WordInjective(a, b, c, d, a', b', c', d');
  }

  lemma FourShifts(y: bv32, z: bv32)
    requires Shift8(Shift8(Shift8(Shift8(y)))) == Shift8(Shift8(Shift8(Shift8(z))))
    ensures y == z
  {
    Shift8Injective(Shift8(Shift8(Shift8(y))), Shift8(Shift8(Shift8(z))));
    Shift8Injective(Shift8(Shift8(y)), Shift8(Shift8(z)));
    Shift8Injective(Shift8(y), Shift8(z));
    Shift8Injective(y, z);
  }

  // ----- coefficients

  lemma UpXor(x: bv32, y: bv32)
    ensures Up(Xor(x, y)) == Xor(Up(x), Up(y))
  {
  }

  lemma TopOfXor(x: bv32, y: bv32)
    ensures Top(Xor(x, y)) == (Top(x) != Top(y))
  {
    TopXor(x, y);
    Named(x, y);
  }

  lemma DivideForm(x: bv32)
    ensures Divide(x, true) == Xor(Up(x), POLY) && Divide(x, false) == Up(x)
  {
  }

  /** Thirty-two moves empty the register. */
  lemma Emptied(x: bv32, x8: bv32, x16: bv32, x24: bv32, x32: bv32)
    requires x8 == x << 8 && x16 == x8 << 8 && x24 == x16 << 8 && x32 == x24 << 8
    ensures !Top(x32)
  {
  }
}

/** Bytes as numbers and as eight bits. */
module ByteWords {

  /** Bit `k` of a number. */
  predicate Bit(b: nat, k: nat) {
    if k == 0 then b % 2 == 1 else Bit(b / 2, k - 1)
  }

  /** The byte as a machine word. */
  function Word(b: nat): bv8 {
    Pack(Bit(b, 7), Bit(b, 6), Bit(b, 5), Bit(b, 4), Bit(b, 3), Bit(b, 2), Bit(b, 1), Bit(b, 0))
  }

  function Pack(a: bool, b: bool, c: bool, d: bool, e: bool, f: bool, g: bool, h: bool): bv8 {
    (if a then 0x80 else 0) | (if b then 0x40 else 0) | (if c then 0x20 else 0) | (if d then 0x10 else 0)
    | (if e then 0x08 else 0) | (if f then 0x04 else 0) | (if g then 0x02 else 0) | (if h then 0x01 else 0)
  }

  lemma Unpack(a: bool, b: bool, c: bool, d: bool, e: bool, f: bool, g: bool, h: bool, w: bv8)
    requires w == Pack(a, b, c, d, e, f, g, h)
    ensures a == (w & 0x80 != 0) && b == (w & 0x40 != 0) && c == (w & 0x20 != 0) && d == (w & 0x10 != 0)
    ensures e == (w & 0x08 != 0) && f == (w & 0x04 != 0) && g == (w & 0x02 != 0) && h == (w & 0x01 != 0)
  {
  }

  lemma WordBits(b: nat, w: bv8)
    requires w == Word(b)
    ensures Bit(b, 7) == (w & 0x80 != 0) && Bit(b, 6) == (w & 0x40 != 0)
    ensures Bit(b, 5) == (w & 0x20 != 0) && Bit(b, 4) == (w & 0x10 != 0)
    ensures Bit(b, 3) == (w & 0x08 != 0) && Bit(b, 2) == (w & 0x04 != 0)
    ensures Bit(b, 1) == (w & 0x02 != 0) && Bit(b, 0) == (w & 0x01 != 0)
  {
    Unpack(Bit(b, 7), Bit(b, 6), Bit(b, 5), Bit(b, 4), Bit(b, 3), Bit(b, 2), Bit(b, 1), Bit(b, 0), w);
  }

  lemma {:induction false} SameBits(a: nat, b: nat, n: nat, bound: nat)
    requires forall k :: 0 <= k < n ==> Bit(a, k) == Bit(b, k)
    requires Power(n) == bound && a < bound && b < bound
    ensures a == b
  {
    if n > 0 {
      forall k | 0 <= k < n - 1 ensures Bit(a / 2, k) == Bit(b / 2, k) {
        assert Bit(a, k + 1) == Bit(b, k + 1);
      }
      SameBits(a / 2, b / 2, n - 1, Power(n - 1));
      assert Bit(a, 0) == Bit(b, 0);
    }
  }

  function Power(n: nat): nat {
    if n == 0 then 1 else 2 * Power(n - 1)
  }

  lemma SameByte(a: nat, b: nat)
    requires a < 256 && b < 256 && Word(a) == Word(b)
    ensures a == b
  {
    WordBits(a, Word(a));
    WordBits(b, Word(b));
    SameEight(a, b);
  }

  lemma SameEight(a: nat, b: nat)
    requires a < 256 && b < 256
    requires Bit(a, 7) == Bit(b, 7) && Bit(a, 6) == Bit(b, 6) && Bit(a, 5) == Bit(b, 5) && Bit(a, 4) == Bit(b, 4)
    requires Bit(a, 3) == Bit(b, 3) && Bit(a, 2) == Bit(b, 2) && Bit(a, 1) == Bit(b, 1) && Bit(a, 0) == Bit(b, 0)
    ensures a == b
  {
    forall k | 0 <= k < 8 ensures Bit(a, k) == Bit(b, k) {
      assert k == 0 || k == 1 || k == 2 || k == 3 || k == 4 || k == 5 || k == 6 || k == 7;
    }
    assert Power(4) == 16 && Power(8) == 16 * Power(4);
    SameBits(a, b, 8, 256);
  }
}
