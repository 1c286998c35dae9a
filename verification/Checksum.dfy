/** The CRC of storage.include/crc.c: the Castagnoli polynomial (section 12.1 of RFC 3720),
    most significant bit first, initial value 0 and no final inversion. */
module Checksum {
  import opened StorageFormat
  import opened Gf2
  import opened ByteWords
  import opened CrcTable
  import opened Folds

  // ----- machines that read a sequence

  lemma FoldFour<R, E>(f: (R, E) -> R, x: R, s: seq<E>)
    requires |s| == 4
    ensures Fold(f, x, s) == f(f(f(f(x, s[0]), s[1]), s[2]), s[3])
  {
    FoldOne(f, x, [], s[0]);
    FoldOne(f, x, [] + [s[0]], s[1]);
    FoldOne(f, x, [] + [s[0]] + [s[1]], s[2]);
    FoldOne(f, x, [] + [s[0]] + [s[1]] + [s[2]], s[3]);
    assert s == [] + [s[0]] + [s[1]] + [s[2]] + [s[3]];
  }

  lemma FoldEight<R, E>(f: (R, E) -> R, x: R, s: seq<E>)
    requires |s| == 8
    ensures Fold(f, x, s) == f(f(f(f(f(f(f(f(x, s[0]), s[1]), s[2]), s[3]), s[4]), s[5]), s[6]), s[7])
  {
    FoldFour(f, x, s[..4]);
    FoldFour(f, Fold(f, x, s[..4]), s[4..]);
    FoldConcat(f, x, s[..4], s[4..]);
    assert s == s[..4] + s[4..];
  }

  lemma {:induction false} FoldInjective<R(!new), E(!new)>(f: (R, E) -> R, x: R, y: R, s: seq<E>)
    requires forall x, y, e :: f(x, e) == f(y, e) ==> x == y
    requires Fold(f, x, s) == Fold(f, y, s)
    ensures x == y
  {
    if s != [] {
      FoldInjective(f, x, y, s[..|s| - 1]);
    }
  }

  /** A machine that loses nothing, and tells four elements apart, tells apart any two
      sequences that differ only there. */
  lemma WindowDiffers<R(!new), E(!new)>(f: (R, E) -> R, x: R, head: seq<E>, s: seq<E>, t: seq<E>, tail: seq<E>)
    requires forall x, y, e :: f(x, e) == f(y, e) ==> x == y
    requires forall x, s, t :: |s| == |t| == 4 && Fold(f, x, s) == Fold(f, x, t) ==> s == t
    requires |s| == |t| == 4 && Fold(f, x, head + s + tail) == Fold(f, x, head + t + tail)
    ensures s == t
  {
    FoldConcat(f, x, head + s, tail);
    FoldConcat(f, x, head + t, tail);
    FoldInjective(f, Fold(f, x, head + s), Fold(f, x, head + t), tail);
    FoldConcat(f, x, head, s);
    FoldConcat(f, x, head, t);
  }

  lemma Window<E>(s: seq<E>, t: seq<E>, p: nat, pad: seq<E>)
    requires |s| == |t| && p <= |s| && |pad| == 4
    requires forall i :: 0 <= i < |s| && !(p <= i < p + 4) ==> s[i] == t[i]
    ensures s + pad == (s + pad)[..p] + (s + pad)[p..p + 4] + (s + pad)[p + 4..]
    ensures t + pad == (s + pad)[..p] + (t + pad)[p..p + 4] + (s + pad)[p + 4..]
  {
  }

  lemma BurstDiffers<R(!new), E(!new)>(f: (R, E) -> R, x: R, s: seq<E>, t: seq<E>, p: nat, pad: seq<E>)
    requires forall x, y, e :: f(x, e) == f(y, e) ==> x == y
    requires forall x, s, t :: |s| == |t| == 4 && Fold(f, x, s) == Fold(f, x, t) ==> s == t
    requires |s| == |t| && p <= |s| && |pad| == 4
    requires forall i :: 0 <= i < |s| && !(p <= i < p + 4) ==> s[i] == t[i]
    requires Fold(f, x, s) == Fold(f, x, t)
    ensures s == t
  {
    var u, v := s + pad, t + pad;
    FoldConcat(f, x, s, pad);
    FoldConcat(f, x, t, pad);
    Window(s, t, p, pad);
    WindowDiffers(f, x, u[..p], u[p..p + 4], v[p..p + 4], u[p + 4..]);
    assert u == v;
    assert s == u[..|s|] && t == v[..|s|];
  }

  // ----- the table loop

  /** One turn of the table loop. */
  function Turn(x: bv32, b: byte): bv32 {
    Merge(x, Table(Selected(x, Word(b))))
  }

  /** The register after the bytes of `s`. */
  function Crc(x: bv32, s: seq<byte>): bv32 {
    Fold(Turn, x, s)
  }

  /** The CRC composes over concatenation. */
  lemma CrcConcat(x: bv32, s: seq<byte>, t: seq<byte>)
    ensures Crc(x, s + t) == Crc(Crc(x, s), t)
  {
    FoldConcat(Turn, x, s, t);
  }

  // ----- long division

  /** The remainder after more bits of the dividend. */
  function Remainder(x: bv32, bits: seq<bool>): bv32 {
    Fold(Next, x, bits)
  }

  /** The bits of a byte, most significant first. */
  function ByteBits(b: byte): (bits: seq<bool>)
    ensures |bits| == 8
  {
    [Bit(b, 7), Bit(b, 6), Bit(b, 5), Bit(b, 4), Bit(b, 3), Bit(b, 2), Bit(b, 1), Bit(b, 0)]
  }

  function Bits(s: seq<byte>): seq<bool> {
    if s == [] then [] else Bits(s[..|s| - 1]) + ByteBits(s[|s| - 1])
  }

  lemma TurnDivides(x: bv32, b: byte)
    ensures Turn(x, b) == Remainder(x, ByteBits(b))
  {
    TurnIsByte(x, Word(b));
    WordBits(b, Word(b));
    FoldEight(Next, x, ByteBits(b));
  }

  lemma {:induction false} LoopDivides<R(!new)>(turn: (R, byte) -> R, next: (R, bool) -> R, x: R, s: seq<byte>)
    requires forall x, b :: turn(x, b) == Fold(next, x, ByteBits(b))
    ensures Fold(turn, x, s) == Fold(next, x, Bits(s))
  {
    if s != [] {
      LoopDivides(turn, next, x, s[..|s| - 1]);
      FoldConcat(next, x, Bits(s[..|s| - 1]), ByteBits(s[|s| - 1]));
    }
  }

  /** The table loop computes what division bit by bit computes. */
  lemma CrcDivides(x: bv32, s: seq<byte>)
    ensures Crc(x, s) == Remainder(x, Bits(s))
  {
    forall x, b ensures Turn(x, b) == Fold(Next, x, ByteBits(b)) {
      TurnDivides(x, b);
    }
    LoopDivides(Turn, Next, x, s);
  }

  // ----- polynomials

  /** The sum of two polynomials of one length, highest coefficients first. */
  function Plus(p: seq<bool>, q: seq<bool>): (s: seq<bool>)
    requires |p| == |q|
    ensures |s| == |p|
  {
    seq(|p|, j requires 0 <= j < |p| => p[j] != q[j])
  }

  function Zeros(n: nat): (z: seq<bool>)
    ensures |z| == n
  {
    seq(n, _ => false)
  }

  /** The product of `q` with x^32 + `divisor`. */
  function Multiple(q: seq<bool>, divisor: seq<bool>): (m: seq<bool>)
    requires |divisor| == 32
    ensures |m| == |q| + 32
  {
    if q == [] then Zeros(32)
    else
      var n := |q| - 1;
      Plus(Multiple(q[..n], divisor) + [false], Zeros(n) + (if q[n] then [true] + divisor else Zeros(33)))
  }

  /** What a shift register shows at its top over `n` moves. */
  function Digits<R>(top: R -> bool, up: R -> R, x: R, n: nat): (d: seq<bool>)
    ensures |d| == n
  {
    if n == 0 then [] else [top(x)] + Digits(top, up, up(x), n - 1)
  }

  function Moved<R>(up: R -> R, x: R, n: nat): R {
    if n == 0 then x else Moved(up, up(x), n - 1)
  }

  lemma {:induction false} DigitsLast<R>(top: R -> bool, up: R -> R, x: R, n: nat)
    ensures Digits(top, up, x, n + 1) == Digits(top, up, x, n) + [top(Moved(up, x, n))]
  {
    if n > 0 {
      DigitsLast(top, up, up(x), n - 1);
    }
  }

  lemma {:induction false} DigitsPlus<R(!new)>(top: R -> bool, up: R -> R, add: (R, R) -> R, x: R, y: R, n: nat)
    requires forall x, y :: top(add(x, y)) == (top(x) != top(y)) && up(add(x, y)) == add(up(x), up(y))
    ensures Digits(top, up, add(x, y), n) == Plus(Digits(top, up, x, n), Digits(top, up, y, n))
  {
    if n > 0 {
      DigitsPlus(top, up, add, up(x), up(y), n - 1);
    }
  }

  /** The coefficients of the register, highest first. */
  function Coefficients(x: bv32): (c: seq<bool>)
    ensures |c| == 32
  {
    Digits(Top, Up, x, 32)
  }

  lemma {:induction false} MovedOn<R>(up: R -> R, x: R, n: nat, m: nat)
    ensures Moved(up, x, n + m) == Moved(up, Moved(up, x, n), m)
  {
    if n > 0 {
      MovedOn(up, up(x), n - 1, m);
    }
  }

  lemma MovedEight<R>(up: R -> R, x: R)
    ensures Moved(up, x, 8) == up(up(up(up(up(up(up(up(x))))))))
  {
    MovedOn(up, x, 4, 4);
    MovedFour(up, x);
    MovedFour(up, Moved(up, x, 4));
  }

  lemma MovedOne<R>(up: R -> R, x: R)
    ensures Moved(up, x, 1) == up(x)
  {
    assert Moved(up, up(x), 0) == up(x);
  }

  lemma MovedTwo<R>(up: R -> R, x: R)
    ensures Moved(up, x, 2) == up(up(x))
  {
    MovedOne(up, x);
    MovedOne(up, up(x));
    MovedOn(up, x, 1, 1);
  }

  lemma MovedFour<R>(up: R -> R, x: R)
    ensures Moved(up, x, 4) == up(up(up(up(x))))
  {
    MovedTwo(up, x);
    MovedOn(up, x, 2, 2);
    MovedTwo(up, up(up(x)));
  }

  lemma UpEight(x: bv32, y: bv32)
    requires y == Moved(Up, x, 8)
    ensures y == x << 8
  {
    MovedEight(Up, x);
    Up8(x);
  }

  lemma MovedAway(x: bv32)
    ensures !Top(Moved(Up, x, 32))
  {
    MovedOn(Up, x, 8, 24);
    var x8 := Moved(Up, x, 8);
    MovedOn(Up, x8, 8, 16);
    var x16 := Moved(Up, x8, 8);
    MovedOn(Up, x16, 8, 8);
    var x24 := Moved(Up, x16, 8);
    var x32 := Moved(Up, x24, 8);
    UpEight(x, x8);
    UpEight(x8, x16);
    UpEight(x16, x24);
    UpEight(x24, x32);
    Emptied(x, x8, x16, x24, x32);
  }

  /** Moving the register moves its coefficients. */
  lemma CoefficientsUp(x: bv32)
    ensures Coefficients(x)[0] == Top(x)
    ensures Coefficients(Up(x)) == Coefficients(x)[1..] + [false]
  {
    DigitsLast(Top, Up, Up(x), 31);
    MovedAway(x);
    MovedOn(Up, x, 1, 31);
    MovedOne(Up, x);
  }

  lemma CoefficientsPlus(x: bv32, y: bv32)
    ensures Coefficients(Xor(x, y)) == Plus(Coefficients(x), Coefficients(y))
  {
    forall x, y ensures Top(Xor(x, y)) == (Top(x) != Top(y)) && Up(Xor(x, y)) == Xor(Up(x), Up(y)) {
      TopOfXor(x, y);
      UpXor(x, y);
    }
    DigitsPlus(Top, Up, Xor, x, y, 32);
  }

  /** The coefficients after a step of the division. */
  lemma CoefficientsStep(x: bv32, q: bool)
    ensures Coefficients(x)[0] == Top(x)
    ensures var moved := Coefficients(x)[1..] + [false];
      Coefficients(Divide(x, q)) == if q then Plus(moved, Coefficients(POLY)) else moved
  {
    CoefficientsUp(x);
    DivideForm(x);
    CoefficientsPlus(Up(x), POLY);
  }

  /** The decisions of the division: whether each step subtracts the divisor. */
  function Quotient(bits: seq<bool>): (q: seq<bool>)
    ensures |q| == |bits|
  {
    if bits == [] then []
    else
      var front := bits[..|bits| - 1];
      Quotient(front) + [Top(Remainder(0, front)) != bits[|bits| - 1]]
  }

  /** One step of the division, on coefficients. */
  lemma DivisionStep(front: seq<bool>, b: bool, c: seq<bool>, c': seq<bool>, q: bool, divisor: seq<bool>)
    requires |c| == |divisor| == 32 && q == (c[0] != b)
    requires c' == if q then Plus(c[1..] + [false], divisor) else c[1..] + [false]
    ensures Plus(front + c + [false], Zeros(|front|) + (if q then [true] + divisor else Zeros(33))) == front + [b] + c'
  {
  }

  lemma {:induction false} NoDigits<R>(top: R -> bool, up: R -> R, x: R, n: nat)
    requires !top(x) && up(x) == x
    ensures Digits(top, up, x, n) == Zeros(n)
  {
    if n > 0 {
      NoDigits(top, up, x, n - 1);
    }
  }

  lemma MultipleStep(front: seq<bool>, b: bool, x: bv32, q: seq<bool>)
    requires Multiple(q, Coefficients(POLY)) == front + Coefficients(x) && |q| == |front|
    ensures Multiple(q + [Top(x) != b], Coefficients(POLY)) == front + [b] + Coefficients(Next(x, b))
  {
    var more := q + [Top(x) != b];
    assert more[..|q|] == q;
    CoefficientsStep(x, Top(x) != b);
    DivisionStep(front, b, Coefficients(x), Coefficients(Next(x, b)), Top(x) != b, Coefficients(POLY));
  }

  lemma QuotientStep(front: seq<bool>, b: bool)
    ensures Quotient(front + [b]) == Quotient(front) + [Top(Remainder(0, front)) != b]
    ensures Remainder(0, front + [b]) == Next(Remainder(0, front), b)
  {
    assert (front + [b])[..|front|] == front;
  }

  lemma NothingDivides()
    ensures Multiple(Quotient([]), Coefficients(POLY)) == [] + Coefficients(Remainder(0, []))
  {
    NoDigits(Top, Up, 0, 32);
  }

  /** The CRC is a remainder: the message times x^32, plus the remainder, is a multiple of
      the divisor.  As coefficients, that sum is the message followed by the remainder. */
  lemma {:induction false} RemainderDivides(bits: seq<bool>)
    ensures Multiple(Quotient(bits), Coefficients(POLY)) == bits + Coefficients(Remainder(0, bits))
  {
    if bits == [] {
      NothingDivides();
    } else {
      var front, b := bits[..|bits| - 1], bits[|bits| - 1];
      assert bits == front + [b];
      RemainderDivides(front);
      QuotientStep(front, b);
      MultipleStep(front, b, Remainder(0, front), Quotient(front));
    }
  }

  // ----- bursts

  lemma TurnInjective(x: bv32, y: bv32, b: byte)
    requires Turn(x, b) == Turn(y, b)
    ensures x == y
  {
    TurnIsByte(x, Word(b));
    TurnIsByte(y, Word(b));
    NextByteInjective(x, y, Word(b));
  }

  lemma FourDiffer(x: bv32, s: seq<byte>, t: seq<byte>)
    requires |s| == |t| == 4 && Crc(x, s) == Crc(x, t)
    ensures s == t
  {
    FoldFour(Turn, x, s);
    FoldFour(Turn, x, t);
    TurnsDiffer(x, s[0], s[1], s[2], s[3], t[0], t[1], t[2], t[3]);
    assert s == [s[0], s[1], s[2], s[3]] == t;
  }

  lemma TurnsAreBytes(x: bv32, a: byte, b: byte, c: byte, d: byte)
    ensures Turn(Turn(Turn(Turn(x, a), b), c), d)
         == NextByte(NextByte(NextByte(NextByte(x, Word(a)), Word(b)), Word(c)), Word(d))
  {
    var x1 := Turn(x, a);
    var x2 := Turn(x1, b);
    var x3 := Turn(x2, c);
    TurnIsByte(x, Word(a));
    TurnIsByte(x1, Word(b));
    TurnIsByte(x2, Word(c));
    TurnIsByte(x3, Word(d));
  }

  lemma TurnsDiffer(x: bv32, a: byte, b: byte, c: byte, d: byte, a': byte, b': byte, c': byte, d': byte)
    requires Turn(Turn(Turn(Turn(x, a), b), c), d) == Turn(Turn(Turn(Turn(x, a'), b'), c'), d')
    ensures a == a' && b == b' && c == c' && d == d'
  {
    TurnsAreBytes(x, a, b, c, d);
    TurnsAreBytes(x, a', b', c', d');
    FourInjective(x, Word(a), Word(b), Word(c), Word(d), Word(a'), Word(b'), Word(c'), Word(d'));
    SameByte(a, a');
    SameByte(b, b');
    SameByte(c, c');
    SameByte(d, d');
  }

  /** Two messages of one length that differ only within four consecutive bytes have
      different codes. */
  lemma BurstDetected(x: bv32, s: seq<byte>, t: seq<byte>, p: nat)
    requires |s| == |t| && s != t
    requires forall i :: 0 <= i < |s| && !(p <= i < p + 4) ==> s[i] == t[i]
    ensures Crc(x, s) != Crc(x, t)
  {
    if Crc(x, s) == Crc(x, t) {
      forall x, y, b | Turn(x, b) == Turn(y, b) ensures x == y {
        TurnInjective(x, y, b);
      }
      forall x, s, t | |s| == |t| == 4 && Fold(Turn, x, s) == Fold(Turn, x, t) ensures s == t {
        FourDiffer(x, s, t);
      }
      BurstDiffers(Turn, x, s, t, if p <= |s| then p else |s|, [0, 0, 0, 0]);
    }
  }

  // ----- the loop

  lemma FoldNext<R, E>(f: (R, E) -> R, x: R, s: seq<E>, i: nat)
    requires i < |s|
    ensures Fold(f, x, s[..i + 1]) == f(Fold(f, x, s[..i]), s[i])
  {
    FoldOne(f, x, s[..i], s[i]);
    assert s[..i + 1] == s[..i] + [s[i]];
  }

  /** `crc32_c`. */
  method Crc32C(s: seq<byte>, from: bv32) returns (x: bv32)
    ensures x == Crc(from, s)
  {
    x := from;
    var i := 0;
    while i < |s|
      invariant 0 <= i <= |s|
      invariant x == Fold(Turn, from, s[..i])
    {
      FoldNext(Turn, from, s, i);
      x := Turn(x, s[i]);
      i := i + 1;
    }
    assert s[..i] == s;
  }
}
