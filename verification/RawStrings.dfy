/** `read_string` on machine words.

    The length is decoded into 64 bits, 16 is subtracted, and the sum of the pointer and the
    length is compared with the end of the buffer.  Both wrap.  The bytes of a code may lie
    behind the end, where other memory follows. */
module RawStrings {
  import opened StorageFormat

  /** Addresses of a process are below this. */
  const ADDRESSES: nat := 0x8000_0000_0000_0000

  /** A buffer of `n` bytes can be at address `at`, followed by the bytes `after`. */
  predicate Placed(at: nat, n: nat, after: seq<byte>) {
    16 <= at && at + n + 9 <= ADDRESSES && |after| == 8
  }

  /** The code whose first byte is that of `s`. */
  function LengthCode(s: seq<byte>, after: seq<byte>): nat
    requires s != [] && |after| == 8
  {
    var k := Ones(s[0]);
    Number((s + after)[1..1 + k], if k == 8 then 0 else s[0] - Lead(k))
  }

  /** The least power of 256 above every number of `k` bytes. */
  function Bytes(k: nat): nat
    requires k <= 8
  {
    [1, 0x100, 0x1_0000, 0x100_0000, 0x1_0000_0000, 0x100_0000_0000, 0x1_0000_0000_0000, 0x100_0000_0000_0000, TWO_64][k]
  }

  lemma {:induction false} NumberBound(s: seq<byte>, top: nat)
    requires |s| <= 8
    ensures Number(s, top) < Bytes(|s|) * (top + 1)
  {
    if s != [] {
      NumberBound(s[1..], top);
      var less := Bytes(|s| - 1);
      assert Bytes(|s|) == 256 * less;
      assert Number(s[1..], top) + 1 <= less * (top + 1);
    }
  }

  /** Codes with fewer than eight extra bytes are far from the end of the word. */
  lemma CodeBound(s: seq<byte>, after: seq<byte>)
    requires s != [] && |after| == 8
    ensures LengthCode(s, after) < TWO_64
    ensures Ones(s[0]) < 8 ==> LengthCode(s, after) < 0x100_0000_0000_0000
  {
    var k := Ones(s[0]);
    var top: nat := if k == 8 then 0 else s[0] - Lead(k);
    NumberBound((s + after)[1..1 + k], top);
    assert top + 1 <= [128, 64, 32, 16, 8, 4, 2, 1, 1][k];
  }

  function Wrap(n: nat): nat {
    n % TWO_64
  }

  /** The code less 16, as a word. */
  function LengthWord(s: seq<byte>, after: seq<byte>): nat
    requires s != [] && |after| == 8
  {
    Wrap(LengthCode(s, after) + TWO_64 - STRING)
  }

  /** The sum of pointer and length, before it wraps. */
  function Reach(at: nat, s: seq<byte>, after: seq<byte>): nat
    requires s != [] && |after| == 8
  {
    at + 1 + Ones(s[0]) + LengthWord(s, after)
  }

  /** The tests in front of the decoding. */
  predicate Coded(s: seq<byte>) {
    s != [] && s[0] >= STRING && !(s[0] == 0xFF && |s| < 9)
  }

  /** What a read leaves: a failure, or the pointer behind a string of some length. */
  datatype RawRead = Refused | Accepted(stop: nat, length: nat)

  /** `read_string` with its pointer at `at`, `s` up to the end of the buffer. */
  function RawString(at: nat, s: seq<byte>, after: seq<byte>): RawRead
    requires |after| == 8
  {
    if !Coded(s) || Wrap(Reach(at, s, after)) > at + |s| then Refused
    else Accepted(Wrap(Reach(at, s, after)), LengthWord(s, after))
  }

  /** What it should leave. */
  function Intended(at: nat, s: seq<byte>): RawRead {
    match ReadText(s)
    case None => Refused
    case Some((text, rest)) => Accepted(at + |s| - |rest|, |text|)
  }

  /** The sum of pointer and length wraps, and comes out within the bound. */
  predicate Strays(at: nat, s: seq<byte>, after: seq<byte>)
    requires |after| == 8
  {
    Coded(s) && TWO_64 <= Reach(at, s, after) <= TWO_64 + at + |s|
  }

  lemma WrappedLength(code: nat)
    requires code < TWO_64
    ensures Wrap(code + TWO_64 - STRING) == if code >= STRING then code - STRING else code + TWO_64 - STRING
  {
  }

  lemma WrappedReach(reach: nat)
    requires reach < 2 * TWO_64
    ensures Wrap(reach) == if reach >= TWO_64 then reach - TWO_64 else reach
  {
  }

  /** The words, without the remainders. */
  lemma Words(at: nat, s: seq<byte>, after: seq<byte>)
    requires Placed(at, |s|, after) && s != []
    ensures var code := LengthCode(s, after);
      LengthWord(s, after) == if code >= STRING then code - STRING else code + TWO_64 - STRING
    ensures var reach := Reach(at, s, after);
      Wrap(reach) == if reach >= TWO_64 then reach - TWO_64 else reach
  {
    CodeBound(s, after);
    WrappedLength(LengthCode(s, after));
    WrappedReach(Reach(at, s, after));
  }

  /** Without a wrap the bound is met exactly by the strings that are there. */
  lemma StraightRead(at: nat, s: seq<byte>, after: seq<byte>)
    requires Placed(at, |s|, after) && Coded(s) && Reach(at, s, after) < TWO_64
    ensures RawString(at, s, after) == Intended(at, s)
    ensures ReadText(s).Some? ==>
      var from := 1 + Ones(s[0]);
      var to := from + LengthWord(s, after);
      to <= |s| && ReadText(s) == Some((s[from..to], s[to..]))
  {
    var code, k := LengthCode(s, after), Ones(s[0]);
    CodeBound(s, after);
    Words(at, s, after);
    if |s| >= 1 + k {
      assert (s + after)[1..1 + k] == s[1..1 + k];
      assert DecodeCode(s) == Some((code, s[1 + k..]));
      var length: int := code - STRING;
      if 0 <= length <= |s| - 1 - k {
        assert s[1 + k..][..length] == s[1 + k..1 + k + length] && s[1 + k..][length..] == s[1 + k + length..];
      }
    }
  }

  /** A wrap that comes out within the bound is accepted where there is no such string. */
  lemma StrayRead(at: nat, s: seq<byte>, after: seq<byte>)
    requires Placed(at, |s|, after) && Strays(at, s, after)
    ensures RawString(at, s, after).Accepted? && ReadText(s) == None
  {
    var code, k := LengthCode(s, after), Ones(s[0]);
    CodeBound(s, after);
    Words(at, s, after);
    if |s| >= 1 + k {
      assert (s + after)[1..1 + k] == s[1..1 + k];
      assert DecodeCode(s) == Some((code, s[1 + k..]));
    }
  }

  /** A wrap that stays above the bound is refused.  Its code lies behind the end in part, so
      there is no such string either. */
  lemma FarRead(at: nat, s: seq<byte>, after: seq<byte>)
    requires Placed(at, |s|, after) && Coded(s) && Reach(at, s, after) > TWO_64 + at + |s|
    ensures RawString(at, s, after) == Refused && ReadText(s) == None
  {
    CodeBound(s, after);
    Words(at, s, after);
  }

  /** The word arithmetic reads what is meant, a string or a failure, exactly when it does not
      stray. */
  lemma RawIff(at: nat, s: seq<byte>, after: seq<byte>)
    requires Placed(at, |s|, after)
    ensures RawString(at, s, after) == Intended(at, s) <==> !Strays(at, s, after)
    ensures ReadText(s).Some? ==> !Strays(at, s, after)
  {
    if Coded(s) {
      var reach := Reach(at, s, after);
      if reach < TWO_64 {
        StraightRead(at, s, after);
      } else if reach <= TWO_64 + at + |s| {
        StrayRead(at, s, after);
      } else {
        FarRead(at, s, after);
      }
    }
  }

  /** When the code is in the buffer, in terms of the code: it is below 16, or so long that the
      sum with the pointer passes the end of the word. */
  lemma StraysWhen(at: nat, s: seq<byte>, after: seq<byte>)
    requires Placed(at, |s|, after) && s != [] && s[0] >= STRING && |s| >= 1 + Ones(s[0])
    ensures Strays(at, s, after) <==>
            LengthCode(s, after) < STRING || at + 1 + Ones(s[0]) + LengthCode(s, after) - STRING >= TWO_64
  {
    CodeBound(s, after);
    Words(at, s, after);
  }

  /** Code 5 in two bytes: the pointer moves back, with a length of almost 2^64. */
  lemma ShortCodeStrays(at: nat, rest: seq<byte>, after: seq<byte>)
    requires Placed(at, 2 + |rest|, after)
    ensures RawString(at, [0x80, 5] + rest, after) == Accepted(at + 2 - 11, TWO_64 - 11)
    ensures ReadText([0x80, 5] + rest) == None
  {
    var s: seq<byte> := [0x80, 5] + rest;
    assert (s + after)[1..2] == [5];
    assert Number([5], 0) == 5 + 256 * Number([], 0);
    assert LengthCode(s, after) == 5;
    StraysWhen(at, s, after);
    StrayRead(at, s, after);
  }

  const ONES: seq<byte> := [0xFF, 0xFF, 0xFF, 0xFF, 0xFF, 0xFF, 0xFF, 0xFF]

  lemma OnesCode()
    ensures Number(ONES, 0) == TWO_64 - 1
  {
    var s := ONES;
    assert Number(s[8..], 0) == 0;
    assert s[7..][1..] == s[8..] && s[6..][1..] == s[7..] && s[5..][1..] == s[6..] && s[4..][1..] == s[5..];
    assert s[3..][1..] == s[4..] && s[2..][1..] == s[3..] && s[1..][1..] == s[2..];
    assert Number(s[7..], 0) == 0xFF;
    assert Number(s[6..], 0) == 0xFFFF;
    assert Number(s[5..], 0) == 0xFF_FFFF;
    assert Number(s[4..], 0) == 0xFFFF_FFFF;
    assert Number(s[3..], 0) == 0xFF_FFFF_FFFF;
    assert Number(s[2..], 0) == 0xFFFF_FFFF_FFFF;
    assert Number(s[1..], 0) == 0xFF_FFFF_FFFF_FFFF;
  }

  /** The greatest code: the pointer moves back here too. */
  lemma LongCodeStrays(at: nat, rest: seq<byte>, after: seq<byte>)
    requires Placed(at, 9 + |rest|, after)
    ensures RawString(at, [0xFF] + ONES + rest, after) == Accepted(at + 9 - 17, TWO_64 - 17)
    ensures ReadText([0xFF] + ONES + rest) == None
  {
    var s := [0xFF] + ONES + rest;
    assert (s + after)[1..9] == ONES;
    OnesCode();
    assert LengthCode(s, after) == TWO_64 - 1;
    StraysWhen(at, s, after);
    StrayRead(at, s, after);
  }

  /** Somewhere in a buffer, placed in some way, a read would stray. */
  ghost predicate MayStray(buffer: seq<byte>) {
    exists i: nat, at: nat, after: seq<byte> ::
      i <= |buffer| && Placed(at, |buffer|, after) && Strays(at + i, buffer[i..], after)
  }

  /** Where a string lies in a buffer, if the tests of `read_string` pass. */
  datatype Extent = Nowhere | Astray | Inside(from: nat, to: nat)

  /** The tests, one by one, at `ptr` of a buffer at address `base`. */
  function ExtentAt(base: nat, buffer: seq<byte>, ptr: nat, after: seq<byte>): Extent
    requires ptr <= |buffer| && |after| == 8
  {
    var s, at := buffer[ptr..], base + ptr;
    if !Coded(s) || Wrap(Reach(at, s, after)) > at + |s| then Nowhere
    else if Reach(at, s, after) >= TWO_64 then Astray
    else Inside(ptr + 1 + Ones(s[0]), ptr + 1 + Ones(s[0]) + LengthWord(s, after))
  }

  lemma ExtentInside(base: nat, buffer: seq<byte>, ptr: nat, after: seq<byte>)
    requires ptr <= |buffer| && Placed(base, |buffer|, after) && ExtentAt(base, buffer, ptr, after).Inside?
    ensures var (from, to) := (ExtentAt(base, buffer, ptr, after).from, ExtentAt(base, buffer, ptr, after).to);
      from <= to <= |buffer| && ReadText(buffer[ptr..]) == Some((buffer[from..to], buffer[to..]))
  {
    var s, at := buffer[ptr..], base + ptr;
    StraightRead(at, s, after);
    Words(at, s, after);
    SliceOfSlice(buffer, ptr, 1 + Ones(s[0]), LengthWord(s, after));
  }

  /** What the tests mean. */
  lemma ExtentMeans(base: nat, buffer: seq<byte>, ptr: nat, after: seq<byte>)
    requires ptr <= |buffer| && Placed(base, |buffer|, after)
    ensures var extent := ExtentAt(base, buffer, ptr, after);
      && (extent.Inside? <==> ReadText(buffer[ptr..]).Some?)
      && (extent.Astray? <==> Strays(base + ptr, buffer[ptr..], after))
      && (extent.Astray? ==> MayStray(buffer))
  {
    RawIff(base + ptr, buffer[ptr..], after);
    if ExtentAt(base, buffer, ptr, after).Inside? {
      ExtentInside(base, buffer, ptr, after);
    } else if Coded(buffer[ptr..]) {
      Words(base + ptr, buffer[ptr..], after);
    }
  }

  lemma SliceOfSlice(s: seq<byte>, a: nat, b: nat, n: nat)
    requires a <= |s|
    ensures a + b + n <= |s| ==>
      s[a..][b..b + n] == s[a + b..a + b + n] && s[a..][b + n..] == s[a + b + n..]
  {
  }
}
