/** The Writer of the storage layer: a growing buffer of root elements. */
module Writers {
  import opened StorageFormat
  import opened Gf2
  import opened Checksum
  import opened Roots

  const DEFAULT_SIZE: nat := 4000

  /** The bytes `write_number` puts in a string: no leading zeros, least significant first. */
  function NumberBytes(n: nat): seq<byte> {
    if n == 0 then [] else [n % 256] + NumberBytes(n / 256)
  }

  lemma {:induction false} NumberBytesMean(n: nat)
    ensures Number(NumberBytes(n), 0) == n
  {
    if n > 0 {
      NumberBytesMean(n / 256);
      assert NumberBytes(n)[1..] == NumberBytes(n / 256);
    }
  }

  lemma NumberBytesShort(n: nat)
    requires n < TWO_64
    ensures |NumberBytes(n)| <= 8
  {
    if |NumberBytes(n)| > 8 {
      HighSurvives(n, 8);
      HighBound(n, 8, 1);
    }
  }

  lemma {:induction false} HighSurvives(n: nat, k: nat)
    requires |NumberBytes(n)| > k
    ensures High(n, k) > 0
  {
    if k > 0 {
      HighSurvives(n / 256, k - 1);
    }
  }

  lemma ShortCode(s: seq<byte>)
    requires |s| + STRING < 128
    ensures TokenBytes(Text(s)) == [|s| + STRING] + s
  {
    assert High(|s| + STRING, 0) == |s| + STRING;
    assert Low(|s| + STRING, 0) == [];
    assert Code(|s| + STRING) == [|s| + STRING];
  }

  lemma CodeLength(n: nat)
    ensures |Code(n)| <= 9
  {
  }

  /** The least number of extra bytes is determined by its two bounds. */
  lemma {:induction false} ExtraIs(n: nat, from: nat, k: nat)
    requires from <= k <= 8 && (k < 8 ==> High(n, k) < Room(k))
    requires forall j :: from <= j < k ==> High(n, j) >= Room(j)
    ensures Extra(n, from) == k
    decreases k - from
  {
    if from < k {
      ExtraIs(n, from + 1, k);
    }
  }

  /** The `k` low bytes of `n`, shifted out one by one. */
  method LowBytes(n: nat, k: nat) returns (s: seq<byte>)
    ensures s == Low(n, k)
  {
    var rest := n;
    s := [];
    for i := 0 to k
      invariant s == Low(n, i) && rest == High(n, i)
    {
      LowStep(n, i);
      s, rest := s + [rest % 256], rest / 256;
    }
  }

  /** The upper byte is not empty: nothing less than eight extra bytes is enough. */
  lemma AllBytes(n: nat)
    requires 0x100_0000_0000_0000 <= n < TWO_64
    ensures Extra(n, 0) == 8
  {
    forall j | 0 <= j < 8 ensures High(n, j) >= Room(j) {
      HighLeast(n, j);
    }
    ExtraIs(n, 0, 8);
  }

  /** 2^56 without its `k` low bytes. */
  function Above(k: nat): nat
    requires k < 8
  {
    [0x100_0000_0000_0000, 0x1_0000_0000_0000, 0x100_0000_0000, 0x1_0000_0000, 0x100_0000, 0x1_0000, 0x100, 1][k]
  }

  lemma {:induction false} HighLeast(n: nat, k: nat)
    requires k < 8 && n >= 0x100_0000_0000_0000
    ensures High(n, k) >= Above(k)
  {
    if k > 0 {
      HighLeast(n, k - 1);
      LowStep(n, k - 1);
    }
  }

  lemma {:induction false} HighBelow(n: nat, k: nat)
    requires k < 8 && n < 0x100_0000_0000_0000
    ensures High(n, k) < Above(k)
  {
    if k > 0 {
      HighBelow(n, k - 1);
      LowStep(n, k - 1);
    }
  }

  /** Shifting out one more byte. */
  lemma Shifted(n: nat, k: nat)
    requires k < 8 && n < 0x100_0000_0000_0000 && Room(k) <= High(n, k)
    ensures k < 7 && Room(k + 1) == Room(k) / 2
    ensures Low(n, k + 1) == Low(n, k) + [High(n, k) % 256] && High(n, k + 1) == High(n, k) / 256
  {
    HighBelow(n, k);
    LowStep(n, k);
  }

  /** The code of a number whose upper byte is empty: bytes are shifted out until the rest
      fits in the first byte, below its leading ones and a zero. */
  method ShiftedCode(number: nat) returns (c: seq<byte>)
    requires number < 0x100_0000_0000_0000
    ensures c == Code(number)
  {
    var low, n, i, max := [], number, 0, 0x80;
    while max <= n
      invariant 0 <= i <= 7 && max == Room(i) && n == High(number, i) && low == Low(number, i)
      invariant forall j :: 0 <= j < i ==> High(number, j) >= Room(j)
      decreases 8 - i
    {
      Shifted(number, i);
      low, n, max := low + [n % 256], n / 256, max / 2;
      i := i + 1;
    }
    ExtraIs(number, 0, i);
    c := [Lead(i) + n] + low;
  }

  /** `_write_number`: the code of a number. */
  method CodeBytes(number: nat) returns (c: seq<byte>)
    requires number < TWO_64
    ensures c == Code(number)
  {
    if number < 0x80 {
      assert Low(number, 0) == [] && High(number, 0) == number;
      c := [number];
    } else if number >= 0x100_0000_0000_0000 {
      AllBytes(number);
      var low := LowBytes(number, 8);
      c := [0xFF] + low;
    } else {
      c := ShiftedCode(number);
    }
  }

  /** The loop of `write_number`. */
  method NumberString(number: nat) returns (s: seq<byte>)
    ensures s == NumberBytes(number)
  {
    var n := number;
    s := [];
    while n != 0
      invariant s + NumberBytes(n) == NumberBytes(number)
      decreases n
    {
      assert s + NumberBytes(n) == s + [n % 256] + NumberBytes(n / 256);
      s, n := s + [n % 256], n / 256;
    }
  }

  /** `memcpy` into a buffer. */
  method Copy(to: array<byte>, at: nat, s: seq<byte>)
    requires at + |s| <= to.Length
    modifies to
    ensures to[..] == old(to[..at]) + s + old(to[at + |s|..])
  {
    ghost var before := to[..];
    for i := 0 to |s|
      invariant to[..at] == before[..at] && to[at + i..] == before[at + i..]
      invariant to[at..at + i] == s[..i]
    {
      to[at + i] := s[i];
      assert to[at..at + i + 1] == to[at..at + i] + [s[i]];
      assert s[..i + 1] == s[..i] + [s[i]];
      assert to[at + i + 1..] == before[at + i..][1..];
    }
    assert s[..|s|] == s;
    assert to[..] == to[..at] + to[at..at + |s|] + to[at + |s|..];
  }

  class Writer {
    var data: array<byte>     // from real_begin to end
    var begin: nat
    var ptr: nat
    var depth: nat

    ghost predicate Valid()
      reads this
    {
      HEADER <= begin <= ptr <= data.Length
    }

    /** The finished root elements. */
    ghost function Finished(): seq<byte>
      requires Valid()
      reads this, data
    {
      data[..begin - HEADER]
    }

    /** The body under construction. */
    ghost function Body(): seq<byte>
      requires Valid()
      reads this, data
    {
      data[begin..ptr]
    }

    constructor ()
      ensures Valid() && fresh(data) && depth == 0 && Finished() == [] && Body() == []
    {
      depth, begin, ptr := 0, HEADER, HEADER;
      data := new byte[DEFAULT_SIZE + HEADER];
    }

    /** `_writer_get_space`: the buffer grows by `size` or by half, whichever is more. */
    method GetSpace(size: nat)
      requires Valid()
      modifies this`data
      ensures Valid() && fresh(data) && data.Length >= old(data.Length) + size
      ensures Finished() == old(Finished()) && Body() == old(Body())
    {
      var newSize := data.Length + size;
      if newSize < data.Length * 3 / 2 {
        newSize := data.Length * 3 / 2;
      }
      var bigger := new byte[newSize];
      Copy(bigger, 0, data[..]);
      assert bigger[..data.Length] == data[..];
      assert bigger[..begin - HEADER] == bigger[..data.Length][..begin - HEADER];
      assert bigger[begin..ptr] == bigger[..data.Length][begin..ptr];
      data := bigger;
    }

    method EnsureSpace(size: nat)
      requires Valid()
      modifies this`data
      ensures Valid() && (data == old(data) || fresh(data)) && ptr + size <= data.Length
      ensures Finished() == old(Finished()) && Body() == old(Body())
    {
      if ptr + size > data.Length {
        GetSpace(ptr + size - data.Length);
      }
    }

    /** Appends bytes for which there is space. */
    method Put(s: seq<byte>)
      requires Valid() && ptr + |s| <= data.Length
      modifies this`ptr, data
      ensures Valid() && ptr == old(ptr) + |s|
      ensures Finished() == old(Finished()) && Body() == old(Body()) + s
    {
      Copy(data, ptr, s);
      ptr := ptr + |s|;
    }

    method WriteArray()
      requires Valid()
      modifies this, data
      ensures Valid() && (data == old(data) || fresh(data)) && begin == old(begin) && depth == old(depth) + 1
      ensures Finished() == old(Finished()) && Body() == old(Body()) + TokenBytes(Open)
    {
      EnsureSpace(1);
      Put([ARRAY_BEGIN]);
      depth := depth + 1;
    }

    method WriteArrayEnd()
      requires Valid() && depth > 0
      modifies this, data
      ensures Valid() && (data == old(data) || fresh(data)) && begin == old(begin) && depth == old(depth) - 1
      ensures Finished() == old(Finished()) && Body() == old(Body()) + TokenBytes(Close)
    {
      EnsureSpace(1);
      depth := depth - 1;
      Put([ARRAY_END]);
    }

    /** `write_string`, and the copying of the string to the place it returns. */
    method WriteString(s: seq<byte>)
      requires Valid() && |s| + STRING < TWO_64
      modifies this, data
      ensures Valid() && (data == old(data) || fresh(data)) && begin == old(begin) && depth == old(depth)
      ensures Finished() == old(Finished()) && Body() == old(Body()) + TokenBytes(Text(s))
    {
      EnsureSpace(|s| + 9);
      if |s| + STRING < 128 {
        ShortCode(s);
        Put([|s| + STRING] + s);
      } else {
        var code := CodeBytes(|s| + STRING);
        CodeLength(|s| + STRING);
        Put(code + s);
      }
    }

    /** `write_number`. */
    method WriteNumber(number: nat)
      requires Valid() && number < TWO_64
      modifies this, data
      ensures Valid() && (data == old(data) || fresh(data)) && begin == old(begin) && depth == old(depth)
      ensures Finished() == old(Finished()) && Body() == old(Body()) + TokenBytes(Text(NumberBytes(number)))
    {
      EnsureSpace(9);
      var s := NumberString(number);
      NumberBytesShort(number);
      ShortCode(s);
      Put([STRING + |s|] + s);
    }

    /** Fills in the header in front of the body. */
    method WriteHeader(length: nat)
      requires Valid()
      modifies data
      ensures Valid() && Body() == old(Body())
      ensures data[..begin] == old(Finished()) + Header(length)
    {
      var h := LowBytes(length, 8);
      Copy(data, begin - HEADER, [LEN_BEGIN] + h + [LEN_END]);
    }

    /** The CRC and the dot behind the body. */
    method WriteTail(checksum: bool)
      requires Valid() && ptr + 6 <= data.Length
      modifies this`ptr, data
      ensures Valid() && ptr <= old(ptr) + 6
      ensures Finished() == old(Finished()) && Body() == old(Body()) + Tail(old(Body()), checksum)
    {
      if checksum {
        var crc := Crc32C(data[begin..ptr], 0);
        var code := LowBytes(crc as int, 4);
        Put([CRC] + code + [DOT]);
      } else {
        Put([DOT]);
      }
    }

    /** Writes the header, and starts a new body behind room for the next one. */
    method Seal()
      requires Valid() && ptr + HEADER <= data.Length
      modifies this`ptr, this`begin, data
      ensures Valid() && Body() == []
      ensures Finished() == old(Finished()) + Sealed(old(Body()))
    {
      WriteHeader(ptr - begin);
      assert data[..ptr] == data[..begin] + data[begin..ptr];
      ptr := ptr + HEADER;
      begin := ptr;
    }

    /** `writer_finish`. */
    method Finish(checksum: bool)
      requires Valid() && depth == 0
      modifies this, data
      ensures Valid() && (data == old(data) || fresh(data)) && depth == 0
      ensures Finished() == old(Finished()) + Root(old(Body()), checksum) && Body() == []
    {
      EnsureSpace(16);
      ghost var body := Body();
      WriteTail(checksum);
      Seal();
    }

    /** `writer_discart`. */
    method Discard()
      requires Valid()
      modifies this`begin, this`ptr
      ensures Valid() && Finished() == [] && Body() == []
    {
      ptr := HEADER;
      begin := ptr;
    }

    /** `writer_ptr` and `writer_length`: what there is to send. */
    method Output() returns (s: seq<byte>)
      requires Valid() && begin == ptr
      ensures s == Finished()
    {
      s := data[..ptr - HEADER];
    }

    /** `writer_direct_write`: adds finished root elements. */
    method DirectWrite(s: seq<byte>)
      requires Valid() && depth == 0 && begin == ptr
      modifies this, data
      ensures Valid() && (data == old(data) || fresh(data)) && begin == ptr && depth == 0
      ensures Finished() == old(Finished()) + s && Body() == []
    {
      EnsureSpace(|s|);
      Copy(data, ptr - HEADER, s);
      ptr := ptr + |s|;
      begin := begin + |s|;
      assert data[..begin - HEADER] == old(Finished()) + s;
    }
  }
}
