/** The Reader of the storage layer, over a file of bytes. */
module Readers {
  import opened StorageFormat
  import opened Gf2
  import opened Checksum
  import opened Roots
  import opened RawStrings

  /** What `reader_next` announces. */
  datatype Kind = IsOpen | IsClose | IsText | IsCrc | IsDot | IsError

  function KindOf(s: seq<byte>): Kind {
    if s == [] then IsError
    else if s[0] == ARRAY_BEGIN then IsOpen
    else if s[0] == ARRAY_END then IsClose
    else if s[0] == CRC then IsCrc
    else if s[0] == DOT then IsDot
    else if s[0] >= STRING then IsText
    else IsError
  }

  /** `read_number`: the number in a string of at most eight bytes. */
  function ReadNumberAt(s: seq<byte>): (r: Option<(nat, seq<byte>)>)
    ensures r.Some? ==> |r.value.1| < |s|
  {
    if s == [] || s[0] < STRING || s[0] > STRING + 8 || |s| < 1 + s[0] - STRING then None
    else Some((Number(s[1..1 + s[0] - STRING], 0), s[1 + s[0] - STRING..]))
  }

  /** Bytes taken most significant first, behind the bits already in `top`. */
  method Gather(s: seq<byte>, top: nat) returns (n: nat)
    ensures n == Number(s, top)
  {
    n := top;
    var i := |s|;
    assert s[i..] == [];
    while i > 0
      invariant 0 <= i <= |s| && n == Number(s[i..], top)
    {
      i := i - 1;
      assert s[i..][1..] == s[i + 1..];
      n := n * 256 + s[i];
    }
    assert s[0..] == s;
  }

  function Scale(l: nat): nat
    requires l < 8
  {
    [1, 2, 4, 8, 16, 32, 64, 128][l]
  }

  /** The top bit of a byte moved up `l` times is its next leading one, if it has more than `l`. */
  lemma TopBit(first: byte, l: nat)
    requires l < 8 && l <= Ones(first)
    ensures first * Scale(l) / 128 % 2 == 1 <==> l < Ones(first)
  {
    match l
    case 0 =>
    case 1 =>
    case 2 =>
    case 3 =>
    case 4 =>
    case 5 =>
    case 6 =>
    case _ =>
  }

  /** The number of leading ones, counted by shifting. */
  method CountOnes(first: byte) returns (l: nat)
    requires 0x80 <= first < 0xFF
    ensures l == Ones(first)
  {
    var i: nat := first;
    l := 0;
    TopBit(first, 0);
    while i / 128 % 2 == 1
      invariant l <= Ones(first) < 8 && i == first * Scale(l)
      invariant i / 128 % 2 == 1 <==> l < Ones(first)
      decreases 8 - l
    {
      l, i := l + 1, i * 2;
      TopBit(first, l);
    }
  }

  /** The CRC of a body, as a number. */
  method BodyCode(body: seq<byte>) returns (crc: nat)
    ensures crc == BodyCrc(body) && crc < 0x1_0000_0000
  {
    var x := Crc32C(body, 0);
    crc := x as int;
  }

  class Reader {
    const file: seq<byte>
    var pos: nat              // how much of the file has been read
    var buffer: seq<byte>     // the current root element behind its header
    var ptr: nat
    var depth: nat
    var base: nat             // the address of the buffer,
    var after: seq<byte>      // what follows it in memory,
    var strayed: bool         // and whether the pointer has left it, behind a wrapped sum

    ghost predicate Valid()
      reads this
    {
      pos <= |file| && |file| + 32 <= ADDRESSES && ptr <= |buffer| && Placed(base, |buffer|, after)
    }

    /** What is left of the current root element. */
    ghost function Rest(): seq<byte>
      requires Valid()
      reads this
    {
      buffer[ptr..]
    }

    constructor (content: seq<byte>)
      requires |content| + 32 <= ADDRESSES
      ensures Valid() && file == content && pos == 0 && depth == 0 && !strayed
    {
      file, pos, buffer, ptr, depth := content, 0, [], 0, 0;
      base, after, strayed := 16, seq(8, _ => 0), false;
    }

    /** A new buffer, wherever there is room for it. */
    method Place(body: seq<byte>)
      requires |body| + 32 <= ADDRESSES
      modifies this`buffer, this`ptr, this`depth, this`base, this`after, this`strayed
      ensures buffer == body && ptr == 0 && depth == 0 && !strayed && Placed(base, |body|, after)
    {
      assert Placed(16, |body|, seq(8, _ => 0));
      var at: nat, memory: seq<byte> :| Placed(at, |body|, memory);
      buffer, ptr, depth, base, after, strayed := body, 0, 0, at, memory, false;
    }

    /** `file_reader_read`. */
    method ReadFile(length: nat) returns (status: Status, output: seq<byte>)
      requires Valid()
      modifies this`pos
      ensures Valid() && status == ReadStatus(|file| - old(pos), length)
      ensures pos == old(pos) + |output|
      ensures output == if status.Success? then file[old(pos)..][..length] else file[old(pos)..]
    {
      var read := if length <= |file| - pos then length else |file| - pos;
      output := file[pos..pos + read];
      pos := pos + read;
      if read == length {
        status := Success;
      } else if read == 0 {
        status := EndOfFile;
      } else {
        status := Fail;
      }
    }

    /** `reader_begin`. */
    method Begin() returns (status: Status)
      requires Valid()
      modifies this
      ensures Valid() && status == ReadRoot(file[old(pos)..]).0
      ensures status.Success? ==> Rest() == buffer == ReadRoot(file[old(pos)..]).1 && depth == 0
      ensures status.Success? ==> file[pos..] == ReadRoot(file[old(pos)..]).2 && ptr == 0
      ensures strayed ==> old(strayed) && !status.Success?
    {
      var header, body;
      ghost var left := file[pos..];
      status, header := ReadFile(HEADER);
      if !status.Success? { return; }
      if header[0] != LEN_BEGIN || header[9] != LEN_END { return Fail; }
      var length := Gather(header[1..9], 0);
      assert header == left[..HEADER] && file[pos..] == left[HEADER..];
      status, body := ReadFile(length);
      if !status.Success? { return Fail; }
      Place(body);
      assert buffer == left[HEADER..HEADER + length];
    }

    /** `reader_next`. */
    method Next() returns (kind: Kind)
      requires Valid()
      ensures kind == KindOf(Rest())
    {
      if ptr >= |buffer| { return IsError; }
      var c := buffer[ptr];
      if c == ARRAY_BEGIN { return IsOpen; }
      if c == ARRAY_END { return IsClose; }
      if c == CRC { return IsCrc; }
      if c == DOT { return IsDot; }
      return if c >= STRING then IsText else IsError;
    }

    /** `reader_set_pos`. */
    method SetPos(at: nat)
      requires Valid() && at <= |buffer|
      modifies this`ptr, this`strayed
      ensures Valid() && ptr == at && !strayed
    {
      ptr, strayed := at, false;
    }

    method ReadArray() returns (ok: bool)
      requires Valid()
      modifies this`ptr, this`depth
      ensures Valid() && (ok <==> KindOf(old(Rest())).IsOpen?)
      ensures ok ==> Rest() == old(Rest())[1..] && depth == old(depth) + 1
    {
      if ptr + 1 > |buffer| { return false; }
      depth := depth + 1;
      ok := buffer[ptr] == ARRAY_BEGIN;
      ptr := ptr + 1;
    }

    method ReadArrayEnd() returns (ok: bool)
      requires Valid() && depth > 0
      modifies this`ptr, this`depth
      ensures Valid() && (ok <==> KindOf(old(Rest())).IsClose?)
      ensures ok ==> Rest() == old(Rest())[1..] && depth == old(depth) - 1
    {
      if ptr + 1 > |buffer| { return false; }
      depth := depth - 1;
      ok := buffer[ptr] == ARRAY_END;
      ptr := ptr + 1;
    }

    /** The code at the front of the buffer and its number of extra bytes, which may lie behind
        the buffer. */
    method ReadCode() returns (code: nat, l: nat)
      requires Valid() && ptr < |buffer|
      ensures code == LengthCode(Rest(), after) && l == Ones(Rest()[0])
    {
      var first := buffer[ptr];
      var top := first;
      l := 0;
      if first == 0xFF {
        l, top := 8, 0;
      } else if first >= 0x80 {
        l := CountOnes(first);
        top := first - Lead(l);
      }
      var memory := buffer + after;
      assert memory[ptr + 1..ptr + 1 + l] == (Rest() + after)[1..1 + l];
      code := Gather(memory[ptr + 1..ptr + 1 + l], top);
    }

    /** The tests: where the string lies. */
    method FindString() returns (extent: Extent)
      requires Valid()
      ensures extent == ExtentAt(base, buffer, ptr, after)
    {
      if ptr + 1 > |buffer| { return Nowhere; }
      if buffer[ptr] < STRING { return Nowhere; }
      if buffer[ptr] == 0xFF && ptr + 1 + 8 > |buffer| { return Nowhere; }
      var code, l := ReadCode();
      var length := Wrap(code + TWO_64 - STRING);
      var reach := base + ptr + 1 + l + length;
      if Wrap(reach) > base + |buffer| { return Nowhere; }
      extent := if reach >= TWO_64 then Astray else Inside(ptr + 1 + l, ptr + 1 + l + length);
    }

    /** `read_string`.  The sum of pointer and length is compared with the end; when it has
        wrapped, the pointer leaves the string. */
    method ReadString() returns (ok: bool, s: seq<byte>)
      requires Valid() && !strayed
      modifies this`ptr, this`strayed
      ensures Valid() && (ok <==> ReadText(old(Rest())).Some?)
      ensures ok ==> s == ReadText(old(Rest())).value.0 && Rest() == ReadText(old(Rest())).value.1
      ensures strayed <==> Strays(base + old(ptr), old(Rest()), after)
      ensures strayed ==> !ok && MayStray(buffer)
    {
      s := [];
      var extent := FindString();
      ExtentMeans(base, buffer, ptr, after);
      strayed, ok := extent.Astray?, extent.Inside?;
      if ok {
        ExtentInside(base, buffer, ptr, after);
        s := buffer[extent.from..extent.to];
        ptr := extent.to;
      }
    }

    method ReadNumber() returns (ok: bool, n: nat)
      requires Valid()
      modifies this`ptr
      ensures Valid() && (ok <==> ReadNumberAt(old(Rest())).Some?)
      ensures ok ==> n == ReadNumberAt(old(Rest())).value.0 && Rest() == ReadNumberAt(old(Rest())).value.1
    {
      n := 0;
      if ptr + 1 > |buffer| { return false, n; }
      ghost var s := Rest();
      var l: int := buffer[ptr];
      ptr := ptr + 1;
      if l < STRING || l > STRING + 8 { return false, n; }
      l := l - STRING;
      if ptr + l > |buffer| { return false, n; }
      assert s[1..1 + l] == buffer[ptr..ptr + l];
      n := Gather(buffer[ptr..ptr + l], 0);
      ptr := ptr + l;
      ok := true;
    }

    /** The end of a body with a CRC. */
    method FinishCrc() returns (ok: bool)
      requires Valid() && ptr < |buffer| && buffer[ptr] == CRC
      modifies this`ptr
      ensures Valid()
      ensures ok <==> old(Rest()) == [CRC] + Low(BodyCrc(old(buffer[..ptr])), 4) + [DOT]
    {
      var crc := BodyCode(buffer[..ptr]);
      CrcEnd(buffer, ptr, crc);
      if ptr + 6 > |buffer| { return false; }
      var stored := Gather(buffer[ptr + 1..ptr + 5], 0);
      ok := ptr + 6 == |buffer| && buffer[ptr + 5] == DOT && crc == stored;
      ptr := ptr + 6;
    }

    /** `reader_finish`. */
    method Finish(checksum: bool) returns (ok: bool)
      requires Valid() && depth == 0
      modifies this`ptr
      ensures Valid() && (ok <==> Finishes(old(buffer[..ptr]), old(Rest()), checksum))
    {
      if ptr + 1 > |buffer| { return false; }
      if buffer[ptr] == CRC {
        ok := FinishCrc();
        return;
      }
      ptr := ptr + 1;
      return ptr == |buffer| && buffer[ptr - 1] == DOT && !checksum;
    }

    /** `reader_skip`: to the end of the enclosing array, which is not read. */
    method SkipRest() returns (ok: bool)
      requires Valid() && !strayed
      modifies this`ptr, this`depth, this`strayed
      ensures strayed ==> !ok && MayStray(buffer)
      ensures Valid() && (ok <==> Skip(old(Rest()), 0).Some?)
      ensures ok ==> Rest() == Skip(old(Rest()), 0).value && depth == old(depth)
    {
      var d: nat := 0;
      ghost var target := Skip(Rest(), 0);
      while true
        invariant Valid() && !strayed && Skip(Rest(), d) == target && depth == old(depth) + d
        decreases |buffer| - ptr
      {
        SkipKinds(Rest(), d);
        var kind := Next();
        if kind.IsClose? && d == 0 { return true; }
        ok := SkipOne(kind);
        if !ok { return; }
        d := if kind.IsOpen? then d + 1 else if kind.IsClose? then d - 1 else d;
      }
    }

    /** Reads one token below the array in which skipping began. */
    method SkipOne(kind: Kind) returns (ok: bool)
      requires Valid() && !strayed && kind == KindOf(Rest()) && (kind.IsClose? ==> depth > 0)
      modifies this`ptr, this`depth, this`strayed
      ensures strayed ==> !ok && MayStray(buffer)
      ensures Valid()
      ensures ok <==> kind.IsOpen? || kind.IsClose? || (kind.IsText? && ReadText(old(Rest())).Some?)
      ensures ok && kind.IsText? ==> Rest() == ReadText(old(Rest())).value.1 && depth == old(depth)
      ensures ok && kind.IsOpen? ==> Rest() == old(Rest())[1..] && depth == old(depth) + 1
      ensures ok && kind.IsClose? ==> Rest() == old(Rest())[1..] && depth == old(depth) - 1
    {
      match kind
      case IsOpen => ok := ReadArray();
      case IsClose => ok := ReadArrayEnd();
      case IsText =>
        var s;
        ok, s := ReadString();
      case _ => ok := false;
    }
  }

  lemma CrcTail(rest: seq<byte>, code: seq<byte>)
    requires |code| == 4
    ensures rest == [CRC] + code + [DOT] <==> |rest| == 6 && rest[0] == CRC && rest[1..5] == code && rest[5] == DOT
  {
    if |rest| == 6 && rest[1..5] == code {
      assert rest == [rest[0]] + rest[1..5] + [rest[5]];
    }
  }

  /** What is checked of a stored CRC says that it is the right one. */
  lemma CrcEnd(buffer: seq<byte>, ptr: nat, crc: nat)
    requires ptr < |buffer| && buffer[ptr] == CRC && crc < 0x1_0000_0000
    ensures buffer[ptr..] == [CRC] + Low(crc, 4) + [DOT] <==>
      ptr + 6 == |buffer| && buffer[ptr + 5] == DOT && crc == Number(buffer[ptr + 1..ptr + 5], 0)
  {
    var rest := buffer[ptr..];
    if |rest| >= 6 {
      assert rest[1..5] == buffer[ptr + 1..ptr + 5];
      StoredCrc(crc, rest[1..5]);
      CrcTail(rest, Low(crc, 4));
    }
  }

  lemma SkipTextKind(s: seq<byte>, d: nat)
    requires KindOf(s).IsText?
    ensures Skip(s, d) == if ReadText(s).None? then None else Skip(ReadText(s).value.1, d)
  {
  }

  /** One turn of skipping, by what comes next. */
  lemma SkipKinds(s: seq<byte>, d: nat)
    ensures KindOf(s).IsOpen? ==> Skip(s, d) == Skip(s[1..], d + 1)
    ensures KindOf(s).IsClose? ==> Skip(s, d) == if d == 0 then Some(s) else Skip(s[1..], d - 1)
    ensures KindOf(s).IsText? && ReadText(s).Some? ==> Skip(s, d) == Skip(ReadText(s).value.1, d)
    ensures KindOf(s).IsText? && ReadText(s).None? ==> Skip(s, d) == None
    ensures KindOf(s).IsCrc? || KindOf(s).IsDot? || KindOf(s).IsError? ==> Skip(s, d) == None
  {
    if KindOf(s).IsText? {
      SkipTextKind(s, d);
    } else if KindOf(s).IsOpen? {
      assert ReadToken(s) == Some((Open, s[1..]));
    } else if KindOf(s).IsClose? {
      assert ReadToken(s) == Some((Close, s[1..]));
    } else {
      assert ReadToken(s) == None;
    }
  }

  /** Four bytes hold a number below 2^32 exactly when they are its low bytes. */
  lemma StoredCrc(n: nat, s: seq<byte>)
    requires |s| == 4 && n < 0x1_0000_0000
    ensures n == Number(s, 0) <==> s == Low(n, 4)
  {
    Split(n, 4);
    LowStep(n, 3);
    LowStep(n, 2);
    LowStep(n, 1);
    LowStep(n, 0);
    LowOfNumber(s);
  }

  lemma LowFirst(x: byte, n: nat, k: nat)
    ensures Low(x + 256 * n, k + 1) == [x] + Low(n, k)
  {
    assert (x + 256 * n) / 256 == n;
  }

  lemma {:induction false} LowOfNumber(s: seq<byte>)
    ensures Low(Number(s, 0), |s|) == s
  {
    if s != [] {
      LowOfNumber(s[1..]);
      LowFirst(s[0], Number(s[1..], 0), |s| - 1);
      assert s == [s[0]] + s[1..];
    }
  }
}
