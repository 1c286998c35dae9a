/** Laws across the Writer, the Reader and the rescuer. */
module StorageLaws {
  import opened StorageFormat
  import opened Roots
  import opened Readers
  import opened Writers
  import opened Rescuers
  import opened Checksum

  /** `read_number` inverts `write_number` on all of uint64. */
  lemma NumberRoundTrip(n: nat, rest: seq<byte>)
    requires n < TWO_64
    ensures ReadNumberAt(TokenBytes(Text(NumberBytes(n))) + rest) == Some((n, rest))
  {
    var s := NumberBytes(n);
    NumberBytesShort(n);
    NumberBytesMean(n);
    ShortCode(s);
    var all := [|s| + STRING] + s + rest;
    assert all[1..1 + |s|] == s;
    assert all[1 + |s|..] == rest;
  }

  lemma TailIsNoToken(body: seq<byte>, checksum: bool)
    ensures ReadToken(Tail(body, checksum)) == None
  {
  }

  /** A forest written as one root element is read back as the same forest. */
  lemma ForestRoundTripped(es: seq<Element>, checksum: bool, rest: seq<byte>)
    requires ForestSized(es) && |Spell(ForestTokens(es))| + 6 < TWO_64
    ensures
      var body := Spell(ForestTokens(es));
      var (status, buffer, after) := ReadRoot(Root(body, checksum) + rest);
      var (ts, tail) := Lex(buffer);
      && status == Success && after == rest
      && ParseForest(ts) == Some((es, []))
      && Finishes(body, tail, checksum)
  {
    var ts := ForestTokens(es);
    var body := Spell(ts);
    RootRoundTrip(body, checksum, rest);
    ForestFits(es);
    TailIsNoToken(body, checksum);
    SpellRoundTrip(ts, Tail(body, checksum));
    assert ts + [] == ts;
    ForestRoundTrip(es, []);
    TailFinishes(body, checksum);
  }

  // ----- rescuing again

  lemma {:induction false} HighOfNumber(s: seq<byte>, top: nat)
    ensures High(Number(s, top), |s|) == top
  {
    if s != [] {
      HighOfNumber(s[1..], top);
      assert (s[0] + 256 * Number(s[1..], top)) / 256 == Number(s[1..], top);
    }
  }

  /** No code of a number is shorter than the one that is written. */
  lemma WrittenIsShortest(s: seq<byte>)
    requires DecodeCode(s).Some?
    ensures |Code(DecodeCode(s).value.0)| <= |s| - |DecodeCode(s).value.1|
  {
    var k := Ones(s[0]);
    var top: nat := if k == 8 then 0 else s[0] - Lead(k);
    var n := DecodeCode(s).value.0;
    HighOfNumber(s[1..1 + k], top);
    if k < Extra(n, 0) {
      ExtraLeast(n, 0, k);
    }
  }

  /** A token that was read can be written, in no more bytes. */
  lemma TokenFits(s: seq<byte>)
    requires ReadToken(s).Some?
    ensures Fits(ReadToken(s).value.0)
    ensures |TokenBytes(ReadToken(s).value.0)| <= |s| - |ReadToken(s).value.1|
  {
    if ReadToken(s).value.0.Text? {
      TextFits(s);
      WrittenIsShortest(s);
    }
  }

  /** Tokens that were taken once are taken again when they are written anew. */
  lemma {:induction false} TakeAgain(s: seq<byte>, d: nat, rest': seq<byte>)
    requires Take(s, d).Some?
    ensures var (ts, rest) := Take(s, d).value;
      |rest| <= |s| && |Spell(ts)| <= |s| - |rest| && Take(Spell(ts) + rest', d) == Some((ts, rest'))
    decreases |s|
  {
    var (t, after) := ReadToken(s).value;
    TokenFits(s);
    var (ts, rest) := Take(s, d).value;
    if After(t, d) == 0 {
      OneTaken(t, d, rest');
    } else {
      TakeAgain(after, After(t, d), rest');
      MoreTaken(t, d, Take(after, After(t, d)).value.0, rest');
    }
  }

  lemma OneTaken(t: Token, d: nat, rest: seq<byte>)
    requires Fits(t) && !(t.Close? && d == 0) && After(t, d) == 0
    ensures Spell([t]) == TokenBytes(t)
    ensures Take(Spell([t]) + rest, d) == Some(([t], rest))
  {
    assert [] + [t] == [t];
    SpellMore([], t);
    assert Spell([]) == [] && [] + TokenBytes(t) == TokenBytes(t);
    TokensInverse();
    LastToken(ReadToken, TokenBytes, t, rest, d);
  }

  lemma MoreTaken(t: Token, d: nat, ts: seq<Token>, rest: seq<byte>)
    requires Fits(t) && !(t.Close? && d == 0) && After(t, d) > 0
    requires Take(Spell(ts) + rest, After(t, d)) == Some((ts, rest))
    ensures |Spell([t] + ts)| == |TokenBytes(t)| + |Spell(ts)|
    ensures Take(Spell([t] + ts) + rest, d) == Some(([t] + ts, rest))
  {
    SpellStep(t, ts);
    Assoc(TokenBytes(t), Spell(ts), rest);
    TokensInverse();
    LeadsToken(ReadToken, TokenBytes, t, Spell(ts) + rest, d);
  }

  /** A rescued root element is rescued unchanged. */
  lemma RescueRootAgain(buffer: seq<byte>, rest: seq<byte>)
    requires RescueRoot(buffer).Some? && |buffer| + 6 < TWO_64
    ensures var root := RescueRoot(buffer).value;
      ReadRoot(root + rest).0.Success? && ReadRoot(root + rest).2 == rest && RescueRoot(ReadRoot(root + rest).1) == Some(root)
  {
    var (ts, end) := Take(buffer, 0).value;
    var body, checksum := Spell(ts), Ending(buffer[..|buffer| - |end|], end).value;
    TakeAgain(buffer, 0, Tail(body, checksum));
    RootRoundTrip(body, checksum, rest);
    EndingWritten(body, checksum, body + Tail(body, checksum));
  }

  lemma RescueRootOnce(file: seq<byte>, root: seq<byte>, rest: seq<byte>)
    requires ReadRoot(file).0.Success? && RescueRoot(ReadRoot(file).1) == Some(root)
    ensures Rescue(file) == (root + Rescue(ReadRoot(file).2).0, Rescue(ReadRoot(file).2).1)
  {
  }

  lemma RootParts(file: seq<byte>)
    requires ReadRoot(file).0.Success?
    ensures |ReadRoot(file).1| + |ReadRoot(file).2| + HEADER == |file|
  {
  }

  /** Whatever the file, what the rescuer has sent when it ends, fails or strays is a sound
      file: rescuing it again reaches its end, changes nothing, and no read of it can stray. */
  lemma {:induction false} RescueAgain(file: seq<byte>)
    requires |file| < TWO_64
    ensures Rescue(Rescue(file).0) == (Rescue(file).0, true) && !RejectMayStray(Rescue(file).0)
    decreases |file|
  {
    var (status, buffer, rest) := ReadRoot(file);
    if status.Success? && RescueRoot(buffer).Some? {
      var root := RescueRoot(buffer).value;
      RootParts(file);
      RescueAgain(rest);
      RescueRootOnce(file, root, rest);
      RescueRootAgain(buffer, Rescue(rest).0);
      RescueRootOnce(root + Rescue(rest).0, root, Rescue(rest).0);
    }
    NoneRejected(Rescue(file).0);
  }

  // ----- what is sent was sound

  /** The body of the root element is these tokens, and behind it is its right end. */
  ghost predicate Sound(buffer: seq<byte>, ts: seq<Token>, body: seq<byte>, checksum: bool) {
    buffer == body + Tail(body, checksum) && Take(buffer, 0) == Some((ts, Tail(body, checksum)))
  }

  lemma TailIs(body: seq<byte>, rest: seq<byte>, checksum: bool)
    ensures Ending(body, rest) == Some(checksum) <==> rest == Tail(body, checksum)
  {
    TailKind(body, checksum);
    if rest == Tail(body, checksum) {
      TailFinishes(body, checksum);
    }
  }

  lemma Rejoined(s: seq<byte>, front: seq<byte>, rest: seq<byte>)
    requires |rest| <= |s| && front == s[..|s| - |rest|] && s[|s| - |rest|..] == rest
    ensures s == front + rest
  {
  }

  lemma SentParts(buffer: seq<byte>, ts: seq<Token>, body: seq<byte>, rest: seq<byte>)
    requires RescueRoot(buffer).Some? && Take(buffer, 0) == Some((ts, rest))
    requires |rest| <= |buffer| && body == buffer[..|buffer| - |rest|]
    ensures Ending(body, rest).Some? && RescueRoot(buffer).value == Root(Spell(ts), Ending(body, rest).value)
  {
  }

  lemma SentIsSound(buffer: seq<byte>) returns (ts: seq<Token>, body: seq<byte>, checksum: bool)
    requires RescueRoot(buffer).Some?
    ensures Sound(buffer, ts, body, checksum) && RescueRoot(buffer).value == Root(Spell(ts), checksum)
  {
    var rest := Take(buffer, 0).value.1;
    ts := Take(buffer, 0).value.0;
    TakeSuffix(buffer, 0);
    body := buffer[..|buffer| - |rest|];
    SentParts(buffer, ts, body, rest);
    checksum := Ending(body, rest).value;
    TailIs(body, rest, checksum);
    Rejoined(buffer, body, rest);
  }

  lemma SoundIsSent(buffer: seq<byte>, ts: seq<Token>, body: seq<byte>, checksum: bool)
    requires Sound(buffer, ts, body, checksum)
    ensures RescueRoot(buffer) == Some(Root(Spell(ts), checksum))
  {
    var rest := Tail(body, checksum);
    assert buffer[..|buffer| - |rest|] == body;
    TailIs(body, rest, checksum);
  }

  /** A root element is sent exactly when its body is one element and what is behind it is a dot,
      or the right CRC and a dot; and it is sent with the same tokens and the same kind of end. */
  lemma SentIff(buffer: seq<byte>, out: seq<byte>)
    ensures RescueRoot(buffer) == Some(out) <==>
      exists ts, body, checksum :: Sound(buffer, ts, body, checksum) && out == Root(Spell(ts), checksum)
  {
    if RescueRoot(buffer) == Some(out) {
      var ts, body, checksum := SentIsSound(buffer);
    }
    if ts, body, checksum :| Sound(buffer, ts, body, checksum) && out == Root(Spell(ts), checksum) {
      SoundIsSent(buffer, ts, body, checksum);
    }
  }

  /** What is taken leaves an end of the bytes. */
  lemma {:induction false} TakeSuffix(s: seq<byte>, d: nat)
    requires Take(s, d).Some?
    ensures var rest := Take(s, d).value.1; |rest| <= |s| && s[|s| - |rest|..] == rest
    decreases |s|
  {
    var (t, rest) := ReadToken(s).value;
    ReadSuffix(s);
    if After(t, d) != 0 {
      TakeSuffix(rest, After(t, d));
    }
  }

  lemma ReadSuffix(s: seq<byte>)
    requires ReadToken(s).Some?
    ensures var rest := ReadToken(s).value.1; |rest| < |s| && s[|s| - |rest|..] == rest
  {
    if ReadToken(s).value.0.Text? {
      TextSuffix(s);
    }
  }

  lemma TextSuffix(s: seq<byte>)
    requires ReadText(s).Some?
    ensures var rest := ReadText(s).value.1; |rest| < |s| && s[|s| - |rest|..] == rest
  {
    var (n, rest) := DecodeCode(s).value;
    var k := Ones(s[0]);
    assert rest == s[1 + k..];
    assert rest[n - STRING..] == s[1 + k + (n - STRING)..];
  }

  lemma NoHigh(n: nat)
    requires n < 0x1_0000_0000
    ensures High(n, 4) == 0
  {
    assert High(n, 4) == High(n / 256, 3) == High(n / 256 / 256, 2) == High(n / 256 / 256 / 256, 1);
    assert n / 256 < 0x100_0000 && n / 256 / 256 < 0x1_0000 && n / 256 / 256 / 256 < 0x100;
  }

  lemma LowInjective(a: nat, b: nat)
    requires a < 0x1_0000_0000 && b < 0x1_0000_0000 && Low(a, 4) == Low(b, 4)
    ensures a == b
  {
    Split(a, 4);
    Split(b, 4);
    NoHigh(a);
    NoHigh(b);
  }

  lemma BackAgain(x: bv32, n: nat)
    requires n == x as int
    ensures n < 0x1_0000_0000 && n as bv32 == x
  {
  }

  lemma NumbersDiffer(x: bv32, y: bv32)
    requires x != y
    ensures x as int < 0x1_0000_0000 && y as int < 0x1_0000_0000 && x as int != y as int
  {
    BackAgain(x, x as int);
    BackAgain(y, y as int);
  }

  lemma CodesDiffer(s: seq<byte>, t: seq<byte>, m: nat, n: nat)
    requires m == BodyCrc(s) && n == BodyCrc(t) && m < 0x1_0000_0000 && n < 0x1_0000_0000 && m != n
    ensures Tail(s, true) != Tail(t, true)
  {
    if Tail(s, true) == Tail(t, true) {
      assert Tail(s, true)[1..5] == Low(m, 4) && Tail(t, true)[1..5] == Low(n, 4);
      LowInjective(m, n);
    }
  }

  /** Damage within four consecutive bytes of a body that has a CRC is never sent on as if it were
      sound: the rescuer stops there, unless the damaged tokens end somewhere else. */
  lemma DamageStops(body: seq<byte>, damaged: seq<byte>, p: nat)
    requires |damaged| == |body| && damaged != body
    requires forall i :: 0 <= i < |body| && !(p <= i < p + 4) ==> damaged[i] == body[i]
    ensures var buffer := damaged + Tail(body, true);
      RescueRoot(buffer).Some? ==> |Take(buffer, 0).value.1| != |Tail(body, true)|
  {
    var buffer, rest := damaged + Tail(body, true), Tail(body, true);
    if RescueRoot(buffer).Some? && |Take(buffer, 0).value.1| == |rest| {
      TakeSuffix(buffer, 0);
      assert buffer[..|body|] == damaged && buffer[|body|..] == rest;
      DamageSeen(body, damaged, p);
    }
  }

  /** And loading does not call a record sound whose CRC is that of another body. */
  lemma DamageSeen(body: seq<byte>, damaged: seq<byte>, p: nat)
    requires |damaged| == |body| && damaged != body
    requires forall i :: 0 <= i < |body| && !(p <= i < p + 4) ==> damaged[i] == body[i]
    ensures !Finishes(damaged, Tail(body, true), true)
  {
    BurstDetected(0, body, damaged, p);
    NumbersDiffer(Crc(0, body), Crc(0, damaged));
    CodesDiffer(body, damaged, BodyCrc(body), BodyCrc(damaged));
  }
}
