/** The byte format of the storage layer: length codes, tokens, elements and forests.

    A string is written as a code of its length plus 16, followed by its bytes.  A code
    is one byte below 128, or a first byte whose number of leading ones is the number of
    extra bytes, its remaining bits the high bits of the number, and the extra bytes the
    low bits, least significant first. */
module StorageFormat {

  type byte = x: int | 0 <= x < 256

  const ARRAY_BEGIN: byte := 1
  const DOT: byte := 2
  const ARRAY_END: byte := 3
  const CRC: byte := 4
  const LEN_BEGIN: byte := 7
  const LEN_END: byte := 9
  const STRING: byte := 16

  const TWO_64 := 0x1_0000_0000_0000_0000

  datatype Option<T> = None | Some(value: T)

  // ----- little-endian numbers

  /** The number whose low bytes are `s`, least significant first, and whose rest is `top`. */
  function Number(s: seq<byte>, top: nat): nat {
    if s == [] then top else s[0] + 256 * Number(s[1..], top)
  }

  /** The `k` low bytes of `n`. */
  function Low(n: nat, k: nat): (s: seq<byte>)
    ensures |s| == k
  {
    if k == 0 then [] else [n % 256] + Low(n / 256, k - 1)
  }

  /** `n` without its `k` low bytes. */
  function High(n: nat, k: nat): nat {
    if k == 0 then n else High(n / 256, k - 1)
  }

  lemma {:induction false} Split(n: nat, k: nat)
    ensures Number(Low(n, k), High(n, k)) == n
  {
    if k > 0 {
      Split(n / 256, k - 1);
      assert Low(n, k)[1..] == Low(n / 256, k - 1);
    }
  }

  lemma {:induction false} LowStep(n: nat, k: nat)
    ensures Low(n, k + 1) == Low(n, k) + [High(n, k) % 256]
    ensures High(n, k + 1) == High(n, k) / 256
  {
    if k > 0 {
      LowStep(n / 256, k - 1);
    }
  }

  // ----- codes

  /** First bytes with `k` extra bytes start with `k` ones. */
  function Lead(k: nat): byte
    requires k <= 8
  {
    [0, 128, 192, 224, 240, 248, 252, 254, 255][k]
  }

  /** The payload of a first byte with `k` leading ones is below `Room(k)`. */
  function Room(k: nat): nat
    requires k <= 8
  {
    [128, 64, 32, 16, 8, 4, 2, 1, 1][k]
  }

  /** The number of extra bytes: the least that leaves a payload that fits. */
  function Extra(n: nat, from: nat): (k: nat)
    requires from <= 8
    ensures from <= k <= 8
    ensures k < 8 ==> High(n, k) < Room(k)
    decreases 8 - from
  {
    if from == 8 || High(n, from) < Room(from) then from else Extra(n, from + 1)
  }

  lemma {:induction false} ExtraLeast(n: nat, from: nat, k: nat)
    requires from <= 8 && from <= k < Extra(n, from)
    ensures High(n, k) >= Room(k)
    decreases 8 - from
  {
    if from < k {
      ExtraLeast(n, from + 1, k);
    }
  }

  lemma {:induction false} HighBound(n: nat, k: nat, bound: nat)
    requires k <= 8 && n < TWO_64 && bound == [TWO_64, 0x100_0000_0000_0000, 0x1_0000_0000_0000, 0x100_0000_0000, 0x1_0000_0000, 0x100_0000, 0x1_0000, 0x100, 1][k]
    ensures High(n, k) < bound
  {
    if k > 0 {
      var wider := [TWO_64, 0x100_0000_0000_0000, 0x1_0000_0000_0000, 0x100_0000_0000, 0x1_0000_0000, 0x100_0000, 0x1_0000, 0x100, 1][k - 1];
      HighBound(n, k - 1, wider);
      LowStep(n, k - 1);
    }
  }

  /** The code of `n`. */
  function Code(n: nat): (c: seq<byte>)
    ensures c != []
  {
    var k := Extra(n, 0);
    [Lead(k) + if k == 8 then 0 else High(n, k)] + Low(n, k)
  }

  /** The number of leading ones of a byte. */
  function Ones(b: byte): (k: nat)
    ensures k <= 8
  {
    if b < 128 then 0 else if b < 192 then 1 else if b < 224 then 2 else if b < 240 then 3
    else if b < 248 then 4 else if b < 252 then 5 else if b < 254 then 6 else if b < 255 then 7 else 8
  }

  function DecodeCode(s: seq<byte>): (r: Option<(nat, seq<byte>)>) {
    if s == [] then None
    else
      var k := Ones(s[0]);
      if |s| < 1 + k then None
      else Some((Number(s[1..1 + k], if k == 8 then 0 else s[0] - Lead(k)), s[1 + k..]))
  }

  /** The leading ones of the first byte count the extra bytes, and decoding inverts coding. */
  lemma CodeRoundTrip(n: nat, rest: seq<byte>)
    requires n < TWO_64
    ensures Ones(Code(n)[0]) == |Code(n)| - 1
    ensures DecodeCode(Code(n) + rest) == Some((n, rest))
  {
    var c := Code(n);
    var k := Extra(n, 0);
    var payload := c[0] - Lead(k);
    if k == 8 {
      HighBound(n, 8, 1);
    }
    Split(n, k);
    LeadCounts(k, payload, Low(n, k), rest);
    assert c == [Lead(k) + payload] + Low(n, k);
  }

  /** The leading ones of a first byte say how many bytes follow. */
  lemma LeadCounts(k: nat, payload: nat, low: seq<byte>, rest: seq<byte>)
    requires k <= 8 && (if k == 8 then payload == 0 else payload < Room(k)) && |low| == k
    ensures Ones(Lead(k) + payload) == k
    ensures DecodeCode([Lead(k) + payload] + low + rest) == Some((Number(low, payload), rest))
  {
    var s := [Lead(k) + payload] + low + rest;
    assert s[1..1 + k] == low;
    assert s[1 + k..] == rest;
  }

  /** Codes of one length are the shortest: a number with fewer extra bytes would not fit. */
  lemma CodeShortest(n: nat, k: nat)
    requires k < |Code(n)| - 1
    ensures High(n, k) >= Room(k)
  {
    ExtraLeast(n, 0, k);
  }

  // ----- tokens

  datatype Token = Open | Close | Text(s: seq<byte>)

  predicate Fits(t: Token) {
    t.Text? ==> |t.s| + STRING < TWO_64
  }

  function TokenBytes(t: Token): (s: seq<byte>)
    ensures s != []
  {
    match t
    case Open => [ARRAY_BEGIN]
    case Close => [ARRAY_END]
    case Text(s) => Code(|s| + STRING) + s
  }

  /** `read_string`: the bytes of a string and what follows it. */
  function ReadText(s: seq<byte>): (r: Option<(seq<byte>, seq<byte>)>)
    ensures r.Some? ==> |r.value.1| < |s|
  {
    if s == [] || s[0] < STRING then None
    else
      match DecodeCode(s)
      case None => None
      case Some((n, rest)) =>
        if n < STRING || n - STRING > |rest| then None
        else Some((rest[..n - STRING], rest[n - STRING..]))
  }

  function ReadToken(s: seq<byte>): (r: Option<(Token, seq<byte>)>)
    ensures r.Some? ==> |r.value.1| < |s|
  {
    if s == [] then None
    else if s[0] == ARRAY_BEGIN then Some((Open, s[1..]))
    else if s[0] == ARRAY_END then Some((Close, s[1..]))
    else
      match ReadText(s)
      case None => None
      case Some((text, rest)) => Some((Text(text), rest))
  }

  lemma CodeFirst(n: nat)
    requires STRING <= n < TWO_64
    ensures Code(n)[0] >= STRING
  {
    if Extra(n, 0) == 0 {
      assert High(n, 0) == n;
    }
  }

  lemma TextRead(c: seq<byte>, s: seq<byte>, rest: seq<byte>)
    requires c != [] && c[0] >= STRING && DecodeCode(c + (s + rest)) == Some((|s| + STRING, s + rest))
    ensures ReadText(c + (s + rest)) == Some((s, rest))
  {
  }

  lemma Assoc<T>(a: seq<T>, b: seq<T>, c: seq<T>)
    ensures a + b + c == a + (b + c)
  {
  }

  lemma TextRoundTrip(s: seq<byte>, c: seq<byte>, rest: seq<byte>)
    requires Fits(Text(s)) && c == Code(|s| + STRING)
    ensures c[0] >= STRING && ReadText(c + (s + rest)) == Some((s, rest))
  {
    CodeFirst(|s| + STRING);
    CodeRoundTrip(|s| + STRING, s + rest);
    TextRead(c, s, rest);
  }

  lemma TextTokenRead(c: seq<byte>, s: seq<byte>, rest: seq<byte>)
    requires c != [] && c[0] >= STRING && ReadText(c + (s + rest)) == Some((s, rest))
    ensures ReadToken(c + s + rest) == Some((Text(s), rest))
  {
    Assoc(c, s, rest);
  }

  /** Reading a token gives back the token that was written, whatever follows. */
  lemma TokenRoundTrip(t: Token, rest: seq<byte>)
    requires Fits(t)
    ensures ReadToken(TokenBytes(t) + rest) == Some((t, rest))
  {
    if t.Text? {
      TextRoundTrip(t.s, Code(|t.s| + STRING), rest);
      TextTokenRead(Code(|t.s| + STRING), t.s, rest);
    } else {
      assert (TokenBytes(t) + rest)[1..] == rest;
    }
  }

  predicate AllFit(ts: seq<Token>) {
    forall t :: t in ts ==> Fits(t)
  }

  /** The pieces written one after the other. */
  function Flat<T>(f: T -> seq<byte>, ts: seq<T>): seq<byte> {
    if ts == [] then [] else f(ts[0]) + Flat(f, ts[1..])
  }

  lemma {:induction false} FlatAppend<T>(f: T -> seq<byte>, ts: seq<T>, us: seq<T>)
    ensures Flat(f, ts + us) == Flat(f, ts) + Flat(f, us)
  {
    if ts == [] {
      assert ts + us == us;
    } else {
      FlatAppend(f, ts[1..], us);
      assert (ts + us)[1..] == ts[1..] + us;
    }
  }

  /** The bytes of a sequence of tokens. */
  function Spell(ts: seq<Token>): seq<byte> {
    Flat(TokenBytes, ts)
  }

  lemma SpellAppend(ts: seq<Token>, us: seq<Token>)
    ensures Spell(ts + us) == Spell(ts) + Spell(us)
  {
    FlatAppend(TokenBytes, ts, us);
  }

  lemma SpellStep(t: Token, ts: seq<Token>)
    ensures Spell([t] + ts) == TokenBytes(t) + Spell(ts)
  {
    SpellAppend([t], ts);
    assert Flat(TokenBytes, [t]) == TokenBytes(t) + Flat(TokenBytes, []);
  }

  /** As many tokens as can be read. */
  function Lex(s: seq<byte>): (r: (seq<Token>, seq<byte>))
    decreases |s|
  {
    match ReadToken(s)
    case None => ([], s)
    case Some((t, rest)) => var (ts, end) := Lex(rest); ([t] + ts, end)
  }

  lemma LexStep(s: seq<byte>, t: Token, ts: seq<Token>, middle: seq<byte>, rest: seq<byte>)
    requires ReadToken(s) == Some((t, middle)) && Lex(middle) == (ts, rest)
    ensures Lex(s) == ([t] + ts, rest)
  {
  }

  lemma LexSpelled(bytes: seq<byte>, t: Token, ts: seq<Token>, spelled: seq<byte>, rest: seq<byte>)
    requires ReadToken(bytes + (spelled + rest)) == Some((t, spelled + rest)) && Lex(spelled + rest) == (ts, rest)
    ensures Lex(bytes + spelled + rest) == ([t] + ts, rest)
  {
    Assoc(bytes, spelled, rest);
    LexStep(bytes + spelled + rest, t, ts, spelled + rest, rest);
  }

  /** Lexing gives back the tokens that were written, up to the first byte that starts none. */
  lemma {:induction false} SpellRoundTrip(ts: seq<Token>, rest: seq<byte>)
    requires AllFit(ts) && ReadToken(rest) == None
    ensures Lex(Spell(ts) + rest) == (ts, rest)
  {
    if ts == [] {
      assert Spell(ts) + rest == rest;
    } else {
      SpellRoundTrip(ts[1..], rest);
      SpellStep(ts[0], ts[1..]);
      TokenRoundTrip(ts[0], Spell(ts[1..]) + rest);
      LexSpelled(TokenBytes(ts[0]), ts[0], ts[1..], Spell(ts[1..]), rest);
      assert ts == [ts[0]] + ts[1..];
    }
  }

  // ----- elements

  datatype Element = Str(bytes: seq<byte>) | Arr(items: seq<Element>)

  function Tokens(e: Element): (ts: seq<Token>)
    ensures ts != []
  {
    match e
    case Str(s) => [Text(s)]
    case Arr(items) => [Open] + ForestTokens(items) + [Close]
  }

  function ForestTokens(es: seq<Element>): seq<Token> {
    if es == [] then [] else Tokens(es[0]) + ForestTokens(es[1..])
  }

  /** Elements up to the end of the enclosing array, and what follows them. */
  function ParseForest(ts: seq<Token>): (r: Option<(seq<Element>, seq<Token>)>)
    ensures r.Some? ==> |r.value.1| <= |ts|
    decreases |ts|
  {
    if ts == [] || ts[0].Close? then Some(([], ts))
    else if ts[0].Text? then
      match ParseForest(ts[1..])
      case None => None
      case Some((es, rest)) => Some(([Str(ts[0].s)] + es, rest))
    else
      match ParseForest(ts[1..])
      case None => None
      case Some((items, rest)) =>
        if rest == [] then None
        else
          match ParseForest(rest[1..])
          case None => None
          case Some((es, end)) => Some(([Arr(items)] + es, end))
  }

  /** Parsing one array in front of other elements. */
  lemma ParseArray(items: seq<Element>, es: seq<Element>, after: seq<Token>, rest: seq<Token>)
    requires ParseForest(ForestTokens(items) + ([Close] + after)) == Some((items, [Close] + after))
    requires ParseForest(after) == Some((es, rest))
    ensures ParseForest(Tokens(Arr(items)) + after) == Some(([Arr(items)] + es, rest))
  {
    var inner := ForestTokens(items) + ([Close] + after);
    assert Tokens(Arr(items)) + after == [Open] + inner;
    ParseOpen(inner, items, [Close] + after, after, es, rest);
  }

  lemma ParseOpen(inner: seq<Token>, items: seq<Element>, close: seq<Token>, after: seq<Token>, es: seq<Element>, rest: seq<Token>)
    requires ParseForest(inner) == Some((items, close)) && close == [Close] + after
    requires ParseForest(after) == Some((es, rest))
    ensures ParseForest([Open] + inner) == Some(([Arr(items)] + es, rest))
  {
    assert ([Open] + inner)[1..] == inner;
    assert close[1..] == after;
  }

  /** Tokens determine the forest: parsing inverts writing up to the enclosing array's end. */
  lemma {:induction false} ForestRoundTrip(es: seq<Element>, rest: seq<Token>)
    requires rest == [] || rest[0].Close?
    ensures ParseForest(ForestTokens(es) + rest) == Some((es, rest))
    decreases es
  {
    if es == [] {
      assert ForestTokens(es) + rest == rest;
    } else {
      var after := ForestTokens(es[1..]) + rest;
      ForestRoundTrip(es[1..], rest);
      assert ForestTokens(es) + rest == Tokens(es[0]) + after;
      assert es == [es[0]] + es[1..];
      match es[0]
      case Arr(items) =>
        ForestRoundTrip(items, [Close] + after);
        ParseArray(items, es[1..], after, rest);
      case Str(s) =>
        assert (Tokens(es[0]) + after)[1..] == after;
    }
  }

  /** Nothing in a forest closes an array that it did not open: after any of its tokens the
      nesting depth is at least 0, and at the end it is 0. */
  function Nesting(ts: seq<Token>): int {
    if ts == [] then 0
    else Nesting(ts[..|ts| - 1]) + match ts[|ts| - 1] case Open => 1 case Close => -1 case Text(_) => 0
  }

  lemma {:induction false} NestingAppend(ts: seq<Token>, us: seq<Token>)
    ensures Nesting(ts + us) == Nesting(ts) + Nesting(us)
  {
    if us == [] {
      assert ts + us == ts;
    } else {
      NestingAppend(ts, us[..|us| - 1]);
      assert (ts + us)[..|ts + us| - 1] == ts + us[..|us| - 1];
    }
  }

  lemma ArrayNesting(inner: seq<Token>, k: nat)
    requires k <= |inner| && Nesting(inner[..k]) >= 0
    ensures Nesting(([Open] + inner + [Close])[..k + 1]) > 0
    ensures Nesting([Open] + inner + [Close]) == Nesting(inner)
  {
    assert ([Open] + inner + [Close])[..k + 1] == [Open] + inner[..k];
    NestingAppend([Open], inner[..k]);
    NestingAppend([Open], inner);
    NestingAppend([Open] + inner, [Close]);
    assert Nesting([Open]) == 1 && Nesting([Close]) == -1;
  }

  lemma {:induction false} ElementNesting(e: Element, k: nat)
    requires k <= |Tokens(e)|
    ensures Nesting(Tokens(e)) == 0
    ensures if 0 < k < |Tokens(e)| then Nesting(Tokens(e)[..k]) > 0 else Nesting(Tokens(e)[..k]) == 0
    decreases e
  {
    var ts := Tokens(e);
    assert ts[..|ts|] == ts;
    match e
    case Arr(items) =>
      var j := if 0 < k < |ts| then k - 1 else 0;
      ForestNesting(items, j);
      ArrayNesting(ForestTokens(items), j);
    case Str(s) =>
      assert ts[..0] == [];
  }

  lemma {:induction false} ForestNesting(es: seq<Element>, k: nat)
    requires k <= |ForestTokens(es)|
    ensures Nesting(ForestTokens(es)[..k]) >= 0 && Nesting(ForestTokens(es)) == 0
    decreases es
  {
    var ts := ForestTokens(es);
    if es != [] {
      var first := Tokens(es[0]);
      var others := ForestTokens(es[1..]);
      ElementNesting(es[0], if k <= |first| then k else 0);
      ForestNesting(es[1..], if k <= |first| then 0 else k - |first|);
      NestingAppend(first, others);
      if k <= |first| {
        assert ts[..k] == first[..k];
      } else {
        assert ts[..k] == first + others[..k - |first|];
        NestingAppend(first, others[..k - |first|]);
      }
    }
  }
}
