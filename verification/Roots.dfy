/** Root elements: a header with the length, a body of tokens, an optional CRC and a dot. */
module Roots {
  import opened StorageFormat
  import opened Gf2
  import opened Checksum

  const HEADER: nat := 10

  /** The CRC of a body as a number. */
  function BodyCrc(body: seq<byte>): nat {
    Crc(0, body) as int
  }

  function Header(length: nat): (h: seq<byte>)
    ensures |h| == HEADER
  {
    [LEN_BEGIN] + Low(length, 8) + [LEN_END]
  }

  function Tail(body: seq<byte>, checksum: bool): (t: seq<byte>)
    ensures |t| == if checksum then 6 else 1
  {
    if checksum then [CRC] + Low(BodyCrc(body), 4) + [DOT] else [DOT]
  }

  /** Bytes behind a header with their length. */
  function Sealed(s: seq<byte>): (r: seq<byte>)
    ensures |r| == HEADER + |s|
  {
    Header(|s|) + s
  }

  /** A whole root element. */
  function Root(body: seq<byte>, checksum: bool): seq<byte> {
    Sealed(body + Tail(body, checksum))
  }

  /** `read_header`. */
  function ReadHeader(h: seq<byte>): Option<nat> {
    if |h| == HEADER && h[0] == LEN_BEGIN && h[9] == LEN_END then Some(Number(h[1..9], 0)) else None
  }

  lemma HeaderRoundTrip(length: nat)
    requires length < TWO_64
    ensures ReadHeader(Header(length)) == Some(length)
  {
    Split(length, 8);
    HighBound(length, 8, 1);
    assert Header(length)[1..9] == Low(length, 8);
  }

  /** The condition under which `reader_finish` succeeds at the end of a body. */
  predicate Finishes(body: seq<byte>, rest: seq<byte>, checksum: bool) {
    (rest == [DOT] && !checksum) || rest == [CRC] + Low(BodyCrc(body), 4) + [DOT]
  }

  /** What a read of `length` bytes gives: all of them, or the end of the file when there is
      none, or a failure. */
  datatype Status = Success | EndOfFile | Fail

  function ReadStatus(available: nat, length: nat): Status {
    if length <= available then Success else if available == 0 then EndOfFile else Fail
  }

  /** `reader_begin`: the root element at the start of a file, as its body with its tail, and
      the rest of the file. */
  function ReadRoot(file: seq<byte>): (r: (Status, seq<byte>, seq<byte>))
    ensures r.0.Success? ==> |r.2| < |file|
  {
    if |file| < HEADER then (ReadStatus(|file|, HEADER), [], [])
    else
      match ReadHeader(file[..HEADER])
      case None => (Fail, [], file[HEADER..])
      case Some(length) =>
        if length > |file| - HEADER then (Fail, [], [])
        else (Success, file[HEADER..HEADER + length], file[HEADER + length..])
  }

  /** A header in front of its bytes. */
  lemma HeaderRead(s: seq<byte>, rest: seq<byte>)
    requires |s| < TWO_64
    ensures ReadRoot(Sealed(s) + rest) == (Success, s, rest)
  {
    var file := Sealed(s) + rest;
    HeaderRoundTrip(|s|);
    assert file[..HEADER] == Header(|s|);
    assert file[HEADER..HEADER + |s|] == s;
    assert file[HEADER + |s|..] == rest;
  }

  /** A root element cut short. */
  lemma HeaderCut(s: seq<byte>, k: nat)
    requires |s| < TWO_64 && k < HEADER + |s|
    ensures ReadRoot(Sealed(s)[..k]).0 == (if k == 0 then EndOfFile else Fail)
  {
    var file := Sealed(s)[..k];
    if k >= HEADER {
      HeaderRoundTrip(|s|);
      assert file[..HEADER] == Header(|s|);
    }
  }

  /** Reading back a root element gives its body and tail, and stops right behind it. */
  lemma RootRoundTrip(body: seq<byte>, checksum: bool, rest: seq<byte>)
    requires |body| + 6 < TWO_64
    ensures ReadRoot(Root(body, checksum) + rest) == (Success, body + Tail(body, checksum), rest)
  {
    HeaderRead(body + Tail(body, checksum), rest);
  }

  lemma TailFinishes(body: seq<byte>, checksum: bool)
    ensures Finishes(body, Tail(body, checksum), checksum)
  {
  }

  /** A file cut inside a root element: nothing is left, or the read fails. */
  lemma RootCut(body: seq<byte>, checksum: bool, k: nat)
    requires |body| + 6 < TWO_64 && k < |Root(body, checksum)|
    ensures ReadRoot(Root(body, checksum)[..k]).0 == (if k == 0 then EndOfFile else Fail)
  {
    HeaderCut(body + Tail(body, checksum), k);
  }

  // ----- bodies

  /** `reader_skip`: the rest at the end of the enclosing array, from depth `d` below it. */
  function Skip(s: seq<byte>, d: nat): (r: Option<seq<byte>>)
    ensures r.Some? ==> |r.value| <= |s|
    decreases |s|
  {
    match ReadToken(s)
    case None => None
    case Some((Open, rest)) => Skip(rest, d + 1)
    case Some((Text(_), rest)) => Skip(rest, d)
    case Some((Close, rest)) => if d == 0 then Some(s) else Skip(rest, d - 1)
  }

  lemma SkipToken(t: Token, rest: seq<byte>, d: nat)
    requires Fits(t) && !(t.Close? && d == 0)
    ensures Skip(TokenBytes(t) + rest, d)
         == Skip(rest, match t case Open => d + 1 case Close => d - 1 case Text(_) => d)
  {
    TokenRoundTrip(t, rest);
  }

  predicate Sized(e: Element) {
    match e
    case Str(s) => |s| + STRING < TWO_64
    case Arr(items) => forall i :: 0 <= i < |items| ==> Sized(items[i])
  }

  predicate ForestSized(es: seq<Element>) {
    forall i :: 0 <= i < |es| ==> Sized(es[i])
  }

  lemma {:induction false} SizedFits(e: Element)
    requires Sized(e)
    ensures AllFit(Tokens(e))
    decreases e
  {
    if e.Arr? {
      ForestFits(e.items);
    }
  }

  lemma {:induction false} ForestFits(es: seq<Element>)
    requires ForestSized(es)
    ensures AllFit(ForestTokens(es))
    decreases es
  {
    if es != [] {
      SizedFits(es[0]);
      ForestFits(es[1..]);
    }
  }

  lemma SpellParts(a: seq<Token>, b: seq<Token>, rest: seq<byte>)
    ensures Spell(a + b) + rest == Spell(a) + (Spell(b) + rest)
  {
    SpellAppend(a, b);
  }

  lemma SpellToken(t: Token, rest: seq<byte>)
    ensures Spell([t]) + rest == TokenBytes(t) + rest
  {
    SpellStep(t, []);
    assert [t] + [] == [t];
    assert Spell([]) == [];
  }

  /** The bytes of an array, from the outside in. */
  lemma ArrayBytes(items: seq<Element>, rest: seq<byte>)
    ensures Spell(Tokens(Arr(items))) + rest
         == TokenBytes(Open) + (Spell(ForestTokens(items)) + (TokenBytes(Close) + rest))
  {
    var inner := ForestTokens(items);
    SpellParts([Open] + inner, [Close], rest);
    SpellParts([Open], inner, Spell([Close]) + rest);
    SpellToken(Open, Spell(inner) + (Spell([Close]) + rest));
    SpellToken(Close, rest);
  }

  lemma {:induction false} SkipElement(e: Element, rest: seq<byte>, d: nat)
    requires Sized(e)
    ensures Skip(Spell(Tokens(e)) + rest, d) == Skip(rest, d)
    decreases e
  {
    match e
    case Str(s) =>
      SpellToken(Text(s), rest);
      SkipToken(Text(s), rest, d);
    case Arr(items) =>
      var close := TokenBytes(Close) + rest;
      ArrayBytes(items, rest);
      SkipToken(Open, Spell(ForestTokens(items)) + close, d);
      SkipForest(items, close, d + 1);
      SkipToken(Close, rest, d + 1);
  }

  lemma {:induction false} SkipForest(es: seq<Element>, rest: seq<byte>, d: nat)
    requires ForestSized(es)
    ensures Skip(Spell(ForestTokens(es)) + rest, d) == Skip(rest, d)
    decreases es
  {
    if es == [] {
      assert Spell([]) + rest == rest;
    } else {
      var more := Spell(ForestTokens(es[1..])) + rest;
      SpellParts(Tokens(es[0]), ForestTokens(es[1..]), rest);
      SkipElement(es[0], more, d);
      SkipForest(es[1..], rest, d);
    }
  }

  /** Skipping a forest stops exactly at the end of the enclosing array. */
  lemma SkipStops(es: seq<Element>, rest: seq<byte>)
    requires ForestSized(es)
    ensures Skip(Spell(ForestTokens(es)) + ([ARRAY_END] + rest), 0) == Some([ARRAY_END] + rest)
  {
    SkipForest(es, [ARRAY_END] + rest, 0);
    TokenRoundTrip(Close, rest);
  }

  /** The nesting depth after a token. */
  function After(t: Token, d: nat): nat
    requires !(t.Close? && d == 0)
  {
    match t case Open => d + 1 case Close => d - 1 case Text(_) => d
  }

  /** The tokens of one element as `read` finds them, from inside `d` arrays of it, and what
      follows the element. */
  function TakeBy(read: seq<byte> -> Option<(Token, seq<byte>)>, s: seq<byte>, d: nat): Option<(seq<Token>, seq<byte>)>
    decreases |s|
  {
    match read(s)
    case None => None
    case Some((t, rest)) =>
      if |rest| >= |s| || (t.Close? && d == 0) then None
      else if After(t, d) == 0 then Some(([t], rest))
      else
        match TakeBy(read, rest, After(t, d))
        case None => None
        case Some((ts, end)) => Some(([t] + ts, end))
  }

  function Take(s: seq<byte>, d: nat): Option<(seq<Token>, seq<byte>)> {
    TakeBy(ReadToken, s, d)
  }

  /** `read` reads back what `put` writes. */
  ghost predicate Inverse(read: seq<byte> -> Option<(Token, seq<byte>)>, put: Token -> seq<byte>) {
    && (forall t: Token :: put(t) != [])
    && forall t: Token, rest: seq<byte> :: Fits(t) ==> read(put(t) + rest) == Some((t, rest))
  }

  /** Taking from `s` at depth `d` yields `ts` and goes on at `rest`, at depth `d'`. */
  ghost predicate Leads(read: seq<byte> -> Option<(Token, seq<byte>)>,
      s: seq<byte>, d: nat, ts: seq<Token>, rest: seq<byte>, d': nat) {
    forall us, end :: TakeBy(read, rest, d') == Some((us, end)) ==> TakeBy(read, s, d) == Some((ts + us, end))
  }

  lemma LeadsToken(read: seq<byte> -> Option<(Token, seq<byte>)>, put: Token -> seq<byte>, t: Token, rest: seq<byte>, d: nat)
    requires Inverse(read, put) && Fits(t) && !(t.Close? && d == 0) && After(t, d) > 0
    ensures Leads(read, put(t) + rest, d, [t], rest, After(t, d))
  {
  }

  lemma LeadsOn(read: seq<byte> -> Option<(Token, seq<byte>)>, s: seq<byte>, d: nat, ts: seq<Token>,
      middle: seq<byte>, d': nat, us: seq<Token>, rest: seq<byte>, d'': nat)
    requires Leads(read, s, d, ts, middle, d') && Leads(read, middle, d', us, rest, d'')
    ensures Leads(read, s, d, ts + us, rest, d'')
  {
    forall vs, end | TakeBy(read, rest, d'') == Some((vs, end)) ensures TakeBy(read, s, d) == Some((ts + us + vs, end)) {
      Assoc(ts, us, vs);
    }
  }

  lemma FlatParts(put: Token -> seq<byte>, ts: seq<Token>, us: seq<Token>, rest: seq<byte>)
    ensures Flat(put, ts + us) + rest == Flat(put, ts) + (Flat(put, us) + rest)
  {
    FlatAppend(put, ts, us);
    Assoc(Flat(put, ts), Flat(put, us), rest);
  }

  lemma FlatToken(put: Token -> seq<byte>, t: Token, rest: seq<byte>)
    ensures Flat(put, [t]) + rest == put(t) + rest
  {
    assert Flat(put, [t]) == put(t) + Flat(put, []);
  }

  lemma FlatArray(put: Token -> seq<byte>, items: seq<Element>, rest: seq<byte>)
    ensures Flat(put, Tokens(Arr(items))) + rest == put(Open) + (Flat(put, ForestTokens(items)) + (put(Close) + rest))
  {
    var inner := ForestTokens(items);
    FlatParts(put, [Open] + inner, [Close], rest);
    FlatParts(put, [Open], inner, Flat(put, [Close]) + rest);
    FlatToken(put, Open, Flat(put, inner) + (Flat(put, [Close]) + rest));
    FlatToken(put, Close, rest);
  }

  /** Inside an array, a whole element is taken and the taking goes on. */
  lemma {:induction false} LeadsElement(read: seq<byte> -> Option<(Token, seq<byte>)>, put: Token -> seq<byte>,
      e: Element, rest: seq<byte>, d: nat)
    requires Inverse(read, put) && Sized(e) && d > 0
    ensures Leads(read, Flat(put, Tokens(e)) + rest, d, Tokens(e), rest, d)
    decreases e
  {
    match e
    case Str(s) =>
      FlatToken(put, Text(s), rest);
      LeadsToken(read, put, Text(s), rest, d);
    case Arr(items) =>
      var inner, close := ForestTokens(items), put(Close) + rest;
      LeadsToken(read, put, Open, Flat(put, inner) + close, d);
      LeadsForest(read, put, items, close, d + 1);
      LeadsToken(read, put, Close, rest, d + 1);
      LeadsOn(read, put(Open) + (Flat(put, inner) + close), d, [Open], Flat(put, inner) + close, d + 1, inner, close, d + 1);
      LeadsOn(read, put(Open) + (Flat(put, inner) + close), d, [Open] + inner, close, d + 1, [Close], rest, d);
      FlatArray(put, items, rest);
  }

  lemma {:induction false} LeadsForest(read: seq<byte> -> Option<(Token, seq<byte>)>, put: Token -> seq<byte>,
      es: seq<Element>, rest: seq<byte>, d: nat)
    requires Inverse(read, put) && ForestSized(es) && d > 0
    ensures Leads(read, Flat(put, ForestTokens(es)) + rest, d, ForestTokens(es), rest, d)
    decreases es
  {
    if es == [] {
      assert Flat(put, []) + rest == rest;
      assert forall us: seq<Token> :: [] + us == us;
    } else {
      var more := Flat(put, ForestTokens(es[1..])) + rest;
      FlatParts(put, Tokens(es[0]), ForestTokens(es[1..]), rest);
      LeadsElement(read, put, es[0], more, d);
      LeadsForest(read, put, es[1..], rest, d);
      LeadsOn(read, Flat(put, ForestTokens(es)) + rest, d, Tokens(es[0]), more, d, ForestTokens(es[1..]), rest, d);
    }
  }

  lemma LastToken(read: seq<byte> -> Option<(Token, seq<byte>)>, put: Token -> seq<byte>, t: Token, rest: seq<byte>, d: nat)
    requires Inverse(read, put) && Fits(t) && !(t.Close? && d == 0) && After(t, d) == 0
    ensures TakeBy(read, put(t) + rest, d) == Some(([t], rest))
  {
  }

  lemma WholeElement(read: seq<byte> -> Option<(Token, seq<byte>)>, put: Token -> seq<byte>, e: Element, rest: seq<byte>)
    requires Inverse(read, put) && Sized(e)
    ensures TakeBy(read, Flat(put, Tokens(e)) + rest, 0) == Some((Tokens(e), rest))
  {
    match e
    case Str(s) =>
      FlatToken(put, Text(s), rest);
      LastToken(read, put, Text(s), rest, 0);
    case Arr(items) =>
      var inner, close := ForestTokens(items), put(Close) + rest;
      LeadsToken(read, put, Open, Flat(put, inner) + close, 0);
      LeadsForest(read, put, items, close, 1);
      LastToken(read, put, Close, rest, 1);
      LeadsOn(read, put(Open) + (Flat(put, inner) + close), 0, [Open], Flat(put, inner) + close, 1, inner, close, 1);
      FlatArray(put, items, rest);
  }

  lemma TokensInverse()
    ensures Inverse(ReadToken, TokenBytes)
  {
    forall t: Token, rest: seq<byte> | Fits(t) ensures ReadToken(TokenBytes(t) + rest) == Some((t, rest)) {
      TokenRoundTrip(t, rest);
    }
    assert forall t: Token :: TokenBytes(t) != [];
  }

  /** From the start of an element, exactly that element is taken. */
  lemma TakeWhole(e: Element, rest: seq<byte>)
    requires Sized(e)
    ensures Take(Spell(Tokens(e)) + rest, 0) == Some((Tokens(e), rest))
  {
    TokensInverse();
    WholeElement(ReadToken, TokenBytes, e, rest);
  }
}
