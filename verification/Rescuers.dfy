/** The rescuer: reads root elements, serializes each one anew, and stops at the first bad one. */
module Rescuers {
  import opened StorageFormat
  import opened Gf2
  import opened Checksum
  import opened Roots
  import opened RawStrings
  import opened Readers
  import opened Writers

  /** How a body ends: with a sound CRC, without one, or not soundly. */
  function Ending(body: seq<byte>, rest: seq<byte>): Option<bool> {
    if KindOf(rest).IsDot? && Finishes(body, rest, false) then Some(false)
    else if KindOf(rest).IsCrc? && Finishes(body, rest, true) then Some(true)
    else None
  }

  /** What comes of one root element. */
  function RescueRoot(buffer: seq<byte>): Option<seq<byte>> {
    match Take(buffer, 0)
    case None => None
    case Some((ts, rest)) =>
      if |rest| > |buffer| then None
      else
        match Ending(buffer[..|buffer| - |rest|], rest)
        case None => None
        case Some(checksum) => Some(Root(Spell(ts), checksum))
  }

  /** The output for a whole file, and whether its end was reached. */
  function Rescue(file: seq<byte>): (seq<byte>, bool)
    decreases |file|
  {
    var (status, buffer, rest) := ReadRoot(file);
    if !status.Success? then ([], status.EndOfFile?)
    else
      match RescueRoot(buffer)
      case None => ([], false)
      case Some(root) => (root + Rescue(rest).0, Rescue(rest).1)
  }

  // ----- the program

  /** The Writer's assertion stops the program at an array end that no begin belongs to. */
  predicate Stops(buffer: seq<byte>) {
    KindOf(buffer).IsClose?
  }

  /** Copies one token, unless the program stops there. */
  method CopyToken(R: Reader, W: Writer) returns (ok: bool, stopped: bool)
    requires R.Valid() && !R.strayed && W.Valid() && R.depth == W.depth
    modifies R`ptr, R`depth, R`strayed, W, W.data
    ensures R.strayed ==> !ok && MayStray(R.buffer)
    ensures stopped <==> Stops(old(R.Rest())) && old(R.depth) == 0
    ensures R.Valid() && W.Valid() && (W.data == old(W.data) || fresh(W.data)) && W.Finished() == old(W.Finished())
    ensures ok <==> ReadToken(old(R.Rest())).Some? && !(ReadToken(old(R.Rest())).value.0.Close? && old(R.depth) == 0)
    ensures ok ==>
      var (t, rest) := ReadToken(old(R.Rest())).value;
      R.Rest() == rest && W.Body() == old(W.Body()) + TokenBytes(t) && R.depth == W.depth == After(t, old(R.depth))
  {
    stopped := false;
    var kind := R.Next();
    match kind {
      case IsOpen =>
        W.WriteArray();
        ok := R.ReadArray();
      case IsClose =>
        if W.depth == 0 { return false, true; }
        W.WriteArrayEnd();
        ok := R.ReadArrayEnd();
      case IsText =>
        ok := CopyText(R, W);
      case _ => ok := false;
    }
  }

  /** A string, read and written. */
  method CopyText(R: Reader, W: Writer) returns (ok: bool)
    requires R.Valid() && !R.strayed && W.Valid()
    modifies R`ptr, R`strayed, W, W.data
    ensures R.strayed ==> !ok && MayStray(R.buffer)
    ensures R.Valid() && W.Valid() && (W.data == old(W.data) || fresh(W.data))
    ensures W.Finished() == old(W.Finished()) && W.depth == old(W.depth)
    ensures ok <==> ReadText(old(R.Rest())).Some?
    ensures ok ==>
      var (s, rest) := ReadText(old(R.Rest())).value;
      R.Rest() == rest && W.Body() == old(W.Body()) + TokenBytes(Text(s))
  {
    var s;
    ok, s := R.ReadString();
    if ok {
      TextFits(old(R.Rest()));
      W.WriteString(s);
    }
  }

  /** A string that was read can be written. */
  lemma TextFits(s: seq<byte>)
    requires ReadText(s).Some?
    ensures Fits(Text(ReadText(s).value.0))
  {
    var k := Ones(s[0]);
    var top: nat := if k == 8 then 0 else s[0] - Lead(k);
    assert |s| >= 1 + k;
    NumberBound(s[1..1 + k], top);
    assert top + 1 <= [128, 64, 32, 16, 8, 4, 2, 1, 1][k];
  }

  /** After `ts`, taking from `start` goes on at `rest`, at depth `d`. */
  ghost predicate Reached(start: seq<byte>, ts: seq<Token>, rest: seq<byte>, d: nat) {
    Take(start, 0) == match Take(rest, d) case None => None case Some((us, end)) => Some((ts + us, end))
  }

  lemma ReachedStep(start: seq<byte>, ts: seq<Token>, s: seq<byte>, d: nat, t: Token, rest: seq<byte>)
    requires Reached(start, ts, s, d)
    requires ReadToken(s) == Some((t, rest)) && |rest| < |s| && !(t.Close? && d == 0)
    ensures After(t, d) > 0 ==> Reached(start, ts + [t], rest, After(t, d))
    ensures After(t, d) == 0 ==> Take(start, 0) == Some((ts + [t], rest))
  {
    if After(t, d) > 0 && Take(rest, After(t, d)).Some? {
      Assoc(ts, [t], Take(rest, After(t, d)).value.0);
    }
  }

  lemma ReachedStart(start: seq<byte>)
    ensures Reached(start, [], start, 0)
  {
    assert forall us: seq<Token> :: [] + us == us;
  }

  lemma ReachedEnd(start: seq<byte>, ts: seq<Token>, s: seq<byte>, d: nat)
    requires Reached(start, ts, s, d)
    requires ReadToken(s).None? || (ReadToken(s).value.0.Close? && d == 0)
    ensures Take(start, 0) == None
  {
  }

  lemma SpellMore(ts: seq<Token>, t: Token)
    ensures Spell(ts + [t]) == Spell(ts) + TokenBytes(t)
  {
    SpellAppend(ts, [t]);
    SpellStep(t, []);
    assert [t] + [] == [t];
    assert Spell([]) == [];
  }

  /** Copies the tokens of one element. */
  method CopyElement(R: Reader, W: Writer) returns (ok: bool, stopped: bool)
    requires R.Valid() && !R.strayed && W.Valid() && R.depth == W.depth == 0 && W.Body() == []
    modifies R`ptr, R`depth, R`strayed, W, W.data
    ensures R.strayed ==> !ok && MayStray(R.buffer)
    ensures R.Valid() && W.Valid() && (W.data == old(W.data) || fresh(W.data)) && W.Finished() == old(W.Finished())
    ensures stopped <==> Stops(old(R.Rest()))
    ensures ok <==> Take(old(R.Rest()), 0).Some?
    ensures ok ==> W.Body() == Spell(Take(old(R.Rest()), 0).value.0) && R.Rest() == Take(old(R.Rest()), 0).value.1
    ensures ok ==> R.depth == W.depth == 0
  {
    ghost var start, ts := R.Rest(), [];
    var more := true;
    stopped := false;
    ReachedStart(start);
    while more
      invariant R.Valid() && !R.strayed && !stopped
      invariant if R.depth == 0 && more then R.Rest() == start else !Stops(start)
      invariant W.Valid() && (W.data == old(W.data) || fresh(W.data)) && W.Finished() == old(W.Finished())
      invariant R.depth == W.depth && W.Body() == Spell(ts)
      invariant if more then Reached(start, ts, R.Rest(), R.depth)
                else Take(start, 0) == Some((ts, R.Rest())) && R.depth == 0
      decreases more, |R.buffer| - R.ptr
    {
      ghost var s, d := R.Rest(), R.depth;
      ok, stopped := CopyToken(R, W);
      if !ok {
        ReachedEnd(start, ts, s, d);
        return;
      }
      ghost var (t, rest) := ReadToken(s).value;
      ReachedStep(start, ts, s, d, t, rest);
      SpellMore(ts, t);
      ts := ts + [t];
      more := R.depth != 0;
    }
    ok := true;
  }

  /** The end of a root element, read and written. */
  method CopyEnding(R: Reader, W: Writer) returns (ok: bool)
    requires R.Valid() && W.Valid() && R.depth == W.depth == 0
    modifies R`ptr, W, W.data
    ensures R.Valid() && W.Valid() && (W.data == old(W.data) || fresh(W.data))
    ensures ok <==> Ending(R.buffer[..old(R.ptr)], old(R.Rest())).Some?
    ensures ok ==> W.Body() == [] && W.depth == 0
    ensures ok ==>
      W.Finished() == old(W.Finished()) + Root(old(W.Body()), Ending(R.buffer[..old(R.ptr)], old(R.Rest())).value)
  {
    var kind := R.Next();
    match kind {
      case IsDot =>
        ok := R.Finish(false);
        if ok { W.Finish(false); }
      case IsCrc =>
        ok := R.Finish(true);
        if ok { W.Finish(true); }
      case _ => ok := false;
    }
  }

  /** A root element whose tokens reach up to `ptr`. */
  lemma RescueRootAt(buffer: seq<byte>, ptr: nat)
    requires ptr <= |buffer| && Take(buffer, 0).Some? && Take(buffer, 0).value.1 == buffer[ptr..]
    ensures var ending := Ending(buffer[..ptr], buffer[ptr..]);
      && (RescueRoot(buffer).Some? <==> ending.Some?)
      && (ending.Some? ==> RescueRoot(buffer).value == Root(Spell(Take(buffer, 0).value.0), ending.value))
  {
    assert |buffer| - |buffer[ptr..]| == ptr;
  }

  /** `process_element`. */
  method ProcessElement(R: Reader, W: Writer) returns (ok: bool, stopped: bool)
    requires R.Valid() && !R.strayed && W.Valid() && R.ptr == 0 && R.depth == W.depth == 0 && W.Body() == []
    modifies R`ptr, R`depth, R`strayed, W, W.data
    ensures R.strayed ==> !ok && MayStray(R.buffer)
    ensures R.Valid() && W.Valid() && (W.data == old(W.data) || fresh(W.data))
    ensures stopped <==> Stops(R.buffer)
    ensures ok <==> RescueRoot(R.buffer).Some?
    ensures ok ==> W.Finished() == old(W.Finished()) + RescueRoot(R.buffer).value && W.Body() == [] && W.depth == 0
  {
    ghost var buffer := R.buffer;
    assert R.Rest() == buffer;
    ok, stopped := CopyElement(R, W);
    if !ok {
      NotTaken(buffer);
      return;
    }
    RescueRootAt(buffer, R.ptr);
    ok := CopyEnding(R, W);
  }

  lemma NotTaken(buffer: seq<byte>)
    requires Take(buffer, 0) == None
    ensures RescueRoot(buffer) == None
  {
  }

  /** What is still to do: the output for the file is `out`, and then that for `left`. */
  ghost predicate Underway(file: seq<byte>, out: seq<byte>, left: seq<byte>) {
    Rescue(file) == (out + Rescue(left).0, Rescue(left).1)
  }

  lemma UnderwayStart(file: seq<byte>)
    ensures Underway(file, [], file)
  {
    assert [] + Rescue(file).0 == Rescue(file).0;
  }

  lemma UnderwayEnd(file: seq<byte>, out: seq<byte>, left: seq<byte>)
    requires Underway(file, out, left)
    ensures !ReadRoot(left).0.Success? ==> Rescue(file) == (out, ReadRoot(left).0.EndOfFile?)
    ensures ReadRoot(left).0.Success? && RescueRoot(ReadRoot(left).1).None? ==> Rescue(file) == (out, false)
  {
    assert out + [] == out;
  }

  lemma UnderwayStep(file: seq<byte>, out: seq<byte>, left: seq<byte>, root: seq<byte>)
    requires Underway(file, out, left) && ReadRoot(left).0.Success? && RescueRoot(ReadRoot(left).1) == Some(root)
    ensures Underway(file, out + root, ReadRoot(left).2)
  {
    Assoc(out, root, Rescue(ReadRoot(left).2).0);
  }

  /** The root element at which rescuing a file fails, if that is where it ends. */
  function Rejected(file: seq<byte>): Option<seq<byte>>
    decreases |file|
  {
    var (status, buffer, rest) := ReadRoot(file);
    if !status.Success? then None
    else if RescueRoot(buffer).None? then Some(buffer)
    else Rejected(rest)
  }

  /** A read of the rescuer may stray, and that only in the element it rejects. */
  ghost predicate RejectMayStray(file: seq<byte>) {
    Rejected(file).Some? && MayStray(Rejected(file).value)
  }

  /** A file that is rescued to its end is rejected nowhere. */
  lemma {:induction false} NoneRejected(file: seq<byte>)
    requires Rescue(file).1
    ensures Rejected(file) == None
    decreases |file|
  {
    if ReadRoot(file).0.Success? {
      NoneRejected(ReadRoot(file).2);
    }
  }

  /** Reads, copies and sends the next root element, if there is one. */
  method RescueNext(R: Reader, W: Writer) returns (sent: Option<seq<byte>>, end: bool, stopped: bool)
    requires R.Valid() && !R.strayed && W.Valid() && W.depth == 0 && W.Body() == [] && W.Finished() == []
    modifies R, W, W.data
    ensures R.strayed ==> sent.None? && RejectMayStray(R.file[old(R.pos)..])
    ensures R.Valid() && W.Valid() && (W.data == old(W.data) || fresh(W.data))
    ensures sent.Some? ==> W.depth == 0 && W.Body() == [] && W.Finished() == []
    ensures var (status, buffer, rest) := ReadRoot(R.file[old(R.pos)..]);
      && sent == (if status.Success? then RescueRoot(buffer) else None)
      && end == status.EndOfFile?
      && (stopped <==> status.Success? && Stops(buffer))
      && (status.Success? ==> R.file[R.pos..] == rest)
  {
    var status := R.Begin();
    end := status.EndOfFile?;
    sent, stopped := None, false;
    if status.Success? {
      var ok;
      ok, stopped := ProcessElement(R, W);
      if ok {
        assert W.Finished() == RescueRoot(R.buffer).value;
        var out := W.Output();
        W.Discard();
        sent := Some(out);
      }
    }
  }

  /** The main loop.  When a read strays, the program goes on with a length of almost 2^64; what
      it has sent by then stays.  It may also be stopped by an assertion, and says then nothing. */
  method RescueFile(file: seq<byte>) returns (out: seq<byte>, success: bool, strayed: bool, stopped: bool)
    requires |file| + 32 <= ADDRESSES
    ensures (out, success) == Rescue(file)
    ensures strayed ==> !success && RejectMayStray(file)
    ensures stopped <==> Rejected(file).Some? && Stops(Rejected(file).value)
  {
    var R := new Reader(file);
    var W := new Writer();
    out := [];
    assert file[0..] == file;
    UnderwayStart(file);
    while true
      invariant R.Valid() && !R.strayed && W.Valid() && fresh(R) && fresh(W) && fresh(W.data)
      invariant R.file == file && W.depth == 0 && W.Body() == [] && W.Finished() == []
      invariant Underway(file, out, file[R.pos..]) && Rejected(file[R.pos..]) == Rejected(file)
      decreases |file| - R.pos
    {
      ghost var left := file[R.pos..];
      UnderwayEnd(file, out, left);
      var sent, end, stop := RescueNext(R, W);
      if sent.None? {
        if end {
          NoneRejected(file);
        }
        return out, end, R.strayed, stop;
      }
      UnderwayStep(file, out, left, sent.value);
      out := out + sent.value;
    }
  }

  // ----- files that were written

  /** A root element with one element in it. */
  datatype RootElement = RootElement(e: Element, checksum: bool)
  {
    predicate Valid() {
      Sized(e) && |Spell(Tokens(e))| + 6 < TWO_64
    }

    function Bytes(): seq<byte> {
      Root(Spell(Tokens(e)), checksum)
    }
  }

  function FileOf(roots: seq<RootElement>): seq<byte> {
    if roots == [] then [] else roots[0].Bytes() + FileOf(roots[1..])
  }

  lemma TailKind(body: seq<byte>, checksum: bool)
    ensures KindOf(Tail(body, checksum)) == if checksum then IsCrc else IsDot
  {
  }

  lemma EndingWritten(body: seq<byte>, checksum: bool, all: seq<byte>)
    requires all == body + Tail(body, checksum)
    ensures Ending(all[..|all| - |Tail(body, checksum)|], Tail(body, checksum)) == Some(checksum)
  {
    assert all[..|body|] == body;
    TailKind(body, checksum);
    TailFinishes(body, checksum);
  }

  lemma RescueWritten(r: RootElement)
    requires r.Valid()
    ensures RescueRoot(Spell(Tokens(r.e)) + Tail(Spell(Tokens(r.e)), r.checksum)) == Some(r.Bytes())
  {
    var body := Spell(Tokens(r.e));
    TakeWhole(r.e, Tail(body, r.checksum));
    EndingWritten(body, r.checksum, body + Tail(body, r.checksum));
  }

  lemma RescueFirst(r: RootElement, rest: seq<byte>)
    requires r.Valid()
    ensures Rescue(r.Bytes() + rest) == (r.Bytes() + Rescue(rest).0, Rescue(rest).1)
  {
    RootRoundTrip(Spell(Tokens(r.e)), r.checksum, rest);
    RescueWritten(r);
  }

  /** The rescuer reproduces a sound file byte for byte. */
  lemma {:induction false} RescueReproduces(roots: seq<RootElement>)
    requires forall r :: r in roots ==> r.Valid()
    ensures Rescue(FileOf(roots)) == (FileOf(roots), true) && !RejectMayStray(FileOf(roots))
  {
    if roots != [] {
      RescueReproduces(roots[1..]);
      RescueFirst(roots[0], FileOf(roots[1..]));
    }
    NoneRejected(FileOf(roots));
  }
}
