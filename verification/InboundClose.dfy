/** When an inbound reader ends a connection by itself: exactly at which line. */
module InboundClose {
  import opened Bytes
  import opened InboundReader
  import opened InboundStream

  /** The lengths of the lines that hold the JSON objects. */
  function Sizes(w: World, lines: seq<seq<byte>>): seq<nat> {
    if lines == [] then []
    else
      var line := lines[|lines| - 1];
      Sizes(w, lines[..|lines| - 1]) + if w.parse(line).Object? then [|line|] else []
  }

  function Total(sizes: seq<nat>): nat { if sizes == [] then 0 else Total(sizes[..|sizes| - 1]) + sizes[|sizes| - 1] }

  /** An identity of somebody else, under a certificate that it is the fingerprint of. */
  predicate Acceptable(w: World, m: Message) {
    m.from != "" && m.from != w.me && m.cert != "" && w.fingerprint(m.cert) == m.from
  }

  predicate TooMuch(count: int, bytes: int) { count > 64 || bytes > 256 * 1024 }

  /** The next object ends the connection: the first identity is not acceptable or cannot be challenged, the
      first proof after it does not verify, or more is waiting for the proof than may. Once the peer is
      proven nothing does. */
  ghost predicate EndsIt(w: World, ms: seq<Message>, sizes: seq<nat>, m: Message, size: nat)
    requires |sizes| == |ms|
  {
    if forall k | 0 <= k < |ms| :: ms[k].t != "identity" then
      if m.t == "identity" then !Acceptable(w, m) || !w.sends else TooMuch(|ms| + 1, Total(sizes) + size)
    else
      && !(exists i: nat, j: nat :: ProofAt(w, ms, i, j))
      && exists i: nat :: IdentityAt(w, ms, i) &&
           if m.t == "identityProof" then !w.verifies(ms[i].cert, w.nonce, m.sig)
           else TooMuch(|ms|, Total(sizes) - sizes[i] + size)
  }

  ghost predicate EndsAt(w: World, lines: seq<seq<byte>>, n: nat)
    requires n < |lines|
  {
    var before, parsed := lines[..n], w.parse(lines[n]);
    ParallelSizes(w, before);
    parsed.NotAnObject?
    || (parsed.Object? && EndsIt(w, Objects(w, before), Sizes(w, before), parsed.m, |lines[n]|))
  }

  lemma {:induction false} ParallelSizes(w: World, lines: seq<seq<byte>>)
    ensures |Sizes(w, lines)| == |Objects(w, lines)|
  {
    if lines != [] { ParallelSizes(w, lines[..|lines| - 1]); }
  }

  // ---------------------------------------------------------------------------------------------
  // The account of what is waiting
  // ---------------------------------------------------------------------------------------------

  /** The byte account of an open session is that of the messages it holds back. */
  predicate Booked(s: Session, sizes: seq<nat>, at: Places) {
    match at
    case NoPlace => s.deferredBytes == Total(sizes)
    case One(i) => i < |sizes| && s.deferredBytes == Total(sizes) - sizes[i]
    case Two(_, _) => s.deferredBytes == 0
  }

  lemma {:induction false} TotalSnoc(sizes: seq<nat>, size: nat)
    ensures Total(sizes + [size]) == Total(sizes) + size
  {
    assert (sizes + [size])[..|sizes|] == sizes;
  }

  lemma {:induction false} OnePlaceOnly(w: World, ms: seq<Message>, at: Places, s: Session)
    requires Sorted(w, s, ms, at)
    ensures at.NoPlace? <==> forall k | 0 <= k < |ms| :: ms[k].t != "identity"
    ensures at.Two? <==> exists i: nat, j: nat :: ProofAt(w, ms, i, j)
    ensures at.One? ==> forall i: nat :: IdentityAt(w, ms, i) <==> i == at.i
  {
    if at.One? {
      forall i: nat, j: nat ensures !ProofAt(w, ms, i, j) { if IdentityAt(w, ms, i) { assert i == at.i; } }
    }
  }

  lemma {:induction false} OpenStep(w: World, s: Session, ms: seq<Message>, sizes: seq<nat>, at: Places, m: Message,
                                    size: nat)
    requires s.open && Sorted(w, s, ms, at) && |sizes| == |ms| && Booked(s, sizes, at)
    ensures TakeMessage(w, s, m, size).open <==> !EndsIt(w, ms, sizes, m, size)
  {
    OnePlaceOnly(w, ms, at, s);
    if at.One? { assert IdentityAt(w, ms, at.i); }
    if s.phase == Idle { assert |s.deferred| == |ms|; }
  }

  lemma {:induction false} BookedStep(
      w: World, s: Session, ms: seq<Message>, sizes: seq<nat>, at: Places, m: Message, size: nat) returns (at': Places)
    requires s.open && Sorted(w, s, ms, at) && |sizes| == |ms| && Booked(s, sizes, at)
    ensures var s' := TakeMessage(w, s, m, size);
            s'.open ==> Sorted(w, s', ms + [m], at') && Booked(s', sizes + [size], at')
  {
    at' := SortedMessage(w, s, ms, at, m, size);
    TotalSnoc(sizes, size);
    var s' := TakeMessage(w, s, m, size);
    if s'.open && at'.One? {
      assert IdentityAt(w, ms + [m], at'.i);
      if at.One? { assert IdentityAt(w, ms + [m], at.i) && at.i == at'.i; }
    }
  }

  /** What an open session has made of the lines so far. */
  ghost predicate Kept(w: World, s: Session, lines: seq<seq<byte>>) {
    exists at :: Sorted(w, s, Objects(w, lines), at) && Booked(s, Sizes(w, lines), at)
  }

  lemma {:induction false} KeptStep(w: World, s: Session, lines: seq<seq<byte>>, line: seq<byte>)
    requires s.open && Kept(w, s, lines)
    ensures Take(w, s, line).open <==> !EndsAt(w, lines + [line], |lines|)
    ensures Take(w, s, line).open ==> Kept(w, Take(w, s, line), lines + [line])
  {
    var longer := lines + [line];
    assert longer[..|lines|] == lines;
    ParallelSizes(w, lines);
    var ms, sizes := Objects(w, lines), Sizes(w, lines);
    var at :| Sorted(w, s, ms, at) && Booked(s, sizes, at);
    var parsed := w.parse(line);
    if parsed.Object? {
      OpenStep(w, s, ms, sizes, at, parsed.m, |line|);
      var at' := BookedStep(w, s, ms, sizes, at, parsed.m, |line|);
      assert Objects(w, longer) == ms + [parsed.m] && Sizes(w, longer) == sizes + [|line|];
      hide Sorted, Booked, EndsIt, TakeMessage, Objects, Sizes;
    } else {
      assert Objects(w, longer) == ms && Sizes(w, longer) == sizes;
    }
  }

  lemma {:induction false} EarlierEnds(w: World, lines: seq<seq<byte>>, line: seq<byte>, n: nat)
    requires n < |lines|
    ensures EndsAt(w, lines + [line], n) == EndsAt(w, lines, n)
  {
    assert (lines + [line])[..n] == lines[..n];
  }

  lemma {:induction false} KeptWhileOpen(w: World, lines: seq<seq<byte>>)
    ensures TakeAll(w, START, lines).open ==> Kept(w, TakeAll(w, START, lines), lines)
    ensures TakeAll(w, START, lines).open <==> forall n | 0 <= n < |lines| :: !EndsAt(w, lines, n)
  {
    if lines == [] {
      assert Objects(w, lines) == [] && Sizes(w, lines) == [];
      assert Sorted(w, START, [], NoPlace) && Booked(START, [], NoPlace);
      assert TakeAll(w, START, lines) == START;
    } else {
      var k := |lines| - 1;
      var before, line := lines[..k], lines[k];
      assert lines == before + [line];
      KeptWhileOpen(w, before);
      TakeAllSnoc(w, lines);
      hide EndsAt, Kept, Take;
      forall n: nat | n < k ensures EndsAt(w, lines, n) == EndsAt(w, before, n) { EarlierEnds(w, before, line, n); }
      var s := TakeAll(w, START, before);
      if s.open { KeptStep(w, s, before, line); } else { StaysShut(w, s, line); }
    }
  }

  lemma {:induction false} StaysShut(w: World, s: Session, line: seq<byte>)
    requires !s.open
    ensures !Take(w, s, line).open
  {
  }

  // ---------------------------------------------------------------------------------------------
  // Any chunks
  // ---------------------------------------------------------------------------------------------

  /** With this chunk the unfinished line and what comes after it pass half a megabyte. */
  predicate Floods(chunks: seq<seq<byte>>, i: nat)
    requires i < |chunks|
  {
    |Tail(Concat(chunks[..i]))| + |chunks[i]| > 512 * 1024
  }

  lemma {:induction false} EarlierFloods(chunks: seq<seq<byte>>, chunk: seq<byte>, i: nat)
    requires i < |chunks|
    ensures Floods(chunks + [chunk], i) == Floods(chunks, i)
  {
    assert (chunks + [chunk])[..i] == chunks[..i];
  }

  lemma {:induction false} NextChunk(w: World, before: seq<seq<byte>>, chunk: seq<byte>)
    requires AfterChunks(w, before).open ==> AfterChunks(w, before) == TakeAll(w, START, Lines(Concat(before)))
    ensures var chunks := before + [chunk]; var s, s' := AfterChunks(w, before), AfterChunks(w, chunks);
            && Concat(chunks) == Concat(before) + chunk
            && s' == if !s.open then s else if Floods(chunks, |before|) then Shut(s)
                     else TakeAll(w, START, Lines(Concat(chunks)))
  {
    var chunks, stream := before + [chunk], Concat(before);
    assert chunks[..|before|] == before;
    LinesOfBoth(stream, chunk);
    TakeAllOfBoth(w, START, Lines(stream), Lines(Tail(stream) + chunk));
    hide TakeAll, Lines, Tail;
  }

  lemma {:induction false} MoreLines(w: World, lines: seq<seq<byte>>, more: seq<seq<byte>>)
    requires !TakeAll(w, START, lines).open
    ensures !TakeAll(w, START, lines + more).open
  {
    TakeAllOfBoth(w, START, lines, more);
    ClosedTakesNothing(w, TakeAll(w, START, lines), more);
  }

  /** Whatever the socket delivers: the reader keeps the connection open exactly while no chunk floods it, no
      line is a JSON value other than an object, the first identity is acceptable and can be challenged, the
      first proof after it verifies, and at most 64 messages and 256 KB wait for it. */
  lemma {:induction false} OpenExactlyWhile(w: World, chunks: seq<seq<byte>>)
    ensures var lines := Lines(Concat(chunks));
            AfterChunks(w, chunks).open <==>
              && (forall i | 0 <= i < |chunks| :: !Floods(chunks, i))
              && forall n | 0 <= n < |lines| :: !EndsAt(w, lines, n)
    ensures AfterChunks(w, chunks).open ==> AfterChunks(w, chunks) == TakeAll(w, START, Lines(Concat(chunks)))
  {
    KeptWhileOpen(w, Lines(Concat(chunks)));
    if chunks != [] {
      var k := |chunks| - 1;
      var before, chunk := chunks[..k], chunks[k];
      assert chunks == before + [chunk];
      OpenExactlyWhile(w, before);
      KeptWhileOpen(w, Lines(Concat(before)));
      hide EndsAt, Floods, AfterChunks, TakeAll, Lines, Concat;
      NextChunk(w, before, chunk);
      forall i: nat | i < k ensures Floods(chunks, i) == Floods(before, i) { EarlierFloods(before, chunk, i); }
      LinesOfBoth(Concat(before), chunk);
      if !TakeAll(w, START, Lines(Concat(before))).open {
        MoreLines(w, Lines(Concat(before)), Lines(Tail(Concat(before)) + chunk));
      }
    }
  }
}
