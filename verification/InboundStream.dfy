/** What an inbound reader does depends on the byte stream alone, and it hands on exactly the messages
    of a proven peer. */
module InboundStream {
  import opened Bytes
  import opened InboundReader

  // ---------------------------------------------------------------------------------------------
  // Any chunking
  // ---------------------------------------------------------------------------------------------

  function Concat(chunks: seq<seq<byte>>): seq<byte> {
    if chunks == [] then [] else Concat(chunks[..|chunks| - 1]) + chunks[|chunks| - 1]
  }

  /** The session after some chunks; the unfinished line is what the reader has in its buffer. */
  function AfterChunks(w: World, chunks: seq<seq<byte>>): Session {
    if chunks == [] then START
    else
      var before := chunks[..|chunks| - 1];
      Fed(w, AfterChunks(w, before), Tail(Concat(before)), chunks[|chunks| - 1])
  }

  lemma {:induction false} TakeAllOfBoth(w: World, s: Session, a: seq<seq<byte>>, b: seq<seq<byte>>)
    ensures TakeAll(w, s, a + b) == TakeAll(w, TakeAll(w, s, a), b)
    decreases |a|
  {
    if a == [] {
      assert a + b == b;
    } else {
      assert (a + b)[1..] == a[1..] + b;
      TakeAllOfBoth(w, Take(w, s, a[0]), a[1..], b);
    }
  }

  /** With lines that leave room for one chunk in the buffer, the reader never overflows, and its
      session is that of the lines of the stream however the socket splits it. */
  lemma {:induction false} ChunkingDoesNotMatter(w: World, chunks: seq<seq<byte>>)
    requires forall c | c in chunks :: |c| <= CHUNK_MAX
    requires LinesUpTo(Concat(chunks), MAX_FRAME_BUF - CHUNK_MAX)
    ensures AfterChunks(w, chunks) == TakeAll(w, START, Lines(Concat(chunks)))
  {
    if chunks != [] {
      var before, chunk := chunks[..|chunks| - 1], chunks[|chunks| - 1];
      var stream := Concat(before);
      assert chunk in chunks;
      PrefixUpTo(stream, chunk, MAX_FRAME_BUF - CHUNK_MAX);
      ChunkingDoesNotMatter(w, before);
      LinesOfBoth(stream, chunk);
      TakeAllOfBoth(w, START, Lines(stream), Lines(Tail(stream) + chunk));
      if !AfterChunks(w, before).open { ClosedTakesNothing(w, AfterChunks(w, before), Lines(Tail(stream) + chunk)); }
    }
  }

  // ---------------------------------------------------------------------------------------------
  // What is handed on
  // ---------------------------------------------------------------------------------------------

  /** The JSON objects among the lines, in order. */
  function Objects(w: World, lines: seq<seq<byte>>): seq<Message> {
    if lines == [] then []
    else
      var parsed := w.parse(lines[|lines| - 1]);
      Objects(w, lines[..|lines| - 1]) + if parsed.Object? then [parsed.m] else []
  }

  /** The messages that are not part of the proof: all but those at places `i` and `j`. */
  function Others(ms: seq<Message>, i: nat, j: nat): seq<Message>
    requires i < j < |ms|
  {
    ms[..i] + ms[i + 1..j] + ms[j + 1..]
  }

  /** The first identity, accepted, is at `i`; there is none before. */
  predicate IdentityAt(w: World, ms: seq<Message>, i: nat) {
    && i < |ms| && ms[i].t == "identity" && GoodIdentity(w, ms[i])
    && forall k | 0 <= k < i :: ms[k].t != "identity"
  }

  /** The first proof after the identity at `i` is at `j`, and verifies under its certificate. */
  predicate ProofAt(w: World, ms: seq<Message>, i: nat, j: nat) {
    && i < j < |ms| && IdentityAt(w, ms, i)
    && ms[j].t == "identityProof" && w.verifies(ms[i].cert, w.nonce, ms[j].sig)
    && forall k | i < k < j :: ms[k].t != "identityProof"
  }

  /** The places of the identity and the proof, as far as they have come. */
  datatype Places = NoPlace | One(i: nat) | Two(i: nat, j: nat)

  /** What an open session has made of the messages so far. */
  predicate Sorted(w: World, s: Session, ms: seq<Message>, at: Places) {
    match s.phase
    case Idle =>
      at == NoPlace && s.handed == [] && s.deferred == ms && forall k | 0 <= k < |ms| :: ms[k].t != "identity"
    case Challenged =>
      && at.One? && IdentityAt(w, ms, at.i) && s.pid == ms[at.i].from && s.cert == ms[at.i].cert
      && s.handed == [] && s.deferred == ms[..at.i] + ms[at.i + 1..]
      && forall k | at.i < k < |ms| :: ms[k].t != "identityProof"
    case Proven =>
      && at.Two? && ProofAt(w, ms, at.i, at.j) && s.pid == ms[at.i].from
      && s.handed == Others(ms, at.i, at.j) && s.deferred == []
  }

  lemma {:induction false} SortedIdle(
      w: World, s: Session, ms: seq<Message>, m: Message, size: nat) returns (at': Places)
    requires s.open && s.phase == Idle && Sorted(w, s, ms, NoPlace)
    ensures var s' := TakeMessage(w, s, m, size);
            if s'.open then Sorted(w, s', ms + [m], at') else s'.handed == [] && s'.phase != Proven
  {
    at' := if m.t == "identity" then One(|ms|) else NoPlace;
    var ms' := ms + [m];
    assert ms'[..|ms|] == ms && ms'[|ms| + 1..] == [];
    assert ms + [] == ms;
  }

  lemma {:induction false} ProofFound(w: World, ms: seq<Message>, i: nat, m: Message)
    requires IdentityAt(w, ms, i) && m.t == "identityProof" && w.verifies(ms[i].cert, w.nonce, m.sig)
    requires forall k | i < k < |ms| :: ms[k].t != "identityProof"
    ensures ProofAt(w, ms + [m], i, |ms|) && Others(ms + [m], i, |ms|) == ms[..i] + ms[i + 1..]
  {
    var ms' := ms + [m];
    assert ms'[..i] == ms[..i] && ms'[i + 1..|ms|] == ms[i + 1..] && ms'[|ms| + 1..] == [];
  }

  lemma {:induction false} SortedChallenged(w: World, s: Session, ms: seq<Message>, i: nat, m: Message, size: nat)
    returns (at': Places)
    requires s.open && s.phase == Challenged && Sorted(w, s, ms, One(i))
    ensures var s' := TakeMessage(w, s, m, size);
            if s'.open then Sorted(w, s', ms + [m], at') else s'.handed == [] && s'.phase != Proven
  {
    if m.t == "identityProof" {
      at' := Two(i, |ms|);
      if w.verifies(s.cert, w.nonce, m.sig) { ProofFound(w, ms, i, m); }
      assert [] + s.deferred == s.deferred;
    } else {
      at' := One(i);
      assert (ms + [m])[..i] == ms[..i] && (ms + [m])[i + 1..] == ms[i + 1..] + [m];
      assert ms[..i] + (ms[i + 1..] + [m]) == (ms[..i] + ms[i + 1..]) + [m];
    }
  }

  lemma {:induction false} SortedProven(w: World, s: Session, ms: seq<Message>, i: nat, j: nat, m: Message, size: nat)
    requires s.open && s.phase == Proven && Sorted(w, s, ms, Two(i, j))
    ensures TakeMessage(w, s, m, size).open && Sorted(w, TakeMessage(w, s, m, size), ms + [m], Two(i, j))
  {
    var ms' := ms + [m];
    assert ms'[..i] == ms[..i] && ms'[i + 1..j] == ms[i + 1..j] && ms'[j + 1..] == ms[j + 1..] + [m];
    assert Others(ms', i, j) == Others(ms, i, j) + [m];
  }

  lemma {:induction false} SortedMessage(w: World, s: Session, ms: seq<Message>, at: Places, m: Message, size: nat)
    returns (at': Places)
    requires s.open && Sorted(w, s, ms, at)
    ensures var s' := TakeMessage(w, s, m, size);
            if s'.open then Sorted(w, s', ms + [m], at') else s'.handed == [] && s'.phase != Proven
  {
    match s.phase
    case Idle => at' := SortedIdle(w, s, ms, m, size);
    case Challenged => at' := SortedChallenged(w, s, ms, at.i, m, size);
    case Proven =>
      SortedProven(w, s, ms, at.i, at.j, m, size);
      at' := at;
  }

  lemma {:induction false} TakeAllSnoc(w: World, lines: seq<seq<byte>>)
    requires lines != []
    ensures var n := |lines| - 1;
            TakeAll(w, START, lines) == Take(w, TakeAll(w, START, lines[..n]), lines[n])
  {
    var n := |lines| - 1;
    var last := [lines[n]];
    assert lines == lines[..n] + last;
    TakeAllOfBoth(w, START, lines[..n], last);
    assert TakeAll(w, TakeAll(w, START, lines[..n]), last)
        == TakeAll(w, Take(w, TakeAll(w, START, lines[..n]), last[0]), []);
  }

  /** What was handed on is everything but an accepted identity and its proof. */
  ghost predicate HandsOn(w: World, ms: seq<Message>, handed: seq<Message>) {
    exists i: nat, j: nat :: ProofAt(w, ms, i, j) && handed == Others(ms, i, j)
  }

  /** Some messages of the lines have been sorted: all of them while the connection is open, those
      before the one it ended at otherwise. */
  ghost predicate Outcome(w: World, s: Session, ms: seq<Message>) {
    if s.open then exists at :: Sorted(w, s, ms, at)
    else if s.phase != Proven then s.handed == []
    else exists n: nat :: n <= |ms| && HandsOn(w, ms[..n], s.handed)
  }

  lemma {:induction false} EveryOutcome(w: World, lines: seq<seq<byte>>)
    ensures Outcome(w, TakeAll(w, START, lines), Objects(w, lines))
  {
    if lines == [] {
      assert Sorted(w, START, [], NoPlace);
    } else {
      var n := |lines| - 1;
      var s, ms := TakeAll(w, START, lines[..n]), Objects(w, lines[..n]);
      EveryOutcome(w, lines[..n]);
      TakeAllSnoc(w, lines);
      if s.open { OpenOutcome(w, s, ms, lines[n]); }
      else { ClosedOutcome(w, s, ms, Objects(w, lines)[|ms|..]); }
    }
  }

  lemma {:induction false} ClosedOutcome(w: World, s: Session, ms: seq<Message>, more: seq<Message>)
    requires !s.open && Outcome(w, s, ms)
    ensures Outcome(w, s, ms + more)
  {
    if s.phase == Proven {
      var n: nat :| n <= |ms| && HandsOn(w, ms[..n], s.handed);
      assert (ms + more)[..n] == ms[..n];
    }
  }

  lemma {:induction false} OpenOutcome(w: World, s: Session, ms: seq<Message>, line: seq<byte>)
    requires s.open && Outcome(w, s, ms)
    ensures var parsed := w.parse(line);
            Outcome(w, Take(w, s, line), ms + if parsed.Object? then [parsed.m] else [])
  {
    var at :| Sorted(w, s, ms, at);
    var parsed := w.parse(line);
    if parsed.Object? {
      var at' := SortedMessage(w, s, ms, at, parsed.m, |line|);
    } else {
      assert ms + [] == ms;
      if parsed.NotAnObject? && s.phase == Proven { assert ms[..|ms|] == ms; }
    }
  }

  predicate WithinBounds(s: Session) {
    s.open ==> |s.deferred| <= DEFERRED_MAX_MSGS && s.deferredBytes <= DEFERRED_MAX_BYTES
  }

  lemma {:induction false} QueueWithinBounds(w: World, s: Session, lines: seq<seq<byte>>)
    requires WithinBounds(s)
    ensures WithinBounds(TakeAll(w, s, lines))
    decreases |lines|
  {
    if lines != [] { QueueWithinBounds(w, Take(w, s, lines[0]), lines[1..]); }
  }

  /** Nothing is handed on before the proof verifies, but all are kept; then all the others are, of the
      messages so far, or of those before the end of the connection. */
  ghost predicate HandedOnRightly(w: World, s: Session, ms: seq<Message>) {
    && (s.phase != Proven ==> s.handed == [])
    && (s.open ==> exists at :: Sorted(w, s, ms, at))
    && (s.phase == Proven && s.open ==> HandsOn(w, ms, s.handed))
    && (s.phase == Proven ==> exists n: nat :: n <= |ms| && HandsOn(w, ms[..n], s.handed))
  }

  lemma {:induction false} OutcomeIsRight(w: World, s: Session, ms: seq<Message>)
    requires Outcome(w, s, ms)
    ensures HandedOnRightly(w, s, ms)
  {
    if s.open {
      var at :| Sorted(w, s, ms, at);
      assert ms[..|ms|] == ms;
      if s.phase == Proven { assert HandsOn(w, ms[..|ms|], s.handed); }
    }
  }

  /** For any chunking of a stream of lines of bounded length: nothing is handed on before the proof
      verifies; then exactly the JSON objects other than the first identity and the first proof after
      it, in order of arrival; the messages held before stay within bounds or the connection ends. */
  lemma {:induction false} HandsOnTheOthers(w: World, chunks: seq<seq<byte>>)
    requires forall c | c in chunks :: |c| <= CHUNK_MAX
    requires LinesUpTo(Concat(chunks), MAX_FRAME_BUF - CHUNK_MAX)
    ensures HandedOnRightly(w, AfterChunks(w, chunks), Objects(w, Lines(Concat(chunks))))
    ensures WithinBounds(AfterChunks(w, chunks))
  {
    ChunkingDoesNotMatter(w, chunks);
    EveryOutcome(w, Lines(Concat(chunks)));
    QueueWithinBounds(w, START, Lines(Concat(chunks)));
    OutcomeIsRight(w, TakeAll(w, START, Lines(Concat(chunks))), Objects(w, Lines(Concat(chunks))));
  }
}
