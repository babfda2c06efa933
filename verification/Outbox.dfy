/** What becomes of the messages submitted to a peer: nothing is reordered or written twice, and when
    exactly something is lost. */
module Outbox {
  import opened Options
  import opened ConnectionModel

  datatype Op =
    | DoWrite(p: Payload, ok: bool, leaks: bool)
    | DoOffer(s: Sock, dialler: Id, alive: nat, leaks: bool)
    | DoReaderEnd(s: Sock)
    | DoDrop

  function Apply(c: Conn, op: Op): Conn {
    match op
    case DoWrite(p, ok, leaks) => Write(c, p, ok, leaks).0
    case DoOffer(s, dialler, alive, leaks) => Offer(c, s, dialler, alive, leaks).0
    case DoReaderEnd(s) => ReaderEnds(c, s)
    case DoDrop => Drop(c)
  }

  function Start(me: Id, pid: Id): Conn { Conn(me, pid, None, None, [], {}, {}, [], []) }

  function Reach(me: Id, pid: Id, ops: seq<Op>): Conn {
    if ops == [] then Start(me, pid) else Apply(Reach(me, pid, ops[..|ops| - 1]), ops[|ops| - 1])
  }

  // ---------------------------------------------------------------------------------------------
  // Sequences of messages
  // ---------------------------------------------------------------------------------------------

  function Holdables(ps: seq<Payload>): seq<Payload> {
    if ps == [] then [] else Holdables(ps[..|ps| - 1]) + if ps[|ps| - 1].holdable then [ps[|ps| - 1]] else []
  }

  function New(op: Op): seq<Payload> { if op.DoWrite? && op.p.holdable then [op.p] else [] }

  /** Everything submitted that may be held, in order. */
  function Submitted(ops: seq<Op>): seq<Payload> {
    if ops == [] then [] else Submitted(ops[..|ops| - 1]) + New(ops[|ops| - 1])
  }

  lemma {:induction false} HoldablesOfBoth(a: seq<Payload>, b: seq<Payload>)
    requires forall p | p in b :: p.holdable
    ensures Holdables(a + b) == Holdables(a) + b
  {
    if b != [] {
      var n := |b| - 1;
      assert (a + b)[..|a + b| - 1] == a + b[..n];
      HoldablesOfBoth(a, b[..n]);
      assert b[n] in b;
      assert b == b[..n] + [b[n]];
    } else {
      assert a + b == a;
    }
  }

  ghost predicate CarriesMid(ops: seq<Op>, mid: string) { exists op | op in ops :: op.DoWrite? && op.p.mid == mid }

  ghost predicate Wrote(ops: seq<Op>, p: Payload) { exists op | op in ops :: op.DoWrite? && op.p == p }

  /** No other line carries the mid of a message. */
  ghost predicate DistinctMids(ops: seq<Op>) {
    forall i, j | 0 <= i < |ops| && 0 <= j < |ops| && i != j :: Unmixed(ops[i], ops[j])
  }

  predicate Unmixed(a: Op, b: Op) {
    a.DoWrite? && b.DoWrite? && b.p.holdable && b.p.mid != "" ==> a.p.mid != b.p.mid
  }

  // ---------------------------------------------------------------------------------------------
  // Invariant of a connection record
  // ---------------------------------------------------------------------------------------------

  /** A queue that no flush would skip any of. */
  ghost predicate Unsent(c: Conn, queue: seq<Payload>) {
    && (forall p | p in queue :: p.holdable && !Skips(c, p))
    && forall i, j | 0 <= i < j < |queue| :: queue[i].mid != "" ==> queue[i].mid != queue[j].mid
  }

  ghost predicate Known(c: Conn, ops: seq<Op>) {
    && (forall m | m in c.sentMids :: CarriesMid(ops, m))
    && forall p | p in c.hold :: Wrote(ops, p)
  }

  predicate LiveIsFlushed(c: Conn) { c.sock.Some? && c.sock.value !in c.dead ==> c.hold == [] }

  ghost predicate BoxInv(c: Conn, ops: seq<Op>) { Unsent(c, c.hold) && Known(c, ops) && LiveIsFlushed(c) }

  // ---------------------------------------------------------------------------------------------
  // Flushing
  // ---------------------------------------------------------------------------------------------

  ghost function MidsOf(ps: seq<Payload>): set<string> { set p | p in ps && p.mid != "" :: p.mid }

  /** How far a flush of the queue gets. */
  function Reached(c: Conn, queue: seq<Payload>, alive: nat): (n: nat)
    requires c.sock.Some?
    ensures n <= |queue|
  {
    if c.sock.value in c.dead then 0 else if alive < |queue| then alive else |queue|
  }

  ghost predicate Flushed(c: Conn, queue: seq<Payload>, n: nat, leaks: bool, c': Conn)
    requires c.sock.Some? && n <= |queue|
  {
    && c'.written == c.written + queue[..n]
    && c'.hold == (if n < |queue| then [queue[n]] else [])
    && c'.arrived == c.arrived + queue[..if n < |queue| && c.sock.value !in c.dead && leaks then n + 1 else n]
    && c'.dead == (if n < |queue| then c.dead + {c.sock.value} else c.dead)
    && c'.sock == c.sock && c'.me == c.me && c'.pid == c.pid && c'.initiator == c.initiator
    && c'.sentMids == c.sentMids + MidsOf(queue[..n])
  }

  /** A flush writes the queue in order up to the first error, and keeps of the rest only the message
      that failed. */
  lemma {:induction false} FlushKeepsOne(c: Conn, queue: seq<Payload>, alive: nat, leaks: bool)
    requires c.sock.Some? && Unsent(c, queue)
    ensures Flushed(c, queue, Reached(c, queue, alive), leaks, FlushQueue(c, queue, alive, leaks))
    decreases |queue|
  {
    if queue != [] && Reached(c, queue, alive) > 0 {
      var c1 := Send(c, queue[0], true, leaks);
      RestIsUnsent(c, queue, leaks);
      FlushKeepsOne(c1, queue[1..], alive - 1, leaks);
      FirstThenRest(c, queue, Reached(c, queue, alive), leaks, FlushQueue(c1, queue[1..], alive - 1, leaks));
    }
  }

  lemma {:induction false} RestIsUnsent(c: Conn, queue: seq<Payload>, leaks: bool)
    requires c.sock.Some? && c.sock.value !in c.dead && queue != [] && Unsent(c, queue)
    ensures Unsent(Send(c, queue[0], true, leaks), queue[1..]) && !Skips(c, queue[0])
  {
    var rest := queue[1..];
    assert queue[0] in queue;
    forall p | p in rest ensures p.holdable && !Skips(Send(c, queue[0], true, leaks), p) {
      var j :| 0 <= j < |rest| && rest[j] == p;
      assert queue[j + 1] == p && p in queue;
    }
  }

  lemma {:induction false} FirstThenRest(c: Conn, queue: seq<Payload>, n: nat, leaks: bool, c': Conn)
    requires c.sock.Some? && c.sock.value !in c.dead && 0 < n <= |queue|
    requires Flushed(Send(c, queue[0], true, leaks), queue[1..], n - 1, leaks, c')
    ensures Flushed(c, queue, n, leaks, c')
  {
    assert queue[..n] == [queue[0]] + queue[1..][..n - 1];
    if n < |queue| { assert queue[..n + 1] == [queue[0]] + queue[1..][..n]; }
    assert MidsOf(queue[..n]) == MidsOf([queue[0]]) + MidsOf(queue[1..][..n - 1]);
  }

  /** Of a queue, the messages whose mids have not been written before, each mid at its first place. */
  ghost function Unwritten(queue: seq<Payload>, mids: set<string>): seq<Payload>
    decreases |queue|
  {
    if queue == [] then []
    else if queue[0].mid != "" && queue[0].mid in mids then Unwritten(queue[1..], mids)
    else [queue[0]] + Unwritten(queue[1..], mids + MidsOf([queue[0]]))
  }

  ghost predicate WroteFirst(c: Conn, left: seq<Payload>, n: nat, c': Conn)
    requires n <= |left|
  {
    && c'.written == c.written + left[..n] && c'.sentMids == c.sentMids + MidsOf(left[..n])
    && c'.hold == if n < |left| then [left[n]] else []
  }

  /** Any flush, whatever is in the queue: it writes the unwritten messages in order up to the first error,
      no mid twice, and keeps of the rest only the message that failed. */
  lemma {:induction false} FlushWritesEachMidOnce(c: Conn, queue: seq<Payload>, alive: nat, leaks: bool)
    requires c.sock.Some?
    ensures var left := Unwritten(queue, c.sentMids);
            WroteFirst(c, left, Reached(c, left, alive), FlushQueue(c, queue, alive, leaks))
    decreases |queue|
  {
    if queue != [] {
      var c1 := Send(c, queue[0], true, leaks);
      if Skips(c, queue[0]) {
        FlushWritesEachMidOnce(c, queue[1..], alive, leaks);
      } else if Takes(c, alive > 0) {
        assert c1.sentMids == c.sentMids + MidsOf([queue[0]]);
        FlushWritesEachMidOnce(c1, queue[1..], alive - 1, leaks);
        var rest := Unwritten(queue[1..], c1.sentMids);
        hide Unwritten, WroteFirst;
        var n := Reached(c1, rest, alive - 1);
        OneMoreWritten(c, c1, queue[0], rest, n, FlushQueue(c1, queue[1..], alive - 1, leaks));
      }
    }
  }

  lemma {:induction false} OneMoreWritten(c: Conn, c1: Conn, p: Payload, rest: seq<Payload>, n: nat, c': Conn)
    requires n <= |rest| && c1.written == c.written + [p] && c1.sentMids == c.sentMids + MidsOf([p])
    requires WroteFirst(c1, rest, n, c')
    ensures WroteFirst(c, [p] + rest, n + 1, c')
  {
    assert ([p] + rest)[..n + 1] == [p] + rest[..n];
    assert MidsOf([p] + rest[..n]) == MidsOf([p]) + MidsOf(rest[..n]);
  }

  // ---------------------------------------------------------------------------------------------
  // One operation
  // ---------------------------------------------------------------------------------------------

  predicate Adopts(c: Conn, op: Op) { op.DoOffer? && c.sock != Some(op.s) && !Stays(c, op.dialler) }

  /** An adoption loses nothing exactly if its flush hits no error before the last message. */
  predicate Survives(c: Conn, op: Op) {
    Adopts(c, op) ==> |c.hold| <= 1 || (op.s !in Closed(c) && op.alive + 1 >= |c.hold|)
  }

  function Closed(c: Conn): set<Sock> { if c.sock.Some? then c.dead + {c.sock.value} else c.dead }

  function Text(c: Conn): seq<Payload> { Holdables(c.written) + c.hold }

  lemma {:induction false} FreshWrite(c: Conn, ops: seq<Op>, op: Op)
    requires BoxInv(c, ops) && DistinctMids(ops + [op]) && op.DoWrite?
    ensures op.p.holdable ==> !Skips(c, op.p)
    ensures op.p.mid != "" ==> forall p | p in c.hold :: p.mid != op.p.mid
  {
    var all := ops + [op];
    forall o | o in ops && o.DoWrite? ensures Unmixed(o, op) && Unmixed(op, o) {
      var i :| 0 <= i < |ops| && ops[i] == o;
      assert Unmixed(all[i], all[|ops|]) && Unmixed(all[|ops|], all[i]);
    }
    forall p | p in c.hold && op.p.mid != "" ensures p.mid != op.p.mid {
      var o :| o in ops && o.DoWrite? && o.p == p;
    }
  }

  lemma {:induction false} KnownLonger(c: Conn, ops: seq<Op>, op: Op)
    requires Known(c, ops)
    ensures Known(c, ops + [op])
  {
    forall m | m in c.sentMids ensures CarriesMid(ops + [op], m) {
      var o :| o in ops && o.DoWrite? && o.p.mid == m;
      assert o in ops + [op];
    }
    forall p | p in c.hold ensures Wrote(ops + [op], p) {
      var o :| o in ops && o.DoWrite? && o.p == p;
      assert o in ops + [op];
    }
  }

  lemma {:induction false} Queued(c: Conn, p: Payload)
    requires Unsent(c, c.hold) && p.holdable && !Skips(c, p)
    requires p.mid != "" ==> forall q | q in c.hold :: q.mid != p.mid
    ensures Unsent(c, c.hold + [p])
  {
    var longer := c.hold + [p];
    forall i, j | 0 <= i < j < |longer| ensures longer[i].mid != "" ==> longer[i].mid != longer[j].mid {
      assert longer[i] == c.hold[i] && longer[i] in c.hold;
    }
  }

  lemma {:induction false} HoldablesSnoc(ps: seq<Payload>, p: Payload)
    ensures Holdables(ps + [p]) == Holdables(ps) + if p.holdable then [p] else []
  {
    assert (ps + [p])[..|ps|] == ps;
  }

  lemma {:induction false} WriteKnown(c: Conn, ops: seq<Op>, op: Op)
    requires Known(c, ops) && op.DoWrite?
    ensures Known(Apply(c, op), ops + [op])
  {
    KnownLonger(c, ops, op);
    assert op in ops + [op];
    assert CarriesMid(ops + [op], op.p.mid) && Wrote(ops + [op], op.p);
  }

  lemma {:induction false} WriteStep(c: Conn, ops: seq<Op>, op: Op)
    requires BoxInv(c, ops) && DistinctMids(ops + [op]) && op.DoWrite?
    ensures BoxInv(Apply(c, op), ops + [op]) && Text(Apply(c, op)) == Text(c) + New(op)
  {
    FreshWrite(c, ops, op);
    WriteKnown(c, ops, op);
    if op.p.holdable { Queued(c, op.p); }
    if Takes(c, op.ok) { HoldablesSnoc(c.written, op.p); }
  }

  /** What a flush leaves behind is again in order. */
  lemma {:induction false} FlushedIsUnsent(c: Conn, n: nat, leaks: bool, c': Conn)
    requires c.sock.Some? && n <= |c.hold| && Unsent(c, c.hold) && Flushed(c, c.hold, n, leaks, c')
    ensures Unsent(c', c'.hold)
  {
    if n < |c.hold| {
      var p := c.hold[n];
      assert p in c.hold;
      forall q | q in c.hold[..n] && q.mid != "" ensures q.mid != p.mid {
        var i :| 0 <= i < n && c.hold[i] == q;
      }
    }
  }

  lemma {:induction false} FlushedIsKnown(c: Conn, n: nat, leaks: bool, c': Conn, ops: seq<Op>)
    requires c.sock.Some? && n <= |c.hold| && Known(c, ops) && Flushed(c, c.hold, n, leaks, c')
    ensures Known(c', ops)
  {
    forall m | m in MidsOf(c.hold[..n]) ensures CarriesMid(ops, m) {
      var p :| p in c.hold[..n] && p.mid == m;
      assert Wrote(ops, p);
    }
  }

  lemma {:induction false} FlushedText(c: Conn, n: nat, leaks: bool, c': Conn)
    requires c.sock.Some? && n <= |c.hold| && Unsent(c, c.hold) && Flushed(c, c.hold, n, leaks, c')
    ensures n + 1 >= |c.hold| ==> Text(c') == Text(c)
    ensures n + 1 < |c.hold| ==> |Text(c')| < |Text(c)|
  {
    HoldablesOfBoth(c.written, c.hold[..n]);
    assert c.hold[..n] + c.hold[n..] == c.hold;
  }

  function Opened(c: Conn, op: Op): Conn
    requires op.DoOffer?
  {
    (if c.sock.Some? then Close(c, c.sock.value) else c).(sock := Some(op.s), initiator := Some(op.dialler))
  }

  lemma {:induction false} AdoptStep(c: Conn, ops: seq<Op>, op: Op)
    requires BoxInv(c, ops) && Adopts(c, op)
    ensures BoxInv(Apply(c, op), ops + [op])
    ensures Survives(c, op) ==> Text(Apply(c, op)) == Text(c)
    ensures !Survives(c, op) ==> |Text(Apply(c, op))| < |Text(c)|
  {
    var c1, c' := Opened(c, op), Apply(c, op);
    var n := Reached(c1, c.hold, op.alive);
    FlushKeepsOne(c1, c.hold, op.alive, op.leaks);
    FlushedIsUnsent(c1, n, op.leaks, c');
    KnownLonger(c1, ops, op);
    FlushedIsKnown(c1, n, op.leaks, c', ops + [op]);
    FlushedText(c1, n, op.leaks, c');
  }

  lemma {:induction false} BoxStep(c: Conn, ops: seq<Op>, op: Op)
    requires BoxInv(c, ops) && DistinctMids(ops + [op])
    ensures BoxInv(Apply(c, op), ops + [op])
    ensures Survives(c, op) ==> Text(Apply(c, op)) == Text(c) + New(op)
    ensures !Survives(c, op) ==> |Text(Apply(c, op))| < |Text(c) + New(op)|
  {
    KnownLonger(c, ops, op);
    if op.DoWrite? { WriteStep(c, ops, op); }
    else if Adopts(c, op) { AdoptStep(c, ops, op); }
  }

  // ---------------------------------------------------------------------------------------------
  // Runs
  // ---------------------------------------------------------------------------------------------

  /** No flush of the run fails before the last message of its queue. */
  predicate AllSurvive(me: Id, pid: Id, ops: seq<Op>) {
    ops == [] || (AllSurvive(me, pid, ops[..|ops| - 1]) && Survives(Reach(me, pid, ops[..|ops| - 1]), ops[|ops| - 1]))
  }

  lemma {:induction false} DistinctBefore(ops: seq<Op>)
    requires ops != [] && DistinctMids(ops)
    ensures DistinctMids(ops[..|ops| - 1])
  {
    var before := ops[..|ops| - 1];
    forall i, j | 0 <= i < |before| && 0 <= j < |before| && i != j ensures Unmixed(before[i], before[j]) {
      assert Unmixed(ops[i], ops[j]);
    }
  }

  lemma {:induction false} BoxRun(me: Id, pid: Id, ops: seq<Op>)
    requires DistinctMids(ops)
    ensures BoxInv(Reach(me, pid, ops), ops)
    ensures if AllSurvive(me, pid, ops) then Text(Reach(me, pid, ops)) == Submitted(ops)
            else |Text(Reach(me, pid, ops))| < |Submitted(ops)|
  {
    if ops != [] {
      var before, op := ops[..|ops| - 1], ops[|ops| - 1];
      assert before + [op] == ops;
      DistinctBefore(ops);
      BoxRun(me, pid, before);
      BoxStep(Reach(me, pid, before), before, op);
    }
  }

  /** Over any run of writes, drops, reader exits and offers, with any send failing: what was submitted
      is what was written followed by what is still held, so nothing is reordered, lost or written
      twice, if and only if no flush failed before the last message of its queue. */
  lemma {:induction false} SubmittedIsWrittenThenHeld(me: Id, pid: Id, ops: seq<Op>)
    requires DistinctMids(ops)
    ensures Holdables(Reach(me, pid, ops).written) + Reach(me, pid, ops).hold == Submitted(ops) <==>
            AllSurvive(me, pid, ops)
  {
    BoxRun(me, pid, ops);
  }

  /** A line is written now exactly if the answer says so, and otherwise held if it may be. */
  lemma {:induction false} WriteAnswers(c: Conn, p: Payload, ok: bool, leaks: bool)
    ensures var (c', now) := Write(c, p, ok, leaks);
            && (now <==> c.sock.Some? && c.sock.value !in c.dead && ok)
            && c'.written == c.written + (if now then [p] else [])
            && c'.hold == c.hold + if !now && p.holdable then [p] else []
  {
  }

  /** The mids a record takes for written are those of the messages that its sockets took. */
  lemma {:induction false} SentMidsAreWritten(me: Id, pid: Id, ops: seq<Op>)
    ensures Reach(me, pid, ops).sentMids == MidsOf(Reach(me, pid, ops).written)
  {
    if ops != [] {
      var c, op := Reach(me, pid, ops[..|ops| - 1]), ops[|ops| - 1];
      SentMidsAreWritten(me, pid, ops[..|ops| - 1]);
      if op.DoWrite? {
        assert MidsOf(c.written + [op.p]) == MidsOf(c.written) + MidsOf([op.p]);
      } else if Adopts(c, op) {
        var c1 := Opened(c, op);
        FlushWritesEachMidOnce(c1, c.hold, op.alive, op.leaks);
        var left := Unwritten(c.hold, c1.sentMids);
        var n := Reached(c1, left, op.alive);
        assert MidsOf(c.written + left[..n]) == MidsOf(c.written) + MidsOf(left[..n]);
      }
    }
  }

  /** Such a flush loses what is behind: two messages are held, and the first send on the next socket
      fails. */
  lemma {:induction false} FailedFlushLosesTheTail(
      me: Id, pid: Id, p: Payload, q: Payload, s: Sock, dialler: Id, leaks: bool)
    requires p.holdable && q.holdable && p.mid != "" && q.mid != "" && p.mid != q.mid
    ensures var ops := [DoWrite(p, true, false), DoWrite(q, true, false), DoOffer(s, dialler, 0, leaks)];
            && DistinctMids(ops) && !AllSurvive(me, pid, ops) && Submitted(ops) == [p, q]
            && Reach(me, pid, ops).written == [] && Reach(me, pid, ops).hold == [p]
  {
    var ops := [DoWrite(p, true, false), DoWrite(q, true, false), DoOffer(s, dialler, 0, leaks)];
    var one, two := [ops[0]], [ops[0], ops[1]];
    assert one[..0] == [] && two[..1] == one && ops[..2] == two;
    var c1, c2 := Reach(me, pid, one), Reach(me, pid, two);
    assert Reach(me, pid, []) == Start(me, pid);
    assert c1 == Apply(Reach(me, pid, one[..0]), ops[0]) == Held(Start(me, pid), p);
    assert c1.hold == [p];
    assert c2 == Held(c1, q) && c2.hold == [p, q];
    assert !Survives(c2, ops[2]);
    assert FlushQueue(Opened(c2, ops[2]), c2.hold, 0, leaks).hold == [p];
    assert Submitted(one) == [] + New(ops[0]) == [p];
    assert Submitted(two) == [p] + New(ops[1]) == [p, q];
    assert Submitted(ops) == [p, q] + New(ops[2]) == [p, q];
  }
}
