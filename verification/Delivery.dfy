/** End to end: what a peer records of the messages written to it over unreliable sockets. */
module Delivery {
  import opened ConnectionModel
  import opened Outbox
  import History

  /** The mids of the chat messages among some lines. */
  function MessageMids(ps: seq<Payload>): seq<string> {
    if ps == [] then []
    else
      var p := ps[|ps| - 1];
      MessageMids(ps[..|ps| - 1]) + if p.holdable && p.mid != "" then [p.mid] else []
  }

  lemma {:induction false} MidsOfBoth(a: seq<Payload>, b: seq<Payload>)
    ensures MessageMids(a + b) == MessageMids(a) + MessageMids(b)
  {
    if b == [] {
      assert a + b == a;
    } else {
      var n := |b| - 1;
      MidsOfBoth(a, b[..n]);
      assert (a + b)[..|a + b| - 1] == a + b[..n];
    }
  }

  lemma {:induction false} MidsOfOne(p: Payload)
    ensures MessageMids([p]) == if p.holdable && p.mid != "" then [p.mid] else []
  {
    assert [p][..0] == [];
  }

  lemma {:induction false} FirstUsesSame(mids: seq<string>, mid: string)
    ensures mid in History.FirstUses(mids) <==> mid in mids
  {
    if mids != [] {
      var n := |mids| - 1;
      FirstUsesSame(mids[..n], mid);
      assert mids == mids[..n] + [mids[n]];
    }
  }

  predicate Apart(a: seq<string>, b: seq<string>) { forall mid | mid in b :: mid !in a }

  predicate NoRepeats(a: seq<string>) { forall i, j | 0 <= i < j < |a| :: a[i] != a[j] }

  lemma {:induction false} FirstUsesOfFresh(before: seq<string>, more: seq<string>)
    requires NoRepeats(more) && Apart(before, more)
    ensures History.FirstUses(before + more) == History.FirstUses(before) + more
  {
    if more == [] {
      assert before + more == before;
    } else {
      var n := |more| - 1;
      FirstUsesOfFresh(before, more[..n]);
      assert before + more == (before + more[..n]) + [more[n]];
      History.FirstUsesSnoc(before + more[..n], more[n]);
    }
  }

  /** Up to repetitions the peer got what was written, and perhaps the first message still held. */
  ghost predicate Echo(c: Conn) {
    var got, wrote := History.FirstUses(MessageMids(c.arrived)), MessageMids(c.written);
    && (forall mid | mid in wrote :: mid in c.sentMids)
    && (got == wrote || (c.hold != [] && c.hold[0].mid != "" && got == wrote + [c.hold[0].mid]))
  }

  lemma {:induction false} MidOfQueue(ps: seq<Payload>, mid: string)
    requires mid in MessageMids(ps)
    ensures exists p | p in ps :: p.holdable && p.mid == mid && mid != ""
  {
    var n := |ps| - 1;
    assert ps == ps[..n] + [ps[n]];
    if mid in MessageMids(ps[..n]) {
      MidOfQueue(ps[..n], mid);
      var p :| p in ps[..n] && p.holdable && p.mid == mid && mid != "";
      assert p in ps;
    } else {
      assert ps[n] in ps;
    }
  }

  lemma {:induction false} SnocNoRepeats(mids: seq<string>, mid: string)
    requires NoRepeats(mids) && mid !in mids
    ensures NoRepeats(mids + [mid])
  {
  }

  lemma {:induction false} TailNoRepeats(mid: string, mids: seq<string>)
    requires NoRepeats([mid] + mids)
    ensures NoRepeats(mids) && mid !in mids
  {
    var all := [mid] + mids;
    forall i, j | 0 <= i < j < |mids| ensures mids[i] != mids[j] { assert all[i + 1] != all[j + 1]; }
    forall m | m in mids ensures m != mid {
      var j :| 0 <= j < |mids| && mids[j] == m;
      assert all[0] != all[j + 1];
    }
  }

  /** The mids in a queue that nothing is skipped of are new and different. */
  lemma {:induction false} QueueMids(c: Conn, queue: seq<Payload>)
    requires Unsent(c, queue)
    ensures NoRepeats(MessageMids(queue)) && forall mid | mid in MessageMids(queue) :: mid !in c.sentMids
  {
    forall mid | mid in MessageMids(queue) ensures mid !in c.sentMids { MidOfQueue(queue, mid); }
    if queue != [] {
      var n := |queue| - 1;
      QueueMids(c, queue[..n]);
      forall mid | mid in MessageMids(queue[..n]) ensures mid != queue[n].mid {
        MidOfQueue(queue[..n], mid);
        var p :| p in queue[..n] && p.mid == mid && mid != "";
        var i :| 0 <= i < n && queue[i] == p;
      }
      SnocNoRepeats(MessageMids(queue[..n]), queue[n].mid);
    }
  }

  /** The mids that arrived are those written and possibly one more. */
  lemma {:induction false} ArrivedMids(c: Conn, mid: string)
    requires Echo(c) && mid in MessageMids(c.arrived)
    ensures mid in c.sentMids || (c.hold != [] && mid == c.hold[0].mid)
  {
    FirstUsesSame(MessageMids(c.arrived), mid);
  }

  /** Sending the queue as far as it goes makes the peer's view catch up with it. */
  lemma {:induction false} EchoQueue(c: Conn, queue: seq<Payload>)
    requires Echo(c) && Unsent(c, c.hold) && queue <= c.hold
    requires queue != [] || History.FirstUses(MessageMids(c.arrived)) == MessageMids(c.written)
    ensures History.FirstUses(MessageMids(c.arrived) + MessageMids(queue))
        == MessageMids(c.written) + MessageMids(queue)
  {
    var got, wrote, q := MessageMids(c.arrived), MessageMids(c.written), MessageMids(queue);
    assert Unsent(c, queue) by { forall p | p in queue ensures p in c.hold {} }
    QueueMids(c, queue);
    if History.FirstUses(got) == wrote {
      forall i | 0 <= i < |got| ensures got[i] in wrote { FirstUsesSame(got, got[i]); }
      FirstUsesOfFresh(got, q);
    } else {
      EchoRest(c, queue);
    }
  }

  lemma {:induction false} CatchUp(got: seq<string>, wrote: seq<string>, h: string, rest: seq<string>)
    requires History.FirstUses(got) == wrote + [h] && NoRepeats([h] + rest) && Apart(got, rest)
    ensures History.FirstUses(got + ([h] + rest)) == wrote + ([h] + rest)
  {
    TailNoRepeats(h, rest);
    FirstUsesSame(got, h);
    History.FirstUsesSnoc(got, h);
    FirstUsesOfFresh(got + [h], rest);
    assert (got + [h]) + rest == got + ([h] + rest);
    assert (wrote + [h]) + rest == wrote + ([h] + rest);
  }

  lemma {:induction false} EchoRest(c: Conn, queue: seq<Payload>)
    requires Echo(c) && Unsent(c, c.hold) && queue <= c.hold && queue != [] && c.hold[0].mid != ""
    requires History.FirstUses(MessageMids(c.arrived)) == MessageMids(c.written) + [c.hold[0].mid]
    requires NoRepeats(MessageMids(queue)) && forall mid | mid in MessageMids(queue) :: mid !in c.sentMids
    ensures History.FirstUses(MessageMids(c.arrived) + MessageMids(queue))
        == MessageMids(c.written) + MessageMids(queue)
  {
    var h, rest := c.hold[0].mid, MessageMids(queue[1..]);
    assert c.hold[0] in c.hold && queue == [queue[0]] + queue[1..];
    MidsOfBoth([queue[0]], queue[1..]);
    MidsOfOne(queue[0]);
    assert MessageMids(queue) == [h] + rest;
    TailNoRepeats(h, rest);
    forall mid | mid in rest ensures mid !in MessageMids(c.arrived) {
      assert mid in [h] + rest;
      if mid in MessageMids(c.arrived) { ArrivedMids(c, mid); }
    }
    CatchUp(MessageMids(c.arrived), MessageMids(c.written), h, rest);
  }

  lemma {:induction false} WrittenAreSent(c: Conn, n: nat, leaks: bool, c': Conn)
    requires c.sock.Some? && n <= |c.hold| && Echo(c) && Flushed(c, c.hold, n, leaks, c')
    ensures MessageMids(c'.written) == MessageMids(c.written) + MessageMids(c.hold[..n])
    ensures forall mid | mid in MessageMids(c'.written) :: mid in c'.sentMids
  {
    MidsOfBoth(c.written, c.hold[..n]);
    forall mid | mid in MessageMids(c.hold[..n]) ensures mid in c'.sentMids { MidOfQueue(c.hold[..n], mid); }
  }

  /** A flush that stops without the failing message getting through. */
  lemma {:induction false} EchoPlainFlush(c: Conn, n: nat, c': Conn)
    requires n <= |c.hold| && Unsent(c, c.hold) && Echo(c)
    requires c'.arrived == c.arrived + c.hold[..n] && c'.hold == if n < |c.hold| then [c.hold[n]] else []
    requires MessageMids(c'.written) == MessageMids(c.written) + MessageMids(c.hold[..n])
    requires forall mid | mid in MessageMids(c'.written) :: mid in c'.sentMids
    ensures Echo(c')
  {
    MidsOfBoth(c.arrived, c.hold[..n]);
    if n > 0 || c.hold == [] {
      EchoQueue(c, c.hold[..n]);
    } else {
      assert MessageMids(c'.arrived) == MessageMids(c.arrived) && MessageMids(c'.written) == MessageMids(c.written);
    }
  }

  lemma {:induction false} MidsUpTo(ps: seq<Payload>, n: nat)
    requires n < |ps|
    ensures MessageMids(ps[..n + 1]) == MessageMids(ps[..n]) + MessageMids([ps[n]])
  {
    assert ps[..n + 1] == ps[..n] + [ps[n]];
    MidsOfBoth(ps[..n], [ps[n]]);
  }

  /** What the peer has seen when the queue got through up to and including message `n`. */
  lemma {:induction false} LeakyCatchUp(c: Conn, n: nat)
    requires n < |c.hold| && Unsent(c, c.hold) && Echo(c)
    ensures History.FirstUses(MessageMids(c.arrived + c.hold[..n + 1]))
         == MessageMids(c.written) + (MessageMids(c.hold[..n]) + MessageMids([c.hold[n]]))
  {
    EchoQueue(c, c.hold[..n + 1]);
    MidsOfBoth(c.arrived, c.hold[..n + 1]);
    MidsUpTo(c.hold, n);
  }

  lemma {:induction false} OneMoreEcho(w: seq<string>, q: seq<string>, p: Payload, c': Conn)
    requires History.FirstUses(MessageMids(c'.arrived)) == w + (q + MessageMids([p])) && p.holdable
    requires MessageMids(c'.written) == w + q && c'.hold == [p]
    requires forall mid | mid in w + q :: mid in c'.sentMids
    ensures Echo(c')
  {
    MidsOfOne(p);
    if p.mid != "" { assert w + (q + [p.mid]) == (w + q) + [p.mid]; } else { assert w + (q + []) == w + q; }
  }

  /** A flush that stops with the failing message getting through all the same. */
  lemma {:induction false} EchoLeakyFlush(c: Conn, n: nat, c': Conn)
    requires n < |c.hold| && Unsent(c, c.hold) && Echo(c)
    requires c'.arrived == c.arrived + c.hold[..n + 1] && c'.hold == [c.hold[n]]
    requires MessageMids(c'.written) == MessageMids(c.written) + MessageMids(c.hold[..n])
    requires forall mid | mid in MessageMids(c'.written) :: mid in c'.sentMids
    ensures Echo(c')
  {
    LeakyCatchUp(c, n);
    assert c.hold[n] in c.hold;
    OneMoreEcho(MessageMids(c.written), MessageMids(c.hold[..n]), c.hold[n], c');
  }

  lemma {:induction false} EchoFlush(c: Conn, n: nat, leaks: bool, c': Conn)
    requires c.sock.Some? && n <= |c.hold| && Unsent(c, c.hold) && Echo(c) && Flushed(c, c.hold, n, leaks, c')
    ensures Echo(c')
  {
    WrittenAreSent(c, n, leaks, c');
    if n < |c.hold| && c.sock.value !in c.dead && leaks {
      EchoLeakyFlush(c, n, c');
    } else {
      EchoPlainFlush(c, n, c');
    }
  }

  /** A line on a live socket, with nothing held. */
  lemma {:induction false} EchoSend(c: Conn, p: Payload, ok: bool, leaks: bool)
    requires Echo(c) && c.hold == [] && c.sock.Some? && c.sock.value !in c.dead && (p.holdable ==> !Skips(c, p))
    ensures Echo(Write(c, p, ok, leaks).0)
  {
    MidsOfBoth(c.written, [p]);
    MidsOfBoth(c.arrived, [p]);
    MidsOfOne(p);
    if p.holdable && p.mid != "" {
      History.FirstUsesSnoc(MessageMids(c.arrived), p.mid);
      if p.mid in MessageMids(c.arrived) { ArrivedMids(c, p.mid); }
    } else {
      assert MessageMids(c.written + [p]) == MessageMids(c.written);
      assert MessageMids(c.arrived + [p]) == MessageMids(c.arrived);
    }
  }

  lemma {:induction false} EchoWrite(c: Conn, ops: seq<Op>, op: Op)
    requires BoxInv(c, ops) && DistinctMids(ops + [op]) && Echo(c) && op.DoWrite?
    ensures Echo(Apply(c, op))
  {
    FreshWrite(c, ops, op);
    if c.sock.Some? && c.sock.value !in c.dead { EchoSend(c, op.p, op.ok, op.leaks); }
  }

  lemma {:induction false} EchoStep(c: Conn, ops: seq<Op>, op: Op)
    requires BoxInv(c, ops) && DistinctMids(ops + [op]) && Echo(c)
    ensures Echo(Apply(c, op))
  {
    if op.DoWrite? {
      EchoWrite(c, ops, op);
    } else if Adopts(c, op) {
      var c1 := Opened(c, op);
      FlushKeepsOne(c1, c.hold, op.alive, op.leaks);
      EchoFlush(c1, Reached(c1, c.hold, op.alive), op.leaks, Apply(c, op));
    }
  }

  lemma {:induction false} EchoRun(me: Id, pid: Id, ops: seq<Op>)
    requires DistinctMids(ops)
    ensures Echo(Reach(me, pid, ops))
  {
    if ops != [] {
      var before, op := ops[..|ops| - 1], ops[|ops| - 1];
      assert before + [op] == ops;
      DistinctBefore(ops);
      BoxRun(me, pid, before);
      EchoRun(me, pid, before);
      EchoStep(Reach(me, pid, before), before, op);
    }
  }

  lemma {:induction false} HoldablesMids(ps: seq<Payload>)
    ensures MessageMids(Holdables(ps)) == MessageMids(ps)
  {
    if ps != [] {
      var n := |ps| - 1;
      HoldablesMids(ps[..n]);
      MidsOfBoth(Holdables(ps[..n]), [ps[n]]);
      MidsOfOne(ps[n]);
      if !ps[n].holdable { assert Holdables(ps) == Holdables(ps[..n]); }
    }
  }

  /** What was written, and the first message held if there is one, are the first of what was submitted. */
  lemma {:induction false} WrittenIsAPrefix(me: Id, pid: Id, ops: seq<Op>)
    requires DistinctMids(ops) && AllSurvive(me, pid, ops)
    ensures var c := Reach(me, pid, ops);
            MessageMids(Submitted(ops)) == MessageMids(c.written) + MessageMids(c.hold)
    ensures var c := Reach(me, pid, ops);
            c.hold != [] && c.hold[0].mid != "" ==> [c.hold[0].mid] <= MessageMids(c.hold)
  {
    var c := Reach(me, pid, ops);
    BoxRun(me, pid, ops);
    HoldablesMids(c.written);
    MidsOfBoth(Holdables(c.written), c.hold);
    if c.hold != [] { FirstHeld(c); }
  }

  lemma {:induction false} FirstHeld(c: Conn)
    requires c.hold != [] && Unsent(c, c.hold)
    ensures c.hold[0].mid != "" ==> [c.hold[0].mid] <= MessageMids(c.hold)
  {
    assert c.hold == [c.hold[0]] + c.hold[1..] && c.hold[0] in c.hold;
    MidsOfBoth([c.hold[0]], c.hold[1..]);
    MidsOfOne(c.hold[0]);
  }

  /** The chat messages written, and possibly the first one still held. */
  predicate RecordedOf(c: Conn, recorded: seq<string>) {
    || recorded == MessageMids(c.written)
    || (c.hold != [] && c.hold[0].mid != "" && recorded == MessageMids(c.written) + [c.hold[0].mid])
  }

  /** End to end: over any run of the sender, with sockets failing at any send and failed sends arriving
      or not, a peer that is handed the lines that arrived, among the messages of anybody else and
      whatever else happens to its history, records of this sender the chat messages written, each once
      and in the order submitted, and at most one more: the first message still held, whose failed send
      got through. */
  lemma {:induction false} PeerRecordsEachOnce(
      me: Id, pid: Id, ops: seq<Op>, saved: seq<History.Message>, events: seq<History.Event>)
    requires DistinctMids(ops)
    requires var mids := MessageMids(Reach(me, pid, ops).arrived);
             History.Among(History.InboundMids(events), mids) == mids && History.OthersApart(events, mids)
    ensures var c, log := Reach(me, pid, ops), History.Reach(saved, events);
            RecordedOf(c, History.Among(log.recorded, MessageMids(c.arrived)))
    ensures var c, log := Reach(me, pid, ops), History.Reach(saved, events);
            AllSurvive(me, pid, ops) ==>
              History.Among(log.recorded, MessageMids(c.arrived)) <= MessageMids(Submitted(ops))
  {
    EchoRun(me, pid, ops);
    History.RecordedIsFirstUses(saved, events, MessageMids(Reach(me, pid, ops).arrived));
    if AllSurvive(me, pid, ops) { WrittenIsAPrefix(me, pid, ops); }
  }
}
