/** The one socket of a connection record: exactly when the slot holds which socket, whose it is, and what
    becomes of the sockets that leave it. */
module ConnectionSlot {
  import opened Options
  import opened ConnectionModel
  import opened Outbox

  /** Of the two ends, the dialler is the one with the lower id. */
  predicate IsLower(me: Id, pid: Id, dialler: Id) { dialler in {me, pid} && dialler <= me && dialler <= pid }

  /** Operation `j` offers socket `s` and the slot takes it: it was empty, or the dialler is the one with
      the lower id, and it did not hold `s` already. */
  predicate Adopted(me: Id, pid: Id, ops: seq<Op>, j: nat, s: Sock) {
    j < |ops| && ops[j].DoOffer? && ops[j].s == s &&
    var before := Reach(me, pid, ops[..j]).sock;
    before == None || (before != Some(s) && IsLower(me, pid, ops[j].dialler))
  }

  /** Operation `k` takes socket `s` out of the slot that holds it: its reader ends, the connection is
      dropped, a write on it fails, or the slot takes another socket. */
  predicate Displaced(me: Id, pid: Id, ops: seq<Op>, k: nat, s: Sock) {
    k < |ops| &&
    match ops[k]
    case DoReaderEnd(t) => t == s
    case DoDrop => true
    case DoWrite(_, ok, _) => !ok || s in Reach(me, pid, ops[..k]).dead
    case DoOffer(t, _, _, _) => t != s && Adopted(me, pid, ops, k, t)
  }

  /** The slot took `s` at operation `j` and nothing has displaced it since. */
  ghost predicate HeldSince(me: Id, pid: Id, ops: seq<Op>, s: Sock, j: nat) {
    Adopted(me, pid, ops, j, s) && forall k: nat | j < k < |ops| :: !Displaced(me, pid, ops, k, s)
  }

  lemma {:induction false} FlushKeepsSlot(c: Conn, queue: seq<Payload>, alive: nat, leaks: bool)
    requires c.sock.Some?
    ensures var c' := FlushQueue(c, queue, alive, leaks);
            c'.sock == c.sock && c'.initiator == c.initiator && c'.me == c.me && c'.pid == c.pid && c.dead <= c'.dead
    decreases |queue|
  {
    if queue != [] {
      if Skips(c, queue[0]) { FlushKeepsSlot(c, queue[1..], alive, leaks); }
      else if Takes(c, alive > 0) { FlushKeepsSlot(Send(c, queue[0], true, leaks), queue[1..], alive - 1, leaks); }
    }
  }

  /** What one operation does to the slot. */
  ghost predicate SlotMoved(c: Conn, op: Op, c': Conn) {
    && c'.me == c.me && c'.pid == c.pid && c.dead <= c'.dead
    && (c.sock.Some? && c'.sock != c.sock ==> c.sock.value in c'.dead)
    && match op
       case DoOffer(s, dialler, _, _) =>
         if c.sock == None || (c.sock != Some(s) && IsLower(c.me, c.pid, dialler))
         then c'.sock == Some(s) && c'.initiator == Some(dialler)
         else c'.sock == c.sock && c'.initiator == c.initiator
       case DoReaderEnd(s) =>
         && s in c'.dead
         && if c.sock == Some(s) then c'.sock == None && c'.initiator == None
            else c'.sock == c.sock && c'.initiator == c.initiator
       case DoDrop => c'.sock == None && c'.initiator == None
       case DoWrite(_, ok, _) =>
         && c'.initiator == c.initiator
         && c'.sock == if c.sock.Some? && (!ok || c.sock.value in c.dead) then None else c.sock
  }

  lemma {:induction false} SlotStep(c: Conn, op: Op)
    ensures SlotMoved(c, op, Apply(c, op))
  {
    if Adopts(c, op) {
      var c1 := Opened(c, op);
      FlushKeepsSlot(c1, c1.hold, op.alive, op.leaks);
    }
  }

  lemma {:induction false} Snoc(me: Id, pid: Id, ops: seq<Op>, op: Op)
    ensures Reach(me, pid, ops + [op]) == Apply(Reach(me, pid, ops), op)
    ensures SlotMoved(Reach(me, pid, ops), op, Reach(me, pid, ops + [op]))
  {
    assert (ops + [op])[..|ops|] == ops;
    SlotStep(Reach(me, pid, ops), op);
  }

  lemma {:induction false} WhoWeAre(me: Id, pid: Id, ops: seq<Op>)
    ensures Reach(me, pid, ops).me == me && Reach(me, pid, ops).pid == pid
  {
    if ops != [] {
      var before := ops[..|ops| - 1];
      WhoWeAre(me, pid, before);
      SlotStep(Reach(me, pid, before), ops[|ops| - 1]);
    }
  }

  lemma {:induction false} SamePast(me: Id, pid: Id, ops: seq<Op>, op: Op, k: nat, s: Sock)
    requires k < |ops|
    ensures Adopted(me, pid, ops + [op], k, s) == Adopted(me, pid, ops, k, s)
    ensures Displaced(me, pid, ops + [op], k, s) == Displaced(me, pid, ops, k, s)
  {
    assert (ops + [op])[..k] == ops[..k];
  }

  lemma {:induction false} HeldOn(me: Id, pid: Id, ops: seq<Op>, op: Op, s: Sock, j: nat)
    ensures HeldSince(me, pid, ops + [op], s, j) <==>
            || (j == |ops| && Adopted(me, pid, ops + [op], j, s))
            || (HeldSince(me, pid, ops, s, j) && !Displaced(me, pid, ops + [op], |ops|, s))
  {
    var longer := ops + [op];
    assert Adopted(me, pid, longer, j, s) ==> j <= |ops|;
    assert Adopted(me, pid, ops, j, s) ==> j < |ops|;
    hide Adopted, Displaced;
    forall k: nat | k < |ops|
      ensures Adopted(me, pid, ops + [op], k, s) == Adopted(me, pid, ops, k, s)
      ensures Displaced(me, pid, ops + [op], k, s) == Displaced(me, pid, ops, k, s)
    {
      SamePast(me, pid, ops, op, k, s);
    }
    if j < |ops| && HeldSince(me, pid, longer, s, j) {
      assert !Displaced(me, pid, longer, |ops|, s);
      forall k: nat | j < k < |ops| ensures !Displaced(me, pid, ops, k, s) {
        assert !Displaced(me, pid, longer, k, s);
      }
    }
  }

  ghost predicate IsHeld(me: Id, pid: Id, ops: seq<Op>, s: Sock) { exists j: nat :: HeldSince(me, pid, ops, s, j) }

  lemma {:induction false} IsHeldOn(me: Id, pid: Id, ops: seq<Op>, op: Op, s: Sock)
    ensures IsHeld(me, pid, ops + [op], s) <==>
            || Adopted(me, pid, ops + [op], |ops|, s)
            || (IsHeld(me, pid, ops, s) && !Displaced(me, pid, ops + [op], |ops|, s))
  {
    hide Adopted, Displaced, HeldSince;
    forall j: nat
      ensures HeldSince(me, pid, ops + [op], s, j) <==>
              || (j == |ops| && Adopted(me, pid, ops + [op], j, s))
              || (HeldSince(me, pid, ops, s, j) && !Displaced(me, pid, ops + [op], |ops|, s))
    {
      HeldOn(me, pid, ops, op, s, j);
    }
    if IsHeld(me, pid, ops, s) {
      var j: nat :| HeldSince(me, pid, ops, s, j);
      assert HeldSince(me, pid, ops + [op], s, j) || Displaced(me, pid, ops + [op], |ops|, s);
    }
    if Adopted(me, pid, ops + [op], |ops|, s) { assert HeldSince(me, pid, ops + [op], s, |ops|); }
  }

  /** Over every run the slot holds a socket exactly if it took that socket and since then its reader has
      not ended, the connection was not dropped, no write on it failed, and no socket dialled by the lower
      id has taken its place. So a slot whose socket is gone is free, and takes whichever comes next. */
  lemma {:induction false} SlotHoldsExactly(me: Id, pid: Id, ops: seq<Op>, s: Sock)
    ensures Reach(me, pid, ops).sock == Some(s) <==> IsHeld(me, pid, ops, s)
  {
    hide Apply, IsHeld;
    if ops == [] {
      NothingHeld(me, pid, s);
    } else {
      var before, op := ops[..|ops| - 1], ops[|ops| - 1];
      assert ops == before + [op] && ops[..|before|] == before;
      SlotHoldsExactly(me, pid, before, s);
      WhoWeAre(me, pid, before);
      Snoc(me, pid, before, op);
      IsHeldOn(me, pid, before, op, s);
    }
  }

  lemma {:induction false} NothingHeld(me: Id, pid: Id, s: Sock)
    ensures !IsHeld(me, pid, [], s)
  {
  }

  /** The slot remembers who dialled the socket it holds, and a socket it once held and no longer does is
      closed for good. */
  lemma {:induction false} SlotRemembersItsDialler(me: Id, pid: Id, ops: seq<Op>, s: Sock, j: nat)
    requires Adopted(me, pid, ops, j, s)
    ensures HeldSince(me, pid, ops, s, j) ==> Reach(me, pid, ops).initiator == Some(ops[j].dialler)
    ensures Reach(me, pid, ops).sock != Some(s) ==> s in Reach(me, pid, ops).dead
    decreases |ops|
  {
    hide Apply;
    var before, op := ops[..|ops| - 1], ops[|ops| - 1];
    assert ops == before + [op] && ops[..|before|] == before;
    WhoWeAre(me, pid, before);
    Snoc(me, pid, before, op);
    if j < |before| {
      SamePast(me, pid, before, op, j, s);
      HeldOn(me, pid, before, op, s, j);
      SlotRemembersItsDialler(me, pid, before, s, j);
      SlotHoldsExactly(me, pid, before, s);
      hide Adopted;
    }
  }

  /** Once the reader of the active socket has ended, the next socket offered is taken, whoever dialled it. */
  lemma {:induction false} FreeSlotTakesTheNext(
      me: Id, pid: Id, ops: seq<Op>, s: Sock, t: Sock, dialler: Id, alive: nat, leaks: bool)
    requires Reach(me, pid, ops).sock == Some(s)
    ensures Reach(me, pid, ops + [DoReaderEnd(s)]).sock == None
    ensures Reach(me, pid, ops + [DoReaderEnd(s)] + [DoOffer(t, dialler, alive, leaks)]).sock == Some(t)
  {
    Snoc(me, pid, ops, DoReaderEnd(s));
    Snoc(me, pid, ops + [DoReaderEnd(s)], DoOffer(t, dialler, alive, leaks));
  }

  /** The answer to an offer says whether the slot holds the socket now. */
  lemma {:induction false} OfferAnswers(c: Conn, s: Sock, dialler: Id, alive: nat, leaks: bool)
    ensures Offer(c, s, dialler, alive, leaks).1 <==> Offer(c, s, dialler, alive, leaks).0.sock == Some(s)
  {
    var op := DoOffer(s, dialler, alive, leaks);
    SlotStep(c, op);
    assert Apply(c, op) == Offer(c, s, dialler, alive, leaks).0;
    hide FlushQueue;
  }
}
