/** Friend requests waiting for the user: messages of not yet accepted peers, held within bounds for
    each peer and for the daemon. */
module HeldRequests {
  import opened Sums

  type Pid = string

  const PEER_MAX_MSGS := 32
  const PEER_MAX_BYTES := 128 * 1024
  const GLOBAL_MAX_MSGS := 4096
  const GLOBAL_MAX_BYTES := 8 * 1024 * 1024

  /** A held message and the bytes it counts for. */
  datatype Message = Message(body: string, size: nat)

  datatype Held = Held(queues: map<Pid, seq<Message>>, bytes: map<Pid, int>)

  function Queue(h: Held, p: Pid): seq<Message> { if p in h.queues then h.queues[p] else [] }

  function Bytes(h: Held, p: Pid): int { if p in h.bytes then h.bytes[p] else 0 }

  function Len(q: seq<Message>): int { |q| }

  function Same(n: int): int { n }

  ghost function TotalMsgs(h: Held): int { SumBy(h.queues, Len) }

  ghost function TotalBytes(h: Held): int { SumBy(h.bytes, Same) }

  /** Over the peer's own bounds? A first message never is. */
  predicate PeerFull(h: Held, p: Pid, m: Message) {
    Queue(h, p) != [] && (|Queue(h, p)| >= PEER_MAX_MSGS || Bytes(h, p) + m.size > PEER_MAX_BYTES)
  }

  ghost predicate GlobalFull(h: Held, m: Message) {
    TotalMsgs(h) + 1 > GLOBAL_MAX_MSGS || TotalBytes(h) + m.size > GLOBAL_MAX_BYTES
  }

  ghost predicate Admits(h: Held, p: Pid, m: Message) { !PeerFull(h, p, m) && !GlobalFull(h, m) }

  function Queued(h: Held, p: Pid, m: Message): Held {
    Held(h.queues[p := Queue(h, p) + [m]], h.bytes[p := Bytes(h, p) + m.size])
  }

  ghost function Hold(h: Held, p: Pid, m: Message): Held { if Admits(h, p, m) then Queued(h, p, m) else h }

  function Release(h: Held, p: Pid): Held { Held(h.queues - {p}, h.bytes - {p}) }

  // ---------------------------------------------------------------------------------------------
  // The queues themselves
  // ---------------------------------------------------------------------------------------------

  class PendingRequests {
    var queues: map<Pid, seq<Message>>
    var bytes: map<Pid, int>

    ghost function State(): Held
      reads this
    {
      Held(queues, bytes)
    }

    constructor ()
      ensures State() == Held(map[], map[])
    {
      queues, bytes := map[], map[];
    }

    method CountMessages() returns (n: int)
      ensures n == TotalMsgs(State())
    {
      n := 0;
      var todo := queues;
      while todo != map[]
        invariant n + SumBy(todo, Len) == TotalMsgs(State())
        decreases |todo|
      {
        var p :| p in todo;
        SumSplit(todo, Len, p);
        n := n + |todo[p]|;
        todo := todo - {p};
      }
    }

    method CountBytes() returns (n: int)
      ensures n == TotalBytes(State())
    {
      n := 0;
      var todo := bytes;
      while todo != map[]
        invariant n + SumBy(todo, Same) == TotalBytes(State())
        decreases |todo|
      {
        var p :| p in todo;
        SumSplit(todo, Same, p);
        n := n + todo[p];
        todo := todo - {p};
      }
    }

    method HoldRequest(p: Pid, m: Message) returns (held: bool)
      modifies this
      ensures State() == Hold(old(State()), p, m) && held == Admits(old(State()), p, m)
    {
      var queue := if p in queues then queues[p] else [];
      var used := if p in bytes then bytes[p] else 0;
      if queue != [] && (|queue| >= PEER_MAX_MSGS || used + m.size > PEER_MAX_BYTES) { return false; }
      var msgs := CountMessages();
      var total := CountBytes();
      if msgs + 1 > GLOBAL_MAX_MSGS || total + m.size > GLOBAL_MAX_BYTES { return false; }
      queues := queues[p := queue + [m]];
      bytes := bytes[p := used + m.size];
      return true;
    }

    method ReleaseFirst(p: Pid) returns (messages: seq<Message>)
      modifies this
      ensures State() == Release(old(State()), p) && messages == Queue(old(State()), p)
    {
      bytes := bytes - {p};
      messages := if p in queues then queues[p] else [];
      queues := queues - {p};
    }
  }

  // ---------------------------------------------------------------------------------------------
  // Runs
  // ---------------------------------------------------------------------------------------------

  datatype Op = DoHold(p: Pid, m: Message) | DoRelease(p: Pid)

  ghost function Apply(h: Held, op: Op): Held {
    match op
    case DoHold(p, m) => Hold(h, p, m)
    case DoRelease(p) => Release(h, p)
  }

  ghost function Reach(ops: seq<Op>): Held {
    if ops == [] then Held(map[], map[]) else Apply(Reach(ops[..|ops| - 1]), ops[|ops| - 1])
  }

  function SizeOf(q: seq<Message>): nat { if q == [] then 0 else SizeOf(q[..|q| - 1]) + q[|q| - 1].size }

  /** The byte accounts are those of the queues, and all bounds hold; only a single first message may
      pass its peer's byte bound. */
  ghost predicate HeldInv(h: Held) {
    && h.bytes.Keys == h.queues.Keys
    && (forall p | p in h.queues :: PeerOk(h.queues[p], h.bytes[p]))
    && TotalMsgs(h) <= GLOBAL_MAX_MSGS && TotalBytes(h) <= GLOBAL_MAX_BYTES
  }

  predicate PeerOk(q: seq<Message>, used: int) {
    0 < |q| <= PEER_MAX_MSGS && used == SizeOf(q) && (used <= PEER_MAX_BYTES || |q| == 1)
  }

  lemma {:induction false} QueuedIsOk(h: Held, p: Pid, m: Message)
    requires HeldInv(h) && !PeerFull(h, p, m)
    ensures PeerOk(Queue(h, p) + [m], Bytes(h, p) + m.size)
  {
    assert (Queue(h, p) + [m])[..|Queue(h, p)|] == Queue(h, p);
    if p in h.queues { assert PeerOk(h.queues[p], h.bytes[p]); }
  }

  lemma {:induction false} HoldKeeps(h: Held, p: Pid, m: Message)
    requires HeldInv(h) && Admits(h, p, m)
    ensures HeldInv(Queued(h, p, m))
  {
    var h', q, n := Queued(h, p, m), Queue(h, p) + [m], Bytes(h, p) + m.size;
    QueuedIsOk(h, p, m);
    forall r | r in h'.queues ensures PeerOk(h'.queues[r], h'.bytes[r]) {
      if r != p { assert PeerOk(h.queues[r], h.bytes[r]); }
    }
    QueuedTotals(h, p, m);
  }

  lemma {:induction false} QueuedTotals(h: Held, p: Pid, m: Message)
    requires h.queues.Keys == h.bytes.Keys
    ensures TotalMsgs(Queued(h, p, m)) == TotalMsgs(h) + 1
    ensures TotalBytes(Queued(h, p, m)) == TotalBytes(h) + m.size
  {
    SumUpdate(h.queues, Len, p, Queue(h, p) + [m]);
    SumUpdate(h.bytes, Same, p, Bytes(h, p) + m.size);
  }

  lemma {:induction false} ReleaseKeeps(h: Held, p: Pid)
    requires HeldInv(h)
    ensures HeldInv(Release(h, p))
  {
    SumRemove(h.queues, Len, p);
    SumRemove(h.bytes, Same, p);
    if p in h.queues { assert PeerOk(h.queues[p], h.bytes[p]); }
  }

  /** Over any run of holds and releases the bounds hold and the byte accounts agree with the queues. */
  lemma {:induction false} BoundsHold(ops: seq<Op>)
    ensures HeldInv(Reach(ops))
  {
    if ops != [] {
      var h, op := Reach(ops[..|ops| - 1]), ops[|ops| - 1];
      BoundsHold(ops[..|ops| - 1]);
      match op
      case DoHold(p, m) => if Admits(h, p, m) { HoldKeeps(h, p, m); }
      case DoRelease(p) => ReleaseKeeps(h, p);
    }
  }

  /** The messages of a peer that were held since its last release, in order. */
  ghost function HeldSince(ops: seq<Op>, p: Pid): seq<Message> {
    if ops == [] then []
    else
      var before, op := ops[..|ops| - 1], ops[|ops| - 1];
      match op
      case DoRelease(q) => if q == p then [] else HeldSince(before, p)
      case DoHold(q, m) => HeldSince(before, p) + if q == p && Admits(Reach(before), p, m) then [m] else []
  }

  /** Nothing held is ever evicted or reordered: a release hands back exactly what was held since the
      last one. */
  lemma {:induction false} ReleaseReturnsWhatWasHeld(ops: seq<Op>, p: Pid)
    ensures Queue(Reach(ops), p) == HeldSince(ops, p)
  {
    if ops != [] {
      ReleaseReturnsWhatWasHeld(ops[..|ops| - 1], p);
      if ops[|ops| - 1].DoHold? && !(ops[|ops| - 1].p == p && Admits(Reach(ops[..|ops| - 1]), p, ops[|ops| - 1].m)) {
        assert HeldSince(ops, p) == HeldSince(ops[..|ops| - 1], p);
      }
    }
  }

  /** A peer none of whose messages are held, new or just released, gets its first message in exactly if
      the daemon as a whole has room: earlier messages of the same peer leave nothing behind. */
  lemma {:induction false} FirstMessageNeedsOnlyGlobalRoom(ops: seq<Op>, p: Pid, m: Message)
    requires HeldSince(ops, p) == []
    ensures Admits(Reach(ops), p, m) <==>
              TotalMsgs(Reach(ops)) < GLOBAL_MAX_MSGS && TotalBytes(Reach(ops)) + m.size <= GLOBAL_MAX_BYTES
    ensures p !in Reach(ops).queues && p !in Reach(ops).bytes
  {
    ReleaseReturnsWhatWasHeld(ops, p);
    BoundsHold(ops);
  }

  /** Every message: it is admitted exactly if it is its peer's first, or with those held since the last
      release makes at most 32 and 128 KB, and the daemon as a whole has room. */
  lemma {:induction false} AdmittedExactly(ops: seq<Op>, p: Pid, m: Message)
    ensures var held := HeldSince(ops, p);
            Admits(Reach(ops), p, m) <==>
              && (held == [] || (|held| + 1 <= 32 && SizeOf(held) + m.size <= 128 * 1024))
              && TotalMsgs(Reach(ops)) + 1 <= 4096 && TotalBytes(Reach(ops)) + m.size <= 8 * 1024 * 1024
  {
    ReleaseReturnsWhatWasHeld(ops, p);
    BoundsHold(ops);
    var h := Reach(ops);
    if p in h.queues { assert PeerOk(h.queues[p], h.bytes[p]); }
  }
}
