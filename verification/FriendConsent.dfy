/** Friendship only by consent: over whole runs, with restarts that lose records, who is confirmed was
    agreed to by the user since the last parting, and the ledger mirrors exactly who is confirmed. */
module FriendConsent {
  import opened Friends

  // ---------------------------------------------------------------------------------------------
  // What the list operations do to the set of ids and the set of confirmed ids
  // ---------------------------------------------------------------------------------------------

  lemma {:induction false} ConsIds(f: Friend, rest: seq<Friend>)
    ensures Ids([f] + rest) == {f.id} + Ids(rest)
    ensures ConfirmedIds([f] + rest) == (if f.confirmed then {f.id} else {}) + ConfirmedIds(rest)
  {
  }

  lemma {:induction false} DistinctTail(f: Friend, rest: seq<Friend>)
    requires Distinct([f] + rest)
    ensures f.id !in Ids(rest) && Distinct(rest)
  {
    var all := [f] + rest;
    forall g | g in rest ensures g.id != f.id {
      var j :| 0 <= j < |rest| && rest[j] == g;
      assert all[0].id != all[j + 1].id;
    }
    forall i, j | 0 <= i < j < |rest| ensures rest[i].id != rest[j].id { assert all[i + 1].id != all[j + 1].id; }
  }

  lemma {:induction false} DistinctCons(f: Friend, rest: seq<Friend>)
    requires f.id !in Ids(rest) && Distinct(rest)
    ensures Distinct([f] + rest)
  {
    var all := [f] + rest;
    forall i, j | 0 <= i < j < |all| ensures all[i].id != all[j].id {
      assert all[j] == rest[j - 1];
      if i == 0 { assert rest[j - 1].id in Ids(rest); } else { assert all[i] == rest[i - 1]; }
    }
  }

  lemma {:induction false} ConsSets(f: Friend, rest: seq<Friend>)
    ensures Ids([f] + rest) == {f.id} + Ids(rest)
    ensures ConfirmedIds([f] + rest) == (if f.confirmed then {f.id} else {}) + ConfirmedIds(rest)
    ensures Distinct([f] + rest) <==> f.id !in Ids(rest) && Distinct(rest)
  {
    ConsIds(f, rest);
    if Distinct([f] + rest) { DistinctTail(f, rest); }
    if f.id !in Ids(rest) && Distinct(rest) { DistinctCons(f, rest); }
  }

  lemma {:induction false} HeadAndTail(friends: seq<Friend>)
    requires friends != []
    ensures Ids(friends) == {friends[0].id} + Ids(friends[1..])
    ensures ConfirmedIds(friends) == (if friends[0].confirmed then {friends[0].id} else {}) + ConfirmedIds(friends[1..])
    ensures Distinct(friends) <==> friends[0].id !in Ids(friends[1..]) && Distinct(friends[1..])
  {
    assert friends == [friends[0]] + friends[1..];
    ConsSets(friends[0], friends[1..]);
  }

  lemma {:induction false} ConfirmedAreIds(friends: seq<Friend>)
    ensures ConfirmedIds(friends) <= Ids(friends)
  {
  }

  lemma {:induction false} UpsertSets(friends: seq<Friend>, r: Friend)
    requires Distinct(friends)
    ensures var u := Upsert(friends, r);
            && Distinct(u) && Ids(u) == Ids(friends) + {r.id}
            && ConfirmedIds(u) == ConfirmedIds(friends) - {r.id} + if r.confirmed then {r.id} else {}
  {
    if friends == [] {
      assert Upsert(friends, r) == [r] + [];
      ConsSets(r, []);
    } else {
      HeadAndTail(friends);
      ConfirmedAreIds(friends[1..]);
      if friends[0].id == r.id {
        ConsSets(r, friends[1..]);
      } else {
        UpsertSets(friends[1..], r);
        ConsSets(friends[0], Upsert(friends[1..], r));
      }
    }
  }

  lemma {:induction false} WithoutSets(friends: seq<Friend>, p: Pid)
    requires Distinct(friends)
    ensures var w := Without(friends, p);
            && Distinct(w) && Ids(w) == Ids(friends) - {p} && ConfirmedIds(w) == ConfirmedIds(friends) - {p}
  {
    if friends != [] {
      HeadAndTail(friends);
      ConfirmedAreIds(friends[1..]);
      WithoutSets(friends[1..], p);
      if friends[0].id == p {
        assert Without(friends, p) == Without(friends[1..], p);
      } else {
        ConsSets(friends[0], Without(friends[1..], p));
      }
    }
  }

  lemma {:induction false} RenamedSets(friends: seq<Friend>, p: Pid, name: string)
    requires Distinct(friends)
    ensures var r := Renamed(friends, p, name);
            Distinct(r) && Ids(r) == Ids(friends) && ConfirmedIds(r) == ConfirmedIds(friends)
  {
    if friends != [] {
      HeadAndTail(friends);
      if friends[0].id == p && friends[0].name in {"", "Unknown"} {
        ConsSets(friends[0].(name := name), friends[1..]);
      } else {
        RenamedSets(friends[1..], p, name);
        ConsSets(friends[0], Renamed(friends[1..], p, name));
      }
    }
  }

  lemma {:induction false} FirstIsOnly(friends: seq<Friend>, p: Pid)
    requires Distinct(friends)
    ensures FirstUnconfirmed(friends, p) <==> p in Ids(friends) && p !in ConfirmedIds(friends)
  {
    if friends != [] {
      HeadAndTail(friends);
      FirstIsOnly(friends[1..], p);
    }
  }

  lemma {:induction false} ConfirmedOnce(friends: seq<Friend>, f: Friend)
    requires Distinct(friends) && f in friends && f.id in ConfirmedIds(friends)
    ensures f.confirmed
  {
    var g :| g in friends && g.confirmed && g.id == f.id;
    var i :| 0 <= i < |friends| && friends[i] == f;
    var j :| 0 <= j < |friends| && friends[j] == g;
    assert i == j;
  }

  // ---------------------------------------------------------------------------------------------
  // One step
  // ---------------------------------------------------------------------------------------------

  /** Every id occurs once, and the ledger holds exactly the confirmed ids (up to the empty id). */
  ghost predicate Mirrored(b: Book) {
    && Distinct(b.friends) && ConfirmedIds(b.friends) <= b.ledger.Keys
    && forall p | p in b.ledger && p != "" :: p in ConfirmedIds(b.friends)
  }

  /** The operation runs the local unfriending of the peer. */
  ghost predicate Parts(b: Book, op: Op, p: Pid) {
    match op
    case Reject(q) => q == p
    case Remove(q) => q == p
    case Removed(q) => q == p && p != ""
    case Rejected(q) => q == p && p in Ids(b.friends) && p !in ConfirmedIds(b.friends)
    case Cancelled(q) => q == p && p in Ids(b.friends) && p !in ConfirmedIds(b.friends)
    case _ => false
  }

  /** A request of ours goes out to the peer. */
  predicate Asks(op: Op, p: Pid) {
    p != "" && match op
               case Request(q, sent) => q == p && sent
               case Add(q, _, _, sent) => q == p && sent
               case _ => false
  }

  /** An outstanding request to the peer ends: parted, withdrawn, declined, answered, or lost with the
      process. */
  ghost predicate Settles(b: Book, op: Op, p: Pid) {
    Parts(b, op, p) ||
    match op
    case Cancel(q) => q == p && p != "" && p !in ConfirmedIds(b.friends)
    case UdpRequest(q, _, _, accepting) => q == p && accepting
    case TcpRequest(q, _, _, accepting) => q == p && accepting && p !in ConfirmedIds(b.friends)
    case Accepted(q, _, _) => q == p
    case Rejected(q) => q == p
    case Restart(_) => true
    case _ => false
  }

  /** A message of a peer that can confirm it. */
  predicate Confirming(op: Op, p: Pid) {
    match op
    case UdpRequest(q, _, _, accepting) => q == p && accepting
    case TcpRequest(q, _, _, accepting) => q == p && accepting
    case Accepted(q, _, _) => q == p
    case _ => false
  }

  /** Whom the user confirms by a command. */
  predicate Confirms(op: Op, p: Pid) {
    match op
    case Accept(q, _, _) => q == p
    case Add(q, _, _, _) => q == p && p != ""
    case _ => false
  }

  lemma {:induction false} CompleteSets(b: Book, p: Pid, address: string, name: string)
    requires Mirrored(b)
    ensures var b' := Complete(b, p, address, name);
            && Mirrored(b') && ConfirmedIds(b'.friends) == ConfirmedIds(b.friends) + {p} && b'.wanted == b.wanted - {p}
  {
    UpsertSets(b.friends, Friend(p, address, name, true));
  }

  lemma {:induction false} UnfriendSets(b: Book, p: Pid)
    requires Mirrored(b)
    ensures var b' := Unfriend(b, p);
            && Mirrored(b') && ConfirmedIds(b'.friends) == ConfirmedIds(b.friends) - {p} && b'.wanted == b.wanted - {p}
  {
    WithoutSets(b.friends, p);
  }

  lemma {:induction false} SyncSets(b: Book, p: Pid, name: string)
    requires Mirrored(b)
    ensures var b' := SyncName(b, p, name);
            && Mirrored(b') && ConfirmedIds(b'.friends) == ConfirmedIds(b.friends) && b'.wanted == b.wanted
  {
    RenamedSets(b.friends, p, name);
  }

  /** Confirming a peer by a command. */
  lemma {:induction false} ConfirmSets(b: Book, p: Pid, address: string, name: string)
    requires Mirrored(b)
    ensures var b' := AddFriend(b, Friend(p, address, name, true));
            && Mirrored(b') && ConfirmedIds(b'.friends) == ConfirmedIds(b.friends) + {p} && b'.wanted == b.wanted
  {
    UpsertSets(b.friends, Friend(p, address, name, true));
  }

  lemma {:induction false} CommandSets(b: Book, op: Op)
    requires Mirrored(b) && Local(op)
    ensures var b' := Apply(b, op); Mirrored(b') && SetsMoved(b, op, b')
  {
    match op
    case Accept(p, address, name) => ConfirmSets(b, p, address, name);
    case Add(p, address, name, _) => ConfirmSets(b, p, address, name);
    case Reject(p) => UnfriendSets(b, p);
    case Remove(p) => UnfriendSets(b, p);
    case Request(_, _) =>
    case Cancel(_) =>
  }

  lemma {:induction false} UdpRequestSets(b: Book, op: Op)
    requires Mirrored(b) && op.UdpRequest?
    ensures var b' := Apply(b, op); Mirrored(b') && SetsMoved(b, op, b')
  {
    SyncSets(b, op.p, op.name);
    CompleteSets(SyncName(b, op.p, op.name), op.p, op.address, op.name);
  }

  lemma {:induction false} TcpRequestSets(b: Book, op: Op)
    requires Mirrored(b) && op.TcpRequest?
    ensures var b' := Apply(b, op); Mirrored(b') && SetsMoved(b, op, b')
  {
    CompleteSets(b, op.p, op.address, op.name);
    if !IsFriend(b.friends, op.p) { NewcomerSets(b, op.p, op.address, op.name); }
  }

  lemma {:induction false} AcceptedSets(b: Book, op: Op)
    requires Mirrored(b) && op.Accepted?
    ensures var b' := Apply(b, op); Mirrored(b') && SetsMoved(b, op, b')
  {
    CompleteSets(b, op.p, op.address, op.name);
  }

  lemma {:induction false} PartingSets(b: Book, op: Op)
    requires Mirrored(b) && (op.Rejected? || op.Cancelled? || op.Removed? || op.Hello?)
    ensures var b' := Apply(b, op); Mirrored(b') && SetsMoved(b, op, b')
  {
    match op
    case Rejected(p) =>
      FirstIsOnly(b.friends, p);
      UnfriendSets(Forget(b, p), p);
    case Cancelled(p) =>
      FirstIsOnly(b.friends, p);
      UnfriendSets(b, p);
    case Removed(p) => UnfriendSets(b, p);
    case Hello(p, name) => SyncSets(b, p, name);
  }

  lemma {:induction false} ApplySets(b: Book, op: Op)
    requires Mirrored(b) && !op.Restart?
    ensures var b' := Apply(b, op); Mirrored(b') && SetsMoved(b, op, b')
  {
    if Local(op) { CommandSets(b, op); }
    else if op.UdpRequest? { UdpRequestSets(b, op); }
    else if op.TcpRequest? { TcpRequestSets(b, op); }
    else if op.Accepted? { AcceptedSets(b, op); }
    else { PartingSets(b, op); }
  }

  lemma {:induction false} NewcomerSets(b: Book, p: Pid, address: string, name: string)
    requires Mirrored(b) && !IsFriend(b.friends, p)
    ensures var b' := AddFriend(b, Friend(p, address, name, false));
            && Mirrored(b') && ConfirmedIds(b'.friends) == ConfirmedIds(b.friends) && b'.wanted == b.wanted
  {
    UpsertSets(b.friends, Friend(p, address, name, false));
    assert p !in ConfirmedIds(b.friends);
  }

  /** What one operation does to who is confirmed and to what is outstanding, peer by peer. */
  ghost predicate SetsMoved(b: Book, op: Op, b': Book) {
    && (forall p :: p in b'.wanted <==> (Asks(op, p) || (p in b.wanted && !Settles(b, op, p))))
    && forall p :: p in ConfirmedIds(b'.friends) <==>
         (Confirms(op, p) || (Confirming(op, p) && p in b.wanted) || (p in ConfirmedIds(b.friends) && !Parts(b, op, p)))
  }

  // ---------------------------------------------------------------------------------------------
  // Restarts
  // ---------------------------------------------------------------------------------------------

  lemma {:induction false} RepairedMember(friends: seq<Friend>, ledger: map<Pid, string>, fixed: seq<Friend>, f: Friend)
    requires Repaired(friends, ledger, fixed) && f in fixed
    ensures f in friends || FromLedger(f, ledger)
  {
    var i :| 0 <= i < |fixed| && fixed[i] == f;
    if i < |friends| { assert fixed[..|friends|][i] == f; }
  }

  lemma {:induction false} RepairedDistinct(friends: seq<Friend>, ledger: map<Pid, string>, fixed: seq<Friend>)
    requires Repaired(friends, ledger, fixed) && Distinct(friends)
    ensures Distinct(fixed)
  {
    var n := |friends|;
    forall i, j | 0 <= i < j < |fixed| ensures fixed[i].id != fixed[j].id {
      if i < n {
        assert fixed[i] == fixed[..n][i] == friends[i];
        if j < n { assert fixed[j] == fixed[..n][j] == friends[j]; }
      }
    }
  }

  /** However many records the configuration lost, a restart brings back exactly the confirmed peers
      (a peer with the empty id only if its record was kept). */
  lemma {:induction false} RestartRestoresTheConfirmed(b: Book, kept: seq<Friend>, b': Book)
    requires Mirrored(b) && Step(b, Restart(kept), b')
    ensures Mirrored(b') && b'.wanted == {}
    ensures forall p :: p in ConfirmedIds(b'.friends) <==>
              p in ConfirmedIds(b.friends) && (p != "" || p in ConfirmedIds(kept))
  {
    RepairedDistinct(kept, b.ledger, b'.friends);
    forall p | p in ConfirmedIds(b'.friends)
      ensures p in ConfirmedIds(b.friends) && (p != "" || p in ConfirmedIds(kept))
    {
      var f :| f in b'.friends && f.confirmed && f.id == p;
      RepairedMember(kept, b.ledger, b'.friends, f);
    }
    forall p | p in ConfirmedIds(b.friends) && (p != "" || p in ConfirmedIds(kept))
      ensures p in ConfirmedIds(b'.friends)
    {
      if p in ConfirmedIds(kept) {
        var f :| f in kept && f.confirmed && f.id == p;
        assert b'.friends[..|kept|] == kept;
        assert f in b'.friends;
      } else {
        var f :| f in b'.friends && f.id == p;
        RepairedMember(kept, b.ledger, b'.friends, f);
        if f in kept { ConfirmedOnce(b.friends, f); }
      }
    }
  }

  // ---------------------------------------------------------------------------------------------
  // Runs
  // ---------------------------------------------------------------------------------------------

  ghost predicate StepAt(states: seq<Book>, ops: seq<Op>, k: int) {
    0 <= k < |ops| && k + 1 < |states| && Step(states[k], ops[k], states[k + 1])
  }

  /** A run from nothing: no friends, an empty ledger, nothing outstanding. */
  ghost predicate IsRun(states: seq<Book>, ops: seq<Op>) {
    && |states| == |ops| + 1 && states[0] == Book([], map[], {})
    && forall k | 0 <= k < |ops| :: StepAt(states, ops, k)
  }

  ghost predicate Moved(b: Book, op: Op, b': Book) {
    && (forall p :: p in b'.wanted <==> (Asks(op, p) || (p in b.wanted && !Settles(b, op, p))))
    && forall p :: p in ConfirmedIds(b'.friends) ==>
         (Confirms(op, p) || (Confirming(op, p) && p in b.wanted) || (p in ConfirmedIds(b.friends) && !Parts(b, op, p)))
  }

  /** At every moment of every run each id is recorded once, and the ledger holds exactly the confirmed
      peers. */
  lemma {:induction false} LedgerMirrorsTheConfirmed(states: seq<Book>, ops: seq<Op>, k: nat)
    requires IsRun(states, ops) && k < |states|
    ensures Mirrored(states[k])
    ensures k < |ops| ==> Moved(states[k], ops[k], states[k + 1])
    decreases k, 1
  {
    if k > 0 {
      LedgerMirrorsTheConfirmed(states, ops, k - 1);
      StepMirrors(states, ops, k - 1);
    }
    if k < |ops| { StepMirrors(states, ops, k); }
  }

  lemma {:induction false} StepMirrors(states: seq<Book>, ops: seq<Op>, k: nat)
    requires IsRun(states, ops) && k < |ops| && Mirrored(states[k])
    ensures Mirrored(states[k + 1]) && Moved(states[k], ops[k], states[k + 1])
  {
    assert StepAt(states, ops, k);
    if ops[k].Restart? { RestartRestoresTheConfirmed(states[k], ops[k].kept, states[k + 1]); }
    else { ApplySets(states[k], ops[k]); }
  }

  /** The last operation before `k` that had to do with a request to the peer sent one. */
  ghost predicate Outstanding(states: seq<Book>, ops: seq<Op>, k: nat, p: Pid)
    requires |states| == |ops| + 1 && k <= |ops|
  {
    k > 0 && (Asks(ops[k - 1], p) || (!Settles(states[k - 1], ops[k - 1], p) && Outstanding(states, ops, k - 1, p)))
  }

  /** A peer is wanted exactly while a request to it is outstanding. */
  lemma {:induction false} WantedMeansOutstanding(states: seq<Book>, ops: seq<Op>, k: nat, p: Pid)
    requires IsRun(states, ops) && k < |states|
    ensures p in states[k].wanted <==> Outstanding(states, ops, k, p)
  {
    if k > 0 {
      WantedMeansOutstanding(states, ops, k - 1, p);
      LedgerMirrorsTheConfirmed(states, ops, k - 1);
    }
  }

  /** When a message confirms a peer that was not confirmed, that peer sent it, a request of ours to
      that peer was outstanding, and it no longer is. */
  lemma {:induction false} MessagesConfirmOnlyTheRequested(states: seq<Book>, ops: seq<Op>, k: nat, p: Pid)
    requires IsRun(states, ops) && k < |ops| && !Local(ops[k])
    requires p in ConfirmedIds(states[k + 1].friends) && p !in ConfirmedIds(states[k].friends)
    ensures Confirming(ops[k], p) && Outstanding(states, ops, k, p) && !Outstanding(states, ops, k + 1, p)
  {
    LedgerMirrorsTheConfirmed(states, ops, k);
    WantedMeansOutstanding(states, ops, k, p);
    WantedMeansOutstanding(states, ops, k + 1, p);
  }

  lemma {:induction false} OutstandingWasAsked(states: seq<Book>, ops: seq<Op>, k: nat, p: Pid) returns (i: nat)
    requires |states| == |ops| + 1 && k <= |ops| && Outstanding(states, ops, k, p)
    ensures i < k && Asks(ops[i], p) && forall j | i < j < k :: !Parts(states[j], ops[j], p)
  {
    if Asks(ops[k - 1], p) { i := k - 1; } else { i := OutstandingWasAsked(states, ops, k - 1, p); }
  }

  /** A peer is confirmed only if the user requested, accepted or added it after the last time it was
      unfriended, by whichever side. */
  lemma {:induction false} ConfirmedMeansConsent(states: seq<Book>, ops: seq<Op>, k: nat, p: Pid) returns (i: nat)
    requires IsRun(states, ops) && k < |states| && p in ConfirmedIds(states[k].friends)
    ensures i < k && Consents(ops[i], p) && forall j | i < j < k :: !Parts(states[j], ops[j], p)
  {
    assert k > 0;
    LedgerMirrorsTheConfirmed(states, ops, k - 1);
    if Confirms(ops[k - 1], p) {
      i := k - 1;
    } else if Confirming(ops[k - 1], p) && p in states[k - 1].wanted {
      WantedMeansOutstanding(states, ops, k - 1, p);
      i := OutstandingWasAsked(states, ops, k - 1, p);
    } else {
      i := ConfirmedMeansConsent(states, ops, k - 1, p);
    }
  }
}
