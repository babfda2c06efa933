/** The friends list, record by record: who is on it, confirmed or waiting, under which address and name,
    and what the ledger remembers. */
module FriendRecords {
  import opened Options
  import opened Friends
  import opened FriendConsent

  // ---------------------------------------------------------------------------------------------
  // What the list operations do to one record
  // ---------------------------------------------------------------------------------------------

  lemma {:induction false} UpsertHas(friends: seq<Friend>, r: Friend, f: Friend)
    requires Distinct(friends)
    ensures f in Upsert(friends, r) <==> f == r || (f in friends && f.id != r.id)
  {
    if friends != [] {
      HeadAndTail(friends);
      assert friends == [friends[0]] + friends[1..];
      UpsertHas(friends[1..], r, f);
      if f in friends[1..] { assert f.id in Ids(friends[1..]); }
    }
  }

  lemma {:induction false} WithoutHas(friends: seq<Friend>, p: Pid, f: Friend)
    ensures f in Without(friends, p) <==> f in friends && f.id != p
  {
    if friends != [] {
      assert friends == [friends[0]] + friends[1..];
      WithoutHas(friends[1..], p, f);
    }
  }

  predicate Nameless(name: string) { name == "" || name == "Unknown" }

  function WithName(f: Friend, p: Pid, name: string): Friend {
    if f.id == p && Nameless(f.name) then f.(name := name) else f
  }

  ghost predicate IsNamed(friends: seq<Friend>, p: Pid, name: string, f: Friend) {
    exists g | g in friends :: f == WithName(g, p, name)
  }

  lemma {:induction false} RenamedHas(friends: seq<Friend>, p: Pid, name: string, f: Friend)
    requires Distinct(friends)
    ensures f in Renamed(friends, p, name) <==> IsNamed(friends, p, name, f)
  {
    if friends != [] {
      var head, rest := friends[0], friends[1..];
      HeadAndTail(friends);
      assert friends == [head] + rest;
      RenamedHas(rest, p, name, f);
      assert IsNamed(friends, p, name, f) <==> f == WithName(head, p, name) || IsNamed(rest, p, name, f);
      if head.id == p && Nameless(head.name) {
        forall g | g in rest ensures WithName(g, p, name) == g { assert g.id in Ids(rest); }
        assert IsNamed(rest, p, name, f) <==> f in rest;
      }
    }
  }

  // ---------------------------------------------------------------------------------------------
  // What one operation does to one record
  // ---------------------------------------------------------------------------------------------

  /** The record an operation writes: a confirmed one when it confirms, a waiting one for a stranger that
      asks over TCP. */
  ghost function Written(b: Book, op: Op): Option<Friend> {
    match op
    case Accept(p, address, name) => Some(Friend(p, address, name, true))
    case Add(p, address, name, _) => if p == "" then None else Some(Friend(p, address, name, true))
    case UdpRequest(p, address, name, accepting) =>
      if accepting && p in b.wanted then Some(Friend(p, address, name, true)) else None
    case TcpRequest(p, address, name, accepting) =>
      if !accepting || p in ConfirmedIds(b.friends) then None
      else if p in b.wanted then Some(Friend(p, address, name, true))
      else if p in Ids(b.friends) then None
      else Some(Friend(p, address, name, false))
    case Accepted(p, address, name) => if p in b.wanted then Some(Friend(p, address, name, true)) else None
    case _ => None
  }

  ghost predicate Writes(b: Book, op: Op, p: Pid) { Written(b, op).Some? && Written(b, op).value.id == p }

  /** A greeting or an accepted request gives a record without a name the one it carries. */
  function Renaming(op: Op, f: Friend): Friend {
    match op
    case Hello(p, name) => if Nameless(name) then f else WithName(f, p, name)
    case UdpRequest(p, _, name, accepting) => if !accepting || Nameless(name) then f else WithName(f, p, name)
    case _ => f
  }

  ghost predicate WasKept(b: Book, op: Op, f: Friend) { exists g | g in b.friends :: f == Renaming(op, g) }

  /** A record is on the list after an operation exactly if the operation wrote it, or it was there, perhaps
      without its name, and the operation neither writes another one for the peer nor parts from it. */
  ghost predicate RecordMoved(b: Book, op: Op, b': Book, f: Friend) {
    f in b'.friends <==>
      if Writes(b, op, f.id) then f == Written(b, op).value else !Parts(b, op, f.id) && WasKept(b, op, f)
  }

  lemma {:induction false} KeptUnchanged(b: Book, op: Op, f: Friend)
    requires !op.Hello? && !op.UdpRequest?
    ensures WasKept(b, op, f) <==> f in b.friends
  {
    if f in b.friends { assert f == Renaming(op, f); }
  }

  lemma {:induction false} AddMoves(b: Book, op: Op, f: Friend)
    requires Mirrored(b) && (op.Accept? || op.Add? || op.TcpRequest? || op.Accepted?)
    ensures RecordMoved(b, op, Apply(b, op), f)
  {
    KeptUnchanged(b, op, f);
    UpsertHas(b.friends, Friend(op.p, op.address, op.name, true), f);
    UpsertHas(b.friends, Friend(op.p, op.address, op.name, false), f);
    if op.p in Ids(b.friends) && op.p !in ConfirmedIds(b.friends) {
      var g :| g in b.friends && g.id == op.p;
      assert IsPending(b.friends, op.p);
    }
    assert IsFriend(b.friends, op.p) <==> op.p in ConfirmedIds(b.friends);
  }

  lemma {:induction false} PartMoves(b: Book, op: Op, f: Friend)
    requires Mirrored(b) && (op.Reject? || op.Remove? || op.Removed? || op.Rejected? || op.Cancelled?)
    ensures RecordMoved(b, op, Apply(b, op), f)
  {
    KeptUnchanged(b, op, f);
    WithoutHas(b.friends, op.p, f);
    FirstIsOnly(b.friends, op.p);
    if f in b.friends { assert f.id in Ids(b.friends); }
  }

  lemma {:induction false} NameMoves(b: Book, op: Op, f: Friend)
    requires Mirrored(b) && (op.Hello? || op.UdpRequest?)
    ensures RecordMoved(b, op, Apply(b, op), f)
  {
    RenamedHas(b.friends, op.p, op.name, f);
    RenamedSets(b.friends, op.p, op.name);
    if op.UdpRequest? {
      UpsertHas(SyncName(b, op.p, op.name).friends, Friend(op.p, op.address, op.name, true), f);
    }
  }

  lemma {:induction false} RecordStep(b: Book, op: Op, f: Friend)
    requires Mirrored(b) && !op.Restart?
    ensures RecordMoved(b, op, Apply(b, op), f)
  {
    hide RecordMoved;
    if op.Accept? || op.Add? || op.TcpRequest? || op.Accepted? { AddMoves(b, op, f); }
    else if op.Hello? || op.UdpRequest? { NameMoves(b, op, f); }
    else if op.Request? || op.Cancel? { WishMoves(b, op, f); }
    else { PartMoves(b, op, f); }
  }

  lemma {:induction false} WishMoves(b: Book, op: Op, f: Friend)
    requires op.Request? || op.Cancel?
    ensures RecordMoved(b, op, Apply(b, op), f)
  {
    KeptUnchanged(b, op, f);
  }

  ghost predicate LedgerMoved(b: Book, op: Op, b': Book, p: Pid) {
    var confirms := Writes(b, op, p) && Written(b, op).value.confirmed;
    && (p in b'.ledger <==> confirms || (p in b.ledger && !Parts(b, op, p)))
    && (p in b'.ledger ==> b'.ledger[p] == if confirms then Written(b, op).value.name else b.ledger[p])
  }

  lemma {:induction false} PartingLedger(b: Book, op: Op, p: Pid)
    requires Mirrored(b) && (op.Reject? || op.Remove? || op.Removed? || op.Rejected? || op.Cancelled?)
    ensures LedgerMoved(b, op, Apply(b, op), p)
  {
    FirstIsOnly(b.friends, op.p);
  }

  lemma {:induction false} ConfirmingLedger(b: Book, op: Op, p: Pid)
    requires Mirrored(b) && !op.Restart?
    requires !op.Reject? && !op.Remove? && !op.Removed? && !op.Rejected? && !op.Cancelled?
    ensures LedgerMoved(b, op, Apply(b, op), p)
  {
    if op.TcpRequest? { assert IsFriend(b.friends, op.p) <==> op.p in ConfirmedIds(b.friends); }
    hide Upsert, Renamed, Mirrored, IsFriend;
  }

  /** The ledger keeps the name a peer was last confirmed under, until we part from it. */
  lemma {:induction false} LedgerStep(b: Book, op: Op, p: Pid)
    requires Mirrored(b) && !op.Restart?
    ensures LedgerMoved(b, op, Apply(b, op), p)
  {
    if op.Reject? || op.Remove? || op.Removed? || op.Rejected? || op.Cancelled? { PartingLedger(b, op, p); }
    else { ConfirmingLedger(b, op, p); }
  }

  // ---------------------------------------------------------------------------------------------
  // Runs
  // ---------------------------------------------------------------------------------------------

  /** The peer leaves the list: we part from it, or a restart finds neither its record nor its name in the
      ledger. */
  ghost predicate Loses(b: Book, op: Op, p: Pid) {
    if op.Restart? then p !in Ids(op.kept) && (p == "" || p !in b.ledger) else Parts(b, op, p)
  }

  lemma {:induction false} ListedStep(b: Book, op: Op, b': Book, p: Pid)
    requires Mirrored(b) && Step(b, op, b')
    ensures p in Ids(b'.friends) <==> Writes(b, op, p) || (p in Ids(b.friends) && !Loses(b, op, p))
  {
    if op.Restart? {
      RestartListed(b, op, b', p);
    } else {
      hide RecordMoved;
      forall f ensures RecordMoved(b, op, b', f) { RecordStep(b, op, f); }
      ListedByRecords(b, op, b', p);
    }
  }

  lemma {:induction false} ListedByRecords(b: Book, op: Op, b': Book, p: Pid)
    requires !op.Restart? && forall f :: RecordMoved(b, op, b', f)
    ensures p in Ids(b'.friends) <==> Writes(b, op, p) || (p in Ids(b.friends) && !Parts(b, op, p))
  {
    if p in Ids(b'.friends) {
      var f :| f in b'.friends && f.id == p;
      assert RecordMoved(b, op, b', f);
      if !Writes(b, op, p) {
        var g :| g in b.friends && f == Renaming(op, g);
        assert g.id == p;
      }
    } else if p in Ids(b.friends) && !Parts(b, op, p) && !Writes(b, op, p) {
      var g :| g in b.friends && g.id == p;
      var f := Renaming(op, g);
      assert RecordMoved(b, op, b', f) && f.id == p && WasKept(b, op, f);
    }
    if Writes(b, op, p) { assert RecordMoved(b, op, b', Written(b, op).value); }
  }

  lemma {:induction false} RestartListed(b: Book, op: Op, b': Book, p: Pid)
    requires Mirrored(b) && op.Restart? && Step(b, op, b')
    ensures p in Ids(b'.friends) <==> p in Ids(b.friends) && !Loses(b, op, p)
  {
    if p in Ids(b'.friends) {
      var f :| f in b'.friends && f.id == p;
      RepairedMember(op.kept, b.ledger, b'.friends, f);
      ConfirmedAreIds(b.friends);
    }
    if p in Ids(op.kept) {
      var f :| f in op.kept && f.id == p;
      assert b'.friends[..|op.kept|] == op.kept;
      assert f in b'.friends;
    }
  }

  /** Operation `j` wrote the peer's record and none since has lost it. */
  ghost predicate KeptSince(states: seq<Book>, ops: seq<Op>, j: nat, k: nat, p: Pid)
    requires |states| == |ops| + 1 && k <= |ops|
  {
    j < k && Writes(states[j], ops[j], p) && forall i | j < i < k :: !Loses(states[i], ops[i], p)
  }

  ghost predicate Introduced(states: seq<Book>, ops: seq<Op>, k: nat, p: Pid)
    requires |states| == |ops| + 1 && k <= |ops|
  {
    exists j: nat :: KeptSince(states, ops, j, k, p)
  }

  lemma {:induction false} IntroducedStep(states: seq<Book>, ops: seq<Op>, k: nat, p: Pid)
    requires |states| == |ops| + 1 && 0 < k <= |ops|
    ensures Introduced(states, ops, k, p) <==>
            || Writes(states[k - 1], ops[k - 1], p)
            || (Introduced(states, ops, k - 1, p) && !Loses(states[k - 1], ops[k - 1], p))
  {
    hide Writes, Loses;
    var b := k - 1;
    if Writes(states[b], ops[b], p) { assert KeptSince(states, ops, b, k, p); }
    if Introduced(states, ops, b, p) && !Loses(states[b], ops[b], p) {
      var j: nat :| KeptSince(states, ops, j, b, p);
      assert KeptSince(states, ops, j, k, p);
    }
    if Introduced(states, ops, k, p) && !Writes(states[b], ops[b], p) {
      var j: nat :| KeptSince(states, ops, j, k, p);
      assert !Loses(states[b], ops[b], p);
      assert KeptSince(states, ops, j, b, p);
    }
  }

  /** In every run a peer is on the friends list exactly if some operation put it there, by confirming it or
      by its asking to be a friend, and nothing since then has taken it off. */
  lemma {:induction false} ListedMeansIntroduced(states: seq<Book>, ops: seq<Op>, k: nat, p: Pid)
    requires IsRun(states, ops) && k < |states|
    ensures p in Ids(states[k].friends) <==> Introduced(states, ops, k, p)
  {
    hide Step;
    if k > 0 {
      ListedMeansIntroduced(states, ops, k - 1, p);
      assert StepAt(states, ops, k - 1);
      LedgerMirrorsTheConfirmed(states, ops, k - 1);
      ListedStep(states[k - 1], ops[k - 1], states[k], p);
      IntroducedStep(states, ops, k, p);
    }
  }
}
