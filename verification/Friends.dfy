/** Friends: the list in the configuration, the independent ledger of confirmed ids, and the
    outstanding requests of this process, with everything that changes them. */
module Friends {
  type Pid = string

  datatype Friend = Friend(id: Pid, address: string, name: string, confirmed: bool)

  /** `wanted` are the peers a request of ours is outstanding to; it does not survive the process. */
  datatype Book = Book(friends: seq<Friend>, ledger: map<Pid, string>, wanted: set<Pid>)

  // ---------------------------------------------------------------------------------------------
  // Reading the list
  // ---------------------------------------------------------------------------------------------

  ghost function Ids(friends: seq<Friend>): set<Pid> { set f | f in friends :: f.id }

  ghost function ConfirmedIds(friends: seq<Friend>): set<Pid> { set f | f in friends && f.confirmed :: f.id }

  predicate IsFriend(friends: seq<Friend>, p: Pid) { exists f | f in friends :: f.id == p && f.confirmed }

  predicate IsPending(friends: seq<Friend>, p: Pid) { exists f | f in friends :: f.id == p && !f.confirmed }

  /** The first record of a peer decides. */
  predicate FirstUnconfirmed(friends: seq<Friend>, p: Pid) {
    friends != [] && if friends[0].id == p then !friends[0].confirmed else FirstUnconfirmed(friends[1..], p)
  }

  // ---------------------------------------------------------------------------------------------
  // Changing the list
  // ---------------------------------------------------------------------------------------------

  /** Overwrite the first record of the same id, or append. */
  function Upsert(friends: seq<Friend>, r: Friend): seq<Friend> {
    if friends == [] then [r]
    else if friends[0].id == r.id then [r] + friends[1..]
    else [friends[0]] + Upsert(friends[1..], r)
  }

  function Without(friends: seq<Friend>, p: Pid): seq<Friend> {
    if friends == [] then []
    else (if friends[0].id == p then [] else [friends[0]]) + Without(friends[1..], p)
  }

  /** The first record of the id takes the name when its own says nothing. */
  function Renamed(friends: seq<Friend>, p: Pid, name: string): seq<Friend> {
    if friends == [] then []
    else if friends[0].id == p && friends[0].name in {"", "Unknown"} then [friends[0].(name := name)] + friends[1..]
    else [friends[0]] + Renamed(friends[1..], p, name)
  }

  function SyncName(b: Book, p: Pid, name: string): Book {
    if name in {"", "Unknown"} then b else b.(friends := Renamed(b.friends, p, name))
  }

  function AddFriend(b: Book, r: Friend): Book {
    b.(friends := Upsert(b.friends, r), ledger := if r.confirmed then b.ledger[r.id := r.name] else b.ledger)
  }

  function Unfriend(b: Book, p: Pid): Book {
    Book(Without(b.friends, p), b.ledger - {p}, b.wanted - {p})
  }

  function UnfriendIfUnconfirmed(b: Book, p: Pid): Book {
    if FirstUnconfirmed(b.friends, p) then Unfriend(b, p) else b
  }

  function Forget(b: Book, p: Pid): Book { b.(wanted := b.wanted - {p}) }

  /** Confirm a peer and call its request answered. */
  function Complete(b: Book, p: Pid, address: string, name: string): Book {
    AddFriend(Forget(b, p), Friend(p, address, name, true))
  }

  // ---------------------------------------------------------------------------------------------
  // Commands, packets, restarts
  // ---------------------------------------------------------------------------------------------

  /** What the user does, what a peer's verified message does, and a restart. `sent` says whether a
      request could be sent at all; a TCP request is one that got as far as the request gate. */
  datatype Op =
    | Request(p: Pid, sent: bool)
    | Cancel(p: Pid)
    | Accept(p: Pid, address: string, name: string)
    | Add(p: Pid, address: string, name: string, sent: bool)
    | Reject(p: Pid)
    | Remove(p: Pid)
    | UdpRequest(p: Pid, address: string, name: string, accepting: bool)
    | TcpRequest(p: Pid, address: string, name: string, accepting: bool)
    | Accepted(p: Pid, address: string, name: string)
    | Rejected(p: Pid)
    | Cancelled(p: Pid)
    | Removed(p: Pid)
    | Hello(p: Pid, name: string)
    | Restart(kept: seq<Friend>)

  predicate Local(op: Op) { op.Request? || op.Cancel? || op.Accept? || op.Add? || op.Reject? || op.Remove? }

  /** The user agreed to the peer by this command. */
  predicate Consents(op: Op, p: Pid) {
    match op
    case Request(q, sent) => q == p && sent
    case Accept(q, _, _) => q == p
    case Add(q, _, _, _) => q == p
    case _ => false
  }

  function Wanting(b: Book, p: Pid, sent: bool): Book { if sent then b.(wanted := b.wanted + {p}) else b }

  function Apply(b: Book, op: Op): Book
    requires !op.Restart?
  {
    match op
    case Request(p, sent) => if p == "" then b else Wanting(b, p, sent)
    case Cancel(p) => if p == "" || IsFriend(b.friends, p) then b else Forget(b, p)
    case Accept(p, address, name) => AddFriend(b, Friend(p, address, name, true))
    case Add(p, address, name, sent) =>
      if p == "" then b else Wanting(AddFriend(b, Friend(p, address, name, true)), p, sent)
    case Reject(p) => Unfriend(b, p)
    case Remove(p) => Unfriend(b, p)
    case UdpRequest(p, address, name, accepting) =>
      if !accepting then b
      else if p in b.wanted then Complete(SyncName(b, p, name), p, address, name)
      else SyncName(b, p, name)
    case TcpRequest(p, address, name, accepting) =>
      if IsFriend(b.friends, p) || !accepting then b
      else if p in b.wanted then Complete(b, p, address, name)
      else if IsPending(b.friends, p) then b
      else AddFriend(b, Friend(p, address, name, false))
    case Accepted(p, address, name) => if p in b.wanted then Complete(b, p, address, name) else b
    case Rejected(p) => UnfriendIfUnconfirmed(Forget(b, p), p)
    case Cancelled(p) => UnfriendIfUnconfirmed(b, p)
    case Removed(p) => if p == "" then b else Unfriend(b, p)
    case Hello(p, name) => SyncName(b, p, name)
  }

  /** A friends list repaired from the ledger: the list, then every missing id as a confirmed friend. */
  ghost predicate Repaired(friends: seq<Friend>, ledger: map<Pid, string>, fixed: seq<Friend>) {
    && |friends| <= |fixed| && fixed[..|friends|] == friends
    && (forall i | |friends| <= i < |fixed| :: FromLedger(fixed[i], ledger) && fixed[i].id !in Ids(friends))
    && (forall i, j | |friends| <= i < j < |fixed| :: fixed[i].id != fixed[j].id)
    && forall p | p in ledger && p != "" :: p in Ids(fixed)
  }

  predicate FromLedger(f: Friend, ledger: map<Pid, string>) {
    f.id in ledger && f.id != ""
    && f == Friend(f.id, "", if ledger[f.id] == "" then "Unknown" else ledger[f.id], true)
  }

  /** One operation. A restart finds some of the records of the last configuration, forgets the
      outstanding requests and repairs the list. */
  ghost predicate Step(b: Book, op: Op, b': Book) {
    if op.Restart? then
      && (forall f | f in op.kept :: f in b.friends) && Distinct(op.kept)
      && b'.ledger == b.ledger && b'.wanted == {} && Repaired(op.kept, b.ledger, b'.friends)
    else b' == Apply(b, op)
  }

  ghost predicate Distinct(friends: seq<Friend>) {
    forall i, j | 0 <= i < j < |friends| :: friends[i].id != friends[j].id
  }

  function FromLedgerRecord(p: Pid, ledger: map<Pid, string>): Friend
    requires p in ledger
  {
    Friend(p, "", if ledger[p] == "" then "Unknown" else ledger[p], true)
  }

  /** The list, followed by one ledger record for each of the added ids. */
  ghost predicate Extended(before: seq<Friend>, ledger: map<Pid, string>, friends: seq<Friend>, added: set<Pid>) {
    && |before| <= |friends| && friends[..|before|] == before
    && (forall i | |before| <= i < |friends| :: FromLedger(friends[i], ledger) && friends[i].id in added)
    && (forall i, j | |before| <= i < j < |friends| :: friends[i].id != friends[j].id)
    && forall p | p in added || p in Ids(before) :: p in Ids(friends)
  }

  lemma {:induction false} ExtendedByOne(
      before: seq<Friend>, ledger: map<Pid, string>, friends: seq<Friend>, added: set<Pid>, p: Pid)
    requires Extended(before, ledger, friends, added) && p !in added && p in ledger && p != ""
    ensures Extended(before, ledger, friends + [FromLedgerRecord(p, ledger)], added + {p})
  {
    var r := FromLedgerRecord(p, ledger);
    var longer := friends + [r];
    assert longer[..|before|] == before && r in longer;
    forall q | q in Ids(friends) ensures q in Ids(longer) {
      var f :| f in friends && f.id == q;
      assert f in longer;
    }
  }

  lemma {:induction false} UpsertAt(friends: seq<Friend>, i: nat, r: Friend)
    requires i <= |friends| && forall k | 0 <= k < i :: friends[k].id != r.id
    requires i < |friends| ==> friends[i].id == r.id
    ensures Upsert(friends, r) == if i < |friends| then friends[i := r] else friends + [r]
  {
    if i > 0 { UpsertAt(friends[1..], i - 1, r); }
  }

  lemma {:induction false} WithoutSnoc(friends: seq<Friend>, f: Friend, p: Pid)
    ensures Without(friends + [f], p) == Without(friends, p) + if f.id == p then [] else [f]
  {
    if friends != [] {
      WithoutSnoc(friends[1..], f, p);
      assert (friends + [f])[1..] == friends[1..] + [f];
    }
  }

  lemma {:induction false} WithoutShorter(friends: seq<Friend>, p: Pid)
    ensures |Without(friends, p)| <= |friends|
    ensures |Without(friends, p)| != |friends| <==> p in Ids(friends)
  {
    if friends != [] {
      WithoutShorter(friends[1..], p);
      assert Ids(friends) == {friends[0].id} + Ids(friends[1..]);
    }
  }

  lemma {:induction false} RenamedAt(friends: seq<Friend>, i: nat, p: Pid, name: string)
    requires i <= |friends| && forall k | 0 <= k < i :: !(friends[k].id == p && friends[k].name in {"", "Unknown"})
    requires i < |friends| ==> friends[i].id == p && friends[i].name in {"", "Unknown"}
    ensures Renamed(friends, p, name) == if i < |friends| then friends[i := friends[i].(name := name)] else friends
  {
    if i > 0 { RenamedAt(friends[1..], i - 1, p, name); }
  }

  // ---------------------------------------------------------------------------------------------
  // The book itself
  // ---------------------------------------------------------------------------------------------

  class FriendBook {
    var friends: seq<Friend>
    var ledger: map<Pid, string>
    var wanted: set<Pid>

    ghost function State(): Book
      reads this
    {
      Book(friends, ledger, wanted)
    }

    constructor (saved: seq<Friend>, confirmed: map<Pid, string>)
      ensures State() == Book(saved, confirmed, {})
    {
      friends, ledger, wanted := saved, confirmed, {};
    }

    method Befriend(r: Friend)
      modifies this
      ensures State() == AddFriend(old(State()), r)
    {
      var i := 0;
      while i < |friends| && friends[i].id != r.id
        invariant 0 <= i <= |friends|
        invariant forall k | 0 <= k < i :: friends[k].id != r.id
      {
        i := i + 1;
      }
      UpsertAt(friends, i, r);
      friends := if i < |friends| then friends[i := r] else friends + [r];
      if r.confirmed {
        ledger := ledger - {r.id};
        ledger := ledger[r.id := r.name];
      }
    }

    method Drop(p: Pid) returns (removed: bool)
      modifies this
      ensures State() == Unfriend(old(State()), p)
      ensures removed <==> p in Ids(old(friends))
    {
      var before := |friends|;
      var left: seq<Friend> := [];
      for i := 0 to |friends|
        invariant State() == old(State()) && left == Without(friends[..i], p)
      {
        WithoutSnoc(friends[..i], friends[i], p);
        assert friends[..i + 1] == friends[..i] + [friends[i]];
        if friends[i].id != p { left := left + [friends[i]]; }
      }
      assert friends[..|friends|] == friends;
      WithoutShorter(friends, p);
      friends, ledger, wanted := left, ledger - {p}, wanted - {p};
      removed := |friends| != before;
    }

    method DropIfUnconfirmed(p: Pid)
      modifies this
      ensures State() == UnfriendIfUnconfirmed(old(State()), p)
    {
      var i := 0;
      while i < |friends| && friends[i].id != p
        invariant 0 <= i <= |friends|
        invariant FirstUnconfirmed(friends[i..], p) == FirstUnconfirmed(friends, p)
      {
        i := i + 1;
      }
      if i < |friends| && !friends[i].confirmed { var _ := Drop(p); }
    }

    method Sync(p: Pid, name: string)
      modifies this`friends
      ensures State() == SyncName(old(State()), p, name)
    {
      if name == "" || name == "Unknown" { return; }
      var i := 0;
      while i < |friends| && !(friends[i].id == p && friends[i].name in {"", "Unknown"})
        invariant 0 <= i <= |friends|
        invariant forall k | 0 <= k < i :: !(friends[k].id == p && friends[k].name in {"", "Unknown"})
      {
        i := i + 1;
      }
      RenamedAt(friends, i, p, name);
      if i < |friends| { friends := friends[i := friends[i].(name := name)]; }
    }

    /** Repair the list at startup. */
    method Reconcile() returns (recovered: set<Pid>)
      modifies this`friends
      ensures Repaired(old(friends), ledger, friends)
      ensures recovered == set p | p in ledger && p != "" && p !in Ids(old(friends))
    {
      ghost var before := friends;
      var current := set f | f in friends :: f.id;
      var missing := set p | p in ledger && p != "" && p !in current;
      ghost var all := missing;
      recovered := {};
      while missing != {}
        invariant missing !! recovered && missing + recovered == all
        invariant Extended(before, ledger, friends, recovered)
        decreases missing
      {
        var p :| p in missing;
        ExtendedByOne(before, ledger, friends, recovered, p);
        friends := friends + [FromLedgerRecord(p, ledger)];
        missing, recovered := missing - {p}, recovered + {p};
      }
    }

    method Want(p: Pid)
      modifies this`wanted
      ensures State() == Wanting(old(State()), p, true)
    {
      wanted := wanted + {p};
    }

    method Confirm(p: Pid, address: string, name: string)
      modifies this
      ensures State() == Complete(old(State()), p, address, name)
    {
      wanted := wanted - {p};
      Befriend(Friend(p, address, name, true));
    }

    /** Every command and every verified message. */
    method Handle(op: Op)
      requires !op.Restart?
      modifies this
      ensures State() == Apply(old(State()), op)
    {
      match op {
        case Request(p, sent) => if p != "" && sent { Want(p); }
        case Cancel(p) => if p != "" && !IsFriend(friends, p) { wanted := wanted - {p}; }
        case Accept(p, address, name) => Befriend(Friend(p, address, name, true));
        case Add(p, address, name, sent) =>
          if p != "" {
            Befriend(Friend(p, address, name, true));
            if sent { Want(p); }
          }
        case Reject(p) => var _ := Drop(p);
        case Remove(p) => var _ := Drop(p);
        case UdpRequest(p, address, name, accepting) =>
          if accepting {
            var mutual := p in wanted;
            Sync(p, name);
            if mutual { Confirm(p, address, name); }
          }
        case TcpRequest(p, address, name, accepting) =>
          if !IsFriend(friends, p) && accepting {
            if p in wanted { Confirm(p, address, name); }
            else if !IsPending(friends, p) { Befriend(Friend(p, address, name, false)); }
          }
        case Accepted(p, address, name) => if p in wanted { Confirm(p, address, name); }
        case Rejected(p) => wanted := wanted - {p}; DropIfUnconfirmed(p);
        case Cancelled(p) => DropIfUnconfirmed(p);
        case Removed(p) => if p != "" { var _ := Drop(p); }
        case Hello(p, name) => Sync(p, name);
      }
    }
  }
}
