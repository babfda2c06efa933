/** Two daemons that each send the other one friend request: however the packets are delivered, both
    end up confirmed with nothing outstanding. */
module FriendHandshake {
  import opened Friends
  import opened FriendConsent

  datatype Kind = RequestPacket | AcceptPacket

  /** A packet on its way; `fromLeft` says which of the two sent it. */
  datatype Packet = Packet(kind: Kind, fromLeft: bool)

  /** The two daemons, what is on its way, and who has issued its request. */
  datatype Pair = Pair(left: Pid, right: Pid, a: Book, b: Book, flying: multiset<Packet>, asked: set<bool>)

  datatype Move = Issue(byLeft: bool) | Deliver(p: Packet, address: string, name: string)

  function Other(s: Pair, isLeft: bool): Pid { if isLeft then s.right else s.left }

  function BookOf(s: Pair, isLeft: bool): Book { if isLeft then s.a else s.b }

  function WithBook(s: Pair, isLeft: bool, book: Book): Pair { if isLeft then s.(a := book) else s.(b := book) }

  /** What the receiving daemon does with a packet: requests are enabled on both sides. */
  function Received(s: Pair, m: Move): Op
    requires m.Deliver?
  {
    var sender := Other(s, !m.p.fromLeft);
    match m.p.kind
    case RequestPacket => UdpRequest(sender, m.address, m.name, true)
    case AcceptPacket => Accepted(sender, m.address, m.name)
  }

  /** Only a request that meets an outstanding one is answered, with an accept. */
  function Reply(s: Pair, m: Move): multiset<Packet>
    requires m.Deliver?
  {
    var toLeft := !m.p.fromLeft;
    if m.p.kind == RequestPacket && Other(s, toLeft) in BookOf(s, toLeft).wanted
    then multiset{Packet(AcceptPacket, toLeft)} else multiset{}
  }

  predicate Enabled(s: Pair, m: Move) {
    match m
    case Issue(byLeft) => byLeft !in s.asked
    case Deliver(p, _, _) => p in s.flying
  }

  function Next(s: Pair, m: Move): Pair
    requires Enabled(s, m)
  {
    match m
    case Issue(byLeft) =>
      WithBook(s, byLeft, Apply(BookOf(s, byLeft), Request(Other(s, byLeft), true)))
        .(flying := s.flying + multiset{Packet(RequestPacket, byLeft)}, asked := s.asked + {byLeft})
    case Deliver(p, _, _) =>
      WithBook(s, !p.fromLeft, Apply(BookOf(s, !p.fromLeft), Received(s, m)))
        .(flying := s.flying - multiset{p} + Reply(s, m))
  }

  /** Two different daemons with whatever friends they have, nothing outstanding between them. */
  ghost predicate Fresh(s: Pair) {
    && s.left != s.right && s.left != "" && s.right != ""
    && Mirrored(s.a) && Mirrored(s.b) && s.right !in s.a.wanted && s.left !in s.b.wanted
    && s.flying == multiset{} && s.asked == {}
  }

  ghost predicate IsRun(start: Pair, moves: seq<Move>, end: Pair)
    decreases |moves|
  {
    if moves == [] then end == start
    else Enabled(start, moves[0]) && IsRun(Next(start, moves[0]), moves[1..], end)
  }

  // ---------------------------------------------------------------------------------------------
  // What every reachable pair satisfies
  // ---------------------------------------------------------------------------------------------

  predicate Wants(s: Pair, x: bool) { Other(s, x) in BookOf(s, x).wanted }

  ghost predicate Confirmed(s: Pair, x: bool) { Other(s, x) in ConfirmedIds(BookOf(s, x).friends) }

  predicate Flies(s: Pair, kind: Kind, x: bool) { Packet(kind, x) in s.flying }

  /** One side's view of the handshake. */
  ghost predicate SideInv(s: Pair, x: bool) {
    && Mirrored(BookOf(s, x))
    && (x !in s.asked ==> !Wants(s, x) && !Flies(s, RequestPacket, x))
    && (Flies(s, AcceptPacket, x) ==> x in s.asked && !Wants(s, x))
    && (x in s.asked ==> Wants(s, x) || Confirmed(s, x))
    && (x in s.asked && !x !in s.asked ==> Wants(s, x))
    && (Wants(s, x) && !x in s.asked ==>
          Flies(s, RequestPacket, !x) || Flies(s, AcceptPacket, !x) || (Flies(s, RequestPacket, x) && Wants(s, !x)))
  }

  ghost predicate PairInv(s: Pair) {
    && s.left != s.right && s.left != "" && s.right != ""
    && SideInv(s, true) && SideInv(s, false)
  }

  /** Unissued requests count three, requests on their way two, accepts one. */
  function Work(s: Pair): nat {
    3 * ((if true in s.asked then 0 else 1) + (if false in s.asked then 0 else 1)) + Weight(s.flying)
  }

  function Weight(flying: multiset<Packet>): nat {
    2 * (flying[Packet(RequestPacket, true)] + flying[Packet(RequestPacket, false)])
    + flying[Packet(AcceptPacket, true)] + flying[Packet(AcceptPacket, false)]
  }

  lemma {:induction false} IssueEffect(s: Pair, m: Move)
    requires PairInv(s) && m.Issue? && Enabled(s, m)
    ensures PairInv(Next(s, m)) && Work(Next(s, m)) < Work(s)
  {
    var x := m.byLeft;
    ApplySets(BookOf(s, x), Request(Other(s, x), true));
  }

  /** A delivery answers the receiver's request if there is one, and leaves the other side alone. */
  ghost predicate Arrived(s: Pair, p: Packet, s': Pair) {
    var y := !p.fromLeft;
    && s'.left == s.left && s'.right == s.right && s'.asked == s.asked
    && BookOf(s', !y) == BookOf(s, !y) && Mirrored(BookOf(s', y))
    && !Wants(s', y) && (Confirmed(s', y) <==> Wants(s, y) || Confirmed(s, y))
    && s'.flying == s.flying - multiset{p}
         + if p.kind == RequestPacket && Wants(s, y) then multiset{Packet(AcceptPacket, y)} else multiset{}
  }

  lemma {:induction false} DeliveryArrives(s: Pair, m: Move)
    requires PairInv(s) && m.Deliver? && Enabled(s, m)
    ensures Arrived(s, m.p, Next(s, m))
  {
    var y := !m.p.fromLeft;
    ApplySets(BookOf(s, y), Received(s, m));
  }

  lemma {:induction false} ReceiverKeeps(s: Pair, p: Packet, s': Pair)
    requires PairInv(s) && p in s.flying && Arrived(s, p, s')
    ensures SideInv(s', !p.fromLeft)
  {
    assert SideInv(s, !p.fromLeft);
  }

  lemma {:induction false} SenderKeeps(s: Pair, p: Packet, s': Pair)
    requires PairInv(s) && p in s.flying && Arrived(s, p, s')
    ensures SideInv(s', p.fromLeft)
  {
    assert SideInv(s, p.fromLeft) && SideInv(s, !p.fromLeft);
  }

  lemma {:induction false} DeliverEffect(s: Pair, p: Packet, s': Pair)
    requires PairInv(s) && p in s.flying && Arrived(s, p, s')
    ensures PairInv(s') && Work(s') < Work(s)
  {
    ReceiverKeeps(s, p, s');
    SenderKeeps(s, p, s');
    WorkFalls(s, p, s'.flying, s');
    assert SideInv(s', true) && SideInv(s', false);
  }

  lemma {:induction false} WorkFalls(s: Pair, p: Packet, flying: multiset<Packet>, s': Pair)
    requires p in s.flying && s'.asked == s.asked && s'.flying == flying
    requires flying == s.flying - multiset{p}
             || (p.kind == RequestPacket
                 && flying == s.flying - multiset{p} + multiset{Packet(AcceptPacket, !p.fromLeft)})
    ensures Work(s') < Work(s)
  {
    WeightWithout(s.flying, p);
    WeightWith(s.flying - multiset{p}, Packet(AcceptPacket, !p.fromLeft));
  }

  lemma {:induction false} WeightWithout(flying: multiset<Packet>, p: Packet)
    requires p in flying
    ensures Weight(flying - multiset{p}) == Weight(flying) - if p.kind == RequestPacket then 2 else 1
  {
    var less := flying - multiset{p};
    assert forall q: Packet :: less[q] == flying[q] - if q == p then 1 else 0;
    if p.fromLeft { assert p == Packet(p.kind, true); } else { assert p == Packet(p.kind, false); }
  }

  lemma {:induction false} WeightWith(flying: multiset<Packet>, p: Packet)
    ensures Weight(flying + multiset{p}) == Weight(flying) + if p.kind == RequestPacket then 2 else 1
  {
    assert flying + multiset{p} - multiset{p} == flying;
    WeightWithout(flying + multiset{p}, p);
  }

  lemma {:induction false} RunKeeps(start: Pair, moves: seq<Move>, end: Pair)
    requires PairInv(start) && IsRun(start, moves, end)
    ensures PairInv(end) && |moves| <= Work(start) - Work(end)
    decreases |moves|
  {
    if moves != [] {
      if moves[0].Issue? { IssueEffect(start, moves[0]); } else {
        DeliveryArrives(start, moves[0]);
        DeliverEffect(start, moves[0].p, Next(start, moves[0]));
      }
      RunKeeps(Next(start, moves[0]), moves[1..], end);
    }
  }

  /** Both have issued their request and every packet has been delivered. */
  predicate Quiescent(s: Pair) { true in s.asked && false in s.asked && s.flying == multiset{} }

  /** Every run of the handshake has at most six moves; when nothing is left to issue or deliver, both
      sides are confirmed and nothing is outstanding; until then there is a move to make. */
  lemma {:induction false} HandshakeConverges(start: Pair, moves: seq<Move>, end: Pair)
    requires Fresh(start) && IsRun(start, moves, end)
    ensures |moves| <= 6
    ensures Quiescent(end) ==>
              && end.right in ConfirmedIds(end.a.friends) && end.left in ConfirmedIds(end.b.friends)
              && end.right !in end.a.wanted && end.left !in end.b.wanted
    ensures !Quiescent(end) ==> exists m :: Enabled(end, m)
  {
    RunKeeps(start, moves, end);
    if Quiescent(end) {
      assert SideInv(end, true) && SideInv(end, false);
    } else if end.flying != multiset{} {
      var p :| p in end.flying;
      assert Enabled(end, Deliver(p, "", ""));
    } else {
      assert Enabled(end, Issue(true)) || Enabled(end, Issue(false));
    }
  }
}
