/** Admission to a room: nobody enters an owner's roster except on a current invitation, and the
    roster is exactly what the entries and removals so far leave, whatever envelopes the peers of one
    daemon make up, replay or reorder. */
module RoomAdmission {
  import opened RoomModel
  import opened RoomReplication
  import opened RoomGate

  // ---------------------------------------------------------------------------------------------
  // Reading the trail of ledger and roster events
  // ---------------------------------------------------------------------------------------------

  ghost predicate Spends(e: Event, r: RoomId, p: Pid) {
    !e.Invited? && e.roomId == r && e.peer == p
  }

  /** The last event about `p` in room `r`, read backwards, is an invitation. */
  ghost predicate HasTicket(trail: seq<Event>, r: RoomId, p: Pid) {
    |trail| > 0 &&
    var e, earlier := trail[|trail| - 1], trail[..|trail| - 1];
    e == Invited(r, p) || (!Spends(e, r, p) && HasTicket(earlier, r, p))
  }

  /** An invitation for `p`, with no removal and no join of `p` since. */
  ghost predicate InvitedSince(trail: seq<Event>, r: RoomId, p: Pid, j: int) {
    0 <= j < |trail| && trail[j] == Invited(r, p) && forall k | j < k < |trail| :: !Spends(trail[k], r, p)
  }

  lemma {:induction false} TicketMeansInvited(trail: seq<Event>, r: RoomId, p: Pid)
    ensures HasTicket(trail, r, p) <==> exists j :: InvitedSince(trail, r, p, j)
  {
    if |trail| > 0 {
      var e, earlier := trail[|trail| - 1], trail[..|trail| - 1];
      TicketMeansInvited(earlier, r, p);
      if e == Invited(r, p) { assert InvitedSince(trail, r, p, |trail| - 1); }
      else if HasTicket(trail, r, p) {
        var j :| InvitedSince(earlier, r, p, j);
        assert InvitedSince(trail, r, p, j);
      } else if j :| InvitedSince(trail, r, p, j) {
        assert j < |earlier|;
        assert InvitedSince(earlier, r, p, j);
      }
    }
  }

  /** Every entry to a roster spent a ticket. */
  ghost predicate EntriesPaid(trail: seq<Event>) {
    forall i | 0 <= i < |trail| && trail[i].Joined? && trail[i].entered ::
      HasTicket(trail[..i], trail[i].roomId, trail[i].peer)
  }

  /** Who is in the room after these events. */
  ghost function RosterOf(trail: seq<Event>, r: RoomId, owner: Pid): set<Pid> {
    if trail == [] then {owner} else
    var e, before := trail[|trail| - 1], RosterOf(trail[..|trail| - 1], r, owner);
    if e.roomId != r then before
    else match e
      case Joined(_, p, entered) => if entered then before + {p} else before
      case Removed(_, p) => before - {p}
      case Invited(_, _) => before
  }

  lemma {:induction false} RosterOfOthers(trail: seq<Event>, r: RoomId, owner: Pid)
    requires forall e | e in trail :: e.roomId != r
    ensures RosterOf(trail, r, owner) == {owner}
  {
    if trail != [] { RosterOfOthers(trail[..|trail| - 1], r, owner); }
  }

  lemma {:induction false} NoTicketOfOthers(trail: seq<Event>, r: RoomId, p: Pid)
    requires forall e | e in trail :: e.roomId != r
    ensures !HasTicket(trail, r, p)
  {
    if trail != [] { NoTicketOfOthers(trail[..|trail| - 1], r, p); }
  }

  // ---------------------------------------------------------------------------------------------
  // The invariant of an owner
  // ---------------------------------------------------------------------------------------------

  ghost predicate LedgerOk(n: Node, r: RoomId)
    requires r in n.rooms
  {
    && n.rooms[r].owner == n.me && n.me in n.rooms[r].members
    && n.rooms[r].members.Keys == RosterOf(n.trail, r, n.me)
    && forall p :: p in n.rooms[r].invited <==> HasTicket(n.trail, r, p)
  }

  ghost predicate InviteWasSent(n: Node, e: Event) {
    e.Invited? ==> exists name :: Packet(n.me, e.peer, n.me, e.roomId, RoomInvite(name)) in n.sent
  }

  ghost predicate AdmissionInv(n: Node) {
    && (forall r | r in n.rooms :: LedgerOk(n, r))
    && EntriesPaid(n.trail)
    && forall e | e in n.trail :: InviteWasSent(n, e)
  }

  /** No roster or ledger event: rosters and tickets as before. */
  ghost predicate Calm(n: Node, n': Node) {
    && n'.me == n.me && n'.trail == n.trail && n.sent <= n'.sent
    && forall r | r in n'.rooms :: r in n.rooms && n'.rooms[r].owner == n.rooms[r].owner
         && n'.rooms[r].members.Keys == n.rooms[r].members.Keys && n'.rooms[r].invited.Keys == n.rooms[r].invited.Keys
  }

  lemma {:induction false} CalmKeeps(n: Node, n': Node)
    requires AdmissionInv(n) && Calm(n, n')
    ensures AdmissionInv(n')
  {
    forall r | r in n'.rooms ensures LedgerOk(n', r) { assert LedgerOk(n, r); }
    SentGrows(n, n');
  }

  lemma {:induction false} SentGrows(n: Node, n': Node)
    requires n'.me == n.me && n.sent <= n'.sent
    requires forall e | e in n.trail :: InviteWasSent(n, e)
    ensures forall e | e in n.trail :: InviteWasSent(n', e)
  {
    forall e | e in n.trail ensures InviteWasSent(n', e) {
      if e.Invited? {
        var name :| Packet(n.me, e.peer, n.me, e.roomId, RoomInvite(name)) in n.sent;
        assert Packet(n'.me, e.peer, n'.me, e.roomId, RoomInvite(name)) in n'.sent;
      }
    }
  }

  /** One event about one room: its roster and tickets follow the event, other rooms are calm. An
      invitation may be about a room we do not own, when somebody's snapshot said that we do. */
  ghost predicate OneEvent(n: Node, n': Node, e: Event) {
    && n'.me == n.me && n'.trail == n.trail + [e] && n.sent <= n'.sent
    && (e.roomId in n.rooms || e.Invited?)
    && (forall r | r in n'.rooms :: r in n.rooms && n'.rooms[r].owner == n.rooms[r].owner &&
         (r != e.roomId ==> n'.rooms[r].members.Keys == n.rooms[r].members.Keys
                            && n'.rooms[r].invited.Keys == n.rooms[r].invited.Keys))
    && InviteWasSent(n', e)
    && var r, p := e.roomId, e.peer;
       r in n'.rooms ==>
       match e
       case Invited(_, _) => n'.rooms[r].members.Keys == n.rooms[r].members.Keys
                             && n'.rooms[r].invited.Keys == n.rooms[r].invited.Keys + {p}
       case Removed(_, _) => p != n.me && n'.rooms[r].members.Keys == n.rooms[r].members.Keys - {p}
                             && n'.rooms[r].invited.Keys == n.rooms[r].invited.Keys - {p}
       case Joined(_, _, entered) =>
         && n'.rooms[r].members.Keys == n.rooms[r].members.Keys + (if entered then {p} else {})
         && n'.rooms[r].invited.Keys == n.rooms[r].invited.Keys - {p}
  }

  lemma {:induction false} OneEventLedger(n: Node, n': Node, e: Event, r: RoomId)
    requires OneEvent(n, n', e) && r in n'.rooms && r in n.rooms && LedgerOk(n, r)
    ensures LedgerOk(n', r)
  {
    assert n'.trail[..|n.trail|] == n.trail;
    forall p ensures p in n'.rooms[r].invited <==> HasTicket(n'.trail, r, p) {
      assert p in n.rooms[r].invited <==> HasTicket(n.trail, r, p);
    }
  }

  lemma {:induction false} OneEventKeeps(n: Node, n': Node, e: Event)
    requires AdmissionInv(n) && OneEvent(n, n', e)
    requires e.Joined? && e.entered ==> e.peer in n.rooms[e.roomId].invited
    ensures AdmissionInv(n')
  {
    assert n'.trail[..|n.trail|] == n.trail;
    if e.roomId in n.rooms { assert LedgerOk(n, e.roomId); }
    forall r | r in n'.rooms ensures LedgerOk(n', r) {
      assert LedgerOk(n, r);
      OneEventLedger(n, n', e, r);
    }
    forall i | 0 <= i < |n'.trail| && n'.trail[i].Joined? && n'.trail[i].entered
      ensures HasTicket(n'.trail[..i], n'.trail[i].roomId, n'.trail[i].peer)
    {
      assert n'.trail[..i] == n.trail[..i];
    }
    SentGrows(n, n');
  }

  // ---------------------------------------------------------------------------------------------
  // Every handler keeps it
  // ---------------------------------------------------------------------------------------------

  lemma {:induction false} InviteKeepsLedger(n: Node, r: RoomId, peer: Pid, env: Env)
    requires AdmissionInv(n) && Knows(n, r)
    ensures AdmissionInv(OwnerInvite(n, r, peer, env))
  {
    if Reaches(n, peer, env.up) {
      var n' := OwnerInvite(n, r, peer, env);
      assert Packet(n.me, peer, n.me, r, RoomInvite(Record(n, r).name)) in n'.sent;
      OneEventKeeps(n, n', Invited(r, peer));
    }
  }

  lemma {:induction false} RemoveIsOneEvent(n: Node, r: RoomId, peer: Pid, up: set<Pid>)
    requires r in n.rooms && peer != n.rooms[r].owner && peer in n.rooms[r].members && n.rooms[r].owner == n.me
    ensures OneEvent(n, OwnerRemove(n, r, peer, up), Removed(r, peer))
  {
    var room := n.rooms[r];
    var room' := room.(members := room.members - {peer}, invited := room.invited - {peer});
    var n' := OwnerRemove(n, r, peer, up);
    assert room'.members.Keys == room.members.Keys - {peer} && room'.invited.Keys == room.invited.Keys - {peer};
    assert n'.rooms == n.rooms[r := Bumped(room')];
  }

  lemma {:induction false} RemoveKeepsLedger(n: Node, r: RoomId, peer: Pid, up: set<Pid>)
    requires AdmissionInv(n) && r in n.rooms
    ensures AdmissionInv(OwnerRemove(n, r, peer, up))
  {
    assert LedgerOk(n, r);
    if peer != n.rooms[r].owner && peer in n.rooms[r].members {
      RemoveIsOneEvent(n, r, peer, up);
      OneEventKeeps(n, OwnerRemove(n, r, peer, up), Removed(r, peer));
    }
  }

  /** Is this join let through? */
  ghost predicate JoinAllowed(n: Node, p: Packet, env: Env) {
    var r := p.roomId;
    r in n.rooms && n.rooms[r].owner == n.me && p.from in env.trusted
    && (p.from in n.rooms[r].members || p.from in n.rooms[r].invited)
  }

  lemma {:induction false} JoinIsOneEvent(n: Node, p: Packet, env: Env)
    requires p.body.RoomJoin? && JoinAllowed(n, p, env)
    ensures OneEvent(n, HandleRoomJoin(n, p, env), Joined(p.roomId, p.from, p.from !in n.rooms[p.roomId].members))
  {
    var r := p.roomId;
    var room := n.rooms[r];
    var room1 := room.(invited := room.invited - {p.from});
    var n' := HandleRoomJoin(n, p, env);
    assert room1.invited.Keys == room.invited.Keys - {p.from};
    assert r in n'.rooms && n'.rooms == n.rooms[r := n'.rooms[r]];
    if p.from in room.members { assert n'.rooms[r] == room1; }
    else { assert n'.rooms[r].members == room.members[p.from := Member(p.body.fromName, false, THEME_COLOR)]; }
  }

  lemma {:induction false} JoinKeepsLedger(n: Node, p: Packet, env: Env)
    requires AdmissionInv(n) && p.body.RoomJoin?
    ensures AdmissionInv(HandleRoomJoin(n, p, env))
  {
    if JoinAllowed(n, p, env) {
      JoinIsOneEvent(n, p, env);
      OneEventKeeps(n, HandleRoomJoin(n, p, env), Joined(p.roomId, p.from, p.from !in n.rooms[p.roomId].members));
    }
  }

  /** No ledger or roster event so far is about a room of this id. */
  ghost predicate Fresh(n: Node, id: RoomId) { forall e | e in n.trail :: e.roomId != id }

  lemma {:induction false} CreateKeepsLedger(n: Node, c: Command, env: Env)
    requires AdmissionInv(n) && c.Create? && Fresh(n, c.id)
    ensures AdmissionInv(Obey(n, c, env))
  {
    var n' := Obey(n, c, env);
    RosterOfOthers(n.trail, c.id, n.me);
    forall p ensures !HasTicket(n.trail, c.id, p) { NoTicketOfOthers(n.trail, c.id, p); }
    forall r | r in n'.rooms ensures LedgerOk(n', r) { if r != c.id { assert LedgerOk(n, r); } }
    SentGrows(n, n');
  }

  lemma {:induction false} LeaveIsCalm(n: Node, r: RoomId, env: Env)
    requires Knows(n, r) && (r in n.rooms ==> n.rooms[r].owner == n.me)
    ensures Calm(n, MemberLeave(n, r, env))
  {
    var n' := MemberLeave(n, r, env);
    if r in n.rooms { assert n'.rooms == n.rooms || n'.rooms == n.rooms - {r}; }
    else { assert n'.rooms == n.rooms || n'.rooms == n.rooms - {r}; }
  }

  lemma {:induction false} ColorIsCalm(n: Node, r: RoomId, peer: Pid, color: Color, up: set<Pid>)
    requires Knows(n, r) && peer in Record(n, r).members
    ensures Calm(n, ApplyMemberColor(n, r, peer, color, up))
  {
    var members := Record(n, r).members;
    assert members[peer := members[peer].(color := color)].Keys == members.Keys;
  }

  lemma {:induction false} CanInviteIsCalm(n: Node, r: RoomId, peer: Pid, allowed: bool, up: set<Pid>)
    requires r in n.rooms
    ensures Calm(n, OwnerSetCanInvite(n, r, peer, allowed, up))
  {
    var members := n.rooms[r].members;
    if peer in members { assert members[peer := members[peer].(canInvite := allowed)].Keys == members.Keys; }
  }

  lemma {:induction false} ColorKeepsLedger(n: Node, r: RoomId, peer: Pid, color: Color, up: set<Pid>)
    requires AdmissionInv(n) && Knows(n, r) && peer in Record(n, r).members
    ensures AdmissionInv(ApplyMemberColor(n, r, peer, color, up))
  {
    ColorIsCalm(n, r, peer, color, up);
    CalmKeeps(n, ApplyMemberColor(n, r, peer, color, up));
  }

  lemma {:induction false} LeaveKeepsLedger(n: Node, r: RoomId, env: Env)
    requires AdmissionInv(n) && Knows(n, r)
    ensures AdmissionInv(MemberLeave(n, r, env))
  {
    if r in n.rooms { assert LedgerOk(n, r); }
    LeaveIsCalm(n, r, env);
    CalmKeeps(n, MemberLeave(n, r, env));
  }

  lemma {:induction false} OtherArrivalsAreCalm(n: Node, packet: Packet, env: Env)
    requires !packet.body.RoomLeave? && !packet.body.RoomJoin? && !packet.body.RoomAdd? && !packet.body.RoomColorSet?
    ensures Calm(n, Deliver(n, packet, env))
  {
    hide HandleRoomJoin, HandleRoomAdd, HandleRoomColorSet, HandleLeave, Snapshots;
    match packet.body
    case RoomState(_) =>
    case RoomInvite(_) =>
    case RoomStateReq =>
    case RoomFile(_, _) =>
    case RoomRemove =>
    case RoomText(_, _, _) =>
  }

  lemma {:induction false} OwnedChangeKeepsLedger(n: Node, c: Command, env: Env)
    requires AdmissionInv(n) && (c.SetCanInvite? || c.ToggleColors?)
    ensures AdmissionInv(Obey(n, c, env))
  {
    hide AdmissionInv;
    if c.SetCanInvite? && c.r in n.rooms { CanInviteIsCalm(n, c.r, c.peer, c.allowed, env.up); }
    CalmKeeps(n, Obey(n, c, env));
  }

  lemma {:induction false} QuietKeepsLedger(n: Node, c: Command, env: Env)
    requires AdmissionInv(n) && Quiet(n, c)
    ensures AdmissionInv(Obey(n, c, env))
  {
    QuietPackets(n, c, env);
    CalmKeeps(n, Obey(n, c, env));
  }

  lemma {:induction false} MemberCommandKeepsLedger(n: Node, c: Command, env: Env)
    requires AdmissionInv(n) && (c.Leave? || c.SetColor?)
    ensures AdmissionInv(Obey(n, c, env))
  {
    hide AdmissionInv, MemberLeave, ApplyMemberColor;
    if Obey(n, c, env) == n { return; }
    match c
    case Leave(r) => LeaveKeepsLedger(n, r, env);
    case SetColor(r, token, hex) =>
      if Record(n, r).owner == n.me {
        ColorKeepsLedger(n, r, n.me, Color(ShortToken(if token == "" then "theme" else token), hex), env.up);
      } else {
        CalmKeeps(n, Obey(n, c, env));
      }
  }

  lemma {:induction false} OwnerCommandKeepsLedger(n: Node, c: Command, env: Env)
    requires AdmissionInv(n) && (c.Invite? || c.Add? || c.Remove?)
    ensures AdmissionInv(Obey(n, c, env))
  {
    hide AdmissionInv, OwnerInvite, OwnerRemove;
    if Obey(n, c, env) == n { return; }
    match c
    case Invite(r, peer) => InviteKeepsLedger(n, r, peer, env);
    case Add(r, peer) =>
      if Record(n, r).owner == n.me { InviteKeepsLedger(n, r, peer, env); } else { CalmKeeps(n, Obey(n, c, env)); }
    case Remove(r, peer) => RemoveKeepsLedger(n, r, peer, env.up);
  }

  lemma {:induction false} CommandKeepsLedger(n: Node, c: Command, env: Env)
    requires AdmissionInv(n) && (c.Create? ==> Fresh(n, c.id))
    ensures AdmissionInv(Obey(n, c, env))
  {
    hide AdmissionInv, Obey, Fresh;
    match c
    case Create(_, _, _) => CreateKeepsLedger(n, c, env);
    case Invite(_, _) => OwnerCommandKeepsLedger(n, c, env);
    case Add(_, _) => OwnerCommandKeepsLedger(n, c, env);
    case Remove(_, _) => OwnerCommandKeepsLedger(n, c, env);
    case Leave(_) => MemberCommandKeepsLedger(n, c, env);
    case SetColor(_, _, _) => MemberCommandKeepsLedger(n, c, env);
    case SetCanInvite(_, _, _) => OwnedChangeKeepsLedger(n, c, env);
    case ToggleColors(_, _) => OwnedChangeKeepsLedger(n, c, env);
    case _ => QuietKeepsLedger(n, c, env);
  }

  lemma {:induction false} ArrivalKeepsLedger(n: Node, packet: Packet, env: Env)
    requires AdmissionInv(n)
    ensures AdmissionInv(Deliver(n, packet, env))
  {
    hide AdmissionInv;
    var p := Authored(packet);
    var n' := Deliver(n, packet, env);
    if n' == n { return; }
    match p.body
    case RoomLeave => RemoveKeepsLedger(n, p.roomId, p.from, env.up);
    case RoomJoin(_) => JoinKeepsLedger(n, p, env);
    case RoomAdd(peer) => InviteKeepsLedger(n, p.roomId, peer, env);
    case RoomColorSet(token, hex) => ColorKeepsLedger(n, p.roomId, p.from, Color(ShortToken(token), hex), env.up);
    case _ => OtherArrivalsAreCalm(n, packet, env); CalmKeeps(n, n');
  }

  /** A run from the start, in which created rooms get ids that no earlier event is about. */
  ghost predicate IsOwnRun(states: seq<Node>, turns: seq<Turn>) {
    && IsNodeRun(states, turns) && states[0] == Boot(states[0].me)
    && forall k | 0 <= k < |turns| && turns[k].input.Local? && turns[k].input.command.Create? ::
         Fresh(states[k], turns[k].input.command.id)
  }

  lemma {:induction false} RunKeepsLedgers(states: seq<Node>, turns: seq<Turn>, k: nat)
    requires IsOwnRun(states, turns) && k < |states|
    ensures AdmissionInv(states[k]) && states[k].me == states[0].me
  {
    hide Obey, Deliver, AdmissionInv, Fresh;
    if k == 0 {
      BootKeepsLedger(states[0].me);
    } else {
      RunKeepsLedgers(states, turns, k - 1);
      var n, turn := states[k - 1], turns[k - 1];
      ShownStep(n, turn.input, turn.env);
      match turn.input
      case Local(c) => CommandKeepsLedger(n, c, turn.env);
      case Arrival(p) => ArrivalKeepsLedger(n, p, turn.env);
    }
  }

  lemma {:induction false} BootKeepsLedger(me: Pid)
    ensures AdmissionInv(Boot(me))
  {
    assert Boot(me).trail == [];
  }

  // ---------------------------------------------------------------------------------------------
  // The theorem
  // ---------------------------------------------------------------------------------------------

  /** In every run, whatever envelopes arrive: each time a peer entered a roster, we had handed that
      peer an invitation before, and between the two the peer was neither removed nor joined. */
  lemma {:induction false} EveryEntryHadItsOwnInvitation(states: seq<Node>, turns: seq<Turn>, k: nat, i: nat)
    requires IsOwnRun(states, turns) && k < |states|
    requires i < |states[k].trail| && states[k].trail[i].Joined? && states[k].trail[i].entered
    ensures var n := states[k]; var e := n.trail[i];
            && (exists j :: InvitedSince(n.trail[..i], e.roomId, e.peer, j))
            && (exists name :: Packet(n.me, e.peer, n.me, e.roomId, RoomInvite(name)) in n.sent)
  {
    hide Handle;
    RunKeepsLedgers(states, turns, k);
    var n := states[k];
    var e := n.trail[i];
    TicketMeansInvited(n.trail[..i], e.roomId, e.peer);
    var j :| InvitedSince(n.trail[..i], e.roomId, e.peer, j);
    assert n.trail[j] == Invited(e.roomId, e.peer) && n.trail[j] in n.trail;
    assert InviteWasSent(n, n.trail[j]);
  }

  /** Nobody but the owner is on a roster without an entry after their last removal. */
  lemma {:induction false} MembersEntered(trail: seq<Event>, r: RoomId, owner: Pid, p: Pid)
    requires p in RosterOf(trail, r, owner) && p != owner
    ensures exists i :: 0 <= i < |trail| && trail[i] == Joined(r, p, true)
                        && forall k | i < k < |trail| :: trail[k] != Removed(r, p)
  {
    var e, earlier := trail[|trail| - 1], trail[..|trail| - 1];
    if e == Joined(r, p, true) { assert trail[|trail| - 1] == e; }
    else {
      MembersEntered(earlier, r, owner, p);
      var i :| 0 <= i < |earlier| && earlier[i] == Joined(r, p, true)
               && forall k | i < k < |earlier| :: earlier[k] != Removed(r, p);
      assert trail[i] == Joined(r, p, true);
    }
  }

  /** In every run, whatever envelopes arrive, the roster of an owned room is exactly the owner plus
      those who entered and were not removed since; in particular the owner is always on it. */
  lemma {:induction false} RosterIsEntriesMinusRemovals(states: seq<Node>, turns: seq<Turn>, k: nat, r: RoomId)
    requires IsOwnRun(states, turns) && k < |states| && r in states[k].rooms
    ensures var n := states[k];
            && n.rooms[r].owner == n.me && n.me in n.rooms[r].members
            && n.rooms[r].members.Keys == RosterOf(n.trail, r, n.me)
            && forall p | p in n.rooms[r].members && p != n.me ::
                 exists i :: 0 <= i < |n.trail| && n.trail[i] == Joined(r, p, true)
                             && forall j | i < j < |n.trail| :: n.trail[j] != Removed(r, p)
  {
    hide Handle;
    RunKeepsLedgers(states, turns, k);
    var n := states[k];
    assert LedgerOk(n, r);
    forall p | p in n.rooms[r].members && p != n.me
      ensures exists i :: 0 <= i < |n.trail| && n.trail[i] == Joined(r, p, true)
                          && forall j | i < j < |n.trail| :: n.trail[j] != Removed(r, p)
    {
      MembersEntered(n.trail, r, n.me, p);
    }
  }
}
