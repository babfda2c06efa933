/** Who may do what to a room: exactly when a step invites, admits or removes somebody, and exactly what
    every step leaves in a record of the roster. */
module RoomRoster {
  import opened RoomModel
  import opened RoomGate
  import opened RoomAdmission

  // ---------------------------------------------------------------------------------------------
  // Ledger and roster events
  // ---------------------------------------------------------------------------------------------

  /** An envelope about room `r` that its connection's own peer wrote. */
  predicate By(i: Input, r: RoomId, author: Pid) {
    && i.Arrival? && i.packet.roomId == r && r != ""
    && i.packet.src == author && (i.packet.from == "" || i.packet.from == author)
  }

  predicate Owns(n: Node, r: RoomId) { r in n.rooms && n.rooms[r].owner == n.me }

  /** Our own command, or a member with the invite right asks for a peer that we trust. */
  predicate MayInvite(n: Node, i: Input, env: Env, r: RoomId, q: Pid) {
    match i
    case Local(Invite(s, p)) => s == r && p == q && Knows(n, r) && Record(n, r).owner == n.me
    case Local(Add(s, p)) => s == r && p == q && Knows(n, r) && Record(n, r).owner == n.me && q in env.trusted
    case Local(_) => false
    case Arrival(p) =>
      && By(i, r, p.src) && Owns(n, r) && p.body == RoomAdd(q) && q != "" && q in env.trusted
      && p.src in n.rooms[r].members && n.rooms[r].members[p.src].canInvite
  }

  predicate Invites(n: Node, i: Input, env: Env, r: RoomId, q: Pid) {
    Reaches(n, q, env.up) && MayInvite(n, i, env, r, q)
  }

  /** A trusted peer that is on the roster or holds a ticket joins for itself. */
  predicate Joins(n: Node, i: Input, env: Env, r: RoomId, q: Pid) {
    && By(i, r, q) && i.packet.body.RoomJoin? && Owns(n, r) && q in env.trusted
    && (q in n.rooms[r].members || q in n.rooms[r].invited)
  }

  /** We remove a member, or it leaves. */
  predicate Removes(n: Node, i: Input, r: RoomId, q: Pid) {
    && Owns(n, r) && q in n.rooms[r].members && q != n.me
    && (i == Local(Remove(r, q)) || (By(i, r, q) && i.packet.body.RoomLeave?))
  }

  /** What a step adds to the trail. */
  function News(n: Node, n': Node): seq<Event> { if n.trail <= n'.trail then n'.trail[|n.trail|..] else [] }

  predicate IsNews(n: Node, i: Input, env: Env, e: Event) {
    match e
    case Invited(r, q) => Invites(n, i, env, r, q)
    case Joined(r, q, entered) => Joins(n, i, env, r, q) && entered == (q !in n.rooms[r].members)
    case Removed(r, q) => Removes(n, i, r, q)
  }

  lemma {:induction false} InviteTrail(n: Node, r: RoomId, peer: Pid, env: Env)
    requires Knows(n, r)
    ensures OwnerInvite(n, r, peer, env).trail == n.trail + if Reaches(n, peer, env.up) then [Invited(r, peer)] else []
  {
  }

  lemma {:induction false} InviteNews(n: Node, i: Input, env: Env, e: Event)
    requires i.Local? && (i.command.Invite? || i.command.Add?)
    ensures var n' := Handle(n, i, env); n.trail <= n'.trail && (News(n, n') == [e] <==> IsNews(n, i, env, e))
  {
    hide OwnerInvite;
    if Knows(n, i.command.r) { InviteTrail(n, i.command.r, i.command.peer, env); }
  }

  lemma {:induction false} AddNews(n: Node, i: Input, env: Env, e: Event)
    requires i.Arrival? && i.packet.body.RoomAdd?
    ensures var n' := Handle(n, i, env); n.trail <= n'.trail && (News(n, n') == [e] <==> IsNews(n, i, env, e))
  {
    hide OwnerInvite;
    if Knows(n, i.packet.roomId) { InviteTrail(n, i.packet.roomId, i.packet.body.peer, env); }
  }

  lemma {:induction false} JoinTrail(n: Node, p: Packet, env: Env)
    requires p.body.RoomJoin?
    ensures HandleRoomJoin(n, p, env).trail == n.trail +
              if JoinAllowed(n, p, env) then [Joined(p.roomId, p.from, p.from !in n.rooms[p.roomId].members)] else []
  {
    hide Snapshots;
  }

  lemma {:induction false} JoinNews(n: Node, i: Input, env: Env, e: Event)
    requires i.Arrival? && i.packet.body.RoomJoin?
    ensures var n' := Handle(n, i, env); n.trail <= n'.trail && (News(n, n') == [e] <==> IsNews(n, i, env, e))
  {
    JoinTrail(n, Authored(i.packet), env);
    hide HandleRoomJoin;
  }

  lemma {:induction false} RemoveTrail(n: Node, r: RoomId, peer: Pid, up: set<Pid>)
    requires Owns(n, r)
    ensures OwnerRemove(n, r, peer, up).trail == n.trail +
              if peer in n.rooms[r].members && peer != n.me then [Removed(r, peer)] else []
  {
    hide Snapshots;
  }

  lemma {:induction false} RemoveNews(n: Node, i: Input, env: Env, e: Event)
    requires (i.Local? && i.command.Remove?) || (i.Arrival? && i.packet.body.RoomLeave?)
    ensures var n' := Handle(n, i, env); n.trail <= n'.trail && (News(n, n') == [e] <==> IsNews(n, i, env, e))
  {
    var r, peer := if i.Local? then i.command.r else i.packet.roomId, if i.Local? then i.command.peer else i.packet.src;
    if Owns(n, r) { RemoveTrail(n, r, peer, env.up); }
    hide OwnerRemove;
  }

  lemma {:induction false} CommandNews(n: Node, c: Command, env: Env)
    requires !c.Invite? && !c.Add? && !c.Remove?
    ensures Obey(n, c, env).trail == n.trail
  {
    hide Snapshots, Farewells, FileCopies, TextCopies, SyncRequests;
    match c
    case Create(_, _, _) =>
    case Leave(_) =>
    case SetCanInvite(_, _, _) =>
    case SetColor(_, _, _) =>
    case ToggleColors(_, _) =>
    case _ =>
  }

  lemma {:induction false} ArrivalNews(n: Node, p: Packet, env: Env)
    requires !p.body.RoomLeave? && !p.body.RoomJoin? && !p.body.RoomAdd?
    ensures Deliver(n, p, env).trail == n.trail
  {
    hide Snapshots, HandleRoomJoin, HandleRoomAdd, HandleLeave;
    match p.body
    case RoomState(_) =>
    case RoomInvite(_) =>
    case RoomStateReq =>
    case RoomFile(_, _) =>
    case RoomColorSet(_, _) =>
    case RoomRemove =>
    case RoomText(_, _, _) =>
  }

  /** A step invites, admits or removes somebody exactly when it may: who is invited and by whom, who
      joins and on what ticket, who is removed. Nobody but the owner and the members it gave the right
      can cause an invitation. */
  lemma {:induction false} StepNews(n: Node, i: Input, env: Env, e: Event)
    ensures var n' := Handle(n, i, env);
            n.trail <= n'.trail && (News(n, n') == [e] <==> IsNews(n, i, env, e))
  {
    hide Obey, Deliver;
    match i
    case Local(c) =>
      if c.Invite? || c.Add? { InviteNews(n, i, env, e); }
      else if c.Remove? { RemoveNews(n, i, env, e); }
      else { CommandNews(n, c, env); }
    case Arrival(p) =>
      if p.body.RoomAdd? { AddNews(n, i, env, e); }
      else if p.body.RoomJoin? { JoinNews(n, i, env, e); }
      else if p.body.RoomLeave? { RemoveNews(n, i, env, e); }
      else { ArrivalNews(n, p, env); }
  }

  /** In every run: a peer that joins for itself enters exactly if we trust it, it is not on the roster,
      and an invitation of it has not been used up or withdrawn. */
  lemma {:induction false} EntersIffInvited(states: seq<Node>, turns: seq<Turn>, k: nat, r: RoomId, q: Pid)
    requires IsOwnRun(states, turns) && k < |turns| && r in states[k].rooms
    requires By(turns[k].input, r, q) && turns[k].input.packet.body.RoomJoin?
    ensures News(states[k], states[k + 1]) == [Joined(r, q, true)] <==>
            && q in turns[k].env.trusted && q !in RosterOf(states[k].trail, r, states[k].me)
            && exists j :: InvitedSince(states[k].trail, r, q, j)
  {
    hide Handle;
    RunKeepsLedgers(states, turns, k);
    assert LedgerOk(states[k], r);
    StepNews(states[k], turns[k].input, turns[k].env, Joined(r, q, true));
    TicketMeansInvited(states[k].trail, r, q);
  }

  // ---------------------------------------------------------------------------------------------
  // What a step leaves in an owned room
  // ---------------------------------------------------------------------------------------------

  /** A colour that is either the theme's or written like "#abc" or "#aabbcc". */
  predicate WellFormed(c: Color) { c.token == "theme" || (|c.hex| in {4, 7} && c.hex[0] == '#') }

  function First32(token: string): string { if |token| <= 32 then token else token[..32] }

  /** The member picks this colour for itself. */
  predicate Picks(n: Node, i: Input, r: RoomId, p: Pid, c: Color) {
    && WellFormed(c)
    && ((p == n.me && i.Local? && i.command.SetColor? && i.command.r == r
         && c == Color(First32(if i.command.token == "" then "theme" else i.command.token), i.command.hex))
        || (By(i, r, p) && i.packet.body.RoomColorSet?
            && c == Color(First32(i.packet.body.token), i.packet.body.hex)))
  }

  /** We, the owner, grant the member the invite right or take it away. */
  predicate Grants(n: Node, i: Input, r: RoomId, p: Pid, allowed: bool) {
    p != n.me && i == Local(SetCanInvite(r, p, allowed))
  }

  /** From the member's old record to its new one: only our grant moves the right, and only the member
      itself its colour. */
  ghost predicate MemberMoved(n: Node, i: Input, r: RoomId, p: Pid, m: Member, m': Member) {
    && m'.name == m.name
    && (Grants(n, i, r, p, m'.canInvite) || (m'.canInvite == m.canInvite && !Grants(n, i, r, p, !m.canInvite)))
    && (Picks(n, i, r, p, m'.color) || (m'.color == m.color && forall c :: !Picks(n, i, r, p, c)))
  }

  /** An owned room before and after a step that neither makes nor disbands it. */
  ghost predicate RoomMoved(n: Node, i: Input, n': Node, r: RoomId)
    requires r in n.rooms && r in n'.rooms
  {
    var room, room' := n.rooms[r], n'.rooms[r];
    && room'.id == room.id && room'.name == room.name && room'.owner == room.owner
    && (room'.colorsEnabled == room.colorsEnabled || i == Local(ToggleColors(r, room'.colorsEnabled)))
    && (room'.colorsEnabled == room.colorsEnabled ==> i != Local(ToggleColors(r, !room.colorsEnabled)))
    && forall p | p in room'.members ::
         if p in room.members then MemberMoved(n, i, r, p, room.members[p], room'.members[p])
         else i.Arrival? && i.packet.body.RoomJoin?
              && room'.members[p] == Member(i.packet.body.fromName, false, THEME_COLOR)
  }

  lemma {:induction false} UnmovedRoom(n: Node, i: Input, n': Node, r: RoomId)
    requires r in n.rooms && r in n'.rooms && n'.rooms[r] == n.rooms[r].(invited := n'.rooms[r].invited)
    requires i.Local? ==> !(i.command.SetCanInvite? && i.command.r == r && i.command.peer in n.rooms[r].members
                            && i.command.peer != n.me)
    requires i.Local? ==> !(i.command.ToggleColors? && i.command.r == r)
    requires forall p, c | p in n.rooms[r].members :: !Picks(n, i, r, p, c)
    ensures RoomMoved(n, i, n', r)
  {
    forall p | p in n.rooms[r].members
      ensures MemberMoved(n, i, r, p, n.rooms[r].members[p], n'.rooms[r].members[p])
    {
      assert n'.rooms[r].members[p] == n.rooms[r].members[p];
    }
  }

  lemma {:induction false} RemoveMoves(n: Node, i: Input, q: RoomId, peer: Pid, env: Env, r: RoomId)
    requires Owns(n, q) && r in n.rooms && r in OwnerRemove(n, q, peer, env.up).rooms
    requires (i.Local? && i.command.Remove?) || (i.Arrival? && i.packet.body.RoomLeave?)
    ensures RoomMoved(n, i, OwnerRemove(n, q, peer, env.up), r)
  {
    hide Snapshots;
  }

  lemma {:induction false} JoinMoves(n: Node, i: Input, env: Env, r: RoomId)
    requires i.Arrival? && i.packet.body.RoomJoin?
    requires r in n.rooms && r in HandleRoomJoin(n, Authored(i.packet), env).rooms
    ensures RoomMoved(n, i, HandleRoomJoin(n, Authored(i.packet), env), r)
  {
    var p := Authored(i.packet);
    JoinRooms(n, p, env);
    hide HandleRoomJoin;
  }

  lemma {:induction false} JoinRooms(n: Node, p: Packet, env: Env)
    requires p.body.RoomJoin?
    ensures var r, n' := p.roomId, HandleRoomJoin(n, p, env);
            if !JoinAllowed(n, p, env) then n' == n
            else
              var room := n.rooms[r].(invited := n.rooms[r].invited - {p.from});
              var entered := room.(members := room.members[p.from := Member(p.body.fromName, false, THEME_COLOR)]);
              n'.rooms == n.rooms[r := if p.from in room.members then room else Bumped(entered)]
  {
    hide Snapshots;
  }

  lemma {:induction false} ColorMoves(n: Node, i: Input, q: RoomId, p: Pid, color: Color, env: Env, r: RoomId)
    requires Owns(n, q) && p in n.rooms[q].members && Picks(n, i, q, p, color)
    requires r in n.rooms && r in ApplyMemberColor(n, q, p, color, env.up).rooms
    ensures RoomMoved(n, i, ApplyMemberColor(n, q, p, color, env.up), r)
  {
    hide Snapshots;
  }

  ghost predicate AllOurs(n: Node) { forall q | q in n.rooms :: Owns(n, q) }

  lemma {:induction false} GrantMoves(n: Node, c: Command, env: Env, r: RoomId)
    requires AllOurs(n) && c.SetCanInvite? && r in n.rooms && r in Obey(n, c, env).rooms
    ensures RoomMoved(n, Local(c), Obey(n, c, env), r)
  {
    hide Snapshots;
    assert Owns(n, r);
  }

  lemma {:induction false} ToggleMoves(n: Node, c: Command, env: Env, r: RoomId)
    requires AllOurs(n) && c.ToggleColors? && r in n.rooms && r in Obey(n, c, env).rooms
    ensures RoomMoved(n, Local(c), Obey(n, c, env), r)
  {
    hide Snapshots;
    assert Owns(n, r);
  }

  lemma {:induction false} OwnColorMoves(n: Node, c: Command, env: Env, r: RoomId)
    requires AllOurs(n) && c.SetColor? && r in n.rooms && r in Obey(n, c, env).rooms
    ensures RoomMoved(n, Local(c), Obey(n, c, env), r)
  {
    hide ApplyMemberColor;
    var color := Color(ShortToken(if c.token == "" then "theme" else c.token), c.hex);
    if Knows(n, c.r) && Record(n, c.r).owner == n.me && n.me in Record(n, c.r).members && ValidColor(color) {
      if Owns(n, c.r) { ColorMoves(n, Local(c), c.r, n.me, color, env, r); }
      else { CachedColor(n, c.r, n.me, color, env.up); }
    }
  }

  /** Changing a colour in a cached record touches no owned room. */
  lemma {:induction false} CachedColor(n: Node, q: RoomId, p: Pid, color: Color, up: set<Pid>)
    requires q !in n.rooms && Knows(n, q) && p in Record(n, q).members
    ensures ApplyMemberColor(n, q, p, color, up).rooms == n.rooms
  {
  }

  lemma {:induction false} InviteMoves(n: Node, i: Input, q: RoomId, peer: Pid, env: Env, r: RoomId)
    requires Knows(n, q) && r in n.rooms
    requires if i.Local? then i.command.Invite? || i.command.Add? else i.packet.body.RoomAdd?
    ensures r in OwnerInvite(n, q, peer, env).rooms && RoomMoved(n, i, OwnerInvite(n, q, peer, env), r)
  {
    hide RoomMoved;
    UnmovedRoom(n, i, OwnerInvite(n, q, peer, env), r);
  }

  lemma {:induction false} LeaveMoves(n: Node, c: Command, env: Env, r: RoomId)
    requires AllOurs(n) && c.Leave? && r in n.rooms && r in Obey(n, c, env).rooms
    ensures RoomMoved(n, Local(c), Obey(n, c, env), r)
  {
    hide RoomMoved, Farewells;
    assert Owns(n, r);
    UnmovedRoom(n, Local(c), Obey(n, c, env), r);
  }

  /** Commands that leave every room as it is, tickets aside. */
  lemma {:induction false} OtherCommandMoves(n: Node, c: Command, env: Env, r: RoomId)
    requires !c.SetCanInvite? && !c.ToggleColors? && !c.SetColor? && !c.Remove? && !c.Leave?
    requires r in n.rooms && r in Obey(n, c, env).rooms && !(c.Create? && c.id == r)
    ensures RoomMoved(n, Local(c), Obey(n, c, env), r)
  {
    hide RoomMoved, OwnerInvite, MemberLeave, OwnerRemove;
    if Obey(n, c, env) == n {
      UnmovedRoom(n, Local(c), n, r);
    } else {
      match c
      case Invite(q, peer) => InviteMoves(n, Local(c), q, peer, env, r);
      case Add(q, peer) =>
        if Record(n, q).owner == n.me { InviteMoves(n, Local(c), q, peer, env, r); }
        else { UnmovedRoom(n, Local(c), Obey(n, c, env), r); }
      case _ => UnmovedRoom(n, Local(c), Obey(n, c, env), r);
    }
  }

  lemma {:induction false} CommandMoves(n: Node, c: Command, env: Env, r: RoomId)
    requires AllOurs(n) && r in n.rooms && r in Obey(n, c, env).rooms && !(c.Create? && c.id == r)
    ensures RoomMoved(n, Local(c), Obey(n, c, env), r)
  {
    hide RoomMoved, OwnerRemove;
    if c.SetCanInvite? {
      GrantMoves(n, c, env, r);
    } else if c.ToggleColors? {
      ToggleMoves(n, c, env, r);
    } else if c.SetColor? {
      OwnColorMoves(n, c, env, r);
    } else if c.Remove? {
      if Owns(n, c.r) { RemoveMoves(n, Local(c), c.r, c.peer, env, r); } else { UnmovedRoom(n, Local(c), n, r); }
    } else if c.Leave? {
      LeaveMoves(n, c, env, r);
    } else {
      OtherCommandMoves(n, c, env, r);
    }
  }

  lemma {:induction false} OtherArrivalMoves(n: Node, p: Packet, env: Env, r: RoomId)
    requires !p.body.RoomLeave? && !p.body.RoomJoin? && !p.body.RoomColorSet? && !p.body.RoomAdd?
    requires r in n.rooms && r in Deliver(n, p, env).rooms
    ensures RoomMoved(n, Arrival(p), Deliver(n, p, env), r)
  {
    hide Snapshots, HandleRoomJoin, HandleRoomAdd, HandleLeave, HandleRoomColorSet, RoomMoved;
    var n' := Deliver(n, p, env);
    assert n'.rooms == n.rooms by {
      match p.body
      case RoomState(_) =>
      case RoomInvite(_) =>
      case RoomStateReq =>
      case RoomFile(_, _) =>
      case RoomRemove =>
      case RoomText(_, _, _) =>
    }
    UnmovedRoom(n, Arrival(p), n', r);
  }

  lemma {:induction false} ColorSetMoves(n: Node, packet: Packet, env: Env, r: RoomId)
    requires AllOurs(n) && packet.body.RoomColorSet? && r in n.rooms && r in Deliver(n, packet, env).rooms
    ensures RoomMoved(n, Arrival(packet), Deliver(n, packet, env), r)
  {
    hide ApplyMemberColor;
    var p := Authored(packet);
    var q, color := p.roomId, Color(ShortToken(p.body.token), p.body.hex);
    if p.from == p.src && q != "" && Knows(n, q) && Record(n, q).owner == n.me && p.from in Record(n, q).members
       && ValidColor(color) {
      if Owns(n, q) { ColorMoves(n, Arrival(packet), q, p.from, color, env, r); }
      else { CachedColor(n, q, p.from, color, env.up); }
    }
  }

  /** Every step moves an owned room only as it may: the invite right by the owner's command, a colour by
      the member itself, the colour switch by the owner, and a newcomer starts without the right. */
  lemma {:induction false} RoomStep(n: Node, i: Input, env: Env, r: RoomId)
    requires AllOurs(n) && r in n.rooms && r in Handle(n, i, env).rooms
    requires i.Local? && i.command.Create? ==> i.command.id != r
    ensures RoomMoved(n, i, Handle(n, i, env), r)
  {
    hide RoomMoved, Obey, HandleRoomJoin, OwnerRemove;
    match i
    case Local(c) => CommandMoves(n, c, env, r);
    case Arrival(p) =>
      if p.body.RoomColorSet? { ColorSetMoves(n, p, env, r); }
      else if Deliver(n, p, env) == n { UnmovedRoom(n, i, n, r); }
      else if p.body.RoomLeave? { RemoveMoves(n, i, p.roomId, Authored(p).from, env, r); }
      else if p.body.RoomJoin? { JoinMoves(n, i, env, r); }
      else if p.body.RoomAdd? { InviteMoves(n, i, p.roomId, p.body.peer, env, r); }
      else { OtherArrivalMoves(n, p, env, r); }
  }

  // ---------------------------------------------------------------------------------------------
  // The invite right
  // ---------------------------------------------------------------------------------------------

  lemma {:induction false} OwnerRooms(n: Node, r: RoomId, peer: Pid, color: Color, env: Env)
    requires Knows(n, r)
    ensures OwnerInvite(n, r, peer, env).rooms.Keys == n.rooms.Keys
    ensures r in n.rooms ==> OwnerRemove(n, r, peer, env.up).rooms.Keys == n.rooms.Keys
    ensures peer in Record(n, r).members ==> ApplyMemberColor(n, r, peer, color, env.up).rooms.Keys == n.rooms.Keys
  {
    hide Snapshots, LogState;
  }

  /** We, the owner, leave. */
  predicate Disbands(n: Node, i: Input) {
    i.Local? && i.command.Leave? && i.command.r in n.rooms && n.me in n.rooms[i.command.r].members
  }

  lemma {:induction false} LeaveRooms(n: Node, r: RoomId, env: Env)
    requires AllOurs(n) && Knows(n, r)
    ensures MemberLeave(n, r, env).rooms.Keys == n.rooms.Keys - if Disbands(n, Local(Leave(r))) then {r} else {}
    ensures MemberLeave(n, r, env) == n ==> !Disbands(n, Local(Leave(r)))
  {
    hide Farewells;
    if r in n.rooms { assert Owns(n, r); }
  }

  lemma {:induction false} CommandRooms(n: Node, c: Command, env: Env)
    requires AllOurs(n)
    ensures Obey(n, c, env).rooms.Keys ==
              n.rooms.Keys + (if c.Create? then {c.id} else {}) - if Disbands(n, Local(c)) then {c.r} else {}
  {
    hide Snapshots, LogState, OwnerInvite, OwnerRemove, ApplyMemberColor, Farewells;
    if c.Leave? && Knows(n, c.r) { LeaveRooms(n, c.r, env); }
    hide MemberLeave;
    if Obey(n, c, env) == n { return; }
    match c
    case Invite(r, peer) => OwnerRooms(n, r, peer, THEME_COLOR, env);
    case Add(r, peer) => OwnerRooms(n, r, peer, THEME_COLOR, env);
    case Leave(_) =>
    case Remove(r, peer) => OwnerRooms(n, r, peer, THEME_COLOR, env);
    case SetCanInvite(_, _, _) =>
    case SetColor(r, token, hex) =>
      OwnerRooms(n, r, n.me, Color(ShortToken(if token == "" then "theme" else token), hex), env);
    case ToggleColors(_, _) =>
    case _ =>
  }

  lemma {:induction false} ArrivalRooms(n: Node, packet: Packet, env: Env)
    ensures Deliver(n, packet, env).rooms.Keys == n.rooms.Keys
  {
    hide Snapshots, LogState, OwnerInvite, OwnerRemove, ApplyMemberColor, HandleRoomJoin;
    if Deliver(n, packet, env) == n { return; }
    var p := Authored(packet);
    match p.body
    case RoomJoin(_) => JoinRooms(n, p, env);
    case RoomLeave => OwnerRooms(n, p.roomId, p.from, THEME_COLOR, env);
    case RoomAdd(peer) => OwnerRooms(n, p.roomId, peer, THEME_COLOR, env);
    case RoomColorSet(token, hex) => OwnerRooms(n, p.roomId, p.from, Color(ShortToken(token), hex), env);
    case _ =>
  }

  /** Only our own command makes a room, and only our leaving disbands it. */
  lemma {:induction false} RoomsComeAndGo(n: Node, i: Input, env: Env, r: RoomId)
    requires AllOurs(n)
    ensures r in Handle(n, i, env).rooms <==>
            (i.Local? && i.command.Create? && i.command.id == r)
            || (r in n.rooms && !(Disbands(n, i) && i.command.r == r))
  {
    hide Obey, Deliver;
    match i
    case Local(c) => CommandRooms(n, c, env);
    case Arrival(p) => ArrivalRooms(n, p, env);
  }

  ghost predicate OnRoster(n: Node, r: RoomId, p: Pid) { r in n.rooms && p in n.rooms[r].members }

  /** Our command `j` gave the member the right; since then it has stayed and kept it. */
  ghost predicate Granted(states: seq<Node>, turns: seq<Turn>, j: int, k: int, r: RoomId, p: Pid) {
    && 0 <= j < k <= |turns| && k < |states| && turns[j].input == Local(SetCanInvite(r, p, true))
    && (forall x | j <= x <= k :: OnRoster(states[x], r, p))
    && forall x | j < x < k :: turns[x].input != Local(SetCanInvite(r, p, false))
  }

  ghost predicate HoldsGrant(states: seq<Node>, turns: seq<Turn>, k: int, r: RoomId, p: Pid) {
    exists j :: Granted(states, turns, j, k, r, p)
  }

  lemma {:induction false} CreatedRoster(n: Node, i: Input, env: Env)
    requires i.Local? && i.command.Create?
    ensures var rooms := Handle(n, i, env).rooms;
            && i.command.id in rooms
            && rooms[i.command.id].members == map[n.me := Member(i.command.ownerName, true, THEME_COLOR)]
  {
  }

  lemma {:induction false} GrantedLonger(
      states: seq<Node>, turns: seq<Turn>, j: int, k: nat, r: RoomId, p: Pid)
    requires 0 < k <= |turns| && k < |states| && OnRoster(states[k], r, p) && OnRoster(states[k - 1], r, p)
    ensures Granted(states, turns, j, k, r, p) <==>
            || (j == k - 1 && turns[j].input == Local(SetCanInvite(r, p, true)))
            || (Granted(states, turns, j, k - 1, r, p) && turns[k - 1].input != Local(SetCanInvite(r, p, false)))
  {
    if j < k - 1 && Granted(states, turns, j, k - 1, r, p) {
      forall x | j <= x <= k ensures OnRoster(states[x], r, p) { if x < k { assert x <= k - 1; } }
    }
  }

  lemma {:induction false} RightStep(states: seq<Node>, turns: seq<Turn>, k: nat, r: RoomId, p: Pid)
    requires 0 < k <= |turns| && k < |states| && OnRoster(states[k], r, p) && OnRoster(states[k - 1], r, p)
    requires states[k].me == states[k - 1].me
    requires MemberMoved(states[k - 1], turns[k - 1].input, r, p, states[k - 1].rooms[r].members[p],
                         states[k].rooms[r].members[p])
    requires states[k - 1].rooms[r].members[p].canInvite <==>
             p == states[k - 1].me || HoldsGrant(states, turns, k - 1, r, p)
    ensures states[k].rooms[r].members[p].canInvite <==>
            p == states[k].me || HoldsGrant(states, turns, k, r, p)
  {
    hide Granted;
    forall j
      ensures Granted(states, turns, j, k, r, p) <==>
              || (j == k - 1 && turns[j].input == Local(SetCanInvite(r, p, true)))
              || (Granted(states, turns, j, k - 1, r, p) && turns[k - 1].input != Local(SetCanInvite(r, p, false)))
    {
      GrantedLonger(states, turns, j, k, r, p);
    }
    if HoldsGrant(states, turns, k - 1, r, p) {
      var j :| Granted(states, turns, j, k - 1, r, p);
      assert Granted(states, turns, j, k, r, p) || turns[k - 1].input == Local(SetCanInvite(r, p, false));
    }
    assert turns[k - 1].input == Local(SetCanInvite(r, p, true)) ==> Granted(states, turns, k - 1, k, r, p);
  }

  lemma {:induction false} GrantedMembersStay(states: seq<Node>, turns: seq<Turn>, k: int, r: RoomId, p: Pid)
    ensures HoldsGrant(states, turns, k, r, p) ==> k > 0 && OnRoster(states[k - 1], r, p)
  {
  }

  /** In every run a member may invite exactly if it owns the room, or we gave it the right since it
      entered and have not taken it away again. */
  lemma {:induction false} RightIsTheLastGrant(states: seq<Node>, turns: seq<Turn>, k: nat, r: RoomId, p: Pid)
    requires IsOwnRun(states, turns) && k < |states| && OnRoster(states[k], r, p)
    ensures states[k].rooms[r].members[p].canInvite <==>
            p == states[k].me || HoldsGrant(states, turns, k, r, p)
  {
    hide Handle, Fresh, MemberMoved;
    assert k > 0;
    GrantedMembersStay(states, turns, k, r, p);
    RunKeepsLedgers(states, turns, k - 1);
    RunKeepsLedgers(states, turns, k);
    var n, i := states[k - 1], turns[k - 1].input;
    assert states[k] == Handle(n, i, turns[k - 1].env);
    if i.Local? && i.command.Create? && i.command.id == r {
      CreatedRoster(n, i, turns[k - 1].env);
    } else {
      assert AllOurs(n) by { forall q | q in n.rooms ensures Owns(n, q) { assert LedgerOk(n, q); } }
      RoomsComeAndGo(n, i, turns[k - 1].env, r);
      RoomStep(n, i, turns[k - 1].env, r);
      if p in n.rooms[r].members {
        RightIsTheLastGrant(states, turns, k - 1, r, p);
        RightStep(states, turns, k, r, p);
      }
    }
  }

  /** In every run the colours on an owned room's roster are well formed. */
  lemma {:induction false} ColorsAreWellFormed(states: seq<Node>, turns: seq<Turn>, k: nat, r: RoomId, p: Pid)
    requires IsOwnRun(states, turns) && k < |states| && OnRoster(states[k], r, p)
    ensures var c := states[k].rooms[r].members[p].color; WellFormed(c) && |c.token| <= 32
  {
    hide Handle, Fresh;
    assert k > 0;
    RunKeepsLedgers(states, turns, k - 1);
    var n, i := states[k - 1], turns[k - 1].input;
    assert states[k] == Handle(n, i, turns[k - 1].env);
    if i.Local? && i.command.Create? && i.command.id == r {
      CreatedRoster(n, i, turns[k - 1].env);
    } else {
      assert AllOurs(n) by { forall q | q in n.rooms ensures Owns(n, q) { assert LedgerOk(n, q); } }
      RoomsComeAndGo(n, i, turns[k - 1].env, r);
      RoomStep(n, i, turns[k - 1].env, r);
      if p in n.rooms[r].members {
        ColorsAreWellFormed(states, turns, k - 1, r, p);
        assert MemberMoved(n, i, r, p, n.rooms[r].members[p], states[k].rooms[r].members[p]);
      }
    }
  }
}
