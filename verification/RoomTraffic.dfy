/** What leaves a daemon, and to whom: exactly which envelopes every step hands out. */
module RoomTraffic {
  import opened RoomModel
  import opened RoomRoster
  import opened RoomAdmission
  import opened RoomReplication
  import opened RoomSystem

  /** Room ids are where they belong, the rooms we own are ours, and nobody says that others are. */
  ghost predicate InOrder(n: Node) {
    && (forall r | r in n.rooms :: n.rooms[r].id == r && n.rooms[r].owner == n.me)
    && forall r | r in n.cache :: r !in n.rooms && n.cache[r].id == r && n.cache[r].owner != n.me
  }

  /** The code points of white space. */
  const WHITE: set<int> := {
    9, 10, 11, 12, 13, 28, 29, 30, 31, 32, 133, 160, 5760, 8192, 8193, 8194, 8195, 8196, 8197, 8198, 8199, 8200, 8201,
    8202, 8232, 8233, 8239, 8287, 12288}

  /** There is something besides white space. */
  predicate Says(text: string) { exists k | 0 <= k < |text| :: text[k] as int !in WHITE }

  lemma {:induction false} WhiteIsSpace(c: char)
    ensures IsSpace(c) <==> c as int in WHITE
  {
  }

  lemma {:induction false} SaysOrIsBlank(text: string)
    ensures Says(text) <==> !IsBlank(text)
  {
    forall c: char ensures IsSpace(c) <==> c as int in WHITE { WhiteIsSpace(c); }
  }

  predicate Listed(n: Node, r: RoomId, p: Pid) { Knows(n, r) && p in Record(n, r).members }

  predicate OwnerIs(n: Node, r: RoomId, p: Pid) { Knows(n, r) && Record(n, r).owner == p }

  // ---------------------------------------------------------------------------------------------
  // Who gets what
  // ---------------------------------------------------------------------------------------------

  /** A text goes to every other member, reachable or not. */
  predicate SendsText(n: Node, i: Input, p: Packet)
    requires p.body.RoomText?
  {
    && i == Local(SendText(p.roomId, p.body.text)) && Says(p.body.text)
    && Listed(n, p.roomId, p.dst) && p.dst != n.me && p.from == n.me && !p.body.friendRequest && !p.body.hasFile
  }

  /** A file of ours goes to the owner; the owner passes it, its own or a member's, to every member. */
  predicate SendsFile(n: Node, i: Input, p: Packet)
    requires p.body.RoomFile?
  {
    var r := p.roomId;
    && !p.body.direct
    && if OwnerIs(n, r, n.me) then
         && Listed(n, r, p.dst)
         && ((i == Local(PostFile(r, p.body.att)) && p.from == n.me)
             || (By(i, r, p.from) && i.packet.body == RoomFile(p.body.att, false) && Listed(n, r, p.from)))
       else OwnerIs(n, r, p.dst) && i == Local(PostFile(r, p.body.att)) && p.from == n.me
  }

  /** What a member asks of its owner. */
  predicate Asks(n: Node, i: Input, env: Env, p: Packet) {
    var r := p.roomId;
    && OwnerIs(n, r, p.dst) && p.from == n.me
    && match p.body
       case RoomStateReq => i == Local(Sync) && p.dst != ""
       case RoomJoin(name) => i == Local(Join(r, name)) && r in n.cache
       case RoomLeave => i == Local(Leave(r)) && Listed(n, r, n.me) && p.dst in env.trusted
       case RoomAdd(q) => i == Local(Add(r, q)) && Listed(n, r, n.me) && Record(n, r).members[n.me].canInvite
       case RoomColorSet(token, hex) =>
         && Listed(n, r, n.me) && WellFormed(Color(token, hex)) && i.Local? && i.command.SetColor?
         && i.command.r == r && i.command.hex == hex
         && token == First32(if i.command.token == "" then "theme" else i.command.token)
       case _ => false
  }

  /** What an owner tells. */
  predicate Tells(n: Node, i: Input, env: Env, p: Packet) {
    var r := p.roomId;
    && p.from == n.me
    && match p.body
       case RoomInvite(name) => MayInvite(n, i, env, r, p.dst) && name == Record(n, r).name
       case RoomRemove => Removes(n, i, r, p.dst) || (i == Local(Leave(r)) && Owns(n, r) && Listed(n, r, n.me)
                                                      && Listed(n, r, p.dst))
       case _ => false
  }

  /** A new state of an owned room, or the same one to a member that joined again. */
  predicate Republishes(n: Node, i: Input, env: Env, n': Node, r: RoomId) {
    && r in n.rooms && r in n'.rooms
    && (n'.rooms[r].seqNo != n.rooms[r].seqNo || (i.Arrival? && Joins(n, i, env, r, i.packet.src)))
  }

  /** The snapshot that leaves is the room as it is after the step, for every other member on it, or for
      the member that asked. */
  predicate SendsSnapshot(n: Node, i: Input, env: Env, n': Node, p: Packet)
    requires p.body.RoomState?
  {
    var r := p.roomId;
    && p.from == n.me && p.dst != "" && Owns(n', r) && p.body.room == Wire(n'.rooms[r]) && Listed(n', r, p.dst)
    && (Republishes(n, i, env, n', r) || (By(i, r, p.dst) && i.packet.body.RoomStateReq? && r in n.rooms))
  }

  /** The envelopes a step from `n` to `n'` hands out. */
  predicate Sends(n: Node, i: Input, env: Env, n': Node, p: Packet) {
    && p.src == n.me && p.dst != n.me
    && match p.body
       case RoomText(_, _, _) => SendsText(n, i, p)
       case RoomFile(_, _) => p.dst in env.up && SendsFile(n, i, p)
       case RoomState(_) => p.dst in env.up && SendsSnapshot(n, i, env, n', p)
       case _ => p.dst in env.up && (Asks(n, i, env, p) || Tells(n, i, env, p))
  }

  /** The step hands out exactly what it should. */
  ghost predicate SentRightly(n: Node, i: Input, env: Env, n': Node, p: Packet) {
    p in n'.sent <==> p in n.sent || Sends(n, i, env, n', p)
  }

  lemma {:induction false} InSnapshots(n: Node, room: Room, up: set<Pid>, p: Packet)
    ensures p in Snapshots(n, room, up) <==>
            && p.dst in room.members && p.dst != room.owner && p.dst != "" && Reaches(n, p.dst, up)
            && p == Envelope(n, p.dst, room.id, RoomState(Wire(room)))
  {
  }

  lemma {:induction false} CreateSends(n: Node, c: Command, env: Env, p: Packet)
    requires c.Create? || c.Forget? || c.AcceptFriend? || c.DiscardHeld?
    requires c.Create? ==> c.id !in n.rooms
    ensures SentRightly(n, Local(c), env, Obey(n, c, env), p)
  {
  }

  lemma {:induction false} AskSends(n: Node, c: Command, env: Env, p: Packet)
    requires InOrder(n) && (c.Join? || c.Sync?)
    ensures SentRightly(n, Local(c), env, Obey(n, c, env), p)
  {
  }

  lemma {:induction false} PostSends(n: Node, c: Command, env: Env, p: Packet)
    requires InOrder(n) && c.PostFile?
    ensures SentRightly(n, Local(c), env, Obey(n, c, env), p)
  {
    if Knows(n, c.r) { assert Record(n, c.r).id == c.r; }
  }

  lemma {:induction false} TextSends(n: Node, c: Command, env: Env, p: Packet)
    requires InOrder(n) && c.SendText?
    ensures SentRightly(n, Local(c), env, Obey(n, c, env), p)
  {
    SaysOrIsBlank(c.text);
    hide IsBlank, Says;
    if Knows(n, c.r) { assert Record(n, c.r).id == c.r; }
  }

  lemma {:induction false} TicketSends(n: Node, i: Input, r: RoomId, peer: Pid, env: Env, p: Packet)
    requires InOrder(n) && Owns(n, r)
    requires forall q, s :: MayInvite(n, i, env, s, q) <==> s == r && q == peer
    requires if i.Local? then (i.command.Invite? || i.command.Add?) && i.command.r == r else i.packet.body.RoomAdd?
    ensures SentRightly(n, i, env, OwnerInvite(n, r, peer, env), p)
  {
    hide MayInvite;
  }

  lemma {:induction false} InviteSends(n: Node, c: Command, env: Env, p: Packet)
    requires InOrder(n) && (c.Invite? || c.Add?)
    ensures SentRightly(n, Local(c), env, Obey(n, c, env), p)
  {
    hide OwnerInvite, SentRightly;
    if Owns(n, c.r) && (c.Invite? || c.peer in env.trusted) {
      TicketSends(n, Local(c), c.r, c.peer, env, p);
    } else {
      AddSends(n, c, env, p);
    }
  }

  lemma {:induction false} AddSends(n: Node, c: Command, env: Env, p: Packet)
    requires InOrder(n) && (c.Invite? || c.Add?) && !(Owns(n, c.r) && (c.Invite? || c.peer in env.trusted))
    ensures SentRightly(n, Local(c), env, Obey(n, c, env), p)
  {
    hide OwnerInvite;
  }

  lemma {:induction false} LeaveSends(n: Node, c: Command, env: Env, p: Packet)
    requires InOrder(n) && c.Leave?
    ensures SentRightly(n, Local(c), env, Obey(n, c, env), p)
  {
    hide MemberLeave, Asks, Tells, SendsText, SendsFile;
    if Owns(n, c.r) { DisbandSends(n, c.r, env, p); } else if Knows(n, c.r) { PartSends(n, c.r, env, p); }
    LeaveMovesNoRoom(n, c.r, env);
    LeaveIsTold(n, c.r, env, Obey(n, c, env), p);
  }

  lemma {:induction false} LeaveIsTold(n: Node, r: RoomId, env: Env, n': Node, p: Packet)
    requires InOrder(n) && (forall q | q in n.rooms && q in n'.rooms :: n'.rooms[q] == n.rooms[q])
    ensures Sends(n, Local(Leave(r)), env, n', p) <==>
            && Listed(n, r, n.me) && Reaches(n, p.dst, env.up)
            && if Owns(n, r) then Listed(n, r, p.dst) && p == Envelope(n, p.dst, r, RoomRemove)
               else OwnerIs(n, r, p.dst) && p.dst in env.trusted && p == Envelope(n, p.dst, r, RoomLeave)
  {
  }

  lemma {:induction false} DisbandSends(n: Node, r: RoomId, env: Env, p: Packet)
    requires Owns(n, r)
    ensures p in MemberLeave(n, r, env).sent <==>
            || p in n.sent
            || (Listed(n, r, n.me) && Listed(n, r, p.dst) && Reaches(n, p.dst, env.up)
                && p == Envelope(n, p.dst, r, RoomRemove))
  {
    if Listed(n, r, n.me) {
      var left := n.rooms[r].members - {n.me};
      assert forall m :: m in left.Keys <==> m in n.rooms[r].members && m != n.me;
      assert MemberLeave(n, r, env).sent == n.sent + Farewells(n, r, left.Keys, env.up);
    }
  }

  lemma {:induction false} PartSends(n: Node, r: RoomId, env: Env, p: Packet)
    requires Knows(n, r) && Record(n, r).owner != n.me
    ensures p in MemberLeave(n, r, env).sent <==>
            || p in n.sent
            || (Listed(n, r, n.me) && OwnerIs(n, r, p.dst) && Reaches(n, p.dst, env.up) && p.dst in env.trusted
                && p == Envelope(n, p.dst, r, RoomLeave))
  {
    hide Bumped;
    assert Farewells(n, r, {}, env.up) == {};
  }

  lemma {:induction false} LeaveMovesNoRoom(n: Node, r: RoomId, env: Env)
    requires InOrder(n)
    ensures Knows(n, r) ==> forall q | q in n.rooms && q in MemberLeave(n, r, env).rooms ::
              MemberLeave(n, r, env).rooms[q] == n.rooms[q]
  {
  }

  /** A change that is published and nothing else. */
  lemma {:induction false} CommitSends(n: Node, i: Input, r: RoomId, room: Room, env: Env, p: Packet)
    requires InOrder(n) && Owns(n, r)
    requires room.id == r && room.owner == n.me && room.seqNo == n.rooms[r].seqNo
    requires i.Arrival? ==> !i.packet.body.RoomJoin? && !i.packet.body.RoomStateReq?
    requires p.body.RoomState? || !Sends(n, i, env, n, p)
    ensures SentRightly(n, i, env, CommitAndBroadcast(n, r, room, env.up), p)
  {
    var n' := CommitAndBroadcast(n, r, room, env.up);
    InSnapshots(Commit(n, r, room), Bumped(room), env.up, p);
    hide Snapshots;
    assert n'.rooms == n.rooms[r := Bumped(room)];
  }

  lemma {:induction false} ColorSends(n: Node, i: Input, r: RoomId, q: Pid, color: Color, env: Env, p: Packet)
    requires InOrder(n) && Owns(n, r) && q in n.rooms[r].members
    requires if i.Local? then i.command.SetColor? && i.command.r == r
             else i.packet.body.RoomColorSet?
    ensures SentRightly(n, i, env, ApplyMemberColor(n, r, q, color, env.up), p)
  {
    hide SentRightly, CommitAndBroadcast, SendsSnapshot;
    var room := n.rooms[r];
    CommitSends(n, i, r, room.(members := room.members[q := room.members[q].(color := color)]), env, p);
  }

  lemma {:induction false} FlagSends(n: Node, c: Command, env: Env, p: Packet)
    requires InOrder(n) && (c.SetCanInvite? || c.ToggleColors?)
    ensures SentRightly(n, Local(c), env, Obey(n, c, env), p)
  {
    hide CommitAndBroadcast;
    if c.r in n.rooms {
      var room := n.rooms[c.r];
      match c
      case SetCanInvite(r, q, allowed) =>
        if q in room.members && q != n.me {
          var m := room.members[q].(canInvite := allowed);
          CommitSends(n, Local(c), r, room.(members := room.members[q := m]), env, p);
        }
      case ToggleColors(r, enabled) => CommitSends(n, Local(c), r, room.(colorsEnabled := enabled), env, p);
    }
  }

  lemma {:induction false} ProposalSends(n: Node, c: Command, env: Env, p: Packet)
    requires InOrder(n) && c.SetColor? && !Owns(n, c.r)
    ensures SentRightly(n, Local(c), env, Obey(n, c, env), p)
  {
    hide ApplyMemberColor, Commit;
  }

  lemma {:induction false} SetColorSends(n: Node, c: Command, env: Env, p: Packet)
    requires InOrder(n) && c.SetColor?
    ensures SentRightly(n, Local(c), env, Obey(n, c, env), p)
  {
    var color := Color(ShortToken(if c.token == "" then "theme" else c.token), c.hex);
    if !Owns(n, c.r) {
      ProposalSends(n, c, env, p);
    } else if n.me in n.rooms[c.r].members && ValidColor(color) {
      hide SentRightly, ApplyMemberColor;
      ColorSends(n, Local(c), c.r, n.me, color, env, p);
    } else {
      assert Obey(n, c, env) == n;
    }
  }

  lemma {:induction false} RemoveEffect(n: Node, r: RoomId, q: Pid, env: Env, p: Packet)
    requires InOrder(n) && Owns(n, r) && q != n.me && q in n.rooms[r].members
    ensures var n' := OwnerRemove(n, r, q, env.up); var room' := n'.rooms[r];
            && n'.rooms == n.rooms[r := room'] && room'.seqNo == n.rooms[r].seqNo + 1 && room'.owner == n.me
            && (p in n'.sent <==> || p in n.sent || (Reaches(n, q, env.up) && p == Envelope(n, q, r, RoomRemove))
                                  || (p.dst in room'.members && p.dst != "" && Reaches(n, p.dst, env.up)
                                      && p == Envelope(n, p.dst, r, RoomState(Wire(room')))))
  {
    var room := n.rooms[r];
    var room' := room.(members := room.members - {q}, invited := room.invited - {q});
    var n1 := Post(Note(Commit(n, r, room'), Removed(r, q)), Envelope(n, q, r, RoomRemove), env.up);
    InSnapshots(n1, Bumped(room'), env.up, p);
    hide Snapshots;
  }

  lemma {:induction false} RemoveIsTold(n: Node, i: Input, r: RoomId, q: Pid, env: Env, n': Node, p: Packet)
    requires InOrder(n) && Owns(n, r) && q != n.me && q in n.rooms[r].members
    requires if i.Local? then i == Local(Remove(r, q)) else By(i, r, q) && i.packet.body.RoomLeave?
    requires r in n'.rooms && n'.me == n.me && n'.rooms == n.rooms[r := n'.rooms[r]]
    requires n'.rooms[r].seqNo == n.rooms[r].seqNo + 1 && n'.rooms[r].owner == n.me
    ensures Sends(n, i, env, n', p) <==>
              || (Reaches(n, q, env.up) && p == Envelope(n, q, r, RoomRemove))
              || (p.dst in n'.rooms[r].members && p.dst != "" && Reaches(n, p.dst, env.up)
                  && p == Envelope(n, p.dst, r, RoomState(Wire(n'.rooms[r]))))
  {
    if p.body.RoomState? {
      hide Asks, Tells, SendsText, SendsFile;
    } else if p.body.RoomRemove? {
      hide SendsSnapshot, SendsText, SendsFile;
    } else {
      hide SendsSnapshot;
    }
  }

  lemma {:induction false} RemoveSends(n: Node, i: Input, r: RoomId, q: Pid, env: Env, p: Packet)
    requires InOrder(n) && Owns(n, r)
    requires if i.Local? then i == Local(Remove(r, q)) else By(i, r, q) && i.packet.body.RoomLeave?
    ensures SentRightly(n, i, env, OwnerRemove(n, r, q, env.up), p)
  {
    if q != n.me && q in n.rooms[r].members {
      hide Sends, OwnerRemove, InOrder;
      RemoveEffect(n, r, q, env, p);
      RemoveMe(n, r, q, env.up);
      RemoveIsTold(n, i, r, q, env, OwnerRemove(n, r, q, env.up), p);
    } else {
      assert OwnerRemove(n, r, q, env.up) == n;
    }
  }

  lemma {:induction false} RemoveMe(n: Node, r: RoomId, q: Pid, up: set<Pid>)
    requires r in n.rooms
    ensures OwnerRemove(n, r, q, up).me == n.me
  {
  }

  lemma {:induction false} JoinEffect(n: Node, p: Packet, env: Env, q: Packet)
    requires InOrder(n) && p.body.RoomJoin? && JoinAllowed(n, p, env)
    ensures var n' := HandleRoomJoin(n, p, env);
            && p.roomId in n'.rooms && n'.me == n.me && n'.rooms == n.rooms[p.roomId := n'.rooms[p.roomId]]
            && n'.rooms[p.roomId].owner == n.me
            && (q in n'.sent <==> q in n.sent || q in Snapshots(n, n'.rooms[p.roomId], env.up))
            && n'.rooms[p.roomId].id == p.roomId
  {
    hide Snapshots;
    JoinRooms(n, p, env);
    SnapshotsOfNode(n, env.up);
  }

  /** Which snapshots leave depends on the room and on who we are. */
  lemma {:induction false} SnapshotsOfNode(n: Node, up: set<Pid>)
    ensures forall n': Node, room | n'.me == n.me :: Snapshots(n', room, up) == Snapshots(n, room, up)
  {
  }

  /** An arrival that is no file, request to invite or leave is answered by snapshots at most. */
  lemma {:induction false} OnlySnapshots(n: Node, packet: Packet, env: Env, n': Node, q: Packet)
    requires !packet.body.RoomFile? && !packet.body.RoomAdd? && !packet.body.RoomLeave?
    ensures !q.body.RoomState? ==> !Sends(n, Arrival(packet), env, n', q)
  {
  }

  lemma {:induction false} JoinSends(n: Node, packet: Packet, env: Env, q: Packet)
    requires InOrder(n) && packet.body.RoomJoin?
    ensures SentRightly(n, Arrival(packet), env, Deliver(n, packet, env), q)
  {
    hide HandleRoomJoin, Snapshots;
    var p := Authored(packet);
    var r, n' := p.roomId, Deliver(n, packet, env);
    JoinRooms(n, p, env);
    if By(Arrival(packet), r, p.from) && JoinAllowed(n, p, env) {
      JoinEffect(n, p, env, q);
      InSnapshots(n, n'.rooms[r], env.up, q);
    }
    OnlySnapshots(n, packet, env, n', q);
    hide Asks, Tells, SendsText, SendsFile;
    if !q.body.RoomState? { hide Sends; }
  }

  lemma {:induction false} ColorSetSends(n: Node, packet: Packet, env: Env, q: Packet)
    requires InOrder(n) && packet.body.RoomColorSet?
    ensures SentRightly(n, Arrival(packet), env, Deliver(n, packet, env), q)
  {
    var p := Authored(packet);
    var color := Color(ShortToken(p.body.token), p.body.hex);
    hide ApplyMemberColor;
    if p.from == p.src && p.roomId != "" && Owns(n, p.roomId) && p.from in n.rooms[p.roomId].members
       && ValidColor(color) {
      hide SentRightly;
      ColorSends(n, Arrival(packet), p.roomId, p.from, color, env, q);
    } else {
      assert Deliver(n, packet, env) == n;
    }
  }

  lemma {:induction false} AddArrivalSends(n: Node, packet: Packet, env: Env, q: Packet)
    requires InOrder(n) && packet.body.RoomAdd?
    ensures SentRightly(n, Arrival(packet), env, Deliver(n, packet, env), q)
  {
    var p := Authored(packet);
    hide OwnerInvite;
    if MayInvite(n, Arrival(packet), env, p.roomId, p.body.peer) {
      hide SentRightly;
      TicketSends(n, Arrival(packet), p.roomId, p.body.peer, env, q);
    } else {
      assert Deliver(n, packet, env) == n;
    }
  }

  lemma {:induction false} LeaveArrivalSends(n: Node, packet: Packet, env: Env, q: Packet)
    requires InOrder(n) && packet.body.RoomLeave?
    ensures SentRightly(n, Arrival(packet), env, Deliver(n, packet, env), q)
  {
    var p := Authored(packet);
    hide OwnerRemove;
    if p.from == p.src && p.roomId != "" && Owns(n, p.roomId) {
      hide SentRightly;
      RemoveSends(n, Arrival(packet), p.roomId, p.from, env, q);
    } else {
      assert Deliver(n, packet, env) == n;
    }
  }

  lemma {:induction false} StateReqEffect(n: Node, packet: Packet, env: Env, q: Packet)
    requires InOrder(n) && packet.body.RoomStateReq?
    ensures var n', r, dst := Deliver(n, packet, env), packet.roomId, packet.src;
            && n'.rooms == n.rooms && n'.me == n.me
            && (q in n'.sent <==>
                || q in n.sent
                || (By(Arrival(packet), r, dst) && Owns(n, r) && Listed(n, r, dst) && dst != ""
                    && Reaches(n, dst, env.up) && q == Envelope(n, dst, r, RoomState(Wire(n.rooms[r])))))
  {
  }

  lemma {:induction false} StateReqSends(n: Node, packet: Packet, env: Env, q: Packet)
    requires InOrder(n) && packet.body.RoomStateReq?
    ensures SentRightly(n, Arrival(packet), env, Deliver(n, packet, env), q)
  {
    StateReqEffect(n, packet, env, q);
    OnlySnapshots(n, packet, env, Deliver(n, packet, env), q);
    hide Deliver, Asks, Tells, SendsText, SendsFile;
  }

  /** The owner passes a member's own file on. */
  predicate Relays(n: Node, packet: Packet) {
    && packet.body.RoomFile? && !packet.body.direct && Owns(n, packet.roomId)
    && packet.src in n.rooms[packet.roomId].members && By(Arrival(packet), packet.roomId, packet.src)
  }

  /** The copies of a member's file that its owner passes on. */
  lemma {:induction false} RelaySends(n: Node, packet: Packet, env: Env, q: Packet)
    requires InOrder(n) && Relays(n, packet)
    ensures var n' := FanOutRoomFile(n, packet.roomId, packet.src, packet.body.att, env.up);
            SentRightly(n, Arrival(packet), env, n', q)
  {
    assert n.rooms[packet.roomId].id == packet.roomId;
    if q.body.RoomState? { hide Asks, Tells, SendsText, SendsFile; } else { hide SendsSnapshot; }
  }

  lemma {:induction false} NotRelayed(n: Node, packet: Packet, env: Env, n': Node, q: Packet)
    requires InOrder(n) && packet.body.RoomFile? && packet.src != n.me && !Relays(n, packet) && n'.rooms == n.rooms
    ensures !Sends(n, Arrival(packet), env, n', q)
  {
    if q.body.RoomState? { hide Asks, Tells, SendsText, SendsFile; } else { hide SendsSnapshot; }
  }

  lemma {:induction false} FileSends(n: Node, packet: Packet, env: Env, q: Packet)
    requires InOrder(n) && packet.body.RoomFile? && packet.src != n.me
    ensures SentRightly(n, Arrival(packet), env, Deliver(n, packet, env), q)
  {
    hide FanOutRoomFile;
    if Relays(n, packet) {
      hide SentRightly;
      RelaySends(n, packet, env, q);
    } else {
      assert Deliver(n, packet, env).sent == n.sent && Deliver(n, packet, env).rooms == n.rooms;
      hide Deliver, Sends;
      NotRelayed(n, packet, env, Deliver(n, packet, env), q);
    }
  }

  lemma {:induction false} QuietArrivalSends(n: Node, packet: Packet, env: Env, q: Packet)
    requires packet.body.RoomState? || packet.body.RoomInvite? || packet.body.RoomRemove? || packet.body.RoomText?
    ensures SentRightly(n, Arrival(packet), env, Deliver(n, packet, env), q)
  {
  }

  /** Every step of a node in order hands out exactly what it should, to exactly whom it should. */
  lemma {:induction false} StepSends(n: Node, i: Input, env: Env, p: Packet)
    requires InOrder(n)
    requires if i.Arrival? then i.packet.src != n.me else i.command.Create? ==> i.command.id !in n.rooms
    ensures SentRightly(n, i, env, Handle(n, i, env), p)
  {
    hide SentRightly, Obey, Deliver, InOrder;
    match i
    case Local(c) =>
      match c {
        case Join(_, _) => AskSends(n, c, env, p);
        case Sync => AskSends(n, c, env, p);
        case PostFile(_, _) => PostSends(n, c, env, p);
        case SendText(_, _) => TextSends(n, c, env, p);
        case Invite(_, _) => InviteSends(n, c, env, p);
        case Add(_, _) => InviteSends(n, c, env, p);
        case Leave(_) => LeaveSends(n, c, env, p);
        case Remove(_, _) => RemoveCommandSends(n, c, env, p);
        case SetCanInvite(_, _, _) => FlagSends(n, c, env, p);
        case ToggleColors(_, _) => FlagSends(n, c, env, p);
        case SetColor(_, _, _) => SetColorSends(n, c, env, p);
        case _ => CreateSends(n, c, env, p);
      }
    case Arrival(packet) =>
      match packet.body {
        case RoomJoin(_) => JoinSends(n, packet, env, p);
        case RoomColorSet(_, _) => ColorSetSends(n, packet, env, p);
        case RoomAdd(_) => AddArrivalSends(n, packet, env, p);
        case RoomLeave => LeaveArrivalSends(n, packet, env, p);
        case RoomStateReq => StateReqSends(n, packet, env, p);
        case RoomFile(_, _) => FileSends(n, packet, env, p);
        case _ => QuietArrivalSends(n, packet, env, p);
      }
  }

  lemma {:induction false} RemoveCommandSends(n: Node, c: Command, env: Env, p: Packet)
    requires InOrder(n) && c.Remove?
    ensures SentRightly(n, Local(c), env, Obey(n, c, env), p)
  {
    hide OwnerRemove;
    if Owns(n, c.r) {
      hide SentRightly;
      RemoveSends(n, Local(c), c.r, c.peer, env, p);
    }
  }

  lemma {:induction false} NodeInOrder(s: System, id: Pid)
    requires SystemInv(s) && id in s
    ensures InOrder(s[id]) && s[id].me == id
  {
    var n := s[id];
    assert NodeOk(s, id);
    forall r | r in n.rooms ensures n.rooms[r].id == r && n.rooms[r].owner == n.me { OwnedRoom(n, r); }
    forall r | r in n.cache ensures r !in n.rooms && n.cache[r].id == r && n.cache[r].owner != n.me {
      var c := n.cache[r];
      assert Backed(s, id, r, c);
      if !IsStub(r, c) { assert NodeOk(s, c.owner) && HistoryOk(c.owner, r, s[c.owner].past[r]); }
    }
  }

  /** In every run of the network each step hands out exactly what it should: a snapshot of the room as
      it is now, to each reachable member of it, whenever it changes; texts and files to the members of
      the sender's record and nobody else; requests to the recorded owner; notices to those removed. */
  lemma {:induction false} EveryStepSendsRightly(states: seq<System>, moves: seq<Move>, k: nat, p: Packet)
    requires IsRun(states, moves) && k < |moves|
    ensures moves[k].id in states[k] && moves[k].id in states[k + 1]
    ensures SentRightly(states[k][moves[k].id], moves[k].input, moves[k].env, states[k + 1][moves[k].id], p)
  {
    hide Handle, SentRightly, InOrder;
    assert StepAt(states, moves, k);
    var m, s := moves[k], states[k];
    RunKeepsInvariant(states, moves, k);
    NodeInOrder(s, m.id);
    ArrivalsAreForeign(s, m);
    StepSends(s[m.id], m.input, m.env, p);
  }

  lemma {:induction false} ArrivalsAreForeign(s: System, m: Move)
    requires SystemInv(s) && Possible(s, m)
    ensures if m.input.Arrival? then m.input.packet.src != m.id
            else m.input.command.Create? ==> m.input.command.id !in s[m.id].rooms
  {
    assert NodeOk(s, m.id);
    if m.input.Arrival? { assert NodeOk(s, m.input.packet.src) && PacketOk(s[m.input.packet.src], m.input.packet); }
  }
}
