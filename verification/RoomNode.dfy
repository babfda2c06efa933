/** The daemon's room handlers, updating their state in place. Every handler leaves the daemon in
    exactly the state RoomModel gives for it, so what is proved about runs of the model holds of the
    daemon. */
module RoomNode {
  import opened RoomModel

  class RoomDaemon {
    const me: Pid
    var rooms: map<RoomId, Room>
    var cache: map<RoomId, Room>
    var shown: seq<Bubble>
    var held: seq<Bubble>
    var sent: set<Packet>
    ghost var past: map<RoomId, seq<Room>>
    ghost var trail: seq<Event>

    ghost function State(): Node
      reads this
    {
      Node(me, rooms, cache, shown, held, sent, past, trail)
    }

    constructor (id: Pid)
      ensures State() == Boot(id)
    {
      me := id;
      rooms, cache, shown, held, sent := map[], map[], [], [], {};
      past, trail := map[], [];
    }

    predicate Has(r: RoomId)
      reads this
      ensures Has(r) == Knows(State(), r)
    {
      r in rooms || r in cache
    }

    function Get(r: RoomId): (room: Room)
      reads this
      requires Has(r)
      ensures room == Record(State(), r)
    {
      if r in rooms then rooms[r] else cache[r]
    }

    // -------------------------------------------------------------------------------------------
    // Sockets and records
    // -------------------------------------------------------------------------------------------

    /** Hand one envelope to a peer's socket; true when the socket took it. */
    method Write(p: Packet, up: set<Pid>) returns (ok: bool)
      modifies this
      ensures State() == Post(old(State()), p, up) && ok == Reaches(old(State()), p.dst, up)
    {
      ok := p.dst in up && p.dst != me;
      if ok { sent := sent + {p}; }
    }

    method Store(r: RoomId, room: Room)
      requires Has(r)
      modifies this
      ensures State() == PutRecord(old(State()), r, room)
    {
      if r in rooms { rooms := rooms[r := room]; } else { cache := cache[r := room]; }
    }

    /** Store a changed record under the next sequence number. */
    method Bump(r: RoomId, room: Room)
      requires Has(r)
      modifies this
      ensures State() == Commit(old(State()), r, room)
    {
      ghost var owned := r in rooms;
      Store(r, room.(seqNo := room.seqNo + 1));
      if owned { past := LogState(past, r, Wire(Bumped(room))); }
    }

    /** Send a snapshot of `room`, without the ledger, to every member but the owner. */
    method SendRoomState(room: Room, up: set<Pid>)
      modifies this
      ensures State() == Broadcast(old(State()), room, up)
    {
      var targets := set m | m in room.members && m != room.owner;
      ghost var before := State();
      ghost var done: set<Pid> := {};
      while targets != {}
        invariant targets + done == set m | m in room.members && m != room.owner
        invariant State() == before.(sent := before.sent +
          set m | m in done && m != "" && Reaches(before, m, up) :: Envelope(before, m, room.id, RoomState(Wire(room))))
        decreases targets
      {
        var m :| m in targets;
        if m != "" {
          var _ := Write(Packet(me, m, me, room.id, RoomState(room.(invited := map[]))), up);
        }
        targets, done := targets - {m}, done + {m};
      }
    }

    method SendTo(targets: set<Pid>, r: RoomId, author: Pid, body: Body, up: set<Pid>)
      modifies this
      ensures State() == old(State()).(sent := old(sent) +
                set m | m in targets && Reaches(old(State()), m, up) :: Packet(me, m, author, r, body))
    {
      var todo := targets;
      ghost var before := State();
      while todo != {}
        invariant todo <= targets
        invariant State() == before.(sent := before.sent +
          set m | m in targets - todo && Reaches(before, m, up) :: Packet(me, m, author, r, body))
        decreases todo
      {
        var m :| m in todo;
        var _ := Write(Packet(me, m, author, r, body), up);
        todo := todo - {m};
      }
    }

    // -------------------------------------------------------------------------------------------
    // Owner
    // -------------------------------------------------------------------------------------------

    method CreateRoom(id: RoomId, name: string, ownerName: string)
      modifies this
      ensures State() == RoomModel.CreateRoom(old(State()), id, name, ownerName)
    {
      var room := NewRoom(id, name, me, "");
      room := room.(members := room.members[me := room.members[me].(name := ownerName)]);
      assert room.members == map[me := Member(ownerName, true, THEME_COLOR)];
      rooms := rooms[id := room];
      past := LogState(past, id, room);
    }

    method OwnerInvite(r: RoomId, peer: Pid, env: Env) returns (ok: bool)
      requires Has(r)
      modifies this
      ensures State() == RoomModel.OwnerInvite(old(State()), r, peer, env) && ok == Reaches(old(State()), peer, env.up)
    {
      var room := Get(r);
      ok := Write(Packet(me, peer, me, r, RoomInvite(room.name)), env.up);
      if ok {
        Store(r, room.(invited := room.invited[peer := env.now]));
        trail := trail + [Invited(r, peer)];
      }
    }

    method OwnerAdmit(r: RoomId, peer: Pid, name: string, up: set<Pid>)
      requires r in rooms
      modifies this
      ensures State() == RoomModel.OwnerAdmit(old(State()), r, peer, name, up)
    {
      var room := rooms[r];
      if peer !in room.members {
        Bump(r, room.(members := room.members[peer := Member(name, false, THEME_COLOR)]));
      }
      SendRoomState(rooms[r], up);
    }

    method OwnerRemove(r: RoomId, peer: Pid, up: set<Pid>) returns (ok: bool)
      requires r in rooms
      modifies this
      ensures State() == RoomModel.OwnerRemove(old(State()), r, peer, up)
      ensures ok == (peer != old(rooms)[r].owner && peer in old(rooms)[r].members)
    {
      var room := rooms[r];
      if peer == room.owner || peer !in room.members { return false; }
      room := room.(members := room.members - {peer});
      room := room.(invited := room.invited - {peer});
      Bump(r, room);
      trail := trail + [Removed(r, peer)];
      var _ := Write(Packet(me, peer, me, r, RoomRemove), up);
      SendRoomState(rooms[r], up);
      return true;
    }

    method OwnerSetCanInvite(r: RoomId, peer: Pid, allowed: bool, up: set<Pid>) returns (ok: bool)
      requires r in rooms
      modifies this
      ensures State() == RoomModel.OwnerSetCanInvite(old(State()), r, peer, allowed, up)
      ensures ok == (peer != old(rooms)[r].owner && peer in old(rooms)[r].members)
    {
      var room := rooms[r];
      if peer == room.owner || peer !in room.members { return false; }
      Bump(r, room.(members := room.members[peer := room.members[peer].(canInvite := allowed)]));
      SendRoomState(rooms[r], up);
      return true;
    }

    method OwnerToggleColors(r: RoomId, enabled: bool, up: set<Pid>)
      requires r in rooms
      modifies this
      ensures State() == RoomModel.OwnerToggleColors(old(State()), r, enabled, up)
    {
      Bump(r, rooms[r].(colorsEnabled := enabled));
      SendRoomState(rooms[r], up);
    }

    method ApplyMemberColor(r: RoomId, peer: Pid, color: Color, up: set<Pid>)
      requires Has(r) && peer in Get(r).members
      modifies this
      ensures State() == RoomModel.ApplyMemberColor(old(State()), r, peer, color, up)
    {
      var room := Get(r);
      Bump(r, room.(members := room.members[peer := room.members[peer].(color := color)]));
      SendRoomState(Get(r), up);
    }

    // -------------------------------------------------------------------------------------------
    // Member
    // -------------------------------------------------------------------------------------------

    method MemberSetColor(r: RoomId, token: string, hex: string, up: set<Pid>) returns (ok: bool)
      requires Has(r)
      modifies this
      ensures State() == RoomModel.MemberSetColor(old(State()), r, token, hex, up)
    {
      var room := Get(r);
      if me !in room.members { return false; }
      var color := Color(ShortToken(if token == "" then "theme" else token), hex);
      if !ValidColor(color) { return false; }
      if room.owner == me {
        ApplyMemberColor(r, me, color, up);
        return true;
      }
      ok := Write(Packet(me, room.owner, me, r, RoomColorSet(color.token, color.hex)), up);
    }

    method MemberLeave(r: RoomId, env: Env) returns (ok: bool)
      requires Has(r)
      modifies this
      ensures State() == RoomModel.MemberLeave(old(State()), r, env)
    {
      var room := Get(r);
      if me !in room.members { return false; }
      var wasOwner := room.owner == me;
      if !wasOwner {
        if room.owner !in env.trusted {
          cache := cache - {r};
          return true;
        }
        var told := Write(Packet(me, room.owner, me, r, RoomLeave), env.up);
        if !told { return false; }
      }
      var left := room.(members := room.members - {me}, seqNo := room.seqNo + 1);
      Store(r, left);
      if wasOwner || left.members == map[] {
        rooms := rooms - {r};
        SendTo(left.members.Keys, r, me, RoomRemove, env.up);
      } else {
        cache := cache - {r};
      }
      return true;
    }

    method ForgetRoom(r: RoomId) returns (ok: bool)
      modifies this
      ensures State() == RoomModel.ForgetRoom(old(State()), r)
      ensures ok == (old(cache) != cache)
    {
      if r !in cache || r in rooms { return false; }
      if me in cache[r].members || cache[r].owner == me { return false; }
      cache := cache - {r};
      return true;
    }

    // -------------------------------------------------------------------------------------------
    // Files and texts
    // -------------------------------------------------------------------------------------------

    method FanOutRoomFile(r: RoomId, author: Pid, att: string, up: set<Pid>)
      requires Has(r)
      modifies this
      ensures State() == RoomModel.FanOutRoomFile(old(State()), r, author, att, up)
    {
      var room := Get(r);
      ghost var before := State();
      SendTo(room.members.Keys, room.id, author, RoomFile(att, false), up);
      assert sent == before.sent + FileCopies(before, room, author, att, up);
      shown := shown + [Bubble(r, author)];
    }

    method PostRoomFile(r: RoomId, att: string, up: set<Pid>) returns (ok: bool)
      modifies this
      ensures State() == RoomModel.PostRoomFile(old(State()), r, att, up)
    {
      if !Has(r) { return false; }
      var owner := Get(r).owner;
      if owner == me {
        FanOutRoomFile(r, me, att, up);
        return true;
      }
      ok := Write(Packet(me, owner, me, r, RoomFile(att, false)), up);
      if ok { shown := shown + [Bubble(r, me)]; }
    }

    method SendRoomText(r: RoomId, text: string) returns (ok: bool)
      modifies this
      ensures State() == RoomModel.SendRoomText(old(State()), r, text)
    {
      if !Has(r) || IsBlank(text) { return false; }
      var room := Get(r);
      ghost var before := State();
      // A text for a peer who is down is held and leaves later, so every member counts as reachable.
      SendTo(room.members.Keys, room.id, me, RoomText(text, false, false), room.members.Keys);
      assert sent == before.sent + TextCopies(before, room, text);
      shown := shown + [Bubble(r, me)];
      return true;
    }

    method PushMissingRoomStates(up: set<Pid>)
      modifies this
      ensures State() == old(State()).(sent := old(sent) + SyncRequests(old(State()), up))
    {
      ghost var before := State();
      var todo := cache.Keys;
      while todo != {}
        invariant todo <= before.cache.Keys
        invariant State() == before.(sent := before.sent +
          set r | r in before.cache.Keys - todo && r !in before.rooms && before.cache[r].owner != ""
                  && Reaches(before, before.cache[r].owner, up)
            :: Envelope(before, before.cache[r].owner, r, RoomStateReq))
        decreases todo
      {
        var r :| r in todo;
        if r !in rooms {
          var owner := cache[r].owner;
          if owner != "" && owner != me {
            var _ := Write(Packet(me, owner, me, r, RoomStateReq), up);
          }
        }
        todo := todo - {r};
      }
    }

    // -------------------------------------------------------------------------------------------
    // Received envelopes
    // -------------------------------------------------------------------------------------------

    method HandleRoomJoin(p: Packet, env: Env)
      requires p.body.RoomJoin?
      modifies this
      ensures State() == RoomModel.HandleRoomJoin(old(State()), p, env)
    {
      var r := p.roomId;
      if r !in rooms || rooms[r].owner != me || p.from !in env.trusted { return; }
      var room := rooms[r];
      if p.from !in room.members && p.from !in room.invited { return; }
      // The ticket is used up on every join, a member's re-sync included.
      rooms := rooms[r := room.(invited := room.invited - {p.from})];
      trail := trail + [Joined(r, p.from, p.from !in room.members)];
      OwnerAdmit(r, p.from, p.body.fromName, env.up);
    }

    method HandleRoomAdd(p: Packet, env: Env)
      requires p.body.RoomAdd?
      modifies this
      ensures State() == RoomModel.HandleRoomAdd(old(State()), p, env)
    {
      var r := p.roomId;
      if r !in rooms || rooms[r].owner != me { return; }
      if p.from !in rooms[r].members || !rooms[r].members[p.from].canInvite { return; }
      if p.body.peer == "" || p.body.peer !in env.trusted { return; }
      var _ := OwnerInvite(r, p.body.peer, env);
    }

    method HandleRoomColorSet(p: Packet, up: set<Pid>)
      requires p.body.RoomColorSet?
      modifies this
      ensures State() == RoomModel.HandleRoomColorSet(old(State()), p, up)
    {
      if !Has(p.roomId) || Get(p.roomId).owner != me { return; }
      if p.from !in Get(p.roomId).members { return; }
      var color := Color(ShortToken(p.body.token), p.body.hex);
      if !ValidColor(color) { return; }
      ApplyMemberColor(p.roomId, p.from, color, up);
    }

    method HandleRoomFile(p: Packet, up: set<Pid>)
      requires p.body.RoomFile?
      modifies this
      ensures State() == RoomModel.HandleRoomFile(old(State()), p, up)
    {
      if !Has(p.roomId) || p.src !in Get(p.roomId).members { return; }
      if p.roomId in rooms && rooms[p.roomId].owner == me {
        FanOutRoomFile(p.roomId, p.from, p.body.att, up);
        return;
      }
      HandleRoomFileMsg(p);
    }

    /** A room-file bubble needs both the author and the writer on our record's roster, and the author
        to be the writer unless the owner relays. */
    method HandleRoomFileMsg(p: Packet)
      requires p.body.RoomFile?
      modifies this
      ensures State() == RoomModel.HandleRoomFileMsg(old(State()), p)
    {
      if !Has(p.roomId) || p.src !in Get(p.roomId).members { return; }
      var rec := Get(p.roomId);
      if p.from != "" && p.from !in rec.members { return; }
      if p.from != "" && p.from != p.src && rec.owner != p.src { return; }
      shown := shown + [Bubble(p.roomId, p.from)];
    }

    method HandleRoomText(p: Packet, env: Env)
      requires p.body.RoomText?
      modifies this
      ensures State() == RoomModel.HandleRoomText(old(State()), p, env)
    {
      if !p.body.friendRequest && p.src !in env.trusted { return; }
      if IsBlank(p.body.text) && !p.body.hasFile { return; }
      if !Has(p.roomId) || p.src !in Get(p.roomId).members { return; }
      if p.body.friendRequest && p.src !in env.friends {
        if env.acceptRequests && !env.mutual && env.holdFits {
          held := held + [Bubble(p.roomId, p.src)];
        }
        return;
      }
      shown := shown + [Bubble(p.roomId, p.src)];
    }

    method HandleRoomMsg(packet: Packet, env: Env)
      modifies this
      ensures State() == Deliver(old(State()), packet, env)
    {
      var p := if packet.from == "" then packet.(from := packet.src) else packet;
      if p.body.RoomFile? && p.body.direct {
        HandleRoomFileMsg(p);
        return;
      }
      if p.roomId == "" { return; }
      if p.from != p.src && !(p.body.RoomFile? && Has(p.roomId) && Get(p.roomId).owner == p.src) { return; }
      match p.body
      case RoomState(room) =>
        if room.id != p.roomId { return; }
        if !Has(p.roomId) || Get(p.roomId).owner != p.src { return; }
        if p.roomId in rooms { return; }
        if cache[p.roomId].seqNo > room.seqNo { return; }
        cache := cache[p.roomId := room];
      case RoomInvite(name) =>
        if p.roomId !in cache && p.roomId !in rooms {
          cache := cache[p.roomId := Room(p.roomId, name, p.from, 0, true, map[], map[])];
        }
      case RoomStateReq =>
        if p.roomId in rooms && rooms[p.roomId].owner == me && p.from in rooms[p.roomId].members && p.from != "" {
          var _ := Write(Packet(me, p.from, me, p.roomId, RoomState(rooms[p.roomId].(invited := map[]))), env.up);
        }
      case RoomFile(_, _) => HandleRoomFile(p, env.up);
      case RoomLeave =>
        if p.roomId in rooms && rooms[p.roomId].owner == me {
          var _ := OwnerRemove(p.roomId, p.from, env.up);
        }
      case RoomJoin(_) => HandleRoomJoin(p, env);
      case RoomAdd(_) => HandleRoomAdd(p, env);
      case RoomColorSet(_, _) => HandleRoomColorSet(p, env.up);
      case RoomRemove =>
        if Has(p.roomId) && Get(p.roomId).owner == p.src { cache := cache - {p.roomId}; }
      case RoomText(_, _, _) => HandleRoomText(p, env);
    }

    // -------------------------------------------------------------------------------------------
    // Local commands
    // -------------------------------------------------------------------------------------------

    method AcceptFriend(peer: Pid)
      modifies this
      ensures State() == Obey(old(State()), RoomModel.AcceptFriend(peer), Env({}, {}, {}, 0, false, false, false))
    {
      var own, others := HeldFrom(held, peer), HeldFromOthers(held, peer);
      shown, held := shown + own, others;
    }

    method AddPeer(r: RoomId, peer: Pid, env: Env)
      requires Has(r)
      modifies this
      ensures State() == RoomModel.AddPeer(old(State()), r, peer, env)
    {
      var room := Get(r);
      if room.owner == me {
        if peer in env.trusted { var _ := OwnerInvite(r, peer, env); }
      } else if me in room.members && room.members[me].canInvite {
        var _ := Write(Packet(me, room.owner, me, r, RoomAdd(peer)), env.up);
      }
    }

    method HandleCommand(c: Command, env: Env)
      modifies this
      ensures State() == Obey(old(State()), c, env)
    {
      match c
      case Create(id, name, ownerName) => CreateRoom(id, name, ownerName);
      case Invite(r, peer) => if Has(r) && Get(r).owner == me { var _ := OwnerInvite(r, peer, env); }
      case Add(r, peer) => if Has(r) { AddPeer(r, peer, env); }
      case Join(r, myName) =>
        if r in cache { var _ := Write(Packet(me, cache[r].owner, me, r, RoomJoin(myName)), env.up); }
      case Leave(r) => if Has(r) { var _ := MemberLeave(r, env); }
      case Remove(r, peer) => if r in rooms && rooms[r].owner == me { var _ := OwnerRemove(r, peer, env.up); }
      case Forget(r) => var _ := ForgetRoom(r);
      case SetCanInvite(r, peer, allowed) =>
        if r in rooms && rooms[r].owner == me { var _ := OwnerSetCanInvite(r, peer, allowed, env.up); }
      case SetColor(r, token, hex) => if Has(r) { var _ := MemberSetColor(r, token, hex, env.up); }
      case ToggleColors(r, enabled) => if r in rooms && rooms[r].owner == me { OwnerToggleColors(r, enabled, env.up); }
      case PostFile(r, att) => var _ := PostRoomFile(r, att, env.up);
      case SendText(r, text) => var _ := SendRoomText(r, text);
      case Sync => PushMissingRoomStates(env.up);
      case AcceptFriend(peer) => AcceptFriend(peer);
      case DiscardHeld(peer) => held := HeldFromOthers(held, peer);
    }
  }
}
