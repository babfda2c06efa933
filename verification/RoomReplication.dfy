/** Replication of rooms over links that lose, duplicate and reorder. Every daemon runs RoomModel;
    an arrival may pick any packet ever sent to the node, any number of times, in any order. */
module RoomReplication {
  import opened RoomModel

  // ---------------------------------------------------------------------------------------------
  // What a node keeps about the rooms it owns
  // ---------------------------------------------------------------------------------------------

  /** The room is one of the states logged in `history`, found by its sequence number. */
  ghost predicate Genuine(history: seq<Room>, room: Room) {
    1 <= room.seqNo <= |history| && history[room.seqNo - 1] == room
  }

  ghost predicate HistoryOk(me: Pid, r: RoomId, history: seq<Room>) {
    && |history| > 0
    && forall k | 0 <= k < |history| ::
         && history[k].id == r && history[k].owner == me && history[k].seqNo == k + 1
         && me in history[k].members && history[k].invited == map[]
  }

  ghost predicate Current(history: seq<Room>, room: Room) {
    |history| > 0 && room.seqNo == |history| && history[|history| - 1] == Wire(room)
  }

  ghost predicate RoomsOk(n: Node) {
    forall r | r in n.rooms :: r in n.past && Current(n.past[r], n.rooms[r])
  }

  ghost predicate PastOk(n: Node) { forall r | r in n.past :: HistoryOk(n.me, r, n.past[r]) }

  ghost predicate BodyOk(past: map<RoomId, seq<Room>>, p: Packet) {
    match p.body
    case RoomState(room) => room.id == p.roomId && p.roomId in past && Genuine(past[p.roomId], room)
    case RoomInvite(_) => p.roomId in past
    case RoomRemove => p.roomId in past
    case _ => true
  }

  ghost predicate PacketOk(n: Node, p: Packet) {
    p.src == n.me && p.dst != n.me && (p.body.RoomFile? || p.from == n.me) && BodyOk(n.past, p)
  }

  ghost predicate OwnerInv(n: Node) {
    && n.me != ""
    && RoomsOk(n) && PastOk(n)
    && forall p | p in n.sent :: PacketOk(n, p)
  }

  /** No cached record claims to be owned by its holder. */
  ghost predicate Foreign(n: Node) { forall r | r in n.cache :: n.cache[r].owner != n.me }

  /** From one state of a node to the next: histories only grow, and a room's history grows only by
      the room's new wire state. */
  ghost predicate Advances(n: Node, n': Node) {
    && n'.me == n.me && n.sent <= n'.sent && n.past.Keys <= n'.past.Keys
    && forall r | r in n'.past ::
         || (r in n.past && n'.past[r] == n.past[r])
         || (r in n'.rooms && n'.past[r] == (if r in n.past then n.past[r] else []) + [Wire(n'.rooms[r])])
  }

  lemma {:induction false} BroadcastKeeps(n: Node, r: RoomId, up: set<Pid>)
    requires OwnerInv(n) && r in n.rooms
    ensures OwnerInv(Broadcast(n, n.rooms[r], up))
  {
    var n' := Broadcast(n, n.rooms[r], up);
    assert HistoryOk(n.me, r, n.past[r]) && Current(n.past[r], n.rooms[r]);
    forall p | p in n'.sent ensures PacketOk(n', p) {
      if p !in n.sent { assert Genuine(n.past[r], Wire(n.rooms[r])); }
    }
  }

  /** Committing a change of an owned room keeps the node in order. */
  lemma {:induction false} CommitKeeps(n: Node, r: RoomId, room: Room)
    requires OwnerInv(n) && r in n.rooms
    requires room.id == r && room.owner == n.me && n.me in room.members && room.seqNo == n.rooms[r].seqNo
    ensures OwnerInv(Commit(n, r, room)) && Advances(n, Commit(n, r, room))
    ensures Commit(n, r, room).rooms == n.rooms[r := Bumped(room)]
  {
    var n' := Commit(n, r, room);
    assert HistoryOk(n.me, r, n.past[r]) && Current(n.past[r], n.rooms[r]);
    assert n'.past[r] == n.past[r] + [Wire(Bumped(room))];
    assert HistoryOk(n.me, r, n'.past[r]);
    forall q | q in n'.past ensures HistoryOk(n'.me, q, n'.past[q]) { if q != r { assert n'.past[q] == n.past[q]; } }
    forall q | q in n'.rooms ensures q in n'.past && Current(n'.past[q], n'.rooms[q]) {
      if q != r { assert n'.rooms[q] == n.rooms[q] && n'.past[q] == n.past[q]; }
    }
    forall p | p in n'.sent ensures PacketOk(n', p) { assert PacketOk(n, p); }
  }

  lemma {:induction false} CommitAndBroadcastKeeps(n: Node, r: RoomId, room: Room, up: set<Pid>)
    requires OwnerInv(n) && r in n.rooms
    requires room.id == r && room.owner == n.me && n.me in room.members && room.seqNo == n.rooms[r].seqNo
    ensures OwnerInv(CommitAndBroadcast(n, r, room, up)) && Advances(n, CommitAndBroadcast(n, r, room, up))
  {
    CommitKeeps(n, r, room);
    BroadcastKeeps(Commit(n, r, room), r, up);
  }

  /** What the histories say about an owned room. */
  lemma {:induction false} OwnedRoom(n: Node, r: RoomId)
    requires OwnerInv(n) && r in n.rooms
    ensures n.rooms[r].id == r && n.rooms[r].owner == n.me && n.me in n.rooms[r].members
    ensures r in n.past && Genuine(n.past[r], Wire(n.rooms[r]))
  {
    assert HistoryOk(n.me, r, n.past[r]) && Current(n.past[r], n.rooms[r]);
    assert n.past[r][|n.past[r]| - 1].id == r;
  }

  /** Touching only the invitation ledger of an owned room changes nothing anybody else can see. */
  lemma {:induction false} LedgerKeeps(n: Node, r: RoomId, invited: map<Pid, int>)
    requires OwnerInv(n) && r in n.rooms
    ensures OwnerInv(n.(rooms := n.rooms[r := n.rooms[r].(invited := invited)]))
  {
    var n' := n.(rooms := n.rooms[r := n.rooms[r].(invited := invited)]);
    forall q | q in n'.rooms ensures q in n'.past && Current(n'.past[q], n'.rooms[q]) {
      assert Current(n.past[q], n.rooms[q]);
    }
    forall p | p in n'.sent ensures PacketOk(n', p) { assert PacketOk(n, p); }
  }

  /** Sending more packets that are in order, and changing only what the node shows, holds, caches
      and notes, keeps it in order. */
  lemma {:induction false} MorePackets(n: Node, n': Node)
    requires OwnerInv(n) && n'.me == n.me && n'.past == n.past && n.sent <= n'.sent
    requires n'.rooms == n.rooms
    requires forall p | p in n'.sent - n.sent :: PacketOk(n, p)
    ensures OwnerInv(n') && Advances(n, n')
  {
    forall p | p in n'.sent ensures PacketOk(n', p) { assert PacketOk(n, p); }
  }

  lemma {:induction false} InviteKeeps(n: Node, r: RoomId, peer: Pid, env: Env)
    requires OwnerInv(n) && Foreign(n) && Knows(n, r) && Record(n, r).owner == n.me
    ensures OwnerInv(OwnerInvite(n, r, peer, env)) && Advances(n, OwnerInvite(n, r, peer, env))
  {
    assert r in n.rooms;
    if Reaches(n, peer, env.up) {
      OwnedRoom(n, r);
      var n1 := Post(n, Envelope(n, peer, r, RoomInvite(n.rooms[r].name)), env.up);
      MorePackets(n, n1);
      LedgerKeeps(n1, r, n.rooms[r].invited[peer := env.now]);
    }
  }

  lemma {:induction false} PostKeeps(n: Node, p: Packet, up: set<Pid>)
    requires OwnerInv(n) && (Reaches(n, p.dst, up) ==> PacketOk(n, p))
    ensures OwnerInv(Post(n, p, up))
  {
    if Reaches(n, p.dst, up) { MorePackets(n, n.(sent := n.sent + {p})); }
  }

  lemma {:induction false} RemoveKeeps(n: Node, r: RoomId, peer: Pid, up: set<Pid>)
    requires OwnerInv(n) && r in n.rooms
    ensures OwnerInv(OwnerRemove(n, r, peer, up)) && Advances(n, OwnerRemove(n, r, peer, up))
  {
    OwnedRoom(n, r);
    var room := n.rooms[r];
    if peer != room.owner && peer in room.members {
      var room' := room.(members := room.members - {peer}, invited := room.invited - {peer});
      CommitKeeps(n, r, room');
      var c := Commit(n, r, room');
      var n1 := Note(c, Removed(r, peer));
      MorePackets(c, n1);
      var p := Envelope(n, peer, r, RoomRemove);
      assert PacketOk(n1, p) by { assert r in n1.past; }
      PostKeeps(n1, p, up);
      var n2 := Post(n1, p, up);
      BroadcastKeeps(n2, r, up);
      var n3 := Broadcast(n2, n2.rooms[r], up);
      assert n2.rooms[r] == Bumped(room');
      assert n3 == OwnerRemove(n, r, peer, up);
      assert n3.past == c.past && n3.rooms == c.rooms && n3.me == c.me;
    }
  }

  lemma {:induction false} JoinKeeps(n: Node, p: Packet, env: Env)
    requires OwnerInv(n) && p.body.RoomJoin?
    ensures OwnerInv(HandleRoomJoin(n, p, env)) && Advances(n, HandleRoomJoin(n, p, env))
  {
    var r := p.roomId;
    if r in n.rooms {
      var room := n.rooms[r];
      OwnedRoom(n, r);
      var n1 := n.(rooms := n.rooms[r := room.(invited := room.invited - {p.from})]);
      LedgerKeeps(n, r, room.invited - {p.from});
      var n2 := Note(n1, Joined(r, p.from, p.from !in room.members));
      MorePackets(n1, n2);
      var room2 := n2.rooms[r];
      if p.from in room2.members { BroadcastKeeps(n2, r, env.up); }
      else {
        var entered := room2.(members := room2.members[p.from := Member(p.body.fromName, false, THEME_COLOR)]);
        CommitAndBroadcastKeeps(n2, r, entered, env.up);
      }
    }
  }

  lemma {:induction false} ColorKeeps(n: Node, r: RoomId, peer: Pid, color: Color, up: set<Pid>)
    requires OwnerInv(n) && Foreign(n) && Knows(n, r) && Record(n, r).owner == n.me
    requires peer in Record(n, r).members
    ensures OwnerInv(ApplyMemberColor(n, r, peer, color, up)) && Advances(n, ApplyMemberColor(n, r, peer, color, up))
  {
    var room := n.rooms[r];
    OwnedRoom(n, r);
    var m := room.members[peer].(color := color);
    CommitAndBroadcastKeeps(n, r, room.(members := room.members[peer := m]), up);
  }

  lemma {:induction false} OwnedLeaveKeeps(n: Node, r: RoomId, env: Env)
    requires OwnerInv(n) && r in n.rooms && MemberLeave(n, r, env) != n
    ensures OwnerInv(MemberLeave(n, r, env)) && Advances(n, MemberLeave(n, r, env))
  {
    var n' := MemberLeave(n, r, env);
    OwnedRoom(n, r);
    assert n'.rooms == n.rooms - {r};
    forall p | p in n'.sent ensures PacketOk(n', p) { assert p in n.sent ==> PacketOk(n, p); }
    forall q | q in n'.rooms ensures q in n'.past && Current(n'.past[q], n'.rooms[q]) {
      assert Current(n.past[q], n.rooms[q]);
    }
  }

  lemma {:induction false} LeaveKeeps(n: Node, r: RoomId, env: Env)
    requires OwnerInv(n) && Foreign(n) && Knows(n, r)
    ensures OwnerInv(MemberLeave(n, r, env)) && Advances(n, MemberLeave(n, r, env))
  {
    var n' := MemberLeave(n, r, env);
    if n' == n {
      StandsStill(n);
    } else if r in n.rooms {
      OwnedLeaveKeeps(n, r, env);
    } else {
      assert n'.rooms == n.rooms;
      MorePackets(n, n');
    }
  }

  lemma {:induction false} CreatedRoomsOk(n: Node, id: RoomId, name: string, ownerName: string)
    requires RoomsOk(n) && id !in n.past
    ensures RoomsOk(CreateRoom(n, id, name, ownerName))
  {
    var n' := CreateRoom(n, id, name, ownerName);
    assert n'.past[id] == [NewRoom(id, name, n.me, ownerName)];
    forall q | q in n'.rooms ensures q in n'.past && Current(n'.past[q], n'.rooms[q]) {
      if q != id { assert Current(n.past[q], n.rooms[q]); }
    }
  }

  lemma {:induction false} CreatedPastOk(n: Node, id: RoomId, name: string, ownerName: string)
    requires PastOk(n) && id !in n.past
    ensures PastOk(CreateRoom(n, id, name, ownerName))
  {
    var n' := CreateRoom(n, id, name, ownerName);
    assert n'.past[id] == [NewRoom(id, name, n.me, ownerName)] && HistoryOk(n.me, id, n'.past[id]);
    forall q | q in n'.past ensures HistoryOk(n'.me, q, n'.past[q]) { if q != id { assert n'.past[q] == n.past[q]; } }
  }

  lemma {:induction false} CreateKeeps(n: Node, id: RoomId, name: string, ownerName: string)
    requires OwnerInv(n) && id !in n.past
    ensures OwnerInv(CreateRoom(n, id, name, ownerName)) && Advances(n, CreateRoom(n, id, name, ownerName))
  {
    hide RoomsOk, PastOk, PacketOk;
    CreatedRoomsOk(n, id, name, ownerName);
    CreatedPastOk(n, id, name, ownerName);
    OldPacketsStayOk(n, CreateRoom(n, id, name, ownerName));
  }

  /** Packets are not affected by the history of a room that was not there. */
  lemma {:induction false} OldPacketsStayOk(n: Node, n': Node)
    requires (forall p | p in n.sent :: PacketOk(n, p)) && n'.sent == n.sent && n'.me == n.me
    requires forall q | q in n.past :: q in n'.past && n'.past[q] == n.past[q]
    ensures forall p | p in n'.sent :: PacketOk(n', p)
  {
    forall p | p in n'.sent ensures PacketOk(n', p) { assert PacketOk(n, p); }
  }

  /** Commands that touch no owned room. */
  ghost predicate Quiet(n: Node, c: Command) {
    match c
    case Add(r, _) => Knows(n, r) ==> Record(n, r).owner != n.me
    case SetColor(r, _, _) => Knows(n, r) ==> Record(n, r).owner != n.me
    case _ => c.Join? || c.Forget? || c.PostFile? || c.SendText? || c.Sync? || c.AcceptFriend? || c.DiscardHeld?
  }

  /** A packet of ours that carries no authority over anybody's copy of a room. */
  ghost predicate Harmless(me: Pid, p: Packet) {
    && p.src == me && p.dst != me && (p.body.RoomFile? || p.from == me)
    && !p.body.RoomState? && !p.body.RoomInvite? && !p.body.RoomRemove?
  }

  lemma {:induction false} QuietPackets(n: Node, c: Command, env: Env)
    requires Quiet(n, c)
    ensures var n' := Obey(n, c, env);
            n' == n.(cache := n'.cache, shown := n'.shown, held := n'.held, sent := n'.sent)
            && n.sent <= n'.sent && forall p | p in n'.sent - n.sent :: Harmless(n.me, p)
  {
  }

  lemma {:induction false} QuietKeeps(n: Node, c: Command, env: Env)
    requires OwnerInv(n) && Quiet(n, c)
    ensures OwnerInv(Obey(n, c, env)) && Advances(n, Obey(n, c, env))
  {
    QuietPackets(n, c, env);
    MorePackets(n, Obey(n, c, env));
  }

  lemma {:induction false} OwnedChangeKeeps(n: Node, c: Command, env: Env)
    requires OwnerInv(n) && (c.SetCanInvite? || c.ToggleColors?)
    ensures OwnerInv(Obey(n, c, env)) && Advances(n, Obey(n, c, env))
  {
    var n' := Obey(n, c, env);
    if n' != n {
      OwnedRoom(n, c.r);
      var room := n.rooms[c.r];
      if c.SetCanInvite? {
        var m := room.members[c.peer].(canInvite := c.allowed);
        CommitAndBroadcastKeeps(n, c.r, room.(members := room.members[c.peer := m]), env.up);
      } else {
        CommitAndBroadcastKeeps(n, c.r, room.(colorsEnabled := c.enabled), env.up);
      }
    }
  }

  lemma {:induction false} OwnColorKeeps(n: Node, r: RoomId, token: string, hex: string, env: Env)
    requires OwnerInv(n) && Foreign(n) && Knows(n, r) && Record(n, r).owner == n.me
    ensures OwnerInv(MemberSetColor(n, r, token, hex, env.up)) && Advances(n, MemberSetColor(n, r, token, hex, env.up))
  {
    var color := Color(ShortToken(if token == "" then "theme" else token), hex);
    if n.me in Record(n, r).members && ValidColor(color) { ColorKeeps(n, r, n.me, color, env.up); }
  }

  lemma {:induction false} StandsStill(n: Node)
    ensures Advances(n, n)
  {
  }

  lemma {:induction false} CommandKeeps(n: Node, c: Command, env: Env)
    requires OwnerInv(n) && Foreign(n)
    requires c.Create? ==> c.id !in n.past
    ensures OwnerInv(Obey(n, c, env)) && Advances(n, Obey(n, c, env))
  {
    hide Advances, Foreign, MemberLeave, OwnerInvite, OwnerRemove, ApplyMemberColor;
    if Obey(n, c, env) == n {
      StandsStill(n);
      return;
    }
    if Quiet(n, c) { QuietKeeps(n, c, env); return; }
    match c
    case Create(id, name, ownerName) => CreateKeeps(n, id, name, ownerName);
    case Invite(r, peer) => if Knows(n, r) && Record(n, r).owner == n.me { InviteKeeps(n, r, peer, env); }
    case Add(r, peer) => InviteKeeps(n, r, peer, env);
    case Leave(r) => if Knows(n, r) { LeaveKeeps(n, r, env); }
    case Remove(r, peer) => if r in n.rooms { RemoveKeeps(n, r, peer, env.up); }
    case SetCanInvite(_, _, _) => OwnedChangeKeeps(n, c, env);
    case ToggleColors(_, _) => OwnedChangeKeeps(n, c, env);
    case SetColor(r, token, hex) => OwnColorKeeps(n, r, token, hex, env);
  }

  lemma {:induction false} CacheOnlyKeeps(n: Node, n': Node)
    requires OwnerInv(n)
    requires n' == n.(cache := n'.cache, shown := n'.shown, held := n'.held)
    ensures OwnerInv(n') && Advances(n, n')
  {
    MorePackets(n, n');
  }

  lemma {:induction false} StateReqKeeps(n: Node, p: Packet, env: Env)
    requires OwnerInv(n)
    ensures OwnerInv(HandleRoomStateReq(n, p, env.up)) && Advances(n, HandleRoomStateReq(n, p, env.up))
  {
    if p.roomId in n.rooms {
      OwnedRoom(n, p.roomId);
      PostKeeps(n, Envelope(n, p.from, p.roomId, RoomState(Wire(n.rooms[p.roomId]))), env.up);
    }
  }

  lemma {:induction false} FileKeeps(n: Node, p: Packet, env: Env)
    requires OwnerInv(n) && p.body.RoomFile?
    ensures OwnerInv(HandleRoomFile(n, p, env.up)) && Advances(n, HandleRoomFile(n, p, env.up))
    ensures OwnerInv(HandleRoomFileMsg(n, p)) && Advances(n, HandleRoomFileMsg(n, p))
  {
    MorePackets(n, HandleRoomFileMsg(n, p));
    MorePackets(n, HandleRoomFile(n, p, env.up));
  }

  lemma {:induction false} ArrivalKeeps(n: Node, packet: Packet, env: Env)
    requires OwnerInv(n) && Foreign(n)
    ensures OwnerInv(Deliver(n, packet, env)) && Advances(n, Deliver(n, packet, env))
  {
    hide Advances, Foreign, PastOk;
    var p := Authored(packet);
    var n' := Deliver(n, packet, env);
    if n' == n {
      StandsStill(n);
      return;
    }
    match p.body
    case RoomJoin(_) => JoinKeeps(n, p, env);
    case RoomLeave => RemoveKeeps(n, p.roomId, p.from, env.up);
    case RoomAdd(peer) => InviteKeeps(n, p.roomId, peer, env);
    case RoomColorSet(token, hex) => ColorKeeps(n, p.roomId, p.from, Color(ShortToken(token), hex), env.up);
    case RoomStateReq => StateReqKeeps(n, p, env);
    case RoomFile(_, _) => FileKeeps(n, p, env);
    case _ => CacheOnlyKeeps(n, n');
  }
}
