/** The whole network of daemons, and what replication guarantees over every run of it. */
module RoomSystem {
  import opened RoomModel
  import opened RoomReplication

  type System = map<Pid, Node>

  /** One atomic handler: node `id` obeys a command or handles an arrival. */
  datatype Move = Move(id: Pid, input: Input, env: Env)

  ghost predicate Initial(s: System) { forall id | id in s :: id != "" && s[id] == Boot(id) }

  /** Room ids are drawn fresh; an arrival is any packet ever sent to the node, old or repeated. */
  ghost predicate Possible(s: System, m: Move) {
    && m.id in s
    && match m.input
       case Local(c) => c.Create? ==> forall id | id in s :: c.id !in s[id].past
       case Arrival(p) => p.dst == m.id && p.src in s && p in s[p.src].sent
  }

  function Next(s: System, m: Move): System
    requires m.id in s
  {
    s[m.id := Handle(s[m.id], m.input, m.env)]
  }

  ghost predicate StepAt(states: seq<System>, moves: seq<Move>, k: int) {
    0 <= k < |moves| && k + 1 < |states| && Possible(states[k], moves[k]) && states[k + 1] == Next(states[k], moves[k])
  }

  ghost predicate IsRun(states: seq<System>, moves: seq<Move>) {
    && |states| == |moves| + 1 && Initial(states[0])
    && forall k | 0 <= k < |moves| :: StepAt(states, moves, k)
  }

  // ---------------------------------------------------------------------------------------------
  // How a cached record can change
  // ---------------------------------------------------------------------------------------------

  ghost predicate IsStub(r: RoomId, room: Room) { room == Stub(r, room.name, room.owner) }

  ghost predicate AcceptedSnapshot(n: Node, i: Input, r: RoomId) {
    && i.Arrival? && i.packet.roomId == r && r != "" && i.packet.body.RoomState?
    && r in n.cache && r !in n.rooms
    && i.packet.src == n.cache[r].owner && i.packet.body.room.id == r
    && (i.packet.from == "" || i.packet.from == i.packet.src)
    && n.cache[r].seqNo <= i.packet.body.room.seqNo
  }

  ghost predicate FirstInvite(n: Node, i: Input, r: RoomId) {
    && i.Arrival? && i.packet.roomId == r && i.packet.body.RoomInvite? && !Knows(n, r)
    && (i.packet.from == "" || i.packet.from == i.packet.src)
  }

  /** A record nobody but its holder could own or be listed in; the system never contains one. */
  ghost predicate Orphaned(n: Node, r: RoomId) {
    r in n.cache && (n.cache[r].owner == n.me || n.cache[r].members.Keys == {n.me})
  }

  ghost predicate RecordChange(n: Node, n': Node, i: Input, r: RoomId)
    requires r in n'.cache
  {
    var now := n'.cache[r];
    || (r in n.cache && now == n.cache[r])
    || (AcceptedSnapshot(n, i, r) && now == i.packet.body.room)
    || (FirstInvite(n, i, r) && now == Stub(r, i.packet.body.name, i.packet.src))
    || (Orphaned(n, r) && r !in n.rooms && now.owner == n.cache[r].owner
        && n.cache[r].seqNo <= now.seqNo && now.members.Keys <= n.cache[r].members.Keys)
  }

  lemma {:induction false} LeaveCacheChange(n: Node, r: RoomId, left: RoomId, env: Env)
    requires Knows(n, left) && r in MemberLeave(n, left, env).cache
    ensures RecordChange(n, MemberLeave(n, left, env), Local(Leave(left)), r)
  {
    var n' := MemberLeave(n, left, env);
    if left != r || r in n.rooms || n' == n {
      LeaveElsewhere(n, left, env);
    } else {
      var room := n.cache[r];
      var left' := room.members - {n.me};
      assert room.members.Keys == left'.Keys + {n.me};
      if room.owner != n.me && (room.owner !in env.trusted || left' != map[]) { assert false; }
      assert n'.cache[r] == Bumped(room.(members := left'));
    }
  }

  lemma {:induction false} LeaveElsewhere(n: Node, left: RoomId, env: Env)
    requires Knows(n, left)
    ensures forall r | r in MemberLeave(n, left, env).cache
                       && (r != left || r in n.rooms || MemberLeave(n, left, env) == n) ::
              r in n.cache && MemberLeave(n, left, env).cache[r] == n.cache[r]
  {
  }

  lemma {:induction false} InviteCacheChange(n: Node, q: RoomId, peer: Pid, env: Env, c: Command, r: RoomId)
    requires Knows(n, q) && Record(n, q).owner == n.me && r in OwnerInvite(n, q, peer, env).cache
    ensures RecordChange(n, OwnerInvite(n, q, peer, env), Local(c), r)
  {
  }

  lemma {:induction false} ColorCacheChange(
      n: Node, q: RoomId, peer: Pid, color: Color, up: set<Pid>, c: Command, r: RoomId)
    requires Knows(n, q) && Record(n, q).owner == n.me && peer in Record(n, q).members
    requires r in ApplyMemberColor(n, q, peer, color, up).cache
    ensures RecordChange(n, ApplyMemberColor(n, q, peer, color, up), Local(c), r)
  {
    hide Snapshots, LogState;
  }

  lemma {:induction false} RosterCommandCacheChange(n: Node, c: Command, env: Env, r: RoomId)
    requires c.Invite? || c.Add? || c.SetCanInvite? || c.SetColor? || c.ToggleColors?
    requires r in Obey(n, c, env).cache
    ensures RecordChange(n, Obey(n, c, env), Local(c), r)
  {
    hide Snapshots, LogState, OwnerInvite, ApplyMemberColor, RecordChange;
    if Obey(n, c, env).cache == n.cache {
      SameCache(n, Obey(n, c, env), c, r);
    } else {
      match c
      case Invite(q, peer) => InviteCacheChange(n, q, peer, env, c, r);
      case Add(q, peer) => InviteCacheChange(n, q, peer, env, c, r);
      case SetColor(q, token, hex) =>
        ColorCacheChange(n, q, n.me, Color(ShortToken(if token == "" then "theme" else token), hex), env.up, c, r);
    }
  }

  lemma {:induction false} SameCache(n: Node, n': Node, c: Command, r: RoomId)
    requires n'.cache == n.cache && r in n'.cache
    ensures RecordChange(n, n', Local(c), r)
  {
  }

  lemma {:induction false} CommandCacheChange(n: Node, c: Command, env: Env, r: RoomId)
    requires r in Obey(n, c, env).cache
    ensures RecordChange(n, Obey(n, c, env), Local(c), r)
  {
    hide Snapshots;
    match c
    case Create(_, _, _) =>
    case Join(_, _) =>
    case Leave(left) => if Knows(n, left) { LeaveCacheChange(n, r, left, env); }
    case Remove(q, peer) => if q in n.rooms { OwnerChangesNoCache(n, q, peer, "", env.up); }
    case Forget(_) =>
    case PostFile(_, _) =>
    case SendText(_, _) =>
    case Sync =>
    case AcceptFriend(_) =>
    case DiscardHeld(_) =>
    case _ => RosterCommandCacheChange(n, c, env, r);
  }

  lemma {:induction false} OwnerChangesNoCache(n: Node, r: RoomId, peer: Pid, name: string, up: set<Pid>)
    requires r in n.rooms
    ensures OwnerRemove(n, r, peer, up).cache == n.cache
    ensures OwnerAdmit(n, r, peer, name, up).cache == n.cache
  {
  }

  lemma {:induction false} JoinChangesNoCache(n: Node, p: Packet, env: Env)
    requires p.body.RoomJoin?
    ensures HandleRoomJoin(n, p, env).cache == n.cache
  {
    var r := p.roomId;
    if r in n.rooms {
      var n1 := n.(rooms := n.rooms[r := n.rooms[r].(invited := n.rooms[r].invited - {p.from})]);
      var n2 := Note(n1, Joined(r, p.from, p.from !in n.rooms[r].members));
      OwnerChangesNoCache(n2, r, p.from, p.body.fromName, env.up);
    }
  }

  lemma {:induction false} ArrivalCacheChange(n: Node, packet: Packet, env: Env, r: RoomId)
    requires r in Deliver(n, packet, env).cache
    ensures RecordChange(n, Deliver(n, packet, env), Arrival(packet), r)
  {
    hide Snapshots;
    var p := Authored(packet);
    if Deliver(n, packet, env) == n { return; }
    match p.body
    case RoomState(_) =>
    case RoomInvite(_) =>
    case RoomStateReq =>
    case RoomFile(_, _) =>
    case RoomLeave => OwnerChangesNoCache(n, p.roomId, p.from, "", env.up);
    case RoomJoin(_) => JoinChangesNoCache(n, p, env);
    case RoomAdd(peer) =>
    case RoomColorSet(_, _) =>
    case RoomRemove =>
    case RoomText(_, _, _) =>
  }

  /** A cached record changes only by an accepted snapshot of its recorded owner or by a first
      invitation, unless it is an orphan. */
  lemma {:induction false} CacheChange(n: Node, i: Input, env: Env, r: RoomId)
    requires r in Handle(n, i, env).cache
    ensures RecordChange(n, Handle(n, i, env), i, r)
  {
    match i
    case Local(c) => CommandCacheChange(n, c, env, r);
    case Arrival(p) => ArrivalCacheChange(n, p, env, r);
  }

  /** Within one cache lifetime the sequence number never goes down, and a record that is not there
      (removed, left or forgotten) comes back only as the stub of an invitation delivered now: no
      snapshot, however late, recreates it. */
  lemma {:induction false} CacheLifetimeStep(n: Node, i: Input, env: Env, r: RoomId)
    requires r in Handle(n, i, env).cache
    ensures r in n.cache ==> n.cache[r].seqNo <= Handle(n, i, env).cache[r].seqNo
    ensures r !in n.cache ==> i.Arrival? && i.packet.roomId == r && i.packet.body.RoomInvite?
                              && IsStub(r, Handle(n, i, env).cache[r])
  {
    CacheChange(n, i, env, r);
  }

  // ---------------------------------------------------------------------------------------------
  // The invariant of the network
  // ---------------------------------------------------------------------------------------------

  /** A cached record is an invitation stub, or a state its owner logged. */
  ghost predicate Backed(s: System, me: Pid, r: RoomId, room: Room) {
    && room.owner in s && room.owner != me && r in s[room.owner].past
    && (IsStub(r, room) || Genuine(s[room.owner].past[r], room))
  }

  ghost predicate NodeOk(s: System, id: Pid)
    requires id in s
  {
    && s[id].me == id && OwnerInv(s[id])
    && forall r | r in s[id].cache :: Backed(s, id, r, s[id].cache[r])
  }

  /** No two nodes ever own a room of the same id. */
  ghost predicate OneOwner(s: System) {
    forall a, b, r | a in s && b in s && r in s[a].past && r in s[b].past :: a == b
  }

  ghost predicate SystemInv(s: System) { OneOwner(s) && forall id | id in s :: NodeOk(s, id) }

  lemma {:induction false} BackedRecord(s: System, id: Pid, r: RoomId)
    requires SystemInv(s) && id in s && r in s[id].cache
    ensures !Orphaned(s[id], r) && s[id].cache[r].owner != id
  {
    assert Backed(s, id, r, s[id].cache[r]);
    var o := s[id].cache[r].owner;
    if Genuine(s[o].past[r], s[id].cache[r]) { assert HistoryOk(s[o].me, r, s[o].past[r]); }
  }

  lemma {:induction false} NodeAdvances(s: System, m: Move)
    requires SystemInv(s) && Possible(s, m)
    ensures OwnerInv(Next(s, m)[m.id]) && Advances(s[m.id], Next(s, m)[m.id])
  {
    var n := s[m.id];
    assert Foreign(n) by { forall r | r in n.cache ensures n.cache[r].owner != n.me { BackedRecord(s, m.id, r); } }
    match m.input
    case Local(c) => CommandKeeps(n, c, m.env);
    case Arrival(p) => ArrivalKeeps(n, p, m.env);
  }

  /** What was backed stays backed while owners' histories only grow. */
  lemma {:induction false} StaysBacked(s: System, m: Move, me: Pid, r: RoomId, room: Room)
    requires SystemInv(s) && Possible(s, m) && Backed(s, me, r, room)
    ensures Backed(Next(s, m), me, r, room)
  {
    NodeAdvances(s, m);
    var o := room.owner;
    if o == m.id { assert r in Next(s, m)[o].past; }
  }

  /** A snapshot or invitation in flight is backed by its sender. */
  lemma {:induction false} PacketBacked(s: System, p: Packet)
    requires SystemInv(s) && p.src in s && p in s[p.src].sent && (p.from == "" || p.from == p.src)
    ensures p.body.RoomState? ==> Backed(s, p.dst, p.roomId, p.body.room)
    ensures p.body.RoomInvite? ==> Backed(s, p.dst, p.roomId, Stub(p.roomId, p.body.name, p.src))
  {
    assert NodeOk(s, p.src) && PacketOk(s[p.src], p);
    if p.body.RoomState? { assert HistoryOk(p.src, p.roomId, s[p.src].past[p.roomId]); }
  }

  lemma {:induction false} NewCacheBacked(s: System, m: Move, r: RoomId)
    requires SystemInv(s) && Possible(s, m) && r in Next(s, m)[m.id].cache
    ensures Backed(Next(s, m), m.id, r, Next(s, m)[m.id].cache[r])
  {
    var n := s[m.id];
    var now := Next(s, m)[m.id].cache[r];
    CacheChange(n, m.input, m.env, r);
    if r in n.cache { BackedRecord(s, m.id, r); assert Backed(s, m.id, r, n.cache[r]); }
    if !(r in n.cache && now == n.cache[r]) { PacketBacked(s, m.input.packet); }
    StaysBacked(s, m, m.id, r, now);
  }

  lemma {:induction false} OneOwnerKept(s: System, m: Move)
    requires SystemInv(s) && Possible(s, m)
    ensures OneOwner(Next(s, m))
  {
    var s' := Next(s, m);
    NodeAdvances(s, m);
    forall a, b, r | a in s' && b in s' && r in s'[a].past && r in s'[b].past ensures a == b {
      if r !in s[m.id].past && r in s'[m.id].past { OnlyCreateStartsAHistory(s[m.id], m.input, m.env, r); }
    }
  }

  lemma {:induction false} OnlyCreateStartsAHistory(n: Node, i: Input, env: Env, r: RoomId)
    requires RoomsOk(n) && r !in n.past && r in Handle(n, i, env).past
    ensures i.Local? && i.command.Create? && i.command.id == r
  {
    match i
    case Local(c) => CommandStartsNoHistory(n, c, env);
    case Arrival(p) => ArrivalStartsNoHistory(n, p, env);
  }

  lemma {:induction false} RosterCommandStartsNoHistory(n: Node, c: Command, env: Env)
    requires RoomsOk(n) && (c.Invite? || c.Add? || c.Leave? || c.Remove?)
    ensures Obey(n, c, env).past.Keys == n.past.Keys
  {
    hide Snapshots, Farewells;
    match c
    case Invite(_, _) =>
    case Add(_, _) =>
    case Leave(_) =>
    case Remove(_, _) =>
  }

  lemma {:induction false} CommandStartsNoHistory(n: Node, c: Command, env: Env)
    requires RoomsOk(n)
    ensures Obey(n, c, env).past.Keys == n.past.Keys + (if c.Create? then {c.id} else {})
  {
    hide Snapshots, Farewells, FileCopies, TextCopies, SyncRequests;
    if c.Invite? || c.Add? || c.Leave? || c.Remove? {
      RosterCommandStartsNoHistory(n, c, env);
    } else {
      hide MemberLeave, OwnerInvite, OwnerRemove;
      match c
      case Create(_, _, _) =>
      case SetCanInvite(_, _, _) =>
      case SetColor(_, _, _) =>
      case ToggleColors(_, _) =>
      case _ =>
    }
  }

  lemma {:induction false} QuietArrivalStartsNoHistory(n: Node, packet: Packet, env: Env)
    requires !packet.body.RoomLeave? && !packet.body.RoomJoin? && !packet.body.RoomAdd? && !packet.body.RoomColorSet?
    ensures Deliver(n, packet, env).past.Keys == n.past.Keys
  {
    hide Snapshots;
    match packet.body
    case RoomState(_) =>
    case RoomInvite(_) =>
    case RoomStateReq =>
    case RoomFile(_, _) =>
    case RoomRemove =>
    case RoomText(_, _, _) =>
  }

  lemma {:induction false} JoinStartsNoHistory(n: Node, p: Packet, env: Env)
    requires RoomsOk(n) && p.body.RoomJoin?
    ensures HandleRoomJoin(n, p, env).past.Keys == n.past.Keys
  {
    hide Snapshots;
  }

  lemma {:induction false} ArrivalStartsNoHistory(n: Node, packet: Packet, env: Env)
    requires RoomsOk(n)
    ensures Deliver(n, packet, env).past.Keys == n.past.Keys
  {
    hide Snapshots, HandleRoomJoin;
    var p := Authored(packet);
    if Deliver(n, packet, env) == n { return; }
    match p.body
    case RoomLeave =>
    case RoomJoin(_) => JoinStartsNoHistory(n, p, env);
    case RoomAdd(_) =>
    case RoomColorSet(_, _) =>
    case _ => QuietArrivalStartsNoHistory(n, packet, env);
  }

  lemma {:induction false} StepKeepsInvariant(s: System, m: Move)
    requires SystemInv(s) && Possible(s, m)
    ensures SystemInv(Next(s, m))
  {
    var s' := Next(s, m);
    OneOwnerKept(s, m);
    NodeAdvances(s, m);
    forall id | id in s' ensures NodeOk(s', id) {
      assert NodeOk(s, id);
      forall r | r in s'[id].cache ensures Backed(s', id, r, s'[id].cache[r]) {
        if id == m.id { NewCacheBacked(s, m, r); }
        else { assert Backed(s, id, r, s[id].cache[r]); StaysBacked(s, m, id, r, s[id].cache[r]); }
      }
    }
  }

  lemma {:induction false} RunKeepsInvariant(states: seq<System>, moves: seq<Move>, k: nat)
    requires IsRun(states, moves) && k < |states|
    ensures SystemInv(states[k])
  {
    hide Handle;
    if k > 0 {
      RunKeepsInvariant(states, moves, k - 1);
      assert StepAt(states, moves, k - 1);
      StepKeepsInvariant(states[k - 1], moves[k - 1]);
    } else {
      forall id | id in states[0] ensures NodeOk(states[0], id) {}
    }
  }

  // ---------------------------------------------------------------------------------------------
  // The theorems
  // ---------------------------------------------------------------------------------------------

  /** At step `t` of the run, `owner` held the authoritative copy of `r` and its wire form was `wire`. */
  ghost predicate WasOwnerState(states: seq<System>, t: int, owner: Pid, r: RoomId, wire: Room) {
    0 <= t < |states| && owner in states[t] && r in states[t][owner].rooms && Wire(states[t][owner].rooms[r]) == wire
  }

  /** An entry of the log is either older or the owner's state of this very moment. */
  lemma {:induction false} EntryOldOrNow(s: System, m: Move, o: Pid, r: RoomId, j: nat)
    requires SystemInv(s) && Possible(s, m)
    requires var s' := Next(s, m); o in s' && r in s'[o].past && j < |s'[o].past[r]|
    ensures o in s
    ensures var n, n' := s[o], Next(s, m)[o];
            || (r in n.past && j < |n.past[r]| && n.past[r][j] == n'.past[r][j])
            || (r in n'.rooms && Wire(n'.rooms[r]) == n'.past[r][j])
  {
    hide Handle;
    if o == m.id { NodeAdvances(s, m); }
  }

  /** The log kept with an owned room is exactly made of states the owner really was in. */
  lemma {:induction false} HistoryIsReal(states: seq<System>, moves: seq<Move>, k: nat, o: Pid, r: RoomId, j: nat)
    returns (t: nat)
    requires IsRun(states, moves) && k < |states|
    requires o in states[k] && r in states[k][o].past && j < |states[k][o].past[r]|
    ensures t <= k && WasOwnerState(states, t, o, r, states[k][o].past[r][j])
  {
    hide Handle;
    t := k;
    if k > 0 && !WasOwnerState(states, k, o, r, states[k][o].past[r][j]) {
      RunKeepsInvariant(states, moves, k - 1);
      assert StepAt(states, moves, k - 1);
      EntryOldOrNow(states[k - 1], moves[k - 1], o, r, j);
      t := HistoryIsReal(states, moves, k - 1, o, r, j);
    }
  }

  /** Replication: in every run, whatever the links lose, repeat or reorder, every record a member
      keeps is either the stub of an invitation or, field by field, the room as its owner really
      had it at that moment or earlier, without the invitation ledger. */
  lemma {:induction false} CacheIsAPastOwnerState(states: seq<System>, moves: seq<Move>, k: nat, id: Pid, r: RoomId)
    requires IsRun(states, moves) && k < |states| && id in states[k] && r in states[k][id].cache
    ensures states[k][id].cache[r].owner != id
    ensures var c := states[k][id].cache[r];
            IsStub(r, c) || exists t :: t <= k && WasOwnerState(states, t, c.owner, r, c)
  {
    hide Handle;
    RunKeepsInvariant(states, moves, k);
    var c := states[k][id].cache[r];
    assert NodeOk(states[k], id) && Backed(states[k], id, r, c);
    if !IsStub(r, c) {
      var t := HistoryIsReal(states, moves, k, c.owner, r, c.seqNo - 1);
    }
  }

  lemma {:induction false} LogGrows(s: System, m: Move, o: Pid, r: RoomId)
    requires SystemInv(s) && Possible(s, m) && o in s && r in s[o].past
    ensures o in Next(s, m) && r in Next(s, m)[o].past && s[o].past[r] <= Next(s, m)[o].past[r]
  {
    hide Handle;
    if o == m.id { NodeAdvances(s, m); }
  }

  lemma {:induction false} HistoriesGrow(states: seq<System>, moves: seq<Move>, j: nat, k: nat, o: Pid, r: RoomId)
    requires IsRun(states, moves) && j <= k < |states| && o in states[j] && r in states[j][o].past
    ensures o in states[k] && r in states[k][o].past && states[j][o].past[r] <= states[k][o].past[r]
  {
    hide Handle;
    if j < k {
      HistoriesGrow(states, moves, j, k - 1, o, r);
      RunKeepsInvariant(states, moves, k - 1);
      assert StepAt(states, moves, k - 1);
      LogGrows(states[k - 1], moves[k - 1], o, r);
    }
  }

  /** Two states of an owned room with the same sequence number, at any two moments of a run, are
      the same on the wire. */
  lemma {:induction false} SequenceNumbersIdentifyStates(
      states: seq<System>, moves: seq<Move>, j: nat, k: nat, o: Pid, r: RoomId)
    requires IsRun(states, moves) && j <= k < |states|
    requires o in states[j] && r in states[j][o].rooms && o in states[k] && r in states[k][o].rooms
    ensures states[j][o].rooms[r].seqNo <= states[k][o].rooms[r].seqNo
    ensures states[j][o].rooms[r].seqNo == states[k][o].rooms[r].seqNo
            ==> Wire(states[j][o].rooms[r]) == Wire(states[k][o].rooms[r])
  {
    hide Handle;
    RunKeepsInvariant(states, moves, j);
    RunKeepsInvariant(states, moves, k);
    assert NodeOk(states[j], o) && NodeOk(states[k], o);
    HistoriesGrow(states, moves, j, k, o, r);
    assert Current(states[j][o].past[r], states[j][o].rooms[r]) && Current(states[k][o].past[r], states[k][o].rooms[r]);
  }

  /** Convergence: whatever happened before, the arrival of a snapshot of the owner's current state at
      a node that has a record of the room makes that record equal to the owner's room. */
  lemma {:induction false} CurrentSnapshotConverges(
      states: seq<System>, moves: seq<Move>, k: nat, id: Pid, p: Packet, env: Env)
    requires IsRun(states, moves) && k < |states|
    requires Possible(states[k], Move(id, Arrival(p), env))
    requires p.body.RoomState? && p.roomId != ""
    requires p.roomId in states[k][p.src].rooms && p.roomId in states[k][id].cache
    requires p.body.room.seqNo == states[k][p.src].rooms[p.roomId].seqNo
    ensures var s' := Next(states[k], Move(id, Arrival(p), env));
            p.roomId in s'[id].cache && s'[id].cache[p.roomId] == Wire(s'[p.src].rooms[p.roomId])
  {
    hide Obey;
    var s, r := states[k], p.roomId;
    RunKeepsInvariant(states, moves, k);
    assert NodeOk(s, p.src) && NodeOk(s, id);
    assert PacketOk(s[p.src], p) && Backed(s, id, r, s[id].cache[r]);
    assert Current(s[p.src].past[r], s[p.src].rooms[r]);
    assert s[id].cache[r].owner == p.src;
    assert p.src != id && r !in s[id].past;
  }

  /** The record of `r` at `id` is there from state `j` to state `k`. */
  ghost predicate Lives(states: seq<System>, id: Pid, r: RoomId, j: nat, k: nat) {
    forall i | j <= i <= k && i < |states| :: id in states[i] && r in states[i][id].cache
  }

  /** The peer owns the room and is at this sequence number. */
  ghost predicate OwnsAt(s: System, o: Pid, r: RoomId, seqNo: int) {
    o in s && r in s[o].rooms && s[o].rooms[r].seqNo == seqNo
  }

  lemma {:induction false} NeverOlder(states: seq<System>, moves: seq<Move>, id: Pid, r: RoomId, j: nat, k: nat)
    requires IsRun(states, moves) && j <= k < |states| && Lives(states, id, r, j, k)
    ensures states[j][id].cache[r].seqNo <= states[k][id].cache[r].seqNo
  {
    hide Handle;
    if j < k {
      NeverOlder(states, moves, id, r, j, k - 1);
      assert StepAt(states, moves, k - 1);
      if moves[k - 1].id == id { CacheLifetimeStep(states[k - 1][id], moves[k - 1].input, moves[k - 1].env, r); }
    }
  }

  /** A record that is not older than the owner's room is the owner's room. */
  lemma {:induction false} AsNewIsEqual(s: System, id: Pid, r: RoomId, o: Pid)
    requires SystemInv(s) && id in s && r in s[id].cache
    requires o in s && r in s[o].rooms && s[id].cache[r].seqNo >= s[o].rooms[r].seqNo
    ensures s[id].cache[r] == Wire(s[o].rooms[r])
  {
    var c := s[id].cache[r];
    assert NodeOk(s, id) && NodeOk(s, o) && Backed(s, id, r, c);
    assert Current(s[o].past[r], s[o].rooms[r]);
    assert c.owner == o;
  }

  /** Eventual consistency: once the snapshot of the owner's current state has arrived, the member's
      record equals the owner's room at every later moment until the owner changes it again, whatever
      late or repeated envelopes arrive meanwhile, as long as the record is kept. */
  lemma {:induction false} EqualUntilTheNextChange(
      states: seq<System>, moves: seq<Move>, j: nat, k: nat, id: Pid, p: Packet, env: Env)
    requires IsRun(states, moves) && j < k < |states| && moves[j] == Move(id, Arrival(p), env)
    requires p.body.RoomState? && p.roomId != "" && Lives(states, id, p.roomId, j, k)
    requires OwnsAt(states[j], p.src, p.roomId, p.body.room.seqNo)
    requires OwnsAt(states[k], p.src, p.roomId, p.body.room.seqNo)
    ensures states[k][id].cache[p.roomId] == Wire(states[k][p.src].rooms[p.roomId])
  {
    hide Handle;
    assert StepAt(states, moves, j);
    CurrentSnapshotConverges(states, moves, j, id, p, env);
    NeverOlder(states, moves, id, p.roomId, j + 1, k);
    RunKeepsInvariant(states, moves, k);
    AsNewIsEqual(states[k], id, p.roomId, p.src);
  }

  /** Every wire change of an owned room leaves, in the same step, as a snapshot to each member whose
      socket takes a write. */
  ghost predicate ChangeWasBroadcast(n: Node, n': Node, r: RoomId, up: set<Pid>) {
    r in n.rooms && r in n'.rooms && Wire(n.rooms[r]) != Wire(n'.rooms[r]) ==>
      forall m | m in n'.rooms[r].members && m != n.me && m != "" && m in up ::
        Envelope(n, m, r, RoomState(Wire(n'.rooms[r]))) in n'.sent
  }

  /** Our own record of the room is in order. */
  ghost predicate Ours(n: Node, r: RoomId) {
    (r in n.rooms ==> n.rooms[r].id == r && n.rooms[r].owner == n.me) && (r in n.cache ==> n.cache[r].owner != n.me)
  }

  lemma {:induction false} CommitBroadcasts(n: Node, q: RoomId, room: Room, r: RoomId, up: set<Pid>)
    requires q in n.rooms && room.id == q && room.owner == n.me
    ensures ChangeWasBroadcast(n, CommitAndBroadcast(n, q, room, up), r, up)
  {
    var n' := CommitAndBroadcast(n, q, room, up);
    if q == r {
      forall m | m in n'.rooms[r].members && m != n.me && m != "" && m in up
        ensures Envelope(n, m, r, RoomState(Wire(n'.rooms[r]))) in n'.sent
      {
        assert Envelope(n, m, r, RoomState(Wire(Bumped(room)))) in Snapshots(Commit(n, q, room), Bumped(room), up);
      }
    }
  }

  lemma {:induction false} RemoveBroadcasts(n: Node, q: RoomId, peer: Pid, r: RoomId, up: set<Pid>)
    requires q in n.rooms && Ours(n, q)
    ensures ChangeWasBroadcast(n, OwnerRemove(n, q, peer, up), r, up)
  {
    var n' := OwnerRemove(n, q, peer, up);
    if q == r && n' != n {
      forall m | m in n'.rooms[r].members && m != n.me && m != "" && m in up
        ensures Envelope(n, m, r, RoomState(Wire(n'.rooms[r]))) in n'.sent
      {
        assert Envelope(n, m, r, RoomState(Wire(n'.rooms[r]))) in Snapshots(n, n'.rooms[r], up);
      }
    }
  }

  lemma {:induction false} JoinBroadcasts(n: Node, p: Packet, r: RoomId, env: Env)
    requires p.body.RoomJoin? && Ours(n, p.roomId)
    ensures ChangeWasBroadcast(n, HandleRoomJoin(n, p, env), r, env.up)
  {
    var n' := HandleRoomJoin(n, p, env);
    if p.roomId == r && r in n.rooms && r in n'.rooms && Wire(n.rooms[r]) != Wire(n'.rooms[r]) {
      forall m | m in n'.rooms[r].members && m != n.me && m != "" && m in env.up
        ensures Envelope(n, m, r, RoomState(Wire(n'.rooms[r]))) in n'.sent
      {
        assert Envelope(n, m, r, RoomState(Wire(n'.rooms[r]))) in Snapshots(n, n'.rooms[r], env.up);
      }
    }
  }

  lemma {:induction false} EveryChangeIsBroadcast(n: Node, i: Input, env: Env, r: RoomId)
    requires OwnerInv(n) && Foreign(n)
    requires i.Local? && i.command.Create? ==> i.command.id !in n.past
    ensures ChangeWasBroadcast(n, Handle(n, i, env), r, env.up)
  {
    forall q ensures Ours(n, q) { if q in n.rooms { OwnedRoom(n, q); } }
    match i
    case Local(c) => CommandBroadcasts(n, c, env, r);
    case Arrival(packet) =>
      var p := Authored(packet);
      if Deliver(n, packet, env) == n { return; }
      match p.body {
        case RoomJoin(_) => JoinBroadcasts(n, p, r, env);
        case RoomLeave => RemoveBroadcasts(n, p.roomId, p.from, r, env.up);
        case RoomColorSet(token, hex) => ColorBroadcasts(n, p.roomId, p.from, Color(ShortToken(token), hex), r, env.up);
        case _ => QuietArrival(n, packet, env, r);
      }
  }

  lemma {:induction false} ColorBroadcasts(n: Node, q: RoomId, peer: Pid, color: Color, r: RoomId, up: set<Pid>)
    requires q in n.rooms && Ours(n, q) && peer in n.rooms[q].members
    ensures ChangeWasBroadcast(n, ApplyMemberColor(n, q, peer, color, up), r, up)
  {
    var room := n.rooms[q];
    CommitBroadcasts(n, q, room.(members := room.members[peer := room.members[peer].(color := color)]), r, up);
  }

  lemma {:induction false} QuietArrival(n: Node, packet: Packet, env: Env, r: RoomId)
    requires !packet.body.RoomLeave? && !packet.body.RoomJoin? && !packet.body.RoomColorSet?
    ensures ChangeWasBroadcast(n, Deliver(n, packet, env), r, env.up)
  {
    match packet.body
    case RoomState(_) =>
    case RoomInvite(_) =>
    case RoomStateReq =>
    case RoomFile(_, _) =>
    case RoomAdd(_) =>
    case RoomRemove =>
    case RoomText(_, _, _) =>
  }

  lemma {:induction false} OwnedChangeBroadcasts(n: Node, c: Command, env: Env, r: RoomId)
    requires (forall q :: Ours(n, q)) && (c.SetCanInvite? || c.ToggleColors?)
    ensures ChangeWasBroadcast(n, Obey(n, c, env), r, env.up)
  {
    hide CommitAndBroadcast;
    if c.r in n.rooms && Ours(n, c.r) {
      var room := n.rooms[c.r];
      match c
      case SetCanInvite(q, peer, allowed) =>
        if peer in room.members {
          var m := room.members[peer].(canInvite := allowed);
          CommitBroadcasts(n, q, room.(members := room.members[peer := m]), r, env.up);
        }
      case ToggleColors(q, enabled) => CommitBroadcasts(n, q, room.(colorsEnabled := enabled), r, env.up);
    }
  }

  lemma {:induction false} OwnColorBroadcasts(n: Node, c: Command, env: Env, r: RoomId)
    requires (forall q :: Ours(n, q)) && c.SetColor?
    ensures ChangeWasBroadcast(n, Obey(n, c, env), r, env.up)
  {
    hide ApplyMemberColor;
    var color := Color(ShortToken(if c.token == "" then "theme" else c.token), c.hex);
    if Knows(n, c.r) && Record(n, c.r).owner == n.me && Ours(n, c.r) && n.me in Record(n, c.r).members {
      ColorBroadcasts(n, c.r, n.me, color, r, env.up);
    }
  }

  lemma {:induction false} CommandBroadcasts(n: Node, c: Command, env: Env, r: RoomId)
    requires forall q :: Ours(n, q)
    requires c.Create? ==> c.id !in n.rooms
    ensures ChangeWasBroadcast(n, Obey(n, c, env), r, env.up)
  {
    if c.SetCanInvite? || c.ToggleColors? {
      OwnedChangeBroadcasts(n, c, env, r);
    } else if c.SetColor? {
      OwnColorBroadcasts(n, c, env, r);
    } else {
      hide OwnerRemove, MemberLeave;
      match c
      case Remove(q, peer) => if q in n.rooms && Ours(n, q) { RemoveBroadcasts(n, q, peer, r, env.up); }
      case Leave(q) => if Knows(n, q) && Ours(n, q) { LeaveChangesNoRoom(n, q, env); }
      case _ =>
        RestChangeNoWire(n, c, env);
        hide Obey;
    }
  }

  lemma {:induction false} LeaveChangesNoRoom(n: Node, q: RoomId, env: Env)
    requires Knows(n, q) && Ours(n, q)
    ensures forall r | r in MemberLeave(n, q, env).rooms ::
              r in n.rooms && MemberLeave(n, q, env).rooms[r] == n.rooms[r]
  {
  }

  lemma {:induction false} InvitesChangeNoWire(n: Node, c: Command, env: Env)
    requires c.Invite? || c.Add?
    ensures forall r | r in n.rooms && r in Obey(n, c, env).rooms :: Wire(Obey(n, c, env).rooms[r]) == Wire(n.rooms[r])
  {
    if c.r in n.rooms { InviteChangesNoWire(n, c.r, c.peer, env); }
    hide OwnerInvite;
  }

  lemma {:induction false} InviteChangesNoWire(n: Node, q: RoomId, peer: Pid, env: Env)
    requires q in n.rooms
    ensures forall r | r in n.rooms ::
              var n' := OwnerInvite(n, q, peer, env); r in n'.rooms && Wire(n'.rooms[r]) == Wire(n.rooms[r])
  {
  }

  lemma {:induction false} RestChangeNoWire(n: Node, c: Command, env: Env)
    requires !c.SetCanInvite? && !c.SetColor? && !c.ToggleColors? && !c.Remove? && !c.Leave?
    requires c.Create? ==> c.id !in n.rooms
    ensures forall r | r in n.rooms && r in Obey(n, c, env).rooms :: Wire(Obey(n, c, env).rooms[r]) == Wire(n.rooms[r])
  {
    match c
    case Create(_, _, _) =>
    case Join(_, _) =>
    case Forget(_) =>
    case PostFile(_, _) =>
    case SendText(_, _) =>
    case Sync =>
    case AcceptFriend(_) =>
    case DiscardHeld(_) =>
    case _ => InvitesChangeNoWire(n, c, env);
  }
}
