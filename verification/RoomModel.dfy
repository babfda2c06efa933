/** Group rooms: the data a daemon keeps about rooms, the envelopes daemons exchange, and what
    every command and every received envelope does to a daemon, as functions from node to node.
    RoomNode.RoomDaemon is the daemon itself, proved to follow these functions step by step. */
module RoomModel {

  type Pid = string
  type RoomId = string

  const COLOR_TOKEN_MAX := 32

  datatype Color = Color(token: string, hex: string)
  datatype Member = Member(name: string, canInvite: bool, color: Color)

  const THEME_COLOR := Color("theme", "")

  /** One room record. The owner's copy carries the invitation ledger `invited`; the copies that
      travel and the copies members keep never do. */
  datatype Room = Room(
    id: RoomId, name: string, owner: Pid, seqNo: int, colorsEnabled: bool,
    members: map<Pid, Member>, invited: map<Pid, int>)

  /** The part of a room that goes on the wire: everything but the invitation ledger. */
  function Wire(room: Room): Room { room.(invited := map[]) }

  datatype Body =
    | RoomState(room: Room)
    | RoomInvite(name: string)
    | RoomStateReq
    | RoomFile(att: string, direct: bool)
    | RoomLeave
    | RoomJoin(fromName: string)
    | RoomAdd(peer: Pid)
    | RoomColorSet(token: string, hex: string)
    | RoomRemove
    | RoomText(text: string, friendRequest: bool, hasFile: bool)

  /** A room file travels in a room envelope or, when `direct`, in an envelope of its own type.
      Daemons send the former; both are received. `src` is the identity the connection proved
      (`verified`), `from` what the envelope claims. */
  datatype Packet = Packet(src: Pid, dst: Pid, from: Pid, roomId: RoomId, body: Body)

  /** A room message shown and stored by a node. */
  datatype Bubble = Bubble(roomId: RoomId, author: Pid)

  /** What happens to an owner's invitation ledger and roster, in order. */
  datatype Event =
    | Invited(roomId: RoomId, peer: Pid)
    | Joined(roomId: RoomId, peer: Pid, entered: bool)
    | Removed(roomId: RoomId, peer: Pid)

  /** One daemon. `rooms` are the rooms it owns, `cache` its last-known copies of other rooms,
      `held` the room texts that arrived inside a friend request and wait for the local accept.
      `sent`, `past` and `trail` are histories: every packet ever handed to a connection, every
      wire state each owned room went through, and every ledger or roster event. */
  datatype Node = Node(
    me: Pid,
    rooms: map<RoomId, Room>,
    cache: map<RoomId, Room>,
    shown: seq<Bubble>,
    held: seq<Bubble>,
    sent: set<Packet>,
    past: map<RoomId, seq<Room>>,
    trail: seq<Event>)

  function Boot(me: Pid): Node { Node(me, map[], map[], [], [], {}, map[], []) }

  /** What a handler reads from the rest of the daemon: which peers' sockets take a write now,
      who is trusted, who is a confirmed friend, the clock, and whether a friend request is
      accepted at all, completes one of ours, and fits the hold queue. */
  datatype Env = Env(
    up: set<Pid>, trusted: set<Pid>, friends: set<Pid>, now: int,
    acceptRequests: bool, mutual: bool, holdFits: bool)

  // ---------------------------------------------------------------------------------------------
  // Records
  // ---------------------------------------------------------------------------------------------

  /** Is there a local record of the room: the authoritative one, else the cached one. */
  predicate Knows(n: Node, r: RoomId) { r in n.rooms || r in n.cache }

  function Record(n: Node, r: RoomId): Room
    requires Knows(n, r)
  {
    if r in n.rooms then n.rooms[r] else n.cache[r]
  }

  /** Changing a record in place changes whichever copy `Record` found. */
  function PutRecord(n: Node, r: RoomId, room: Room): Node
    requires Knows(n, r)
  {
    if r in n.rooms then n.(rooms := n.rooms[r := room]) else n.(cache := n.cache[r := room])
  }

  function Bumped(room: Room): Room { room.(seqNo := room.seqNo + 1) }

  /** A change that bumps the sequence number; owned rooms log their new wire state. */
  function Commit(n: Node, r: RoomId, room: Room): Node
    requires Knows(n, r)
  {
    var n' := PutRecord(n, r, Bumped(room));
    if r in n.rooms then n'.(past := LogState(n.past, r, Wire(Bumped(room)))) else n'
  }

  function LogState(past: map<RoomId, seq<Room>>, r: RoomId, wire: Room): map<RoomId, seq<Room>> {
    past[r := (if r in past then past[r] else []) + [wire]]
  }

  function DropCache(n: Node, r: RoomId): Node { n.(cache := n.cache - {r}) }

  // ---------------------------------------------------------------------------------------------
  // Writing to sockets
  // ---------------------------------------------------------------------------------------------

  /** There is never a connection to oneself. */
  predicate Reaches(n: Node, pid: Pid, up: set<Pid>) { pid in up && pid != n.me }

  function Post(n: Node, p: Packet, up: set<Pid>): Node {
    if Reaches(n, p.dst, up) then n.(sent := n.sent + {p}) else n
  }

  function Envelope(n: Node, dst: Pid, r: RoomId, body: Body): Packet { Packet(n.me, dst, n.me, r, body) }

  /** The snapshots that leave when `room` is broadcast to its members. */
  function Snapshots(n: Node, room: Room, up: set<Pid>): set<Packet> {
    set m | m in room.members && m != room.owner && m != "" && Reaches(n, m, up)
      :: Envelope(n, m, room.id, RoomState(Wire(room)))
  }

  function Broadcast(n: Node, room: Room, up: set<Pid>): Node {
    n.(sent := n.sent + Snapshots(n, room, up))
  }

  /** Commit a change to a record, then send it to every member. */
  function CommitAndBroadcast(n: Node, r: RoomId, room: Room, up: set<Pid>): Node
    requires Knows(n, r)
  {
    Broadcast(Commit(n, r, room), Bumped(room), up)
  }

  function Show(n: Node, r: RoomId, author: Pid): Node { n.(shown := n.shown + [Bubble(r, author)]) }

  function Note(n: Node, e: Event): Node { n.(trail := n.trail + [e]) }

  // ---------------------------------------------------------------------------------------------
  // The owner's operations
  // ---------------------------------------------------------------------------------------------

  function NewRoom(id: RoomId, name: string, owner: Pid, ownerName: string): Room {
    Room(id, name, owner, 1, true, map[owner := Member(ownerName, true, THEME_COLOR)], map[])
  }

  function CreateRoom(n: Node, id: RoomId, name: string, ownerName: string): Node {
    var room := NewRoom(id, name, n.me, ownerName);
    n.(rooms := n.rooms[id := room], past := LogState(n.past, id, room))
  }

  /** The ticket is recorded only when the invitation was handed to a live socket. */
  function OwnerInvite(n: Node, r: RoomId, peer: Pid, env: Env): Node
    requires Knows(n, r)
  {
    if !Reaches(n, peer, env.up) then n else
    var room := Record(n, r);
    var n1 := Post(n, Envelope(n, peer, r, RoomInvite(room.name)), env.up);
    var n2 := PutRecord(n1, r, room.(invited := room.invited[peer := env.now]));
    Note(n2, Invited(r, peer))
  }

  /** Admission of a peer whose ticket (if any) has just been consumed. */
  function OwnerAdmit(n: Node, r: RoomId, peer: Pid, name: string, up: set<Pid>): Node
    requires r in n.rooms
  {
    var room := n.rooms[r];
    if peer in room.members then Broadcast(n, room, up)
    else
      CommitAndBroadcast(n, r, room.(members := room.members[peer := Member(name, false, THEME_COLOR)]), up)
  }

  function OwnerRemove(n: Node, r: RoomId, peer: Pid, up: set<Pid>): Node
    requires r in n.rooms
  {
    var room := n.rooms[r];
    if peer == room.owner || peer !in room.members then n else
    var room' := room.(members := room.members - {peer}, invited := room.invited - {peer});
    var n1 := Note(Commit(n, r, room'), Removed(r, peer));
    var n2 := Post(n1, Envelope(n, peer, r, RoomRemove), up);
    Broadcast(n2, Bumped(room'), up)
  }

  function OwnerSetCanInvite(n: Node, r: RoomId, peer: Pid, allowed: bool, up: set<Pid>): Node
    requires r in n.rooms
  {
    var room := n.rooms[r];
    if peer == room.owner || peer !in room.members then n else
    var m := room.members[peer].(canInvite := allowed);
    CommitAndBroadcast(n, r, room.(members := room.members[peer := m]), up)
  }

  function OwnerToggleColors(n: Node, r: RoomId, enabled: bool, up: set<Pid>): Node
    requires r in n.rooms
  {
    CommitAndBroadcast(n, r, n.rooms[r].(colorsEnabled := enabled), up)
  }

  function ApplyMemberColor(n: Node, r: RoomId, peer: Pid, color: Color, up: set<Pid>): Node
    requires Knows(n, r) && peer in Record(n, r).members
  {
    var room := Record(n, r);
    var m := room.members[peer].(color := color);
    CommitAndBroadcast(n, r, room.(members := room.members[peer := m]), up)
  }

  // ---------------------------------------------------------------------------------------------
  // The member's operations
  // ---------------------------------------------------------------------------------------------

  function ShortToken(token: string): string {
    if |token| > COLOR_TOKEN_MAX then token[..COLOR_TOKEN_MAX] else token
  }

  predicate ValidColor(color: Color) {
    color.token == "theme" || (color.hex != "" && color.hex[0] == '#' && |color.hex| in {4, 7})
  }

  function MemberSetColor(n: Node, r: RoomId, token: string, hex: string, up: set<Pid>): Node
    requires Knows(n, r)
  {
    var room := Record(n, r);
    var color := Color(ShortToken(if token == "" then "theme" else token), hex);
    if n.me !in room.members || !ValidColor(color) then n
    else if room.owner == n.me then ApplyMemberColor(n, r, n.me, color, up)
    else Post(n, Envelope(n, room.owner, r, RoomColorSet(color.token, color.hex)), up)
  }

  /** Leaving. The owner disbands the room. A member tells the owner and then drops its copy; an
      owner who is no longer trusted can never be told, so the copy is just dropped; an owner who
      is trusted but unreachable freezes the leave. */
  function MemberLeave(n: Node, r: RoomId, env: Env): Node
    requires Knows(n, r)
  {
    var room := Record(n, r);
    if n.me !in room.members then n
    else if room.owner != n.me && room.owner !in env.trusted then DropCache(n, r)
    else if room.owner != n.me && !Reaches(n, room.owner, env.up) then n
    else
      var n1 := if room.owner == n.me then n
                else Post(n, Envelope(n, room.owner, r, RoomLeave), env.up);
      var left := Bumped(room.(members := room.members - {n.me}));
      var n2 := PutRecord(n1, r, left);
      if room.owner == n.me || left.members == map[] then
        var n3 := n2.(rooms := n2.rooms - {r});
        n3.(sent := n3.sent + Farewells(n3, r, left.members.Keys, env.up))
      else
        DropCache(n2, r)
  }

  /** The notices that leave when a room is disbanded. */
  function Farewells(n: Node, r: RoomId, members: set<Pid>, up: set<Pid>): set<Packet> {
    set m | m in members && Reaches(n, m, up) :: Envelope(n, m, r, RoomRemove)
  }

  /** Dropping an orphaned record: refused while we own the room or are on its roster. */
  function ForgetRoom(n: Node, r: RoomId): Node {
    if r !in n.cache || r in n.rooms || n.me in n.cache[r].members || n.cache[r].owner == n.me then n
    else DropCache(n, r)
  }

  // ---------------------------------------------------------------------------------------------
  // Room files and room texts
  // ---------------------------------------------------------------------------------------------

  function FileCopies(n: Node, room: Room, author: Pid, att: string, up: set<Pid>): set<Packet> {
    set m | m in room.members && Reaches(n, m, up) :: Packet(n.me, m, author, room.id, RoomFile(att, false))
  }

  function FanOutRoomFile(n: Node, r: RoomId, author: Pid, att: string, up: set<Pid>): Node
    requires Knows(n, r)
  {
    var n1 := n.(sent := n.sent + FileCopies(n, Record(n, r), author, att, up));
    Show(n1, r, author)
  }

  function PostRoomFile(n: Node, r: RoomId, att: string, up: set<Pid>): Node {
    if !Knows(n, r) then n
    else if Record(n, r).owner == n.me then FanOutRoomFile(n, r, n.me, att, up)
    else if !Reaches(n, Record(n, r).owner, up) then n
    else Show(Post(n, Envelope(n, Record(n, r).owner, r, RoomFile(att, false)), up), r, n.me)
  }

  /** The white space of Unicode, as the code strips it. */
  predicate IsSpace(c: char) {
    var n := c as int;
    || 0x09 <= n <= 0x0D || 0x1C <= n <= 0x20 || n == 0x85 || n == 0xA0 || n == 0x1680
    || 0x2000 <= n <= 0x200A || n == 0x2028 || n == 0x2029 || n == 0x202F || n == 0x205F || n == 0x3000
  }

  predicate IsBlank(s: string) { forall i | 0 <= i < |s| :: IsSpace(s[i]) }

  /** Texts are holdable, so a copy for a peer who is down still leaves sooner or later. */
  function TextCopies(n: Node, room: Room, text: string): set<Packet> {
    set m | m in room.members && m != n.me :: Envelope(n, m, room.id, RoomText(text, false, false))
  }

  function SendRoomText(n: Node, r: RoomId, text: string): Node {
    if !Knows(n, r) || IsBlank(text) then n
    else Show(n.(sent := n.sent + TextCopies(n, Record(n, r), text)), r, n.me)
  }

  // ---------------------------------------------------------------------------------------------
  // Received envelopes
  // ---------------------------------------------------------------------------------------------

  function HandleRoomState(n: Node, p: Packet): Node
    requires p.body.RoomState?
  {
    var r, room := p.roomId, p.body.room;
    if room.id != r || !Knows(n, r) || Record(n, r).owner != p.src || r in n.rooms then n
    else if n.cache[r].seqNo > room.seqNo then n
    else n.(cache := n.cache[r := room])
  }

  function Stub(r: RoomId, name: string, owner: Pid): Room { Room(r, name, owner, 0, true, map[], map[]) }

  function HandleRoomInvite(n: Node, p: Packet): Node
    requires p.body.RoomInvite?
  {
    if Knows(n, p.roomId) then n
    else n.(cache := n.cache[p.roomId := Stub(p.roomId, p.body.name, p.from)])
  }

  function HandleRoomStateReq(n: Node, p: Packet, up: set<Pid>): Node {
    if p.roomId in n.rooms && n.rooms[p.roomId].owner == n.me && p.from in n.rooms[p.roomId].members
       && p.from != ""
    then Post(n, Envelope(n, p.from, p.roomId, RoomState(Wire(n.rooms[p.roomId]))), up)
    else n
  }

  /** The gate on a relayed or direct room file at a member. */
  predicate FileAllowed(n: Node, p: Packet) {
    && Knows(n, p.roomId)
    && p.src in Record(n, p.roomId).members
    && (p.from == "" || p.from in Record(n, p.roomId).members)
    && (p.from == "" || p.from == p.src || Record(n, p.roomId).owner == p.src)
  }

  function HandleRoomFileMsg(n: Node, p: Packet): Node
    requires p.body.RoomFile?
  {
    if FileAllowed(n, p) then Show(n, p.roomId, p.from) else n
  }

  function HandleRoomFile(n: Node, p: Packet, up: set<Pid>): Node
    requires p.body.RoomFile?
  {
    if !Knows(n, p.roomId) || p.src !in Record(n, p.roomId).members then n
    else if p.roomId in n.rooms && n.rooms[p.roomId].owner == n.me then
      FanOutRoomFile(n, p.roomId, p.from, p.body.att, up)
    else HandleRoomFileMsg(n, p)
  }

  /** Only the owner decides on a join: a member re-syncs, a holder of a current ticket enters,
      anybody else is refused; either way the ticket is used up. */
  function HandleRoomJoin(n: Node, p: Packet, env: Env): Node
    requires p.body.RoomJoin?
  {
    var r := p.roomId;
    if r !in n.rooms || n.rooms[r].owner != n.me || p.from !in env.trusted then n else
    var room := n.rooms[r];
    if p.from !in room.members && p.from !in room.invited then n else
    var n1 := n.(rooms := n.rooms[r := room.(invited := room.invited - {p.from})]);
    var n2 := Note(n1, Joined(r, p.from, p.from !in room.members));
    OwnerAdmit(n2, r, p.from, p.body.fromName, env.up)
  }

  function HandleRoomAdd(n: Node, p: Packet, env: Env): Node
    requires p.body.RoomAdd?
  {
    var r := p.roomId;
    if r !in n.rooms || n.rooms[r].owner != n.me then n else
    var members := n.rooms[r].members;
    if p.from !in members || !members[p.from].canInvite || p.body.peer == "" || p.body.peer !in env.trusted
    then n else OwnerInvite(n, r, p.body.peer, env)
  }

  function HandleRoomColorSet(n: Node, p: Packet, up: set<Pid>): Node
    requires p.body.RoomColorSet?
  {
    var r := p.roomId;
    var color := Color(ShortToken(p.body.token), p.body.hex);
    if !Knows(n, r) || Record(n, r).owner != n.me || p.from !in Record(n, r).members || !ValidColor(color)
    then n else ApplyMemberColor(n, r, p.from, color, up)
  }

  /** Only the recorded owner may drop our copy. */
  function HandleRoomRemove(n: Node, p: Packet): Node {
    if Knows(n, p.roomId) && Record(n, p.roomId).owner == p.src then DropCache(n, p.roomId) else n
  }

  /** A chat message that names a room. One that arrives as a friend request from somebody who is
      not a confirmed friend is held back, roster checked now, and shown when we accept. */
  function HandleRoomText(n: Node, p: Packet, env: Env): Node
    requires p.body.RoomText?
  {
    var r := p.roomId;
    if (!p.body.friendRequest && p.src !in env.trusted) || (IsBlank(p.body.text) && !p.body.hasFile) then n
    else if !Knows(n, r) || p.src !in Record(n, r).members then n
    else if !p.body.friendRequest || p.src in env.friends then Show(n, r, p.src)
    else if !env.acceptRequests || env.mutual || !env.holdFits then n
    else n.(held := n.held + [Bubble(r, p.src)])
  }

  function HandleLeave(n: Node, p: Packet, up: set<Pid>): Node {
    if p.roomId in n.rooms && n.rooms[p.roomId].owner == n.me then OwnerRemove(n, p.roomId, p.from, up) else n
  }

  /** An envelope that names no author is its connection's own. */
  function Authored(p: Packet): Packet { if p.from == "" then p.(from := p.src) else p }

  /** Dispatch. An envelope must be authored by the connection it came on, except a room file
      relayed by the room's recorded owner. A direct room file meets only the member's gate, which
      makes the same exception. */
  function Deliver(n: Node, packet: Packet, env: Env): Node {
    var p := Authored(packet);
    var relayed := p.body.RoomFile? && Knows(n, p.roomId) && Record(n, p.roomId).owner == p.src;
    if p.body.RoomFile? && p.body.direct then HandleRoomFileMsg(n, p)
    else if p.roomId == "" || (p.from != p.src && !relayed) then n
    else
      match p.body
      case RoomState(_) => HandleRoomState(n, p)
      case RoomInvite(_) => HandleRoomInvite(n, p)
      case RoomStateReq => HandleRoomStateReq(n, p, env.up)
      case RoomFile(_, _) => HandleRoomFile(n, p, env.up)
      case RoomLeave => HandleLeave(n, p, env.up)
      case RoomJoin(_) => HandleRoomJoin(n, p, env)
      case RoomAdd(_) => HandleRoomAdd(n, p, env)
      case RoomColorSet(_, _) => HandleRoomColorSet(n, p, env.up)
      case RoomRemove => HandleRoomRemove(n, p)
      case RoomText(_, _, _) => HandleRoomText(n, p, env)
  }

  // ---------------------------------------------------------------------------------------------
  // Local commands
  // ---------------------------------------------------------------------------------------------

  /** `DiscardHeld` is our rejection of a friend request, or a verified withdrawal of it. */
  datatype Command =
    | Create(id: RoomId, name: string, ownerName: string)
    | Invite(r: RoomId, peer: Pid)
    | Add(r: RoomId, peer: Pid)
    | Join(r: RoomId, myName: string)
    | Leave(r: RoomId)
    | Remove(r: RoomId, peer: Pid)
    | Forget(r: RoomId)
    | SetCanInvite(r: RoomId, peer: Pid, allowed: bool)
    | SetColor(r: RoomId, token: string, hex: string)
    | ToggleColors(r: RoomId, enabled: bool)
    | PostFile(r: RoomId, att: string)
    | SendText(r: RoomId, text: string)
    | Sync
    | AcceptFriend(peer: Pid)
    | DiscardHeld(peer: Pid)

  function AddPeer(n: Node, r: RoomId, peer: Pid, env: Env): Node
    requires Knows(n, r)
  {
    var room := Record(n, r);
    if room.owner == n.me then
      if peer !in env.trusted then n else OwnerInvite(n, r, peer, env)
    else if n.me !in room.members || !room.members[n.me].canInvite then n
    else Post(n, Envelope(n, room.owner, r, RoomAdd(peer)), env.up)
  }

  /** The re-sync requests for every room owned elsewhere. */
  function SyncRequests(n: Node, up: set<Pid>): set<Packet> {
    set r | r in n.cache && r !in n.rooms && n.cache[r].owner != "" && Reaches(n, n.cache[r].owner, up)
      :: Envelope(n, n.cache[r].owner, r, RoomStateReq)
  }

  function HeldFrom(held: seq<Bubble>, peer: Pid): (own: seq<Bubble>)
    ensures forall b | b in own :: b in held && b.author == peer
  {
    if held == [] then []
    else (if held[0].author == peer then [held[0]] else []) + HeldFrom(held[1..], peer)
  }

  function HeldFromOthers(held: seq<Bubble>, peer: Pid): (others: seq<Bubble>)
    ensures forall b | b in others :: b in held && b.author != peer
  {
    if held == [] then []
    else (if held[0].author == peer then [] else [held[0]]) + HeldFromOthers(held[1..], peer)
  }

  function Obey(n: Node, c: Command, env: Env): Node {
    match c
    case Create(id, name, ownerName) => CreateRoom(n, id, name, ownerName)
    case Invite(r, peer) =>
      if !Knows(n, r) || Record(n, r).owner != n.me then n else OwnerInvite(n, r, peer, env)
    case Add(r, peer) => if !Knows(n, r) then n else AddPeer(n, r, peer, env)
    case Join(r, myName) =>
      if r !in n.cache then n else Post(n, Envelope(n, n.cache[r].owner, r, RoomJoin(myName)), env.up)
    case Leave(r) => if !Knows(n, r) then n else MemberLeave(n, r, env)
    case Remove(r, peer) =>
      if r !in n.rooms || n.rooms[r].owner != n.me then n else OwnerRemove(n, r, peer, env.up)
    case Forget(r) => ForgetRoom(n, r)
    case SetCanInvite(r, peer, allowed) =>
      if r !in n.rooms || n.rooms[r].owner != n.me then n
      else OwnerSetCanInvite(n, r, peer, allowed, env.up)
    case SetColor(r, token, hex) => if !Knows(n, r) then n else MemberSetColor(n, r, token, hex, env.up)
    case ToggleColors(r, enabled) =>
      if r !in n.rooms || n.rooms[r].owner != n.me then n else OwnerToggleColors(n, r, enabled, env.up)
    case PostFile(r, att) => PostRoomFile(n, r, att, env.up)
    case SendText(r, text) => SendRoomText(n, r, text)
    case Sync => n.(sent := n.sent + SyncRequests(n, env.up))
    case AcceptFriend(peer) =>
      n.(shown := n.shown + HeldFrom(n.held, peer), held := HeldFromOthers(n.held, peer))
    case DiscardHeld(peer) => n.(held := HeldFromOthers(n.held, peer))
  }

  datatype Input = Local(command: Command) | Arrival(packet: Packet)

  function Handle(n: Node, i: Input, env: Env): Node {
    match i
    case Local(c) => Obey(n, c, env)
    case Arrival(p) => Deliver(n, p, env)
  }
}
