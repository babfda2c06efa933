/** What a daemon makes of what reaches it: exactly which messages every step shows or holds back, and
    what becomes of its copy of somebody else's room. */
module RoomInbox {
  import opened RoomModel
  import opened RoomSystem
  import opened RoomGate
  import opened RoomRoster
  import opened RoomTraffic

  // ---------------------------------------------------------------------------------------------
  // Messages
  // ---------------------------------------------------------------------------------------------

  /** A text of a peer on our record that says something or comes with a file. */
  predicate IsRoomText(n: Node, i: Input, b: Bubble) {
    && By(i, b.roomId, b.author) && i.packet.body.RoomText? && (Says(i.packet.body.text) || i.packet.body.hasFile)
    && Listed(n, b.roomId, b.author)
  }

  /** It is shown at once if its author is trusted, or asks to be a friend and is one. */
  predicate ShowsText(n: Node, i: Input, env: Env, b: Bubble) {
    && IsRoomText(n, i, b)
    && if i.packet.body.friendRequest then b.author in env.friends else b.author in env.trusted
  }

  /** It waits for our answer if its author asks to be a friend and there is room. */
  predicate HoldsText(n: Node, i: Input, env: Env, b: Bubble) {
    && IsRoomText(n, i, b) && i.packet.body.friendRequest && b.author !in env.friends
    && env.acceptRequests && !env.mutual && env.holdFits
  }

  /** A file is shown if writer and author are on our record and one person, unless the owner relays. */
  predicate ShowsFile(n: Node, i: Input, b: Bubble) {
    && i.Arrival? && i.packet.body.RoomFile? && b.roomId == i.packet.roomId
    && b.author == Authored(i.packet).from && (b.roomId != "" || i.packet.body.direct)
    && Listed(n, b.roomId, i.packet.src) && Listed(n, b.roomId, b.author)
    && (b.author == i.packet.src || OwnerIs(n, b.roomId, i.packet.src))
  }

  /** A message of our own that leaves. */
  predicate ShowsOwn(n: Node, i: Input, env: Env, b: Bubble) {
    && i.Local? && b.author == n.me && Knows(n, b.roomId)
    && match i.command
       case SendText(r, text) => r == b.roomId && Says(text)
       case PostFile(r, _) => r == b.roomId && (Record(n, r).owner == n.me || Reaches(n, Record(n, r).owner, env.up))
       case _ => false
  }

  predicate Shows(n: Node, i: Input, env: Env, b: Bubble) {
    ShowsText(n, i, env, b) || ShowsFile(n, i, b) || ShowsOwn(n, i, env, b)
  }

  /** The list is as before, or one bubble longer; longer by this one exactly if it should be. */
  ghost predicate Grows(before: seq<Bubble>, after: seq<Bubble>, b: Bubble, should: bool) {
    before <= after && |after| <= |before| + 1 && (after == before + [b] <==> should)
  }

  ghost predicate BoxesGrow(n: Node, i: Input, env: Env, n': Node, b: Bubble) {
    Grows(n.shown, n'.shown, b, Shows(n, i, env, b)) && Grows(n.held, n'.held, b, HoldsText(n, i, env, b))
  }

  lemma {:induction false} SameOrOneMore(before: seq<Bubble>, b: Bubble, c: Bubble)
    ensures before != before + [b] && (before + [b] == before + [c] <==> b == c)
  {
    assert (before + [b])[|before|] == b;
  }

  lemma {:induction false} TextBoxes(n: Node, packet: Packet, env: Env, b: Bubble)
    requires packet.body.RoomText? && packet.src != n.me
    ensures BoxesGrow(n, Arrival(packet), env, Deliver(n, packet, env), b)
  {
    SaysOrIsBlank(packet.body.text);
    hide IsBlank, Says;
    SameOrOneMore(n.shown, b, Bubble(packet.roomId, packet.src));
    SameOrOneMore(n.held, b, Bubble(packet.roomId, packet.src));
  }

  lemma {:induction false} FileBoxes(n: Node, packet: Packet, env: Env, b: Bubble)
    requires packet.body.RoomFile? && packet.src != n.me && packet.src != ""
    ensures BoxesGrow(n, Arrival(packet), env, Deliver(n, packet, env), b)
  {
    hide FileCopies;
    SameOrOneMore(n.shown, b, Bubble(packet.roomId, Authored(packet).from));
    assert n.held != n.held + [b] by { SameOrOneMore(n.held, b, b); }
  }

  lemma {:induction false} OwnBoxes(n: Node, c: Command, env: Env, b: Bubble)
    requires c.SendText? || c.PostFile?
    ensures BoxesGrow(n, Local(c), env, Obey(n, c, env), b)
  {
    hide FileCopies, TextCopies;
    if c.SendText? { SaysOrIsBlank(c.text); }
    hide IsBlank, Says;
    SameOrOneMore(n.shown, b, Bubble(c.r, n.me));
    SameOrOneMore(n.held, b, b);
  }

  lemma {:induction false} SilentStep(n: Node, i: Input, env: Env, n': Node, b: Bubble)
    requires n'.shown == n.shown && n'.held == n.held
    requires if i.Local? then !i.command.SendText? && !i.command.PostFile?
             else !i.packet.body.RoomText? && !i.packet.body.RoomFile?
    ensures BoxesGrow(n, i, env, n', b)
  {
    SameOrOneMore(n.shown, b, b);
    SameOrOneMore(n.held, b, b);
  }

  ghost predicate SameBoxes(n: Node, n': Node) { n'.shown == n.shown && n'.held == n.held }

  lemma {:induction false} RosterKeepsBoxes(n: Node, r: RoomId, peer: Pid, color: Color, env: Env)
    requires Knows(n, r)
    ensures SameBoxes(n, OwnerInvite(n, r, peer, env)) && SameBoxes(n, MemberLeave(n, r, env))
    ensures r in n.rooms ==> SameBoxes(n, OwnerRemove(n, r, peer, env.up))
    ensures peer in Record(n, r).members ==> SameBoxes(n, ApplyMemberColor(n, r, peer, color, env.up))
  {
    hide Snapshots, Farewells, LogState;
  }

  lemma {:induction false} JoinKeepsBoxes(n: Node, p: Packet, env: Env)
    requires p.body.RoomJoin?
    ensures SameBoxes(n, HandleRoomJoin(n, p, env))
  {
    hide Snapshots, LogState;
  }

  lemma {:induction false} OtherArrivalBoxes(n: Node, packet: Packet, env: Env)
    requires !packet.body.RoomText? && !packet.body.RoomFile?
    ensures SameBoxes(n, Deliver(n, packet, env))
  {
    hide OwnerInvite, OwnerRemove, ApplyMemberColor, HandleRoomJoin;
    var p := Authored(packet);
    if Deliver(n, packet, env) == n { return; }
    match p.body
    case RoomJoin(_) => JoinKeepsBoxes(n, p, env);
    case RoomLeave => RosterKeepsBoxes(n, p.roomId, p.from, THEME_COLOR, env);
    case RoomAdd(peer) => RosterKeepsBoxes(n, p.roomId, peer, THEME_COLOR, env);
    case RoomColorSet(token, hex) => RosterKeepsBoxes(n, p.roomId, p.from, Color(ShortToken(token), hex), env);
    case _ =>
  }

  lemma {:induction false} OtherCommandBoxes(n: Node, c: Command, env: Env)
    requires !c.SendText? && !c.PostFile? && !c.AcceptFriend? && !c.DiscardHeld?
    ensures SameBoxes(n, Obey(n, c, env))
  {
    hide OwnerInvite, OwnerRemove, ApplyMemberColor, MemberLeave, Snapshots;
    if Obey(n, c, env) == n { return; }
    match c
    case Invite(r, peer) => RosterKeepsBoxes(n, r, peer, THEME_COLOR, env);
    case Add(r, peer) => RosterKeepsBoxes(n, r, peer, THEME_COLOR, env);
    case Leave(r) => RosterKeepsBoxes(n, r, n.me, THEME_COLOR, env);
    case Remove(r, peer) => RosterKeepsBoxes(n, r, peer, THEME_COLOR, env);
    case SetColor(r, token, hex) =>
      RosterKeepsBoxes(n, r, n.me, Color(ShortToken(if token == "" then "theme" else token), hex), env);
    case _ =>
  }

  /** Every step but our answer to a friend request shows and holds back exactly what it should: nobody's
      message is dropped that passes the gate, and none shown or held that does not. */
  lemma {:induction false} StepBoxes(n: Node, i: Input, env: Env, b: Bubble)
    requires if i.Arrival? then i.packet.src != n.me && i.packet.src != ""
             else !i.command.AcceptFriend? && !i.command.DiscardHeld?
    ensures BoxesGrow(n, i, env, Handle(n, i, env), b)
  {
    hide Obey, Deliver, BoxesGrow;
    match i
    case Local(c) =>
      if c.SendText? || c.PostFile? {
        OwnBoxes(n, c, env, b);
      } else {
        OtherCommandBoxes(n, c, env);
        SilentStep(n, i, env, Obey(n, c, env), b);
      }
    case Arrival(p) =>
      if p.body.RoomText? {
        TextBoxes(n, p, env, b);
      } else if p.body.RoomFile? {
        FileBoxes(n, p, env, b);
      } else {
        OtherArrivalBoxes(n, p, env);
        SilentStep(n, i, env, Deliver(n, p, env), b);
      }
  }

  // ---------------------------------------------------------------------------------------------
  // What waits for our answer
  // ---------------------------------------------------------------------------------------------

  predicate Answers(i: Input, a: Pid) { i == Local(AcceptFriend(a)) || i == Local(DiscardHeld(a)) }

  /** What a step holds back of one peer. */
  ghost function NewlyHeld(n: Node, turn: Turn, a: Pid): seq<Bubble> {
    if turn.input.Arrival? && HoldsText(n, turn.input, turn.env, Bubble(turn.input.packet.roomId, a))
    then [Bubble(turn.input.packet.roomId, a)] else []
  }

  /** What was held back of a peer since our last answer to it, in order. */
  ghost function HeldSince(states: seq<Node>, turns: seq<Turn>, k: nat, a: Pid): seq<Bubble>
    requires |states| == |turns| + 1 && k <= |turns|
  {
    if k == 0 || Answers(turns[k - 1].input, a) then []
    else HeldSince(states, turns, k - 1, a) + NewlyHeld(states[k - 1], turns[k - 1], a)
  }

  lemma {:induction false} HeldFromSnoc(held: seq<Bubble>, b: Bubble, a: Pid)
    ensures HeldFrom(held + [b], a) == HeldFrom(held, a) + if b.author == a then [b] else []
  {
    if held != [] {
      assert (held + [b])[1..] == held[1..] + [b];
      HeldFromSnoc(held[1..], b, a);
    }
  }

  lemma {:induction false} HeldFromTheOthers(held: seq<Bubble>, p: Pid, a: Pid)
    ensures HeldFrom(HeldFromOthers(held, p), a) == if a == p then [] else HeldFrom(held, a)
  {
    if held != [] {
      HeldFromTheOthers(held[1..], p, a);
      var others := HeldFromOthers(held[1..], p);
      assert ([held[0]] + others)[1..] == others;
      assert [] + others == others;
    }
  }

  lemma {:induction false} ArrivalHolds(n: Node, packet: Packet, env: Env)
    requires packet.src != n.me
    ensures var b := Bubble(packet.roomId, packet.src);
            Deliver(n, packet, env).held == n.held + if HoldsText(n, Arrival(packet), env, b) then [b] else []
  {
    if packet.body.RoomText? { SaysOrIsBlank(packet.body.text); }
    hide IsBlank, Says;
    if packet.body.RoomFile? { hide FileCopies; }
    else if !packet.body.RoomText? {
      OtherArrivalBoxes(n, packet, env);
      hide Deliver;
    }
  }

  lemma {:induction false} ArrivalHoldsOf(n: Node, packet: Packet, env: Env, a: Pid)
    requires packet.src != n.me
    ensures HeldFrom(Deliver(n, packet, env).held, a)
         == HeldFrom(n.held, a) + NewlyHeld(n, Turn(Arrival(packet), env), a)
  {
    var b := Bubble(packet.roomId, packet.src);
    ArrivalHolds(n, packet, env);
    assert HoldsText(n, Arrival(packet), env, Bubble(packet.roomId, a)) ==> a == packet.src;
    hide Deliver, HoldsText, HeldFrom;
    HeldFromSnoc(n.held, b, a);
    if !HoldsText(n, Arrival(packet), env, b) { assert n.held + [] == n.held; }
  }

  lemma {:induction false} CommandHoldsOf(n: Node, c: Command, env: Env, a: Pid)
    ensures HeldFrom(Obey(n, c, env).held, a) == if Answers(Local(c), a) then [] else HeldFrom(n.held, a)
  {
    if c.AcceptFriend? || c.DiscardHeld? {
      HeldFromTheOthers(n.held, c.peer, a);
      assert Obey(n, c, env).held == HeldFromOthers(n.held, c.peer);
      hide Obey, HeldFrom, HeldFromOthers;
    } else {
      SilentCommandHolds(n, c, env);
      hide Obey;
    }
  }

  lemma {:induction false} HeldStep(n: Node, turn: Turn, a: Pid)
    requires turn.input.Arrival? ==> turn.input.packet.src != n.me
    ensures HeldFrom(Handle(n, turn.input, turn.env).held, a) ==
              if Answers(turn.input, a) then [] else HeldFrom(n.held, a) + NewlyHeld(n, turn, a)
  {
    hide Obey, Deliver, HeldFrom, HoldsText;
    match turn.input
    case Arrival(packet) => ArrivalHoldsOf(n, packet, turn.env, a);
    case Local(c) =>
      CommandHoldsOf(n, c, turn.env, a);
      assert HeldFrom(n.held, a) + [] == HeldFrom(n.held, a);
  }

  lemma {:induction false} SilentCommandHolds(n: Node, c: Command, env: Env)
    requires !c.AcceptFriend? && !c.DiscardHeld?
    ensures Obey(n, c, env).held == n.held
  {
    if c.SendText? || c.PostFile? { hide FileCopies, TextCopies; } else { OtherCommandBoxes(n, c, env); hide Obey; }
  }

  /** Accepting a friend shows exactly what was held back of it since our last answer, in order, and
      then nothing of it is held. */
  lemma {:induction false} AcceptShowsWhatWasHeld(states: seq<Node>, turns: seq<Turn>, k: nat, a: Pid)
    requires IsNodeRun(states, turns) && k < |states| && states[0].held == []
    ensures HeldFrom(states[k].held, a) == HeldSince(states, turns, k, a)
    ensures k < |turns| && turns[k].input == Local(AcceptFriend(a)) ==>
              && states[k + 1].shown == states[k].shown + HeldSince(states, turns, k, a)
              && HeldSince(states, turns, k + 1, a) == []
  {
    if k > 0 {
      hide Handle;
      AcceptShowsWhatWasHeld(states, turns, k - 1, a);
      HeldStep(states[k - 1], turns[k - 1], a);
    }
  }

  // ---------------------------------------------------------------------------------------------
  // Copies of other rooms
  // ---------------------------------------------------------------------------------------------

  /** We forget a room that we are not on, leave one whose owner hears of it or is not trusted, or its
      owner removes us. */
  predicate Parts(n: Node, i: Input, env: Env, r: RoomId)
    requires r in n.cache
  {
    var room := n.cache[r];
    match i
    case Local(Forget(q)) => q == r && n.me !in room.members
    case Local(Leave(q)) =>
      q == r && n.me in room.members && (room.owner !in env.trusted || Reaches(n, room.owner, env.up))
    case Local(_) => false
    case Arrival(p) => By(i, r, room.owner) && p.body.RoomRemove?
  }

  /** The copy of the room after a step: gone, the snapshot or stub that arrived, or as it was. */
  ghost predicate CopyMoved(n: Node, i: Input, env: Env, n': Node, r: RoomId) {
    if r in n.cache && Parts(n, i, env, r) then r !in n'.cache
    else if AcceptedSnapshot(n, i, r) then r in n'.cache && n'.cache[r] == i.packet.body.room
    else if FirstInvite(n, i, r) && r != "" then
      r in n'.cache && n'.cache[r] == Stub(r, i.packet.body.name, i.packet.src)
    else if r in n.cache then r in n'.cache && n'.cache[r] == n.cache[r]
    else r !in n'.cache
  }

  ghost predicate SoundCopy(n: Node, r: RoomId) { (r in n.cache ==> r !in n.rooms) && !Orphaned(n, r) }

  lemma {:induction false} LeaveCopy(n: Node, q: RoomId, env: Env, r: RoomId)
    requires SoundCopy(n, r) && SoundCopy(n, q) && Knows(n, q)
    ensures CopyMoved(n, Local(Leave(q)), env, MemberLeave(n, q, env), r)
  {
    hide Farewells;
    if q in n.cache && n.me in n.cache[q].members {
      var left := n.cache[q].members - {n.me};
      assert n.cache[q].members.Keys == left.Keys + {n.me};
    }
  }

  lemma {:induction false} CommandCopy(n: Node, c: Command, env: Env, r: RoomId)
    requires forall q :: SoundCopy(n, q)
    ensures CopyMoved(n, Local(c), env, Obey(n, c, env), r)
  {
    hide Snapshots, OwnerInvite, OwnerRemove, ApplyMemberColor, MemberLeave, LogState;
    assert SoundCopy(n, r);
    match c
    case Leave(q) => if Knows(n, q) { LeaveCopy(n, q, env, r); }
    case Invite(q, peer) => if Knows(n, q) { OwnedCopies(n, q, peer, THEME_COLOR, env); }
    case Add(q, peer) => if Knows(n, q) { OwnedCopies(n, q, peer, THEME_COLOR, env); }
    case Remove(q, peer) => if Knows(n, q) { OwnedCopies(n, q, peer, THEME_COLOR, env); }
    case SetColor(q, token, hex) =>
      if Knows(n, q) { OwnedCopies(n, q, n.me, Color(ShortToken(if token == "" then "theme" else token), hex), env); }
    case _ =>
  }

  /** What the owner of a room does leaves all copies as they are. */
  lemma {:induction false} OwnedCopies(n: Node, q: RoomId, peer: Pid, color: Color, env: Env)
    requires SoundCopy(n, q) && Knows(n, q)
    ensures Record(n, q).owner == n.me ==>
              && OwnerInvite(n, q, peer, env).cache == n.cache
              && OwnerRemove(n, q, peer, env.up).cache == n.cache
              && (peer in Record(n, q).members ==> ApplyMemberColor(n, q, peer, color, env.up).cache == n.cache)
  {
    hide Snapshots, LogState;
  }

  lemma {:induction false} OtherArrivalCopies(n: Node, packet: Packet, env: Env)
    requires !packet.body.RoomState? && !packet.body.RoomInvite? && !packet.body.RoomRemove?
    requires SoundCopy(n, packet.roomId)
    ensures Deliver(n, packet, env).cache == n.cache
  {
    hide Snapshots, OwnerInvite, OwnerRemove, ApplyMemberColor, HandleRoomJoin, FileCopies;
    var p := Authored(packet);
    match p.body
    case RoomJoin(_) => JoinChangesNoCache(n, p, env);
    case RoomLeave => if Knows(n, p.roomId) { OwnedCopies(n, p.roomId, p.from, THEME_COLOR, env); }
    case RoomAdd(peer) => if Knows(n, p.roomId) { OwnedCopies(n, p.roomId, peer, THEME_COLOR, env); }
    case RoomColorSet(token, hex) =>
      if Knows(n, p.roomId) { OwnedCopies(n, p.roomId, p.from, Color(ShortToken(token), hex), env); }
    case _ =>
  }

  lemma {:induction false} ArrivalCopy(n: Node, packet: Packet, env: Env, r: RoomId)
    requires packet.src != n.me && SoundCopy(n, r) && SoundCopy(n, packet.roomId)
    ensures CopyMoved(n, Arrival(packet), env, Deliver(n, packet, env), r)
  {
    if !packet.body.RoomState? && !packet.body.RoomInvite? && !packet.body.RoomRemove? {
      OtherArrivalCopies(n, packet, env);
      hide Deliver;
    }
  }

  /** Every step leaves our copy of a room exactly as it should: the owner's snapshot that is not older is
      taken, an invitation makes a stub, and nothing else but our leaving or forgetting, or the owner's
      removing us, touches it. */
  lemma {:induction false} StepCopies(n: Node, i: Input, env: Env, r: RoomId)
    requires (forall q :: SoundCopy(n, q)) && (i.Arrival? ==> i.packet.src != n.me)
    ensures CopyMoved(n, i, env, Handle(n, i, env), r)
  {
    hide Obey, Deliver, CopyMoved;
    match i
    case Local(c) => CommandCopy(n, c, env, r);
    case Arrival(p) =>
      assert SoundCopy(n, r) && SoundCopy(n, p.roomId);
      ArrivalCopy(n, p, env, r);
  }

  /** A record that says we own the room, or lists nobody but us, as no run of the network makes one: we do
      not forget it while it names us, and leaving it takes us off it. */
  lemma {:induction false} OrphansStay(n: Node, env: Env, r: RoomId)
    requires r in n.cache && r !in n.rooms && Orphaned(n, r)
    ensures Handle(n, Local(Forget(r)), env) == n
    ensures var room := n.cache[r]; var heard := room.owner in env.trusted && Reaches(n, room.owner, env.up);
            n.me in room.members && (room.owner == n.me || heard) ==>
              Handle(n, Local(Leave(r)), env).cache ==
                n.cache[r := room.(members := room.members - {n.me}, seqNo := room.seqNo + 1)]
  {
    if n.cache[r].owner != n.me {
      var left := n.cache[r].members - {n.me};
      assert left.Keys == {};
      assert left == map[];
    }
  }

  /** So in every run of the network. */
  lemma {:induction false} EveryStepMovesCopiesRightly(states: seq<System>, moves: seq<Move>, k: nat, r: RoomId)
    requires RoomSystem.IsRun(states, moves) && k < |moves|
    ensures moves[k].id in states[k] && moves[k].id in states[k + 1]
    ensures CopyMoved(states[k][moves[k].id], moves[k].input, moves[k].env, states[k + 1][moves[k].id], r)
  {
    hide Handle, CopyMoved, InOrder;
    assert StepAt(states, moves, k);
    var m, s := moves[k], states[k];
    RunKeepsInvariant(states, moves, k);
    ArrivalsAreForeign(s, m);
    CopiesAreSound(s, m.id);
    StepCopies(s[m.id], m.input, m.env, r);
  }

  lemma {:induction false} CopiesAreSound(s: System, id: Pid)
    requires SystemInv(s) && id in s
    ensures s[id].me == id && forall q :: SoundCopy(s[id], q)
  {
    NodeInOrder(s, id);
    forall q ensures SoundCopy(s[id], q) { if q in s[id].cache { BackedRecord(s, id, q); } }
  }
}
