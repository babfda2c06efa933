/** The roster gate: what a member records about a room once a snapshot has dropped somebody. Here
    the arrivals are arbitrary envelopes from arbitrary authenticated peers. */
module RoomGate {
  import opened RoomModel
  import opened RoomSystem

  datatype Turn = Turn(input: Input, env: Env)

  /** A run of one node. Nobody has a connection to themselves. */
  ghost predicate IsNodeRun(states: seq<Node>, turns: seq<Turn>) {
    && |states| == |turns| + 1
    && forall k | 0 <= k < |turns| ::
         && states[k + 1] == Handle(states[k], turns[k].input, turns[k].env)
         && (turns[k].input.Arrival? ==> turns[k].input.packet.src != states[k].me)
  }

  /** The bubble is shown for the first time by this step. */
  ghost predicate NewlyShown(n: Node, n': Node, b: Bubble) {
    n.shown <= n'.shown && b in n'.shown[|n.shown|..]
  }

  /** Ours, or gated by our record of the room right now, or held earlier and revealed by our accept. */
  ghost predicate Explained(n: Node, i: Input, b: Bubble) {
    || b.author == n.me
    || (i.Arrival? && Knows(n, b.roomId) && b.author in Record(n, b.roomId).members
        && i.packet.src in Record(n, b.roomId).members)
    || (i == Local(AcceptFriend(b.author)) && b in n.held)
  }

  lemma {:induction false} FileExplained(n: Node, p: Packet, up: set<Pid>)
    requires p.body.RoomFile? && p.src != n.me && (p.from == "" ==> p.src == "")
    requires p.from == p.src || (Knows(n, p.roomId) && Record(n, p.roomId).owner == p.src)
    ensures var n' := HandleRoomFile(n, p, up);
            && n'.me == n.me
            && (n'.shown == n.shown
                || (n'.shown == n.shown + [Bubble(p.roomId, p.from)]
                    && Explained(n, Arrival(p), Bubble(p.roomId, p.from))))
  {
  }

  lemma {:induction false} DirectFileExplained(n: Node, p: Packet)
    requires p.body.RoomFile? && (p.from == "" ==> p.src == "")
    ensures var n' := HandleRoomFileMsg(n, p);
            && n'.me == n.me
            && (n'.shown == n.shown
                || (n'.shown == n.shown + [Bubble(p.roomId, p.from)]
                    && Explained(n, Arrival(p), Bubble(p.roomId, p.from))))
  {
  }

  lemma {:induction false} TextExplained(n: Node, p: Packet, env: Env)
    requires p.body.RoomText? && p.from == p.src
    ensures var n' := HandleRoomText(n, p, env);
            && n'.me == n.me
            && (n'.shown == n.shown
                || (n'.shown == n.shown + [Bubble(p.roomId, p.src)]
                    && Explained(n, Arrival(p), Bubble(p.roomId, p.src))))
  {
  }

  lemma {:induction false} OthersShowNothing(n: Node, p: Packet, env: Env)
    requires !p.body.RoomFile? && !p.body.RoomText? && !p.body.RoomLeave? && !p.body.RoomJoin?
    ensures Deliver(n, p, env).shown == n.shown && Deliver(n, p, env).me == n.me
  {
    match p.body
    case RoomState(_) =>
    case RoomInvite(_) =>
    case RoomStateReq =>
    case RoomAdd(_) =>
    case RoomColorSet(_, _) =>
    case RoomRemove =>
  }

  lemma {:induction false} ShownByArrival(n: Node, packet: Packet, env: Env)
    requires packet.src != n.me
    ensures var n' := Deliver(n, packet, env);
            && n.shown <= n'.shown && n'.me == n.me
            && forall b | b in n'.shown[|n.shown|..] :: Explained(n, Arrival(packet), b)
  {
    var p := Authored(packet);
    if Deliver(n, packet, env) == n { return; }
    match p.body
    case RoomFile(_, direct) => if direct { DirectFileExplained(n, p); } else { FileExplained(n, p, env.up); }
    case RoomText(_, _, _) => TextExplained(n, p, env);
    case RoomLeave => OwnerOpsShowNothing(n, p.roomId, p.from, "", env.up);
    case RoomJoin(_) => JoinShowsNothing(n, p, env);
    case _ => OthersShowNothing(n, packet, env);
  }

  lemma {:induction false} OwnerOpsShowNothing(n: Node, r: RoomId, peer: Pid, name: string, up: set<Pid>)
    requires r in n.rooms
    ensures OwnerRemove(n, r, peer, up).shown == n.shown && OwnerRemove(n, r, peer, up).me == n.me
    ensures OwnerAdmit(n, r, peer, name, up).shown == n.shown && OwnerAdmit(n, r, peer, name, up).me == n.me
  {
  }

  lemma {:induction false} JoinShowsNothing(n: Node, p: Packet, env: Env)
    requires p.body.RoomJoin?
    ensures HandleRoomJoin(n, p, env).shown == n.shown && HandleRoomJoin(n, p, env).me == n.me
  {
    var r := p.roomId;
    if r in n.rooms {
      var n1 := n.(rooms := n.rooms[r := n.rooms[r].(invited := n.rooms[r].invited - {p.from})]);
      OwnerOpsShowNothing(Note(n1, Joined(r, p.from, p.from !in n.rooms[r].members)), r, p.from, p.body.fromName,
          env.up);
    }
  }

  lemma {:induction false} RosterCommandsShowNothing(n: Node, c: Command, env: Env)
    requires c.Invite? || c.Add? || c.Leave? || c.Remove? || c.SetCanInvite? || c.SetColor? || c.ToggleColors?
    ensures Obey(n, c, env).shown == n.shown && Obey(n, c, env).me == n.me
  {
    hide Snapshots;
    match c
    case Invite(_, _) =>
    case Add(_, _) =>
    case Leave(_) =>
    case Remove(r, peer) => if r in n.rooms { OwnerOpsShowNothing(n, r, peer, "", env.up); }
    case SetCanInvite(_, _, _) =>
    case SetColor(_, _, _) =>
    case ToggleColors(_, _) =>
  }

  lemma {:induction false} ShownByCommand(n: Node, c: Command, env: Env)
    ensures var n' := Obey(n, c, env);
            && n.shown <= n'.shown && n'.me == n.me
            && forall b | b in n'.shown[|n.shown|..] :: Explained(n, Local(c), b)
  {
    match c
    case Create(_, _, _) =>
    case Join(_, _) =>
    case Forget(_) =>
    case PostFile(_, _) =>
    case SendText(_, _) =>
    case Sync =>
    case AcceptFriend(peer) =>
      var n' := Obey(n, c, env);
      assert n'.shown[|n.shown|..] == HeldFrom(n.held, peer);
    case DiscardHeld(_) =>
    case _ => RosterCommandsShowNothing(n, c, env);
  }

  lemma {:induction false} ShownStep(n: Node, i: Input, env: Env)
    requires i.Arrival? ==> i.packet.src != n.me
    ensures var n' := Handle(n, i, env);
            && n.shown <= n'.shown && n'.me == n.me
            && forall b | b in n'.shown[|n.shown|..] :: Explained(n, i, b)
  {
    match i
    case Local(c) => ShownByCommand(n, c, env);
    case Arrival(p) => ShownByArrival(n, p, env);
  }

  /** Step `k` applied a snapshot of `r` that does not list `a`; until `upto` the record was neither
      dropped nor taken over, and no snapshot listing `a` was applied. */
  ghost predicate DroppedAndNotRelisted(
      states: seq<Node>, turns: seq<Turn>, k: int, upto: int, r: RoomId, a: Pid) {
    && IsNodeRun(states, turns) && 0 <= k < upto < |states|
    && Handled(states, turns, k, r) && a !in turns[k].input.packet.body.room.members
    && (forall j | k < j <= upto :: r in states[j].cache && r !in states[j].rooms)
    && (forall j | k < j < upto :: Handled(states, turns, j, r) ==> a !in turns[j].input.packet.body.room.members)
  }

  /** Step `j` replaced the record of `r` by the snapshot that arrived. */
  ghost predicate Handled(states: seq<Node>, turns: seq<Turn>, j: int, r: RoomId)
    requires 0 <= j < |turns| && j < |states|
  {
    AcceptedSnapshot(states[j], turns[j].input, r)
  }

  lemma {:induction false} StaysOffTheRoster(
      states: seq<Node>, turns: seq<Turn>, k: int, upto: int, r: RoomId, a: Pid)
    requires DroppedAndNotRelisted(states, turns, k, upto, r, a)
    ensures a !in states[upto].cache[r].members
    decreases upto
  {
    var j := upto - 1;
    assert states[upto] == Handle(states[j], turns[j].input, turns[j].env);
    if k < j {
      StaysOffTheRoster(states, turns, k, j, r, a);
      CacheChange(states[j], turns[j].input, turns[j].env, r);
      if Handled(states, turns, j, r) { assert a !in turns[j].input.packet.body.room.members; }
    } else {
      assert Handled(states, turns, k, r);
      assert states[upto].cache[r] == turns[k].input.packet.body.room;
    }
  }

  /** After a snapshot that no longer lists `a`, a member shows nothing by `a` in that room until a
      snapshot lists `a` again, except exactly this: a room text that came earlier inside a friend
      request of `a` was being held, and now we accept `a` as a friend. */
  lemma {:induction false} DroppedPeersAreSilentUnlessHeld(
      states: seq<Node>, turns: seq<Turn>, k: int, at: int, r: RoomId, a: Pid)
    requires DroppedAndNotRelisted(states, turns, k, at, r, a) && at < |turns| && a != states[at].me
    ensures NewlyShown(states[at], states[at + 1], Bubble(r, a)) <==>
            turns[at].input == Local(AcceptFriend(a)) && Bubble(r, a) in states[at].held
  {
    var n, i := states[at], turns[at].input;
    StaysOffTheRoster(states, turns, k, at, r, a);
    ShownStep(n, i, turns[at].env);
    if i == Local(AcceptFriend(a)) {
      HeldFromIsComplete(n.held, a);
      assert states[at + 1].shown[|n.shown|..] == HeldFrom(n.held, a);
    }
  }

  lemma {:induction false} HeldFromIsComplete(held: seq<Bubble>, peer: Pid)
    ensures forall b | b in held && b.author == peer :: b in HeldFrom(held, peer)
  {
    if held != [] { HeldFromIsComplete(held[1..], peer); }
  }

  const OPEN_ENV := Env({"olga"}, {"olga"}, {}, 0, true, false, true)
  const OLGA := Member("olga", true, THEME_COLOR)
  const GUEST := Member("guest", false, THEME_COLOR)
  const WITH_BOB := Room("room", "R", "olga", 3, true, map["olga" := OLGA, "bob" := GUEST, "me" := GUEST], map[])
  const WITHOUT_BOB := Room("room", "R", "olga", 4, true, map["olga" := OLGA, "me" := GUEST], map[])

  /** Olga invites us, we join, and she sends two snapshots, the second without bob; in between bob's
      room text arrives inside a friend request, which we accept in the end. */
  const STORY: seq<Turn> := [
    Turn(Arrival(Packet("olga", "me", "olga", "room", RoomInvite("R"))), OPEN_ENV),
    Turn(Local(Join("room", "guest")), OPEN_ENV),
    Turn(Arrival(Packet("olga", "me", "olga", "room", RoomState(WITH_BOB))), OPEN_ENV),
    Turn(Arrival(Packet("bob", "me", "bob", "room", RoomText("hi", true, false))), OPEN_ENV),
    Turn(Arrival(Packet("olga", "me", "olga", "room", RoomState(WITHOUT_BOB))), OPEN_ENV),
    Turn(Local(AcceptFriend("bob")), OPEN_ENV)]

  const BOBS := Bubble("room", "bob")

  const JOINING := Packet("me", "olga", "me", "room", RoomJoin("guest"))

  function Scene(cached: Room, held: seq<Bubble>): Node {
    Boot("me").(cache := map["room" := cached], held := held, sent := {JOINING})
  }

  const SCENES: seq<Node> := [
    Boot("me"), Scene(Stub("room", "R", "olga"), []).(sent := {}), Scene(Stub("room", "R", "olga"), []),
    Scene(WITH_BOB, []), Scene(WITH_BOB, [BOBS]), Scene(WITHOUT_BOB, [BOBS]), Scene(WITHOUT_BOB, []).(shown := [BOBS])]

  lemma {:induction false} OlgasPartOfTheStory(k: nat)
    requires k in {0, 2, 4}
    ensures SCENES[k + 1] == Handle(SCENES[k], STORY[k].input, STORY[k].env)
  {
    hide Obey, HandleRoomJoin, HandleRoomAdd, HandleRoomColorSet, HandleLeave, HandleRoomText, HandleRoomStateReq;
  }

  lemma {:induction false} BobsPartOfTheStory()
    ensures SCENES[4] == Handle(SCENES[3], STORY[3].input, STORY[3].env)
  {
    hide Obey;
    assert !IsBlank("hi") by { assert !IsSpace("hi"[0]); }
  }

  lemma {:induction false} OurPartOfTheStory(k: nat)
    requires k in {1, 5}
    ensures SCENES[k + 1] == Handle(SCENES[k], STORY[k].input, STORY[k].env)
  {
    hide Deliver, Snapshots;
    assert [BOBS][1..] == [];
    assert HeldFrom([BOBS], "bob") == [BOBS] && HeldFromOthers([BOBS], "bob") == [];
  }

  /** The exception is real: bob's room text arrives inside a friend request while the record lists
      him, the owner's next snapshot drops him, and accepting him still puts the text in the room. */
  lemma {:induction false} HeldTextOutlivesTheRoster()
    ensures exists states, turns ::
              |states| == 7 && DroppedAndNotRelisted(states, turns, 4, 5, "room", "bob")
              && NewlyShown(states[5], states[6], Bubble("room", "bob"))
  {
    hide Handle;
    assert IsNodeRun(SCENES, STORY) by {
      forall k | 0 <= k < |STORY|
        ensures SCENES[k + 1] == Handle(SCENES[k], STORY[k].input, STORY[k].env)
      {
        match k
        case 3 => BobsPartOfTheStory();
        case _ => if k in {1, 5} { OurPartOfTheStory(k); } else { OlgasPartOfTheStory(k); }
      }
    }
    assert Handled(SCENES, STORY, 4, "room");
    assert DroppedAndNotRelisted(SCENES, STORY, 4, 5, "room", "bob") by {
      forall j | 4 < j <= 5 ensures "room" in SCENES[j].cache && "room" !in SCENES[j].rooms { assert j == 5; }
    }
    assert NewlyShown(SCENES[5], SCENES[6], BOBS);
  }
}
