/** Two daemons that dial each other: the socket dialled by the one with the lower id wins. */
module Keeper {
  import opened Options
  import opened ConnectionModel
  import opened Outbox

  /** The records the two daemons keep about each other; `low` belongs to the lower id. */
  datatype Duel = Duel(low: Conn, high: Conn)

  /** Something happens at one of the two ends. */
  datatype Move = Move(atLow: bool, op: Op)

  function End(d: Duel, atLow: bool): Conn { if atLow then d.low else d.high }

  function Next(d: Duel, m: Move): Duel {
    if m.atLow then d.(low := Apply(d.low, m.op)) else d.(high := Apply(d.high, m.op))
  }

  predicate IsOffer(m: Move, s: Sock, atLow: bool) { m.atLow == atLow && m.op.DoOffer? && m.op.s == s }

  /** What can happen while `lower` is the one socket the lower side has dialled and the network does not
      break it: any redials by the other side, closes, reader exits and writes. A reader of `lower`
      ends only when one of the two ends has closed it. */
  predicate Possible(d: Duel, m: Move, lower: Sock) {
    var c := End(d, m.atLow);
    match m.op
    case DoOffer(s, dialler, alive, _) =>
      if s == lower then dialler == d.low.me && alive >= |c.hold| else dialler == d.high.me
    case DoWrite(_, ok, _) => c.sock == Some(lower) ==> ok
    case DoReaderEnd(s) => s == lower ==> lower in d.low.dead || lower in d.high.dead
    case DoDrop => c.sock != Some(lower)
  }

  predicate IsDuel(d: Duel) { d.low.me < d.high.me && d.low.pid == d.high.me && d.high.pid == d.low.me }

  function Play(d: Duel, moves: seq<Move>): Duel {
    if moves == [] then d else Next(Play(d, moves[..|moves| - 1]), moves[|moves| - 1])
  }

  predicate AllPossible(d: Duel, moves: seq<Move>, lower: Sock) {
    moves == [] ||
    (AllPossible(d, moves[..|moves| - 1], lower) && Possible(Play(d, moves[..|moves| - 1]), moves[|moves| - 1], lower))
  }

  /** Nobody has closed `lower`, and no slot holds it yet. */
  predicate Unused(d: Duel, lower: Sock) {
    && lower !in d.low.dead && lower !in d.high.dead
    && d.low.sock != Some(lower) && d.high.sock != Some(lower)
  }

  /** What one end keeps while the two are at it. */
  predicate Steady(c: Conn, c': Conn, lower: Sock) {
    && c'.me == c.me && c'.pid == c.pid
    && (lower !in c.dead ==> lower !in c'.dead) && (c.sock == Some(lower) ==> c'.sock == Some(lower))
  }

  lemma {:induction false} FlushSteady(c: Conn, queue: seq<Payload>, alive: nat, leaks: bool, lower: Sock)
    requires c.sock.Some? && (c.sock.value == lower ==> alive >= |queue|)
    ensures Steady(c, FlushQueue(c, queue, alive, leaks), lower)
    ensures FlushQueue(c, queue, alive, leaks).sock == c.sock
    decreases |queue|
  {
    if queue != [] {
      if Skips(c, queue[0]) { FlushSteady(c, queue[1..], alive, leaks, lower); }
      else if Takes(c, alive > 0) { FlushSteady(Send(c, queue[0], true, leaks), queue[1..], alive - 1, leaks, lower); }
    }
  }

  lemma {:induction false} MoveSteady(d: Duel, m: Move, lower: Sock)
    requires IsDuel(d) && lower !in d.low.dead && lower !in d.high.dead && Possible(d, m, lower)
    ensures Steady(End(d, m.atLow), End(Next(d, m), m.atLow), lower) && lower !in End(Next(d, m), m.atLow).dead
    ensures IsOffer(m, lower, m.atLow) ==> End(Next(d, m), m.atLow).sock == Some(lower)
  {
    var c := End(d, m.atLow);
    if Adopts(c, m.op) {
      var c1 := Opened(c, m.op);
      FlushSteady(c1, c1.hold, m.op.alive, m.op.leaks, lower);
    }
  }

  /** With any number of redials by the higher side and any order of offers, closes and reader exits:
      the socket the lower side dialled is never closed, a slot that holds it is never taken over, and
      every end that has been offered it holds it; once both have, both slots hold the same socket. */
  lemma {:induction false} LowerSocketWins(d: Duel, moves: seq<Move>, lower: Sock)
    requires IsDuel(d) && Unused(d, lower) && AllPossible(d, moves, lower)
    ensures IsDuel(Play(d, moves)) && lower !in Play(d, moves).low.dead && lower !in Play(d, moves).high.dead
    ensures (exists m | m in moves :: IsOffer(m, lower, true)) ==> Play(d, moves).low.sock == Some(lower)
    ensures (exists m | m in moves :: IsOffer(m, lower, false)) ==> Play(d, moves).high.sock == Some(lower)
  {
    if moves != [] {
      var before, m := moves[..|moves| - 1], moves[|moves| - 1];
      assert moves == before + [m];
      LowerSocketWins(d, before, lower);
      MoveSteady(Play(d, before), m, lower);
    }
  }
}
