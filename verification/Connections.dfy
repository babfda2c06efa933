/** The connection record, changed in place. The network is part of the object: which sockets have
    failed or been closed, and what the sockets were given and took. */
module Connections {
  import opened Options
  import opened ConnectionModel

  class Connection {
    const me: Id
    const pid: Id
    var sock: Option<Sock>
    var initiator: Option<Id>
    var hold: seq<Payload>
    var sentMids: set<string>
    var dead: set<Sock>
    ghost var written: seq<Payload>
    ghost var arrived: seq<Payload>

    ghost function State(): Conn
      reads this
    {
      Conn(me, pid, sock, initiator, hold, sentMids, dead, written, arrived)
    }

    constructor (host: Id, peer: Id)
      ensures State() == Conn(host, peer, None, None, [], {}, {}, [], [])
    {
      me, pid := host, peer;
      sock, initiator, hold, sentMids, dead, written, arrived := None, None, [], {}, {}, [], [];
    }

    /** Put a line on the active socket, which takes it or raises an error. */
    method SendAll(p: Payload, ok: bool, leaks: bool) returns (taken: bool)
      requires sock.Some?
      modifies this`dead, this`written, this`arrived, this`sentMids
      ensures State() == Send(old(State()), p, ok, leaks) && taken == Takes(old(State()), ok)
    {
      if sock.value !in dead && (ok || leaks) { arrived := arrived + [p]; }
      taken := sock.value !in dead && ok;
      if taken {
        written := written + [p];
        if p.mid != "" { sentMids := sentMids + {p.mid}; }
      } else {
        dead := dead + {sock.value};
      }
    }

    method CloseSock(s: Sock)
      modifies this`dead
      ensures State() == Close(old(State()), s)
    {
      dead := dead + {s};
    }

    /** Flush the queue; the first `alive` sends succeed. */
    method FlushLocked(alive: nat, leaks: bool)
      modifies this
      ensures State() == Flush(old(State()), alive, leaks)
    {
      if sock.None? { return; }
      var queue := hold;
      var still: seq<Payload> := [];
      var left := alive;
      ghost var goal := Flush(State(), alive, leaks);
      for i := 0 to |queue|
        invariant still == [] && sock.Some? && left >= 0
        invariant FlushQueue(State(), queue[i..], left, leaks) == goal
      {
        var p := queue[i];
        if p.mid != "" && p.mid in sentMids { continue; }
        var taken := SendAll(p, left > 0, leaks);
        if taken { left := left - 1; } else {
          still := still + [p];
          break;
        }
      }
      hold := still;
    }

    /** Write one line now, or hold it. */
    method WriteLine(p: Payload, ok: bool, leaks: bool) returns (delivered: bool)
      modifies this
      ensures (State(), delivered) == Write(old(State()), p, ok, leaks)
    {
      if sock.Some? {
        var taken := SendAll(p, ok, leaks);
        if taken { return true; }
        CloseSock(sock.value);
        sock := None;
      }
      if p.holdable { hold := hold + [p]; }
      return false;
    }

    method DropConn()
      modifies this
      ensures State() == Drop(old(State()))
    {
      var s := sock;
      sock, initiator := None, None;
      if s.Some? { CloseSock(s.value); }
    }

    /** Offer a socket for the slot: the one dialled by the lower id is the keeper. */
    method MaybeSetActive(s: Sock, dialler: Id, alive: nat, leaks: bool) returns (active: bool)
      modifies this
      ensures (State(), active) == Offer(old(State()), s, dialler, alive, leaks)
    {
      var keeper := if me <= pid then me else pid;
      if sock == Some(s) { return true; }
      if sock.Some? {
        if initiator == Some(keeper) && dialler != keeper { return false; }
        if initiator != Some(keeper) && dialler != keeper { return false; }
        CloseSock(sock.value);
      }
      sock, initiator := Some(s), Some(dialler);
      FlushLocked(alive, leaks);
      return true;
    }

    method EndReader(s: Sock)
      modifies this
      ensures State() == ReaderEnds(old(State()), s)
    {
      if sock == Some(s) { sock, initiator := None, None; }
      CloseSock(s);
    }
  }
}
