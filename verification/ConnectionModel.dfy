/** One peer's connection record: the active socket, who dialled it, the messages waiting for a
    socket, and what has gone out, as functions from record to record.
    Connections.Connection is the record itself, proved to follow these functions. */
module ConnectionModel {
  import opened Options

  /** A fingerprint, read as a number: its fixed-length digits order the same way. */
  type Id = nat
  type Sock = nat

  /** A line to send. Chat messages and the accept handshake are held while the socket is down. */
  datatype Payload = Payload(line: string, mid: string, holdable: bool)

  /** `dead` are the sockets that were closed or failed here; `written` is what sockets took, in order,
      and `arrived` what reached the peer: a send that raised an error may have got there all the same. */
  datatype Conn = Conn(
    me: Id, pid: Id, sock: Option<Sock>, initiator: Option<Id>, hold: seq<Payload>, sentMids: set<string>,
    dead: set<Sock>, written: seq<Payload>, arrived: seq<Payload>)

  // ---------------------------------------------------------------------------------------------
  // Sending
  // ---------------------------------------------------------------------------------------------

  predicate Takes(c: Conn, ok: bool) { c.sock.Some? && c.sock.value !in c.dead && ok }

  function Marked(mids: set<string>, mid: string): set<string> { if mid == "" then mids else mids + {mid} }

  /** One send on the active socket. A socket that failed once never takes anything again; a send that
      fails may still have reached the peer (`leaks`). */
  function Send(c: Conn, p: Payload, ok: bool, leaks: bool): Conn
    requires c.sock.Some?
  {
    var s := c.sock.value;
    var arrived := if s !in c.dead && (ok || leaks) then c.arrived + [p] else c.arrived;
    if Takes(c, ok)
    then c.(written := c.written + [p], arrived := arrived, sentMids := Marked(c.sentMids, p.mid))
    else c.(arrived := arrived, dead := c.dead + {s})
  }

  predicate Skips(c: Conn, p: Payload) { p.mid != "" && p.mid in c.sentMids }

  /** Write the queue out in order, skipping mids already written. The first `alive` sends succeed. On
      an error only the failing message is kept. */
  function FlushQueue(c: Conn, queue: seq<Payload>, alive: nat, leaks: bool): Conn
    requires c.sock.Some?
    decreases |queue|
  {
    if queue == [] then c.(hold := [])
    else if Skips(c, queue[0]) then FlushQueue(c, queue[1..], alive, leaks)
    else if Takes(c, alive > 0) then FlushQueue(Send(c, queue[0], true, leaks), queue[1..], alive - 1, leaks)
    else Send(c, queue[0], false, leaks).(hold := [queue[0]])
  }

  function Flush(c: Conn, alive: nat, leaks: bool): Conn {
    if c.sock.None? then c else FlushQueue(c, c.hold, alive, leaks)
  }

  function Held(c: Conn, p: Payload): Conn { if p.holdable then c.(hold := c.hold + [p]) else c }

  /** Send now, or hold for the next socket; true when sent now. */
  function Write(c: Conn, p: Payload, ok: bool, leaks: bool): (Conn, bool) {
    if c.sock.None? then (Held(c, p), false)
    else
      var c' := Send(c, p, ok, leaks);
      if Takes(c, ok) then (c', true) else (Held(c'.(sock := None), p), false)
  }

  // ---------------------------------------------------------------------------------------------
  // The slot
  // ---------------------------------------------------------------------------------------------

  function Close(c: Conn, s: Sock): Conn { c.(dead := c.dead + {s}) }

  function Drop(c: Conn): Conn {
    var c' := c.(sock := None, initiator := None);
    if c.sock.None? then c' else Close(c', c.sock.value)
  }

  function Keeper(c: Conn): Id { if c.me <= c.pid then c.me else c.pid }

  /** Does the active socket stay when another one is offered? */
  predicate Stays(c: Conn, initiator: Id) { c.sock.Some? && initiator != Keeper(c) }

  /** Offer a socket for the slot; true when it is, or becomes, the active one. */
  function Offer(c: Conn, s: Sock, initiator: Id, alive: nat, leaks: bool): (Conn, bool) {
    if c.sock == Some(s) then (c, true)
    else if Stays(c, initiator) then (c, false)
    else
      var c' := if c.sock.Some? then Close(c, c.sock.value) else c;
      (Flush(c'.(sock := Some(s), initiator := Some(initiator)), alive, leaks), true)
  }

  /** A reader of socket `s` ends: it clears the slot if it still holds its socket, and closes it. */
  function ReaderEnds(c: Conn, s: Sock): Conn {
    Close(if c.sock == Some(s) then c.(sock := None, initiator := None) else c, s)
  }
}
