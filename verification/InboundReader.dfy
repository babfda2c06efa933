/** Reading a connection the peer dialled: framing, the proof of identity, and what is handed on. */
module InboundReader {
  import opened Bytes

  const MAX_FRAME_BUF := 512 * 1024
  const CHUNK_MAX := 4096
  const DEFERRED_MAX_MSGS := 64
  const DEFERRED_MAX_BYTES := 256 * 1024

  /** A JSON object on a line; absent fields are empty. */
  datatype Message = Message(t: string, from: string, cert: string, sig: string, body: string)

  /** What a line parses to. Blank lines and lines that are not JSON are skipped; any other JSON value
      than an object ends the reader. */
  datatype Parsed = Skip | NotAnObject | Object(m: Message)

  /** The surroundings of one connection: our id, the nonce we challenge with, whether the challenge can
      be sent, parsing, and cryptography. */
  datatype World = World(
    me: string, nonce: string, sends: bool, parse: seq<byte> -> Parsed,
    fingerprint: string -> string, verifies: (string, string, string) -> bool)

  datatype Phase = Idle | Challenged | Proven

  /** A connection apart from its buffer. `handed` is what was dispatched, in order. */
  datatype Session = Session(
    open: bool, phase: Phase, pid: string, cert: string, deferred: seq<Message>, deferredBytes: int,
    handed: seq<Message>)

  const START := Session(true, Idle, "", "", [], 0, [])

  // ---------------------------------------------------------------------------------------------
  // One line
  // ---------------------------------------------------------------------------------------------

  predicate GoodIdentity(w: World, m: Message) {
    m.from != "" && m.from != w.me && m.cert != "" && w.fingerprint(m.cert) == m.from
  }

  function Shut(s: Session): Session { s.(open := false) }

  function Identify(w: World, s: Session, m: Message): Session {
    if !GoodIdentity(w, m) then Shut(s)
    else
      var s' := s.(phase := Challenged, pid := m.from, cert := m.cert);
      if w.sends then s' else Shut(s')
  }

  function Prove(w: World, s: Session, m: Message): Session {
    if !w.verifies(s.cert, w.nonce, m.sig) then Shut(s)
    else s.(phase := Proven, handed := s.handed + s.deferred, deferred := [], deferredBytes := 0)
  }

  function Defer(s: Session, m: Message, size: nat): Session {
    var s' := s.(deferred := s.deferred + [m], deferredBytes := s.deferredBytes + size);
    if |s'.deferred| > DEFERRED_MAX_MSGS || s'.deferredBytes > DEFERRED_MAX_BYTES then Shut(s') else s'
  }

  function TakeMessage(w: World, s: Session, m: Message, size: nat): Session {
    if s.phase == Proven then s.(handed := s.handed + [m])
    else if m.t == "identity" && s.phase == Idle then Identify(w, s, m)
    else if m.t == "identityProof" && s.phase == Challenged then Prove(w, s, m)
    else Defer(s, m, size)
  }

  function Take(w: World, s: Session, line: seq<byte>): Session {
    if !s.open then s
    else
      match w.parse(line)
      case Skip => s
      case NotAnObject => Shut(s)
      case Object(m) => TakeMessage(w, s, m, |line|)
  }

  function TakeAll(w: World, s: Session, lines: seq<seq<byte>>): Session
    decreases |lines|
  {
    if lines == [] then s else TakeAll(w, Take(w, s, lines[0]), lines[1..])
  }

  /** One chunk read from the socket on top of an unfinished line. */
  function Fed(w: World, s: Session, buf: seq<byte>, chunk: seq<byte>): Session {
    if !s.open then s
    else if |buf + chunk| > MAX_FRAME_BUF then Shut(s)
    else TakeAll(w, s, Lines(buf + chunk))
  }

  // ---------------------------------------------------------------------------------------------
  // The reader itself
  // ---------------------------------------------------------------------------------------------

  class Reader {
    const w: World
    var buf: seq<byte>
    var open: bool
    var phase: Phase
    var pid: string
    var cert: string
    var deferred: seq<Message>
    var deferredBytes: int
    var handed: seq<Message>

    ghost function State(): Session
      reads this
    {
      Session(open, phase, pid, cert, deferred, deferredBytes, handed)
    }

    constructor (world: World)
      ensures w == world && buf == [] && State() == START
    {
      w, buf, open, phase, pid, cert, deferred, deferredBytes, handed := world, [], true, Idle, "", "", [], 0, [];
    }

    method TakeLine(line: seq<byte>)
      requires open
      modifies this
      ensures buf == old(buf) && State() == Take(w, old(State()), line)
    {
      var parsed := w.parse(line);
      if parsed.Skip? { return; }
      if parsed.NotAnObject? {
        open := false;
        return;
      }
      var m := parsed.m;
      if phase != Proven {
        if m.t == "identity" && phase == Idle {
          if m.from == "" || m.from == w.me || m.cert == "" || w.fingerprint(m.cert) != m.from {
            open := false;
            return;
          }
          pid, cert, phase := m.from, m.cert, Challenged;
          if !w.sends { open := false; }
        } else if m.t == "identityProof" && phase == Challenged {
          if !w.verifies(cert, w.nonce, m.sig) {
            open := false;
            return;
          }
          phase := Proven;
          ghost var before := handed;
          for i := 0 to |deferred|
            invariant buf == old(buf) && open == old(open) && pid == old(pid) && cert == old(cert)
            invariant deferred == old(deferred) && deferredBytes == old(deferredBytes) && phase == Proven
            invariant handed == before + deferred[..i]
          {
            handed := handed + [deferred[i]];
          }
          deferred, deferredBytes := [], 0;
        } else {
          deferred := deferred + [m];
          deferredBytes := deferredBytes + |line|;
          if |deferred| > DEFERRED_MAX_MSGS || deferredBytes > DEFERRED_MAX_BYTES { open := false; }
        }
        return;
      }
      handed := handed + [m];
    }

    /** One chunk from the socket. */
    method Feed(chunk: seq<byte>)
      modifies this
      ensures State() == Fed(w, old(State()), old(buf), chunk)
      ensures old(open) && open ==> buf == Tail(old(buf) + chunk)
    {
      if !open { return; }
      buf := buf + chunk;
      if |buf| > MAX_FRAME_BUF {
        open := false;
        return;
      }
      while open && Newline(buf) < |buf|
        invariant TakeAll(w, State(), if open then Lines(buf) else [])
            == TakeAll(w, old(State()), Lines(old(buf) + chunk))
        invariant open ==> Tail(buf) == Tail(old(buf) + chunk)
        decreases open, |buf|
      {
        var i := Newline(buf);
        var line := buf[..i];
        ghost var rest, before := Lines(buf[i + 1..]), State();
        buf := buf[i + 1..];
        TakeLine(line);
        if !open { ClosedTakesNothing(w, State(), rest); }
      }
    }
  }

  lemma {:induction false} ClosedTakesNothing(w: World, s: Session, lines: seq<seq<byte>>)
    requires !s.open
    ensures TakeAll(w, s, lines) == s
    decreases |lines|
  {
    if lines != [] { ClosedTakesNothing(w, s, lines[1..]); }
  }
}
