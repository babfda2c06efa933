/** The buffered reader under the HTTP API, which puts one deadline over a whole request, against an
    ideal stream that is read byte by byte. */
module RequestReader {
  import opened Bytes
  import opened Options

  // ---------------------------------------------------------------------------------------------
  // The ideal stream
  // ---------------------------------------------------------------------------------------------

  /** Byte by byte, up to a newline, to `m` bytes, or to the end. */
  function LineOf(s: seq<byte>, m: nat): (line: seq<byte>)
    ensures |line| <= m && line <= s
  {
    if m == 0 || s == [] then []
    else if s[0] == NEWLINE then [s[0]]
    else [s[0]] + LineOf(s[1..], m - 1)
  }

  /** Does the stream end before the line does? */
  predicate EndsInLine(s: seq<byte>, m: nat) { NEWLINE !in s && |s| < m }

  datatype Call = ReadLine(m: nat) | Read(n: int)

  /** The answer to a call on a stream. */
  function Answer(s: seq<byte>, c: Call): (r: seq<byte>)
    ensures r <= s
  {
    match c
    case ReadLine(m) => LineOf(s, m)
    case Read(n) => if 0 <= n < |s| then s[..n] else s
  }

  /** What is left of the stream. Leftover bytes of an unfinished line at the end are returned but not
      consumed. */
  function Remains(s: seq<byte>, c: Call): seq<byte> {
    if c.ReadLine? && EndsInLine(s, c.m) then s else s[|Answer(s, c)|..]
  }

  function Answers(s: seq<byte>, calls: seq<Call>): seq<seq<byte>> {
    if calls == [] then [] else [Answer(s, calls[0])] + Answers(Remains(s, calls[0]), calls[1..])
  }

  lemma {:induction false} LineToNewline(s: seq<byte>, more: seq<byte>, m: nat)
    requires Newline(s) < |s| && Newline(s) < m
    ensures LineOf(s + more, m) == s[..Newline(s) + 1]
  {
    if s[0] != NEWLINE {
      assert (s + more)[1..] == s[1..] + more;
      LineToNewline(s[1..], more, m - 1);
      assert s[..Newline(s) + 1] == [s[0]] + s[1..][..Newline(s)];
    }
  }

  lemma {:induction false} LineToBound(s: seq<byte>, more: seq<byte>, m: nat)
    requires m <= |s| && m <= Newline(s)
    ensures LineOf(s + more, m) == s[..m]
  {
    if m > 0 {
      assert (s + more)[1..] == s[1..] + more;
      LineToBound(s[1..], more, m - 1);
      assert s[..m] == [s[0]] + s[1..][..m - 1];
    }
  }

  /** Where a line that is finished within the buffer ends. */
  function Cut(buf: seq<byte>, m: nat): nat {
    if Newline(buf) < |buf| && Newline(buf) + 1 <= m then Newline(buf) + 1 else m
  }

  lemma {:induction false} BufferedLine(buf: seq<byte>, more: seq<byte>, m: nat)
    requires Newline(buf) < |buf| || m <= |buf|
    ensures Cut(buf, m) <= |buf| && LineOf(buf + more, m) == buf[..Cut(buf, m)]
    ensures Remains(buf + more, Call.ReadLine(m)) == buf[Cut(buf, m)..] + more
  {
    if Cut(buf, m) == Newline(buf) + 1 && Newline(buf) < |buf| { LineToNewline(buf, more, m); }
    else { LineToBound(buf, more, m); }
    if Newline(buf) < |buf| { assert buf[Newline(buf)] in buf + more; }
    assert (buf + more)[Cut(buf, m)..] == buf[Cut(buf, m)..] + more;
  }

  lemma {:induction false} UnfinishedLine(s: seq<byte>, m: nat)
    requires EndsInLine(s, m)
    ensures LineOf(s, m) == s && Remains(s, Call.ReadLine(m)) == s
  {
    if s != [] { UnfinishedLine(s[1..], m - 1); }
  }

  lemma {:induction false} NextAnswer(s: seq<byte>, calls: seq<Call>)
    ensures Answers(s, calls) ==
              if calls == [] then [] else [Answer(s, calls[0])] + Answers(Remains(s, calls[0]), calls[1..])
  {
  }

  // ---------------------------------------------------------------------------------------------
  // The socket and the reader
  // ---------------------------------------------------------------------------------------------

  /** A connection: the bytes still to come before the peer closes, and how the network will hand them
      out. An entry of the script is the most one receive returns beyond its first byte; None, or the
      end of the script, is the deadline passing. */
  class Socket {
    var rest: seq<byte>
    var script: seq<Option<nat>>

    constructor (stream: seq<byte>, network: seq<Option<nat>>)
      ensures rest == stream
    {
      rest, script := stream, network;
    }

    /** Some of the bytes to come, at least one unless the stream is at its end; None on timeout. */
    method Recv(k: nat) returns (chunk: Option<seq<byte>>)
      requires k > 0
      modifies this
      ensures chunk.None? ==> rest == old(rest)
      ensures chunk.Some? ==> old(rest) == chunk.value + rest && |chunk.value| <= k
      ensures chunk.Some? ==> (chunk.value == [] <==> old(rest) == [])
    {
      if script == [] || script[0].None? { return None; }
      var size := if script[0].value + 1 < k then script[0].value + 1 else k;
      script := script[1..];
      if size > |rest| { size := |rest|; }
      chunk := Some(rest[..size]);
      rest := rest[size..];
    }
  }

  class Reader {
    const sock: Socket
    var buf: seq<byte>

    /** The stream as the caller sees it. */
    ghost function Pending(): seq<byte>
      reads this, sock
    {
      buf + sock.rest
    }

    constructor (s: Socket)
      ensures sock == s && buf == []
    {
      sock, buf := s, [];
    }

    /** One line of at most `m` bytes; None when the deadline passes. */
    method ReadLine(m: nat) returns (line: Option<seq<byte>>)
      modifies this, sock
      ensures line.None? ==> Pending() == old(Pending())
      ensures line.Some? ==> line.value == LineOf(old(Pending()), m)
      ensures line.Some? ==> Pending() == Remains(old(Pending()), Call.ReadLine(m))
      ensures |buf| <= |old(buf)| || |buf| <= m
    {
      ghost var stream := Pending();
      while true
        invariant Pending() == stream && (|buf| <= |old(buf)| || |buf| <= m)
        decreases |sock.rest|
      {
        var nl := Newline(buf);
        if nl < |buf| || |buf| >= m {
          BufferedLine(buf, sock.rest, m);
          var cut := if nl < |buf| && nl + 1 <= m then nl + 1 else m;
          line := Some(buf[..cut]);
          buf := buf[cut..];
          return;
        }
        var chunk := sock.Recv(if 4096 < m - |buf| then 4096 else m - |buf|);
        if chunk.None? { return None; }
        if chunk.value == [] {
          assert buf + sock.rest == buf;
          break;
        }
        buf := buf + chunk.value;
      }
      assert NEWLINE !in buf;
      UnfinishedLine(buf, m);
      return Some(if |buf| > m then buf[..m] else buf);
    }

    /** Up to `n` bytes, all to the end for negative `n`; None when the deadline passes. */
    method Read(n: int) returns (data: Option<seq<byte>>)
      modifies this, sock
      ensures data.Some? ==> data.value == Answer(old(Pending()), Call.Read(n))
      ensures data.Some? ==> Pending() == Remains(old(Pending()), Call.Read(n))
      ensures |buf| <= |old(buf)|
    {
      ghost var stream := Pending();
      var out: seq<byte> := [];
      while n < 0 || |out| < n
        invariant stream == out + Pending() && |buf| <= |old(buf)| && (n >= 0 ==> |out| <= n)
        decreases |sock.rest| + |buf|
      {
        if buf != [] {
          var take := if n < 0 || n - |out| > |buf| then buf else buf[..n - |out|];
          out := out + take;
          buf := buf[|take|..];
          continue;
        }
        var chunk := sock.Recv(if n < 0 || n - |out| > 4096 then 4096 else n - |out|);
        if chunk.None? { return None; }
        if chunk.value == [] { break; }
        out := out + chunk.value;
      }
      return Some(out);
    }

    /** A sequence of calls, up to the deadline. */
    method Serve(calls: seq<Call>) returns (answers: seq<seq<byte>>, inTime: bool)
      modifies this, sock
      ensures answers <= Answers(old(Pending()), calls)
      ensures inTime ==> answers == Answers(old(Pending()), calls)
    {
      hide Answers, Remains;
      answers, inTime := [], true;
      ghost var stream := Pending();
      for i := 0 to |calls|
        invariant Answers(stream, calls) == answers + Answers(Pending(), calls[i..])
      {
        NextAnswer(Pending(), calls[i..]);
        assert calls[i..][1..] == calls[i + 1..];
        var answer;
        match calls[i] {
          case ReadLine(m) => answer := ReadLine(m);
          case Read(n) => answer := Read(n);
        }
        if answer.None? { return answers, false; }
        answers := answers + [answer.value];
      }
      NextAnswer(Pending(), calls[|calls|..]);
    }
  }

  // ---------------------------------------------------------------------------------------------
  // What the answers say about the stream
  // ---------------------------------------------------------------------------------------------

  function Joined(parts: seq<seq<byte>>): seq<byte> { if parts == [] then [] else parts[0] + Joined(parts[1..]) }

  /** The call finds the stream ending inside a line it has begun. */
  predicate Leaves(s: seq<byte>, c: Call) { c.ReadLine? && s != [] && EndsInLine(s, c.m) }

  /** The call asks for at least one byte. */
  predicate Asks(c: Call) { if c.ReadLine? then c.m > 0 else c.n != 0 }

  /** Some call leaves an unfinished end behind, and a later one asks again. */
  predicate Repeats(s: seq<byte>, calls: seq<Call>) {
    calls != [] &&
    ((Leaves(s, calls[0]) && exists c | c in calls[1..] :: Asks(c)) || Repeats(Remains(s, calls[0]), calls[1..]))
  }

  /** A call takes from the stream exactly what it answers, unless it leaves an unfinished end. */
  lemma {:induction false} AnsweredIsConsumed(s: seq<byte>, c: Call)
    ensures s == Answer(s, c) + Remains(s, c) <==> !Leaves(s, c)
  {
    if c.ReadLine? && EndsInLine(s, c.m) { UnfinishedLine(s, c.m); }
  }

  lemma {:induction false} AnswersWhenAsked(s: seq<byte>, c: Call)
    requires s != []
    ensures Answer(s, c) != [] <==> Asks(c)
    ensures !Asks(c) ==> Remains(s, c) == s
  {
  }

  /** Calls on what is left answer with something exactly if one of them asks. */
  lemma {:induction false} SilentUnlessAsked(s: seq<byte>, calls: seq<Call>)
    requires s != []
    ensures Joined(Answers(s, calls)) == [] <==> !exists c | c in calls :: Asks(c)
  {
    if calls != [] {
      AnswersWhenAsked(s, calls[0]);
      assert Answers(s, calls)[1..] == Answers(Remains(s, calls[0]), calls[1..]);
      assert calls == [calls[0]] + calls[1..];
      if !Asks(calls[0]) { SilentUnlessAsked(s, calls[1..]); }
    }
  }

  lemma {:induction false} NothingToRepeat(s: seq<byte>, calls: seq<Call>)
    requires !exists c | c in calls :: Asks(c)
    ensures !Repeats(s, calls)
  {
    if calls != [] {
      assert calls == [calls[0]] + calls[1..];
      forall c | c in calls[1..] ensures !Asks(c) { assert c in calls; }
      NothingToRepeat(Remains(s, calls[0]), calls[1..]);
    }
  }

  /** Nothing is skipped or repeated: the answers put together are a prefix of the stream, if and only if
      no call asks again after one that left an unfinished end behind. */
  lemma {:induction false} AnswersAreThePrefix(s: seq<byte>, calls: seq<Call>)
    ensures Joined(Answers(s, calls)) <= s <==> !Repeats(s, calls)
  {
    if calls != [] {
      var first, left := Answer(s, calls[0]), Remains(s, calls[0]);
      var rest := Joined(Answers(left, calls[1..]));
      assert Answers(s, calls)[1..] == Answers(left, calls[1..]);
      AnswersAreThePrefix(left, calls[1..]);
      AnsweredIsConsumed(s, calls[0]);
      if Leaves(s, calls[0]) {
        UnfinishedLine(s, calls[0].m);
        SilentUnlessAsked(s, calls[1..]);
        if !exists c | c in calls[1..] :: Asks(c) { NothingToRepeat(s, calls[1..]); }
      } else {
        SamePrefix(first, rest, left);
      }
    }
  }

  lemma {:induction false} SamePrefix(a: seq<byte>, b: seq<byte>, c: seq<byte>)
    ensures a + b <= a + c <==> b <= c
  {
    if a + b <= a + c {
      assert b == (a + b)[|a|..] && c == (a + c)[|a|..];
      assert (a + c)[..|a + b|] == a + b;
      assert c[..|b|] == (a + c)[..|a + b|][|a|..];
    }
    if b <= c { assert a + c == (a + b) + c[|b|..]; }
  }

  /** An unfinished line at the end is answered again and again. */
  lemma {:induction false} LeftoverComesBack(s: seq<byte>, m: nat)
    requires EndsInLine(s, m)
    ensures Answers(s, [Call.ReadLine(m), Call.ReadLine(m)]) == [s, s]
  {
    var c := Call.ReadLine(m);
    UnfinishedLine(s, m);
    assert [c, c][1..] == [c];
    assert Answers(s, [c]) == [s];
  }

  /** How long an answer is: a read gives what it asks for or all there is, and a line ends with the first
      newline, at its bound or with the stream. */
  lemma {:induction false} HowMuchIsAnswered(s: seq<byte>, c: Call)
    ensures c.Read? ==> |Answer(s, c)| == if c.n < 0 || c.n > |s| then |s| else c.n
    ensures c.ReadLine? ==> NEWLINE !in Answer(s, c)[..if Answer(s, c) == [] then 0 else |Answer(s, c)| - 1]
    ensures c.ReadLine? && (Answer(s, c) == [] || Answer(s, c)[|Answer(s, c)| - 1] != NEWLINE) ==>
              |Answer(s, c)| == if c.m < |s| then c.m else |s|
  {
    if c.ReadLine? && c.m > 0 && s != [] && s[0] != NEWLINE {
      HowMuchIsAnswered(s[1..], Call.ReadLine(c.m - 1));
      var rest := LineOf(s[1..], c.m - 1);
      assert Answer(s, c) == [s[0]] + rest;
      if rest != [] { assert ([s[0]] + rest)[..|rest|] == [s[0]] + rest[..|rest| - 1]; }
    }
  }
}
