/** Bytes, and byte streams cut into lines. */
module Bytes {
  type byte = x: int | 0 <= x < 256

  const NEWLINE: byte := 10

  /** The place of the first newline, or the length if there is none. */
  function Newline(s: seq<byte>): (i: nat)
    ensures i <= |s|
    ensures i < |s| ==> s[i] == NEWLINE
    ensures forall k | 0 <= k < i :: s[k] != NEWLINE
  {
    if s == [] || s[0] == NEWLINE then 0 else 1 + Newline(s[1..])
  }

  /** The complete lines of a stream, without their newlines. */
  function Lines(s: seq<byte>): seq<seq<byte>> {
    var i := Newline(s);
    if i == |s| then [] else [s[..i]] + Lines(s[i + 1..])
  }

  /** What follows the last newline. */
  function Tail(s: seq<byte>): (t: seq<byte>)
    ensures NEWLINE !in t && |t| <= |s|
  {
    var i := Newline(s);
    if i == |s| then s else Tail(s[i + 1..])
  }

  lemma {:induction false} NewlineIs(s: seq<byte>, i: nat)
    requires i <= |s| && (i < |s| ==> s[i] == NEWLINE) && forall k | 0 <= k < i :: s[k] != NEWLINE
    ensures Newline(s) == i
  {
  }

  /** With a newline in front, lines and tail come from what follows it. */
  lemma {:induction false} FirstLine(a: seq<byte>, b: seq<byte>)
    requires Newline(a) < |a|
    ensures var i := Newline(a);
            Lines(a + b) == [a[..i]] + Lines(a[i + 1..] + b) && Tail(a + b) == Tail(a[i + 1..] + b)
  {
    var i := Newline(a);
    NewlineIs(a + b, i);
    assert (a + b)[..i] == a[..i] && (a + b)[i + 1..] == a[i + 1..] + b;
  }

  lemma {:induction false} NoLine(a: seq<byte>)
    requires Newline(a) == |a|
    ensures Lines(a) == [] && Tail(a) == a
  {
  }

  lemma {:induction false} Regrouped(l: seq<byte>, a: seq<seq<byte>>, b: seq<seq<byte>>)
    ensures [l] + (a + b) == ([l] + a) + b && [] + b == b
  {
  }

  /** One line in front is one line in front of both. */
  lemma {:induction false} LineInFront(a: seq<byte>, b: seq<byte>)
    requires Newline(a) < |a|
    requires var rest := a[Newline(a) + 1..];
             Lines(rest + b) == Lines(rest) + Lines(Tail(rest) + b) && Tail(rest + b) == Tail(Tail(rest) + b)
    ensures Lines(a + b) == Lines(a) + Lines(Tail(a) + b) && Tail(a + b) == Tail(Tail(a) + b)
  {
    var i := Newline(a);
    var rest := a[i + 1..];
    FirstLine(a, b);
    var mine, more := Lines(rest), Lines(Tail(rest) + b);
    Regrouped(a[..i], mine, more);
    assert Lines(a) == [a[..i]] + mine && Tail(a) == Tail(rest);
  }

  /** Cutting can be done piece by piece. */
  lemma {:induction false} LinesOfBoth(a: seq<byte>, b: seq<byte>)
    ensures Lines(a + b) == Lines(a) + Lines(Tail(a) + b)
    ensures Tail(a + b) == Tail(Tail(a) + b)
    decreases |a|
  {
    if Newline(a) == |a| {
      NoLine(a);
      Regrouped([], [], Lines(a + b));
    } else {
      LinesOfBoth(a[Newline(a) + 1..], b);
      LineInFront(a, b);
    }
  }

  /** Every line, and the beginning of the next, is at most so long. */
  ghost predicate LinesUpTo(s: seq<byte>, bound: int) {
    (forall l | l in Lines(s) :: |l| <= bound) && |Tail(s)| <= bound
  }

  lemma {:induction false} PrefixUpTo(a: seq<byte>, b: seq<byte>, bound: int)
    requires LinesUpTo(a + b, bound)
    ensures LinesUpTo(a, bound)
  {
    LinesOfBoth(a, b);
    var t := Tail(a) + b;
    var i := Newline(t);
    assert |Tail(a)| <= i by { assert forall k | 0 <= k < |Tail(a)| :: t[k] == Tail(a)[k]; }
    if i < |t| { assert t[..i] in Lines(t); }
    forall l | l in Lines(a) ensures |l| <= bound { assert l in Lines(a + b); }
    forall l | l in Lines(t) ensures |l| <= bound { assert l in Lines(a + b); }
  }
}
