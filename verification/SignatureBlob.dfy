/** The text a friend-handshake packet signs, and the key under which a consumed nonce is remembered.
    Both are length-prefixed; a reader recovers every field, so no two operations share a text. */
module SignatureBlob {
  import opened Options

  /** What a signature stands for: a kind of operation, from one peer to another, once, in a window. */
  datatype Operation = Operation(kind: string, sender: string, to: string, nonce: string, iat: int, exp: int)

  // ---------------------------------------------------------------------------------------------
  // Decimal numbers
  // ---------------------------------------------------------------------------------------------

  function Digit(n: nat): char
    requires n < 10
  {
    ('0' as int + n) as char
  }

  predicate IsDigit(c: char) { '0' <= c <= '9' }

  function Digits(n: nat): (s: string)
    ensures s != "" && forall c | c in s :: IsDigit(c)
  {
    if n < 10 then [Digit(n)] else Digits(n / 10) + [Digit(n % 10)]
  }

  function Decimal(n: int): string { if n < 0 then "-" + Digits(-n) else Digits(n) }

  function NatOf(s: string): int {
    if s == "" then 0 else 10 * NatOf(s[..|s| - 1]) + (s[|s| - 1] as int - '0' as int)
  }

  function IntOf(s: string): int { if s != "" && s[0] == '-' then -NatOf(s[1..]) else NatOf(s) }

  lemma {:induction false} DigitsRead(n: nat)
    ensures NatOf(Digits(n)) == n
  {
    var s := Digits(n);
    if n >= 10 {
      DigitsRead(n / 10);
      assert s[..|s| - 1] == Digits(n / 10);
    } else {
      assert s[..|s| - 1] == "";
    }
  }

  lemma {:induction false} DecimalRead(n: int)
    ensures IntOf(Decimal(n)) == n
  {
    if n < 0 {
      DigitsRead(-n);
      assert Decimal(n)[1..] == Digits(-n);
    } else {
      DigitsRead(n);
      assert IsDigit(Digits(n)[0]);
    }
  }

  // ---------------------------------------------------------------------------------------------
  // Length-prefixed fields
  // ---------------------------------------------------------------------------------------------

  function Field(part: string): string { Digits(|part|) + ":" + part }

  function Fields(parts: seq<string>): string {
    if parts == [] then "" else Field(parts[0]) + Fields(parts[1..])
  }

  /** The text before the first colon and the text after it. */
  function SplitColon(s: string): (r: Option<(string, string)>)
    ensures r.Some? ==> |r.value.0| + |r.value.1| + 1 == |s|
  {
    if s == "" then None
    else if s[0] == ':' then Some(("", s[1..]))
    else
      match SplitColon(s[1..])
      case None => None
      case Some(halves) => Some(([s[0]] + halves.0, halves.1))
  }

  /** Read one field off the front: the field and the rest. */
  function ReadField(s: string): (r: Option<(string, string)>)
    ensures r.Some? ==> |r.value.1| < |s|
  {
    match SplitColon(s)
    case None => None
    case Some((digits, rest)) =>
      var n := NatOf(digits);
      if 0 <= n <= |rest| then Some((rest[..n], rest[n..])) else None
  }

  function ReadFields(s: string): Option<seq<string>>
    decreases |s|
  {
    if s == "" then Some([]) else
    match ReadField(s)
    case None => None
    case Some((part, rest)) =>
      match ReadFields(rest)
      case None => None
      case Some(parts) => Some([part] + parts)
  }

  lemma {:induction false} ColonSplit(digits: string, rest: string)
    requires forall c | c in digits :: IsDigit(c)
    ensures SplitColon(digits + ":" + rest) == Some((digits, rest))
  {
    var s := digits + ":" + rest;
    if digits == "" {
      assert s[1..] == rest;
    } else {
      assert IsDigit(digits[0]);
      assert s[1..] == digits[1..] + ":" + rest;
      ColonSplit(digits[1..], rest);
      assert [digits[0]] + digits[1..] == digits;
    }
  }

  lemma {:induction false} FieldRead(part: string, rest: string)
    ensures ReadField(Field(part) + rest) == Some((part, rest))
  {
    assert Field(part) + rest == Digits(|part|) + ":" + (part + rest);
    ColonSplit(Digits(|part|), part + rest);
    DigitsRead(|part|);
    assert (part + rest)[..|part|] == part && (part + rest)[|part|..] == rest;
  }

  lemma {:induction false} FieldsRead(parts: seq<string>)
    ensures ReadFields(Fields(parts)) == Some(parts)
  {
    if parts != [] {
      FieldRead(parts[0], Fields(parts[1..]));
      FieldsRead(parts[1..]);
      assert [parts[0]] + parts[1..] == parts;
    }
  }

  // ---------------------------------------------------------------------------------------------
  // The blob and the key
  // ---------------------------------------------------------------------------------------------

  function Blob(op: Operation): string {
    Fields(["v3", op.kind, op.sender, op.to, op.nonce, Decimal(op.iat), Decimal(op.exp)])
  }

  function ReadBlob(s: string): Option<Operation> {
    match ReadFields(s)
    case None => None
    case Some(p) =>
      if |p| == 7 && p[0] == "v3" then Some(Operation(p[1], p[2], p[3], p[4], IntOf(p[5]), IntOf(p[6]))) else None
  }

  /** The signed text determines type, sender, recipient, nonce and both instants. */
  lemma {:induction false} BlobIsReadBack(op: Operation)
    ensures ReadBlob(Blob(op)) == Some(op)
  {
    FieldsRead(["v3", op.kind, op.sender, op.to, op.nonce, Decimal(op.iat), Decimal(op.exp)]);
    DecimalRead(op.iat);
    DecimalRead(op.exp);
  }

  lemma {:induction false} BlobInjective(a: Operation, b: Operation)
    requires Blob(a) == Blob(b)
    ensures a == b
  {
    BlobIsReadBack(a);
    BlobIsReadBack(b);
  }

  function SeenKey(sender: string, nonce: string): string { Digits(|sender|) + ":" + sender + nonce }

  /** No pair of sender and nonce can be split again into another pair. */
  lemma {:induction false} SeenKeyInjective(a: string, m: string, b: string, n: string)
    requires SeenKey(a, m) == SeenKey(b, n)
    ensures a == b && m == n
  {
    FieldRead(a, m);
    FieldRead(b, n);
  }
}
