/** Base64 as in section 4 of RFC 4648, with the forgiving decoder the daemon uses: it skips
    characters outside the alphabet, stops at a complete padding, and fails on leftovers. */
module Base64 {
  import opened Options
  import opened Bytes

  const ALPHABET := "ABCDEFGHIJKLMNOPQRSTUVWXYZabcdefghijklmnopqrstuvwxyz0123456789+/"

  function Digit(v: int): (c: char)
    requires 0 <= v < 64
    ensures Value(c) == v && c != '='
  {
    if v < 26 then 'A' + v as char
    else if v < 52 then 'a' + (v - 26) as char
    else if v < 62 then '0' + (v - 52) as char
    else if v == 62 then '+' else '/'
  }

  /** The value of an alphabet character, 64 for any other. */
  function Value(c: char): (v: int)
    ensures 0 <= v <= 64
  {
    if 'A' <= c <= 'Z' then (c - 'A') as int
    else if 'a' <= c <= 'z' then (c - 'a') as int + 26
    else if '0' <= c <= '9' then (c - '0') as int + 52
    else if c == '+' then 62
    else if c == '/' then 63
    else 64
  }

  function Encode(data: seq<byte>): (text: string)
    ensures forall i | 0 <= i < |text| :: text[i] == '=' || Value(text[i]) < 64
  {
    if data == [] then ""
    else if |data| == 1 then
      [Digit(data[0] / 4), Digit(data[0] % 4 * 16), '=', '=']
    else if |data| == 2 then
      [Digit(data[0] / 4), Digit(data[0] % 4 * 16 + data[1] / 16), Digit(data[1] % 16 * 4), '=']
    else
      [Digit(data[0] / 4), Digit(data[0] % 4 * 16 + data[1] / 16),
       Digit(data[1] % 16 * 4 + data[2] / 64), Digit(data[2] % 64)] + Encode(data[3..])
  }

  /** Four characters for every three bytes begun. */
  lemma {:induction false} EncodedLength(data: seq<byte>)
    ensures |Encode(data)| == (|data| + 2) / 3 * 4
  {
    if |data| > 2 { EncodedLength(data[3..]); }
  }

  /** The decoder after some input: position in the group of four, bits left over, padding seen. */
  datatype Scan = Scan(quad: int, left: int, pads: int) {
    predicate Valid() {
      && 0 <= quad < 4 && 0 <= pads
      && (quad == 0 ==> left == 0) && (quad == 1 ==> 0 <= left < 64)
      && (quad == 2 ==> 0 <= left < 16) && (quad == 3 ==> 0 <= left < 4)
    }
  }

  const START := Scan(0, 0, 0)

  function DecodeFrom(s: string, st: Scan): Option<seq<byte>>
    requires st.Valid()
    decreases |s|
  {
    if s == [] then
      if st.quad == 0 then Some([]) else None
    else if s[0] == '=' then
      if st.quad < 2 then DecodeFrom(s[1..], st)
      else if st.quad + st.pads + 1 >= 4 then Some([])
      else DecodeFrom(s[1..], st.(pads := st.pads + 1))
    else
      var v := Value(s[0]);
      if v == 64 then DecodeFrom(s[1..], st)
      else if st.quad == 0 then DecodeFrom(s[1..], Scan(1, v, 0))
      else if st.quad == 1 then Emit(st.left * 4 + v / 16, DecodeFrom(s[1..], Scan(2, v % 16, 0)))
      else if st.quad == 2 then Emit(st.left * 16 + v / 4, DecodeFrom(s[1..], Scan(3, v % 4, 0)))
      else Emit(st.left * 64 + v, DecodeFrom(s[1..], Scan(0, 0, 0)))
  }

  function Emit(b: byte, rest: Option<seq<byte>>): Option<seq<byte>> {
    if rest.None? then None else Some([b] + rest.value)
  }

  /** Text with a character outside ASCII does not decode at all. */
  function Decode(s: string): Option<seq<byte>> {
    if exists i | 0 <= i < |s| :: s[i] as int > 127 then None else DecodeFrom(s, START)
  }

  lemma {:induction false} DecodeFour(v1: int, v2: int, v3: int, v4: int, rest: string)
    requires 0 <= v1 < 64 && 0 <= v2 < 64 && 0 <= v3 < 64 && 0 <= v4 < 64
    ensures DecodeFrom([Digit(v1), Digit(v2), Digit(v3), Digit(v4)] + rest, START)
            == Emit(v1 * 4 + v2 / 16, Emit(v2 % 16 * 16 + v3 / 4, Emit(v3 % 4 * 64 + v4, DecodeFrom(rest, START))))
  {
    var s := [Digit(v1), Digit(v2), Digit(v3), Digit(v4)] + rest;
    assert s[1..] == [Digit(v2), Digit(v3), Digit(v4)] + rest;
    assert s[1..][1..] == [Digit(v3), Digit(v4)] + rest;
    assert s[1..][1..][1..] == [Digit(v4)] + rest;
    assert s[1..][1..][1..][1..] == rest;
    assert DecodeFrom(s, START) == DecodeFrom(s[1..], Scan(1, v1, 0));
    assert DecodeFrom(s[1..], Scan(1, v1, 0)) == Emit(v1 * 4 + v2 / 16, DecodeFrom(s[1..][1..], Scan(2, v2 % 16, 0)));
    assert DecodeFrom(s[1..][1..], Scan(2, v2 % 16, 0))
        == Emit(v2 % 16 * 16 + v3 / 4, DecodeFrom(s[1..][1..][1..], Scan(3, v3 % 4, 0)));
  }

  /** Cutting three bytes into four six-bit digits loses nothing. */
  lemma {:induction false} Regroup(a: byte, b: byte, c: byte)
    ensures (a / 4) * 4 + (a % 4 * 16 + b / 16) / 16 == a
    ensures (a % 4 * 16 + b / 16) % 16 * 16 + (b % 16 * 4 + c / 64) / 4 == b
    ensures (b % 16 * 4 + c / 64) % 4 * 64 + c % 64 == c
  {
  }

  lemma {:induction false} DecodeTail(data: seq<byte>)
    requires |data| == 1 || |data| == 2
    ensures DecodeFrom(Encode(data), START) == Some(data)
  {
    var s := Encode(data);
    var v1 := data[0] / 4;
    assert DecodeFrom(s, START) == DecodeFrom(s[1..], Scan(1, v1, 0));
    if |data| == 1 {
      Regroup(data[0], 0, 0);
      var v2 := data[0] % 4 * 16;
      assert v2 % 16 == 0 && v1 * 4 + v2 / 16 == data[0];
      assert s[1..] == [Digit(v2), '=', '='] && s[1..][1..] == ['=', '='] && s[1..][1..][1..] == ['='];
      assert DecodeFrom(s[1..][1..][1..], Scan(2, 0, 1)) == Some([]);
      assert DecodeFrom(s[1..][1..], Scan(2, 0, 0)) == Some([]);
      assert DecodeFrom(s[1..], Scan(1, v1, 0)) == Emit(data[0], DecodeFrom(s[1..][1..], Scan(2, 0, 0)));
      assert data == [data[0]] + [];
    } else {
      Regroup(data[0], data[1], 0);
      var v2, v3 := data[0] % 4 * 16 + data[1] / 16, data[1] % 16 * 4;
      assert v3 % 4 == 0;
      assert s[1..] == [Digit(v2), Digit(v3), '='] && s[1..][1..] == [Digit(v3), '='] && s[1..][1..][1..] == ['='];
      assert DecodeFrom(s[1..][1..][1..], Scan(3, 0, 0)) == Some([]);
      assert DecodeFrom(s[1..][1..], Scan(2, v2 % 16, 0)) == Emit(data[1], DecodeFrom(s[1..][1..][1..], Scan(3, 0, 0)));
      assert DecodeFrom(s[1..], Scan(1, v1, 0)) == Emit(data[0], DecodeFrom(s[1..][1..], Scan(2, v2 % 16, 0)));
      assert data == [data[0]] + ([data[1]] + []);
    }
  }

  lemma {:induction false} DecodeFromEncode(data: seq<byte>)
    ensures DecodeFrom(Encode(data), START) == Some(data)
  {
    if data == [] {
    } else if |data| < 3 {
      DecodeTail(data);
    } else {
      var rest := data[3..];
      DecodeFromEncode(rest);
      DecodeGroup(data[0], data[1], data[2], Encode(rest), rest);
      assert data == [data[0], data[1], data[2]] + rest;
    }
  }

  lemma {:induction false} DecodeGroup(a: byte, b: byte, c: byte, text: string, rest: seq<byte>)
    requires DecodeFrom(text, START) == Some(rest)
    ensures
      DecodeFrom(
        [Digit(a / 4), Digit(a % 4 * 16 + b / 16), Digit(b % 16 * 4 + c / 64), Digit(c % 64)] + text, START)
      == Some([a, b, c] + rest)
  {
    DecodeFour(a / 4, a % 4 * 16 + b / 16, b % 16 * 4 + c / 64, c % 64, text);
    Regroup(a, b, c);
    assert [a] + ([b] + ([c] + rest)) == [a, b, c] + rest;
  }

  /** Decoding what was encoded gives the bytes back. */
  lemma {:induction false} RoundTrip(data: seq<byte>)
    ensures Decode(Encode(data)) == Some(data)
  {
    DecodeFromEncode(data);
  }

  // ---------------------------------------------------------------------------------------------
  // What the decoder makes of anything else
  // ---------------------------------------------------------------------------------------------

  predicate InAlphabet(c: char) { 'A' <= c <= 'Z' || 'a' <= c <= 'z' || '0' <= c <= '9' || c == '+' || c == '/' }

  lemma {:induction false} DigitsHaveValues(c: char)
    ensures InAlphabet(c) <==> Value(c) < 64
    ensures InAlphabet(c) ==> c as int <= 127
  {
    if 'A' <= c <= 'Z' { assert (c - 'A') as int < 26; }
    else if 'a' <= c <= 'z' { assert (c - 'a') as int < 26; }
    else if '0' <= c <= '9' { assert (c - '0') as int < 10; }
  }

  /** The characters of the alphabet, and the padding. */
  function Essence(s: string): string {
    if s == "" then "" else (if InAlphabet(s[0]) || s[0] == '=' then [s[0]] else "") + Essence(s[1..])
  }

  lemma {:induction false} SkipsTheRest(s: string, st: Scan)
    requires st.Valid()
    ensures DecodeFrom(s, st) == DecodeFrom(Essence(s), st)
    decreases |s|
  {
    if s != "" {
      var rest := Essence(s[1..]);
      DigitsHaveValues(s[0]);
      if InAlphabet(s[0]) || s[0] == '=' {
        assert Essence(s)[1..] == rest;
        forall next: Scan | next.Valid() ensures DecodeFrom(s[1..], next) == DecodeFrom(rest, next) {
          SkipsTheRest(s[1..], next);
        }
      } else {
        assert Essence(s) == rest;
        SkipsTheRest(s[1..], st);
      }
    }
  }

  lemma {:induction false} EssenceIsAscii(s: string)
    ensures forall i | 0 <= i < |Essence(s)| :: Essence(s)[i] as int <= 127
  {
    if s != "" { EssenceIsAscii(s[1..]); }
  }

  function After(bytes: seq<byte>, rest: Option<seq<byte>>): Option<seq<byte>> {
    if rest.None? then None else Some(bytes + rest.value)
  }

  /** What a character of the alphabet gives out, and where it leaves the decoder. */
  function Step(st: Scan, c: char): (r: (seq<byte>, Scan))
    requires st.Valid() && Value(c) < 64
    ensures r.1.Valid() && r.1.quad == (st.quad + 1) % 4 && r.1.pads == 0
  {
    var v := Value(c);
    match st.quad
    case 0 => ([], Scan(1, v, 0))
    case 1 => ([st.left * 4 + v / 16], Scan(2, v % 16, 0))
    case 2 => ([st.left * 16 + v / 4], Scan(3, v % 4, 0))
    case _ => ([st.left * 64 + v], Scan(0, 0, 0))
  }

  predicate AllDigits(s: string) { forall i | 0 <= i < |s| :: Value(s[i]) < 64 }

  function Walk(st: Scan, digits: string): (r: (seq<byte>, Scan))
    requires st.Valid() && AllDigits(digits)
    ensures r.1.Valid() && r.1.quad == (st.quad + |digits|) % 4
    ensures if digits == "" then r.1 == st else r.1.pads == 0
    decreases |digits|
  {
    if digits == "" then ([], st)
    else
      var (bytes, next) := Step(st, digits[0]);
      var (more, last) := Walk(next, digits[1..]);
      (bytes + more, last)
  }

  lemma {:induction false} OneDigit(c: char, st: Scan, rest: string)
    requires st.Valid() && Value(c) < 64
    ensures DecodeFrom([c] + rest, st) == After(Step(st, c).0, DecodeFrom(rest, Step(st, c).1))
  {
    var s := [c] + rest;
    assert s[0] == c && s[1..] == rest;
    assert c != '=';
    AfterNothing(DecodeFrom(rest, Step(st, c).1));
  }

  /** The decoder gives out what a text of alphabet characters stands for, and goes on from there. */
  lemma {:induction false} ManyDigits(digits: string, st: Scan, rest: string)
    requires st.Valid() && AllDigits(digits)
    ensures DecodeFrom(digits + rest, st) == After(Walk(st, digits).0, DecodeFrom(rest, Walk(st, digits).1))
    decreases |digits|
  {
    hide DecodeFrom, Step;
    if digits == "" {
      assert digits + rest == rest;
      AfterNothing(DecodeFrom(rest, st));
    } else {
      var (bytes, next) := Step(st, digits[0]);
      var (more, last) := Walk(next, digits[1..]);
      assert [digits[0]] + (digits[1..] + rest) == digits + rest;
      assert Walk(st, digits) == (bytes + more, last);
      hide Walk;
      OneDigit(digits[0], st, digits[1..] + rest);
      ManyDigits(digits[1..], next, rest);
      AfterBoth(bytes, more, DecodeFrom(rest, last));
    }
  }

  lemma {:induction false} AfterNothing(rest: Option<seq<byte>>)
    ensures After([], rest) == rest
  {
    if rest.Some? { assert [] + rest.value == rest.value; }
  }

  lemma {:induction false} AfterBoth(a: seq<byte>, b: seq<byte>, rest: Option<seq<byte>>)
    ensures After(a, After(b, rest)) == After(a + b, rest)
  {
    if rest.Some? { assert a + (b + rest.value) == a + b + rest.value; }
  }

  lemma {:induction false} Ascii(digits: string, rest: string)
    requires (forall c | c in digits :: InAlphabet(c)) && forall c | c in rest :: c as int <= 127
    ensures AllDigits(digits) && Decode(digits + rest) == DecodeFrom(digits + rest, START)
  {
    var s := digits + rest;
    forall i | 0 <= i < |digits| ensures Value(digits[i]) < 64 && digits[i] as int <= 127 {
      assert digits[i] in digits;
      DigitsHaveValues(digits[i]);
    }
    forall i | 0 <= i < |s| ensures s[i] as int <= 127 { if i >= |digits| { assert s[i] in rest; } }
  }

  /** What counts are the characters of the alphabet before a padding. Without a padding they must be whole
      groups of four; after two or three of a group a padding of the right length ends the text, whatever
      follows, and a shorter one does not; elsewhere a padding is skipped. */
  lemma {:induction false} WhatDecodes(digits: string, rest: string)
    requires (forall c | c in digits :: InAlphabet(c)) && forall c | c in rest :: c as int <= 127
    ensures Decode(digits + "").Some? <==> |digits| % 4 == 0
    ensures |digits| % 4 == 2 ==> Decode(digits + ("==" + rest)).Some? && Decode(digits + "=").None?
    ensures |digits| % 4 == 3 ==> Decode(digits + ("=" + rest)).Some?
    ensures |digits| % 4 <= 1 ==> Decode(digits + ("=" + rest)) == Decode(digits + rest)
  {
    var one, two := "=" + rest, "==" + rest;
    assert two[1..] == one && one[1..] == rest;
    Ascii(digits, "");
    Ascii(digits, "=");
    Ascii(digits, rest);
    Ascii(digits, one);
    Ascii(digits, two);
    ManyDigits(digits, START, "");
    ManyDigits(digits, START, "=");
    ManyDigits(digits, START, rest);
    ManyDigits(digits, START, one);
    ManyDigits(digits, START, two);
    hide Walk, Decode;
  }

  /** Every other ASCII character is as if it were not there, and one outside ASCII spoils the whole text. */
  lemma {:induction false} WhatCounts(s: string)
    ensures if exists c | c in s :: c as int > 127 then Decode(s) == None else Decode(s) == Decode(Essence(s))
  {
    if exists c | c in s :: c as int > 127 {
      var c :| c in s && c as int > 127;
      var i :| 0 <= i < |s| && s[i] == c;
    } else {
      forall i | 0 <= i < |s| ensures s[i] as int <= 127 { assert s[i] in s; }
      EssenceIsAscii(s);
      SkipsTheRest(s, START);
    }
  }
}
