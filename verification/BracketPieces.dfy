/** What the bracket check reads, said without a reader: a file is code, comments and strings written one
    after the other, and the check sees exactly the brackets of the code, each with its line. */
module BracketPieces {
  import opened BracketChecker

  const DOUBLE := 34 as char
  const SINGLE := 39 as char

  /** A character of a string, plain or after a backslash. */
  datatype Part = One(c: char) | Escaped(c: char)

  /** A piece of a file. */
  datatype Piece =
    | Plain(c: char)
    | LineOf(text: string)
    | BlockOf(text: string)
    | StringOf(quote: char, parts: seq<Part>)

  predicate ProperPart(p: Part, quote: char) { p.One? ==> p.c != quote && p.c != '\\' }

  predicate ProperPiece(p: Piece) {
    match p
    case Plain(c) => c != DOUBLE && c != SINGLE
    case LineOf(text) => '\n' !in text
    case BlockOf(text) => forall i | 0 <= i < |text| - 1 :: !(text[i] == '*' && text[i + 1] == '/')
    case StringOf(quote, parts) => (quote == DOUBLE || quote == SINGLE) && forall p | p in parts :: ProperPart(p, quote)
  }

  function TextOf(parts: seq<Part>): string {
    if parts == [] then ""
    else (if parts[0].One? then [parts[0].c] else ['\\', parts[0].c]) + TextOf(parts[1..])
  }

  function Written(p: Piece): string {
    match p
    case Plain(c) => [c]
    case LineOf(text) => "//" + text + "\n"
    case BlockOf(text) => "/*" + text + "*/"
    case StringOf(quote, parts) => [quote] + TextOf(parts) + [quote]
  }

  function File(pieces: seq<Piece>): string {
    if pieces == [] then "" else Written(pieces[0]) + File(pieces[1..])
  }

  /** The pieces are proper, and no slash of the code begins a comment with what follows it. */
  predicate Proper(pieces: seq<Piece>) {
    pieces != [] ==>
      && ProperPiece(pieces[0]) && Proper(pieces[1..])
      && (pieces[0] == Plain('/') && |pieces| > 1 ==> Written(pieces[1])[0] != '/' && Written(pieces[1])[0] != '*')
  }

  function Newlines(text: string): nat {
    if text == "" then 0 else (if text[0] == '\n' then 1 else 0) + Newlines(text[1..])
  }

  /** The newlines of a string count unless a backslash stands before them. */
  function PartNewlines(parts: seq<Part>): nat {
    if parts == [] then 0 else (if parts[0] == One('\n') then 1 else 0) + PartNewlines(parts[1..])
  }

  function LinesOf(p: Piece): nat {
    match p
    case Plain(c) => if c == '\n' then 1 else 0
    case LineOf(_) => 1
    case BlockOf(text) => Newlines(text)
    case StringOf(_, parts) => PartNewlines(parts)
  }

  /** The brackets of the code. */
  function Brackets(pieces: seq<Piece>, line: nat): seq<Token> {
    if pieces == [] then []
    else
      var p := pieces[0];
      (if p.Plain? && p.c in "{}()[]" then [Token(p.c, line)] else []) + Brackets(pieces[1..], line + LinesOf(p))
  }

  // ---------------------------------------------------------------------------------------------
  // One piece
  // ---------------------------------------------------------------------------------------------

  lemma {:induction false} LineIsSkipped(text: string, line: nat, rest: string)
    requires '\n' !in text
    ensures Scan(LineComment, line, text + "\n" + rest) == Scan(Code, line + 1, rest)
  {
    var all := text + "\n" + rest;
    if text == "" {
      assert all[1..] == rest;
    } else {
      assert all[1..] == text[1..] + "\n" + rest;
      LineIsSkipped(text[1..], line, rest);
    }
  }

  lemma {:induction false} BlockIsSkipped(text: string, line: nat, rest: string)
    requires ProperPiece(BlockOf(text))
    ensures Scan(BlockComment, line, text + "*/" + rest) == Scan(Code, line + Newlines(text), rest)
  {
    var all := text + "*/" + rest;
    if text == "" {
      assert all[2..] == rest;
      StarSlash(line, all);
    } else {
      assert all[1..] == text[1..] + "*/" + rest;
      StarOrNot(line, all);
      BlockIsSkipped(text[1..], LineAfter(BlockComment, text[0], line), rest);
    }
  }

  lemma {:induction false} StringIsSkipped(quote: char, parts: seq<Part>, line: nat, rest: string)
    requires ProperPiece(StringOf(quote, parts))
    ensures Scan(Text(quote), line, TextOf(parts) + [quote] + rest) == Scan(Code, line + PartNewlines(parts), rest)
  {
    var all := TextOf(parts) + [quote] + rest;
    if parts == [] {
      assert all[1..] == rest;
      TextEnds(quote, line, all);
    } else {
      assert ProperPart(parts[0], quote);
      var more := TextOf(parts[1..]) + [quote] + rest;
      if parts[0].One? {
        assert all[1..] == more;
        PlainText(quote, line, all);
      } else {
        assert all[2..] == more;
        EscapedPair(quote, line, all);
      }
      StringIsSkipped(quote, parts[1..], line + if parts[0] == One('\n') then 1 else 0, rest);
    }
  }

  lemma {:induction false} PlainIsRead(c: char, line: nat, rest: string)
    requires ProperPiece(Plain(c)) && (c == '/' && rest != "" ==> rest[0] != '/' && rest[0] != '*')
    ensures Scan(Code, line, [c] + rest) ==
              (if c in "{}()[]" then [Token(c, line)] else []) + Scan(Code, line + LinesOf(Plain(c)), rest)
  {
    var all := [c] + rest;
    assert all[1..] == rest && all[0] == c;
    if c == '/' {
      LoneSlash(line, all);
      hide Scan;
    }
  }

  lemma {:induction false} StringStarts(quote: char, line: nat, rest: string)
    requires quote == DOUBLE || quote == SINGLE
    ensures Scan(Code, line, [quote] + rest) == Scan(Text(quote), line, rest)
  {
    var all := [quote] + rest;
    assert all[1..] == rest && all[0] == quote;
  }

  lemma {:induction false} CommentIsOpened(star: bool, line: nat, rest: string)
    ensures Scan(Code, line, ['/', if star then '*' else '/'] + rest)
         == Scan(if star then BlockComment else LineComment, line, rest)
  {
    var all := ['/', if star then '*' else '/'] + rest;
    assert all[2..] == rest;
    CommentStarts(line, all);
  }

  lemma {:induction false} LineIsRead(text: string, line: nat, rest: string)
    requires ProperPiece(LineOf(text))
    ensures Scan(Code, line, Written(LineOf(text)) + rest) == Scan(Code, line + 1, rest)
  {
    CommentIsOpened(false, line, text + "\n" + rest);
    LineIsSkipped(text, line, rest);
    hide Scan;
    assert Written(LineOf(text)) + rest == ['/', '/'] + (text + "\n" + rest);
  }

  lemma {:induction false} BlockIsRead(text: string, line: nat, rest: string)
    requires ProperPiece(BlockOf(text))
    ensures Scan(Code, line, Written(BlockOf(text)) + rest) == Scan(Code, line + Newlines(text), rest)
  {
    CommentIsOpened(true, line, text + "*/" + rest);
    BlockIsSkipped(text, line, rest);
    hide Scan, Newlines;
    assert Written(BlockOf(text)) + rest == ['/', '*'] + (text + "*/" + rest);
  }

  lemma {:induction false} StringIsRead(quote: char, parts: seq<Part>, line: nat, rest: string)
    requires ProperPiece(StringOf(quote, parts))
    ensures Scan(Code, line, Written(StringOf(quote, parts)) + rest) == Scan(Code, line + PartNewlines(parts), rest)
  {
    StringStarts(quote, line, TextOf(parts) + [quote] + rest);
    StringIsSkipped(quote, parts, line, rest);
    hide Scan, TextOf, PartNewlines;
    assert Written(StringOf(quote, parts)) + rest == [quote] + (TextOf(parts) + [quote] + rest);
  }

  lemma {:induction false} PieceIsRead(p: Piece, line: nat, rest: string)
    requires ProperPiece(p)
    requires p == Plain('/') && rest != "" ==> rest[0] != '/' && rest[0] != '*'
    ensures Scan(Code, line, Written(p) + rest) ==
              (if p.Plain? && p.c in "{}()[]" then [Token(p.c, line)] else []) + Scan(Code, line + LinesOf(p), rest)
  {
    hide Scan;
    match p
    case Plain(c) => PlainIsRead(c, line, rest);
    case LineOf(text) => LineIsRead(text, line, rest);
    case BlockOf(text) => BlockIsRead(text, line, rest);
    case StringOf(quote, parts) => StringIsRead(quote, parts, line, rest);
  }

  /** Whatever code, comments and strings a file is put together from: the check sees exactly the brackets of
      the code, in order, each with the number of its line. */
  lemma {:induction false} ReadsTheCode(pieces: seq<Piece>, line: nat)
    requires Proper(pieces)
    ensures Scan(Code, line, File(pieces)) == Brackets(pieces, line)
  {
    if pieces != [] {
      FileStarts(pieces[1..]);
      PieceIsRead(pieces[0], line, File(pieces[1..]));
      ReadsTheCode(pieces[1..], line + LinesOf(pieces[0]));
    }
  }

  lemma {:induction false} FileStarts(pieces: seq<Piece>)
    ensures if pieces == [] then File(pieces) == "" else File(pieces) != "" && File(pieces)[0] == Written(pieces[0])[0]
  {
  }

  /** So a file of whatever pieces has no problem exactly if the brackets of its code spell a balanced word. */
  lemma {:induction false} ChecksTheCode(pieces: seq<Piece>)
    requires Proper(pieces)
    ensures Tokens(File(pieces)) == Brackets(pieces, 1)
    ensures ProblemsFrom([], Tokens(File(pieces))) == [] <==> Balanced(Chars(Brackets(pieces, 1)))
  {
    ReadsTheCode(pieces, 1);
    NoProblemsIffBalanced(File(pieces));
  }
}
