/** The structural check of interface files: brackets outside comments and strings must balance. */
module BracketChecker {

  /** Where the reader of a file is: in code, after a slash in code, in a comment, after a star in a
      block comment, in a string, after a backslash in one. */
  datatype Mode = Code | Slash | LineComment | BlockComment | BlockStar | Text(quote: char) | Escape(quote: char)

  datatype Token = Token(c: char, line: nat)

  datatype Problem =
    | Mismatch(c: char, line: nat, expected: char)
    | Unexpected(c: char, line: nat)
    | Unclosed(c: char, line: nat)

  predicate IsOpen(c: char) { c == '{' || c == '(' || c == '[' }

  predicate IsClose(c: char) { c == '}' || c == ')' || c == ']' }

  function Closer(c: char): char
    requires IsOpen(c)
  {
    if c == '{' then '}' else if c == '(' then ')' else ']'
  }

  // ---------------------------------------------------------------------------------------------
  // The brackets of a file, read one character at a time
  // ---------------------------------------------------------------------------------------------

  function NextInCode(c: char): Mode {
    if c == '/' then Slash else if c == '"' || c == '\'' then Text(c) else Code
  }

  function Next(m: Mode, c: char): Mode {
    match m
    case Code => NextInCode(c)
    case Slash => if c == '/' then LineComment else if c == '*' then BlockComment else NextInCode(c)
    case LineComment => if c == '\n' then Code else LineComment
    case BlockComment => if c == '*' then BlockStar else BlockComment
    case BlockStar => if c == '/' then Code else if c == '*' then BlockStar else BlockComment
    case Text(q) => if c == q then Code else if c == '\\' then Escape(q) else Text(q)
    case Escape(q) => Text(q)
  }

  predicate InCode(m: Mode) { m == Code || m == Slash }

  /** A newline counts unless it is escaped in a string. */
  function LineAfter(m: Mode, c: char, line: nat): nat { if c == '\n' && !m.Escape? then line + 1 else line }

  function Scan(m: Mode, line: nat, data: string): seq<Token>
    decreases |data|
  {
    if data == [] then []
    else
      var c := data[0];
      (if InCode(m) && (IsOpen(c) || IsClose(c)) then [Token(c, line)] else [])
      + Scan(Next(m, c), LineAfter(m, c, line), data[1..])
  }

  function Tokens(data: string): seq<Token> { Scan(Code, 1, data) }

  // ---------------------------------------------------------------------------------------------
  // Problems
  // ---------------------------------------------------------------------------------------------

  function UnclosedOf(stack: seq<Token>): seq<Problem> {
    if stack == [] then [] else [Unclosed(stack[0].c, stack[0].line)] + UnclosedOf(stack[1..])
  }

  predicate AllOpen(stack: seq<Token>) { forall t | t in stack :: IsOpen(t.c) }

  function ProblemsFrom(stack: seq<Token>, tokens: seq<Token>): seq<Problem>
    requires AllOpen(stack)
    decreases |tokens|
  {
    if tokens == [] then UnclosedOf(stack)
    else
      var t, rest := tokens[0], tokens[1..];
      if IsOpen(t.c) then ProblemsFrom(stack + [t], rest)
      else if stack == [] then [Unexpected(t.c, t.line)] + ProblemsFrom(stack, rest)
      else
        var expected := Closer(stack[|stack| - 1].c);
        (if expected == t.c then [] else [Mismatch(t.c, t.line, expected)])
        + ProblemsFrom(stack[..|stack| - 1], rest)
  }

  // ---------------------------------------------------------------------------------------------
  // The check itself
  // ---------------------------------------------------------------------------------------------

  function From(data: string, i: nat): string { if i <= |data| then data[i..] else [] }

  /** Read to the end of a line comment. */
  method SkipLineComment(data: string, start: nat, ghost line: nat) returns (i: nat)
    requires start <= |data|
    ensures start <= i <= |data|
    ensures Scan(Code, line, data[i..]) == Scan(LineComment, line, data[start..])
  {
    i := start;
    ghost var goal := Scan(LineComment, line, data[start..]);
    while i < |data| && data[i] != '\n'
      invariant start <= i <= |data|
      invariant Scan(LineComment, line, data[i..]) == goal
    {
      assert data[i..][1..] == data[i + 1..];
      i := i + 1;
    }
  }

  method SkipBlockComment(data: string, start: nat, line: nat) returns (i: nat, l: nat)
    requires start <= |data|
    ensures start <= i <= |data|
    ensures Scan(Code, l, data[i..]) == Scan(BlockComment, line, data[start..])
  {
    i, l := start, line;
    ghost var goal := Scan(BlockComment, line, data[start..]);
    while i + 1 < |data| && !(data[i] == '*' && data[i + 1] == '/')
      invariant start <= i <= |data|
      invariant Scan(BlockComment, l, data[i..]) == goal
    {
      StarOrNot(l, data[i..]);
      if data[i] == '\n' { l := l + 1; }
      i := i + 1;
    }
    if i + 1 < |data| { StarSlash(l, data[i..]); }
    i := if i + 2 < |data| then i + 2 else |data|;
  }

  method SkipString(data: string, start: nat, quote: char, line: nat) returns (i: nat, l: nat)
    requires start <= |data| && quote in {'"', '\''}
    ensures start < i <= |data| + 1
    ensures Scan(Code, l, From(data, i)) == Scan(Text(quote), line, data[start..])
  {
    i, l := start, line;
    ghost var goal := Scan(Text(quote), line, data[start..]);
    while i < |data| && data[i] != quote
      invariant start <= i <= |data|
      invariant Scan(Text(quote), l, data[i..]) == goal
    {
      if data[i] == '\\' && i + 1 < |data| {
        EscapedPair(quote, l, data[i..]);
        assert data[i..][2..] == data[i + 2..];
        i := i + 2;
        continue;
      }
      PlainText(quote, l, data[i..]);
      assert data[i..][1..] == data[i + 1..];
      if data[i] == '\n' { l := l + 1; }
      i := i + 1;
    }
    if i < |data| { TextEnds(quote, l, data[i..]); }
    i := i + 1;
  }

  lemma {:induction false} StarOrNot(line: nat, s: string)
    requires |s| >= 2 && !(s[0] == '*' && s[1] == '/')
    ensures Scan(BlockComment, line, s) == Scan(BlockComment, LineAfter(BlockComment, s[0], line), s[1..])
  {
    if s[0] == '*' {
      assert Next(BlockStar, s[1]) == Next(BlockComment, s[1]);
      assert Scan(BlockStar, line, s[1..]) == Scan(BlockComment, line, s[1..]);
    }
  }

  lemma {:induction false} StarSlash(line: nat, s: string)
    requires |s| >= 2 && s[0] == '*' && s[1] == '/'
    ensures Scan(BlockComment, line, s) == Scan(Code, line, s[2..])
  {
    assert s[1..][1..] == s[2..];
    assert Scan(BlockComment, line, s) == Scan(BlockStar, line, s[1..]);
  }

  lemma {:induction false} PlainText(quote: char, line: nat, s: string)
    requires s != [] && s[0] != quote && (s[0] == '\\' ==> |s| == 1)
    ensures Scan(Text(quote), line, s) == Scan(Text(quote), LineAfter(Text(quote), s[0], line), s[1..])
  {
  }

  lemma {:induction false} TextEnds(quote: char, line: nat, s: string)
    requires s != [] && s[0] == quote && quote in {'"', '\''}
    ensures Scan(Text(quote), line, s) == Scan(Code, line, s[1..])
  {
  }

  lemma {:induction false} EscapedPair(quote: char, line: nat, s: string)
    requires |s| >= 2 && s[0] == '\\' && quote != '\\'
    ensures Scan(Text(quote), line, s) == Scan(Text(quote), line, s[2..])
  {
    assert s[1..][1..] == s[2..];
    assert Scan(Text(quote), line, s) == Scan(Escape(quote), line, s[1..]);
  }

  /** A slash that starts no comment is like any other character of the code. */
  lemma {:induction false} LoneSlash(line: nat, s: string)
    requires s != [] && s[0] == '/' && (|s| == 1 || (s[1] != '/' && s[1] != '*'))
    ensures Scan(Code, line, s) == Scan(Code, line, s[1..])
  {
    assert Scan(Code, line, s) == Scan(Slash, line, s[1..]);
  }

  lemma {:induction false} CommentStarts(line: nat, s: string)
    requires |s| >= 2 && s[0] == '/' && (s[1] == '/' || s[1] == '*')
    ensures Scan(Code, line, s) == Scan(if s[1] == '/' then LineComment else BlockComment, line, s[2..])
  {
    assert s[1..][1..] == s[2..];
    assert Scan(Code, line, s) == Scan(Slash, line, s[1..]);
  }

  /** A bracket in code: push it, or pop and compare. */
  method TakeBracket(stack: seq<Token>, c: char, line: nat, ghost rest: seq<Token>)
    returns (stack': seq<Token>, found: seq<Problem>)
    requires AllOpen(stack) && (IsOpen(c) || IsClose(c))
    ensures AllOpen(stack')
    ensures found + ProblemsFrom(stack', rest) == ProblemsFrom(stack, [Token(c, line)] + rest)
  {
    stack', found := stack, [];
    assert ([Token(c, line)] + rest)[1..] == rest;
    if IsOpen(c) {
      stack' := stack + [Token(c, line)];
    } else if stack != [] {
      var opener := stack[|stack| - 1].c;
      stack' := stack[..|stack| - 1];
      if Closer(opener) != c { found := [Mismatch(c, line, Closer(opener))]; }
    } else {
      found := [Unexpected(c, line)];
    }
  }

  method ReportUnclosed(stack: seq<Token>) returns (found: seq<Problem>)
    ensures found == UnclosedOf(stack)
  {
    found := [];
    for k := 0 to |stack|
      invariant found + UnclosedOf(stack[k..]) == UnclosedOf(stack)
    {
      found := found + [Unclosed(stack[k].c, stack[k].line)];
    }
  }

  /** One turn of the check, from a character of the code to the next place in the code. */
  method TakeOne(data: string, start: nat, line: nat, stack: seq<Token>)
    returns (i: nat, l: nat, stack': seq<Token>, found: seq<Problem>)
    requires start < |data| && AllOpen(stack)
    ensures start < i <= |data| + 1 && AllOpen(stack')
    ensures found + ProblemsFrom(stack', Scan(Code, l, From(data, i)))
        == ProblemsFrom(stack, Scan(Code, line, data[start..]))
  {
    i, l, stack', found := start, line, stack, [];
    var c := data[i];
    var n := |data|;
    assert data[i..][1..] == data[i + 1..];
    if c == '\n' {
      assert Scan(Code, line, data[i..]) == Scan(Code, line + 1, data[i + 1..]);
      l, i := l + 1, i + 1;
    } else if c == '/' && i + 1 < n && (data[i + 1] == '/' || data[i + 1] == '*') {
      CommentStarts(line, data[i..]);
      assert data[i..][2..] == data[i + 2..];
      if data[i + 1] == '/' { i := SkipLineComment(data, i + 2, line); }
      else { i, l := SkipBlockComment(data, i + 2, line); }
    } else if c == '"' || c == '\'' {
      assert Scan(Code, line, data[i..]) == Scan(Text(c), line, data[i + 1..]);
      i, l := SkipString(data, i + 1, c, line);
    } else if IsOpen(c) || IsClose(c) {
      ghost var rest := Scan(Code, line, data[i + 1..]);
      assert Scan(Code, line, data[i..]) == [Token(c, line)] + rest;
      stack', found := TakeBracket(stack, c, line, rest);
      i := i + 1;
    } else {
      if c == '/' { LoneSlash(line, data[i..]); }
      assert Scan(Code, line, data[i..]) == Scan(Code, line, data[i + 1..]);
      i := i + 1;
    }
  }

  /** All problems of a file's text, in the order they are found. */
  method CheckFile(data: string) returns (problems: seq<Problem>)
    ensures problems == ProblemsFrom([], Tokens(data))
  {
    var stack: seq<Token> := [];
    var i, line := 0, 1;
    problems := [];
    while i < |data|
      invariant 0 <= i <= |data| + 1 && AllOpen(stack) && line >= 0
      invariant problems + ProblemsFrom(stack, Scan(Code, line, From(data, i))) == ProblemsFrom([], Tokens(data))
    {
      ghost var before, todo := problems, ProblemsFrom(stack, Scan(Code, line, data[i..]));
      var found;
      i, line, stack, found := TakeOne(data, i, line, stack);
      problems := problems + found;
      assert before + (found + ProblemsFrom(stack, Scan(Code, line, From(data, i)))) == before + todo;
    }
    var unclosed := ReportUnclosed(stack);
    problems := problems + unclosed;
  }

  // ---------------------------------------------------------------------------------------------
  // Balanced words
  // ---------------------------------------------------------------------------------------------

  /** Derivations of the grammar of balanced words: nothing, or a bracketed word and then another word. */
  datatype Word = Empty | Bracketed(opener: char, inner: Word, closer: char, after: Word)

  predicate Pair(opener: char, closer: char) {
    (opener == '(' && closer == ')') || (opener == '[' && closer == ']') || (opener == '{' && closer == '}')
  }

  predicate Proper(w: Word) {
    w.Bracketed? ==> Pair(w.opener, w.closer) && Proper(w.inner) && Proper(w.after)
  }

  function Spelled(w: Word): string {
    if w.Empty? then "" else [w.opener] + Spelled(w.inner) + [w.closer] + Spelled(w.after)
  }

  /** The brackets alone. */
  function Chars(tokens: seq<Token>): string { if tokens == [] then "" else [tokens[0].c] + Chars(tokens[1..]) }

  ghost predicate Balanced(s: string) { exists w :: Proper(w) && Spelled(w) == s }

  /** A stack of open brackets is emptied exactly. */
  predicate Empties(stack: string, s: string)
    requires forall c | c in stack :: IsOpen(c)
    decreases |s|
  {
    if s == "" then stack == ""
    else if IsOpen(s[0]) then Empties(stack + [s[0]], s[1..])
    else stack != "" && s[0] == Closer(stack[|stack| - 1]) && Empties(stack[..|stack| - 1], s[1..])
  }

  /** A balanced word in front of the rest leaves the stack as it was. */
  lemma {:induction false} WordPasses(w: Word, stack: string, rest: string)
    requires Proper(w) && forall c | c in stack :: IsOpen(c)
    ensures Empties(stack, Spelled(w) + rest) <==> Empties(stack, rest)
    decreases w
  {
    if w.Empty? {
      assert Spelled(w) + rest == rest;
    } else {
      var c, pushed := w.opener, stack + [w.opener];
      var more := Spelled(w.after) + rest;
      var closing := [w.closer] + more;
      assert Spelled(w) + rest == [c] + (Spelled(w.inner) + closing);
      assert ([c] + (Spelled(w.inner) + closing))[1..] == Spelled(w.inner) + closing;
      WordPasses(w.inner, pushed, closing);
      assert pushed[..|stack|] == stack && closing[1..] == more;
      WordPasses(w.after, stack, rest);
    }
  }

  /** Read a word that empties a stack up to the bracket that closes the innermost open one. */
  lemma {:induction false} ReadWord(stack: string, s: string) returns (w: Word, rest: string)
    requires (forall c | c in stack :: IsOpen(c)) && Empties(stack, s)
    ensures Proper(w) && s == Spelled(w) + rest
    ensures if stack == "" then rest == ""
            else rest != "" && rest[0] == Closer(stack[|stack| - 1]) && Empties(stack[..|stack| - 1], rest[1..])
    decreases |s|
  {
    if s == "" || !IsOpen(s[0]) { return Empty, s; }
    var pushed := stack + [s[0]];
    var inner, closing := ReadWord(pushed, s[1..]);
    assert pushed[..|stack|] == stack;
    var after;
    after, rest := ReadWord(stack, closing[1..]);
    w := Bracketed(s[0], inner, closing[0], after);
    Assembled(s, inner, closing, after, rest);
  }

  lemma {:induction false} Assembled(s: string, inner: Word, closing: string, after: Word, rest: string)
    requires s != "" && IsOpen(s[0]) && Proper(inner) && Proper(after)
    requires s[1..] == Spelled(inner) + closing && closing != "" && closing[0] == Closer(s[0])
    requires closing[1..] == Spelled(after) + rest
    ensures s == Spelled(Bracketed(s[0], inner, closing[0], after)) + rest
  {
    assert s == [s[0]] + s[1..] && closing == [closing[0]] + closing[1..];
    Regrouped([s[0]], Spelled(inner), [closing[0]], Spelled(after), rest);
  }

  lemma {:induction false} Regrouped(a: string, b: string, c: string, d: string, e: string)
    ensures a + (b + (c + (d + e))) == a + b + c + d + e
  {
  }

  lemma {:induction false} NoProblemsMeansEmptied(stack: seq<Token>, tokens: seq<Token>)
    requires AllOpen(stack) && forall c | c in Chars(stack) :: IsOpen(c)
    ensures ProblemsFrom(stack, tokens) == [] <==> Empties(Chars(stack), Chars(tokens))
    decreases |tokens|
  {
    var n := |stack| - 1;
    if tokens != [] {
      var t, rest := tokens[0], tokens[1..];
      if IsOpen(t.c) {
        CharsSnoc(stack, t);
        NoProblemsMeansEmptied(stack + [t], rest);
      } else if stack != [] {
        assert stack == stack[..n] + [stack[n]];
        CharsSnoc(stack[..n], stack[n]);
        NoProblemsMeansEmptied(stack[..n], rest);
      }
    }
  }

  lemma {:induction false} CharsSnoc(tokens: seq<Token>, t: Token)
    ensures Chars(tokens + [t]) == Chars(tokens) + [t.c]
  {
    if tokens != [] {
      assert (tokens + [t])[1..] == tokens[1..] + [t];
      CharsSnoc(tokens[1..], t);
    }
  }

  /** A file has no problem exactly if its brackets outside comments and strings spell a balanced word. */
  lemma {:induction false} NoProblemsIffBalanced(data: string)
    ensures ProblemsFrom([], Tokens(data)) == [] <==> Balanced(Chars(Tokens(data)))
  {
    var s := Chars(Tokens(data));
    NoProblemsMeansEmptied([], Tokens(data));
    if Empties("", s) {
      var w, rest := ReadWord("", s);
      assert Spelled(w) == s;
    }
    if Balanced(s) {
      var w :| Proper(w) && Spelled(w) == s;
      WordPasses(w, "", "");
      assert s + "" == s;
    }
  }
}
