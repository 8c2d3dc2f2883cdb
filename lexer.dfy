/**
 * The lexer: one left-to-right pass over the source text with the cursors
 * `start` (first character of the lexeme being scanned), `current` (next
 * character to read) and `line`, appending tokens and error reports as it goes.
 *
 * The class `Lexer` follows the source's imperative structure; the functions
 * `ScanOne` and `LexFrom` say declaratively what one lexeme and the whole
 * remaining input scan to, and each method is proved against them.
 */
module Scanner {
  import opened Wrappers
  import opened Values
  import opened Tokens

  /** The ten decimal digits. */
  const Digits: set<char> := {'0', '1', '2', '3', '4', '5', '6', '7', '8', '9'}

  /** The 26 lower-case ASCII letters. */
  const Lowercase: set<char> := {
    'a', 'b', 'c', 'd', 'e', 'f', 'g', 'h', 'i', 'j', 'k', 'l', 'm',
    'n', 'o', 'p', 'q', 'r', 's', 't', 'u', 'v', 'w', 'x', 'y', 'z'}

  /** The 26 upper-case ASCII letters. */
  const Uppercase: set<char> := {
    'A', 'B', 'C', 'D', 'E', 'F', 'G', 'H', 'I', 'J', 'K', 'L', 'M',
    'N', 'O', 'P', 'Q', 'R', 'S', 'T', 'U', 'V', 'W', 'X', 'Y', 'Z'}

  /** The characters a word may start with: the ASCII letters and `_`. */
  const WordStarts: set<char> := Lowercase + Uppercase + {'_'}

  lemma LowercaseRange(c: char)
    ensures 'a' <= c <= 'z' <==> c in Lowercase
  {
  }

  lemma UppercaseRange(c: char)
    ensures 'A' <= c <= 'Z' <==> c in Uppercase
  {
  }

  /** `isDigit`: an ASCII decimal digit, nothing else. */
  predicate IsDigit(c: char)
    ensures IsDigit(c) <==> c in Digits
  {
    '0' <= c <= '9'
  }

  /** `isAlpha`: an ASCII letter or `_`, which a number never starts with. */
  predicate IsAlpha(c: char)
    ensures IsAlpha(c) ==> !IsDigit(c)
  {
    ('a' <= c <= 'z') || ('A' <= c <= 'Z') || c == '_'
  }

  /** `isAlphaNumeric`: a character that may continue a word, letter or digit. */
  predicate IsAlphaNumeric(c: char)
    ensures IsAlpha(c) ==> IsAlphaNumeric(c)
    ensures IsDigit(c) ==> IsAlphaNumeric(c)
  {
    IsAlpha(c) || IsDigit(c)
  }

  /** The three character classes as sets: `_` and the ASCII letters start a word, digits may continue it. */
  lemma CharacterClasses(c: char)
    ensures IsAlpha(c) <==> c in WordStarts
    ensures IsAlphaNumeric(c) <==> c in WordStarts + Digits
  {
    LowercaseRange(c);
    UppercaseRange(c);
  }

  /** The character classes the lexer consumes runs of. */
  datatype CharClass = Digit | AlphaNumeric | LineBody | StringBody

  predicate InClass(c: char, cls: CharClass) {
    match cls
    case Digit => IsDigit(c)
    case AlphaNumeric => IsAlphaNumeric(c)
    case LineBody => c != '\n'
    case StringBody => c != '"'
  }

  /** The line the cursor is on once `s[..i]` is consumed: one plus the newlines in it. */
  function LineAt(s: string, i: nat): (r: int)
    requires i <= |s|
    ensures r >= 1
  {
    if i == 0 then 1 else LineAt(s, i - 1) + (if s[i - 1] == '\n' then 1 else 0)
  }

  /** The end of the longest run of characters satisfying `p` that starts at `i`. */
  function RunEnd(s: string, i: nat, cls: CharClass): (j: nat)
    requires i <= |s|
    ensures i <= j <= |s|
    decreases |s| - i
  {
    if i < |s| && InClass(s[i], cls) then RunEnd(s, i + 1, cls) else i
  }

  /**
   * The end of a number literal starting at `i`: a digit run, then a `.` and a
   * second digit run only when a digit follows the `.`.
   */
  function NumberEnd(s: string, i: nat): (j: nat)
    requires i < |s| && IsDigit(s[i])
    ensures i < j <= |s|
  {
    var d := RunEnd(s, i, Digit);
    if d + 1 < |s| && s[d] == '.' && IsDigit(s[d + 1]) then RunEnd(s, d + 1, Digit) else d
  }

  /** The kind of an identifier-shaped lexeme: its keyword's kind, else IDENTIFIER. */
  function WordKind(w: string): (k: TokenType)
    ensures IsKeywordKind(k) <==> w in Keywords
    ensures !IsKeywordKind(k) ==> k == Identifier
  {
    if w in Keywords then Keywords[w] else Identifier
  }

  /** The kinds of the one-character tokens that need no lookahead. */
  function SingleCharKind(c: char): (k: Option<TokenType>)
    ensures k.Some? <==> c in {'(', ')', '{', '}', ',', '.', '-', '+', ';', ':', '*', '?'}
  {
    match c
    case '(' => Some(LeftParen)
    case ')' => Some(RightParen)
    case '{' => Some(LeftBrace)
    case '}' => Some(RightBrace)
    case ',' => Some(Comma)
    case '.' => Some(Dot)
    case '-' => Some(Minus)
    case '+' => Some(Plus)
    case ';' => Some(Semicolon)
    case ':' => Some(Colon)
    case '*' => Some(Star)
    case '?' => Some(Question)
    case _ => None
  }

  /** The kind of `!`, `=`, `<` or `>`, depending on whether an `=` follows it. */
  function OperatorKind(c: char, equalFollows: bool): (k: Option<TokenType>)
    ensures k.Some? <==> c in {'!', '=', '<', '>'}
    ensures k.Some? ==> (equalFollows <==> k.value in {BangEqual, EqualEqual, LessEqual, GreaterEqual})
  {
    match c
    case '!' => Some(if equalFollows then BangEqual else Bang)
    case '=' => Some(if equalFollows then EqualEqual else Equal)
    case '<' => Some(if equalFollows then LessEqual else Less)
    case '>' => Some(if equalFollows then GreaterEqual else Greater)
    case _ => None
  }

  /**
   * What scanning one lexeme produces: where the cursor stops, the kind and
   * literal of the token added (if any) and the error messages reported.
   */
  datatype Lexed = Lexed(end: nat, kind: Option<TokenType>, literal: Value, messages: seq<string>)

  /**
   * A block comment whose text starts at `start + 2`, scanned from `i` with the
   * messages `pending` already reported: it ends at the first `*` `/` not inside
   * a `"`-quoted string. An unterminated string inside it runs to the end of
   * input, and the comment is then unterminated too.
   */
  function BlockCommentFrom(s: string, start: nat, i: nat, pending: seq<string>): (r: Lexed)
    requires start + 2 <= i <= |s|
    ensures i <= r.end <= |s|
    decreases |s| - i
  {
    if i == |s| then Lexed(|s|, None, Nil, pending + ["Unterminated block comment."])
    else if s[i] == '"' then
      var q := RunEnd(s, i + 1, StringBody);
      if q < |s| then BlockCommentFrom(s, start, q + 1, pending)
      else BlockCommentFrom(s, start, |s|, pending + ["Unterminated string in block comment."])
    else if s[i] == '*' && i + 1 < |s| && s[i + 1] == '/' then
      Lexed(i + 2, Some(Comment), Str(s[start + 2..i]), pending)
    else BlockCommentFrom(s, start, i + 1, pending)
  }

  /** The lexeme that starts at `i`, as one call of `scanNext` scans it. */
  function ScanOne(s: string, i: nat, parse: string -> Number): (r: Lexed)
    requires i < |s|
    ensures i < r.end <= |s|
  {
    var next := if i + 1 < |s| then s[i + 1] else '\0';
    if SingleCharKind(s[i]).Some? then Lexed(i + 1, SingleCharKind(s[i]), Nil, [])
    else if OperatorKind(s[i], false).Some? then
      if next == '=' then Lexed(i + 2, OperatorKind(s[i], true), Nil, [])
      else Lexed(i + 1, OperatorKind(s[i], false), Nil, [])
    else match s[i]
    case '/' => SlashLexeme(s, i)
    case '"' => StringLexeme(s, i)
    case ' ' | '\r' | '\t' | '\n' => Lexed(i + 1, None, Nil, [])
    case _ => OtherLexeme(s, i, parse)
  }

  /** A lexeme starting with `/`: a line comment, a block comment or SLASH. */
  function SlashLexeme(s: string, i: nat): (r: Lexed)
    requires i < |s|
    ensures i < r.end <= |s|
  {
    if i + 1 < |s| && s[i + 1] == '/' then
      var e := RunEnd(s, i + 2, LineBody);
      Lexed(e, Some(Comment), Str(s[i + 2..e]), [])
    else if i + 1 < |s| && s[i + 1] == '*' then BlockCommentFrom(s, i, i + 2, [])
    else Lexed(i + 1, Some(Slash), Nil, [])
  }

  /** A string literal: up to the next `"`, which must exist. */
  function StringLexeme(s: string, i: nat): (r: Lexed)
    requires i < |s|
    ensures i < r.end <= |s|
  {
    var q := RunEnd(s, i + 1, StringBody);
    if q < |s| then Lexed(q + 1, Some(StringKind), Str(s[i + 1..q]), [])
    else Lexed(|s|, None, Nil, ["Error unterminated string."])
  }

  /** A lexeme starting with any other character: a number, a word, or an error. */
  function OtherLexeme(s: string, i: nat, parse: string -> Number): (r: Lexed)
    requires i < |s|
    ensures i < r.end <= |s|
  {
    var c := s[i];
    if IsDigit(c) then
      var e := NumberEnd(s, i);
      Lexed(e, Some(NumberKind), Num(parse(s[i..e])), [])
    else if IsAlpha(c) then
      var e := RunEnd(s, i, AlphaNumeric);
      Lexed(e, Some(WordKind(s[i..e])), Nil, [])
    else Lexed(i + 1, None, Nil, ["Unexpected character: " + [c]])
  }

  /** The token a scanned lexeme adds, with its text and the line reached. */
  function TokenOf(s: string, i: nat, r: Lexed): (ts: seq<Token>)
    requires i <= r.end <= |s|
    ensures |ts| == if r.kind.Some? then 1 else 0
    ensures |ts| == 1 ==> ts[0].kind == r.kind.value && ts[0].lexeme == s[i..r.end] && ts[0].line == LineAt(s, r.end)
  {
    if r.kind.Some? then [Token(r.kind.value, s[i..r.end], r.literal, LineAt(s, r.end))] else []
  }

  /** Error messages reported at one line. */
  function Reports(line: int, messages: seq<string>): (r: seq<Report>)
    ensures |r| == |messages|
  {
    if messages == [] then [] else [Report(line, messages[0])] + Reports(line, messages[1..])
  }

  datatype Scanned = Scanned(tokens: seq<Token>, reports: seq<Report>)

  /** The tokens and reports of scanning `s` from `i` to its end (the closing EOF excluded). */
  function LexFrom(s: string, i: nat, parse: string -> Number): (r: Scanned)
    requires i <= |s|
    ensures |r.tokens| <= |s| - i
    decreases |s| - i
  {
    if i == |s| then Scanned([], [])
    else
      var r := ScanOne(s, i, parse);
      var rest := LexFrom(s, r.end, parse);
      Scanned(TokenOf(s, i, r) + rest.tokens, Reports(LineAt(s, r.end), r.messages) + rest.reports)
  }

  /** `LineAt` counts the newlines consumed so far. */
  lemma {:induction false} LineAtCountsNewlines(s: string, i: nat)
    requires i <= |s|
    ensures LineAt(s, i) == 1 + multiset(s[..i])['\n']
  {
    if i > 0 {
      LineAtCountsNewlines(s, i - 1);
      assert s[..i] == s[..i - 1] + [s[i - 1]];
    }
  }

  /**
   * The token `scan` appends once the whole source is consumed: EOF with an
   * empty lexeme and no literal, on the line after the last newline.
   */
  function EofToken(s: string): (t: Token)
    ensures t.kind == Eof && t.lexeme == "" && t.literal == Nil
    ensures t.line == 1 + multiset(s)['\n']
  {
    LineAtCountsNewlines(s, |s|);
    assert s[..|s|] == s;
    Token(Eof, "", Nil, LineAt(s, |s|))
  }

  class Lexer {
    const source: string
    /** `Double.parseDouble`, which turns a number lexeme into its value. */
    const parse: string -> Number
    var tokens: seq<Token>
    /** The reports made through `Lox.error`. */
    var errors: seq<Report>
    var start: nat
    var current: nat
    var line: int

    ghost predicate Valid()
      reads this
    {
      start <= current <= |source| && line == LineAt(source, current)
    }

    constructor (source: string, parse: string -> Number)
      ensures Valid() && this.source == source && this.parse == parse
      ensures tokens == [] && errors == [] && start == 0 && current == 0 && line == 1
    {
      this.source := source;
      this.parse := parse;
      tokens := [];
      errors := [];
      start, current, line := 0, 0, 1;
    }

    /** Scans what is left of the source and closes the token list with one EOF token. */
    method Scan() returns (r: seq<Token>)
      requires Valid()
      modifies this
      ensures Valid() && current == |source|
      ensures r == tokens
      ensures tokens == old(tokens) + LexFrom(source, old(current), parse).tokens + [EofToken(source)]
      ensures errors == old(errors) + LexFrom(source, old(current), parse).reports
    {
      while !AtEof()
        invariant Valid()
        invariant old(tokens) + LexFrom(source, old(current), parse).tokens
                  == tokens + LexFrom(source, current, parse).tokens
        invariant old(errors) + LexFrom(source, old(current), parse).reports
                  == errors + LexFrom(source, current, parse).reports
        decreases |source| - current
      {
        ghost var (t0, e0, c0) := (tokens, errors, current);
        ghost var lexed := ScanOne(source, current, parse);
        start := current;
        ScanNext();
        ghost var rest := LexFrom(source, current, parse);
        assert LexFrom(source, c0, parse) == Scanned(TokenOf(source, c0, lexed) + rest.tokens,
                                                      Reports(line, lexed.messages) + rest.reports);
        AppendAssoc(t0, TokenOf(source, c0, lexed), rest.tokens);
        AppendAssoc(e0, Reports(line, lexed.messages), rest.reports);
      }
      tokens := tokens + [Token(Eof, "", Nil, line)];
      r := tokens;
    }

    /** Scans the one lexeme that starts at `start`. */
    method ScanNext()
      requires Valid() && start == current < |source|
      modifies this
      ensures Valid() && start == old(start)
      ensures current == ScanOne(source, start, parse).end
      ensures tokens == old(tokens) + TokenOf(source, start, ScanOne(source, start, parse))
      ensures errors == old(errors) + Reports(line, ScanOne(source, start, parse).messages)
    {
      var c := Advance();
      assert LineAt(source, current) == line + (if c == '\n' then 1 else 0);
      if SingleCharKind(c).Some? {
        AddToken(SingleCharKind(c).value, Nil);
      } else if OperatorKind(c, false).Some? {
        var eq := MatchChar('=');
        AddToken(OperatorKind(c, eq).value, Nil);
      } else {
        match c {
          case '/' => ScanSlash();
          case '"' => ScanString();
          case ' ' | '\r' | '\t' =>
          case '\n' => line := line + 1;
          case _ => ScanOther(c);
        }
      }
    }

    /** The `/` branch of `scanNext`: a line comment, a block comment or SLASH. */
    method ScanSlash()
      requires Valid() && current == start + 1 && source[start] == '/'
      modifies this`current, this`line, this`tokens, this`errors
      ensures Valid()
      ensures current == SlashLexeme(source, start).end
      ensures tokens == old(tokens) + TokenOf(source, start, SlashLexeme(source, start))
      ensures errors == old(errors) + Reports(line, SlashLexeme(source, start).messages)
    {
      var slash := MatchChar('/');
      if slash {
        LineComment();
      } else {
        var star := MatchChar('*');
        if star {
          BlockComment();
        } else {
          AddToken(Slash, Nil);
        }
      }
    }

    /** The `default` branch of `scanNext`: a number, an identifier or keyword, or an error. */
    method ScanOther(c: char)
      requires Valid() && current == start + 1 && source[start] == c && SingleCharKind(c).None? && OperatorKind(c, false).None? && c !in "/\" \r\t\n"
      modifies this`current, this`tokens, this`errors
      ensures Valid()
      ensures current == OtherLexeme(source, start, parse).end
      ensures tokens == old(tokens) + TokenOf(source, start, OtherLexeme(source, start, parse))
      ensures errors == old(errors) + Reports(line, OtherLexeme(source, start, parse).messages)
    {
      if IsDigit(c) {
        ScanNumber();
      } else if IsAlpha(c) {
        ScanIdentifier();
      } else {
        errors := errors + [Report(line, "Unexpected character: " + [c])];
      }
    }

    /** The `//` branch of `scanNext`: everything up to the next newline is the comment. */
    method LineComment()
      requires Valid() && current == start + 2 && source[start..current] == "//"
      modifies this`current, this`tokens
      ensures Valid()
      ensures current == RunEnd(source, start + 2, LineBody)
      ensures tokens == old(tokens) + [Token(Comment, source[start..current], Str(source[start + 2..current]), line)]
    {
      while Peek() != '\n' && !AtEof()
        invariant start + 2 <= current <= |source| && line == LineAt(source, current)
        invariant tokens == old(tokens)
        invariant RunEnd(source, current, LineBody) == RunEnd(source, start + 2, LineBody)
        decreases |source| - current
      {
        var _ := Advance();
      }
      AddToken(Comment, Str(source[start + 2..current]));
    }

    /** `number`: the first digit is already consumed. */
    method ScanNumber()
      requires Valid() && current == start + 1 && IsDigit(source[start])
      modifies this`current, this`tokens
      ensures Valid()
      ensures current == NumberEnd(source, start)
      ensures tokens == old(tokens) + [Token(NumberKind, source[start..current], Num(parse(source[start..current])), line)]
    {
      SkipDigits();
      if Peek() == '.' && IsDigit(PeekNext()) {
        var _ := Advance();
        SkipDigits();
      }
      AddToken(NumberKind, Num(parse(source[start..current])));
    }

    /** One of the digit loops of `number`. */
    method SkipDigits()
      requires current <= |source| && line == LineAt(source, current)
      modifies this`current
      ensures current == RunEnd(source, old(current), Digit) && line == LineAt(source, current)
    {
      while IsDigit(Peek())
        invariant old(current) <= current <= |source| && line == LineAt(source, current)
        invariant RunEnd(source, current, Digit) == RunEnd(source, old(current), Digit)
        decreases |source| - current
      {
        var _ := Advance();
      }
    }

    /** `blockComment`: the opening `/` `*` is already consumed. */
    method BlockComment()
      requires Valid() && current == start + 2 && current <= |source|
      modifies this`current, this`line, this`tokens, this`errors
      ensures Valid()
      ensures var r := BlockCommentFrom(source, start, start + 2, []);
        current == r.end && tokens == old(tokens) + TokenOf(source, start, r)
        && errors == old(errors) + Reports(line, r.messages)
    {
      ghost var goal := BlockCommentFrom(source, start, start + 2, []);
      ghost var pending: seq<string> := [];
      while !AtEof()
        invariant start + 2 <= current <= |source| && line == LineAt(source, current)
        invariant pending != [] ==> current == |source|
        invariant tokens == old(tokens) && errors == old(errors) + Reports(line, pending)
        invariant BlockCommentFrom(source, start, current, pending) == goal
        decreases |source| - current
      {
        var closed, added := CommentStep();
        if closed {
          return;
        }
        pending := added;
      }
      errors := errors + [Report(line, "Unterminated block comment.")];
      ReportsAppend(line, pending, ["Unterminated block comment."]);
    }

    /**
     * One iteration of the loop of `blockComment`, from a cursor inside the
     * comment: `closed` when it consumed the closing `*` `/` and added the token.
     */
    method CommentStep() returns (closed: bool, ghost added: seq<string>)
      requires start + 2 <= current < |source| && line == LineAt(source, current)
      modifies this`current, this`line, this`tokens, this`errors
      ensures old(current) < current <= |source| && line == LineAt(source, current)
      ensures closed ==> current == old(current) + 2
      ensures closed ==>
        BlockCommentFrom(source, start, old(current), []) == Lexed(current, Some(Comment), Str(source[start + 2..current - 2]), [])
        && tokens == old(tokens) + [Token(Comment, source[start..current], Str(source[start + 2..current - 2]), line)]
        && errors == old(errors)
      ensures !closed ==>
        BlockCommentFrom(source, start, old(current), []) == BlockCommentFrom(source, start, current, added)
        && tokens == old(tokens) && errors == old(errors) + Reports(line, added)
        && (added != [] ==> current == |source|)
    {
      added := [];
      closed := false;
      ghost var at := current;
      var c := Advance();
      assert LineAt(source, current) == LineAt(source, at) + (if c == '\n' then 1 else 0);
      if c == '"' {
        var ended := SkipQuoted();
        if !ended {
          errors := errors + [Report(line, "Unterminated string in block comment.")];
          added := ["Unterminated string in block comment."];
        }
      } else if c == '\n' {
        line := line + 1;
      } else if c == '*' {
        closed := MatchChar('/');
        if closed {
          AddToken(Comment, Str(source[start + 2..current - 2]));
        }
      }
    }

    /** The string-skipping loop of `blockComment`: the opening quote is already consumed. */
    method SkipQuoted() returns (closed: bool)
      requires current <= |source| && line == LineAt(source, current)
      modifies this`current, this`line
      ensures var q := RunEnd(source, old(current), StringBody);
        closed == (q < |source|) && current == (if closed then q + 1 else |source|)
      ensures line == LineAt(source, current)
    {
      closed := false;
      while !AtEof()
        invariant old(current) <= current <= |source| && line == LineAt(source, current)
        invariant RunEnd(source, current, StringBody) == RunEnd(source, old(current), StringBody)
        invariant !closed
        decreases |source| - current
      {
        var d := Advance();
        if d == '\n' {
          line := line + 1;
        } else if d == '"' {
          closed := true;
          break;
        }
      }
    }

    /**
     * `string`: the opening quote is already consumed. At the end of input the
     * source reports the error and then calls `advance()` past the end; this
     * model returns after the report instead (see `UnterminatedStringOverrunsAsWritten`).
     */
    method ScanString()
      requires Valid() && current == start + 1 && source[start] == '"'
      modifies this`current, this`line, this`tokens, this`errors
      ensures Valid()
      ensures current == StringLexeme(source, start).end
      ensures tokens == old(tokens) + TokenOf(source, start, StringLexeme(source, start))
      ensures errors == old(errors) + Reports(line, StringLexeme(source, start).messages)
    {
      SkipStringBody();
      if AtEof() {
        errors := errors + [Report(line, "Error unterminated string.")];
        return;
      }
      var quote := Advance();
      assert quote == '"' && LineAt(source, current) == LineAt(source, current - 1);
      AddToken(StringKind, Str(source[start + 1..current - 1]));
    }

    /** The loop of `string`: up to the closing quote or the end of input, counting lines. */
    method SkipStringBody()
      requires current <= |source| && line == LineAt(source, current)
      modifies this`current, this`line
      ensures current == RunEnd(source, old(current), StringBody) && line == LineAt(source, current)
      ensures current == |source| || source[current] == '"'
    {
      while Peek() != '"' && !AtEof()
        invariant old(current) <= current <= |source| && line == LineAt(source, current)
        invariant RunEnd(source, current, StringBody) == RunEnd(source, old(current), StringBody)
        decreases |source| - current
      {
        if Peek() == '\n' {
          line := line + 1;
        }
        var _ := Advance();
      }
    }

    /** `identifier`: the first letter is already consumed. */
    method ScanIdentifier()
      requires Valid() && current == start + 1 && IsAlpha(source[start])
      modifies this`current, this`tokens
      ensures Valid()
      ensures current == RunEnd(source, start, AlphaNumeric)
      ensures tokens == old(tokens) + [Token(WordKind(source[start..current]), source[start..current], Nil, line)]
    {
      while IsAlphaNumeric(Peek())
        invariant start < current <= |source| && line == LineAt(source, current)
        invariant tokens == old(tokens)
        invariant RunEnd(source, current, AlphaNumeric) == RunEnd(source, start, AlphaNumeric)
        decreases |source| - current
      {
        var _ := Advance();
      }
      var value := source[start..current];
      if value in Keywords {
        AddToken(Keywords[value], Nil);
      } else {
        AddToken(Identifier, Nil);
      }
    }

    method Advance() returns (c: char)
      requires current < |source|
      modifies this`current
      ensures current == old(current) + 1 && c == source[old(current)]
    {
      current := current + 1;
      c := source[current - 1];
    }

    /** `match(expected)`: consumes the next character only when it is `expected`. */
    method MatchChar(expected: char) returns (r: bool)
      requires current <= |source|
      modifies this`current
      ensures r <==> old(current) < |source| && source[old(current)] == expected
      ensures current == old(current) + (if r then 1 else 0)
    {
      if AtEof() {
        return false;
      }
      if source[current] != expected {
        return false;
      }
      current := current + 1;
      return true;
    }

    /** The next character, or `'\0'` once the source is consumed. */
    function Peek(): (c: char)
      reads this
      ensures current < |source| ==> c == source[current]
      ensures current >= |source| ==> c == '\0'
    {
      if current >= |source| then '\0' else source[current]
    }

    /** The character after the next one, or `'\0'` when there is none (corrected guard). */
    function PeekNext(): (c: char)
      reads this
      ensures current + 1 < |source| ==> c == source[current + 1]
      ensures current + 1 >= |source| ==> c == '\0'
    {
      if current + 1 >= |source| then '\0' else source[current + 1]
    }

    /** Every character of the source is consumed; otherwise `Peek` is the next one. */
    predicate AtEof()
      reads this
      ensures current < |source| ==> !AtEof() && Peek() == source[current]
    {
      current >= |source|
    }

    method AddToken(kind: TokenType, literal: Value)
      requires start <= current <= |source|
      modifies this`tokens
      ensures tokens == old(tokens) + [Token(kind, source[start..current], literal, line)]
    {
      tokens := tokens + [Token(kind, source[start..current], literal, line)];
    }
  }

  lemma AppendAssoc<T>(a: seq<T>, b: seq<T>, c: seq<T>)
    ensures a + (b + c) == (a + b) + c
  {
  }

  lemma ReportsAppend(line: int, a: seq<string>, b: seq<string>)
    ensures Reports(line, a + b) == Reports(line, a) + Reports(line, b)
  {
    if a == [] {
      assert a + b == b;
    } else {
      assert (a + b)[1..] == a[1..] + b;
      ReportsAppend(line, a[1..], b);
    }
  }
}
