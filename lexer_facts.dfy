/**
 * What the lexer's specification functions promise about a whole scan: the
 * shape of every token, the order of their lines and the single EOF token at
 * the end; plus the two places where the source reads past the end of the
 * input, modelled as written beside the corrected behaviour the lexer uses.
 */
module ScannerFacts {
  import opened Wrappers
  import opened Values
  import opened Tokens
  import opened Scanner

  /** A run ends at the first character outside the class: all before it belong. */
  lemma {:induction false} RunEndMaximal(s: string, i: nat, cls: CharClass)
    requires i <= |s|
    ensures forall k :: i <= k < RunEnd(s, i, cls) ==> InClass(s[k], cls)
    ensures RunEnd(s, i, cls) == |s| || !InClass(s[RunEnd(s, i, cls)], cls)
    decreases |s| - i
  {
    if i < |s| && InClass(s[i], cls) {
      RunEndMaximal(s, i + 1, cls);
    }
  }

  /** `line` only grows as the cursor moves right. */
  lemma {:induction false} LineAtMonotone(s: string, i: nat, j: nat)
    requires i <= j <= |s|
    ensures LineAt(s, i) <= LineAt(s, j)
    decreases j - i
  {
    if i < j {
      LineAtMonotone(s, i, j - 1);
    }
  }

  predicate AllDigits(w: string) {
    forall k :: 0 <= k < |w| ==> IsDigit(w[k])
  }

  /** `digits(.digits)?` with both digit runs non-empty. */
  predicate IsNumberText(w: string) {
    (|w| > 0 && AllDigits(w))
    || exists p :: 0 < p < |w| - 1 && w[p] == '.' && AllDigits(w[..p]) && AllDigits(w[p + 1..])
  }

  /** `[A-Za-z_][A-Za-z0-9_]*`. */
  predicate IsWordText(w: string) {
    |w| > 0 && IsAlpha(w[0]) && forall k :: 0 <= k < |w| ==> IsAlphaNumeric(w[k])
  }

  /** The kinds that `scanNext` emits for an operator or punctuation lexeme. */
  predicate IsSymbolText(w: string, kind: TokenType) {
    (|w| == 1 && SingleCharKind(w[0]) == Some(kind))
    || (|w| == 1 && OperatorKind(w[0], false) == Some(kind))
    || (|w| == 2 && w[1] == '=' && OperatorKind(w[0], true) == Some(kind))
    || (w == "/" && kind == Slash)
  }

  /**
   * The shape of a token `scanNext` adds: its kind determines what its lexeme
   * looks like and what its literal is.
   */
  predicate WellFormed(t: Token, parse: string -> Number) {
    match t.kind
    case NumberKind => IsNumberText(t.lexeme) && t.literal == Num(parse(t.lexeme))
    case StringKind =>
      |t.lexeme| >= 2 && t.lexeme[0] == '"' && t.lexeme[|t.lexeme| - 1] == '"'
      && t.literal == Str(t.lexeme[1..|t.lexeme| - 1]) && '"' !in t.literal.s
    case Comment =>
      |t.lexeme| >= 2 && t.lexeme[0] == '/' && t.literal.Str?
      && ((t.lexeme[1] == '/' && t.literal.s == t.lexeme[2..] && '\n' !in t.literal.s)
          || (t.lexeme[1] == '*' && |t.lexeme| >= 4 && t.lexeme[|t.lexeme| - 2..] == "*/"
              && t.literal.s == t.lexeme[2..|t.lexeme| - 2]))
    case Identifier => IsWordText(t.lexeme) && t.lexeme !in Keywords && t.literal == Nil
    case Eof => false
    case _ =>
      t.literal == Nil
      && (if IsKeywordKind(t.kind) then t.lexeme in Keywords && Keywords[t.lexeme] == t.kind
          else IsSymbolText(t.lexeme, t.kind))
  }

  lemma NumberTextOf(s: string, i: nat)
    requires i < |s| && IsDigit(s[i])
    ensures IsNumberText(s[i..NumberEnd(s, i)])
  {
    var d := RunEnd(s, i, Digit);
    RunEndMaximal(s, i, Digit);
    if d + 1 < |s| && s[d] == '.' && IsDigit(s[d + 1]) {
      var e := RunEnd(s, d + 1, Digit);
      RunEndMaximal(s, d + 1, Digit);
      var w := s[i..e];
      assert w[d - i] == '.' && w[..d - i] == s[i..d] && w[d - i + 1..] == s[d + 1..e];
      assert AllDigits(w[..d - i]);
      assert AllDigits(w[d - i + 1..]);
    } else {
      assert AllDigits(s[i..d]);
    }
  }

  lemma BlockCommentWellFormed(s: string, start: nat, i: nat, pending: seq<string>)
    requires start + 2 <= i <= |s| && s[start..start + 2] == "/*"
    ensures var r := BlockCommentFrom(s, start, i, pending);
      r.kind.Some? ==>
        (r.kind == Some(Comment) && r.end >= start + 4 && s[r.end - 2..r.end] == "*/"
         && r.literal == Str(s[start + 2..r.end - 2]))
    decreases |s| - i
  {
    if i == |s| {
    } else if s[i] == '"' {
      var q := RunEnd(s, i + 1, StringBody);
      if q < |s| {
        BlockCommentWellFormed(s, start, q + 1, pending);
      } else {
        BlockCommentWellFormed(s, start, |s|, pending + ["Unterminated string in block comment."]);
      }
    } else if s[i] == '*' && i + 1 < |s| && s[i + 1] == '/' {
    } else {
      BlockCommentWellFormed(s, start, i + 1, pending);
    }
  }

  /** The tokens a scanned lexeme adds are well formed. */
  predicate AddsWellFormed(s: string, i: nat, r: Lexed, parse: string -> Number)
    requires i <= r.end <= |s|
  {
    forall t <- TokenOf(s, i, r) :: WellFormed(t, parse)
  }

  lemma SymbolWellFormed(s: string, i: nat, parse: string -> Number)
    requires i < |s| && (SingleCharKind(s[i]).Some? || OperatorKind(s[i], false).Some?)
    ensures AddsWellFormed(s, i, ScanOne(s, i, parse), parse)
  {
    var r := ScanOne(s, i, parse);
    assert IsSymbolText(s[i..r.end], r.kind.value);
  }

  lemma SlashWellFormed(s: string, i: nat, parse: string -> Number)
    requires i < |s| && s[i] == '/'
    ensures AddsWellFormed(s, i, ScanOne(s, i, parse), parse)
  {
    assert ScanOne(s, i, parse) == SlashLexeme(s, i);
    if i + 1 < |s| && s[i + 1] == '/' {
      LineCommentWellFormed(s, i, parse);
    } else if i + 1 < |s| && s[i + 1] == '*' {
      BlockCommentTokenWellFormed(s, i, parse);
    } else {
      assert |s[i..i + 1]| == 1 && s[i..i + 1][0] == '/';
      assert s[i..i + 1] == ['/'];
    }
  }

  lemma LineCommentWellFormed(s: string, i: nat, parse: string -> Number)
    requires i + 1 < |s| && s[i] == '/' && s[i + 1] == '/'
    ensures AddsWellFormed(s, i, SlashLexeme(s, i), parse)
  {
    var e := RunEnd(s, i + 2, LineBody);
    RunEndMaximal(s, i + 2, LineBody);
    assert s[i..e][2..] == s[i + 2..e];
    assert WellFormed(Token(Comment, s[i..e], Str(s[i + 2..e]), LineAt(s, e)), parse);
  }

  lemma BlockCommentTokenWellFormed(s: string, i: nat, parse: string -> Number)
    requires i + 1 < |s| && s[i] == '/' && s[i + 1] == '*'
    ensures AddsWellFormed(s, i, SlashLexeme(s, i), parse)
  {
    var r := BlockCommentFrom(s, i, i + 2, []);
    assert s[i..i + 2] == "/*";
    BlockCommentWellFormed(s, i, i + 2, []);
    if r.kind.Some? {
      var w := s[i..r.end];
      assert |w| == r.end - i && i + 2 <= r.end - 2;
      assert w[2..|w| - 2] == s[i + 2..r.end - 2];
      assert w[|w| - 2..] == s[r.end - 2..r.end];
      assert WellFormed(Token(Comment, w, r.literal, LineAt(s, r.end)), parse);
    }
  }

  lemma StringWellFormed(s: string, i: nat, parse: string -> Number)
    requires i < |s| && s[i] == '"'
    ensures AddsWellFormed(s, i, ScanOne(s, i, parse), parse)
  {
    assert ScanOne(s, i, parse) == StringLexeme(s, i);
    var q := RunEnd(s, i + 1, StringBody);
    RunEndMaximal(s, i + 1, StringBody);
    if q < |s| {
      var w := s[i..q + 1];
      var body := s[i + 1..q];
      assert |w| == q + 1 - i && w[0] == '"' && w[|w| - 1] == s[q] == '"';
      assert w[1..|w| - 1] == body;
      forall k | 0 <= k < |body|
        ensures body[k] != '"'
      {
        assert InClass(s[i + 1 + k], StringBody);
      }
      assert WellFormed(Token(StringKind, w, Str(s[i + 1..q]), LineAt(s, q + 1)), parse);
    }
  }

  lemma OtherWellFormed(s: string, i: nat, parse: string -> Number)
    requires i < |s|
    ensures AddsWellFormed(s, i, OtherLexeme(s, i, parse), parse)
  {
    if IsDigit(s[i]) {
      NumberWellFormed(s, i, parse);
    } else if IsAlpha(s[i]) {
      WordWellFormed(s, i, parse);
    }
  }

  lemma NumberWellFormed(s: string, i: nat, parse: string -> Number)
    requires i < |s| && IsDigit(s[i])
    ensures AddsWellFormed(s, i, OtherLexeme(s, i, parse), parse)
  {
    var e := NumberEnd(s, i);
    NumberTextOf(s, i);
    assert TokenOf(s, i, OtherLexeme(s, i, parse)) == [Token(NumberKind, s[i..e], Num(parse(s[i..e])), LineAt(s, e))];
  }

  lemma WordWellFormed(s: string, i: nat, parse: string -> Number)
    requires i < |s| && !IsDigit(s[i]) && IsAlpha(s[i])
    ensures AddsWellFormed(s, i, OtherLexeme(s, i, parse), parse)
  {
    var e := RunEnd(s, i, AlphaNumeric);
    RunEndMaximal(s, i, AlphaNumeric);
    var w := s[i..e];
    if w in Keywords {
      KeywordTableInjective(w, w);
    }
    assert TokenOf(s, i, OtherLexeme(s, i, parse)) == [Token(WordKind(w), w, Nil, LineAt(s, e))];
  }

  /** Every token one `scanNext` adds is well formed. */
  lemma ScanOneWellFormed(s: string, i: nat, parse: string -> Number)
    requires i < |s|
    ensures AddsWellFormed(s, i, ScanOne(s, i, parse), parse)
  {
    var c := s[i];
    if SingleCharKind(c).Some? || OperatorKind(c, false).Some? {
      SymbolWellFormed(s, i, parse);
    } else if c == '/' {
      SlashWellFormed(s, i, parse);
    } else if c == '"' {
      StringWellFormed(s, i, parse);
    } else if c !in " \r\t\n" {
      assert ScanOne(s, i, parse) == OtherLexeme(s, i, parse);
      OtherWellFormed(s, i, parse);
    }
  }

  /** Every token of a scan from `i` is well formed; none of them is EOF. */
  lemma {:induction false} LexFromWellFormed(s: string, i: nat, parse: string -> Number)
    requires i <= |s|
    ensures forall t <- LexFrom(s, i, parse).tokens :: WellFormed(t, parse) && t.kind != Eof
    decreases |s| - i
  {
    if i < |s| {
      var r := ScanOne(s, i, parse);
      ScanOneWellFormed(s, i, parse);
      LexFromWellFormed(s, r.end, parse);
      assert LexFrom(s, i, parse).tokens == TokenOf(s, i, r) + LexFrom(s, r.end, parse).tokens;
    }
  }

  /** The lines of a token sequence never decrease and stay within `[lo, hi]`. */
  predicate LinesOrdered(ts: seq<Token>, lo: int, hi: int) {
    (forall k :: 0 <= k < |ts| ==> lo <= ts[k].line <= hi)
    && (forall j, k :: 0 <= j < k < |ts| ==> ts[j].line <= ts[k].line)
  }

  /** The tokens of a scan from `i` carry the lines the scan went through, in order. */
  lemma {:induction false} LexFromLinesOrdered(s: string, i: nat, parse: string -> Number)
    requires i <= |s|
    ensures LinesOrdered(LexFrom(s, i, parse).tokens, LineAt(s, i), LineAt(s, |s|))
    decreases |s| - i
  {
    if i < |s| {
      var r := ScanOne(s, i, parse);
      LexFromLinesOrdered(s, r.end, parse);
      LineAtMonotone(s, i, r.end);
      LineAtMonotone(s, r.end, |s|);
      var head := TokenOf(s, i, r);
      var rest := LexFrom(s, r.end, parse).tokens;
      assert LinesOrdered(head, LineAt(s, r.end), LineAt(s, r.end));
      assert LexFrom(s, i, parse).tokens == head + rest;
    }
  }

  /**
   * What `scan` returns for a whole source: well-formed tokens in line order,
   * closed by exactly one EOF token with an empty lexeme on the last line.
   */
  lemma ScanResult(s: string, parse: string -> Number)
    ensures var ts := LexFrom(s, 0, parse).tokens + [EofToken(s)];
      && ts[|ts| - 1] == Token(Eof, "", Nil, LineAt(s, |s|))
      && (forall k :: 0 <= k < |ts| - 1 ==> ts[k].kind != Eof && WellFormed(ts[k], parse))
      && LinesOrdered(ts, 1, LineAt(s, |s|))
  {
    var body := LexFrom(s, 0, parse).tokens;
    var ts := body + [EofToken(s)];
    LexFromWellFormed(s, 0, parse);
    LexFromLinesOrdered(s, 0, parse);
    forall k | 0 <= k < |ts| - 1
      ensures ts[k].kind != Eof && WellFormed(ts[k], parse)
    {
      assert ts[k] == body[k] && body[k] in body;
    }
  }

  /** `!`, `=`, `<`, `>` take a following `=` into a two-character token, and only then. */
  lemma TwoCharacterOperators(s: string, i: nat, parse: string -> Number)
    requires i < |s| && OperatorKind(s[i], false).Some?
    ensures var r := ScanOne(s, i, parse);
      var equalFollows := i + 1 < |s| && s[i + 1] == '=';
      && r.end == (if equalFollows then i + 2 else i + 1)
      && r.kind == OperatorKind(s[i], equalFollows) && r.messages == []
      && (r.kind in {Some(BangEqual), Some(EqualEqual), Some(LessEqual), Some(GreaterEqual)} <==> equalFollows)
  {
  }

  /**
   * A number is a maximal digit run, extended by `.` and a second maximal digit
   * run only when a digit follows the `.`.
   */
  lemma NumberIsMaximal(s: string, i: nat, parse: string -> Number)
    requires i < |s| && IsDigit(s[i])
    ensures var e := NumberEnd(s, i);
      && ScanOne(s, i, parse) == Lexed(e, Some(NumberKind), Num(parse(s[i..e])), [])
      && IsNumberText(s[i..e])
      && (e == |s| || !IsDigit(s[e]))
      && ('.' !in s[i..e] ==> !(e + 1 < |s| && s[e] == '.' && IsDigit(s[e + 1])))
  {
    NumberTextOf(s, i);
    var d := RunEnd(s, i, Digit);
    RunEndMaximal(s, i, Digit);
    if d + 1 < |s| && s[d] == '.' && IsDigit(s[d + 1]) {
      RunEndMaximal(s, d + 1, Digit);
      assert s[i..NumberEnd(s, i)][d - i] == '.';
    }
  }

  /** A word takes the keyword's kind exactly when it is in the keyword table. */
  lemma WordsAndKeywords(s: string, i: nat, parse: string -> Number)
    requires i < |s| && IsAlpha(s[i])
    ensures var r := ScanOne(s, i, parse);
      var w := s[i..r.end];
      && IsWordText(w) && (r.end == |s| || !IsAlphaNumeric(s[r.end]))
      && r.literal == Nil && r.messages == []
      && (w in Keywords ==> r.kind == Some(Keywords[w]))
      && (w !in Keywords ==> r.kind == Some(Identifier))
  {
    RunEndMaximal(s, i, AlphaNumeric);
  }

  /** A quote with no closing quote after it reports the error and adds no token. */
  lemma UnterminatedString(s: string, i: nat, parse: string -> Number)
    requires i < |s| && s[i] == '"' && '"' !in s[i + 1..]
    ensures ScanOne(s, i, parse) == Lexed(|s|, None, Nil, ["Error unterminated string."])
  {
    RunEndMaximal(s, i + 1, StringBody);
  }

  /** Space, tab and carriage return add nothing; a newline adds nothing but a line. */
  lemma Whitespace(s: string, i: nat, parse: string -> Number)
    requires i < |s| && s[i] in " \r\t\n"
    ensures ScanOne(s, i, parse) == Lexed(i + 1, None, Nil, [])
    ensures LineAt(s, i + 1) == LineAt(s, i) + (if s[i] == '\n' then 1 else 0)
  {
  }

  /** An unrecognised character is reported and adds no token. */
  lemma UnexpectedCharacter(s: string, i: nat, parse: string -> Number)
    requires i < |s| && !IsDigit(s[i]) && !IsAlpha(s[i]) && s[i] !in "(){},.-+;:*?!=<>/\" \r\t\n"
    ensures ScanOne(s, i, parse) == Lexed(i + 1, None, Nil, ["Unexpected character: " + [s[i]]])
  {
  }

  /** The number of `"` in `w`. */
  function QuoteCount(w: string): nat {
    multiset(w)['"']
  }

  /** Quotes are counted piecewise over adjacent slices. */
  lemma QuoteCountSplit(s: string, a: nat, b: nat, c: nat)
    requires a <= b <= c <= |s|
    ensures QuoteCount(s[a..c]) == QuoteCount(s[a..b]) + QuoteCount(s[b..c])
  {
    assert s[a..c] == s[a..b] + s[b..c];
  }

  /**
   * No `*` `/` follows position `i` outside strings: a position is outside a
   * string when an even number of `"` lie between `i` and it.
   */
  predicate NoCloseOutsideStrings(s: string, i: nat)
    requires i <= |s|
  {
    forall k :: i <= k < |s| - 1 && QuoteCount(s[i..k]) % 2 == 0 ==> !(s[k] == '*' && s[k + 1] == '/')
  }

  /**
   * The messages of a block comment that is never closed after `i`: an
   * unterminated string when an odd number of `"` leaves the last one open,
   * then the unterminated comment.
   */
  function UnclosedCommentMessages(s: string, i: nat, pending: seq<string>): seq<string>
    requires i <= |s|
  {
    pending + (if QuoteCount(s[i..]) % 2 == 1 then ["Unterminated string in block comment."] else [])
    + ["Unterminated block comment."]
  }

  /**
   * A block comment with no `*` `/` outside strings after it runs to the end
   * of input and reports that it is unterminated, after reporting an
   * unterminated string when its last `"` is left open.
   */
  lemma {:induction false} UnterminatedBlockComment(s: string, start: nat, i: nat, pending: seq<string>)
    requires start + 2 <= i <= |s| && NoCloseOutsideStrings(s, i)
    ensures BlockCommentFrom(s, start, i, pending) == Lexed(|s|, None, Nil, UnclosedCommentMessages(s, i, pending))
    decreases |s| - i, 1
  {
    if i == |s| {
      assert s[i..] == [];
    } else if s[i] == '"' && RunEnd(s, i + 1, StringBody) < |s| {
      ClosedStringInComment(s, i);
      CommentSkipsString(s, start, i, pending);
    } else if s[i] == '"' {
      CommentEndsInString(s, start, i, pending);
    } else {
      CommentSkipsCharacter(s, start, i, pending);
    }
  }

  /**
   * No `*` `/` starts outside strings between `i` and `k`: at every position
   * before `k` that an even number of `"` separate from `i`.
   */
  predicate NoCloseBetween(s: string, i: nat, k: nat)
    requires i <= k < |s|
  {
    forall j {:trigger QuoteCount(s[i..j])} :: i <= j < k && QuoteCount(s[i..j]) % 2 == 0 ==> !(s[j] == '*' && s[j + 1] == '/')
  }

  /**
   * A block comment ends at the first `*` `/` outside strings: when the `*`
   * at `k` is outside strings and no `*` `/` outside strings comes before it,
   * the comment closes there, and its literal is the text from `start + 2` to `k`.
   */
  lemma {:induction false} BlockCommentClosesAtFirst(s: string, start: nat, i: nat, k: nat, pending: seq<string>)
    requires start + 2 <= i <= k && k + 1 < |s| && s[k] == '*' && s[k + 1] == '/'
    requires QuoteCount(s[i..k]) % 2 == 0 && NoCloseBetween(s, i, k)
    ensures BlockCommentFrom(s, start, i, pending) == Lexed(k + 2, Some(Comment), Str(s[start + 2..k]), pending)
    decreases k - i, 1
  {
    if i == k {
      assert s[i] != '"';
    } else if s[i] == '"' {
      ClosingCommentSkipsString(s, start, i, k, pending);
    } else {
      ClosingCommentSkipsCharacter(s, start, i, k, pending);
    }
  }

  /** `BlockCommentClosesAtFirst` on a `"` before `k`: its string closes before `k` and is skipped whole. */
  lemma {:induction false} ClosingCommentSkipsString(s: string, start: nat, i: nat, k: nat, pending: seq<string>)
    requires start + 2 <= i < k && k + 1 < |s| && s[k] == '*' && s[k + 1] == '/' && s[i] == '"'
    requires QuoteCount(s[i..k]) % 2 == 0 && NoCloseBetween(s, i, k)
    ensures BlockCommentFrom(s, start, i, pending) == Lexed(k + 2, Some(Comment), Str(s[start + 2..k]), pending)
    decreases k - i, 0
  {
    var q := RunEnd(s, i + 1, StringBody);
    StringBeforeClose(s, i, k);
    CommentResumesAfter(s, start, i, q + 1, pending);
    BlockCommentClosesAtFirst(s, start, q + 1, k, pending);
  }

  /**
   * A string opened at `i`, before a `*` `/` at `k` that is outside strings,
   * closes before `k`, and `k` is still the first close outside strings
   * after it.
   */
  lemma StringBeforeClose(s: string, i: nat, k: nat)
    requires i < k < |s| && s[i] == '"' && QuoteCount(s[i..k]) % 2 == 0 && NoCloseBetween(s, i, k)
    ensures var q := RunEnd(s, i + 1, StringBody);
      q < k && QuoteCount(s[q + 1..k]) % 2 == 0 && NoCloseBetween(s, q + 1, k)
  {
    var q := RunEnd(s, i + 1, StringBody);
    StringClosesBefore(s, i, k);
    QuoteCountSplit(s, i, q + 1, k);
    NoCloseBetweenShift(s, i, q + 1, k);
  }

  /** `BlockCommentClosesAtFirst` on any other character before `k`: it is skipped. */
  lemma {:induction false} ClosingCommentSkipsCharacter(s: string, start: nat, i: nat, k: nat, pending: seq<string>)
    requires start + 2 <= i < k && k + 1 < |s| && s[k] == '*' && s[k + 1] == '/' && s[i] != '"'
    requires QuoteCount(s[i..k]) % 2 == 0 && NoCloseBetween(s, i, k)
    ensures BlockCommentFrom(s, start, i, pending) == Lexed(k + 2, Some(Comment), Str(s[start + 2..k]), pending)
    decreases k - i, 0
  {
    assert QuoteCount(s[i..i]) == 0;
    assert !(s[i] == '*' && s[i + 1] == '/');
    assert QuoteCount(s[i..i + 1]) == 0 by {
      assert s[i..i + 1] == [s[i]];
    }
    QuoteCountSplit(s, i, i + 1, k);
    NoCloseBetweenShift(s, i, i + 1, k);
    BlockCommentClosesAtFirst(s, start, i + 1, k, pending);
    CommentResumesAfter(s, start, i, i + 1, pending);
  }

  /**
   * One turn of `blockComment()` that does not close the comment: a closed
   * string is skipped past its closing `"`, any other character by one.
   */
  lemma CommentResumesAfter(s: string, start: nat, i: nat, j: nat, pending: seq<string>)
    requires start + 2 <= i < j <= |s| && !(s[i] == '*' && i + 1 < |s| && s[i + 1] == '/')
    requires if s[i] == '"' then RunEnd(s, i + 1, StringBody) < |s| && j == RunEnd(s, i + 1, StringBody) + 1 else j == i + 1
    ensures BlockCommentFrom(s, start, i, pending) == BlockCommentFrom(s, start, j, pending)
  {
  }

  /** A string opened at `i` in a comment, with an even number of `"` before `k`, closes before `k`. */
  lemma StringClosesBefore(s: string, i: nat, k: nat)
    requires i < k <= |s| && s[i] == '"' && QuoteCount(s[i..k]) % 2 == 0
    ensures var q := RunEnd(s, i + 1, StringBody);
      q < k && QuoteCount(s[i..q + 1]) == 2
  {
    var q := RunEnd(s, i + 1, StringBody);
    QuotedRun(s, i);
    if q >= k {
      StringOpenUpTo(s, i, k);
      assert false;
    }
  }

  /** A string opened at `i` that is still open at `k` leaves one `"` before `k`. */
  lemma StringOpenUpTo(s: string, i: nat, k: nat)
    requires i < k <= |s| && s[i] == '"' && k <= RunEnd(s, i + 1, StringBody)
    ensures QuoteCount(s[i..k]) == 1
  {
    var q := RunEnd(s, i + 1, StringBody);
    QuotedRun(s, i);
    QuoteCountSplit(s, i, k, q);
    assert s[i..i + 1] == ['"'];
    QuoteCountSplit(s, i, i + 1, k);
  }

  /** Moving from `i` to a `j` outside strings keeps `NoCloseBetween` up to `k`. */
  lemma NoCloseBetweenShift(s: string, i: nat, j: nat, k: nat)
    requires i <= j <= k < |s| && QuoteCount(s[i..j]) % 2 == 0 && NoCloseBetween(s, i, k)
    ensures NoCloseBetween(s, j, k)
  {
    forall m | j <= m < k && QuoteCount(s[j..m]) % 2 == 0
      ensures !(s[m] == '*' && s[m + 1] == '/')
    {
      QuoteCountSplit(s, i, j, m);
    }
  }

  /** `UnterminatedBlockComment` on a `"` whose string closes: the string is skipped whole. */
  lemma {:induction false} CommentSkipsString(s: string, start: nat, i: nat, pending: seq<string>)
    requires start + 2 <= i < |s| && s[i] == '"' && RunEnd(s, i + 1, StringBody) < |s|
    requires NoCloseOutsideStrings(s, RunEnd(s, i + 1, StringBody) + 1)
    ensures BlockCommentFrom(s, start, i, pending) == Lexed(|s|, None, Nil, UnclosedCommentMessages(s, i, pending))
    decreases |s| - i, 0
  {
    UnterminatedBlockComment(s, start, RunEnd(s, i + 1, StringBody) + 1, pending);
    CommentStepsOverString(s, start, i, pending);
  }

  /** Past a closed string in a comment there is still no `*` `/` outside strings. */
  lemma ClosedStringInComment(s: string, i: nat)
    requires i < |s| && s[i] == '"' && NoCloseOutsideStrings(s, i) && RunEnd(s, i + 1, StringBody) < |s|
    ensures NoCloseOutsideStrings(s, RunEnd(s, i + 1, StringBody) + 1)
  {
    var q := RunEnd(s, i + 1, StringBody);
    QuotedRun(s, i);
    assert QuoteCount(s[i..q + 1]) % 2 == 0;
    NoCloseShift(s, i, q + 1);
  }

  /** A closed string in a comment holds two quotes, so the parity of those after it is unchanged. */
  lemma ClosedStringParity(s: string, i: nat, pending: seq<string>)
    requires i < |s| && s[i] == '"' && RunEnd(s, i + 1, StringBody) < |s|
    ensures UnclosedCommentMessages(s, i, pending) == UnclosedCommentMessages(s, RunEnd(s, i + 1, StringBody) + 1, pending)
  {
    var q := RunEnd(s, i + 1, StringBody);
    QuotedRun(s, i);
    QuoteCountSuffix(s, i, q + 1);
    assert QuoteCount(s[i..]) == QuoteCount(s[q + 1..]) + 2;
  }

  /** `UnterminatedBlockComment` on a `"` whose string runs to the end: both errors are reported. */
  lemma CommentEndsInString(s: string, start: nat, i: nat, pending: seq<string>)
    requires start + 2 <= i < |s| && s[i] == '"' && RunEnd(s, i + 1, StringBody) == |s|
    ensures BlockCommentFrom(s, start, i, pending) == Lexed(|s|, None, Nil, UnclosedCommentMessages(s, i, pending))
  {
    QuotedRun(s, i);
    QuoteCountSuffix(s, i, |s|);
    var messages := pending + ["Unterminated string in block comment."];
    assert UnclosedCommentMessages(s, i, pending) == messages + ["Unterminated block comment."];
    assert BlockCommentFrom(s, start, |s|, messages) == Lexed(|s|, None, Nil, messages + ["Unterminated block comment."]);
  }

  /** `UnterminatedBlockComment` on any other character: it is skipped. */
  lemma {:induction false} CommentSkipsCharacter(s: string, start: nat, i: nat, pending: seq<string>)
    requires start + 2 <= i < |s| && s[i] != '"' && NoCloseOutsideStrings(s, i)
    ensures BlockCommentFrom(s, start, i, pending) == Lexed(|s|, None, Nil, UnclosedCommentMessages(s, i, pending))
    decreases |s| - i, 0
  {
    assert QuoteCount(s[i..i]) == 0;
    assert QuoteCount(s[i..i + 1]) == 0 by {
      assert s[i..i + 1] == [s[i]];
    }
    NoCloseShift(s, i, i + 1);
    QuoteCountSuffix(s, i, i + 1);
    UnterminatedBlockComment(s, start, i + 1, pending);
  }

  /**
   * `blockComment()` on a `"` whose string closes carries on just past the
   * closing `"`, where the quotes left have the same parity: once the rest of
   * the comment is unterminated, so is the comment from `i`.
   */
  lemma CommentStepsOverString(s: string, start: nat, i: nat, pending: seq<string>)
    requires start + 2 <= i < |s| && s[i] == '"' && RunEnd(s, i + 1, StringBody) < |s|
    requires var q := RunEnd(s, i + 1, StringBody);
      BlockCommentFrom(s, start, q + 1, pending) == Lexed(|s|, None, Nil, UnclosedCommentMessages(s, q + 1, pending))
    ensures BlockCommentFrom(s, start, i, pending) == Lexed(|s|, None, Nil, UnclosedCommentMessages(s, i, pending))
  {
    ClosedStringParity(s, i, pending);
  }

  /**
   * A `"` at `i` in a comment opens a string that the next `"` closes: the
   * quotes up to the end of the run are that one, plus the closing one when
   * the run stops before the end of input.
   */
  lemma QuotedRun(s: string, i: nat)
    requires i < |s| && s[i] == '"'
    ensures var q := RunEnd(s, i + 1, StringBody);
      QuoteCount(s[i..q]) == 1 && (q < |s| ==> s[q] == '"' && QuoteCount(s[i..q + 1]) == 2)
  {
    var q := RunEnd(s, i + 1, StringBody);
    RunEndMaximal(s, i + 1, StringBody);
    assert '"' !in s[i + 1..q];
    QuoteCountSplit(s, i, i + 1, q);
    assert s[i..i + 1] == ['"'];
    if q < |s| {
      QuoteCountSplit(s, i, q, q + 1);
      assert s[q..q + 1] == ['"'];
    }
  }

  /** The quotes after `i` are those before `j` and those from `j` on. */
  lemma QuoteCountSuffix(s: string, i: nat, j: nat)
    requires i <= j <= |s|
    ensures QuoteCount(s[i..]) == QuoteCount(s[i..j]) + QuoteCount(s[j..])
  {
    QuoteCountSplit(s, i, j, |s|);
    assert s[i..] == s[i..|s|] && s[j..] == s[j..|s|];
  }

  /** Moving from `i` to a `j` outside strings keeps `NoCloseOutsideStrings`. */
  lemma NoCloseShift(s: string, i: nat, j: nat)
    requires i <= j <= |s| && QuoteCount(s[i..j]) % 2 == 0 && NoCloseOutsideStrings(s, i)
    ensures NoCloseOutsideStrings(s, j)
  {
    forall k | j <= k < |s| - 1 && QuoteCount(s[j..k]) % 2 == 0
      ensures !(s[k] == '*' && s[k + 1] == '/')
    {
      QuoteCountSplit(s, i, j, k);
    }
  }

  // ----- the source's `peekNext` as written -----

  /**
   * `peekNext()` as written: the guard compares `current` with the length plus
   * two, so it reads `charAt(current + 1)` whenever `current` is at most two
   * past the end. `None` is the StringIndexOutOfBoundsException that then follows.
   */
  function PeekNextAsWritten(s: string, current: nat): (r: Option<char>)
    ensures current + 1 < |s| ==> r == Some(s[current + 1])
  {
    if current > |s| + 2 then Some('\0')
    else if current + 1 < |s| then Some(s[current + 1])
    else None
  }

  /**
   * On `"1."` `number()` stops its digit loop at the `.` (index 1, the last
   * character) and then calls `peekNext()`, which reads index 2 of a string of
   * length 2 and throws.
   */
  lemma TrailingDotOverrunsAsWritten()
    ensures "1."[1] == '.' && PeekNextAsWritten("1.", 1) == None
  {
  }

  /**
   * With the corrected guard the same input scans as NUMBER "1" and then
   * DOT "." : the `.` is not part of the number because no digit follows it.
   */
  lemma TrailingDotScansAsDot(parse: string -> Number)
    ensures LexFrom("1.", 0, parse).tokens
      == [Token(NumberKind, "1", Num(parse("1")), 1), Token(Dot, ".", Nil, 1)]
  {
    var s := "1.";
    TrailingDotLexemes(parse);
    assert LexFrom(s, 2, parse) == Scanned([], []);
    assert LineAt(s, 1) == 1 && LineAt(s, 2) == 1;
  }

  /** The two lexemes of `1.` with the corrected guard: NUMBER "1", then DOT. */
  lemma TrailingDotLexemes(parse: string -> Number)
    ensures "1."[0..1] == "1" && "1."[1..2] == "."
    ensures ScanOne("1.", 0, parse) == Lexed(1, Some(NumberKind), Num(parse("1")), [])
    ensures ScanOne("1.", 1, parse) == Lexed(2, Some(Dot), Nil, [])
  {
    var s := "1.";
    assert s[0..1] == "1" && s[1..2] == ".";
    assert RunEnd(s, 1, Digit) == 1;
    assert RunEnd(s, 0, Digit) == 1;
    assert NumberEnd(s, 0) == 1;
  }

  // ----- the source's `string()` as written -----

  /**
   * What `string()` as written does: it returns having scanned a lexeme, or it
   * throws after the messages `reported` have been reported.
   */
  datatype StringRun = Returns(lexeme: Lexed) | Throws(reported: seq<string>)

  /**
   * `string()` as written, from the opening quote at `i`: at the end of input it
   * reports "Error unterminated string." and still calls `advance()`, whose
   * `charAt(length)` throws.
   */
  function StringAsWritten(s: string, i: nat): (r: StringRun)
    requires i < |s|
    ensures r.Returns? ==> r.lexeme.kind == Some(StringKind) && r.lexeme.messages == []
    ensures r.Throws? ==> r.reported == ["Error unterminated string."]
  {
    var q := RunEnd(s, i + 1, StringBody);
    if q < |s| then Returns(Lexed(q + 1, Some(StringKind), Str(s[i + 1..q]), []))
    else Throws(["Error unterminated string."])
  }

  /** As written, every unterminated string reports the error and then ends the scan with an exception. */
  lemma UnterminatedStringOverrunsAsWritten(s: string, i: nat)
    requires i < |s| && s[i] == '"' && '"' !in s[i + 1..]
    ensures StringAsWritten(s, i) == Throws(["Error unterminated string."])
  {
    RunEndMaximal(s, i + 1, StringBody);
  }
}
