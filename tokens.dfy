/** Lexical units: the token kinds, the immutable token record and the keyword table. */
module Tokens {
  import opened Values

  /** The token kinds, rebuilt from their uses in the lexer and the parser. */
  datatype TokenType =
    // one-character punctuation
    | LeftParen | RightParen | LeftBrace | RightBrace
    | Comma | Dot | Minus | Plus | Semicolon | Colon | Star | Question
    // one- or two-character operators
    | Bang | BangEqual | Equal | EqualEqual
    | Greater | GreaterEqual | Less | LessEqual | Slash
    // literals and names
    | Identifier | StringKind | NumberKind | Comment
    // keywords
    | AndKw | ClassKw | ElseKw | FalseKw | ForKw | FunKw | IfKw | NilKw | OrKw
    | PrintKw | ReturnKw | SuperKw | ThisKw | TrueKw | VarKw | WhileKw
    // end of input
    | Eof

  /**
   * A token. All four fields are fixed at construction; the getters of the
   * source are the destructors. `literal` is `Nil` when the source stores `null`.
   */
  datatype Token = Token(kind: TokenType, lexeme: string, literal: Value, line: int)

  /** An error reported to the driver with `Lox.error(line, message)`. */
  datatype Report = Report(line: int, message: string)

  /** The reserved words and the kind each one is scanned as. */
  const Keywords: map<string, TokenType> := map[
    "and" := AndKw, "class" := ClassKw, "else" := ElseKw, "false" := FalseKw,
    "for" := ForKw, "fun" := FunKw, "if" := IfKw, "nil" := NilKw, "or" := OrKw,
    "print" := PrintKw, "return" := ReturnKw, "super" := SuperKw, "this" := ThisKw,
    "true" := TrueKw, "var" := VarKw, "while" := WhileKw]

  /** The kinds that only the keyword table produces. */
  predicate IsKeywordKind(k: TokenType) {
    k in {AndKw, ClassKw, ElseKw, FalseKw, ForKw, FunKw, IfKw, NilKw, OrKw, PrintKw, ReturnKw, SuperKw, ThisKw, TrueKw, VarKw, WhileKw}
  }

  /** `Token.match(types...)`: scans the argument list for the token's kind. */
  method Match(t: Token, kinds: seq<TokenType>) returns (r: bool)
    ensures r <==> t.kind in kinds
  {
    for i := 0 to |kinds|
      invariant t.kind !in kinds[..i]
    {
      if t.kind == kinds[i] {
        return true;
      }
    }
    return false;
  }

  /** Every keyword kind is the kind of some word of the table. */
  lemma KeywordTableOnto(k: TokenType)
    requires IsKeywordKind(k)
    ensures k in Keywords.Values
  {
    var w :=
      if k == AndKw then "and"
      else if k == ClassKw then "class"
      else if k == ElseKw then "else"
      else if k == FalseKw then "false"
      else if k == ForKw then "for"
      else if k == FunKw then "fun"
      else if k == IfKw then "if"
      else if k == NilKw then "nil"
      else if k == OrKw then "or"
      else if k == PrintKw then "print"
      else if k == ReturnKw then "return"
      else if k == SuperKw then "super"
      else if k == ThisKw then "this"
      else if k == TrueKw then "true"
      else if k == VarKw then "var"
      else if k == WhileKw then "while"
      else "while";
    assert Keywords[w] == k;
  }

  /** Every keyword maps to a keyword kind, and distinct keywords to distinct kinds. */
  lemma KeywordTableInjective(w1: string, w2: string)
    requires w1 in Keywords && w2 in Keywords
    ensures IsKeywordKind(Keywords[w1])
    ensures Keywords[w1] == Keywords[w2] ==> w1 == w2
  {
  }
}
