/**
 * The recursive descent of the parser written as pure functions of the token
 * list: each rule takes the position it starts at and the reports made so far,
 * and gives back what the rule returns or throws, the position it leaves the
 * cursor at, and the reports made by then. The parser's methods are proved to
 * compute exactly these functions; what the functions parse is proved in
 * `ParseSoundness` and `ParseCompleteness`.
 */
module Descent {
  import opened Wrappers
  import opened Values
  import opened Tokens
  import opened Ast
  import opened Grammar

  /** A rule's result: the value it returns, or the `ParserError` it throws. */
  datatype PResult<T> = Done(value: T) | Raised

  /** What `statement()` gives back: a statement, or `null` after `synchronize()` returned. */
  datatype StmtResult =
    | Parsed(stmt: Stmt)
    | Recovered
      /** `synchronize()` stopped on a token it never moves past, so it loops forever. */
    | Diverges

  /** A rule run from some position: its result, where it left the cursor, and all reports so far. */
  datatype Step<R> = Step(r: R, next: nat, errs: seq<Report>)

  /** The kinds on which `synchronize()` stops without consuming. */
  const StatementStarts: set<TokenType> := {ClassKw, FunKw, IfKw, WhileKw, ForKw, VarKw, ReturnKw, PrintKw}

  /**
   * The reserved words at which `synchronize()` stops are exactly `class`,
   * `fun`, `if`, `while`, `for`, `var`, `return` and `print`.
   */
  lemma StatementStartWords(w: string)
    requires w in Keywords
    ensures Keywords[w] in StatementStarts <==> w in {"class", "fun", "if", "while", "for", "var", "return", "print"}
    ensures forall k :: k in StatementStarts ==> IsKeywordKind(k)
  {
  }

  /** The parser's token list: it ends with an EOF token. */
  predicate Ended(ts: seq<Token>) {
    |ts| > 0 && ts[|ts| - 1].kind == Eof
  }

  /** A failed `consume(message, ...)` at token `k`: `message` is reported at its line and thrown. */
  function Missing<T>(ts: seq<Token>, k: nat, errs: seq<Report>, message: string): (p: Step<PResult<T>>)
    requires k < |ts|
    ensures p.r.Raised? && p.next == k && p.errs == errs + [Report(ts[k].line, message)]
  {
    Step(Raised, k, errs + [Report(ts[k].line, message)])
  }

  /** The error a failed sub-rule throws, passed on unchanged. */
  function Rethrow<T, U>(p: Step<PResult<T>>): Step<PResult<U>> {
    Step(Raised, p.next, p.errs)
  }

  /**
   * The expression rule of tier `level` started at token `i`: `primary()`,
   * `unary()`, `ternary()`, or the binary tier whose loop folds the
   * operators of that level (`multiplication()` through `equality()`, and
   * `expr()` for the comma).
   */
  function Tier(ts: seq<Token>, i: nat, errs: seq<Report>, level: nat): (p: Step<PResult<Option<Expr>>>)
    requires Ended(ts) && i < |ts| && level <= CommaLevel
    ensures i <= p.next < |ts|
    decreases |ts| - i, level, 2
  {
    if level == PrimaryLevel then PrimaryRule(ts, i, errs)
    else if level == UnaryLevel then UnaryRule(ts, i, errs)
    else if level == TernaryLevel then TernaryRule(ts, i, errs)
    else Fold(ts, Tier(ts, i, errs, level - 1), level)
  }

  /**
   * The loop of a binary tier once `acc` has been parsed: while the next
   * token is an operator of this tier, parse an operand of the next tighter
   * tier and make it the right child of a new node over `acc`.
   */
  function Fold(ts: seq<Token>, acc: Step<PResult<Option<Expr>>>, level: nat): (p: Step<PResult<Option<Expr>>>)
    requires Ended(ts) && acc.next < |ts| && 0 < level <= CommaLevel
    ensures acc.next <= p.next < |ts|
    decreases |ts| - acc.next, level, 1
  {
    if acc.r.Raised? || BinaryLevel(ts[acc.next].kind) != level then acc
    else
      var right := Tier(ts, acc.next + 1, acc.errs, level - 1);
      if right.r.Raised? then right
      else Fold(ts, Step(Done(Some(Binary(acc.r.value, ts[acc.next], right.r.value))), right.next, right.errs), level)
  }

  /** The loop of a binary tier ends in front of a token that is no operator of the tier. */
  lemma FoldStops(ts: seq<Token>, acc: Step<PResult<Option<Expr>>>, level: nat)
    requires Ended(ts) && acc.next < |ts| && 0 < level <= CommaLevel && BinaryLevel(ts[acc.next].kind) != level
    ensures Fold(ts, acc, level) == acc
  {
  }

  /**
   * One turn of the loop of a binary tier over the operator at `k`: the
   * operand `right` that follows is thrown on, or becomes the right child of
   * `l` and the loop goes on.
   */
  lemma FoldTurn(ts: seq<Token>, l: Option<Expr>, k: nat, errs: seq<Report>, right: Step<PResult<Option<Expr>>>, level: nat)
    requires Ended(ts) && k + 1 < |ts| && 0 < level <= CommaLevel && BinaryLevel(ts[k].kind) == level
    requires right == Tier(ts, k + 1, errs, level - 1)
    ensures Fold(ts, Step(Done(l), k, errs), level)
      == if right.r.Raised? then right else Fold(ts, Step(Done(Some(Binary(l, ts[k], right.r.value))), right.next, right.errs), level)
  {
  }

  /** `ternary()`: an equality, and when `?` follows, two ternaries separated by `:`. */
  function TernaryRule(ts: seq<Token>, i: nat, errs: seq<Report>): (p: Step<PResult<Option<Expr>>>)
    requires Ended(ts) && i < |ts|
    ensures i <= p.next < |ts|
    decreases |ts| - i, TernaryLevel, 1
  {
    var cond := Tier(ts, i, errs, EqualityLevel);
    if cond.r.Raised? || ts[cond.next].kind != Question then cond
    else
      var first := Tier(ts, cond.next + 1, cond.errs, TernaryLevel);
      if first.r.Raised? then first
      else if ts[first.next].kind != Colon then Missing(ts, first.next, first.errs, "Missing colon ':' ternary operator.")
      else
        var second := Tier(ts, first.next + 1, first.errs, TernaryLevel);
        if second.r.Raised? then second
        else Step(Done(Some(Ternary(cond.r.value, first.r.value, second.r.value))), second.next, second.errs)
  }

  /** `unary()`: `!` or `-` before a unary, else a primary. */
  function UnaryRule(ts: seq<Token>, i: nat, errs: seq<Report>): (p: Step<PResult<Option<Expr>>>)
    requires Ended(ts) && i < |ts|
    ensures i <= p.next < |ts|
    decreases |ts| - i, UnaryLevel, 1
  {
    if ts[i].kind in {Bang, Minus} then
      var operand := Tier(ts, i + 1, errs, UnaryLevel);
      if operand.r.Raised? then operand
      else Step(Done(Some(Unary(ts[i], operand.r.value))), operand.next, operand.errs)
    else Tier(ts, i, errs, PrimaryLevel)
  }

  /**
   * `primary()`: a literal, a parenthesised expression or a variable. On any
   * other token it reports "Parsing error: primary expected." and returns
   * `null` without consuming.
   */
  function PrimaryRule(ts: seq<Token>, i: nat, errs: seq<Report>): (p: Step<PResult<Option<Expr>>>)
    requires Ended(ts) && i < |ts|
    ensures i <= p.next < |ts|
    decreases |ts| - i, PrimaryLevel, 1
  {
    var t := ts[i];
    if t.kind == TrueKw then Step(Done(Some(Literal(Bool(true)))), i + 1, errs)
    else if t.kind == FalseKw then Step(Done(Some(Literal(Bool(false)))), i + 1, errs)
    else if t.kind == NilKw then Step(Done(Some(Literal(Nil))), i + 1, errs)
    else if t.kind in {NumberKind, StringKind} then Step(Done(Some(Literal(t.literal))), i + 1, errs)
    else if t.kind == LeftParen then GroupRule(ts, i + 1, errs)
    else if t.kind == Identifier then Step(Done(Some(Variable(t))), i + 1, errs)
    else Step(Done(None), i, errs + [Report(t.line, "Parsing error: primary expected.")])
  }

  /** The `(` branch of `primary()`, from the token after `(`: an expression, then `)`. */
  function GroupRule(ts: seq<Token>, i: nat, errs: seq<Report>): (p: Step<PResult<Option<Expr>>>)
    requires Ended(ts) && i < |ts|
    ensures i <= p.next < |ts|
    decreases |ts| - i, CommaLevel + 1
  {
    var inner := Tier(ts, i, errs, CommaLevel);
    if inner.r.Raised? then inner
    else if ts[inner.next].kind != RightParen then Missing(ts, inner.next, inner.errs, "Missing closing parenthesis.")
    else Step(Done(Some(Grouping(inner.r.value))), inner.next + 1, inner.errs)
  }

  /**
   * `assignment()`: a ternary, or a variable followed by `=` and a further
   * assignment. Any other target before `=` is reported as "Invalid
   * assignement." at the `=` and thrown.
   */
  function AssignmentRule(ts: seq<Token>, i: nat, errs: seq<Report>): (p: Step<PResult<Option<Expr>>>)
    requires Ended(ts) && i < |ts|
    ensures i <= p.next < |ts|
    decreases |ts| - i
  {
    var target := Tier(ts, i, errs, TernaryLevel);
    if target.r.Raised? || ts[target.next].kind != Equal then target
    else Assigned(target.r.value, ts[target.next], AssignmentRule(ts, target.next + 1, target.errs))
  }

  /**
   * The end of `assignment()` once the value after the `=` token `equal` is
   * parsed: an assignment when the target is a variable, else "Invalid
   * assignement." reported at the `=` and thrown.
   */
  function Assigned(target: Option<Expr>, equal: Token, value: Step<PResult<Option<Expr>>>): (p: Step<PResult<Option<Expr>>>)
    ensures p.next == value.next && value.errs <= p.errs
  {
    if value.r.Raised? then value
    else if target.Some? && target.value.Variable? then
      Step(Done(Some(Assignment(target.value.identifier, value.r.value))), value.next, value.errs)
    else Step(Raised, value.next, value.errs + [Report(equal.line, "Invalid assignement.")])
  }

  /** `printStatement()`, started just after `print`: an expression, then `;`. */
  function PrintStatementRule(ts: seq<Token>, i: nat, errs: seq<Report>): (p: Step<PResult<Stmt>>)
    requires Ended(ts) && i < |ts|
    ensures i <= p.next < |ts|
  {
    var value := Tier(ts, i, errs, CommaLevel);
    if value.r.Raised? then Rethrow(value)
    else if ts[value.next].kind != Semicolon then Missing(ts, value.next, value.errs, "Print statement is missing semi-colon ;")
    else Step(Done(PrintStmt(value.r.value)), value.next + 1, value.errs)
  }

  /** `expressionStatement()`: an expression, then `;`. */
  function ExpressionStatementRule(ts: seq<Token>, i: nat, errs: seq<Report>): (p: Step<PResult<Stmt>>)
    requires Ended(ts) && i < |ts|
    ensures i <= p.next < |ts|
  {
    var value := Tier(ts, i, errs, CommaLevel);
    if value.r.Raised? then Rethrow(value)
    else if ts[value.next].kind != Semicolon then Missing(ts, value.next, value.errs, "Expression statement is missing semi-colon ;")
    else Step(Done(ExpressionStmt(value.r.value)), value.next + 1, value.errs)
  }

  /** `varDeclaration()`, started just after `var`: a name, an optional `= expr`, then `;`. */
  function VarDeclarationRule(ts: seq<Token>, i: nat, errs: seq<Report>): (p: Step<PResult<Stmt>>)
    requires Ended(ts) && i < |ts|
    ensures i <= p.next < |ts|
  {
    if ts[i].kind != Identifier then Missing(ts, i, errs, "var keyword requires an identifier;")
    else if ts[i + 1].kind != Equal then Declared(ts, ts[i], None, i + 1, errs)
    else
      var init := Tier(ts, i + 2, errs, CommaLevel);
      if init.r.Raised? then Rethrow(init)
      else Declared(ts, ts[i], init.r.value, init.next, init.errs)
  }

  /** The `;` that closes a declaration of `name`, expected at token `k`. */
  function Declared(ts: seq<Token>, name: Token, init: Option<Expr>, k: nat, errs: seq<Report>): (p: Step<PResult<Stmt>>)
    requires Ended(ts) && k < |ts|
    ensures k <= p.next < |ts|
  {
    if ts[k].kind != Semicolon then Missing(ts, k, errs, "Missing semi colon at variable declaration.")
    else Step(Done(VarDeclareStmt(name, init)), k + 1, errs)
  }

  /** The `try` block of `statement()`: the rule its first token selects. */
  function AttemptRule(ts: seq<Token>, i: nat, errs: seq<Report>): (p: Step<PResult<Stmt>>)
    requires Ended(ts) && i < |ts|
    ensures i <= p.next < |ts|
  {
    if ts[i].kind == PrintKw then PrintStatementRule(ts, i + 1, errs)
    else if ts[i].kind == VarKw then VarDeclarationRule(ts, i + 1, errs)
    else ExpressionStatementRule(ts, i, errs)
  }

  /**
   * `synchronize()` started at token `k`: whether it loops forever, and where
   * it leaves the cursor. It returns at once on EOF or on a statement
   * keyword, and just past a `;`; on any other token its loop goes round
   * without advancing.
   */
  function SynchronizeRule(ts: seq<Token>, k: nat): (r: (bool, nat))
    requires Ended(ts) && k < |ts|
    ensures r.1 < |ts|
    ensures r.0 <==> ts[k].kind != Eof && ts[k].kind != Semicolon && ts[k].kind !in StatementStarts
    ensures r.1 == k + 1 <==> ts[k].kind == Semicolon
    ensures r.1 == k || r.1 == k + 1
    ensures !r.0 ==> ts[r.1].kind == Eof || ts[r.1].kind in StatementStarts || (r.1 > 0 && ts[r.1 - 1].kind == Semicolon)
  {
    if ts[k].kind == Eof then (false, k)
    else if ts[k].kind == Semicolon then (false, k + 1)
    else (ts[k].kind !in StatementStarts, k)
  }

  /** `statement()`: the attempt, and after a thrown error `synchronize()` and `null`. */
  function StatementRule(ts: seq<Token>, i: nat, errs: seq<Report>): (p: Step<StmtResult>)
    requires Ended(ts) && i < |ts|
    ensures i <= p.next < |ts|
  {
    var attempt := AttemptRule(ts, i, errs);
    if attempt.r.Done? then Step(Parsed(attempt.r.value), attempt.next, attempt.errs)
    else
      var (hangs, k) := SynchronizeRule(ts, attempt.next);
      Step(if hangs then Diverges else Recovered, k, attempt.errs)
  }
}
