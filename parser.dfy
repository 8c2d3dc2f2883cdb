/**
 * The recursive-descent parser: a cursor `current` over a fixed token list
 * that ends with EOF, one method per grammar rule, and the error reports made
 * through `Lox.error`. A `ParserError` thrown by `consume` is the `Raised`
 * result, which every rule passes on to its caller. Each rule is proved to
 * compute the function of the same rule in `Descent`: the same result, the
 * same final cursor and the same reports.
 */
module Parsing {
  import opened Wrappers
  import opened Values
  import opened Tokens
  import opened Ast
  import opened Grammar
  import opened Descent

  class Parser {
    const tokens: seq<Token>
    var current: nat
    /** The reports made through `Lox.error`. */
    var errors: seq<Report>

    /** The token list ends with EOF, and the cursor is on a token. */
    ghost predicate Valid()
      reads this
    {
      Ended(tokens) && current < |tokens|
    }

    /** The constructor copies the list; a sequence is a copy already. */
    constructor (tokens: seq<Token>)
      requires Ended(tokens)
      ensures Valid() && this.tokens == tokens && current == 0 && errors == []
    {
      this.tokens := tokens;
      current := 0;
      errors := [];
    }

    /** `peek()`: the current token. */
    function Peek(): (t: Token)
      reads this
      requires Valid()
      ensures t == tokens[current]
    {
      tokens[current]
    }

    /** `eof()`: the current token is EOF, as it is at the last position. */
    predicate AtEof()
      reads this
      requires Valid()
      ensures current == |tokens| - 1 ==> AtEof()
    {
      Peek().kind == Eof
    }

    /** `previous()`; the source exits the process when `current` is 0, here a precondition. */
    function Previous(): (t: Token)
      reads this
      requires Valid() && current > 0
      ensures t == tokens[current - 1]
    {
      tokens[current - 1]
    }

    /** Moves to the next token unless already on EOF, and returns the token now current. */
    method Advance() returns (t: Token)
      requires Valid()
      modifies this`current
      ensures Valid()
      ensures current == if old(AtEof()) then old(current) else old(current) + 1
      ensures t == tokens[current]
    {
      if !AtEof() {
        current := current + 1;
      }
      t := Peek();
    }

    /**
     * `match(types...)`: consumes the current token when its kind is one of
     * `kinds`. No caller passes EOF among the kinds.
     */
    method Match(kinds: seq<TokenType>) returns (r: bool)
      requires Valid() && Eof !in kinds
      modifies this`current
      ensures Valid()
      ensures r <==> old(Peek().kind) in kinds
      ensures current == if r then old(current) + 1 else old(current)
    {
      r := Tokens.Match(Peek(), kinds);
      if r {
        var _ := Advance();
      }
    }

    /**
     * `consume(message, types...)`: returns the current token and moves past it
     * when its kind is one of `kinds`; otherwise reports `message` at its line
     * and throws. No caller passes EOF among the kinds.
     */
    method Consume(message: string, kinds: seq<TokenType>) returns (r: PResult<Token>)
      requires Valid() && Eof !in kinds
      modifies this`current, this`errors
      ensures Valid()
      ensures old(Peek().kind) in kinds ==>
        r == Done(old(Peek())) && current == old(current) + 1 && errors == old(errors)
      ensures old(Peek().kind) !in kinds ==>
        r == Raised && current == old(current) && errors == old(errors) + [Report(old(Peek()).line, message)]
    {
      var found := Tokens.Match(Peek(), kinds);
      if found {
        var _ := Advance();
        return Done(Previous());
      }
      errors := errors + [Report(Peek().line, message)];
      return Raised;
    }

    /** `expr()`: ternaries separated by commas, folded to the left. */
    method Expression() returns (r: PResult<Option<Expr>>)
      requires Valid()
      modifies this`current, this`errors
      ensures Valid() && Step(r, current, errors) == Tier(tokens, old(current), old(errors), CommaLevel)
      decreases |tokens| - current, CommaLevel
    {
      ghost var i, e0 := current, errors;
      var first := Ternary();
      assert Tier(tokens, i, e0, CommaLevel) == Fold(tokens, Step(first, current, errors), CommaLevel);
      if first.Raised? {
        return Raised;
      }
      var expr := first.value;
      while true
        invariant Valid()
        invariant Fold(tokens, Step(Done(expr), current, errors), CommaLevel) == Tier(tokens, i, e0, CommaLevel)
        decreases |tokens| - current
      {
        ghost var k, e := current, errors;
        OperatorsOfTier(Peek().kind, CommaLevel);
        var more := Match(Operators(CommaLevel));
        if !more {
          FoldStops(tokens, Step(Done(expr), current, errors), CommaLevel);
          return Done(expr);
        }
        var op := Previous();
        var right := Ternary();
        FoldTurn(tokens, expr, k, e, Step(right, current, errors), CommaLevel);
        if right.Raised? {
          return Raised;
        }
        expr := Some(Binary(expr, op, right.value));
      }
    }

    /**
     * `assignment()`, which no other rule calls: a ternary, or a variable
     * followed by `=` and a further assignment. Any other target before `=`
     * is reported as "Invalid assignement." at the `=` and thrown.
     */
    method Assign() returns (r: PResult<Option<Expr>>)
      requires Valid()
      modifies this`current, this`errors
      ensures Valid() && Step(r, current, errors) == AssignmentRule(tokens, old(current), old(errors))
      decreases |tokens| - current, CommaLevel + 1
    {
      var target := Ternary();
      if target.Raised? {
        return Raised;
      }
      var assigning := Match([Equal]);
      if !assigning {
        return target;
      }
      var equal := Previous();
      var value := Assign();
      if value.Raised? {
        return Raised;
      }
      if target.value.Some? && target.value.value.Variable? {
        var name := target.value.value.identifier;
        return Done(Some(Assignment(name, value.value)));
      }
      errors := errors + [Report(equal.line, "Invalid assignement.")];
      return Raised;
    }

    /** `ternary()`: `equality ? ternary : ternary`, nesting to the right. */
    method Ternary() returns (r: PResult<Option<Expr>>)
      requires Valid()
      modifies this`current, this`errors
      ensures Valid() && Step(r, current, errors) == Tier(tokens, old(current), old(errors), TernaryLevel)
      decreases |tokens| - current, TernaryLevel
    {
      assert Tier(tokens, current, errors, TernaryLevel) == TernaryRule(tokens, current, errors);
      var cond := Equality();
      if cond.Raised? {
        return Raised;
      }
      var question := Match([Question]);
      if !question {
        return cond;
      }
      var first := Ternary();
      if first.Raised? {
        return Raised;
      }
      var colon := Consume("Missing colon ':' ternary operator.", [Colon]);
      if colon.Raised? {
        return Raised;
      }
      var second := Ternary();
      if second.Raised? {
        return Raised;
      }
      return Done(Some(Expr.Ternary(cond.value, first.value, second.value)));
    }

    /** `equality()`: comparisons joined by `!=` and `==`, folded to the left. */
    method Equality() returns (r: PResult<Option<Expr>>)
      requires Valid()
      modifies this`current, this`errors
      ensures Valid() && Step(r, current, errors) == Tier(tokens, old(current), old(errors), EqualityLevel)
      decreases |tokens| - current, EqualityLevel
    {
      ghost var i, e0 := current, errors;
      var first := Comparison();
      assert Tier(tokens, i, e0, EqualityLevel) == Fold(tokens, Step(first, current, errors), EqualityLevel);
      if first.Raised? {
        return Raised;
      }
      var expr := first.value;
      while true
        invariant Valid()
        invariant Fold(tokens, Step(Done(expr), current, errors), EqualityLevel) == Tier(tokens, i, e0, EqualityLevel)
        decreases |tokens| - current
      {
        ghost var k, e := current, errors;
        OperatorsOfTier(Peek().kind, EqualityLevel);
        var more := Match(Operators(EqualityLevel));
        if !more {
          FoldStops(tokens, Step(Done(expr), current, errors), EqualityLevel);
          return Done(expr);
        }
        var op := Previous();
        var right := Comparison();
        FoldTurn(tokens, expr, k, e, Step(right, current, errors), EqualityLevel);
        if right.Raised? {
          return Raised;
        }
        expr := Some(Binary(expr, op, right.value));
      }
    }

    /** `compare()`: additions joined by `<=`, `<`, `>=` and `>`, folded to the left. */
    method Comparison() returns (r: PResult<Option<Expr>>)
      requires Valid()
      modifies this`current, this`errors
      ensures Valid() && Step(r, current, errors) == Tier(tokens, old(current), old(errors), ComparisonLevel)
      decreases |tokens| - current, ComparisonLevel
    {
      ghost var i, e0 := current, errors;
      var first := Addition();
      assert Tier(tokens, i, e0, ComparisonLevel) == Fold(tokens, Step(first, current, errors), ComparisonLevel);
      if first.Raised? {
        return Raised;
      }
      var expr := first.value;
      while true
        invariant Valid()
        invariant Fold(tokens, Step(Done(expr), current, errors), ComparisonLevel) == Tier(tokens, i, e0, ComparisonLevel)
        decreases |tokens| - current
      {
        ghost var k, e := current, errors;
        OperatorsOfTier(Peek().kind, ComparisonLevel);
        var more := Match(Operators(ComparisonLevel));
        if !more {
          FoldStops(tokens, Step(Done(expr), current, errors), ComparisonLevel);
          return Done(expr);
        }
        var op := Previous();
        var right := Addition();
        FoldTurn(tokens, expr, k, e, Step(right, current, errors), ComparisonLevel);
        if right.Raised? {
          return Raised;
        }
        expr := Some(Binary(expr, op, right.value));
      }
    }

    /** `addition()`: multiplications joined by `+` and `-`, folded to the left. */
    method Addition() returns (r: PResult<Option<Expr>>)
      requires Valid()
      modifies this`current, this`errors
      ensures Valid() && Step(r, current, errors) == Tier(tokens, old(current), old(errors), TermLevel)
      decreases |tokens| - current, TermLevel
    {
      ghost var i, e0 := current, errors;
      var first := Multiplication();
      assert Tier(tokens, i, e0, TermLevel) == Fold(tokens, Step(first, current, errors), TermLevel);
      if first.Raised? {
        return Raised;
      }
      var expr := first.value;
      while true
        invariant Valid()
        invariant Fold(tokens, Step(Done(expr), current, errors), TermLevel) == Tier(tokens, i, e0, TermLevel)
        decreases |tokens| - current
      {
        ghost var k, e := current, errors;
        OperatorsOfTier(Peek().kind, TermLevel);
        var more := Match(Operators(TermLevel));
        if !more {
          FoldStops(tokens, Step(Done(expr), current, errors), TermLevel);
          return Done(expr);
        }
        var op := Previous();
        var right := Multiplication();
        FoldTurn(tokens, expr, k, e, Step(right, current, errors), TermLevel);
        if right.Raised? {
          return Raised;
        }
        expr := Some(Binary(expr, op, right.value));
      }
    }

    /** `multiplication()`: unaries joined by `*` and `/`, folded to the left. */
    method Multiplication() returns (r: PResult<Option<Expr>>)
      requires Valid()
      modifies this`current, this`errors
      ensures Valid() && Step(r, current, errors) == Tier(tokens, old(current), old(errors), FactorLevel)
      decreases |tokens| - current, FactorLevel
    {
      ghost var i, e0 := current, errors;
      var first := Unary();
      assert Tier(tokens, i, e0, FactorLevel) == Fold(tokens, Step(first, current, errors), FactorLevel);
      if first.Raised? {
        return Raised;
      }
      var expr := first.value;
      while true
        invariant Valid()
        invariant Fold(tokens, Step(Done(expr), current, errors), FactorLevel) == Tier(tokens, i, e0, FactorLevel)
        decreases |tokens| - current
      {
        ghost var k, e := current, errors;
        OperatorsOfTier(Peek().kind, FactorLevel);
        var more := Match(Operators(FactorLevel));
        if !more {
          FoldStops(tokens, Step(Done(expr), current, errors), FactorLevel);
          return Done(expr);
        }
        var op := Previous();
        var right := Unary();
        FoldTurn(tokens, expr, k, e, Step(right, current, errors), FactorLevel);
        if right.Raised? {
          return Raised;
        }
        expr := Some(Binary(expr, op, right.value));
      }
    }

    /** `unary()`: `!` or `-` before a unary, else a primary. */
    method Unary() returns (r: PResult<Option<Expr>>)
      requires Valid()
      modifies this`current, this`errors
      ensures Valid() && Step(r, current, errors) == Tier(tokens, old(current), old(errors), UnaryLevel)
      decreases |tokens| - current, UnaryLevel
    {
      var prefixed := Match([Bang, Minus]);
      if prefixed {
        var op := Previous();
        var operand := Unary();
        if operand.Raised? {
          return Raised;
        }
        return Done(Some(Expr.Unary(op, operand.value)));
      }
      ghost var i, e := current, errors;
      r := Primary();
      assert Tier(tokens, i, e, PrimaryLevel) == PrimaryRule(tokens, i, e);
    }

    /**
     * `primary()`. On a token that starts no expression it reports
     * "Parsing error: primary expected." at that token's line and, as written,
     * returns `null` instead of throwing, consuming nothing.
     */
    method Primary() returns (r: PResult<Option<Expr>>)
      requires Valid()
      modifies this`current, this`errors
      ensures Valid() && Step(r, current, errors) == PrimaryRule(tokens, old(current), old(errors))
      decreases |tokens| - current, PrimaryLevel
    {
      var m := Match([TrueKw]);
      if m {
        return Done(Some(Literal(Bool(true))));
      }
      m := Match([FalseKw]);
      if m {
        return Done(Some(Literal(Bool(false))));
      }
      m := Match([NilKw]);
      if m {
        return Done(Some(Literal(Nil)));
      }
      m := Match([NumberKind, StringKind]);
      if m {
        return Done(Some(Literal(Previous().literal)));
      }
      m := Match([LeftParen]);
      if m {
        r := Group();
        return;
      }
      m := Match([Identifier]);
      if m {
        return Done(Some(Variable(Previous())));
      }
      errors := errors + [Report(Peek().line, "Parsing error: primary expected.")];
      return Done(None);
    }

    /** The `(` branch of `primary()`, after the `(`: an expression, then `)`. */
    method Group() returns (r: PResult<Option<Expr>>)
      requires Valid()
      modifies this`current, this`errors
      ensures Valid() && Step(r, current, errors) == GroupRule(tokens, old(current), old(errors))
      decreases |tokens| - current, CommaLevel + 1
    {
      var inner := Expression();
      if inner.Raised? {
        return Raised;
      }
      var closing := Consume("Missing closing parenthesis.", [RightParen]);
      if closing.Raised? {
        return Raised;
      }
      return Done(Some(Grouping(inner.value)));
    }

    /**
     * `statement()`: a `print` or `var` statement, else an expression
     * statement. A thrown `ParserError` is caught: `synchronize()` runs and
     * `null` is returned, or `synchronize()` never returns.
     */
    method Statement() returns (r: StmtResult)
      requires Valid()
      modifies this`current, this`errors
      ensures Valid() && Step(r, current, errors) == StatementRule(tokens, old(current), old(errors))
    {
      var attempt: PResult<Stmt>;
      var printing := Match([PrintKw]);
      if printing {
        attempt := PrintStatement();
      } else {
        var declaration := Match([VarKw]);
        if declaration {
          attempt := VarDeclaration();
        } else {
          attempt := ExpressionStatement();
        }
      }
      assert Step(attempt, current, errors) == AttemptRule(tokens, old(current), old(errors));
      if attempt.Done? {
        return Parsed(attempt.value);
      }
      var hangs := Synchronize();
      r := if hangs then Diverges else Recovered;
    }

    /**
     * Where `synchronize()` leaves the cursor when it returns: on EOF, just
     * past a `;`, or on a keyword that starts a statement.
     */
    ghost predicate Synchronized()
      reads this
      requires Valid()
    {
      AtEof() || Peek().kind in StatementStarts || (current > 0 && Previous().kind == Semicolon)
    }

    /**
     * `synchronize()`. Its loop only ever leaves in its first turn: on EOF, or
     * on a statement keyword, or past a `;` it consumes. On any other token it
     * goes round without advancing, forever; `hangs` says that case happened,
     * and the cursor is left where it was.
     */
    method Synchronize() returns (hangs: bool)
      requires Valid()
      modifies this`current
      ensures Valid() && (hangs, current) == SynchronizeRule(tokens, old(current))
      ensures hangs <==> !old(AtEof()) && old(Peek().kind) != Semicolon && old(Peek().kind) !in StatementStarts
      ensures !hangs ==> Synchronized()
    {
      if AtEof() {
        return false;
      }
      if Peek().kind == Semicolon {
        var _ := Advance();
        return false;
      }
      return Peek().kind !in StatementStarts;
    }

    /** `varDeclaration()`, after `var`: a name, an optional `= expr`, then `;`. */
    method VarDeclaration() returns (r: PResult<Stmt>)
      requires Valid()
      modifies this`current, this`errors
      ensures Valid() && Step(r, current, errors) == VarDeclarationRule(tokens, old(current), old(errors))
    {
      var name := Consume("var keyword requires an identifier;", [Identifier]);
      if name.Raised? {
        return Raised;
      }
      var initialized := Match([Equal]);
      if !initialized {
        r := Declare(name.value, None);
        return;
      }
      var value := Expression();
      if value.Raised? {
        return Raised;
      }
      r := Declare(name.value, value.value);
    }

    /** The `;` that closes `varDeclaration()`, and the declaration it builds. */
    method Declare(name: Token, initializer: Option<Expr>) returns (r: PResult<Stmt>)
      requires Valid()
      modifies this`current, this`errors
      ensures Valid() && Step(r, current, errors) == Declared(tokens, name, initializer, old(current), old(errors))
    {
      var semicolon := Consume("Missing semi colon at variable declaration.", [Semicolon]);
      if semicolon.Raised? {
        return Raised;
      }
      return Done(VarDeclareStmt(name, initializer));
    }

    /** `printStatement()`, after `print`: an expression, then `;`. */
    method PrintStatement() returns (r: PResult<Stmt>)
      requires Valid()
      modifies this`current, this`errors
      ensures Valid() && Step(r, current, errors) == PrintStatementRule(tokens, old(current), old(errors))
    {
      var value := Expression();
      if value.Raised? {
        return Raised;
      }
      var semicolon := Consume("Print statement is missing semi-colon ;", [Semicolon]);
      if semicolon.Raised? {
        return Raised;
      }
      return Done(PrintStmt(value.value));
    }

    /** `expressionStatement()`: an expression, then `;`. */
    method ExpressionStatement() returns (r: PResult<Stmt>)
      requires Valid()
      modifies this`current, this`errors
      ensures Valid() && Step(r, current, errors) == ExpressionStatementRule(tokens, old(current), old(errors))
    {
      var value := Expression();
      if value.Raised? {
        return Raised;
      }
      var semicolon := Consume("Expression statement is missing semi-colon ;", [Semicolon]);
      if semicolon.Raised? {
        return Raised;
      }
      return Done(ExpressionStmt(value.value));
    }
  }
}
