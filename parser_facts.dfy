/**
 * What the parser returns on small inputs, derived from `ParseCompleteness`:
 * precedence and left associativity of the binary tiers, `print` over a
 * chain, and the exact reports of the rules that throw.
 */
module ParserFacts {
  import opened Wrappers
  import opened Values
  import opened Tokens
  import opened Ast
  import opened Grammar
  import opened Descent
  import opened ParseSoundness
  import opened ParseCompleteness

  /** The variable tree of the identifier at `i`. */
  function Var(ts: seq<Token>, i: nat): Option<Expr>
    requires i < |ts|
  {
    Some(Variable(ts[i]))
  }

  /** An identifier alone is a complete tree of every tier. */
  lemma VarTree(ts: seq<Token>, i: nat, level: nat)
    requires Ended(ts) && i + 1 < |ts| && ts[i].kind == Identifier
    ensures CompleteTree(Var(ts, i), ts, i, i + 1, level)
  {
  }

  /** Two complete trees around an operator of a tier no looser than `level` make a complete tree of `level`. */
  lemma BinaryTree(l: Option<Expr>, op: Token, r: Option<Expr>, ts: seq<Token>, i: nat, k: nat, j: nat, level: nat)
    requires 0 < BinaryLevel(op.kind) <= level && k < |ts| && ts[k] == op
    requires CompleteTree(l, ts, i, k, BinaryLevel(op.kind)) && CompleteTree(r, ts, k + 1, j, BinaryLevel(op.kind) - 1)
    ensures CompleteTree(Some(Binary(l, op, r)), ts, i, j, level)
  {
    SpansWidth(l, ts, i, k);
  }

  /**
   * An identifier followed by a token the tier stops on is a variable: a
   * tier does not take an operator it does not fold, so `multiplication()`
   * on `a + b` returns `a` alone and leaves `+` to `addition()`.
   */
  lemma OperandAlone(ts: seq<Token>, i: nat, errs: seq<Report>, level: nat)
    requires Ended(ts) && i + 1 < |ts| && level <= CommaLevel
    requires ts[i].kind == Identifier && Stops(ts[i + 1].kind, level)
    ensures Tier(ts, i, errs, level) == Step(Done(Var(ts, i)), i + 1, errs)
  {
    TierComplete(Var(ts, i), ts, i, i + 1, errs, level);
  }

  /** `x op y` over identifiers, in a tier that folds `op`, is the one binary node. */
  lemma OperandPair(ts: seq<Token>, i: nat, errs: seq<Report>, level: nat)
    requires Ended(ts) && i + 3 < |ts| && level <= CommaLevel
    requires ts[i].kind == Identifier && ts[i + 2].kind == Identifier
    requires 0 < BinaryLevel(ts[i + 1].kind) <= level && Stops(ts[i + 3].kind, level)
    ensures Tier(ts, i, errs, level) == Step(Done(Some(Binary(Var(ts, i), ts[i + 1], Var(ts, i + 2)))), i + 3, errs)
  {
    TierComplete(Some(Binary(Var(ts, i), ts[i + 1], Var(ts, i + 2))), ts, i, i + 3, errs, level);
  }

  /**
   * Precedence and associativity: in `x op1 y op2 z` over identifiers, in a
   * tier that folds both operators, an `op2` that binds no tighter than
   * `op1` takes the whole `x op1 y` as its left operand (left fold), and one
   * that binds tighter takes `y` and `z`.
   */
  lemma OperatorChain(ts: seq<Token>, i: nat, errs: seq<Report>, level: nat)
    requires Ended(ts) && i + 5 < |ts| && level <= CommaLevel
    requires ts[i].kind == Identifier && ts[i + 2].kind == Identifier && ts[i + 4].kind == Identifier
    requires 0 < BinaryLevel(ts[i + 1].kind) <= level && 0 < BinaryLevel(ts[i + 3].kind) <= level
    requires Stops(ts[i + 5].kind, level)
    ensures BinaryLevel(ts[i + 1].kind) <= BinaryLevel(ts[i + 3].kind) ==>
      Tier(ts, i, errs, level)
      == Step(Done(Some(Binary(Some(Binary(Var(ts, i), ts[i + 1], Var(ts, i + 2))), ts[i + 3], Var(ts, i + 4)))), i + 5, errs)
    ensures BinaryLevel(ts[i + 3].kind) < BinaryLevel(ts[i + 1].kind) ==>
      Tier(ts, i, errs, level)
      == Step(Done(Some(Binary(Var(ts, i), ts[i + 1], Some(Binary(Var(ts, i + 2), ts[i + 3], Var(ts, i + 4)))))), i + 5, errs)
  {
    if BinaryLevel(ts[i + 1].kind) <= BinaryLevel(ts[i + 3].kind) {
      var left := Some(Binary(Var(ts, i), ts[i + 1], Var(ts, i + 2)));
      VarTree(ts, i, BinaryLevel(ts[i + 1].kind));
      VarTree(ts, i + 2, BinaryLevel(ts[i + 1].kind) - 1);
      BinaryTree(Var(ts, i), ts[i + 1], Var(ts, i + 2), ts, i, i + 1, i + 3, BinaryLevel(ts[i + 3].kind));
      VarTree(ts, i + 4, BinaryLevel(ts[i + 3].kind) - 1);
      BinaryTree(left, ts[i + 3], Var(ts, i + 4), ts, i, i + 3, i + 5, level);
      TierComplete(Some(Binary(left, ts[i + 3], Var(ts, i + 4))), ts, i, i + 5, errs, level);
    } else {
      var right := Some(Binary(Var(ts, i + 2), ts[i + 3], Var(ts, i + 4)));
      VarTree(ts, i + 2, BinaryLevel(ts[i + 3].kind));
      VarTree(ts, i + 4, BinaryLevel(ts[i + 3].kind) - 1);
      BinaryTree(Var(ts, i + 2), ts[i + 3], Var(ts, i + 4), ts, i + 2, i + 3, i + 5, BinaryLevel(ts[i + 1].kind) - 1);
      VarTree(ts, i, BinaryLevel(ts[i + 1].kind));
      BinaryTree(Var(ts, i), ts[i + 1], right, ts, i, i + 1, i + 5, level);
      TierComplete(Some(Binary(Var(ts, i), ts[i + 1], right)), ts, i, i + 5, errs, level);
    }
  }

  /** `expr()` on `a - b - c ;` returns `(a - b) - c` and stops on the `;`. */
  lemma SubtractionFoldsLeft(ts: seq<Token>, errs: seq<Report>)
    requires Ended(ts) && |ts| > 6
    requires ts[0].kind == Identifier && ts[2].kind == Identifier && ts[4].kind == Identifier
    requires ts[1].kind == Minus && ts[3].kind == Minus && ts[5].kind == Semicolon
    ensures Tier(ts, 0, errs, CommaLevel)
      == Step(Done(Some(Binary(Some(Binary(Var(ts, 0), ts[1], Var(ts, 2))), ts[3], Var(ts, 4)))), 5, errs)
  {
    OperatorChain(ts, 0, errs, CommaLevel);
  }

  /** `expr()` on `a + b * c ;` returns `a + (b * c)`. */
  lemma ProductBindsTighter(ts: seq<Token>, errs: seq<Report>)
    requires Ended(ts) && |ts| > 6
    requires ts[0].kind == Identifier && ts[2].kind == Identifier && ts[4].kind == Identifier
    requires ts[1].kind == Plus && ts[3].kind == Star && ts[5].kind == Semicolon
    ensures Tier(ts, 0, errs, CommaLevel)
      == Step(Done(Some(Binary(Var(ts, 0), ts[1], Some(Binary(Var(ts, 2), ts[3], Var(ts, 4)))))), 5, errs)
  {
    OperatorChain(ts, 0, errs, CommaLevel);
  }

  /** `expr()` on `a * b + c ;` returns `(a * b) + c`. */
  lemma ProductBindsTighterOnTheLeft(ts: seq<Token>, errs: seq<Report>)
    requires Ended(ts) && |ts| > 6
    requires ts[0].kind == Identifier && ts[2].kind == Identifier && ts[4].kind == Identifier
    requires ts[1].kind == Star && ts[3].kind == Plus && ts[5].kind == Semicolon
    ensures Tier(ts, 0, errs, CommaLevel)
      == Step(Done(Some(Binary(Some(Binary(Var(ts, 0), ts[1], Var(ts, 2))), ts[3], Var(ts, 4)))), 5, errs)
  {
    OperatorChain(ts, 0, errs, CommaLevel);
  }

  /** `statement()` on `print a - b - c ;` parses the print of `(a - b) - c`. */
  lemma PrintOfChain(ts: seq<Token>, errs: seq<Report>)
    requires Ended(ts) && |ts| > 7 && ts[0].kind == PrintKw
    requires ts[1].kind == Identifier && ts[3].kind == Identifier && ts[5].kind == Identifier
    requires ts[2].kind == Minus && ts[4].kind == Minus && ts[6].kind == Semicolon
    ensures StatementRule(ts, 0, errs)
      == Step(Parsed(PrintStmt(Some(Binary(Some(Binary(Var(ts, 1), ts[2], Var(ts, 3))), ts[4], Var(ts, 5))))), 7, errs)
  {
    var chain := Some(Binary(Some(Binary(Var(ts, 1), ts[2], Var(ts, 3))), ts[4], Var(ts, 5)));
    StatementComplete(PrintStmt(chain), ts, 0, 7, errs);
  }

  /**
   * On a token that starts no expression and that the tier stops on, every
   * tier reports "Parsing error: primary expected." once and returns `null`
   * without consuming.
   */
  lemma {:induction false} NoExpression(ts: seq<Token>, i: nat, errs: seq<Report>, level: nat)
    requires Ended(ts) && i < |ts| && level <= CommaLevel
    requires ts[i].kind !in {TrueKw, FalseKw, NilKw, NumberKind, StringKind, LeftParen, Identifier, Bang, Minus}
    requires Stops(ts[i].kind, level)
    ensures Tier(ts, i, errs, level) == Step(Done(None), i, errs + [Report(ts[i].line, "Parsing error: primary expected.")])
  {
    if level == TernaryLevel {
      NoExpression(ts, i, errs, EqualityLevel);
    } else if level != PrimaryLevel {
      NoExpression(ts, i, errs, level - 1);
    }
  }

  /**
   * A lone `;` is an expression statement whose expression is `null`, with
   * the one report of `primary()`: the error does not throw, so nothing is
   * skipped.
   */
  lemma EmptyStatement(ts: seq<Token>, i: nat, errs: seq<Report>)
    requires Ended(ts) && i < |ts| && ts[i].kind == Semicolon
    ensures StatementRule(ts, i, errs)
      == Step(Parsed(ExpressionStmt(None)), i + 1, errs + [Report(ts[i].line, "Parsing error: primary expected.")])
  {
    NoExpression(ts, i, errs, CommaLevel);
  }

  /**
   * `print e` not followed by `;` throws with "Print statement is missing
   * semi-colon ;" at the line of the token found instead.
   */
  lemma PrintMissingSemicolon(e: Option<Expr>, ts: seq<Token>, i: nat, j: nat, errs: seq<Report>)
    requires Ended(ts) && i < j < |ts| && ts[i].kind == PrintKw
    requires CompleteTree(e, ts, i + 1, j, CommaLevel)
    requires Stops(ts[j].kind, CommaLevel) && ts[j].kind != Semicolon
    ensures AttemptRule(ts, i, errs) == Step(Raised, j, errs + [Report(ts[j].line, "Print statement is missing semi-colon ;")])
  {
    TierComplete(e, ts, i + 1, j, errs, CommaLevel);
  }

  /** `var` not followed by a name throws with "var keyword requires an identifier;". */
  lemma VarWithoutName(ts: seq<Token>, i: nat, errs: seq<Report>)
    requires Ended(ts) && i + 1 < |ts| && ts[i].kind == VarKw && ts[i + 1].kind != Identifier
    ensures AttemptRule(ts, i, errs) == Step(Raised, i + 1, errs + [Report(ts[i + 1].line, "var keyword requires an identifier;")])
  {
  }

  /**
   * `( e` not followed by `)` throws with "Missing closing parenthesis." at
   * the line of the token found instead.
   */
  lemma MissingClosingParenthesis(e: Option<Expr>, ts: seq<Token>, i: nat, j: nat, errs: seq<Report>)
    requires Ended(ts) && i < j < |ts| && ts[i].kind == LeftParen
    requires CompleteTree(e, ts, i + 1, j, CommaLevel)
    requires Stops(ts[j].kind, CommaLevel) && ts[j].kind != RightParen
    ensures Tier(ts, i, errs, PrimaryLevel) == Step(Raised, j, errs + [Report(ts[j].line, "Missing closing parenthesis.")])
  {
    TierComplete(e, ts, i + 1, j, errs, CommaLevel);
    assert Tier(ts, i, errs, PrimaryLevel) == PrimaryRule(ts, i, errs) == GroupRule(ts, i + 1, errs);
  }

  /**
   * `c ? l` not followed by `:` throws with "Missing colon ':' ternary
   * operator." at the line of the token found instead.
   */
  lemma MissingColon(c: Option<Expr>, l: Option<Expr>, ts: seq<Token>, i: nat, k: nat, j: nat, errs: seq<Report>)
    requires Ended(ts) && i <= k < j < |ts| && ts[k].kind == Question
    requires CompleteTree(c, ts, i, k, EqualityLevel)
    requires CompleteTree(l, ts, k + 1, j, TernaryLevel)
    requires Stops(ts[j].kind, TernaryLevel) && ts[j].kind != Colon
    ensures Tier(ts, i, errs, TernaryLevel) == Step(Raised, j, errs + [Report(ts[j].line, "Missing colon ':' ternary operator.")])
  {
    TierComplete(c, ts, i, k, errs, EqualityLevel);
    TierComplete(l, ts, k + 1, j, errs, TernaryLevel);
  }

  /**
   * `assignment()` with a target that is not a variable, such as `a + b = c`,
   * parses the value and then throws with "Invalid assignement." at the line
   * of the `=`.
   */
  lemma InvalidAssignmentTarget(target: Option<Expr>, v: Option<Expr>, ts: seq<Token>, i: nat, k: nat, j: nat, errs: seq<Report>)
    requires Ended(ts) && i <= k < j < |ts| && ts[k].kind == Equal
    requires CompleteTree(target, ts, i, k, TernaryLevel) && !target.value.Variable?
    requires Spans(v, ts, k + 1, j) && InAssignmentTier(v) && Complete(v)
    requires Stops(ts[j].kind, TernaryLevel) && ts[j].kind != Equal
    ensures AssignmentRule(ts, i, errs) == Step(Raised, j, errs + [Report(ts[k].line, "Invalid assignement.")])
  {
    TierComplete(target, ts, i, k, errs, TernaryLevel);
    AssignmentComplete(v, ts, k + 1, j, errs);
    AssignmentThrows(ts, i, errs, target, k, v, j);
  }

  /** `assignment()` after a target that is no variable, an `=` and a value. */
  lemma AssignmentThrows(ts: seq<Token>, i: nat, errs: seq<Report>, target: Option<Expr>, k: nat, v: Option<Expr>, j: nat)
    requires Ended(ts) && i <= k < j < |ts| && ts[k].kind == Equal
    requires Tier(ts, i, errs, TernaryLevel) == Step(Done(target), k, errs)
    requires AssignmentRule(ts, k + 1, errs) == Step(Done(v), j, errs)
    requires !(target.Some? && target.value.Variable?)
    ensures AssignmentRule(ts, i, errs) == Step(Raised, j, errs + [Report(ts[k].line, "Invalid assignement.")])
  {
  }
}
