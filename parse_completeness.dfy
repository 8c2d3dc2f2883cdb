/**
 * The converse of `ParseSoundness`: every well-formed input is parsed, into
 * the tree it spells. If a tree without `null`s spans `ts[i..j]` in the shape
 * of a tier, and the token at `j` is one that tier stops on, then the tier's
 * rule started at `i` returns exactly that tree, stops at `j` and reports
 * nothing. Hence the grammar is unambiguous, and the parser's precedence and
 * associativity are those the tiers describe.
 */
module ParseCompleteness {
  import opened Wrappers
  import opened Values
  import opened Tokens
  import opened Ast
  import opened Grammar
  import opened Descent
  import opened ParseSoundness

  /**
   * `o` is a complete tree of tier `level` spelled by exactly `ts[i..j]`, in a
   * token list that still holds a token at `j`.
   */
  ghost predicate CompleteTree(o: Option<Expr>, ts: seq<Token>, i: nat, j: nat, level: nat) {
    Ended(ts) && i <= j < |ts| && Spans(o, ts, i, j) && InTier(o, level) && Complete(o)
  }

  /** The tier rule of `level` parses every complete tree of its tier. */
  lemma {:induction false} TierComplete(o: Option<Expr>, ts: seq<Token>, i: nat, j: nat, errs: seq<Report>, level: nat)
    requires level <= CommaLevel && CompleteTree(o, ts, i, j, level) && Stops(ts[j].kind, level)
    ensures Tier(ts, i, errs, level) == Step(Done(o), j, errs)
    decreases o, level, 3
  {
    if level == PrimaryLevel {
      PrimaryComplete(o, ts, i, j, errs);
    } else if level == UnaryLevel {
      UnaryComplete(o, ts, i, j, errs);
    } else if level == TernaryLevel {
      TernaryComplete(o, ts, i, j, errs);
    } else {
      FoldComplete(o, ts, i, j, errs, level);
    }
  }

  /**
   * A binary tier's loop, run over a complete tree of the tier, ends in the
   * state where that whole tree is the accumulated left operand and the
   * cursor is just past it: the left fold rebuilds the tree operator by
   * operator.
   */
  lemma {:induction false} FoldComplete(o: Option<Expr>, ts: seq<Token>, i: nat, j: nat, errs: seq<Report>, level: nat)
    requires level in {FactorLevel, TermLevel, ComparisonLevel, EqualityLevel, CommaLevel}
    requires CompleteTree(o, ts, i, j, level) && Stops(ts[j].kind, level - 1)
    ensures Fold(ts, Tier(ts, i, errs, level - 1), level) == Fold(ts, Step(Done(o), j, errs), level)
    decreases o, level, 1
  {
    if o.value.Binary? && BinaryLevel(o.value.operator.kind) == level {
      FoldNodeComplete(o.value.left, o.value.operator, o.value.right, ts, i, j, errs, level);
    } else {
      TierComplete(o, ts, i, j, errs, level - 1);
    }
  }

  /** `FoldComplete` for a node `l op r` of the tier: the loop folds `l`, then takes `op` and `r`. */
  lemma {:induction false} FoldNodeComplete(l: Option<Expr>, op: Token, r: Option<Expr>, ts: seq<Token>,
                                            i: nat, j: nat, errs: seq<Report>, level: nat)
    requires level in {FactorLevel, TermLevel, ComparisonLevel, EqualityLevel, CommaLevel} && BinaryLevel(op.kind) == level
    requires CompleteTree(Some(Binary(l, op, r)), ts, i, j, level) && Stops(ts[j].kind, level - 1)
    ensures Fold(ts, Tier(ts, i, errs, level - 1), level) == Fold(ts, Step(Done(Some(Binary(l, op, r))), j, errs), level)
    decreases Some(Binary(l, op, r)), level, 0
  {
    var k := i + Width(l);
    FoldComplete(l, ts, i, k, errs, level);
    TierComplete(r, ts, k + 1, j, errs, level - 1);
    FoldAssembles(l, op, r, ts, k, j, errs, level);
  }

  /** The loop, holding `l` in front of `op`, folds `l op r` once the operand `r` is parsed without reports. */
  lemma FoldAssembles(l: Option<Expr>, op: Token, r: Option<Expr>, ts: seq<Token>, k: nat, j: nat, errs: seq<Report>, level: nat)
    requires Ended(ts) && k < j < |ts| && 0 < level <= CommaLevel
    requires ts[k] == op && BinaryLevel(op.kind) == level
    requires Tier(ts, k + 1, errs, level - 1) == Step(Done(r), j, errs)
    ensures Fold(ts, Step(Done(l), k, errs), level) == Fold(ts, Step(Done(Some(Binary(l, op, r))), j, errs), level)
  {
  }

  /** `ternary()` parses every complete tree of its tier. */
  lemma {:induction false} TernaryComplete(o: Option<Expr>, ts: seq<Token>, i: nat, j: nat, errs: seq<Report>)
    requires CompleteTree(o, ts, i, j, TernaryLevel) && Stops(ts[j].kind, TernaryLevel)
    ensures TernaryRule(ts, i, errs) == Step(Done(o), j, errs)
    decreases o, TernaryLevel, 2
  {
    if o.value.Ternary? {
      TernaryNodeComplete(o.value.cond, o.value.thenBranch, o.value.elseBranch, ts, i, j, errs);
    } else {
      TierComplete(o, ts, i, j, errs, EqualityLevel);
    }
  }

  /** `TernaryComplete` for `c ? l : r`: the node splits at its `?` and `:`. */
  lemma {:induction false} TernaryNodeComplete(c: Option<Expr>, l: Option<Expr>, r: Option<Expr>, ts: seq<Token>,
                                               i: nat, j: nat, errs: seq<Report>)
    requires CompleteTree(Some(Ternary(c, l, r)), ts, i, j, TernaryLevel) && Stops(ts[j].kind, TernaryLevel)
    ensures TernaryRule(ts, i, errs) == Step(Done(Some(Ternary(c, l, r))), j, errs)
    decreases Some(Ternary(c, l, r)), TernaryLevel, 1
  {
    TernaryOperands(c, l, r, ts, i, j);
    TernaryPartsComplete(c, l, r, ts, i, i + Width(c), i + Width(c) + 1 + Width(l), j, errs);
  }

  /** `TernaryNodeComplete` once the node is split: the three operands, then the node. */
  lemma {:induction false} TernaryPartsComplete(c: Option<Expr>, l: Option<Expr>, r: Option<Expr>, ts: seq<Token>,
                                                i: nat, k1: nat, k2: nat, j: nat, errs: seq<Report>)
    requires Ended(ts) && i <= k1 < k2 < j < |ts| && ts[k1].kind == Question && ts[k2].kind == Colon
    requires CompleteTree(c, ts, i, k1, EqualityLevel) && CompleteTree(l, ts, k1 + 1, k2, TernaryLevel)
    requires CompleteTree(r, ts, k2 + 1, j, TernaryLevel) && Stops(ts[j].kind, TernaryLevel)
    ensures TernaryRule(ts, i, errs) == Step(Done(Some(Ternary(c, l, r))), j, errs)
    decreases Some(Ternary(c, l, r)), TernaryLevel, 0
  {
    TierComplete(c, ts, i, k1, errs, EqualityLevel);
    TierComplete(l, ts, k1 + 1, k2, errs, TernaryLevel);
    TierComplete(r, ts, k2 + 1, j, errs, TernaryLevel);
    TernaryAssembles(c, l, r, ts, i, k1, k2, j, errs);
  }

  /** The operands of a complete `c ? l : r` are complete trees of their own tiers, between its `?` and `:`. */
  lemma TernaryOperands(c: Option<Expr>, l: Option<Expr>, r: Option<Expr>, ts: seq<Token>, i: nat, j: nat)
    requires CompleteTree(Some(Ternary(c, l, r)), ts, i, j, TernaryLevel)
    ensures var k1 := i + Width(c);
            var k2 := k1 + 1 + Width(l);
            k2 < j && ts[k1].kind == Question && ts[k2].kind == Colon
            && CompleteTree(c, ts, i, k1, EqualityLevel) && CompleteTree(l, ts, k1 + 1, k2, TernaryLevel)
            && CompleteTree(r, ts, k2 + 1, j, TernaryLevel)
  {
    SpansTernary(c, l, r, ts, i, j);
  }

  /** `ternary()` returns `c ? l : r` once its three operands are parsed without reports. */
  lemma TernaryAssembles(c: Option<Expr>, l: Option<Expr>, r: Option<Expr>, ts: seq<Token>,
                         i: nat, k1: nat, k2: nat, j: nat, errs: seq<Report>)
    requires Ended(ts) && i <= k1 < k2 < j < |ts|
    requires Tier(ts, i, errs, EqualityLevel) == Step(Done(c), k1, errs) && ts[k1].kind == Question
    requires Tier(ts, k1 + 1, errs, TernaryLevel) == Step(Done(l), k2, errs) && ts[k2].kind == Colon
    requires Tier(ts, k2 + 1, errs, TernaryLevel) == Step(Done(r), j, errs)
    ensures TernaryRule(ts, i, errs) == Step(Done(Some(Ternary(c, l, r))), j, errs)
  {
  }

  /** `unary()` parses every complete tree of its tier. */
  lemma {:induction false} UnaryComplete(o: Option<Expr>, ts: seq<Token>, i: nat, j: nat, errs: seq<Report>)
    requires CompleteTree(o, ts, i, j, UnaryLevel)
    ensures UnaryRule(ts, i, errs) == Step(Done(o), j, errs)
    decreases o, UnaryLevel, 0
  {
    if o.value.Unary? {
      TierComplete(o.value.right, ts, i + 1, j, errs, UnaryLevel);
    } else {
      TierComplete(o, ts, i, j, errs, PrimaryLevel);
    }
  }

  /** `primary()` parses every literal, variable and complete parenthesised expression. */
  lemma {:induction false} PrimaryComplete(o: Option<Expr>, ts: seq<Token>, i: nat, j: nat, errs: seq<Report>)
    requires CompleteTree(o, ts, i, j, PrimaryLevel)
    ensures PrimaryRule(ts, i, errs) == Step(Done(o), j, errs)
    decreases o, PrimaryLevel, 0
  {
    if o.value.Grouping? {
      TierComplete(o.value.expression, ts, i + 1, j - 1, errs, CommaLevel);
      assert PrimaryRule(ts, i, errs) == GroupRule(ts, i + 1, errs);
    }
  }

  /** `assignment()` parses every complete chain of assignments over a ternary. */
  lemma {:induction false} AssignmentComplete(o: Option<Expr>, ts: seq<Token>, i: nat, j: nat, errs: seq<Report>)
    requires Ended(ts) && i <= j < |ts|
    requires Spans(o, ts, i, j) && InAssignmentTier(o) && Complete(o)
    requires Stops(ts[j].kind, TernaryLevel) && ts[j].kind != Equal
    ensures AssignmentRule(ts, i, errs) == Step(Done(o), j, errs)
    decreases o
  {
    if o.value.Assignment? {
      var Assignment(name, v) := o.value;
      TierComplete(Some(Variable(name)), ts, i, i + 1, errs, TernaryLevel);
      AssignmentComplete(v, ts, i + 2, j, errs);
    } else {
      TierComplete(o, ts, i, j, errs, TernaryLevel);
    }
  }

  /**
   * A complete tree of a tier starts with a token that starts an expression,
   * so never with `print` or `var`.
   */
  lemma {:induction false} LeadingToken(o: Option<Expr>, ts: seq<Token>, i: nat, j: nat, level: nat)
    requires i <= j <= |ts| && Spans(o, ts, i, j) && InTier(o, level) && Complete(o)
    ensures i < j
    ensures ts[i].kind in {TrueKw, FalseKw, NilKw, NumberKind, StringKind, LeftParen, Identifier, Bang, Minus}
    decreases o
  {
    match o.value
    case Binary(l, op, _) =>
      LeadingToken(l, ts, i, i + Width(l), BinaryLevel(op.kind));
    case Ternary(c, _, _) =>
      LeadingToken(c, ts, i, i + Width(c), EqualityLevel);
    case Grouping(_) =>
    case Literal(_) =>
    case Unary(_, _) =>
    case Variable(_) =>
  }

  /**
   * `statement()` parses every complete `print`, `var` and expression
   * statement into that statement, consuming exactly its tokens and
   * reporting nothing.
   */
  lemma StatementComplete(s: Stmt, ts: seq<Token>, i: nat, j: nat, errs: seq<Report>)
    requires Ended(ts) && i <= j <= |ts|
    requires StmtSpans(s, ts, i, j) && StmtComplete(s, j - i)
    ensures j < |ts|
    ensures StatementRule(ts, i, errs) == Step(Parsed(s), j, errs)
  {
    assert ts[j - 1].kind == Semicolon;
    AttemptComplete(s, ts, i, j, errs);
  }

  /** The `try` block of `statement()` returns every complete statement. */
  lemma AttemptComplete(s: Stmt, ts: seq<Token>, i: nat, j: nat, errs: seq<Report>)
    requires Ended(ts) && i <= j < |ts|
    requires StmtSpans(s, ts, i, j) && StmtComplete(s, j - i)
    ensures AttemptRule(ts, i, errs) == Step(Done(s), j, errs)
  {
    match s
    case ExpressionStmt(e) =>
      LeadingToken(e, ts, i, j - 1, CommaLevel);
      ExpressionStatementComplete(e, ts, i, j, errs);
    case PrintStmt(e) =>
      PrintStatementComplete(e, ts, i + 1, j, errs);
    case VarDeclareStmt(name, init) =>
      VarDeclarationComplete(name, init, ts, i, j, errs);
  }

  /** `expressionStatement()` returns every complete expression followed by `;`. */
  lemma ExpressionStatementComplete(e: Option<Expr>, ts: seq<Token>, i: nat, j: nat, errs: seq<Report>)
    requires Ended(ts) && i < j < |ts| && ts[j - 1].kind == Semicolon
    requires CompleteTree(e, ts, i, j - 1, CommaLevel)
    ensures ExpressionStatementRule(ts, i, errs) == Step(Done(ExpressionStmt(e)), j, errs)
  {
    TierComplete(e, ts, i, j - 1, errs, CommaLevel);
  }

  /** `printStatement()`, started just after `print`, returns every complete expression followed by `;`. */
  lemma PrintStatementComplete(e: Option<Expr>, ts: seq<Token>, i: nat, j: nat, errs: seq<Report>)
    requires Ended(ts) && i < j < |ts| && ts[j - 1].kind == Semicolon
    requires CompleteTree(e, ts, i, j - 1, CommaLevel)
    ensures PrintStatementRule(ts, i, errs) == Step(Done(PrintStmt(e)), j, errs)
  {
    TierComplete(e, ts, i, j - 1, errs, CommaLevel);
  }

  /** `varDeclaration()` returns every complete declaration, with or without initializer. */
  lemma VarDeclarationComplete(name: Token, init: Option<Expr>, ts: seq<Token>, i: nat, j: nat, errs: seq<Report>)
    requires Ended(ts) && i <= j < |ts|
    requires StmtSpans(VarDeclareStmt(name, init), ts, i, j) && StmtComplete(VarDeclareStmt(name, init), j - i)
    ensures VarDeclarationRule(ts, i + 1, errs) == Step(Done(VarDeclareStmt(name, init)), j, errs)
  {
    if j != i + 3 {
      TierComplete(init, ts, i + 3, j - 1, errs, CommaLevel);
    }
  }

  /**
   * The grammar is unambiguous: two complete trees of a tier that start at
   * the same token and each end in front of a token the tier stops on are
   * the same tree over the same tokens.
   */
  lemma ReadingIsUnique(o1: Option<Expr>, j1: nat, o2: Option<Expr>, j2: nat, ts: seq<Token>, i: nat, level: nat)
    requires level <= CommaLevel
    requires CompleteTree(o1, ts, i, j1, level) && Stops(ts[j1].kind, level)
    requires CompleteTree(o2, ts, i, j2, level) && Stops(ts[j2].kind, level)
    ensures o1 == o2 && j1 == j2
  {
    TierComplete(o1, ts, i, j1, [], level);
    TierComplete(o2, ts, i, j2, [], level);
  }
}
