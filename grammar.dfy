/**
 * What the recursive-descent parser builds, stated without the parser: which
 * tokens a tree was parsed from (`Spans`), which precedence tier it belongs to
 * (`InTier`), and whether it contains a `null` left by a failed `primary()`.
 */
module Grammar {
  import opened Wrappers
  import opened Values
  import opened Tokens
  import opened Ast

  /** The precedence tiers, from the tightest (`primary`) to the loosest (`expr`). */
  const PrimaryLevel: nat := 0
  const UnaryLevel: nat := 1
  const FactorLevel: nat := 2
  const TermLevel: nat := 3
  const ComparisonLevel: nat := 4
  const EqualityLevel: nat := 5
  const TernaryLevel: nat := 6
  const CommaLevel: nat := 7

  /** The tier whose loop folds a binary operator of this kind, or 0 for no binary operator. */
  function BinaryLevel(k: TokenType): (level: nat)
    ensures level in {0, FactorLevel, TermLevel, ComparisonLevel, EqualityLevel, CommaLevel}
  {
    match k
    case Star => FactorLevel
    case Slash => FactorLevel
    case Plus => TermLevel
    case Minus => TermLevel
    case LessEqual => ComparisonLevel
    case Less => ComparisonLevel
    case GreaterEqual => ComparisonLevel
    case Greater => ComparisonLevel
    case BangEqual => EqualityLevel
    case EqualEqual => EqualityLevel
    case Comma => CommaLevel
    case _ => 0
  }

  /** The kinds the `match(...)` of each binary tier's loop takes, in the order the source lists them. */
  function Operators(level: nat): seq<TokenType> {
    if level == FactorLevel then [Star, Slash]
    else if level == TermLevel then [Plus, Minus]
    else if level == ComparisonLevel then [LessEqual, Less, GreaterEqual, Greater]
    else if level == EqualityLevel then [BangEqual, EqualEqual]
    else if level == CommaLevel then [Comma]
    else []
  }

  /**
   * Each binary tier's `match(...)` takes exactly the operators `BinaryLevel`
   * assigns to that tier, and never EOF.
   */
  lemma OperatorsOfTier(k: TokenType, level: nat)
    ensures k in Operators(level) <==> 0 < level && BinaryLevel(k) == level
    ensures Eof !in Operators(level)
  {
  }

  /** The value `primary()` makes of a literal token, if the token is one. */
  function LiteralOf(t: Token): (v: Option<Value>)
    ensures v.Some? <==> t.kind in {TrueKw, FalseKw, NilKw, NumberKind, StringKind}
  {
    match t.kind
    case TrueKw => Some(Bool(true))
    case FalseKw => Some(Bool(false))
    case NilKw => Some(Nil)
    case NumberKind => Some(t.literal)
    case StringKind => Some(t.literal)
    case _ => None
  }

  /**
   * How many tokens a tree was parsed from. A `null` consumed nothing; a
   * grouping adds its parentheses, a ternary its `?` and `:`, an assignment
   * its `=`.
   */
  function Width(o: Option<Expr>): nat {
    match o
    case None => 0
    case Some(e) =>
      match e
      case Binary(l, _, r) => Width(l) + 1 + Width(r)
      case Ternary(c, l, r) => Width(c) + 1 + Width(l) + 1 + Width(r)
      case Grouping(inner) => Width(inner) + 2
      case Literal(_) => 1
      case Unary(_, r) => 1 + Width(r)
      case Variable(_) => 1
      case Assignment(_, v) => 2 + Width(v)
  }

  /**
   * `o` was parsed from exactly the tokens `ts[i..j]`: reading the tree's
   * leaves, operators and implicit punctuation from left to right gives them
   * back.
   */
  predicate Spans(o: Option<Expr>, ts: seq<Token>, i: nat, j: nat)
    requires i <= j <= |ts|
  {
    match o
    case None => i == j
    case Some(e) =>
      match e
      case Binary(l, op, r) =>
        var k := i + Width(l);
        k < j && ts[k] == op && Spans(l, ts, i, k) && Spans(r, ts, k + 1, j)
      case Ternary(c, l, r) =>
        var k1 := i + Width(c);
        var k2 := k1 + 1 + Width(l);
        k2 < j && ts[k1].kind == Question && ts[k2].kind == Colon
        && Spans(c, ts, i, k1) && Spans(l, ts, k1 + 1, k2) && Spans(r, ts, k2 + 1, j)
      case Grouping(inner) =>
        i + 2 <= j && ts[i].kind == LeftParen && ts[j - 1].kind == RightParen && Spans(inner, ts, i + 1, j - 1)
      case Literal(v) => j == i + 1 && LiteralOf(ts[i]) == Some(v)
      case Unary(op, r) => i < j && ts[i] == op && Spans(r, ts, i + 1, j)
      case Variable(name) => j == i + 1 && ts[i] == name && name.kind == Identifier
      case Assignment(name, v) =>
        i + 2 <= j && ts[i] == name && name.kind == Identifier && ts[i + 1].kind == Equal
        && Spans(v, ts, i + 2, j)
  }

  /** A tree spans exactly as many tokens as its width. */
  lemma {:induction false} SpansWidth(o: Option<Expr>, ts: seq<Token>, i: nat, j: nat)
    requires i <= j <= |ts| && Spans(o, ts, i, j)
    ensures j == i + Width(o)
    decreases o, 1
  {
    match o
    case None =>
    case Some(e) =>
      match e
      case Binary(l, op, r) => BinaryWidth(l, op, r, ts, i, j);
      case Ternary(c, l, r) => TernaryWidth(c, l, r, ts, i, j);
      case Grouping(inner) => GroupingWidth(inner, ts, i, j);
      case Literal(_) =>
      case Unary(op, r) => UnaryWidth(op, r, ts, i, j);
      case Variable(_) =>
      case Assignment(name, v) => AssignmentWidth(name, v, ts, i, j);
  }

  /** `SpansWidth` for a grouping: the parentheses surround the inner span. */
  lemma {:induction false} GroupingWidth(inner: Option<Expr>, ts: seq<Token>, i: nat, j: nat)
    requires i <= j <= |ts| && Spans(Some(Grouping(inner)), ts, i, j)
    ensures j == i + Width(Some(Grouping(inner)))
    decreases Some(Grouping(inner)), 0
  {
    SpansWidth(inner, ts, i + 1, j - 1);
  }

  /** `SpansWidth` for a unary node: the operand follows the operator. */
  lemma {:induction false} UnaryWidth(op: Token, r: Option<Expr>, ts: seq<Token>, i: nat, j: nat)
    requires i <= j <= |ts| && Spans(Some(Unary(op, r)), ts, i, j)
    ensures j == i + Width(Some(Unary(op, r)))
    decreases Some(Unary(op, r)), 0
  {
    SpansWidth(r, ts, i + 1, j);
  }

  /** `SpansWidth` for an assignment: the value follows the name and `=`. */
  lemma {:induction false} AssignmentWidth(name: Token, v: Option<Expr>, ts: seq<Token>, i: nat, j: nat)
    requires i <= j <= |ts| && Spans(Some(Assignment(name, v)), ts, i, j)
    ensures j == i + Width(Some(Assignment(name, v)))
    decreases Some(Assignment(name, v)), 0
  {
    SpansWidth(v, ts, i + 2, j);
  }

  /** `SpansWidth` for a binary node: the right operand ends the span. */
  lemma {:induction false} BinaryWidth(l: Option<Expr>, op: Token, r: Option<Expr>, ts: seq<Token>, i: nat, j: nat)
    requires i <= j <= |ts| && Spans(Some(Binary(l, op, r)), ts, i, j)
    ensures j == i + Width(Some(Binary(l, op, r)))
    decreases Some(Binary(l, op, r)), 0
  {
    var k := i + Width(l);
    assert k < j && Spans(r, ts, k + 1, j);
    SpansWidth(r, ts, k + 1, j);
  }

  /** `SpansWidth` for a ternary node: the else branch ends the span. */
  lemma {:induction false} TernaryWidth(c: Option<Expr>, l: Option<Expr>, r: Option<Expr>, ts: seq<Token>, i: nat, j: nat)
    requires i <= j <= |ts| && Spans(Some(Ternary(c, l, r)), ts, i, j)
    ensures j == i + Width(Some(Ternary(c, l, r)))
    decreases Some(Ternary(c, l, r)), 0
  {
    var k2 := i + Width(c) + 1 + Width(l);
    assert k2 < j && Spans(r, ts, k2 + 1, j);
    SpansWidth(r, ts, k2 + 1, j);
  }

  /**
   * `o` has the shape a tier's method builds: each binary tier folds to the
   * left (its left operand is in the same tier, its right operand in the next
   * tighter one), a ternary nests to the right, a grouping holds a full
   * expression, and a tier also accepts everything of the tighter tiers.
   */
  predicate InTier(o: Option<Expr>, level: nat) {
    match o
    case None => true
    case Some(e) =>
      match e
      case Binary(l, op, r) =>
        var m := BinaryLevel(op.kind);
        0 < m <= level && InTier(l, m) && InTier(r, m - 1)
      case Ternary(c, l, r) =>
        TernaryLevel <= level && InTier(c, EqualityLevel) && InTier(l, TernaryLevel) && InTier(r, TernaryLevel)
      case Grouping(inner) => InTier(inner, CommaLevel)
      case Literal(_) => true
      case Unary(op, r) => UnaryLevel <= level && op.kind in {Bang, Minus} && InTier(r, UnaryLevel)
      case Variable(_) => true
      case Assignment(_, _) => false
  }

  /** The pieces of a `c ? l : r` spelled by `ts[i..j]`. */
  lemma SpansTernary(c: Option<Expr>, l: Option<Expr>, r: Option<Expr>, ts: seq<Token>, i: nat, j: nat)
    requires i <= j <= |ts| && Spans(Some(Ternary(c, l, r)), ts, i, j)
    ensures var k1 := i + Width(c);
            var k2 := k1 + 1 + Width(l);
            k2 < j && ts[k1].kind == Question && ts[k2].kind == Colon
            && Spans(c, ts, i, k1) && Spans(l, ts, k1 + 1, k2) && Spans(r, ts, k2 + 1, j)
  {
  }

  /** The shape `assignment()` builds: right-nested assignments over a ternary. */
  predicate InAssignmentTier(o: Option<Expr>) {
    match o
    case Some(Assignment(_, v)) => InAssignmentTier(v)
    case _ => InTier(o, TernaryLevel)
  }

  /** The tree holds no `null` left behind by a failed `primary()`. */
  predicate Complete(o: Option<Expr>) {
    match o
    case None => false
    case Some(e) =>
      match e
      case Binary(l, _, r) => Complete(l) && Complete(r)
      case Ternary(c, l, r) => Complete(c) && Complete(l) && Complete(r)
      case Grouping(inner) => Complete(inner)
      case Literal(_) => true
      case Unary(_, r) => Complete(r)
      case Variable(_) => true
      case Assignment(_, v) => Complete(v)
  }

  /**
   * The statement `s` was parsed from `ts[i..j]`, its leading `print` or `var`
   * and its closing `;` included.
   */
  predicate StmtSpans(s: Stmt, ts: seq<Token>, i: nat, j: nat)
    requires i <= j <= |ts|
  {
    match s
    case ExpressionStmt(e) => i < j && ts[j - 1].kind == Semicolon && Spans(e, ts, i, j - 1) && InTier(e, CommaLevel)
    case PrintStmt(e) =>
      i + 2 <= j && ts[i].kind == PrintKw && ts[j - 1].kind == Semicolon
      && Spans(e, ts, i + 1, j - 1) && InTier(e, CommaLevel)
    case VarDeclareStmt(name, init) =>
      i + 3 <= j && ts[i].kind == VarKw && ts[i + 1] == name && name.kind == Identifier
      && ts[j - 1].kind == Semicolon
      && ((j == i + 3 && init.None?)
          || (i + 3 < j && ts[i + 2].kind == Equal && Spans(init, ts, i + 3, j - 1) && InTier(init, CommaLevel)))
    case BlockStmt(_, _, _) => false
  }

  /**
   * The statement, parsed from `width` tokens, holds no `null` expression left
   * behind by a failed `primary()`. A declaration without `=` (three tokens)
   * has a `null` initializer that is no error. Blocks are never parsed by the
   * rules modelled here.
   */
  predicate StmtComplete(s: Stmt, width: nat) {
    match s
    case ExpressionStmt(e) => Complete(e)
    case PrintStmt(e) => Complete(e)
    case VarDeclareStmt(_, init) => width == 3 || Complete(init)
    case BlockStmt(_, _, _) => false
  }
}
