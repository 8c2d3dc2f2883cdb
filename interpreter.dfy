/**
 * The tree-walking evaluator. Expressions are evaluated by pure recursion over
 * the tree against the scope stack (`Accept` is `expr.accept(this)`, the full
 * seven-way dispatch; `Evaluate` is the narrower `evaluate(expr)`). Statements
 * change the interpreter's state: `Exec` says what one statement does to the
 * scope stack and the printed output, and the `Interpreter` class does it in
 * place on its `Environment` chain.
 */
module Interpreting {
  import opened Wrappers
  import opened Values
  import opened Tokens
  import opened Ast
  import opened RuntimeErrors
  import opened Environments

  /**
   * How an evaluation ends: with a value, by throwing a `RuntimeError`, or
   * with a null-dereference exception (`Crash`), which nothing in the program
   * catches.
   */
  datatype Outcome = Normal(value: Value) | Thrown(error: RuntimeError) | Crash

  /** `truthy(object)`: only `null` and `false` are falsy. */
  predicate Truthy(v: Value)
    ensures Truthy(v) <==> v != Nil && v != Bool(false)
  {
    match v
    case Nil => false
    case Bool(b) => b
    case _ => true
  }

  /**
   * `isEqual(left, right)`: two `null`s are equal, `null` equals nothing else,
   * and otherwise `left.equals(right)`, which is false across types. Equality
   * of two doubles is left to the abstract number type.
   */
  function IsEqual(left: Value, right: Value): (r: bool)
    ensures r <==> left == right
  {
    if left.Nil? && right.Nil? then true
    else if left.Nil? then false
    else
      match (left, right)
      case (Bool(a), Bool(b)) => a == b
      case (Num(a), Num(b)) => a == b
      case (Str(a), Str(b)) => a == b
      case _ => false
  }

  /** `checkNumber(operator, operand)`: the operand as a number, or the error thrown. */
  function CheckNumber(operator: Token, operand: Value): (r: Outcome)
    ensures r.Normal? <==> operand.Num?
    ensures r.Normal? ==> r.value == operand
    ensures !r.Normal? ==> r == Thrown(RuntimeError(Some(operator), "Operand must be number!"))
  {
    if operand.Num? then Normal(operand)
    else Thrown(RuntimeError(Some(operator), "Operand must be number!"))
  }

  /** `checkNumbers(operator, left, right)`: `None` when both are numbers, else the error thrown. */
  function CheckNumbers(operator: Token, left: Value, right: Value): (r: Option<RuntimeError>)
    ensures r.None? <==> left.Num? && right.Num?
    ensures r.Some? ==> r.value == RuntimeError(Some(operator), "Operands must be number!")
  {
    if left.Num? && right.Num? then None
    else Some(RuntimeError(Some(operator), "Operands must be number!"))
  }

  /** `checkString(operator, operand)`: `None` when the operand is a string, else the error thrown. */
  function CheckString(operator: Token, operand: Value): (r: Option<RuntimeError>)
    ensures r.None? <==> operand.Str?
    ensures r.Some? ==> r.value == RuntimeError(Some(operator), "Operand must be string!")
  {
    if operand.Str? then None
    else Some(RuntimeError(Some(operator), "Operand must be string!"))
  }

  /** `checkStrings(operator, left, right)`: `None` when both are strings, else the error thrown. */
  function CheckStrings(operator: Token, left: Value, right: Value): (r: Option<RuntimeError>)
    ensures r.None? <==> left.Str? && right.Str?
    ensures r.Some? ==> r.value == RuntimeError(Some(operator), "Operands must be string!")
  {
    if left.Str? && right.Str? then None
    else Some(RuntimeError(Some(operator), "Operands must be string!"))
  }

  /**
   * `String.compareTo`: the difference of the first differing characters,
   * or else the difference of the lengths.
   */
  function StringCompare(a: string, b: string): (c: int)
    ensures a == b ==> c == 0
    ensures |a| <= |b| && a == b[..|a|] ==> c == |a| - |b|
    decreases |a|
  {
    if |a| == 0 || |b| == 0 then |a| - |b|
    else if a[0] != b[0] then a[0] as int - b[0] as int
    else StringCompare(a[1..], b[1..])
  }

  /** `a` comes before `b` at position `k`: they agree before `k`, and there `a` ends first or has the smaller character. */
  predicate PrecedesAt(a: string, b: string, k: nat) {
    k <= |a| && k <= |b| && a[..k] == b[..k]
    && ((k == |a| && k < |b|) || (k < |a| && k < |b| && a[k] < b[k]))
  }

  /** Lexicographic order, stated without `StringCompare`: a proper prefix, or a smaller character where they first differ. */
  ghost predicate LexLess(a: string, b: string) {
    exists k: nat :: PrecedesAt(a, b, k)
  }

  /** Equal prefixes agree position by position. */
  lemma PrefixesAgree(a: string, b: string, k: nat)
    requires k <= |a| && k <= |b| && a[..k] == b[..k]
    ensures forall i :: 0 <= i < k ==> a[i] == b[i]
  {
    forall i | 0 <= i < k
      ensures a[i] == b[i]
    {
      assert a[i] == a[..k][i];
    }
  }

  /** `compareTo` is negative exactly when the first string comes first in lexicographic order. */
  lemma {:induction false} StringCompareIsLexicographic(a: string, b: string)
    ensures StringCompare(a, b) < 0 <==> LexLess(a, b)
    decreases |a|
  {
    if |a| == 0 || |b| == 0 {
      if |a| == 0 && |b| > 0 {
        assert PrecedesAt(a, b, 0);
      }
    } else if a[0] != b[0] {
      if a[0] < b[0] {
        assert PrecedesAt(a, b, 0);
      }
      if LexLess(a, b) {
        var k: nat :| PrecedesAt(a, b, k);
        PrefixesAgree(a, b, k);
      }
    } else {
      StringCompareIsLexicographic(a[1..], b[1..]);
      if LexLess(a, b) {
        var k: nat :| PrecedesAt(a, b, k);
        assert k > 0;
        assert a[1..][..k - 1] == a[..k][1..];
        assert b[1..][..k - 1] == b[..k][1..];
        assert PrecedesAt(a[1..], b[1..], k - 1);
      }
      if LexLess(a[1..], b[1..]) {
        var k: nat :| PrecedesAt(a[1..], b[1..], k);
        assert a[..k + 1] == [a[0]] + a[1..][..k];
        assert b[..k + 1] == [b[0]] + b[1..][..k];
        assert PrecedesAt(a, b, k + 1);
      }
    }
  }

  /** `compareTo` is zero exactly on equal strings, and swapping the arguments negates it. */
  lemma {:induction false} StringCompareAntisymmetric(a: string, b: string)
    ensures StringCompare(a, b) == 0 <==> a == b
    ensures StringCompare(b, a) == -StringCompare(a, b)
    decreases |a|
  {
    if |a| > 0 && |b| > 0 && a[0] == b[0] {
      StringCompareAntisymmetric(a[1..], b[1..]);
      if a[1..] == b[1..] {
        assert a == [a[0]] + a[1..] && b == [b[0]] + b[1..];
      }
    }
  }

  /**
   * The operator switch of `visit(Binary)`, once both operands have been
   * evaluated (left first).
   */
  function BinaryValue(operator: Token, left: Value, right: Value, host: HostNumbers): (r: Outcome)
    ensures r.Thrown? ==> r.error.operator == Some(operator)
    ensures r.Crash? ==> left.Nil? || right.Nil?
    ensures r.Normal? && operator.kind in {EqualEqual, BangEqual, LessEqual, Less, Greater, GreaterEqual} ==> r.value.Bool?
  {
    match operator.kind
    case Plus =>
      if left.Num? && right.Num? then Normal(Num(host.add(left.n, right.n)))
      else if left.Str? || right.Str? then
        (match (Text(left, host), Text(right, host))
         case (Some(l), Some(r)) => Normal(Str(l + r))
         case _ => Crash)
      else Thrown(RuntimeError(Some(operator), "Operands must be either Double or String"))
    case Minus => Arithmetic(operator, left, right, host.sub)
    case Star => Arithmetic(operator, left, right, host.mul)
    case Slash => Arithmetic(operator, left, right, host.div)
    case EqualEqual => Normal(Bool(IsEqual(left, right)))
    case BangEqual => Normal(Bool(!IsEqual(left, right)))
    case Comma => Normal(right)
    case LessEqual => Comparison(operator, left, right, host)
    case Less => Comparison(operator, left, right, host)
    case Greater => Comparison(operator, left, right, host)
    case GreaterEqual => Comparison(operator, left, right, host)
    case _ => Thrown(RuntimeError(Some(operator), "Unreachable code in Interpreter's Binary."))
  }

  /** `-`, `*` and `/`: `checkNumbers`, then the host operation. */
  function Arithmetic(operator: Token, left: Value, right: Value, op: (Number, Number) -> Number): (r: Outcome)
    ensures r.Normal? <==> left.Num? && right.Num?
    ensures r.Normal? ==> r.value.Num?
    ensures !r.Normal? ==> r == Thrown(RuntimeError(Some(operator), "Operands must be number!"))
  {
    match CheckNumbers(operator, left, right)
    case Some(e) => Thrown(e)
    case None => Normal(Num(op(left.n, right.n)))
  }

  /**
   * `<`, `<=`, `>` and `>=`: two numbers by `Double.compareTo`, two strings by
   * `String.compareTo`; any other pair throws "Uncomparable objects", whose
   * message calls `toString()` on both operands, so a `null` operand crashes
   * first.
   */
  function Comparison(operator: Token, left: Value, right: Value, host: HostNumbers): (r: Outcome)
    requires operator.kind in {LessEqual, Less, Greater, GreaterEqual}
    ensures r.Normal? <==> (left.Num? && right.Num?) || (left.Str? && right.Str?)
    ensures r.Normal? ==> r.value.Bool?
    ensures r.Crash? <==> !r.Normal? && (left.Nil? || right.Nil?)
    ensures r.Thrown? ==> r.error.operator == Some(operator)
  {
    if left.Num? && right.Num? then Normal(Bool(Ordered(operator.kind, host.compare(left.n, right.n))))
    else if left.Str? && right.Str? then Normal(Bool(Ordered(operator.kind, StringCompare(left.s, right.s))))
    else
      match (Text(left, host), Text(right, host))
      case (Some(l), Some(r)) => Thrown(RuntimeError(Some(operator), "Uncomparable objects " + l + " vs " + r))
      case _ => Crash
  }

  /**
   * The inner switch on a `compareTo` result: by the sign of `compare`, a
   * negative result satisfies `<` and `<=`, zero `<=` and `>=`, a positive
   * one `>` and `>=`.
   */
  predicate Ordered(kind: TokenType, compare: int)
    requires kind in {LessEqual, Less, Greater, GreaterEqual}
    ensures compare < 0 ==> (Ordered(kind, compare) <==> kind == Less || kind == LessEqual)
    ensures compare == 0 ==> (Ordered(kind, compare) <==> kind == LessEqual || kind == GreaterEqual)
    ensures compare > 0 ==> (Ordered(kind, compare) <==> kind == Greater || kind == GreaterEqual)
  {
    match kind
    case LessEqual => compare <= 0
    case Less => compare < 0
    case Greater => compare > 0
    case GreaterEqual => compare >= 0
  }

  /**
   * `expr.accept(this)`: a `null` expression throws a null-dereference exception,
   * and an `Assignment`'s `accept` returns `null` without visiting it.
   */
  function Accept(o: Option<Expr>, scopes: seq<Scope>, host: HostNumbers): (r: Outcome)
    ensures r.Thrown? ==> r.error.operator.Some?
    decreases o
  {
    match o
    case None => Crash
    case Some(e) => if e.Assignment? then Normal(Nil) else Visit(e, scopes, host)
  }

  /** The `visit` overloads for the six expression kinds that `accept` reaches. */
  function Visit(e: Expr, scopes: seq<Scope>, host: HostNumbers): (r: Outcome)
    requires !e.Assignment?
    ensures r.Thrown? ==> r.error.operator.Some?
    ensures e.Variable? ==> (r.Normal? <==> Bound(scopes, e.identifier.lexeme))
    decreases e
  {
    match e
    case Binary(l, op, r) =>
      (match Accept(l, scopes, host)
       case Normal(lv) =>
         (match Accept(r, scopes, host)
          case Normal(rv) => BinaryValue(op, lv, rv, host)
          case other => other)
       case other => other)
    case Ternary(c, t, f) =>
      (match Accept(c, scopes, host)
       case Normal(cv) => if Truthy(cv) then Accept(t, scopes, host) else Accept(f, scopes, host)
       case other => other)
    case Grouping(inner) => Accept(inner, scopes, host)
    case Literal(v) => Normal(v)
    case Unary(op, r) =>
      if op.kind == Bang then
        (match Accept(r, scopes, host)
         case Normal(v) => Normal(Bool(!Truthy(v)))
         case other => other)
      else if op.kind == Minus then
        (match Accept(r, scopes, host)
         case Normal(v) =>
           (match CheckNumber(op, v)
            case Normal(_) => Normal(Num(host.neg(v.n)))
            case other => other)
         case other => other)
      else Normal(Nil)
    case Variable(name) =>
      if Bound(scopes, name.lexeme) then Normal(Lookup(scopes, name.lexeme))
      else Thrown(RuntimeError(Some(name), "Undefined variable " + name.lexeme))
  }

  /**
   * `evaluate(expr)`, used by the statements: as written it dispatches only
   * Binary, Literal, Ternary, Grouping and Variable; a Unary, an Assignment or
   * `null` throws "Unhanded expression type" with no token.
   */
  function Evaluate(o: Option<Expr>, scopes: seq<Scope>, host: HostNumbers): (r: Outcome)
    ensures o.Some? && (o.value.Binary? || o.value.Literal? || o.value.Ternary? || o.value.Grouping? || o.value.Variable?) ==>
      r == Accept(o, scopes, host)
    ensures o.None? || o.value.Unary? || o.value.Assignment? ==>
      r == Thrown(RuntimeError(None, "Unhanded expression type"))
  {
    match o
    case Some(e) =>
      if e.Binary? || e.Literal? || e.Ternary? || e.Grouping? || e.Variable? then Visit(e, scopes, host)
      else Thrown(RuntimeError(None, "Unhanded expression type"))
    case None => Thrown(RuntimeError(None, "Unhanded expression type"))
  }

  /** How a statement ends. */
  datatype Signal = Completed | Threw(error: RuntimeError) | Crashed

  /** What statements change: the scope stack, innermost first, and the printed lines. */
  datatype Machine = Machine(scopes: seq<Scope>, out: seq<string>)

  /**
   * One statement. Output is the list of lines `System.out.println` would
   * print. A block pushes an empty scope and pops it only when its
   * statements all complete; an error leaves it pushed.
   */
  function Exec(s: Stmt, m: Machine, host: HostNumbers): (r: (Signal, Machine))
    requires |m.scopes| > 0
    ensures |r.1.scopes| >= |m.scopes|
    ensures r.0.Completed? ==> |r.1.scopes| == |m.scopes|
    decreases s
  {
    match s
    case ExpressionStmt(e) =>
      (match Evaluate(e, m.scopes, host)
       case Normal(_) => (Completed, m)
       case Thrown(err) => (Threw(err), m)
       case Crash => (Crashed, m))
    case PrintStmt(e) =>
      (match Evaluate(e, m.scopes, host)
       case Normal(v) =>
         (match Text(v, host)
          case Some(line) => (Completed, m.(out := m.out + [line]))
          case None => (Crashed, m))
       case Thrown(err) => (Threw(err), m)
       case Crash => (Crashed, m))
    case VarDeclareStmt(name, init) =>
      if Bound(m.scopes, name.lexeme) then
        (Threw(RuntimeError(Some(name), "Variable has been declared: " + name.lexeme)), m)
      else if init.None? then
        (Completed, m.(scopes := Declare(m.scopes, name.lexeme, Nil)))
      else
        (match Accept(init, m.scopes, host)
         case Normal(v) => (Completed, m.(scopes := Declare(m.scopes, name.lexeme, v)))
         case Thrown(err) => (Threw(err), m)
         case Crash => (Crashed, m))
    case BlockStmt(_, _, stmts) =>
      var inner := ExecAll(stmts, m.(scopes := [map[]] + m.scopes), host);
      if inner.0.Completed? then (Completed, inner.1.(scopes := inner.1.scopes[1..]))
      else inner
  }

  /** The statements in order, stopping at the first that does not complete. */
  function ExecAll(stmts: seq<Stmt>, m: Machine, host: HostNumbers): (r: (Signal, Machine))
    requires |m.scopes| > 0
    ensures |r.1.scopes| >= |m.scopes|
    ensures r.0.Completed? ==> |r.1.scopes| == |m.scopes|
    decreases stmts
  {
    if |stmts| == 0 then (Completed, m)
    else
      var first := Exec(stmts[0], m, host);
      if first.0.Completed? then ExecAll(stmts[1..], first.1, host) else first
  }

  /** A ternary evaluates only the branch its condition selects: the other one is never visited, even when it is `null`. */
  lemma TernarySkipsOtherBranch(c: Option<Expr>, t: Option<Expr>, f: Option<Expr>, scopes: seq<Scope>, host: HostNumbers)
    requires Accept(c, scopes, host).Normal?
    ensures Truthy(Accept(c, scopes, host).value) ==>
      Accept(Some(Ternary(c, t, f)), scopes, host) == Accept(Some(Ternary(c, t, None)), scopes, host) == Accept(t, scopes, host)
    ensures !Truthy(Accept(c, scopes, host).value) ==>
      Accept(Some(Ternary(c, t, f)), scopes, host) == Accept(Some(Ternary(c, None, f)), scopes, host) == Accept(f, scopes, host)
  {
  }

  /**
   * `+` adds two numbers, concatenates when either operand is a string (a
   * `null` other operand crashes in `toString()`), and throws otherwise.
   */
  lemma PlusOutcome(operator: Token, left: Value, right: Value, host: HostNumbers)
    requires operator.kind == Plus
    ensures BinaryValue(operator, left, right, host).Normal? <==>
      (left.Num? && right.Num?) || ((left.Str? || right.Str?) && !left.Nil? && !right.Nil?)
    ensures BinaryValue(operator, left, right, host).Crash? <==> (left.Str? && right.Nil?) || (left.Nil? && right.Str?)
    ensures left.Str? && right.Str? ==> BinaryValue(operator, left, right, host) == Normal(Str(left.s + right.s))
    ensures !left.Str? && !right.Str? && !(left.Num? && right.Num?) ==>
      BinaryValue(operator, left, right, host) == Thrown(RuntimeError(Some(operator), "Operands must be either Double or String"))
  {
  }

  /** `-`, `*` and `/` yield a number exactly when both operands are numbers, and otherwise throw. */
  lemma ArithmeticOutcome(operator: Token, left: Value, right: Value, host: HostNumbers)
    requires operator.kind in {Minus, Star, Slash}
    ensures BinaryValue(operator, left, right, host).Normal? <==> left.Num? && right.Num?
    ensures BinaryValue(operator, left, right, host).Normal? ==> BinaryValue(operator, left, right, host).value.Num?
    ensures !BinaryValue(operator, left, right, host).Normal? ==>
      BinaryValue(operator, left, right, host) == Thrown(RuntimeError(Some(operator), "Operands must be number!"))
  {
  }

  /** `==` is structural equality of values and `!=` its negation; `,` yields its right operand. */
  lemma EqualityOutcome(operator: Token, left: Value, right: Value, host: HostNumbers)
    ensures operator.kind == EqualEqual ==> BinaryValue(operator, left, right, host) == Normal(Bool(left == right))
    ensures operator.kind == BangEqual ==> BinaryValue(operator, left, right, host) == Normal(Bool(left != right))
    ensures operator.kind == Comma ==> BinaryValue(operator, left, right, host) == Normal(right)
  {
  }

  /** The four comparisons order two strings lexicographically. */
  lemma StringComparisonIsLexicographic(operator: Token, a: string, b: string, host: HostNumbers)
    ensures operator.kind == Less ==> BinaryValue(operator, Str(a), Str(b), host) == Normal(Bool(LexLess(a, b)))
    ensures operator.kind == Greater ==> BinaryValue(operator, Str(a), Str(b), host) == Normal(Bool(LexLess(b, a)))
    ensures operator.kind == LessEqual ==> BinaryValue(operator, Str(a), Str(b), host) == Normal(Bool(!LexLess(b, a)))
    ensures operator.kind == GreaterEqual ==> BinaryValue(operator, Str(a), Str(b), host) == Normal(Bool(!LexLess(a, b)))
  {
    StringCompareIsLexicographic(a, b);
    StringCompareIsLexicographic(b, a);
    StringCompareAntisymmetric(a, b);
  }

  /** Comparing values that are neither two numbers nor two strings throws, or crashes on a `null`. */
  lemma MixedComparisonFails(operator: Token, left: Value, right: Value, host: HostNumbers)
    requires operator.kind in {LessEqual, Less, Greater, GreaterEqual}
    requires !(left.Num? && right.Num?) && !(left.Str? && right.Str?)
    ensures BinaryValue(operator, left, right, host).Crash? <==> left.Nil? || right.Nil?
    ensures !left.Nil? && !right.Nil? ==>
      (BinaryValue(operator, left, right, host) ==
       Thrown(RuntimeError(Some(operator), "Uncomparable objects " + Text(left, host).value + " vs " + Text(right, host).value)))
  {
  }

  /**
   * A declaration never shadows: a name bound in any enclosing scope throws.
   * Otherwise a completed declaration binds the name, in the innermost scope,
   * to its initializer's value or to `null`.
   */
  lemma DeclarationEffect(name: Token, init: Option<Expr>, m: Machine, host: HostNumbers)
    requires |m.scopes| > 0
    ensures Bound(m.scopes, name.lexeme) ==>
      Exec(VarDeclareStmt(name, init), m, host) == (Threw(RuntimeError(Some(name), "Variable has been declared: " + name.lexeme)), m)
    ensures !Bound(m.scopes, name.lexeme) ==>
      (Exec(VarDeclareStmt(name, init), m, host).0.Completed? <==> init.None? || Accept(init, m.scopes, host).Normal?)
    ensures var r := Exec(VarDeclareStmt(name, init), m, host);
      r.0.Completed? ==>
        r.1.out == m.out && Bound(r.1.scopes, name.lexeme) && r.1.scopes[1..] == m.scopes[1..]
        && Lookup(r.1.scopes, name.lexeme) == (if init.None? then Nil else Accept(init, m.scopes, host).value)
  {
    var o := Accept(init, m.scopes, host);
    var v := if init.None? || !o.Normal? then Nil else o.value;
    DeclareEffect(m.scopes, name.lexeme, v, name.lexeme);
  }

  /**
   * An expression statement evaluates its expression and drops the value:
   * scopes and output stay as they were, and it completes exactly when the
   * evaluation does, passing on the error thrown or the crash otherwise.
   */
  lemma ExpressionStatementEffect(e: Option<Expr>, m: Machine, host: HostNumbers)
    requires |m.scopes| > 0
    ensures Exec(ExpressionStmt(e), m, host).1 == m
    ensures Exec(ExpressionStmt(e), m, host).0.Completed? <==> Evaluate(e, m.scopes, host).Normal?
    ensures Evaluate(e, m.scopes, host).Thrown? ==>
      Exec(ExpressionStmt(e), m, host).0 == Threw(Evaluate(e, m.scopes, host).error)
    ensures Evaluate(e, m.scopes, host).Crash? ==> Exec(ExpressionStmt(e), m, host).0 == Crashed
  {
  }

  /**
   * A print statement appends exactly one line, the text of its value, and
   * changes no scope. It completes exactly when the value evaluates and has a
   * text; printing `nil` crashes in `toString()`.
   */
  lemma PrintStatementEffect(e: Option<Expr>, m: Machine, host: HostNumbers)
    requires |m.scopes| > 0
    ensures Exec(PrintStmt(e), m, host).1.scopes == m.scopes
    ensures var o := Evaluate(e, m.scopes, host);
      Exec(PrintStmt(e), m, host).0.Completed? <==> o.Normal? && Text(o.value, host).Some?
    ensures var o := Evaluate(e, m.scopes, host);
      Exec(PrintStmt(e), m, host).1.out
      == if o.Normal? && Text(o.value, host).Some? then m.out + [Text(o.value, host).value] else m.out
    ensures Evaluate(e, m.scopes, host) == Normal(Nil) ==> Exec(PrintStmt(e), m, host).0 == Crashed
    ensures Evaluate(e, m.scopes, host).Thrown? ==>
      Exec(PrintStmt(e), m, host).0 == Threw(Evaluate(e, m.scopes, host).error)
  {
  }

  /**
   * Statements only append to the output, and a statement that completes
   * changes at most the innermost scope: a block pops what it pushed, and
   * nothing assigns to an enclosing scope.
   */
  lemma {:induction false} ExecEffect(s: Stmt, m: Machine, host: HostNumbers)
    requires |m.scopes| > 0
    ensures m.out <= Exec(s, m, host).1.out
    ensures Exec(s, m, host).0.Completed? ==> Exec(s, m, host).1.scopes[1..] == m.scopes[1..]
    decreases s
  {
    match s
    case BlockStmt(_, _, stmts) =>
      var pushed := m.(scopes := [map[]] + m.scopes);
      ExecAllEffect(stmts, pushed, host);
    case _ =>
  }

  /** `ExecEffect` for a statement list. */
  lemma {:induction false} ExecAllEffect(stmts: seq<Stmt>, m: Machine, host: HostNumbers)
    requires |m.scopes| > 0
    ensures m.out <= ExecAll(stmts, m, host).1.out
    ensures ExecAll(stmts, m, host).0.Completed? ==> ExecAll(stmts, m, host).1.scopes[1..] == m.scopes[1..]
    decreases stmts
  {
    if |stmts| > 0 {
      var first := Exec(stmts[0], m, host);
      ExecEffect(stmts[0], m, host);
      if first.0.Completed? {
        ExecAllEffect(stmts[1..], first.1, host);
      }
    }
  }

  /** A block that completes leaves the scope stack exactly as it found it. */
  lemma BlockRestoresScopes(opening: Token, closing: Token, stmts: seq<Stmt>, m: Machine, host: HostNumbers)
    requires |m.scopes| > 0
    ensures Exec(BlockStmt(opening, closing, stmts), m, host).0.Completed? ==>
      Exec(BlockStmt(opening, closing, stmts), m, host).1.scopes == m.scopes
  {
    ExecAllEffect(stmts, m.(scopes := [map[]] + m.scopes), host);
  }

  /**
   * A block that throws or crashes leaves its own scope, and any scopes of
   * blocks nested in it, pushed on the stack.
   */
  lemma BlockLeaksScopeOnError(opening: Token, closing: Token, stmts: seq<Stmt>, m: Machine, host: HostNumbers)
    requires |m.scopes| > 0
    ensures !Exec(BlockStmt(opening, closing, stmts), m, host).0.Completed? ==>
      |Exec(BlockStmt(opening, closing, stmts), m, host).1.scopes| > |m.scopes|
  {
  }

  /**
   * `var a = 1; { var a = 2; }` throws at the inner declaration, because a
   * declaration checks the whole chain, and the block's scope stays pushed.
   */
  lemma ShadowingThrows(a1: Token, a2: Token, lb: Token, rb: Token, one: Number, two: Number, host: HostNumbers)
    requires a1.lexeme == "a" && a2.lexeme == "a"
    ensures ExecAll([VarDeclareStmt(a1, Some(Literal(Num(one)))),
                     BlockStmt(lb, rb, [VarDeclareStmt(a2, Some(Literal(Num(two))))])],
                    Machine([map[]], []), host)
      == (Threw(RuntimeError(Some(a2), "Variable has been declared: a")), Machine([map[], map["a" := Num(one)]], []))
  {
    var m1 := Machine([map["a" := Num(one)]], []);
    assert !Bound([map[]], "a");
    assert Accept(Some(Literal(Num(one))), [map[]], host) == Normal(Num(one));
    assert Declare([map[]], "a", Num(one)) == m1.scopes;
    assert Exec(VarDeclareStmt(a1, Some(Literal(Num(one)))), Machine([map[]], []), host) == (Completed, m1);
    var m2 := Machine([map[], map["a" := Num(one)]], []);
    assert Bound(m2.scopes, "a") by { assert "a" in m2.scopes[1]; }
    var inner := VarDeclareStmt(a2, Some(Literal(Num(two))));
    var thrown := (Threw(RuntimeError(Some(a2), "Variable has been declared: a")), m2);
    assert "Variable has been declared: " + a2.lexeme == "Variable has been declared: a";
    assert Exec(inner, m2, host) == thrown;
    assert ExecAll([inner], m2, host) == thrown;
    assert [map[]] + m1.scopes == m2.scopes;
    assert Exec(BlockStmt(lb, rb, [inner]), m1, host) == thrown;
    assert ExecAll([BlockStmt(lb, rb, [inner])], m1, host) == thrown;
  }

  /** `var a = "s"; { print a; }` prints `s`: a block sees the enclosing scope and pops its own. */
  lemma BlockSeesEnclosingScope(a1: Token, a2: Token, lb: Token, rb: Token, text: string, host: HostNumbers)
    requires a1.lexeme == a2.lexeme
    ensures ExecAll([VarDeclareStmt(a1, Some(Literal(Str(text)))),
                     BlockStmt(lb, rb, [PrintStmt(Some(Variable(a2)))])],
                    Machine([map[]], []), host)
      == (Completed, Machine([map[a1.lexeme := Str(text)]], [text]))
  {
    var m1 := Machine([map[a1.lexeme := Str(text)]], []);
    assert !Bound([map[]], a1.lexeme);
    assert Accept(Some(Literal(Str(text))), [map[]], host) == Normal(Str(text));
    assert Declare([map[]], a1.lexeme, Str(text)) == m1.scopes;
    assert Exec(VarDeclareStmt(a1, Some(Literal(Str(text)))), Machine([map[]], []), host) == (Completed, m1);
    var pushed := [map[], map[a1.lexeme := Str(text)]];
    assert Bound(pushed, a2.lexeme) by { assert a2.lexeme in pushed[1]; }
    assert Lookup(pushed, a2.lexeme) == Str(text);
    var printing := PrintStmt(Some(Variable(a2)));
    var m2 := Machine(pushed, [text]);
    assert Evaluate(Some(Variable(a2)), pushed, host) == Normal(Str(text));
    assert Text(Str(text), host) == Some(text);
    assert [] + [text] == [text];
    assert Exec(printing, Machine(pushed, []), host) == (Completed, m2);
    assert ExecAll([printing], Machine(pushed, []), host) == (Completed, m2);
    assert [map[]] + m1.scopes == pushed;
    assert Exec(BlockStmt(lb, rb, [printing]), m1, host) == (Completed, m1.(out := [text]));
    assert ExecAll([BlockStmt(lb, rb, [printing])], m1, host) == (Completed, m1.(out := [text]));
  }

  /**
   * As written, `evaluate` has no case for `Unary`, so `print -x;` throws
   * "Unhanded expression type" although `accept` would negate the number.
   */
  lemma UnaryStatementThrows(minus: Token, n: Number, m: Machine, host: HostNumbers)
    requires |m.scopes| > 0 && minus.kind == Minus
    ensures Accept(Some(Unary(minus, Some(Literal(Num(n))))), m.scopes, host) == Normal(Num(host.neg(n)))
    ensures Exec(PrintStmt(Some(Unary(minus, Some(Literal(Num(n)))))), m, host) ==
      (Threw(RuntimeError(None, "Unhanded expression type")), m)
  {
    assert Accept(Some(Literal(Num(n))), m.scopes, host) == Normal(Num(n));
  }

  /**
   * The interpreter's state: the current scope (`env`) and, as the model's
   * stand-in for standard output, the lines printed so far. The host's
   * number operations are fixed for its lifetime.
   */
  class Interpreter {
    var env: Environment
    var out: seq<string>
    const host: HostNumbers

    ghost predicate Valid()
      reads this
    {
      env.Valid()
    }

    /** The state as the pure semantics sees it. */
    function State(): (m: Machine)
      reads this, env.Repr
      requires Valid()
      ensures |m.scopes| > 0
    {
      Machine(env.Scopes(), out)
    }

    /** `new Interpreter()`: a fresh global scope and nothing printed. */
    constructor (host: HostNumbers)
      ensures Valid() && this.host == host && State() == Machine([map[]], []) && fresh(env.Repr)
    {
      env := new Environment.Global();
      out := [];
      this.host := host;
    }

    /** `stmt.accept(this)`: runs one statement in place, as `Exec` says. */
    method Execute(s: Stmt) returns (sig: Signal)
      requires Valid()
      modifies this, env.Repr
      ensures Valid()
      ensures (sig, State()) == Exec(s, old(State()), host)
      ensures sig.Completed? ==> env == old(env)
      decreases s, 1
    {
      match s
      case ExpressionStmt(e) =>
        var o := Evaluate(e, env.Scopes(), host);
        sig := Ended(o);
      case PrintStmt(e) =>
        var o := Evaluate(e, env.Scopes(), host);
        if o.Normal? {
          var line := Text(o.value, host);
          if line.Some? {
            out := out + [line.value];
            sig := Completed;
          } else {
            sig := Crashed;
          }
        } else {
          sig := Ended(o);
        }
      case VarDeclareStmt(name, init) =>
        var declared := env.HasVariable(name.lexeme);
        if declared {
          sig := Threw(RuntimeError(Some(name), "Variable has been declared: " + name.lexeme));
        } else if init.None? {
          env.Init(name.lexeme, Nil);
          sig := Completed;
        } else {
          var o := Accept(init, env.Scopes(), host);
          if o.Normal? {
            env.Init(name.lexeme, o.value);
          }
          sig := Ended(o);
        }
      case BlockStmt(_, _, _) =>
        sig := ExecuteBlock(s);
    }

    /**
     * `visit(BlockStmt)`: runs the statements in a new scope nested in the
     * current one and returns to the enclosing scope afterwards; an error
     * ends the loop before that, leaving the new scope current.
     */
    method ExecuteBlock(block: Stmt) returns (sig: Signal)
      requires Valid() && block.BlockStmt?
      modifies this, env.Repr
      ensures Valid()
      ensures (sig, State()) == Exec(block, old(State()), host)
      ensures sig.Completed? ==> env == old(env)
      decreases block, 0
    {
      var stmts := block.stmts;
      ghost var start := old(State()).(scopes := [map[]] + old(State()).scopes);
      var outer := env;
      env := new Environment.Nested(env);
      var nested := env;
      var i := 0;
      while i < |stmts|
        invariant 0 <= i <= |stmts|
        invariant env == nested && Valid() && nested.parent == outer
        invariant ExecAll(stmts[i..], State(), host) == ExecAll(stmts, start, host)
      {
        assert stmts[i..][1..] == stmts[i + 1..];
        sig := Execute(stmts[i]);
        if !sig.Completed? {
          return;
        }
        i := i + 1;
      }
      sig := Completed;
      env := nested.parent;
    }

    /**
     * `visit(Assignment)`, which `accept` never reaches: evaluates the value,
     * assigns it to the nearest scope that binds the name, and then throws,
     * because `assign` always throws. It never yields a value.
     */
    method VisitAssignment(e: Expr) returns (r: Outcome)
      requires Valid() && e.Assignment?
      modifies env.Repr
      ensures Valid() && !r.Normal?
      ensures var o := Evaluate(e.value, old(env.Scopes()), host);
        if o.Normal? then
          env.Scopes() == AssignNearest(old(env.Scopes()), e.identifier.lexeme, o.value)
          && r == Thrown(RuntimeError(Some(e.identifier), "Undeclared variable " + e.identifier.lexeme))
        else
          env.Scopes() == old(env.Scopes()) && r == o
    {
      var o := Evaluate(e.value, env.Scopes(), host);
      if o.Normal? {
        var thrown := env.Assign(e.identifier, o.value);
        r := Thrown(thrown);
      } else {
        r := o;
      }
    }
  }

  /** The signal a statement ends with when its expression evaluates to `o`. */
  function Ended(o: Outcome): (sig: Signal)
    ensures sig.Completed? <==> o.Normal?
    ensures sig.Threw? <==> o.Thrown?
    ensures o.Thrown? ==> sig.error == o.error
  {
    match o
    case Normal(_) => Completed
    case Thrown(err) => Threw(err)
    case Crash => Crashed
  }
}
