/**
 * `SimpleDisplayVisitor`: renders an expression tree as text. Every node's
 * text is built from its children's `accept` results, which `StringBuilder`
 * and string concatenation write as "null" when they are `null`.
 */
module Display {
  import opened Wrappers
  import opened Values
  import opened Tokens
  import opened Ast
  import opened Grammar

  /**
   * What `accept` returns to the caller: a string, `null` (an `Assignment`'s
   * `accept` returns `null` without visiting), or a null-dereference exception
   * (`Crash`) raised on a `null` child or by `toString()` of a `null` literal.
   */
  datatype Shown = Shown(text: string) | Null | Crash

  /** `o.accept(this)`; a `null` tree throws. */
  function Accept(o: Option<Expr>, host: HostNumbers, objectText: Expr -> string): (r: Shown)
    ensures r.Null? <==> o.Some? && o.value.Assignment?
    decreases o, 0
  {
    match o
    case None => Crash
    case Some(e) => if e.Assignment? then Null else Visit(e, host, objectText)
  }

  /**
   * A child's `accept` result as `append` and `+` write it: `null` as
   * "null", and `None` when the child threw.
   */
  function Appended(o: Option<Expr>, host: HostNumbers, objectText: Expr -> string): (r: Option<string>)
    ensures r.None? <==> Accept(o, host, objectText).Crash?
    decreases o, 1
  {
    match Accept(o, host, objectText)
    case Shown(s) => Some(s)
    case Null => Some("null")
    case Crash => None
  }

  /**
   * The seven `visit` overloads. `visit(Assignment)` appends the value
   * expression itself, not its rendering: `objectText` is that node's
   * `Object.toString()`, which the source does not define.
   */
  function Visit(e: Expr, host: HostNumbers, objectText: Expr -> string): (r: Shown)
    ensures !r.Null?
    ensures e.Variable? || e.Assignment? ==> r.Shown?
    decreases e, 2
  {
    match e
    case Binary(l, op, r) =>
      (match (Appended(l, host, objectText), Appended(r, host, objectText))
       case (Some(ls), Some(rs)) => Shown(ls + " " + op.lexeme + " " + rs)
       case _ => Crash)
    case Grouping(inner) =>
      (match Appended(inner, host, objectText)
       case Some(s) => Shown(" (" + s + ") ")
       case None => Crash)
    case Literal(v) =>
      (match Text(v, host)
       case Some(s) => Shown(s)
       case None => Crash)
    case Unary(op, r) =>
      (match Appended(r, host, objectText)
       case Some(s) => Shown(" (" + op.lexeme + s + ") ")
       case None => Crash)
    case Ternary(c, t, f) =>
      (match (Appended(c, host, objectText), Appended(t, host, objectText), Appended(f, host, objectText))
       case (Some(cs), Some(ts), Some(fs)) => Shown(cs + " ? " + ts + " : " + fs)
       case _ => Crash)
    case Variable(name) => Shown(name.lexeme)
    case Assignment(name, v) =>
      Shown(name.lexeme + " = " + (if v.None? then "null" else objectText(v.value)) + ";")
  }

  /**
   * The tree can be displayed: no `null` child is visited and no literal is
   * `null`. An assignment nested in the tree is not visited, so its own
   * children do not matter.
   */
  ghost predicate Displayable(o: Option<Expr>) {
    match o
    case None => false
    case Some(e) =>
      match e
      case Binary(l, _, r) => Displayable(l) && Displayable(r)
      case Ternary(c, t, f) => Displayable(c) && Displayable(t) && Displayable(f)
      case Grouping(inner) => Displayable(inner)
      case Literal(v) => !v.Nil?
      case Unary(_, r) => Displayable(r)
      case Variable(_) => true
      case Assignment(_, _) => true
  }

  /** Displaying throws exactly when the tree holds a `null` child or a `null` literal where it is visited. */
  lemma {:induction false} DisplayCrashesOnlyOnNull(o: Option<Expr>, host: HostNumbers, objectText: Expr -> string)
    ensures Accept(o, host, objectText).Crash? <==> !Displayable(o)
    decreases o
  {
    match o
    case None =>
    case Some(e) =>
      match e
      case Binary(l, _, r) =>
        DisplayCrashesOnlyOnNull(l, host, objectText);
        DisplayCrashesOnlyOnNull(r, host, objectText);
      case Ternary(c, t, f) =>
        DisplayCrashesOnlyOnNull(c, host, objectText);
        DisplayCrashesOnlyOnNull(t, host, objectText);
        DisplayCrashesOnlyOnNull(f, host, objectText);
      case Grouping(inner) =>
        DisplayCrashesOnlyOnNull(inner, host, objectText);
      case Literal(_) =>
      case Unary(_, r) =>
        DisplayCrashesOnlyOnNull(r, host, objectText);
      case Variable(_) =>
      case Assignment(_, _) =>
  }

  /** The lexemes of `ts`, separated by single spaces. */
  function Joined(ts: seq<Token>): string {
    if |ts| == 0 then ""
    else if |ts| == 1 then ts[0].lexeme
    else ts[0].lexeme + " " + Joined(ts[1..])
  }

  /** Joining around an operator token puts one space on each side of it. */
  lemma {:induction false} JoinedAround(a: seq<Token>, op: Token, b: seq<Token>)
    requires |a| > 0 && |b| > 0
    ensures Joined(a + [op] + b) == Joined(a) + " " + op.lexeme + " " + Joined(b)
    decreases |a|
  {
    if |a| == 1 {
      assert (a + [op] + b)[1..] == [op] + b;
      assert ([op] + b)[1..] == b;
    } else {
      JoinedAround(a[1..], op, b);
      assert (a + [op] + b)[1..] == a[1..] + [op] + b;
    }
  }

  /** A tree of variables and binary operators only. */
  predicate Flat(o: Option<Expr>) {
    match o
    case Some(Variable(_)) => true
    case Some(Binary(l, _, r)) => Flat(l) && Flat(r)
    case _ => false
  }

  /** A binary node displays as its operands' texts around its operator, one space on each side. */
  lemma DisplayBinary(l: Option<Expr>, op: Token, r: Option<Expr>, left: seq<Token>, right: seq<Token>,
                      host: HostNumbers, objectText: Expr -> string)
    requires |left| > 0 && |right| > 0
    requires Accept(l, host, objectText) == Shown(Joined(left)) && Accept(r, host, objectText) == Shown(Joined(right))
    ensures Accept(Some(Binary(l, op, r)), host, objectText) == Shown(Joined(left + [op] + right))
  {
    JoinedAround(left, op, right);
    assert Appended(l, host, objectText) == Some(Joined(left));
    assert Appended(r, host, objectText) == Some(Joined(right));
  }

  /**
   * A tree of variables and binary operators displays as the tokens it was
   * parsed from, one space apart: the display gives back the source text,
   * up to spacing, and so does not show how the operators were nested.
   */
  lemma {:induction false} FlatDisplayIsSource(o: Option<Expr>, ts: seq<Token>, i: nat, j: nat,
                                               host: HostNumbers, objectText: Expr -> string)
    requires i <= j <= |ts| && Spans(o, ts, i, j) && Flat(o)
    ensures i < j && Accept(o, host, objectText) == Shown(Joined(ts[i..j]))
    decreases o, 1
  {
    match o.value
    case Variable(_) =>
    case Binary(l, op, r) => FlatBinaryIsSource(l, op, r, ts, i, j, host, objectText);
  }

  /** `FlatDisplayIsSource` for a binary node. */
  lemma {:induction false} FlatBinaryIsSource(l: Option<Expr>, op: Token, r: Option<Expr>, ts: seq<Token>, i: nat, j: nat,
                                              host: HostNumbers, objectText: Expr -> string)
    requires i <= j <= |ts| && Spans(Some(Binary(l, op, r)), ts, i, j) && Flat(l) && Flat(r)
    ensures i < j && Accept(Some(Binary(l, op, r)), host, objectText) == Shown(Joined(ts[i..j]))
    decreases Some(Binary(l, op, r)), 0
  {
    var k := i + Width(l);
    assert k < j && ts[k] == op && Spans(l, ts, i, k) && Spans(r, ts, k + 1, j);
    FlatDisplayIsSource(l, ts, i, k, host, objectText);
    FlatDisplayIsSource(r, ts, k + 1, j, host, objectText);
    assert ts[i..j] == ts[i..k] + [op] + ts[k + 1..j];
    DisplayBinary(l, op, r, ts[i..k], ts[k + 1..j], host, objectText);
  }
}
