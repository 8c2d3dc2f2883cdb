/**
 * What every rule of the descent guarantees about its own result: a thrown
 * error was reported; a returned tree was parsed from exactly the tokens the
 * rule consumed, has the shape of the rule's tier, and holds a `null` exactly
 * when `primary()` reported an error on the way; and the rule stopped on a
 * token its tier's loops do not take.
 */
module ParseSoundness {
  import opened Wrappers
  import opened Values
  import opened Tokens
  import opened Ast
  import opened Grammar
  import opened Descent

  /**
   * What an expression rule that ran from token `i` to token `j`, while the
   * error list grew from `before` to `after`, guarantees.
   */
  ghost predicate ExprParsed(r: PResult<Option<Expr>>, ts: seq<Token>, i: nat, j: nat,
                             before: seq<Report>, after: seq<Report>, level: nat)
  {
    i <= j <= |ts| && before <= after
    && (r.Raised? ==> |after| > |before|)
    && (r.Done? ==>
          Spans(r.value, ts, i, j) && InTier(r.value, level)
          && (Complete(r.value) <==> |after| == |before|))
  }

  /**
   * A rule of tier `level` returns only in front of a token that no loop of
   * that tier or of a tighter one would take: no binary operator folded at
   * `level` or below and, from the ternary tier on, no `?`.
   */
  predicate Stops(k: TokenType, level: nat) {
    !(0 < BinaryLevel(k) <= level) && (TernaryLevel <= level ==> k != Question)
  }

  /** `ExprParsed` and `Stops` together, for a step of the descent. */
  ghost predicate TierParsed(p: Step<PResult<Option<Expr>>>, ts: seq<Token>, i: nat, errs: seq<Report>, level: nat) {
    p.next < |ts| && ExprParsed(p.r, ts, i, p.next, errs, p.errs, level)
    && (p.r.Done? ==> Stops(ts[p.next].kind, level))
  }

  /** A looser tier accepts every tree of a tighter one. */
  lemma InTierMonotone(o: Option<Expr>, a: nat, b: nat)
    requires a <= b && InTier(o, a)
    ensures InTier(o, b)
  {
  }

  /** One turn of a binary tier's loop keeps `ExprParsed`: the fold to the left. */
  lemma FoldStep(l: Option<Expr>, op: Token, right: Option<Expr>, ts: seq<Token>, i: nat, k: nat, j: nat,
                 e0: seq<Report>, e1: seq<Report>, e2: seq<Report>, level: nat)
    requires ExprParsed(Done(l), ts, i, k, e0, e1, level)
    requires k < |ts| && ts[k] == op && 0 < level && BinaryLevel(op.kind) == level
    requires ExprParsed(Done(right), ts, k + 1, j, e1, e2, level - 1)
    ensures ExprParsed(Done(Some(Binary(l, op, right))), ts, i, j, e0, e2, level)
  {
    SpansWidth(l, ts, i, k);
  }

  /** `ternary()` keeps `ExprParsed` when it assembles `c ? l : r`. */
  lemma TernaryStep(c: Option<Expr>, l: Option<Expr>, r: Option<Expr>, ts: seq<Token>,
                    i: nat, k1: nat, k2: nat, j: nat,
                    e0: seq<Report>, e1: seq<Report>, e2: seq<Report>, e3: seq<Report>)
    requires ExprParsed(Done(c), ts, i, k1, e0, e1, EqualityLevel)
    requires k1 < |ts| && ts[k1].kind == Question
    requires ExprParsed(Done(l), ts, k1 + 1, k2, e1, e2, TernaryLevel)
    requires k2 < |ts| && ts[k2].kind == Colon
    requires ExprParsed(Done(r), ts, k2 + 1, j, e2, e3, TernaryLevel)
    ensures ExprParsed(Done(Some(Expr.Ternary(c, l, r))), ts, i, j, e0, e3, TernaryLevel)
  {
    SpansWidth(c, ts, i, k1);
    SpansWidth(l, ts, k1 + 1, k2);
  }

  /** Every expression rule is sound: `TierParsed` holds of what it returns or throws. */
  lemma {:induction false} TierSound(ts: seq<Token>, i: nat, errs: seq<Report>, level: nat)
    requires Ended(ts) && i < |ts| && level <= CommaLevel
    ensures TierParsed(Tier(ts, i, errs, level), ts, i, errs, level)
    decreases |ts| - i, level, 2
  {
    if level == PrimaryLevel {
      PrimarySound(ts, i, errs);
    } else if level == UnaryLevel {
      UnarySound(ts, i, errs);
    } else if level == TernaryLevel {
      TernarySound(ts, i, errs);
    } else {
      TierSound(ts, i, errs, level - 1);
      var first := Tier(ts, i, errs, level - 1);
      if first.r.Done? {
        InTierMonotone(first.r.value, level - 1, level);
      }
      FoldSound(ts, first, level, i, errs);
    }
  }

  /** The loop of a binary tier keeps `TierParsed` from its first operand on. */
  lemma {:induction false} FoldSound(ts: seq<Token>, acc: Step<PResult<Option<Expr>>>, level: nat, i: nat, e0: seq<Report>)
    requires Ended(ts) && acc.next < |ts| && level in {FactorLevel, TermLevel, ComparisonLevel, EqualityLevel, CommaLevel}
    requires ExprParsed(acc.r, ts, i, acc.next, e0, acc.errs, level)
    requires acc.r.Done? ==> Stops(ts[acc.next].kind, level - 1)
    ensures TierParsed(Fold(ts, acc, level), ts, i, e0, level)
    decreases |ts| - acc.next, level, 1
  {
    if acc.r.Done? && BinaryLevel(ts[acc.next].kind) == level {
      var k := acc.next;
      TierSound(ts, k + 1, acc.errs, level - 1);
      var right := Tier(ts, k + 1, acc.errs, level - 1);
      if right.r.Done? {
        FoldStep(acc.r.value, ts[k], right.r.value, ts, i, k, right.next, e0, acc.errs, right.errs, level);
        FoldSound(ts, Step(Done(Some(Binary(acc.r.value, ts[k], right.r.value))), right.next, right.errs), level, i, e0);
      }
    }
  }

  /** `ternary()` is sound. */
  lemma {:induction false} TernarySound(ts: seq<Token>, i: nat, errs: seq<Report>)
    requires Ended(ts) && i < |ts|
    ensures TierParsed(TernaryRule(ts, i, errs), ts, i, errs, TernaryLevel)
    decreases |ts| - i, TernaryLevel, 1
  {
    TierSound(ts, i, errs, EqualityLevel);
    var cond := Tier(ts, i, errs, EqualityLevel);
    if cond.r.Raised? || ts[cond.next].kind != Question {
      assert TernaryRule(ts, i, errs) == cond;
      if cond.r.Done? {
        InTierMonotone(cond.r.value, EqualityLevel, TernaryLevel);
      }
      return;
    }
    TierSound(ts, cond.next + 1, cond.errs, TernaryLevel);
    var first := Tier(ts, cond.next + 1, cond.errs, TernaryLevel);
    if first.r.Raised? || ts[first.next].kind != Colon {
      return;
    }
    TierSound(ts, first.next + 1, first.errs, TernaryLevel);
    var second := Tier(ts, first.next + 1, first.errs, TernaryLevel);
    if second.r.Done? {
      assert TernaryRule(ts, i, errs) == Step(Done(Some(Ternary(cond.r.value, first.r.value, second.r.value))), second.next, second.errs);
      TernaryStep(cond.r.value, first.r.value, second.r.value, ts, i, cond.next, first.next, second.next,
                  errs, cond.errs, first.errs, second.errs);
    }
  }

  /** `unary()` is sound. */
  lemma {:induction false} UnarySound(ts: seq<Token>, i: nat, errs: seq<Report>)
    requires Ended(ts) && i < |ts|
    ensures TierParsed(UnaryRule(ts, i, errs), ts, i, errs, UnaryLevel)
    decreases |ts| - i, UnaryLevel, 1
  {
    if ts[i].kind in {Bang, Minus} {
      TierSound(ts, i + 1, errs, UnaryLevel);
    } else {
      TierSound(ts, i, errs, PrimaryLevel);
      var p := Tier(ts, i, errs, PrimaryLevel);
      if p.r.Done? {
        InTierMonotone(p.r.value, PrimaryLevel, UnaryLevel);
      }
    }
  }

  /** `primary()` is sound. */
  lemma {:induction false} PrimarySound(ts: seq<Token>, i: nat, errs: seq<Report>)
    requires Ended(ts) && i < |ts|
    ensures TierParsed(PrimaryRule(ts, i, errs), ts, i, errs, PrimaryLevel)
    decreases |ts| - i, PrimaryLevel, 1
  {
    if ts[i].kind == LeftParen {
      TierSound(ts, i + 1, errs, CommaLevel);
      GroupSound(ts, i, errs);
      assert PrimaryRule(ts, i, errs) == GroupRule(ts, i + 1, errs);
    }
  }

  /** `primary()` on `(`: sound once the inner expression is. */
  lemma GroupSound(ts: seq<Token>, i: nat, errs: seq<Report>)
    requires Ended(ts) && i + 1 < |ts| && ts[i].kind == LeftParen
    requires TierParsed(Tier(ts, i + 1, errs, CommaLevel), ts, i + 1, errs, CommaLevel)
    ensures TierParsed(GroupRule(ts, i + 1, errs), ts, i, errs, PrimaryLevel)
  {
    var inner := Tier(ts, i + 1, errs, CommaLevel);
    if inner.r.Raised? {
      assert GroupRule(ts, i + 1, errs) == inner;
    } else if ts[inner.next].kind != RightParen {
      assert GroupRule(ts, i + 1, errs) == Missing(ts, inner.next, inner.errs, "Missing closing parenthesis.");
    } else {
      assert GroupRule(ts, i + 1, errs) == Step(Done(Some(Grouping(inner.r.value))), inner.next + 1, inner.errs);
      GroupingShape(inner.r.value, ts, i, inner.next, errs, inner.errs);
    }
  }

  /** A parenthesised tree of any tier is a primary over the parentheses. */
  lemma GroupingShape(o: Option<Expr>, ts: seq<Token>, i: nat, j: nat, before: seq<Report>, after: seq<Report>)
    requires i < j < |ts| && ts[i].kind == LeftParen && ts[j].kind == RightParen
    requires ExprParsed(Done(o), ts, i + 1, j, before, after, CommaLevel)
    ensures ExprParsed(Done(Some(Grouping(o))), ts, i, j + 1, before, after, PrimaryLevel)
  {
  }

  /**
   * `assignment()` is sound: a returned tree spans the consumed tokens, has
   * the right-nested shape of assignments over a ternary, and holds a `null`
   * exactly when an error was reported.
   */
  lemma {:induction false} AssignmentSound(ts: seq<Token>, i: nat, errs: seq<Report>)
    requires Ended(ts) && i < |ts|
    ensures AssignmentParsed(AssignmentRule(ts, i, errs), ts, i, errs)
    decreases |ts| - i
  {
    TierSound(ts, i, errs, TernaryLevel);
    var target := Tier(ts, i, errs, TernaryLevel);
    if target.r.Done? && ts[target.next].kind == Equal {
      AssignmentSound(ts, target.next + 1, target.errs);
      AssignedSound(target.r.value, ts, i, target.next, errs, target.errs,
                    AssignmentRule(ts, target.next + 1, target.errs));
    }
  }

  /**
   * What `assignment()` run from token `i` guarantees: a thrown error was
   * reported; a returned tree spans the consumed tokens, has the
   * right-nested shape of assignments over a ternary, and holds a `null`
   * exactly when an error was reported.
   */
  ghost predicate AssignmentParsed(p: Step<PResult<Option<Expr>>>, ts: seq<Token>, i: nat, errs: seq<Report>) {
    i <= p.next <= |ts| && errs <= p.errs
    && (p.r.Raised? ==> |p.errs| > |errs|)
    && (p.r.Done? ==>
          Spans(p.r.value, ts, i, p.next) && InAssignmentTier(p.r.value)
          && (Complete(p.r.value) <==> |p.errs| == |errs|))
  }

  /** The end of `assignment()` is sound once its target and its value are. */
  lemma AssignedSound(target: Option<Expr>, ts: seq<Token>, i: nat, k: nat, e0: seq<Report>, e1: seq<Report>,
                      value: Step<PResult<Option<Expr>>>)
    requires ExprParsed(Done(target), ts, i, k, e0, e1, TernaryLevel) && k < |ts| && ts[k].kind == Equal
    requires AssignmentParsed(value, ts, k + 1, e1)
    ensures AssignmentParsed(Assigned(target, ts[k], value), ts, i, e0)
  {
    if value.r.Done? && target.Some? && target.value.Variable? {
      assert k == i + 1 && ts[i] == target.value.identifier && e1 == e0;
      AssignmentShape(target.value.identifier, value.r.value, ts, i, value.next);
    }
  }

  /** An assignment to a variable spans the name, the `=` and the value. */
  lemma AssignmentShape(name: Token, v: Option<Expr>, ts: seq<Token>, i: nat, j: nat)
    requires i + 2 <= j <= |ts| && ts[i] == name && name.kind == Identifier && ts[i + 1].kind == Equal
    requires Spans(v, ts, i + 2, j) && InAssignmentTier(v)
    ensures Spans(Some(Assignment(name, v)), ts, i, j) && InAssignmentTier(Some(Assignment(name, v)))
    ensures Complete(Some(Assignment(name, v))) <==> Complete(v)
  {
  }

  /**
   * What a statement rule that ran from token `i` to token `j` guarantees:
   * a thrown error was reported, and a returned statement was parsed from
   * exactly `ts[i..j]` and holds a `null` exactly when an error was reported.
   */
  ghost predicate StmtParsed(r: PResult<Stmt>, ts: seq<Token>, i: nat, j: nat,
                             before: seq<Report>, after: seq<Report>)
  {
    i <= j <= |ts| && before <= after
    && (r.Raised? ==> |after| > |before|)
    && (r.Done? ==> StmtSpans(r.value, ts, i, j) && (StmtComplete(r.value, j - i) <==> |after| == |before|))
  }

  /** `varDeclaration()`, from the `var` at `i`, is sound. */
  lemma VarDeclarationSound(ts: seq<Token>, i: nat, errs: seq<Report>)
    requires Ended(ts) && i + 1 < |ts| && ts[i].kind == VarKw
    ensures var p := VarDeclarationRule(ts, i + 1, errs);
      StmtParsed(p.r, ts, i, p.next, errs, p.errs) && (p.r.Done? ==> p.r.value.VarDeclareStmt?)
  {
    if ts[i + 1].kind == Identifier && ts[i + 2].kind == Equal {
      InitializedDeclarationSound(ts, i, errs);
    }
  }

  /** `varDeclaration()` with an initializer, from the `var` at `i`, is sound. */
  lemma InitializedDeclarationSound(ts: seq<Token>, i: nat, errs: seq<Report>)
    requires Ended(ts) && i + 2 < |ts| && ts[i].kind == VarKw
    requires ts[i + 1].kind == Identifier && ts[i + 2].kind == Equal
    ensures var p := VarDeclarationRule(ts, i + 1, errs);
      StmtParsed(p.r, ts, i, p.next, errs, p.errs) && (p.r.Done? ==> p.r.value.VarDeclareStmt?)
  {
    TierSound(ts, i + 3, errs, CommaLevel);
    var init := Tier(ts, i + 3, errs, CommaLevel);
    assert VarDeclarationRule(ts, i + 1, errs)
      == if init.r.Raised? then Rethrow(init) else Declared(ts, ts[i + 1], init.r.value, init.next, init.errs);
    if init.r.Done? {
      DeclaredSound(ts, i, init.r.value, init.next, errs, init.errs);
    }
  }

  /** The closing `;` of a declaration whose initializer ran from `i + 3` to `k`. */
  lemma DeclaredSound(ts: seq<Token>, i: nat, init: Option<Expr>, k: nat, errs: seq<Report>, e1: seq<Report>)
    requires Ended(ts) && i + 3 <= k < |ts| && ts[i].kind == VarKw
    requires ts[i + 1].kind == Identifier && ts[i + 2].kind == Equal
    requires ExprParsed(Done(init), ts, i + 3, k, errs, e1, CommaLevel)
    ensures var p := Declared(ts, ts[i + 1], init, k, e1);
      StmtParsed(p.r, ts, i, p.next, errs, p.errs) && (p.r.Done? ==> p.r.value.VarDeclareStmt?)
  {
    SpansWidth(init, ts, i + 3, k);
  }

  /**
   * The `try` block of `statement()` is sound, and the kind of statement it
   * returns is the one its first token selects.
   */
  lemma AttemptSound(ts: seq<Token>, i: nat, errs: seq<Report>)
    requires Ended(ts) && i < |ts|
    ensures var p := AttemptRule(ts, i, errs);
      StmtParsed(p.r, ts, i, p.next, errs, p.errs)
      && (p.r.Done? ==> (p.r.value.PrintStmt? <==> ts[i].kind == PrintKw))
      && (p.r.Done? ==> (p.r.value.VarDeclareStmt? <==> ts[i].kind == VarKw))
  {
    if ts[i].kind == PrintKw {
      PrintStatementSound(ts, i, errs);
    } else if ts[i].kind == VarKw {
      VarDeclarationSound(ts, i, errs);
    } else {
      ExpressionStatementSound(ts, i, errs);
    }
  }

  /** `printStatement()`, from the `print` at `i`, is sound. */
  lemma PrintStatementSound(ts: seq<Token>, i: nat, errs: seq<Report>)
    requires Ended(ts) && i + 1 < |ts| && ts[i].kind == PrintKw
    ensures var p := PrintStatementRule(ts, i + 1, errs);
      StmtParsed(p.r, ts, i, p.next, errs, p.errs) && (p.r.Done? ==> p.r.value.PrintStmt?)
  {
    TierSound(ts, i + 1, errs, CommaLevel);
  }

  /** `expressionStatement()` is sound. */
  lemma ExpressionStatementSound(ts: seq<Token>, i: nat, errs: seq<Report>)
    requires Ended(ts) && i < |ts|
    ensures var p := ExpressionStatementRule(ts, i, errs);
      StmtParsed(p.r, ts, i, p.next, errs, p.errs) && (p.r.Done? ==> p.r.value.ExpressionStmt?)
  {
    TierSound(ts, i, errs, CommaLevel);
  }

  /**
   * `statement()` is sound. A parsed statement is the one its first token
   * selects and spans the consumed tokens. Otherwise an error was reported
   * and `synchronize()` either returned on EOF, on a statement keyword or
   * just past a `;`, or stopped on a token it never leaves.
   */
  lemma StatementSound(ts: seq<Token>, i: nat, errs: seq<Report>)
    requires Ended(ts) && i < |ts|
    ensures var p := StatementRule(ts, i, errs);
      i <= p.next < |ts| && errs <= p.errs
      && (p.r.Parsed? ==> StmtParsed(Done(p.r.stmt), ts, i, p.next, errs, p.errs))
      && (p.r.Parsed? ==> (p.r.stmt.PrintStmt? <==> ts[i].kind == PrintKw))
      && (p.r.Parsed? ==> (p.r.stmt.VarDeclareStmt? <==> ts[i].kind == VarKw))
      && (!p.r.Parsed? ==> |p.errs| > |errs|)
      && (p.r.Recovered? ==>
            ts[p.next].kind == Eof || ts[p.next].kind in StatementStarts
            || (p.next > 0 && ts[p.next - 1].kind == Semicolon))
      && (p.r.Diverges? ==>
            ts[p.next].kind != Eof && ts[p.next].kind != Semicolon && ts[p.next].kind !in StatementStarts)
  {
    AttemptSound(ts, i, errs);
  }
}
