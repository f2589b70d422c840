/** The grammar of arithmetic expressions: a text has at most one precedence tree, and only a text with `% name op=`
    has a tree outside of the documented grammar. */
module Grammar {
  import opened Tokens
  import opened Trees
  import opened Levels

  predicate IsAssign(t: Token) {
    t.OpAsg? || t == Sym(Eq)
  }

  /** An operand does not begin like an assignment. */
  lemma {:induction false} OperandStart(e: Expr, rest: seq<Token>)
    requires WellFormed(e) && Level(e) >= 2 && |rest| > 0 && !IsAssign(rest[0])
    ensures var ts := TokensOf(e) + rest; |ts| > 1 && (ts[0].Name? ==> !IsAssign(ts[1]))
    decreases e, 0
  {
    match e
    case Lit(_) | Var(_) | PreStep(_, _) | PostStep(_, _) =>
    case Paren(inner) =>
    case Unary(_, _) =>
    case Pow(l, r) => LeftStart(l, Sym(PowerOp), TokensOf(r), rest);
    case Binary(op, l, r) => LeftStart(l, Sym(Bin(op)), TokensOf(r), rest);
    case And(l, r) => LeftStart(l, Sym(LogAnd), TokensOf(r), rest);
    case Or(l, r) => LeftStart(l, Sym(LogOr), TokensOf(r), rest);
    case Conditional(c, y, n) => LeftStart(c, Sym(Quest), TokensOf(y) + [Sym(Colon)] + TokensOf(n), rest);
  }

  lemma LeftStart(l: Expr, t: Token, ts: seq<Token>, rest: seq<Token>)
    requires WellFormed(l) && Level(l) >= 2 && !IsAssign(t)
    ensures var all := (TokensOf(l) + [t] + ts) + rest; |all| > 1 && (all[0].Name? ==> !IsAssign(all[1]))
    decreases l
  {
    hide TokensOf, WellFormed;
    OperandStart(l, [t] + (ts + rest));
    Associate3(TokensOf(l), [t], ts, rest);
  }

  // ---------------------------------------------------------------- chains of left-associative operators

  /** An operator and the operand to its right. */
  datatype Link = Link(op: Token, operand: Expr)

  /** The first operand of a chain of operators of level `k`. */
  function First(k: nat, e: Expr): Expr
    requires LeftLevel(k)
  {
    if Level(e) == k then First(k, LeftOf(e)) else e
  }

  function Chain(k: nat, e: Expr): seq<Link>
    requires LeftLevel(k)
  {
    if Level(e) == k then Chain(k, LeftOf(e)) + [Link(OperatorToken(e), RightOf(e))] else []
  }

  function ChainTokens(c: seq<Link>): seq<Token> {
    if c == [] then [] else [c[0].op] + TokensOf(c[0].operand) + ChainTokens(c[1..])
  }

  predicate ChainOf(k: nat, c: seq<Link>) {
    forall i :: 0 <= i < |c| ==>
                  WellFormed(c[i].operand) && Level(c[i].operand) > k && TokenLevel(c[i].op) == k && !IsAssign(c[i].op)
  }

  lemma {:induction false} ChainTokensAppend(c: seq<Link>, l: Link)
    ensures ChainTokens(c + [l]) == ChainTokens(c) + ([l.op] + TokensOf(l.operand))
  {
    hide TokensOf;
    if c == [] {
      assert (c + [l])[1..] == [];
      assert ChainTokens([]) == [];
      assert [l.op] + TokensOf(l.operand) + [] == [l.op] + TokensOf(l.operand);
    } else {
      ChainTokensAppend(c[1..], l);
      assert (c + [l])[1..] == c[1..] + [l];
    }
  }

  lemma OperatorLevel(e: Expr)
    requires LeftLevel(Level(e))
    ensures TokenLevel(OperatorToken(e)) == Level(e) && !IsAssign(OperatorToken(e))
  {
  }

  lemma {:induction false} ChainParts(k: nat, e: Expr)
    requires LeftLevel(k) && WellFormed(e) && Level(e) >= k
    ensures WellFormed(First(k, e)) && Level(First(k, e)) > k && ChainOf(k, Chain(k, e))
    ensures TokensOf(e) == TokensOf(First(k, e)) + ChainTokens(Chain(k, e))
  {
    hide TokensOf, WellFormed, OperatorToken, TokenLevel, ChainTokens;
    if Level(e) == k {
      LeftParts(e);
      OperatorLevel(e);
      ChainParts(k, LeftOf(e));
      ChainTokensAppend(Chain(k, LeftOf(e)), Link(OperatorToken(e), RightOf(e)));
    } else {
      NoTokens();
    }
  }

  lemma NoTokens()
    ensures ChainTokens([]) == []
  {
  }

  lemma SameParts(e1: Expr, e2: Expr)
    requires LeftLevel(Level(e1)) && Level(e1) == Level(e2)
    requires OperatorToken(e1) == OperatorToken(e2) && LeftOf(e1) == LeftOf(e2) && RightOf(e1) == RightOf(e2)
    ensures e1 == e2
  {
  }

  lemma {:induction false} SameChain(k: nat, e1: Expr, e2: Expr)
    requires LeftLevel(k) && First(k, e1) == First(k, e2) && Chain(k, e1) == Chain(k, e2)
    ensures e1 == e2
    decreases e1
  {
    hide OperatorToken;
    var c1, c2 := Chain(k, e1), Chain(k, e2);
    if Level(e1) == k && Level(e2) == k {
      assert c1[..|c1| - 1] == Chain(k, LeftOf(e1)) && c2[..|c2| - 1] == Chain(k, LeftOf(e2));
      assert c1[|c1| - 1] == c2[|c2| - 1];
      SameChain(k, LeftOf(e1), LeftOf(e2));
      SameParts(e1, e2);
    }
  }

  /** Two ways to go on from the same place are the same. */
  predicate Meet(e1: Expr, e2: Expr, r1: seq<Token>, r2: seq<Token>) {
    TokensOf(e1) + r1 == TokensOf(e2) + r2
  }

  /** The tokens in front of a looser operator are those of only one tree. */
  lemma {:induction false} OneTree(k: nat, e1: Expr, e2: Expr, r1: seq<Token>, r2: seq<Token>)
    requires k <= 15 && WellFormed(e1) && WellFormed(e2) && Level(e1) >= k && Level(e2) >= k
    requires Follows(r1, k) && Follows(r2, k) && Meet(e1, e2, r1, r2)
    ensures e1 == e2 && r1 == r2
    decreases |TokensOf(e1) + r1|, 60 - 3 * k
  {
    hide TokensOf, WellFormed, Meet;
    if LeftLevel(k) {
      OneChain(k, e1, e2, r1, r2);
    } else if k < 15 && Level(e1) > k && Level(e2) > k {
      OneTree(k + 1, e1, e2, r1, r2);
    } else if k == 1 {
      OneAssignment(e1, e2, r1, r2);
    } else if k == 2 {
      OneConditional(e1, e2, r1, r2);
    } else if k == 13 {
      OnePower(e1, e2, r1, r2);
    } else if k == 14 {
      OneUnary(e1, e2, r1, r2);
    } else {
      OneOperand(e1, e2, r1, r2);
    }
  }

  lemma ChainFollows(k: nat, c: seq<Link>, r: seq<Token>)
    requires LeftLevel(k) && ChainOf(k, c) && Follows(r, k)
    ensures Follows(ChainTokens(c) + r, k + 1)
    ensures c == [] ==> ChainTokens(c) + r == r
    ensures c != [] ==> (ChainTokens(c) + r)[0] == c[0].op
    ensures c != [] ==> (ChainTokens(c) + r)[1..] == TokensOf(c[0].operand) + (ChainTokens(c[1..]) + r)
  {
    hide TokensOf, WellFormed;
    if c != [] {
      var t, ts, more := c[0].op, TokensOf(c[0].operand), ChainTokens(c[1..]);
      assert ChainTokens(c) + r == [t] + (ts + (more + r));
    }
  }

  lemma OneChain(k: nat, e1: Expr, e2: Expr, r1: seq<Token>, r2: seq<Token>)
    requires LeftLevel(k) && WellFormed(e1) && WellFormed(e2) && Level(e1) >= k && Level(e2) >= k
    requires Follows(r1, k) && Follows(r2, k) && Meet(e1, e2, r1, r2)
    ensures e1 == e2 && r1 == r2
    decreases |TokensOf(e1) + r1|, 59 - 3 * k
  {
    hide TokensOf, WellFormed, ChainTokens, ChainOf, First, Chain, Follows;
    var f1, f2, c1, c2 := First(k, e1), First(k, e2), Chain(k, e1), Chain(k, e2);
    ChainParts(k, e1);
    ChainParts(k, e2);
    ChainFollows(k, c1, r1);
    ChainFollows(k, c2, r2);
    var s1, s2 := ChainTokens(c1) + r1, ChainTokens(c2) + r2;
    assert TokensOf(e1) + r1 == TokensOf(f1) + s1;
    assert TokensOf(e2) + r2 == TokensOf(f2) + s2;
    OneTree(k + 1, f1, f2, s1, s2);
    OneRest(k, c1, c2, r1, r2);
    SameChain(k, e1, e2);
  }

  lemma OneRest(k: nat, c1: seq<Link>, c2: seq<Link>, r1: seq<Token>, r2: seq<Token>)
    requires LeftLevel(k) && ChainOf(k, c1) && ChainOf(k, c2) && Follows(r1, k) && Follows(r2, k)
    requires ChainTokens(c1) + r1 == ChainTokens(c2) + r2
    ensures c1 == c2 && r1 == r2
    decreases |ChainTokens(c1) + r1|, 61
  {
    hide TokensOf, WellFormed, ChainTokens;
    ChainFollows(k, c1, r1);
    ChainFollows(k, c2, r2);
    if c1 != [] && c2 != [] {
      var d1, d2 := c1[1..], c2[1..];
      ChainFollows(k, d1, r1);
      ChainFollows(k, d2, r2);
      OneTree(k + 1, c1[0].operand, c2[0].operand, ChainTokens(d1) + r1, ChainTokens(d2) + r2);
      OneRest(k, d1, d2, r1, r2);
      assert c1 == [c1[0]] + d1 && c2 == [c2[0]] + d2;
    }
  }

  // ---------------------------------------------------------------- levels that group to the right

  /** `dividend % target` in front of `op=`. */
  lemma RemainderStart(e: Expr, r: seq<Token>)
    requires e.Remainder? && WellFormed(e)
    ensures var b := Binary(Mod, e.dividend, Var(e.target));
            WellFormed(b) && Level(b) == 12 && TokensOf(e) + r == TokensOf(b) + ([OpAsg(e.rop)] + (TokensOf(e.rhs) + r))
    ensures var ts := TokensOf(e) + r; |ts| > 1 && (ts[0].Name? ==> !IsAssign(ts[1]))
    ensures WellFormed(e.rhs) && Level(e.rhs) >= 1
  {
    var l, x, op, all := e.dividend, e.target, e.rop, TokensOf(e) + r;
    var a, mod, name, asg := TokensOf(l), [Sym(Bin(Mod))], [Name(x)], [OpAsg(op)];
    assert TokensOf(Binary(Mod, l, Var(x))) == a + mod + name;
    assert TokensOf(e) == a + [Sym(Bin(Mod)), Name(x), OpAsg(op)] + TokensOf(e.rhs);
    RemainderWhole(e);
    hide TokensOf, IsName, AssignableOp, WellFormed;
    assert [Sym(Bin(Mod)), Name(x), OpAsg(op)] == mod + name + asg;
    Associate3(a, mod + name + asg, TokensOf(e.rhs), r);
    Associate3(mod, name, asg, TokensOf(e.rhs) + r);
    assert all == a + (mod + (name + (asg + (TokensOf(e.rhs) + r))));
    Associate3(a, mod, name, asg + (TokensOf(e.rhs) + r));
    LeftStart(l, Sym(Bin(Mod)), name, asg + (TokensOf(e.rhs) + r));
  }

  lemma RemainderWhole(e: Expr)
    requires e.Remainder? && WellFormed(e)
    ensures WellFormed(e.dividend) && Level(e.dividend) >= 12 && WellFormed(e.rhs) && Level(e.rhs) >= 1
    ensures WellFormed(Binary(Mod, e.dividend, Var(e.target))) && Level(Binary(Mod, e.dividend, Var(e.target))) == 12
  {
  }

  lemma AssignStart(e: Expr, r: seq<Token>)
    requires e.Assign? && WellFormed(e)
    ensures TokensOf(e) + r == [Name(e.target), AssignToken(e.aop)] + (TokensOf(e.rhs) + r)
    ensures WellFormed(e.rhs) && Level(e.rhs) >= 1
  {
  }

  /** Something assigned is nothing else. */
  lemma NotAssignment(e1: Expr, e2: Expr, r1: seq<Token>, r2: seq<Token>)
    requires WellFormed(e1) && WellFormed(e2) && Level(e1) == 1 && Level(e2) >= 2
    requires Follows(r1, 1) && Follows(r2, 1)
    ensures !Meet(e1, e2, r1, r2)
    decreases |TokensOf(e1) + r1|, 55
  {
    hide TokensOf, WellFormed;
    OperandStart(e2, r2);
    if e1.Assign? {
      AssignStart(e1, r1);
    } else if Meet(e1, e2, r1, r2) {
      RemainderStart(e1, r1);
      OneTree(2, Binary(Mod, e1.dividend, Var(e1.target)), e2, [OpAsg(e1.rop)] + (TokensOf(e1.rhs) + r1), r2);
    }
  }

  lemma OneAssignment(e1: Expr, e2: Expr, r1: seq<Token>, r2: seq<Token>)
    requires WellFormed(e1) && WellFormed(e2) && Level(e1) >= 1 && Level(e2) >= 1 && (Level(e1) == 1 || Level(e2) == 1)
    requires Follows(r1, 1) && Follows(r2, 1) && Meet(e1, e2, r1, r2)
    ensures e1 == e2 && r1 == r2
    decreases |TokensOf(e1) + r1|, 56
  {
    hide TokensOf, WellFormed;
    if Level(e1) > 1 {
      NotAssignment(e2, e1, r2, r1);
    } else if Level(e2) > 1 {
      NotAssignment(e1, e2, r1, r2);
    } else if e1.Assign? && e2.Assign? {
      AssignStart(e1, r1);
      AssignStart(e2, r2);
      var s1, s2 := TokensOf(e1.rhs) + r1, TokensOf(e2.rhs) + r2;
      SecondToken(e1.target, AssignToken(e1.aop), s1, e2.target, AssignToken(e2.aop), s2);
      OneTree(1, e1.rhs, e2.rhs, r1, r2);
    } else if e1.Remainder? && e2.Remainder? {
      OneRemainder(e1, e2, r1, r2);
    } else if e1.Assign? {
      AssignStart(e1, r1);
      RemainderStart(e2, r2);
    } else {
      RemainderStart(e1, r1);
      AssignStart(e2, r2);
    }
  }

  lemma SecondToken(x: string, t: Token, s: seq<Token>, x': string, t': Token, s': seq<Token>)
    requires [Name(x), t] + s == [Name(x'), t'] + s'
    ensures x == x' && t == t' && s == s'
  {
    var a, a' := [Name(x), t] + s, [Name(x'), t'] + s';
    assert a[0] == a'[0] && a[1] == a'[1] && a[2..] == s && a'[2..] == s';
  }

  lemma OneRemainder(e1: Expr, e2: Expr, r1: seq<Token>, r2: seq<Token>)
    requires e1.Remainder? && e2.Remainder? && WellFormed(e1) && WellFormed(e2)
    requires Follows(r1, 1) && Follows(r2, 1) && Meet(e1, e2, r1, r2)
    ensures e1 == e2 && r1 == r2
    decreases |TokensOf(e1) + r1|, 55
  {
    hide TokensOf, WellFormed;
    RemainderStart(e1, r1);
    RemainderStart(e2, r2);
    var b1, b2 := Binary(Mod, e1.dividend, Var(e1.target)), Binary(Mod, e2.dividend, Var(e2.target));
    var s1, s2 := [OpAsg(e1.rop)] + (TokensOf(e1.rhs) + r1), [OpAsg(e2.rop)] + (TokensOf(e2.rhs) + r2);
    OneTree(2, b1, b2, s1, s2);
    assert s1[0] == s2[0] && s1[1..] == TokensOf(e1.rhs) + r1 && s2[1..] == TokensOf(e2.rhs) + r2;
    OneTree(1, e1.rhs, e2.rhs, r1, r2);
  }

  lemma CondStart(e: Expr, r: seq<Token>)
    requires e.Conditional? && WellFormed(e)
    ensures WellFormed(e.test) && Level(e.test) >= 3 && WellFormed(e.yes) && WellFormed(e.no) && Level(e.no) >= 2
    ensures TokensOf(e) + r
         == TokensOf(e.test) + ([Sym(Quest)] + (TokensOf(e.yes) + ([Sym(Colon)] + (TokensOf(e.no) + r))))
  {
    assert TokensOf(e) == TokensOf(e.test) + [Sym(Quest)] + TokensOf(e.yes) + [Sym(Colon)] + TokensOf(e.no);
    hide TokensOf;
    Associate3(TokensOf(e.test) + [Sym(Quest)] + TokensOf(e.yes), [Sym(Colon)], TokensOf(e.no), r);
    Associate3(TokensOf(e.test), [Sym(Quest)], TokensOf(e.yes), [Sym(Colon)] + (TokensOf(e.no) + r));
  }

  lemma OneConditional(e1: Expr, e2: Expr, r1: seq<Token>, r2: seq<Token>)
    requires WellFormed(e1) && WellFormed(e2) && Level(e1) >= 2 && Level(e2) >= 2 && (Level(e1) == 2 || Level(e2) == 2)
    requires Follows(r1, 2) && Follows(r2, 2) && Meet(e1, e2, r1, r2)
    ensures e1 == e2 && r1 == r2
    decreases |TokensOf(e1) + r1|, 53
  {
    hide TokensOf, WellFormed;
    if Level(e1) > 2 {
      NotConditional(e2, e1, r2, r1);
    } else if Level(e2) > 2 {
      NotConditional(e1, e2, r1, r2);
    } else {
      CondStart(e1, r1);
      CondStart(e2, r2);
      var n1, n2 := TokensOf(e1.no) + r1, TokensOf(e2.no) + r2;
      var c1, c2 := [Sym(Colon)] + n1, [Sym(Colon)] + n2;
      var y1, y2 := TokensOf(e1.yes) + c1, TokensOf(e2.yes) + c2;
      var q1, q2 := [Sym(Quest)] + y1, [Sym(Quest)] + y2;
      OneTree(3, e1.test, e2.test, q1, q2);
      assert q1[1..] == y1 && q2[1..] == y2;
      OneTree(0, e1.yes, e2.yes, c1, c2);
      assert c1[1..] == n1 && c2[1..] == n2;
      OneTree(2, e1.no, e2.no, r1, r2);
    }
  }

  lemma NotConditional(e1: Expr, e2: Expr, r1: seq<Token>, r2: seq<Token>)
    requires WellFormed(e1) && WellFormed(e2) && Level(e1) == 2 && Level(e2) >= 3
    requires Follows(r1, 2) && Follows(r2, 2)
    ensures !Meet(e1, e2, r1, r2)
    decreases |TokensOf(e1) + r1|, 52
  {
    hide TokensOf, WellFormed;
    if Meet(e1, e2, r1, r2) {
      CondStart(e1, r1);
      OneTree(3, e1.test, e2, [Sym(Quest)] + (TokensOf(e1.yes) + ([Sym(Colon)] + (TokensOf(e1.no) + r1))), r2);
    }
  }

  lemma PowStart(e: Expr, r: seq<Token>)
    requires e.Pow? && WellFormed(e)
    ensures WellFormed(e.base) && Level(e.base) >= 14 && WellFormed(e.exponent) && Level(e.exponent) >= 13
    ensures TokensOf(e) + r == TokensOf(e.base) + ([Sym(PowerOp)] + (TokensOf(e.exponent) + r))
  {
    assert TokensOf(e) == TokensOf(e.base) + [Sym(PowerOp)] + TokensOf(e.exponent);
    hide TokensOf;
    Associate3(TokensOf(e.base), [Sym(PowerOp)], TokensOf(e.exponent), r);
  }

  lemma OnePower(e1: Expr, e2: Expr, r1: seq<Token>, r2: seq<Token>)
    requires WellFormed(e1) && WellFormed(e2) && Level(e1) >= 13 && Level(e2) >= 13
    requires (Level(e1) == 13 || Level(e2) == 13)
    requires Follows(r1, 13) && Follows(r2, 13) && Meet(e1, e2, r1, r2)
    ensures e1 == e2 && r1 == r2
    decreases |TokensOf(e1) + r1|, 20
  {
    hide TokensOf, WellFormed;
    if Level(e1) > 13 {
      NotPower(e2, e1, r2, r1);
    } else if Level(e2) > 13 {
      NotPower(e1, e2, r1, r2);
    } else {
      PowStart(e1, r1);
      PowStart(e2, r2);
      var x1, x2 := TokensOf(e1.exponent) + r1, TokensOf(e2.exponent) + r2;
      var p1, p2 := [Sym(PowerOp)] + x1, [Sym(PowerOp)] + x2;
      OneTree(14, e1.base, e2.base, p1, p2);
      assert p1[1..] == x1 && p2[1..] == x2;
      OneTree(13, e1.exponent, e2.exponent, r1, r2);
    }
  }

  lemma NotPower(e1: Expr, e2: Expr, r1: seq<Token>, r2: seq<Token>)
    requires WellFormed(e1) && WellFormed(e2) && Level(e1) == 13 && Level(e2) >= 14
    requires Follows(r1, 13) && Follows(r2, 13)
    ensures !Meet(e1, e2, r1, r2)
    decreases |TokensOf(e1) + r1|, 19
  {
    hide TokensOf, WellFormed;
    if Meet(e1, e2, r1, r2) {
      PowStart(e1, r1);
      OneTree(14, e1.base, e2, [Sym(PowerOp)] + (TokensOf(e1.exponent) + r1), r2);
    }
  }

  // ---------------------------------------------------------------- operands

  lemma UnaryStart(e: Expr, r: seq<Token>)
    requires e.Unary? && WellFormed(e)
    ensures WellFormed(e.operand) && Level(e.operand) >= 14
    ensures var a := TokensOf(e) + r; a[0] == Sym(UnaryKind(e.uop)) && a[1..] == TokensOf(e.operand) + r
  {
  }

  lemma SameOperator(u1: UnaryOp, u2: UnaryOp)
    requires UnaryKind(u1) == UnaryKind(u2)
    ensures u1 == u2
  {
  }

  lemma OneUnary(e1: Expr, e2: Expr, r1: seq<Token>, r2: seq<Token>)
    requires WellFormed(e1) && WellFormed(e2) && Level(e1) >= 14 && Level(e2) >= 14
    requires (Level(e1) == 14 || Level(e2) == 14)
    requires Follows(r1, 14) && Follows(r2, 14) && Meet(e1, e2, r1, r2)
    ensures e1 == e2 && r1 == r2
    decreases |TokensOf(e1) + r1|, 17
  {
    hide WellFormed, TokensOf;
    if e1.Unary? && e2.Unary? {
      UnaryStart(e1, r1);
      UnaryStart(e2, r2);
      SameOperator(e1.uop, e2.uop);
      OneTree(14, e1.operand, e2.operand, r1, r2);
    } else if e1.Unary? {
      NotUnary(e1, e2, r1, r2);
    } else {
      NotUnary(e2, e1, r2, r1);
    }
  }

  lemma NotUnary(e1: Expr, e2: Expr, r1: seq<Token>, r2: seq<Token>)
    requires WellFormed(e1) && e1.Unary? && Level(e2) == 15
    ensures !Meet(e1, e2, r1, r2)
  {
    UnaryStart(e1, r1);
    assert (TokensOf(e2) + r2)[0] == TokensOf(e2)[0];
  }

  predicate Leaf(e: Expr) {
    e.Lit? || e.Var? || e.PreStep? || e.PostStep?
  }

  lemma LeafStart(e: Expr, r: seq<Token>)
    requires Leaf(e) && |r| > 0
    ensures var a := TokensOf(e) + r;
            match e
            case Lit(v) => a[0] == Number(v) && a[1..] == r
            case Var(x) => a[0] == Name(x) && a[1..] == r
            case PreStep(up, x) => a[0] == Sym(if up then PreInc else PreDec) && a[1] == Name(x) && a[2..] == r
            case PostStep(up, x) => a[0] == Name(x) && a[1] == Sym(if up then PostInc else PostDec) && a[2..] == r
  {
  }

  lemma ParenStart(e: Expr, r: seq<Token>)
    requires e.Paren?
    ensures var a := TokensOf(e) + r; a[0] == Sym(LParen) && a[1..] == TokensOf(e.inner) + ([Sym(RParen)] + r)
  {
    assert TokensOf(e) + r == [Sym(LParen)] + (TokensOf(e.inner) + ([Sym(RParen)] + r));
  }

  lemma OneLeaf(e1: Expr, e2: Expr, r1: seq<Token>, r2: seq<Token>)
    requires Leaf(e1) && Leaf(e2) && Follows(r1, 15) && Follows(r2, 15) && Meet(e1, e2, r1, r2)
    ensures e1 == e2 && r1 == r2
  {
    hide TokensOf;
    LeafStart(e1, r1);
    LeafStart(e2, r2);
    var a := TokensOf(e1) + r1;
    assert a[1..][0] == a[1];
  }

  lemma OneOperand(e1: Expr, e2: Expr, r1: seq<Token>, r2: seq<Token>)
    requires WellFormed(e1) && WellFormed(e2) && Level(e1) == 15 && Level(e2) == 15
    requires Follows(r1, 15) && Follows(r2, 15) && Meet(e1, e2, r1, r2)
    ensures e1 == e2 && r1 == r2
    decreases |TokensOf(e1) + r1|, 14
  {
    hide TokensOf;
    if Leaf(e1) && Leaf(e2) {
      OneLeaf(e1, e2, r1, r2);
    } else if e1.Paren? && e2.Paren? {
      ParenStart(e1, r1);
      ParenStart(e2, r2);
      var s1, s2 := [Sym(RParen)] + r1, [Sym(RParen)] + r2;
      OneTree(0, e1.inner, e2.inner, s1, s2);
      assert s1[1..] == r1 && s2[1..] == r2;
    } else if e1.Paren? {
      ParenStart(e1, r1);
      LeafStart(e2, r2);
    } else {
      ParenStart(e2, r2);
      LeafStart(e1, r1);
    }
  }

  /** No text has two trees. */
  lemma Unambiguous(e1: Expr, e2: Expr, s: string)
    requires IsTreeOf(e1, s) && IsTreeOf(e2, s)
    ensures e1 == e2
  {
    hide TokensOf, WellFormed, Lex;
    OneTree(0, e1, e2, [Sym(End)], [Sym(End)]);
  }

  // ---------------------------------------------------------------- trees outside of the documented grammar

  /** `% name op=`. */
  predicate RemainderAssigned(ts: seq<Token>, i: nat) {
    && i + 2 < |ts|
    && ts[i] == Sym(Bin(Mod)) && ts[i + 1].Name? && ts[i + 2].OpAsg?
  }

  ghost predicate Forgetful(ts: seq<Token>) {
    exists i: nat :: RemainderAssigned(ts, i)
  }

  lemma Prepend(t: Token, ts: seq<Token>)
    requires !Forgetful(ts)
    requires t == Sym(Bin(Mod)) && |ts| > 1 && ts[0].Name? ==> !ts[1].OpAsg?
    ensures !Forgetful([t] + ts)
  {
    var all := [t] + ts;
    if Forgetful(all) {
      var i: nat :| RemainderAssigned(all, i);
      if i == 0 {
        FirstRemainder(t, ts);
      } else {
        ShiftedRemainder(t, ts, i);
      }
    }
  }

  lemma FirstRemainder(t: Token, ts: seq<Token>)
    requires RemainderAssigned([t] + ts, 0)
    ensures t == Sym(Bin(Mod)) && |ts| > 1 && ts[0].Name? && ts[1].OpAsg?
  {
    var all := [t] + ts;
    assert all[1] == ts[0] && all[2] == ts[1];
  }

  lemma ShiftedRemainder(t: Token, ts: seq<Token>, i: nat)
    requires i > 0 && RemainderAssigned([t] + ts, i)
    ensures Forgetful(ts)
  {
    assert RemainderAssigned(ts, i - 1);
  }

  /** No expression of the documented grammar contains `% name op=`. */
  lemma {:induction false} TreeNotForgetful(e: Expr, rest: seq<Token>)
    requires WellFormed(e) && Regular(e) && !Forgetful(rest) && |rest| > 0 && !IsAssign(rest[0])
    ensures !Forgetful(TokensOf(e) + rest)
    decreases e
  {
    hide Forgetful, Level;
    match e
    case Lit(_) | Var(_) | PreStep(_, _) | PostStep(_, _) => AtomNotForgetful(e, rest);
    case Paren(_) | Unary(_, _) => PrefixNotForgetful(e, rest);
    case Assign(_, _, _) => AssignNotForgetful(e, rest);
    case Pow(l, r) => InfixNotForgetful(e, l, Sym(PowerOp), r, rest);
    case Binary(op, l, r) => InfixNotForgetful(e, l, Sym(Bin(op)), r, rest);
    case And(l, r) => InfixNotForgetful(e, l, Sym(LogAnd), r, rest);
    case Or(l, r) => InfixNotForgetful(e, l, Sym(LogOr), r, rest);
    case Sequence(l, r) => InfixNotForgetful(e, l, Sym(Comma), r, rest);
    case Conditional(_, _, _) => ConditionalNotForgetful(e, rest);
  }

  lemma AtomNotForgetful(e: Expr, rest: seq<Token>)
    requires e.Lit? || e.Var? || e.PreStep? || e.PostStep?
    requires !Forgetful(rest) && |rest| > 0 && !IsAssign(rest[0])
    ensures !Forgetful(TokensOf(e) + rest)
  {
    hide Forgetful;
    match e
    case Lit(v) => Prepend(Number(v), rest);
    case Var(x) => Prepend(Name(x), rest);
    case PreStep(up, x) =>
      var t := Sym(if up then PreInc else PreDec);
      Prepend(Name(x), rest);
      Prepend(t, [Name(x)] + rest);
      assert TokensOf(e) + rest == [t] + ([Name(x)] + rest);
    case PostStep(up, x) =>
      var t := Sym(if up then PostInc else PostDec);
      Prepend(t, rest);
      Prepend(Name(x), [t] + rest);
      assert TokensOf(e) + rest == [Name(x)] + ([t] + rest);
  }

  lemma PrefixNotForgetful(e: Expr, rest: seq<Token>)
    requires (e.Paren? || e.Unary?) && WellFormed(e) && Regular(e)
    requires !Forgetful(rest) && |rest| > 0 && !IsAssign(rest[0])
    ensures !Forgetful(TokensOf(e) + rest)
    decreases e, 0
  {
    hide Forgetful;
    match e
    case Paren(inner) =>
      Prepend(Sym(RParen), rest);
      TreeNotForgetful(inner, [Sym(RParen)] + rest);
      Prepend(Sym(LParen), TokensOf(inner) + ([Sym(RParen)] + rest));
      assert TokensOf(e) + rest == [Sym(LParen)] + (TokensOf(inner) + ([Sym(RParen)] + rest));
    case Unary(op, operand) =>
      TreeNotForgetful(operand, rest);
      Prepend(Sym(UnaryKind(op)), TokensOf(operand) + rest);
      assert TokensOf(e) + rest == [Sym(UnaryKind(op))] + (TokensOf(operand) + rest);
  }

  lemma AssignNotForgetful(e: Expr, rest: seq<Token>)
    requires e.Assign? && WellFormed(e) && Regular(e) && !Forgetful(rest) && |rest| > 0 && !IsAssign(rest[0])
    ensures !Forgetful(TokensOf(e) + rest)
    decreases e, 0
  {
    hide Forgetful;
    var t := AssignToken(e.aop);
    TreeNotForgetful(e.rhs, rest);
    Prepend(t, TokensOf(e.rhs) + rest);
    Prepend(Name(e.target), [t] + (TokensOf(e.rhs) + rest));
    assert TokensOf(e) + rest == [Name(e.target)] + ([t] + (TokensOf(e.rhs) + rest));
  }

  lemma InfixNotForgetful(e: Expr, l: Expr, t: Token, r: Expr, rest: seq<Token>)
    requires WellFormed(l) && WellFormed(r) && Regular(l) && Regular(r) && l < e && r < e
    requires !Forgetful(rest) && |rest| > 0 && !IsAssign(rest[0])
    requires !IsAssign(t) && (t == Sym(Bin(Mod)) ==> Level(r) >= 2)
    requires TokensOf(e) == TokensOf(l) + [t] + TokensOf(r)
    ensures !Forgetful(TokensOf(e) + rest)
    decreases e, 0
  {
    hide Forgetful, TokensOf, WellFormed;
    TreeNotForgetful(r, rest);
    if t == Sym(Bin(Mod)) {
      OperandStart(r, rest);
    }
    Prepend(t, TokensOf(r) + rest);
    TreeNotForgetful(l, [t] + (TokensOf(r) + rest));
    Associate3(TokensOf(l), [t], TokensOf(r), rest);
  }

  lemma ConditionalNotForgetful(e: Expr, rest: seq<Token>)
    requires e.Conditional? && WellFormed(e) && Regular(e) && !Forgetful(rest) && |rest| > 0 && !IsAssign(rest[0])
    ensures !Forgetful(TokensOf(e) + rest)
    decreases e, 0
  {
    var c, y, n := e.test, e.yes, e.no;
    assert TokensOf(e) == TokensOf(c) + [Sym(Quest)] + TokensOf(y) + [Sym(Colon)] + TokensOf(n);
    assert WellFormed(c) && WellFormed(y) && WellFormed(n) && Regular(c) && Regular(y) && Regular(n);
    hide Forgetful, TokensOf, WellFormed;
    TreeNotForgetful(n, rest);
    Prepend(Sym(Colon), TokensOf(n) + rest);
    var rest' := [Sym(Colon)] + (TokensOf(n) + rest);
    TreeNotForgetful(y, rest');
    Prepend(Sym(Quest), TokensOf(y) + rest');
    TreeNotForgetful(c, [Sym(Quest)] + (TokensOf(y) + rest'));
    Associate3(TokensOf(c) + [Sym(Quest)] + TokensOf(y), [Sym(Colon)], TokensOf(n), rest);
    Associate3(TokensOf(c), [Sym(Quest)], TokensOf(y), rest');
  }

  lemma EndNotForgetful()
    ensures !Forgetful([Sym(End)])
  {
  }

  lemma Inside(p: seq<Token>, ts: seq<Token>, q: seq<Token>)
    requires Forgetful(ts)
    ensures Forgetful(p + ts + q)
  {
    var i: nat :| RemainderAssigned(ts, i);
    assert RemainderAssigned(p + ts + q, |p| + i);
  }

  /** Every other tree contains `% name op=`. */
  lemma {:induction false} IrregularForgetful(e: Expr)
    requires !Regular(e)
    ensures Forgetful(TokensOf(e))
  {
    hide Forgetful;
    match e
    case Paren(inner) =>
      IrregularForgetful(inner);
      Inside([Sym(LParen)], TokensOf(inner), [Sym(RParen)]);
    case Unary(op, operand) =>
      IrregularForgetful(operand);
      AtEnd([Sym(UnaryKind(op))], TokensOf(operand));
    case Pow(l, r) => InfixForgetful(e, l, Sym(PowerOp), r);
    case Binary(op, l, r) => InfixForgetful(e, l, Sym(Bin(op)), r);
    case And(l, r) => InfixForgetful(e, l, Sym(LogAnd), r);
    case Or(l, r) => InfixForgetful(e, l, Sym(LogOr), r);
    case Sequence(l, r) => InfixForgetful(e, l, Sym(Comma), r);
    case Conditional(c, y, n) =>
      if Regular(n) {
        InfixForgetful(e, c, Sym(Quest), y);
        AtStart(TokensOf(c) + [Sym(Quest)] + TokensOf(y), [Sym(Colon)] + TokensOf(n));
        assert TokensOf(e) == (TokensOf(c) + [Sym(Quest)] + TokensOf(y)) + ([Sym(Colon)] + TokensOf(n));
      } else {
        IrregularForgetful(n);
        AtEnd(TokensOf(c) + [Sym(Quest)] + TokensOf(y) + [Sym(Colon)], TokensOf(n));
      }
    case Assign(x, op, r) =>
      IrregularForgetful(r);
      AtEnd([Name(x), AssignToken(op)], TokensOf(r));
    case Remainder(l, x, op, r) =>
      assert RemainderAssigned(TokensOf(e), |TokensOf(l)|);
      Found(TokensOf(e), |TokensOf(l)|);
  }

  lemma Found(ts: seq<Token>, i: nat)
    requires RemainderAssigned(ts, i)
    ensures Forgetful(ts)
  {
  }

  lemma AtEnd(p: seq<Token>, ts: seq<Token>)
    requires Forgetful(ts)
    ensures Forgetful(p + ts)
  {
    Inside(p, ts, []);
    assert p + ts + [] == p + ts;
  }

  lemma AtStart(ts: seq<Token>, q: seq<Token>)
    requires Forgetful(ts)
    ensures Forgetful(ts + q)
  {
    Inside([], ts, q);
    assert [] + ts + q == ts + q;
  }

  lemma InfixForgetful(e: Expr, l: Expr, t: Token, r: Expr)
    requires (!Regular(l) || !Regular(r)) && l < e && r < e
    ensures Forgetful(TokensOf(l) + [t] + TokensOf(r))
    decreases e, 0
  {
    hide Forgetful, TokensOf, Regular;
    if Regular(r) {
      IrregularForgetful(l);
      AtStart(TokensOf(l), [t] + TokensOf(r));
      assert TokensOf(l) + [t] + TokensOf(r) == TokensOf(l) + ([t] + TokensOf(r));
    } else {
      IrregularForgetful(r);
      AtEnd(TokensOf(l) + [t], TokensOf(r));
    }
  }

  /** A text has a tree outside of the documented grammar exactly when it has a tree and contains `% name op=`. */
  lemma RegularExactly(e: Expr, s: string)
    requires IsTreeOf(e, s)
    ensures Regular(e) <==> !Forgetful(Lex(s))
  {
    hide Forgetful, Lex, TokensOf, WellFormed, Regular;
    if Regular(e) {
      EndNotForgetful();
      TreeNotForgetful(e, [Sym(End)]);
    } else {
      IrregularForgetful(e);
      AtStart(TokensOf(e), [Sym(End)]);
    }
  }
}
