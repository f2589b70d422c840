/** Which operands belong to which operator: the precedence groups as expr.c documents them, and the one tree of every
    text with two operators between three operands. */
module Precedence {
  import opened Options
  import opened Tokens
  import opened Trees
  import opened Levels
  import opened Grammar

  /** The infix operators, from the groups that bind most loosely to the one that binds most tightly. The conditional
      and the assignments, which have other shapes, come between the first and the second group. */
  const Groups: seq<set<Kind>> := [
    {Comma},
    {LogOr},
    {LogAnd},
    {Bin(BitOr)},
    {Bin(BitXor)},
    {Bin(BitAnd)},
    {Bin(EqEq), Bin(NotEq)},
    {Bin(LessEq), Bin(GreaterEq), Bin(Less), Bin(Greater)},
    {Bin(ShiftLeft), Bin(ShiftRight)},
    {Bin(Add), Bin(Sub)},
    {Bin(Mul), Bin(Div), Bin(Mod)},
    {PowerOp}]

  predicate IsInfix(p: Kind) {
    p == Comma || p == LogOr || p == LogAnd || p == PowerOp || p.Bin?
  }

  /** The group of `q` binds more tightly than that of `p`. */
  predicate Tighter(q: Kind, p: Kind) {
    exists i, j :: 0 <= i < j < |Groups| && p in Groups[i] && q in Groups[j]
  }

  /** Exponentiation groups to the right, every other operator to the left. */
  predicate GroupsRight(p: Kind, q: Kind) {
    Tighter(q, p) || (p == PowerOp && q == PowerOp)
  }

  function Join(p: Kind, l: Expr, r: Expr): Expr
    requires IsInfix(p)
  {
    match p
    case Comma => Sequence(l, r)
    case LogOr => Or(l, r)
    case LogAnd => And(l, r)
    case PowerOp => Pow(l, r)
    case Bin(op) => Binary(op, l, r)
  }

  /** A number, a variable, something in parentheses, or a variable stepped up or down. */
  predicate Operand(e: Expr) {
    WellFormed(e) && (e.Lit? || e.Var? || e.Paren? || e.PreStep? || e.PostStep?)
  }

  // ---------------------------------------------------------------- groups and levels

  function Rank(p: Kind): nat
    requires IsInfix(p)
  {
    match p
    case Comma => 0
    case LogOr => 1
    case LogAnd => 2
    case PowerOp => 11
    case Bin(op) => 3 + OpLevel(op)
  }

  lemma RankInGroups(p: Kind, i: nat)
    requires IsInfix(p) && i < |Groups|
    ensures Rank(p) < |Groups| && (p in Groups[i] <==> i == Rank(p))
  {
  }

  lemma TighterByRank(q: Kind, p: Kind)
    requires IsInfix(p) && IsInfix(q)
    ensures Tighter(q, p) <==> Rank(p) < Rank(q)
  {
    hide Rank;
    if Tighter(q, p) {
      RankIfTighter(q, p);
    }
    RankInGroups(p, if Rank(p) < |Groups| then Rank(p) else 0);
    RankInGroups(q, if Rank(q) < |Groups| then Rank(q) else 0);
  }

  lemma RankIfTighter(q: Kind, p: Kind)
    requires IsInfix(p) && IsInfix(q) && Tighter(q, p)
    ensures Rank(p) < Rank(q)
  {
    hide Rank, IsInfix;
    var i, j :| 0 <= i < j < |Groups| && p in Groups[i] && q in Groups[j];
    RankInGroups(p, i);
    RankInGroups(q, j);
  }

  /** The level of an operator in trees. */
  function LevelOf(p: Kind): nat
    requires IsInfix(p)
  {
    if Rank(p) == 0 then 0 else Rank(p) + 2
  }

  lemma JoinedLevel(p: Kind, l: Expr, r: Expr)
    requires IsInfix(p)
    ensures Level(Join(p, l, r)) == LevelOf(p)
  {
    hide OpLevel;
    match p
    case Bin(_) =>
    case Comma =>
    case LogOr =>
    case LogAnd =>
    case PowerOp =>
  }

  lemma JoinedTokens(p: Kind, l: Expr, r: Expr)
    requires IsInfix(p)
    ensures TokensOf(Join(p, l, r)) == TokensOf(l) + [Sym(p)] + TokensOf(r)
  {
  }

  lemma BinaryWell(op: BinOp, l: Expr, r: Expr)
    ensures WellFormed(Binary(op, l, r)) <==>
              WellFormed(l) && WellFormed(r) && Level(l) >= 5 + OpLevel(op) && Level(r) >= 6 + OpLevel(op)
  {
    hide OpLevel, Level;
  }

  lemma OtherWell(p: Kind, l: Expr, r: Expr)
    requires IsInfix(p) && !p.Bin?
    ensures WellFormed(Join(p, l, r)) <==>
              && WellFormed(l) && WellFormed(r)
              && (if p == PowerOp then Level(l) >= 14 && Level(r) >= 13
                  else Level(l) >= LevelOf(p) && Level(r) > LevelOf(p))
  {
    hide OpLevel, Level;
  }

  /** What may stand at either side of an operator. */
  lemma JoinedWell(p: Kind, l: Expr, r: Expr)
    requires IsInfix(p)
    ensures Level(Join(p, l, r)) == LevelOf(p)
    ensures TokensOf(Join(p, l, r)) == TokensOf(l) + [Sym(p)] + TokensOf(r)
    ensures WellFormed(Join(p, l, r)) <==>
              && WellFormed(l) && WellFormed(r)
              && (if p == PowerOp then Level(l) >= 14 && Level(r) >= 13
                  else Level(l) >= LevelOf(p) && Level(r) > LevelOf(p))
  {
    hide OpLevel, Level, TokensOf, WellFormed;
    JoinedLevel(p, l, r);
    JoinedTokens(p, l, r);
    if p.Bin? {
      BinaryWell(p.op, l, r);
    } else {
      OtherWell(p, l, r);
    }
  }

  lemma OperandLevel(e: Expr)
    requires Operand(e)
    ensures Level(e) == 15 && WellFormed(e)
  {
  }

  /** A text with the tokens of a tree has that tree and no other. */
  lemma NoOther(e: Expr, s: string)
    requires WellFormed(e) && Lex(s) == TokensOf(e) + [Sym(End)]
    ensures HasTree(s) && TreeOf(s) == e
  {
    hide Lex, TokensOf, WellFormed;
    assert IsTreeOf(e, s);
    Unambiguous(e, TreeOf(s), s);
  }

  // ---------------------------------------------------------------- two infix operators

  lemma JoinedRight(a: Expr, p: Kind, b: Expr, q: Kind, c: Expr)
    requires Operand(a) && Operand(b) && Operand(c) && IsInfix(p) && IsInfix(q) && GroupsRight(p, q)
    ensures var e := Join(p, a, Join(q, b, c));
            WellFormed(e) && TokensOf(e) == TokensOf(a) + [Sym(p)] + TokensOf(b) + [Sym(q)] + TokensOf(c)
  {
    hide TokensOf, WellFormed, Tighter, Level, Join, Rank, Operand;
    OperandsLevel(a, b, c);
    TighterByRank(q, p);
    RankOfPower(p);
    RankOfPower(q);
    JoinedWell(q, b, c);
    JoinedWell(p, a, Join(q, b, c));
    Associate3(TokensOf(a) + [Sym(p)], TokensOf(b), [Sym(q)], TokensOf(c));
  }

  lemma JoinedLeft(a: Expr, p: Kind, b: Expr, q: Kind, c: Expr)
    requires Operand(a) && Operand(b) && Operand(c) && IsInfix(p) && IsInfix(q) && !GroupsRight(p, q)
    ensures var e := Join(q, Join(p, a, b), c);
            WellFormed(e) && TokensOf(e) == TokensOf(a) + [Sym(p)] + TokensOf(b) + [Sym(q)] + TokensOf(c)
  {
    hide TokensOf, WellFormed, Tighter, Level, Join, Rank, Operand;
    OperandsLevel(a, b, c);
    TighterByRank(q, p);
    RankOfPower(p);
    RankOfPower(q);
    JoinedWell(p, a, b);
    JoinedWell(q, Join(p, a, b), c);
  }

  lemma OperandsLevel(a: Expr, b: Expr, c: Expr)
    requires Operand(a) && Operand(b) && Operand(c)
    ensures Level(a) == Level(b) == Level(c) == 15 && WellFormed(a) && WellFormed(b) && WellFormed(c)
  {
    hide Level, WellFormed, Operand;
    OperandLevel(a);
    OperandLevel(b);
    OperandLevel(c);
  }

  /** `a p b q c`, for all operands and all infix operators: the second operator takes the middle operand exactly when
      its group binds more tightly, or when both are exponentiations. */
  lemma Grouping(a: Expr, p: Kind, b: Expr, q: Kind, c: Expr, s: string)
    requires Operand(a) && Operand(b) && Operand(c) && IsInfix(p) && IsInfix(q)
    requires Lex(s) == TokensOf(a) + [Sym(p)] + TokensOf(b) + [Sym(q)] + TokensOf(c) + [Sym(End)]
    ensures HasTree(s)
    ensures TreeOf(s) == if GroupsRight(p, q) then Join(p, a, Join(q, b, c)) else Join(q, Join(p, a, b), c)
  {
    hide Lex, TokensOf, WellFormed, GroupsRight, Operand, Join;
    if GroupsRight(p, q) {
      JoinedRight(a, p, b, q, c);
      NoOther(Join(p, a, Join(q, b, c)), s);
    } else {
      JoinedLeft(a, p, b, q, c);
      NoOther(Join(q, Join(p, a, b), c), s);
    }
  }

  lemma RankOfPower(p: Kind)
    requires IsInfix(p)
    ensures Rank(p) <= 11 && (Rank(p) == 11 <==> p == PowerOp)
  {
  }

  // ---------------------------------------------------------------- unary operators

  /** `u a p b`: a unary operator takes only its operand, before every infix operator. */
  lemma UnaryFirst(u: UnaryOp, a: Expr, p: Kind, b: Expr, s: string)
    requires Operand(a) && Operand(b) && IsInfix(p)
    requires Lex(s) == [Sym(UnaryKind(u))] + TokensOf(a) + [Sym(p)] + TokensOf(b) + [Sym(End)]
    ensures HasTree(s) && TreeOf(s) == Join(p, Unary(u, a), b)
  {
    UnaryTokens(u, a);
    hide Lex, TokensOf, WellFormed, Join;
    OperandLevel(a);
    OperandLevel(b);
    JoinedWell(p, Unary(u, a), b);
    NoOther(Join(p, Unary(u, a), b), s);
  }

  /** `a p u b`: and behind every infix operator. */
  lemma UnarySecond(a: Expr, p: Kind, u: UnaryOp, b: Expr, s: string)
    requires Operand(a) && Operand(b) && IsInfix(p)
    requires Lex(s) == TokensOf(a) + [Sym(p)] + ([Sym(UnaryKind(u))] + TokensOf(b)) + [Sym(End)]
    ensures HasTree(s) && TreeOf(s) == Join(p, a, Unary(u, b))
  {
    UnaryTokens(u, b);
    hide Lex, TokensOf, WellFormed, Join;
    OperandLevel(a);
    OperandLevel(b);
    JoinedWell(p, a, Unary(u, b));
    NoOther(Join(p, a, Unary(u, b)), s);
  }

  lemma UnaryTokens(u: UnaryOp, a: Expr)
    requires Operand(a)
    ensures TokensOf(Unary(u, a)) == [Sym(UnaryKind(u))] + TokensOf(a)
    ensures WellFormed(Unary(u, a)) && Level(Unary(u, a)) == 14
  {
  }

  // ---------------------------------------------------------------- the conditional

  lemma ConditionalTokens(c: Expr, y: Expr, n: Expr)
    ensures TokensOf(Conditional(c, y, n)) == TokensOf(c) + [Sym(Quest)] + TokensOf(y) + [Sym(Colon)] + TokensOf(n)
    ensures Level(Conditional(c, y, n)) == 2
    ensures WellFormed(Conditional(c, y, n)) <==>
              WellFormed(c) && WellFormed(y) && WellFormed(n) && Level(c) >= 3 && Level(n) >= 2
  {
  }

  lemma FlattenThree(a: seq<Token>, b: seq<Token>, c: seq<Token>, d: seq<Token>)
    ensures a + (b + c + d) == a + b + c + d
  {
  }

  lemma FlattenFive(a: seq<Token>, b: seq<Token>, c: seq<Token>, d: seq<Token>, e: seq<Token>, f: seq<Token>)
    ensures a + (b + c + d + e + f) == a + b + c + d + e + f
  {
    FlattenThree(a, b + c + d, e, f);
    FlattenThree(a, b, c, d);
  }

  /** `a p b ? y : n`: every infix operator but the comma binds more tightly than the conditional; anything may stand
      between `?` and `:`. */
  lemma TestOfConditional(a: Expr, p: Kind, b: Expr, y: Expr, n: Expr, s: string)
    requires Operand(a) && Operand(b) && WellFormed(y) && Operand(n) && IsInfix(p)
    requires Lex(s) == TokensOf(a) + [Sym(p)] + TokensOf(b) + [Sym(Quest)] + TokensOf(y) + [Sym(Colon)] + TokensOf(n)
                       + [Sym(End)]
    ensures HasTree(s)
    ensures TreeOf(s) == if p == Comma then Sequence(a, Conditional(b, y, n)) else Conditional(Join(p, a, b), y, n)
  {
    hide Lex, TokensOf, WellFormed, Join, Level, Rank;
    OperandLevel(a);
    OperandLevel(b);
    OperandLevel(n);
    LooseLevel(p);
    var e: Expr;
    if p == Comma {
      e := Join(p, a, Conditional(b, y, n));
      ConditionalTokens(b, y, n);
      JoinedWell(p, a, Conditional(b, y, n));
      JoinComma(a, Conditional(b, y, n));
    } else {
      e := Conditional(Join(p, a, b), y, n);
      JoinedWell(p, a, b);
      ConditionalTokens(Join(p, a, b), y, n);
    }
    FlattenFive(TokensOf(a) + [Sym(p)], TokensOf(b), [Sym(Quest)], TokensOf(y), [Sym(Colon)], TokensOf(n));
    NoOther(e, s);
  }

  /** `c ? y : a p b`: also behind the `:`. */
  lemma EndOfConditional(c: Expr, y: Expr, a: Expr, p: Kind, b: Expr, s: string)
    requires Operand(c) && WellFormed(y) && Operand(a) && Operand(b) && IsInfix(p)
    requires Lex(s) == TokensOf(c) + [Sym(Quest)] + TokensOf(y) + [Sym(Colon)] + TokensOf(a) + [Sym(p)] + TokensOf(b)
                       + [Sym(End)]
    ensures HasTree(s)
    ensures TreeOf(s) == if p == Comma then Sequence(Conditional(c, y, a), b) else Conditional(c, y, Join(p, a, b))
  {
    hide Lex, TokensOf, WellFormed, Join, Level, Rank;
    OperandLevel(a);
    OperandLevel(b);
    OperandLevel(c);
    LooseLevel(p);
    var e: Expr;
    if p == Comma {
      e := Join(p, Conditional(c, y, a), b);
      ConditionalTokens(c, y, a);
      JoinedWell(p, Conditional(c, y, a), b);
      JoinComma(Conditional(c, y, a), b);
    } else {
      e := Conditional(c, y, Join(p, a, b));
      JoinedWell(p, a, b);
      ConditionalTokens(c, y, Join(p, a, b));
    }
    FlattenThree(TokensOf(c) + [Sym(Quest)] + TokensOf(y) + [Sym(Colon)], TokensOf(a), [Sym(p)], TokensOf(b));
    NoOther(e, s);
  }

  /** `c ? y : d ? z : n`: conditionals group to the right. */
  lemma ConditionalsNest(c: Expr, y: Expr, d: Expr, z: Expr, n: Expr, s: string)
    requires Operand(c) && WellFormed(y) && Operand(d) && WellFormed(z) && Operand(n)
    requires Lex(s) == TokensOf(c) + [Sym(Quest)] + TokensOf(y) + [Sym(Colon)]
                       + (TokensOf(d) + [Sym(Quest)] + TokensOf(z) + [Sym(Colon)] + TokensOf(n)) + [Sym(End)]
    ensures HasTree(s) && TreeOf(s) == Conditional(c, y, Conditional(d, z, n))
  {
    hide Lex, TokensOf, WellFormed, Level;
    OperandLevel(c);
    OperandLevel(d);
    OperandLevel(n);
    ConditionalTokens(d, z, n);
    ConditionalTokens(c, y, Conditional(d, z, n));
    NoOther(Conditional(c, y, Conditional(d, z, n)), s);
  }

  lemma LooseLevel(p: Kind)
    requires IsInfix(p)
    ensures LevelOf(p) == 0 <==> p == Comma
    ensures p != Comma ==> 3 <= LevelOf(p) <= 13
  {
  }

  lemma JoinComma(l: Expr, r: Expr)
    ensures Join(Comma, l, r) == Sequence(l, r)
  {
  }

  // ---------------------------------------------------------------- assignments

  lemma AssignTokens(x: string, aop: Option<BinOp>, r: Expr)
    requires IsName(x) && (aop.Some? ==> AssignableOp(aop.value))
    ensures TokensOf(Assign(x, aop, r)) == [Name(x), AssignToken(aop)] + TokensOf(r)
    ensures Level(Assign(x, aop, r)) == 1
    ensures WellFormed(Assign(x, aop, r)) <==> WellFormed(r) && Level(r) >= 1
  {
  }

  /** `x = a p b`: every infix operator but the comma binds more tightly than an assignment. */
  lemma RightOfAssignment(x: string, aop: Option<BinOp>, a: Expr, p: Kind, b: Expr, s: string)
    requires IsName(x) && (aop.Some? ==> AssignableOp(aop.value)) && Operand(a) && Operand(b) && IsInfix(p)
    requires Lex(s) == [Name(x), AssignToken(aop)] + TokensOf(a) + [Sym(p)] + TokensOf(b) + [Sym(End)]
    ensures HasTree(s)
    ensures TreeOf(s) == if p == Comma then Sequence(Assign(x, aop, a), b) else Assign(x, aop, Join(p, a, b))
  {
    hide Lex, TokensOf, WellFormed, Join, Level, Rank, IsName;
    OperandLevel(a);
    OperandLevel(b);
    LooseLevel(p);
    var e: Expr;
    if p == Comma {
      e := Join(p, Assign(x, aop, a), b);
      AssignTokens(x, aop, a);
      JoinedWell(p, Assign(x, aop, a), b);
      JoinComma(Assign(x, aop, a), b);
    } else {
      e := Assign(x, aop, Join(p, a, b));
      JoinedWell(p, a, b);
      AssignTokens(x, aop, Join(p, a, b));
    }
    assert TokensOf(e) == [Name(x), AssignToken(aop)] + TokensOf(a) + [Sym(p)] + TokensOf(b);
    NoOther(e, s);
  }

  /** `x = y = a`, with any assignment operators: assignments group to the right; and `x = c ? y : n` assigns the
      conditional. */
  lemma AssignmentsNest(x: string, aop: Option<BinOp>, r: Expr, s: string)
    requires IsName(x) && (aop.Some? ==> AssignableOp(aop.value)) && WellFormed(r) && (r.Assign? || r.Conditional?)
    requires Lex(s) == [Name(x), AssignToken(aop)] + TokensOf(r) + [Sym(End)]
    ensures HasTree(s) && TreeOf(s) == Assign(x, aop, r)
  {
    AssignTokens(x, aop, r);
    hide Lex, TokensOf, WellFormed, IsName;
    NoOther(Assign(x, aop, r), s);
  }

  /** `a , x = b`: the comma is looser than an assignment on its right, too. */
  lemma CommaThenAssignment(a: Expr, x: string, aop: Option<BinOp>, b: Expr, s: string)
    requires IsName(x) && (aop.Some? ==> AssignableOp(aop.value)) && Operand(a) && Operand(b)
    requires Lex(s) == TokensOf(a) + [Sym(Comma)] + ([Name(x), AssignToken(aop)] + TokensOf(b)) + [Sym(End)]
    ensures HasTree(s) && TreeOf(s) == Sequence(a, Assign(x, aop, b))
  {
    hide Lex, TokensOf, WellFormed, Join, Level, Rank, IsName;
    OperandLevel(b);
    OperandLevel(a);
    AssignTokens(x, aop, b);
    LooseLevel(Comma);
    JoinedWell(Comma, a, Assign(x, aop, b));
    JoinComma(a, Assign(x, aop, b));
    NoOther(Join(Comma, a, Assign(x, aop, b)), s);
  }
}
