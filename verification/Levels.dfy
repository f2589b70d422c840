/** The evaluator seen level by level: an operand is read with its first token and then climbs through
    the levels of precedence, and each loop turn reads one operator and one operand. */
module Levels {
  import opened Integers
  import opened Options
  import opened Tokens
  import opened Trees
  import opened Exponent
  import opened Machine
  import opened Reading

  /** Where a token stands in the precedence levels when it follows an operand; End, `)` and `:` end
      every level, and a token that cannot follow an operand is above all of them. */
  function TokenLevel(t: Token): int {
    match t
    case OpAsg(_) => 1
    case Sym(k) => (
      match k
      case End | RParen | Colon => -1
      case Comma => 0
      case Eq => 1
      case Quest => 2
      case LogOr => 3
      case LogAnd => 4
      case Bin(op) => 5 + OpLevel(op)
      case PowerOp => 13
      case _ => 99)
    case _ => 99
  }

  /** The next token belongs to a looser level than `k`. */
  predicate Looser(rest: seq<Token>, k: int) {
    |rest| > 0 && TokenLevel(rest[0]) < k <= 20
  }

  /** `rest` may follow an evaluated operand of level `k`: only a lone name may stand before `=`. */
  predicate Follows(rest: seq<Token>, k: int) {
    Looser(rest, k) && rest[0] != Sym(Eq)
  }

  lemma LooserOperator(rest: seq<Token>, k: int)
    requires Looser(rest, k)
    ensures Operator(rest[0]) && !rest[0].BadToken?
    ensures KindOf(rest[0]) !in {Str, Num, PreInc, PreDec, PostInc, PostDec}
  {
  }

  lemma FollowsOperator(rest: seq<Token>, k: int)
    requires Follows(rest, k)
    ensures Operator(rest[0]) && rest[0] != Sym(Eq) && !rest[0].BadToken?
    ensures KindOf(rest[0]) !in {Str, Num, PreInc, PreDec, PostInc, PostDec, Eq}
  {
  }

  /** The evaluator's function for a level, entered on the first token of the operand. */
  function Exp(k: nat, m: State): (r: Result)
    requires Valid(m) && k <= 15
    ensures Keeps(m, r) && Forward(m, r)
  {
    match k
    case 0 => ExpComma(m)
    case 1 => ExpAssign(m)
    case 2 => ExpCond(m)
    case 3 => ExpLor(m)
    case 4 => ExpLand(m)
    case 13 => ExpPower(m)
    case 14 => ExpUnary(m)
    case 15 => Exp0(m)
    case _ => ExpBinary(k - 5, m)
  }

  /** Read the first token, then evaluate a level. A variable is read with its token. */
  function Run(k: nat, m: State): (r: Result)
    requires Valid(m) && k <= 15
    ensures Keeps(m, r)
  {
    var (_, m1) :- ReadTok(m);
    Exp(k, m1)
  }

  lemma ReadNameUnfold(m: State, x: string)
    requires Valid(m) && Scan(m.text, m.tp, ScanPrev(m.cur, m.last)).token == Name(x)
    ensures var next := Scan(m.text, m.tp, ScanPrev(m.cur, m.last)).next;
            ReadTok(m) == (
              var (_, peek) :- ReadTok(m.(tp := next, cur := Str, noeval := 1, tokstr := None));
              var m1 := m.(tokstr := Some(x), assignTok := peek.assignTok, tp := next);
              if IsPre(m.last) || peek.cur != Eq then
                var (v, m2) :- StreVal(x, m1);
                Ok(0, m2.(tokval := v, cur := Str, last := m.cur))
              else
                Ok(0, m1.(tokval := 0, cur := Str, last := m.cur)))
  {
    hide StreVal, Scan;
  }

  lemma FirstToken(e: Expr)
    requires WellFormed(e)
    ensures var t := TokensOf(e)[0];
            || t.Name? || t.Number?
            || (t.Sym? && (t.kind in {LParen, PreInc, PreDec} || (UnaryOf(t.kind).Some? && Level(e) <= 14)))
  {
  }

  predicate LeftLevel(k: nat) {
    k == 0 || 3 <= k <= 12
  }

  /** The loop of a left-associative level. */
  function Loop(k: nat, r: Result): Result
    requires LeftLevel(k)
    requires r.Ok? ==> Valid(r.m)
  {
    if r.Err? then r
    else
      match k
      case 0 => CommaLoop(r.v, r.m)
      case 3 => LorLoop(r.v, r.m)
      case 4 => LandLoop(r.v, r.m)
      case _ => BinaryLoop(k - 5, r.v, r.m)
  }

  lemma OperandExp(k: nat, m: State)
    requires Valid(m) && k < 8
    ensures Operand(k, m) == Exp(k + 6, m)
  {
    hide ReadTok, ExpPower, ExpBinary;
  }

  lemma BinaryExpLoop(k: nat, m: State)
    requires Valid(m) && k < 8
    ensures ExpBinary(k, m) == Loop(k + 5, Operand(k, m))
  {
    hide ReadTok, ExpPower, BinaryLoop, Operand;
  }

  lemma LorExpLoop(m: State)
    requires Valid(m)
    ensures ExpLor(m) == Loop(3, ExpLand(m))
  {
    hide ReadTok, ExpLand, LorLoop;
  }

  lemma LandExpLoop(m: State)
    requires Valid(m)
    ensures ExpLand(m) == Loop(4, ExpBinary(0, m))
  {
    hide ReadTok, ExpBinary, LandLoop;
  }

  lemma CommaExpLoop(m: State)
    requires Valid(m)
    ensures ExpComma(m) == Loop(0, ExpAssign(m))
  {
    hide ReadTok, ExpAssign, CommaLoop;
  }

  /** Each left-associative level is its operand followed by its loop. */
  lemma ExpLoop(k: nat, m: State)
    requires Valid(m) && LeftLevel(k)
    ensures Exp(k, m) == Loop(k, Exp(k + 1, m))
  {
    hide ReadTok, ExpComma, ExpAssign, ExpLor, ExpLand, ExpBinary, Operand, Loop;
    if k == 0 {
      CommaExpLoop(m);
    } else if k == 3 {
      LorExpLoop(m);
    } else if k == 4 {
      LandExpLoop(m);
    } else {
      BinaryExpLoop(k - 5, m);
      OperandExp(k - 5, m);
    }
  }

  lemma RunLoop(k: nat, m: State)
    requires Valid(m) && LeftLevel(k)
    ensures Run(k, m) == Loop(k, Run(k + 1, m))
  {
    hide ReadTok, Exp;
    if ReadTok(m).Ok? {
      ExpLoop(k, ReadTok(m).m);
    }
  }

  /** No loop is entered on a token of a looser level. */
  lemma LoopStops(k: nat, r: Result)
    requires LeftLevel(k) && (r.Ok? ==> Valid(r.m))
    requires r.Ok? ==> exists t :: Head(r.m, t) && Operator(t) && TokenLevel(t) < k
    ensures Loop(k, r) == r
  {
    hide ReadTok, ExpAssign, ExpLand, ExpBinary, Operand;
  }

  lemma PowerStops(m: State)
    requires Valid(m)
    ensures ExpUnary(m).Ok? && ExpUnary(m).m.cur != PowerOp ==> ExpPower(m) == ExpUnary(m)
  {
    hide ReadTok, ExpUnary;
  }

  lemma UnaryStops(m: State)
    requires Valid(m)
    ensures UnaryOf(m.cur).None? ==> ExpUnary(m) == Exp0(m)
    ensures ExpLor(m).Ok? && ExpLor(m).m.cur != Quest ==> ExpCond(m) == ExpLor(m)
    ensures ExpCond(m).Ok? && ExpCond(m).m.cur !in {Eq, OpAssign} ==> ExpAssign(m) == ExpCond(m)
    ensures ExpUnary(m).Err? ==> ExpPower(m) == ExpUnary(m)
    ensures ExpLor(m).Err? ==> ExpCond(m) == ExpLor(m)
    ensures ExpCond(m).Err? ==> ExpAssign(m) == ExpCond(m)
  {
    hide ReadTok, Exp0, ExpLor;
  }

  lemma DescendExp(k: nat, m: State, r: Result, rest: seq<Token>)
    requires Valid(m) && k < 15 && Looser(rest, k)
    requires r == Exp(k + 1, m) && (r.Ok? ==> Ahead(r.m, rest))
    requires k == 14 ==> UnaryOf(m.cur).None?
    ensures Exp(k, m) == r
  {
    hide ReadTok, LexFrom, Scan, ExpComma, ExpAssign, ExpCond, ExpLor, ExpLand, ExpBinary, ExpPower, ExpUnary, Exp0,
      Loop;
    LooserOperator(rest, k);
    if LeftLevel(k) {
      ExpLoop(k, m);
      LoopStops(k, r);
    } else {
      UnaryStops(m);
      PowerStops(m);
    }
  }

  function OperatorToken(e: Expr): Token
    requires LeftLevel(Level(e))
  {
    match e
    case Sequence(_, _) => Sym(Comma)
    case Or(_, _) => Sym(LogOr)
    case And(_, _) => Sym(LogAnd)
    case Binary(op, _, _) => Sym(Bin(op))
  }

  function LeftOf(e: Expr): Expr
    requires LeftLevel(Level(e))
  {
    match e
    case Sequence(l, _) => l
    case Or(l, _) => l
    case And(l, _) => l
    case Binary(_, l, _) => l
  }

  function RightOf(e: Expr): Expr
    requires LeftLevel(Level(e))
  {
    match e
    case Sequence(_, r) => r
    case Or(_, r) => r
    case And(_, r) => r
    case Binary(_, _, r) => r
  }

  lemma LeftParts(e: Expr)
    requires LeftLevel(Level(e))
    ensures TokensOf(e) == TokensOf(LeftOf(e)) + [OperatorToken(e)] + TokensOf(RightOf(e))
    ensures WellFormed(e) <==> WellFormed(LeftOf(e)) && WellFormed(RightOf(e))
                               && Level(LeftOf(e)) >= Level(e) && Level(RightOf(e)) >= Level(e) + 1
  {
  }

  /** Whether the value of the left operand suppresses the right one. */
  predicate Suppresses(e: Expr, v: intmax) {
    (e.And? && v == 0) || (e.Or? && v != 0)
  }

  /** The end of a turn: the operator applied to the left value and the result of the right operand. */
  function Finish(e: Expr, v: intmax, r2: Result): (r: Result)
    requires LeftLevel(Level(e))
    requires r2.Ok? && Suppresses(e, v) ==> r2.m.noeval > 0
  {
    var (v2, m2) :- r2;
    match e
    case Sequence(_, _) => Ok(v2, m2)
    case Or(_, _) => Ok(Truth(v != 0 || v2 != 0), Resume(m2, v != 0).(last := LogOr))
    case And(_, _) => Ok(Truth(v != 0 && v2 != 0), Resume(m2, v == 0).(last := LogAnd))
    case Binary(op, _, _) =>
      (match BinStep(op, v, v2, m2.noeval)
       case None => Err(DivisionByZero, m2.store)
       case Some(value) => Ok(value, m2.(last := LastAfter(op, v, v2, m2.last))))
  }

  /** One turn of the loop: from the operator behind the left operand to the end of the right operand. */
  function Turn(e: Expr, v: intmax, m: State): (r: Result)
    requires Valid(m) && LeftLevel(Level(e))
    ensures Keeps(m, r)
  {
    hide Exp, ReadTok;
    Finish(e, v, Run(Level(e) + 1, Suppress(m, Suppresses(e, v))))
  }

  lemma LoopTurn(e: Expr, v: intmax, m: State)
    requires Valid(m) && LeftLevel(Level(e)) && Head(m, OperatorToken(e))
    ensures Loop(Level(e), Ok(v, m)) == Loop(Level(e), Turn(e, v, m))
  {
    hide ReadTok, ExpAssign, ExpLand, ExpBinary, Operand, Compute;
    match e
    case Binary(op, _, _) => BinaryTurn(e, v, m);
    case Sequence(_, _) =>
    case Or(_, _) =>
    case And(_, _) =>
  }

  lemma BinaryTurn(e: Expr, v: intmax, m: State)
    requires Valid(m) && e.Binary? && Head(m, OperatorToken(e))
    ensures Loop(Level(e), Ok(v, m)) == Loop(Level(e), Turn(e, v, m))
  {
    hide ReadTok, ExpAssign, ExpLand, ExpBinary, Operand, Compute, Exp;
    if ReadTok(m).Ok? {
      OperandExp(OpLevel(e.op), ReadTok(m).m);
    }
  }

  lemma Exp0Num(m: State)
    requires Valid(m) && m.cur == Num
    ensures Exp0(m) == var (_, m1) :- ReadTok(m); Ok(m.tokval, m1)
  {
    hide ReadTok;
  }

  lemma Exp0Str(m: State)
    requires Valid(m)
    ensures m.cur == Str ==> Exp0(m) == NameOperand(m)
    ensures IsPre(m.cur) ==> Exp0(m) == StepName(m)
  {
    hide ReadTok, ExpComma, NameOperand, StepName;
  }

  lemma Exp0Paren(m: State)
    requires Valid(m) && m.cur == LParen
    ensures Exp0(m) == (
      var (v, m2) :- Run(0, m);
      if m2.cur != RParen then Err(Syntax, m2.store)
      else
        var (_, m3) :- ReadTok(m2);
        Ok(v, m3))
  {
    hide ReadTok, ExpComma;
  }

  lemma StepNameFails(m: State)
    requires Valid(m) && IsPre(m.cur)
    ensures var r := ReadTok(m.(last := m.cur));
            && (r.Err? ==> StepName(m) == r)
            && (r.Ok? && r.m.cur != Str ==> StepName(m) == Err(Syntax, r.m.store))
  {
    hide ReadTok, BindStep, Wrap;
  }

  lemma StepNameUnfold(m: State, m1: State, b: Result)
    requires Valid(m) && IsPre(m.cur)
    requires ReadTok(m.(last := m.cur)).Ok? && m1 == ReadTok(m.(last := m.cur)).m && m1.cur == Str && Valid(m1)
    requires b == BindStep(m1.tokstr, Wrap(if m.cur == PreInc then m1.tokval + 1 else m1.tokval - 1), m1)
    requires b.Ok? ==> Valid(b.m)
    ensures StepName(m) == if b.Err? then b else var (_, m3) :- ReadTok(b.m.(cur := Num)); Ok(b.v, m3)
  {
    hide ReadTok, BindStep, Wrap, IsPre, Forward;
  }

  /** Stepping a variable up or down and storing it. */
  lemma StepBinds(x: string, v: intmax, m: State)
    requires Valid(m) && x != ""
    ensures var r := BindStep(Some(x), v, m);
            if m.noeval > 0 then r == Ok(v, m)
            else match Bind(m.store, x, v)
                 case None => r == Err(ReadOnly, m.store)
                 case Some(st) => r == Ok(v, m.(store := st))
  {
  }

  lemma ExpUnaryUnfold(m: State, op: UnaryOp)
    requires Valid(m) && UnaryOf(m.cur) == Some(op)
    ensures ExpUnary(m) == var (v, m2) :- Run(14, m); Ok(ComputeUnary(op, v), m2.(last := Num))
  {
    hide ReadTok, Exp0, ComputeUnary, ExpPower, ExpComma;
  }

  lemma RunPowerUnfold(m: State)
    requires Valid(m)
    ensures Run(13, m) == var (v, m1) :- Run(14, m); PowerLoop(v, m1)
  {
    hide ReadTok, ExpUnary, PowerLoop;
  }

  lemma PowerLoopUnfold(v: intmax, m: State)
    requires Valid(m) && m.cur == PowerOp
    ensures PowerLoop(v, m) == (
              var (v2, m2) :- Run(13, m);
              var m3 := m2.(last := Num);
              if m3.noeval != 0 then PowerLoop(1, m3)
              else if v2 == 0 then Ok(1, m3)
              else if v2 < 0 then Err(NegativeExponent, m3.store)
              else PowerLoop(Wrap(Power(v, v2)), m3))
  {
    hide ReadTok, ExpPower, Power;
  }

  lemma PowerLoopEnds(v: intmax, m: State)
    requires Valid(m) && m.cur != PowerOp
    ensures PowerLoop(v, m) == Ok(v, m)
  {
    hide ReadTok, ExpPower, Power;
  }

  /** From the `?` to the end of the conditional, when the first token behind `?` begins an operand. */
  function CondStep(c: intmax, m: State): Result
    requires Valid(m)
  {
    var (v1, m3) :- Run(0, Suppress(m, c == 0));
    if m3.cur != Colon then Err(Syntax, m3.store)
    else
      var (v2, m5) :- Run(2, Suppress(Resume(m3, c == 0), c != 0));
      Ok(if c != 0 then v1 else v2, Resume(m5, c != 0).(last := CondMark))
  }

  lemma RunCondUnfold(m: State)
    requires Valid(m)
    ensures Run(2, m) == (
              var (c, m1) :- Run(3, m);
              if m1.cur != Quest then Ok(c, m1) else CondTail(c, m1))
  {
    hide ReadTok, ExpLor, CondTail;
  }

  lemma CondTailStep(c: intmax, m: State)
    requires Valid(m) && m.cur == Quest
    requires ReadTok(Suppress(m, c == 0)).Ok? ==> ReadTok(Suppress(m, c == 0)).m.cur !in {End, Colon}
    requires Run(0, Suppress(m, c == 0)).Ok? ==>
               var p := Suppress(Resume(Run(0, Suppress(m, c == 0)).m, c == 0), c != 0);
               ReadTok(p).Ok? ==> ReadTok(p).m.cur != End
    ensures CondTail(c, m) == CondStep(c, m)
  {
    hide ReadTok, ExpComma, ExpCond;
  }

  lemma CondStepUnfold(c: intmax, m: State)
    requires Valid(m)
    ensures CondStep(c, m) == (
              var (v1, m3) :- Run(0, Suppress(m, c == 0));
              if m3.cur != Colon then Err(Syntax, m3.store)
              else
                var (v2, m5) :- Run(2, Suppress(Resume(m3, c == 0), c != 0));
                Ok(if c != 0 then v1 else v2, Resume(m5, c != 0).(last := CondMark)))
  {
    hide Run;
  }

  lemma ExpOperand(m: State)
    requires Valid(m)
    ensures Exp(15, m) == Exp0(m) && Exp(2, m) == ExpCond(m) && Exp(1, m) == ExpAssign(m)
  {
    hide ReadTok, Exp0, ExpCond, ExpAssign;
  }

  /** From the assignment operator on: the right side, the operation, the binding. */
  function AssignTail(v: intmax, m1: State): Result
    requires Valid(m1)
  {
    var (rhs, m3) :- Run(1, m1);
    var value := if m1.cur == OpAssign then BinStep(m1.assignTok, v, rhs, m3.noeval) else Some(rhs);
    if value.None? then Err(DivisionByZero, m3.store)
    else
      var (v4, m4) :- BindStep(m1.tokstr, value.value, m3);
      Ok(v4, m4.(tokstr := None))
  }

  lemma ExpAssignUnfold(m: State)
    requires Valid(m) && ExpCond(m).Ok?
    requires var m1 := ExpCond(m).m; m1.cur in {Eq, OpAssign} && m1.last == Str && m1.tokstr.Some?
    ensures ExpAssign(m) == AssignTail(ExpCond(m).v, ExpCond(m).m)
  {
    hide ReadTok, ExpCond, BinStep, BindStep;
  }

  predicate AssignNext(m: State) {
    m.cur == Eq || m.cur == OpAssign
  }

  lemma RunAssignUnfold(m: State)
    requires Valid(m)
    ensures Run(1, m) == (
              var (v, m1) :- Run(2, m);
              if !AssignNext(m1) then Ok(v, m1)
              else if m1.last != Str || m1.tokstr.None? then Err(Syntax, m1.store)
              else AssignTail(v, m1))
  {
    hide ReadTok, ExpCond, BinStep, BindStep;
  }

  function AssignToken(aop: Option<BinOp>): Token {
    if aop.Some? then OpAsg(aop.value) else Sym(Eq)
  }

  lemma BinStepMeans(op: BinOp, a: intmax, b: intmax, noeval: nat)
    ensures noeval == 0 ==> BinStep(op, a, b, noeval) == Compute(op, a, b)
  {
    hide Compute;
  }
}
