/** The precedence tree of an arithmetic expression and its value: the reference the evaluator is
    proved against. The tree says which operands belong to which operator; evaluation is left to right. */
module Trees {
  import opened Integers
  import opened Text
  import opened Options
  import opened Tokens
  import opened Exponent

  const MAX_DEPTH: nat := 1024

  datatype UnaryOp = Negate | Plus | LogNot | BitNot

  datatype Expr =
    | Lit(v: intmax)
    | Var(x: string)
    | Paren(inner: Expr)
    | PreStep(up: bool, x: string)
    | PostStep(up: bool, x: string)
    | Unary(uop: UnaryOp, operand: Expr)
    | Pow(base: Expr, exponent: Expr)
    | Binary(op: BinOp, left: Expr, right: Expr)
    | And(left: Expr, right: Expr)
    | Or(left: Expr, right: Expr)
    | Conditional(test: Expr, yes: Expr, no: Expr)
    | Assign(target: string, aop: Option<BinOp>, rhs: Expr)
    | Sequence(first: Expr, second: Expr)
    | Remainder(dividend: Expr, target: string, rop: BinOp, rhs: Expr)   // `dividend % target rop= rhs`

  /** The eight left-associative levels from `|` to `*`. */
  function OpLevel(op: BinOp): (k: nat)
    ensures k < 8
  {
    match op
    case BitOr => 0
    case BitXor => 1
    case BitAnd => 2
    case EqEq | NotEq => 3
    case LessEq | GreaterEq | Less | Greater => 4
    case ShiftLeft | ShiftRight => 5
    case Add | Sub => 6
    case Mul | Div | Mod => 7
  }

  /** How tightly the top of a tree binds, from the comma (0) to an operand (15). */
  function Level(e: Expr): (k: nat)
    ensures k <= 15
  {
    match e
    case Sequence(_, _) => 0
    case Assign(_, _, _) | Remainder(_, _, _, _) => 1
    case Conditional(_, _, _) => 2
    case Or(_, _) => 3
    case And(_, _) => 4
    case Binary(op, _, _) => 5 + OpLevel(op)
    case Pow(_, _) => 13
    case Unary(_, _) => 14
    case Lit(_) | Var(_) | Paren(_) | PreStep(_, _) | PostStep(_, _) => 15
  }

  /** The tree obeys precedence and associativity: everything else is parenthesized. Assignment, `?:`
      and `**` group to the right, every other binary operator to the left. A remainder in front of `op=` is no
      expression, but the evaluator may get past it: see Regular and Eval. */
  predicate WellFormed(e: Expr) {
    match e
    case Lit(_) => true
    case Var(x) => IsName(x)
    case PreStep(_, x) => IsName(x)
    case PostStep(_, x) => IsName(x)
    case Paren(inner) => WellFormed(inner)
    case Unary(_, operand) => WellFormed(operand) && Level(operand) >= 14
    case Pow(l, r) => WellFormed(l) && WellFormed(r) && Level(l) >= 14 && Level(r) >= 13
    case Binary(op, l, r) =>
      WellFormed(l) && WellFormed(r) && Level(l) >= 5 + OpLevel(op) && Level(r) >= 6 + OpLevel(op)
    case And(l, r) => WellFormed(l) && WellFormed(r) && Level(l) >= 4 && Level(r) >= 5
    case Or(l, r) => WellFormed(l) && WellFormed(r) && Level(l) >= 3 && Level(r) >= 4
    case Conditional(c, y, n) => WellFormed(c) && WellFormed(y) && WellFormed(n) && Level(c) >= 3 && Level(n) >= 2
    case Assign(x, op, r) => IsName(x) && WellFormed(r) && Level(r) >= 1 && (op.Some? ==> AssignableOp(op.value))
    case Sequence(l, r) => WellFormed(l) && WellFormed(r) && Level(r) >= 1
    case Remainder(l, x, op, r) =>
      WellFormed(l) && Level(l) >= 12 && IsName(x) && AssignableOp(op) && WellFormed(r) && Level(r) >= 1
  }

  /** A tree of the documented grammar, in which nothing but a name is assigned. */
  predicate Regular(e: Expr) {
    match e
    case Lit(_) | Var(_) | PreStep(_, _) | PostStep(_, _) => true
    case Paren(inner) => Regular(inner)
    case Unary(_, operand) => Regular(operand)
    case Pow(l, r) => Regular(l) && Regular(r)
    case Binary(_, l, r) => Regular(l) && Regular(r)
    case And(l, r) => Regular(l) && Regular(r)
    case Or(l, r) => Regular(l) && Regular(r)
    case Conditional(c, y, n) => Regular(c) && Regular(y) && Regular(n)
    case Assign(_, _, r) => Regular(r)
    case Sequence(l, r) => Regular(l) && Regular(r)
    case Remainder(_, _, _, _) => false
  }

  function UnaryKind(op: UnaryOp): Kind {
    match op
    case Negate => Bin(Sub)
    case Plus => Bin(Add)
    case LogNot => Not
    case BitNot => Compl
  }

  /** The tokens of a tree from left to right. */
  function TokensOf(e: Expr): (ts: seq<Token>)
    ensures |ts| > 0
  {
    match e
    case Lit(v) => [Number(v)]
    case Var(x) => [Name(x)]
    case Paren(inner) => [Sym(LParen)] + TokensOf(inner) + [Sym(RParen)]
    case PreStep(up, x) => [Sym(if up then PreInc else PreDec), Name(x)]
    case PostStep(up, x) => [Name(x), Sym(if up then PostInc else PostDec)]
    case Unary(op, operand) => [Sym(UnaryKind(op))] + TokensOf(operand)
    case Pow(l, r) => TokensOf(l) + [Sym(PowerOp)] + TokensOf(r)
    case Binary(op, l, r) => TokensOf(l) + [Sym(Bin(op))] + TokensOf(r)
    case And(l, r) => TokensOf(l) + [Sym(LogAnd)] + TokensOf(r)
    case Or(l, r) => TokensOf(l) + [Sym(LogOr)] + TokensOf(r)
    case Conditional(c, y, n) => TokensOf(c) + [Sym(Quest)] + TokensOf(y) + [Sym(Colon)] + TokensOf(n)
    case Assign(x, op, r) => [Name(x), if op.Some? then OpAsg(op.value) else Sym(Eq)] + TokensOf(r)
    case Sequence(l, r) => TokensOf(l) + [Sym(Comma)] + TokensOf(r)
    case Remainder(l, x, op, r) => TokensOf(l) + [Sym(Bin(Mod)), Name(x), OpAsg(op)] + TokensOf(r)
  }

  lemma Associate3(a: seq<Token>, b: seq<Token>, c: seq<Token>, d: seq<Token>)
    ensures (a + b + c) + d == a + (b + (c + d))
  {
  }

  /** `e` is a precedence tree of the text `s`. */
  predicate IsTreeOf(e: Expr, s: string) {
    WellFormed(e) && Lex(s) == TokensOf(e) + [Sym(End)]
  }

  ghost predicate HasTree(s: string) {
    exists e :: IsTreeOf(e, s)
  }

  ghost function TreeOf(s: string): (e: Expr)
    requires HasTree(s)
    ensures IsTreeOf(e, s)
  {
    var e :| IsTreeOf(e, s); e
  }

  predicate BlankText(s: string) {
    At(s, SkipBlank(s, 0)) == NUL
  }

  /** The variables an expression can read and write: texts by name, some of them read-only. */
  datatype Store = Store(vars: map<string, string>, readonly: set<string>)

  function Lookup(st: Store, x: string): string {
    if x in st.vars then st.vars[x] else ""
  }

  /** Assigns the decimal text of `v`; None is an attempt to change a read-only variable. */
  function Bind(st: Store, x: string, v: intmax): Option<Store> {
    if x in st.readonly then None else Some(st.(vars := st.vars[x := Itos(v)]))
  }

  function Truth(b: bool): intmax {
    if b then 1 else 0
  }

  /** A binary operator on two values; None is a division by zero. */
  function Compute(op: BinOp, a: intmax, b: intmax): Option<intmax> {
    match op
    case BitOr => Some(BitOp64(OrBits, a, b))
    case BitXor => Some(BitOp64(XorBits, a, b))
    case BitAnd => Some(BitOp64(AndBits, a, b))
    case EqEq => Some(Truth(a == b))
    case NotEq => Some(Truth(a != b))
    case LessEq => Some(Truth(a <= b))
    case GreaterEq => Some(Truth(a >= b))
    case Less => Some(Truth(a < b))
    case Greater => Some(Truth(a > b))
    case ShiftLeft => Some(ShiftLeftBy(a, ShiftCount(b)))
    case ShiftRight => Some(ShiftRightBy(a, ShiftCount(b)))
    case Add => Some(Wrap(a + b))
    case Sub => Some(Wrap(a - b))
    case Mul => Some(Wrap(a * b))
    case Div => if b == 0 then None else if a == INTMAX_MIN && b == -1 then Some(INTMAX_MIN) else Some(TruncDiv(a, b))
    case Mod => if b == 0 then None else if a == INTMAX_MIN && b == -1 then Some(0) else Some(TruncRem(a, b))
  }

  function ComputeUnary(op: UnaryOp, a: intmax): intmax {
    match op
    case Negate => Wrap(0 - a)
    case Plus => a
    case LogNot => Truth(a == 0)
    case BitNot => (0 - a - 1) as intmax
  }

  /** The outcome of an evaluation: a value and the store it leaves; an error and the store at the error;
      or a text that has no tree, which is an error somewhere. */
  datatype Outcome = Value(v: intmax, store: Store) | Failure(error: Error, store: Store) | Malformed {
    predicate IsFailure() {
      !Value?
    }

    function PropagateFailure(): Outcome
      requires !Value?
    {
      this
    }

    function Extract(): (intmax, Store)
      requires Value?
    {
      (v, store)
    }
  }

  function Assigned(st: Store, x: string, v: intmax, result: intmax): Outcome {
    match Bind(st, x, v)
    case None => Failure(ReadOnly, st)
    case Some(st') => Value(result, st')
  }

  /** An operand that is not evaluated only has to be an expression. */
  function Skipped(e: Expr, st: Store): Outcome {
    if Regular(e) then Value(0, st) else Failure(Syntax, st)
  }

  /** The value of a tree, evaluated from left to right in a store. `depth` counts the texts being
      evaluated: a variable is read by evaluating its text one level deeper. After INTMAX_MIN % -1 the evaluator
      has forgotten that the name was an operand and assigns it; every other remainder in front of `op=` is an
      error once it has been computed. */
  ghost function Eval(e: Expr, st: Store, depth: nat): Outcome
    requires depth <= MAX_DEPTH
    decreases MAX_DEPTH - depth, 1, e
  {
    match e
    case Lit(v) => Value(v, st)
    case Var(x) => EvalText(Lookup(st, x), st, depth)
    case Paren(inner) => Eval(inner, st, depth)
    case PreStep(up, x) =>
      var (v, st1) :- EvalText(Lookup(st, x), st, depth);
      var v1 := Wrap(if up then v + 1 else v - 1);
      Assigned(st1, x, v1, v1)
    case PostStep(up, x) =>
      var (v, st1) :- EvalText(Lookup(st, x), st, depth);
      Assigned(st1, x, Wrap(if up then v + 1 else v - 1), v)
    case Unary(op, operand) =>
      var (v, st1) :- Eval(operand, st, depth);
      Value(ComputeUnary(op, v), st1)
    case Pow(l, r) =>
      var (a, st1) :- Eval(l, st, depth);
      var (b, st2) :- Eval(r, st1, depth);
      if b < 0 then Failure(NegativeExponent, st2) else Value(Wrap(Power(a, b)), st2)
    case Binary(op, l, r) =>
      var (a, st1) :- Eval(l, st, depth);
      var (b, st2) :- Eval(r, st1, depth);
      (match Compute(op, a, b)
       case None => Failure(DivisionByZero, st2)
       case Some(v) => Value(v, st2))
    case And(l, r) =>
      var (a, st1) :- Eval(l, st, depth);
      if a == 0 then Skipped(r, st1)
      else
        var (b, st2) :- Eval(r, st1, depth);
        Value(Truth(b != 0), st2)
    case Or(l, r) =>
      var (a, st1) :- Eval(l, st, depth);
      if a != 0 then
        var (_, st2) :- Skipped(r, st1);
        Value(1, st2)
      else
        var (b, st2) :- Eval(r, st1, depth);
        Value(Truth(b != 0), st2)
    case Conditional(c, y, n) =>
      var (t, st1) :- Eval(c, st, depth);
      if t != 0 then
        var (v, st2) :- Eval(y, st1, depth);
        var (_, st3) :- Skipped(n, st2);
        Value(v, st3)
      else
        var (_, st2) :- Skipped(y, st1);
        Eval(n, st2, depth)
    case Assign(x, None, r) =>
      var (v, st1) :- Eval(r, st, depth);
      Assigned(st1, x, v, v)
    case Assign(x, Some(op), r) =>
      var (a, st1) :- EvalText(Lookup(st, x), st, depth);
      var (b, st2) :- Eval(r, st1, depth);
      (match Compute(op, a, b)
       case None => Failure(DivisionByZero, st2)
       case Some(v) => Assigned(st2, x, v, v))
    case Sequence(l, r) =>
      var (_, st1) :- Eval(l, st, depth);
      Eval(r, st1, depth)
    case Remainder(l, x, op, r) =>
      var (a, st1) :- Eval(l, st, depth);
      var (b, st2) :- EvalText(Lookup(st1, x), st1, depth);
      if b == 0 then Failure(DivisionByZero, st2)
      else if a != INTMAX_MIN || b != -1 then Failure(Syntax, st2)
      else
        var (c, st3) :- Eval(r, st2, depth);
        (match Compute(op, 0, c)
         case None => Failure(DivisionByZero, st3)
         case Some(v) => Assigned(st3, x, v, v))
  }

  /** The value of a text: blank text is 0, and at most 1024 texts are evaluated inside one another. */
  ghost function EvalText(s: string, st: Store, depth: nat): Outcome
    requires depth <= MAX_DEPTH
    decreases MAX_DEPTH - depth, 0
  {
    if BlankText(s) then Value(0, st)
    else if depth >= MAX_DEPTH then Failure(TooDeep, st)
    else if HasTree(s) then Eval(TreeOf(s), st, depth + 1)
    else Malformed
  }
}
