/** The one-pass evaluator as a function on its state: every step reads tokens, computes and assigns
    at once, with one token of lookahead and a counter that suppresses evaluation. */
module Machine {
  import opened Integers
  import opened Options
  import opened Tokens
  import opened Trees
  import opened Exponent

  /** The file-level state of the evaluator inside one text. */
  datatype State = State(
    text: string, tp: nat, cur: Kind, last: Kind,
    assignTok: BinOp, tokval: intmax, tokstr: Option<string>,
    noeval: nat, depth: nat, store: Store)

  predicate Valid(m: State) {
    m.tp <= |m.text| && m.depth <= MAX_DEPTH
  }

  /** A normal return with a value, or the jump out of the evaluation. */
  datatype Result = Ok(v: intmax, m: State) | Err(error: Error, store: Store) {
    predicate IsFailure() {
      Err?
    }

    function PropagateFailure(): Result
      requires Err?
    {
      this
    }

    function Extract(): (intmax, State)
      requires Ok?
    {
      (v, m)
    }
  }

  /** The scanner's view of curtok and lasttok. */
  function ScanPrev(cur: Kind, last: Kind): Prev {
    if cur == Str then AfterName
    else if cur == Num && IsPre(last) then AfterPreName
    else if IsPre(cur) then AfterPre
    else AfterOther
  }

  /** Characters not yet read, counting the current token. */
  function Remaining(m: State): int {
    |m.text| - m.tp + (if m.cur == End then 0 else 1)
  }

  predicate SyntaxError(e: Error) {
    e == Syntax || e == Subscripted
  }

  /** What every step keeps: the text, the depth and the suppression counter; it moves forward; and while
      evaluation is suppressed it binds nothing and fails only on syntax. */
  predicate Keeps(m: State, r: Result) {
    match r
    case Ok(_, m') =>
      && Valid(m')
      && m'.text == m.text && m'.depth == m.depth && m'.noeval == m.noeval
      && (m.noeval > 0 ==> m'.store == m.store)
    case Err(e, st) => m.noeval > 0 ==> st == m.store && SyntaxError(e)
  }

  predicate Forward(m: State, r: Result) {
    r.Ok? ==> Remaining(r.m) <= Remaining(m)
  }

  /** readtok: the next token becomes the current one. A name is followed by a peek at the token behind it,
      with evaluation suppressed, and is then read as a variable unless it is about to be assigned. */
  function ReadTok(m: State): (r: Result)
    requires Valid(m)
    ensures Keeps(m, r)
    ensures r.Ok? ==> Remaining(r.m) <= |m.text| - m.tp
    decreases MAX_DEPTH - m.depth, |m.text| - m.tp, 0
  {
    var sc := Scan(m.text, m.tp, ScanPrev(m.cur, m.last));
    match sc.token
    case BadToken(e) => Err(e, m.store)
    case Sym(k) => Ok(0, m.(tp := sc.next, cur := k, last := m.cur))
    case OpAsg(op) => Ok(0, m.(tp := sc.next, cur := OpAssign, last := m.cur, assignTok := op))
    case Number(v) => Ok(0, m.(tp := sc.next, cur := Num, last := m.cur, tokval := v))
    case Name(x) =>
      var (_, peek) :- ReadTok(m.(tp := sc.next, cur := Str, noeval := 1, tokstr := None));
      var m1 := m.(tokstr := Some(x), assignTok := peek.assignTok);
      if IsPre(m1.last) || peek.cur != Eq then
        var (v, m2) :- StreVal(x, m1.(tp := sc.next));
        Ok(0, m2.(tokval := v, cur := Str, last := m.cur))
      else
        Ok(0, m1.(tp := sc.next, tokval := 0, cur := Str, last := m.cur))
  }

  /** expr_streval: the value of a variable is the value of its text; nothing is read while suppressed. */
  function StreVal(x: string, m: State): (r: Result)
    requires Valid(m)
    ensures Keeps(m, r)
    ensures r.Ok? ==> r.m == m.(store := r.m.store, assignTok := r.m.assignTok)
    decreases MAX_DEPTH - m.depth, |m.text| - m.tp, 2
  {
    if m.noeval != 0 then Ok(0, m)
    else SubExpr(Lookup(m.store, x), m)
  }

  /** subexpr: evaluates a whole text one level deeper and comes back to the state of entry. */
  function SubExpr(s: string, m: State): (r: Result)
    requires Valid(m)
    requires m.noeval == 0
    ensures Keeps(m, r)
    ensures r.Ok? ==> r.m == m.(store := r.m.store, assignTok := r.m.assignTok)
    decreases MAX_DEPTH - m.depth, |m.text| - m.tp, 1
  {
    if BlankText(s) then Ok(0, m)
    else if m.depth >= MAX_DEPTH then Err(TooDeep, m.store)
    else
      var (_, m1) :- ReadTok(Entered(s, m));
      var (v, m2) :- ExpComma(m1);
      if m2.cur != End then Err(Syntax, m2.store)
      else Ok(v, m.(store := m2.store, assignTok := m2.assignTok))
  }

  /** The fresh state in which a nested text is evaluated. */
  function Entered(s: string, m: State): State {
    State(s, 0, End, End, m.assignTok, 0, None, m.noeval, m.depth + 1, m.store)
  }

  function ExpComma(m: State): (r: Result)
    requires Valid(m)
    ensures Keeps(m, r) && Forward(m, r)
    decreases MAX_DEPTH - m.depth, Remaining(m), 50
  {
    var (v, m1) :- ExpAssign(m);
    CommaLoop(v, m1)
  }

  function CommaLoop(v: intmax, m: State): (r: Result)
    requires Valid(m)
    ensures Keeps(m, r) && Forward(m, r)
    decreases MAX_DEPTH - m.depth, Remaining(m), 3
  {
    if m.cur != Comma then Ok(v, m)
    else
      var (_, m1) :- ReadTok(m);
      var (v1, m2) :- ExpAssign(m1);
      CommaLoop(v1, m2)
  }

  /** The arithmetic of `op=`: while suppressed, a zero divisor counts as 1. */
  function BinStep(op: BinOp, a: intmax, b: intmax, noeval: nat): (r: Option<intmax>)
    ensures noeval > 0 ==> r.Some?
  {
    Compute(op, a, if op in {Div, Mod} && b == 0 && noeval > 0 then 1 else b)
  }

  /** expr_bind_variable and what follows it: no binding while suppressed. */
  function BindStep(x: Option<string>, v: intmax, m: State): (r: Result)
    requires Valid(m)
    ensures Keeps(m, r)
    ensures r.Ok? ==> r.m == m.(store := r.m.store)
  {
    if m.noeval != 0 || x.None? || x.value == "" then Ok(v, m)
    else
      match Bind(m.store, x.value, v)
      case None => Err(ReadOnly, m.store)
      case Some(st) => Ok(v, m.(store := st))
  }

  function ExpAssign(m: State): (r: Result)
    requires Valid(m)
    ensures Keeps(m, r) && Forward(m, r)
    decreases MAX_DEPTH - m.depth, Remaining(m), 49
  {
    var (v, m1) :- ExpCond(m);
    if m1.cur != Eq && m1.cur != OpAssign then Ok(v, m1)
    else if m1.last != Str || m1.tokstr.None? then Err(Syntax, m1.store)
    else
      var (_, m2) :- ReadTok(m1);
      var (rhs, m3) :- ExpAssign(m2);
      var value := if m1.cur == OpAssign then BinStep(m1.assignTok, v, rhs, m3.noeval) else Some(rhs);
      if value.None? then Err(DivisionByZero, m3.store)
      else
        var (v4, m4) :- BindStep(m1.tokstr, value.value, m3);
        Ok(v4, m4.(tokstr := None))
  }

  function Suppress(m: State, suppress: bool): State {
    if suppress then m.(noeval := m.noeval + 1) else m
  }

  function Resume(m: State, suppress: bool): State
    requires suppress ==> m.noeval > 0
  {
    if suppress then m.(noeval := m.noeval - 1) else m
  }

  function ExpCond(m: State): (r: Result)
    requires Valid(m)
    ensures Keeps(m, r) && Forward(m, r)
    decreases MAX_DEPTH - m.depth, Remaining(m), 48
  {
    var (c, m1) :- ExpLor(m);
    if m1.cur != Quest then Ok(c, m1) else CondTail(c, m1)
  }

  /** From the `?` on: the branch not taken is evaluated suppressed. */
  function CondTail(c: intmax, m: State): (r: Result)
    requires Valid(m) && m.cur == Quest
    ensures Keeps(m, r) && Forward(m, r)
    decreases MAX_DEPTH - m.depth, Remaining(m), 4
  {
    var (_, m1) :- ReadTok(Suppress(m, c == 0));
    if m1.cur == End || m1.cur == Colon then Err(Syntax, m1.store)
    else
      var (v1, m2) :- ExpComma(m1);
      if m2.cur != Colon then Err(Syntax, m2.store)
      else
        var (v2, m4) :- ElseTail(Suppress(Resume(m2, c == 0), c != 0));
        Ok(if c != 0 then v1 else v2, Resume(m4, c != 0).(last := CondMark))
  }

  /** From the `:` on. */
  function ElseTail(m: State): (r: Result)
    requires Valid(m) && m.cur == Colon
    ensures Keeps(m, r) && Forward(m, r)
    decreases MAX_DEPTH - m.depth, Remaining(m), 4
  {
    var (_, m1) :- ReadTok(m);
    if m1.cur == End then Err(Syntax, m1.store) else ExpCond(m1)
  }

  function ExpLor(m: State): (r: Result)
    requires Valid(m)
    ensures Keeps(m, r) && Forward(m, r)
    decreases MAX_DEPTH - m.depth, Remaining(m), 47
  {
    var (v, m1) :- ExpLand(m);
    LorLoop(v, m1)
  }

  function LorLoop(v: intmax, m: State): (r: Result)
    requires Valid(m)
    ensures Keeps(m, r) && Forward(m, r)
    decreases MAX_DEPTH - m.depth, Remaining(m), 3
  {
    if m.cur != LogOr then Ok(v, m)
    else
      var (_, m1) :- ReadTok(Suppress(m, v != 0));
      var (v2, m2) :- ExpLand(m1);
      LorLoop(Truth(v != 0 || v2 != 0), Resume(m2, v != 0).(last := LogOr))
  }

  function ExpLand(m: State): (r: Result)
    requires Valid(m)
    ensures Keeps(m, r) && Forward(m, r)
    decreases MAX_DEPTH - m.depth, Remaining(m), 46
  {
    var (v, m1) :- ExpBinary(0, m);
    LandLoop(v, m1)
  }

  function LandLoop(v: intmax, m: State): (r: Result)
    requires Valid(m)
    ensures Keeps(m, r) && Forward(m, r)
    decreases MAX_DEPTH - m.depth, Remaining(m), 3
  {
    if m.cur != LogAnd then Ok(v, m)
    else
      var (_, m1) :- ReadTok(Suppress(m, v == 0));
      var (v2, m2) :- ExpBinary(0, m1);
      LandLoop(Truth(v != 0 && v2 != 0), Resume(m2, v == 0).(last := LogAnd))
  }

  /** expbor, expbxor, expband, expeq, expcompare, expshift, expaddsub and expmuldiv: the eight
      left-associative levels share one shape, an operand and a loop over the operators of the level. */
  function ExpBinary(k: nat, m: State): (r: Result)
    requires Valid(m) && k < 8
    ensures Keeps(m, r) && Forward(m, r)
    decreases MAX_DEPTH - m.depth, Remaining(m), 40 - 2 * k
  {
    var (v, m1) :- Operand(k, m);
    BinaryLoop(k, v, m1)
  }

  /** The next tighter level. */
  function Operand(k: nat, m: State): (r: Result)
    requires Valid(m) && k < 8
    ensures Keeps(m, r) && Forward(m, r)
    decreases MAX_DEPTH - m.depth, Remaining(m), 39 - 2 * k
  {
    if k == 7 then ExpPower(m) else ExpBinary(k + 1, m)
  }

  /** expmuldiv leaves lasttok alone in exactly one case: INTMAX_MIN % -1. */
  function LastAfter(op: BinOp, a: intmax, b: intmax, last: Kind): Kind {
    if op == Mod && a == INTMAX_MIN && b == -1 then last else Num
  }

  function BinaryLoop(k: nat, v: intmax, m: State): (r: Result)
    requires Valid(m) && k < 8
    ensures Keeps(m, r) && Forward(m, r)
    decreases MAX_DEPTH - m.depth, Remaining(m), 3
  {
    if !(m.cur.Bin? && OpLevel(m.cur.op) == k) then Ok(v, m)
    else
      var op := m.cur.op;
      var (_, m1) :- ReadTok(m);
      var (v2, m2) :- Operand(k, m1);
      var value := BinStep(op, v, v2, m2.noeval);
      if value.None? then Err(DivisionByZero, m2.store)
      else BinaryLoop(k, value.value, m2.(last := LastAfter(op, v, v2, m2.last)))
  }

  function ExpPower(m: State): (r: Result)
    requires Valid(m)
    ensures Keeps(m, r) && Forward(m, r)
    decreases MAX_DEPTH - m.depth, Remaining(m), 20
  {
    var (v, m1) :- ExpUnary(m);
    PowerLoop(v, m1)
  }

  function PowerLoop(v: intmax, m: State): (r: Result)
    requires Valid(m)
    ensures Keeps(m, r) && Forward(m, r)
    decreases MAX_DEPTH - m.depth, Remaining(m), 3
  {
    if m.cur != PowerOp then Ok(v, m)
    else
      var (_, m1) :- ReadTok(m);
      var (v2, m2) :- ExpPower(m1);
      var m3 := m2.(last := Num);
      if m3.noeval != 0 then PowerLoop(1, m3)
      else if v2 == 0 then Ok(1, m3)
      else if v2 < 0 then Err(NegativeExponent, m3.store)
      else PowerLoop(Wrap(Power(v, v2)), m3)
  }

  function UnaryOf(k: Kind): Option<UnaryOp> {
    match k
    case Not => Some(LogNot)
    case Compl => Some(BitNot)
    case Bin(Sub) => Some(Negate)
    case Bin(Add) => Some(Plus)
    case _ => None
  }

  function ExpUnary(m: State): (r: Result)
    requires Valid(m)
    ensures Keeps(m, r) && Forward(m, r)
    decreases MAX_DEPTH - m.depth, Remaining(m), 19
  {
    match UnaryOf(m.cur)
    case None => Exp0(m)
    case Some(op) =>
      var (_, m1) :- ReadTok(m);
      var (v, m2) :- ExpUnary(m1);
      Ok(ComputeUnary(op, v), m2.(last := Num))
  }

  function Exp0(m: State): (r: Result)
    requires Valid(m)
    ensures Keeps(m, r) && Forward(m, r)
    decreases MAX_DEPTH - m.depth, Remaining(m), 18
  {
    match m.cur
    case PreInc | PreDec => StepName(m)
    case LParen =>
      var (_, m1) :- ReadTok(m);
      var (v, m2) :- ExpComma(m1);
      if m2.cur != RParen then Err(Syntax, m2.store)
      else
        var (_, m3) :- ReadTok(m2);
        Ok(v, m3)
    case Num =>
      var (_, m1) :- ReadTok(m);
      Ok(m.tokval, m1)
    case Str => NameOperand(m)
    case _ => Err(Syntax, m.store)
  }

  /** `++name` and `--name`: the stepped value is bound and is the value of the operand. */
  function StepName(m: State): (r: Result)
    requires Valid(m) && IsPre(m.cur)
    ensures Keeps(m, r) && Forward(m, r)
    decreases MAX_DEPTH - m.depth, Remaining(m), 4
  {
    var (_, m1) :- ReadTok(m.(last := m.cur));
    if m1.cur != Str then Err(Syntax, m1.store)
    else
      var (v, m2) :- BindStep(m1.tokstr, Wrap(if m.cur == PreInc then m1.tokval + 1 else m1.tokval - 1), m1);
      var (_, m3) :- ReadTok(m2.(cur := Num));
      Ok(v, m3)
  }

  /** A name: a peek behind it tells whether it is stepped afterwards; otherwise the peek is undone. */
  function NameOperand(m: State): (r: Result)
    requires Valid(m) && m.cur == Str
    ensures Keeps(m, r) && Forward(m, r)
    decreases MAX_DEPTH - m.depth, Remaining(m), 4
  {
    var (_, peek) :- ReadTok(m.(tokstr := None, noeval := 1));
    var (_, m1) :- AfterPeek(m, peek);
    var (_, m2) :- ReadTok(m1);
    Ok(m.tokval, m2)
  }

  /** What the token behind a name decides: step and bind the variable, or go back to the name. */
  function AfterPeek(m: State, peek: State): (r: Result)
    requires Valid(m) && Valid(peek)
    requires peek.text == m.text && peek.depth == m.depth && peek.store == m.store
    ensures Keeps(m, r)
    ensures r.Ok? ==> r.m.tp in {m.tp, peek.tp} && r.m.cur in {m.cur, Num}
  {
    if peek.cur == PostInc || peek.cur == PostDec then
      var m1 := peek.(tokstr := m.tokstr, noeval := m.noeval, last := Str);
      var step := Wrap(if peek.cur == PostInc then m.tokval + 1 else m.tokval - 1);
      var (_, m2) :- BindStep(m.tokstr, step, m1);
      Ok(0, m2.(cur := Num))
    else
      Ok(0, m.(assignTok := peek.assignTok))
  }
}
