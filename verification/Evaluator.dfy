/** The evaluator in the source's form: file-level variables, token reading, a stack of saved contexts,
    loops. Every method is proved equal to the function of the same name on the state. */
module Evaluator {
  import opened Integers
  import opened Text
  import opened Numbers
  import opened Options
  import opened Tokens
  import opened Trees
  import opened Exponent
  import opened Machine
  import Levels
  import Arithmetic

  /** A normal return with a value, or the jump to the end of evalexp. */
  datatype Return = Normal(v: intmax) | Jump(error: Error)

  /** What pushexp saves. */
  datatype Context = Context(
    expression: string, tp: nat, curtok: Kind, lasttok: Kind, tokval: intmax, tokstr: Option<string>, noeval: nat)

  method ScanBlank(s: string, i: nat) returns (j: nat)
    requires i <= |s|
    ensures j == SkipBlank(s, i)
  {
    j := i;
    while IsBlank(At(s, j))
      invariant j <= |s| && SkipBlank(s, j) == SkipBlank(s, i)
      decreases |s| - j
    {
      j := j + 1;
    }
  }

  method ScanName(s: string, i: nat) returns (j: nat)
    requires i <= |s|
    ensures j == NameEnd(s, i)
  {
    j := i;
    while NameChar(At(s, j))
      invariant j <= |s| && NameEnd(s, j) == NameEnd(s, i)
      decreases |s| - j
    {
      j := j + 1;
    }
  }

  method ScanNumber(s: string, i: nat) returns (j: nat)
    requires i <= |s|
    ensures j == NumberSpan(s, i)
  {
    j := i;
    while j < |s| && (ValidNumChar(s[j]) || s[j] == '#')
      invariant j <= |s| && NumberSpan(s, j) == NumberSpan(s, i)
      decreases |s| - j
    {
      j := j + 1;
    }
  }

  /** The lexical part of readtok. */
  method ScanToken(s: string, i: nat, prev: Prev) returns (r: Scanned)
    requires i <= |s|
    ensures r == Scan(s, i, prev)
  {
    hide ScanOperator, NumberValue, SkipBlank, NameEnd, NumberSpan;
    var b := ScanBlank(s, i);
    var c := At(s, b);
    if c == NUL {
      r := Scanned(Sym(End), b);
    } else if NameStart(c) {
      var e := ScanName(s, b);
      r := if At(s, e) == '[' then Scanned(BadToken(Subscripted), b) else Scanned(Name(s[b..e]), e);
    } else if IsDigit(c) {
      var e := ScanNumber(s, b);
      NumberTextHasNoNul(s, b, e);
      var n := StrLong(s[b..e]);
      r := if n.None? then Scanned(BadToken(Syntax), b) else Scanned(Number(n.value), e);
    } else {
      r := ScanOperator(s, b, prev);
    }
  }

  lemma NumberTextHasNoNul(s: string, b: nat, e: nat)
    requires b <= |s| && e == NumberSpan(s, b)
    ensures NoNul(s[b..e])
  {
  }

  lemma SubExprUnfold(s: string, m: State)
    requires Machine.Valid(m) && m.noeval == 0
    ensures Machine.SubExpr(s, m) ==
            if BlankText(s) then Ok(0, m)
            else if m.depth >= MAX_DEPTH then Err(TooDeep, m.store)
            else
              var (_, m1) :- Machine.ReadTok(Entered(s, m));
              var (v, m2) :- Machine.ExpComma(m1);
              if m2.cur != End then Err(Syntax, m2.store)
              else Ok(v, m.(store := m2.store, assignTok := m2.assignTok))
  {
    hide Machine.ReadTok, Machine.ExpComma, SkipBlank;
  }

  /** One turn of each loop of the short-circuit operators. */
  lemma LorTurn(v: intmax, m: State)
    requires Machine.Valid(m)
    ensures LorLoop(v, m) ==
            if m.cur != LogOr then Ok(v, m)
            else
              var (_, m1) :- Machine.ReadTok(Suppress(m, v != 0));
              var (v2, m2) :- Machine.ExpLand(m1);
              LorLoop(Truth(v != 0 || v2 != 0), Resume(m2, v != 0).(last := LogOr))
  {
    hide Machine.ReadTok, Machine.ExpLand;
  }

  lemma LandStart(m: State)
    requires Machine.Valid(m)
    ensures Machine.ExpLand(m) == var (v, m1) :- Machine.ExpBinary(0, m); LandLoop(v, m1)
  {
    hide Machine.ExpBinary, LandLoop;
  }

  lemma LandTurn(v: intmax, m: State)
    requires Machine.Valid(m)
    ensures LandLoop(v, m) ==
            if m.cur != LogAnd then Ok(v, m)
            else
              var (_, m1) :- Machine.ReadTok(Suppress(m, v == 0));
              var (v2, m2) :- Machine.ExpBinary(0, m1);
              LandLoop(Truth(v != 0 && v2 != 0), Resume(m2, v == 0).(last := LogAnd))
  {
    hide Machine.ReadTok, Machine.ExpBinary;
  }

  class Evaluator {
    var expression: string
    var tp: nat
    var curtok: Kind
    var lasttok: Kind
    var assigntok: BinOp
    var tokval: intmax
    var tokstr: Option<string>
    var noeval: nat
    var store: Store
    var stack: seq<Context>   // expr_stack; its length is expr_depth

    /** The variables as one value. */
    ghost function St(): State
      reads this
    {
      State(expression, tp, curtok, lasttok, assigntok, tokval, tokstr, noeval, |stack|, store)
    }

    ghost predicate Ready()
      reads this
    {
      Machine.Valid(St())
    }

    /** The method did what the function says: the same value and state, or the same error and store. */
    ghost predicate Did(r: Return, spec: Result, stack0: seq<Context>)
      reads this
    {
      match spec
      case Ok(v, m) => r == Normal(v) && St() == m && stack == stack0
      case Err(e, st) => r == Jump(e) && store == st
    }

    constructor (st: Store)
      ensures store == st && stack == [] && noeval == 0 && Ready()
    {
      expression, tp, curtok, lasttok, assigntok := "", 0, End, End, Add;
      tokval, tokstr, noeval, store, stack := 0, None, 0, st, [];
    }

    method PushExp() returns (ok: bool)
      requires Ready()
      modifies this`stack
      ensures ok == (|old(stack)| < MAX_DEPTH)
      ensures stack == if ok
                       then old(stack) + [Context(expression, tp, curtok, lasttok, tokval, tokstr, noeval)]
                       else old(stack)
    {
      if |stack| >= MAX_DEPTH {
        return false;
      }
      stack := stack + [Context(expression, tp, curtok, lasttok, tokval, tokstr, noeval)];
      return true;
    }

    method PopExp()
      requires |stack| > 0
      modifies this
      ensures stack == old(stack)[..|old(stack)| - 1]
      ensures old(stack)[|old(stack)| - 1] == Context(expression, tp, curtok, lasttok, tokval, tokstr, noeval)
      ensures store == old(store) && assigntok == old(assigntok)
    {
      var c := stack[|stack| - 1];
      stack := stack[..|stack| - 1];
      expression, tp, curtok, lasttok := c.expression, c.tp, c.curtok, c.lasttok;
      tokval, tokstr, noeval := c.tokval, c.tokstr, c.noeval;
    }

    /** The part of readtok for names: it looks at the next token with evaluation suppressed, puts the saved state back,
        and reads the variable unless an `=` follows. */
    method ReadNameTok(x: string, sc: Scanned) returns (r: Return)
      requires Ready() && tp <= |expression|
      requires sc == Scan(expression, tp, ScanPrev(curtok, lasttok)) && sc.token == Name(x)
      modifies this
      ensures Did(r, Machine.ReadTok(old(St())), old(stack))
      decreases MAX_DEPTH - |stack|, |expression| - tp, 0, 0
    {
      hide Scan, Machine.StreVal, Machine.ReadTok, IsPre, ScanPrev, Lookup;
      ghost var m := St();
      Levels.ReadNameUnfold(m, x);
      var saved := Context(expression, tp, curtok, lasttok, tokval, Some(x), noeval);
      tp, curtok, noeval, tokstr := sc.next, Str, 1, None;
      assert St() == m.(tp := sc.next, cur := Str, noeval := 1, tokstr := None);
      r := ReadTok();
      if r.Jump? {
        return;
      }
      var peektok := curtok;
      curtok, lasttok, tokval := saved.curtok, saved.lasttok, saved.tokval;
      tp, tokstr, noeval := sc.next, saved.tokstr, saved.noeval;
      assert St() == m.(tokstr := Some(x), assignTok := assigntok, tp := sc.next);
      if IsPre(lasttok) || peektok != Eq {
        r := StreVal(x);
        if r.Jump? {
          return;
        }
        tokval := r.v;
      } else {
        tokval := 0;
      }
      lasttok := curtok;
      curtok := Str;
      tp := sc.next;
      return Normal(0);
    }

    /** readtok: the next token. */
    method ReadTok() returns (r: Return)
      requires Ready()
      modifies this
      ensures Did(r, Machine.ReadTok(old(St())), old(stack))
      decreases MAX_DEPTH - |stack|, |expression| - tp, 0
    {
      hide Scan, Machine.StreVal;
      var sc := ScanToken(expression, tp, ScanPrev(curtok, lasttok));
      match sc.token {
        case BadToken(e) =>
          return Jump(e);
        case Sym(k) =>
          lasttok := curtok;
          curtok := k;
        case OpAsg(op) =>
          lasttok, assigntok := curtok, op;
          curtok := OpAssign;
        case Number(v) =>
          lasttok, tokval := curtok, v;
          curtok := Num;
        case Name(x) =>
          r := ReadNameTok(x, sc);
          return;
      }
      tp := sc.next;
      return Normal(0);
    }

    method StreVal(x: string) returns (r: Return)
      requires Ready()
      modifies this
      ensures Did(r, Machine.StreVal(x, old(St())), old(stack))
      decreases MAX_DEPTH - |stack|, |expression| - tp, 2
    {
      hide Machine.SubExpr;
      if noeval != 0 {
        return Normal(0);
      }
      r := SubExpr(Lookup(store, x));
    }

    method SubExpr(s: string) returns (r: Return)
      requires Ready() && noeval == 0
      modifies this
      ensures Did(r, Machine.SubExpr(s, old(St())), old(stack))
      decreases MAX_DEPTH - |stack|, |expression| - tp, 1
    {
      hide Machine.ReadTok, Machine.ExpComma, Machine.SubExpr, SkipBlank;
      SubExprUnfold(s, St());
      var p := ScanBlank(s, 0);
      if At(s, p) == NUL {
        return Normal(0);
      }
      var ok := PushExp();
      if !ok {
        return Jump(TooDeep);
      }
      ghost var pushed := stack;
      expression, tp, curtok, lasttok, tokstr, tokval := s, 0, End, End, None, 0;
      r := ReadTok();
      if r.Jump? {
        return;
      }
      r := ExpComma();
      if r.Jump? {
        return;
      }
      if curtok != End {
        return Jump(Syntax);
      }
      PopExp();
    }

    method ExpComma() returns (r: Return)
      requires Ready()
      modifies this
      ensures Did(r, Machine.ExpComma(old(St())), old(stack))
      decreases MAX_DEPTH - |stack|, Remaining(St()), 50
    {
      hide Machine.ReadTok, Machine.ExpAssign;
      r := ExpAssign();
      if r.Jump? {
        return;
      }
      while curtok == Comma
        invariant Ready() && stack == old(stack) && r.Normal?
        invariant Remaining(St()) <= old(Remaining(St()))
        invariant Machine.ExpComma(old(St())) == CommaLoop(r.v, St())
        decreases Remaining(St())
      {
        r := ReadTok();
        if r.Jump? {
          return;
        }
        r := ExpAssign();
        if r.Jump? {
          return;
        }
      }
    }

    method ExpAssign() returns (r: Return)
      requires Ready()
      modifies this
      ensures Did(r, Machine.ExpAssign(old(St())), old(stack))
      decreases MAX_DEPTH - |stack|, Remaining(St()), 49
    {
      hide Machine.ReadTok, Machine.ExpCond, Compute;
      r := ExpCond();
      if r.Jump? || (curtok != Eq && curtok != OpAssign) {
        return;
      }
      var special := curtok == OpAssign;
      if lasttok != Str {
        return Jump(Syntax);
      }
      var op, lvalue := assigntok, r.v;
      if tokstr.None? {
        return Jump(Syntax);
      }
      var lhs := tokstr;
      r := ReadTok();
      if r.Jump? {
        return;
      }
      r := ExpAssign();
      if r.Jump? {
        return;
      }
      var value := r.v;
      if special {
        var result := BinStep(op, lvalue, value, noeval);
        if result.None? {
          return Jump(DivisionByZero);
        }
        value := result.value;
      }
      r := BindVariable(lhs, value);
      if r.Jump? {
        return;
      }
      tokstr := None;
    }

    /** Binds unless evaluation is suppressed; a read-only variable ends the evaluation. */
    method BindVariable(x: Option<string>, v: intmax) returns (r: Return)
      requires Ready()
      modifies this
      ensures Did(r, BindStep(x, v, old(St())), old(stack))
    {
      if noeval == 0 && x.Some? && x.value != "" {
        var st := Bind(store, x.value, v);
        if st.None? {
          return Jump(ReadOnly);
        }
        store := st.value;
      }
      return Normal(v);
    }

    method ExpCond() returns (r: Return)
      requires Ready()
      modifies this
      ensures Did(r, Machine.ExpCond(old(St())), old(stack))
      decreases MAX_DEPTH - |stack|, Remaining(St()), 48
    {
      hide Machine.ExpLor, Machine.CondTail;
      r := ExpLor();
      if r.Normal? && curtok == Quest {
        r := CondTail(r.v);
      }
    }

    /** From the `?` on: the branch not taken is evaluated suppressed. */
    method CondTail(cval: intmax) returns (r: Return)
      requires Ready() && curtok == Quest
      modifies this
      ensures Did(r, Machine.CondTail(cval, old(St())), old(stack))
      decreases MAX_DEPTH - |stack|, Remaining(St()), 4
    {
      hide Machine.ReadTok, Machine.ExpComma, Machine.ElseTail;
      ghost var m := St();
      var setNoeval := false;
      if cval == 0 {
        setNoeval := true;
        noeval := noeval + 1;
      }
      assert St() == Suppress(m, cval == 0);
      r := ReadTok();
      if r.Jump? {
        return;
      }
      if curtok == End || curtok == Colon {
        return Jump(Syntax);
      }
      r := ExpComma();
      if r.Jump? {
        return;
      }
      var val1 := r.v;
      ghost var m2 := St();
      if setNoeval {
        noeval := noeval - 1;
      }
      if curtok != Colon {
        return Jump(Syntax);
      }
      setNoeval := false;
      if cval != 0 {
        setNoeval := true;
        noeval := noeval + 1;
      }
      assert St() == Suppress(Resume(m2, cval == 0), cval != 0);
      r := ElseTail();
      if r.Jump? {
        return;
      }
      ghost var m4 := St();
      if setNoeval {
        noeval := noeval - 1;
      }
      lasttok := CondMark;
      assert St() == Resume(m4, cval != 0).(last := CondMark);
      return Normal(if cval != 0 then val1 else r.v);
    }

    /** From the `:` on. */
    method ElseTail() returns (r: Return)
      requires Ready() && curtok == Colon
      modifies this
      ensures Did(r, Machine.ElseTail(old(St())), old(stack))
      decreases MAX_DEPTH - |stack|, Remaining(St()), 4
    {
      hide Machine.ReadTok, Machine.ExpCond;
      r := ReadTok();
      if r.Jump? {
        return;
      }
      if curtok == End {
        return Jump(Syntax);
      }
      r := ExpCond();
    }

    method ExpLor() returns (r: Return)
      requires Ready()
      modifies this
      ensures Did(r, Machine.ExpLor(old(St())), old(stack))
      decreases MAX_DEPTH - |stack|, Remaining(St()), 47
    {
      hide Machine.ReadTok, Machine.ExpLand, LorLoop;
      r := ExpLand();
      if r.Jump? {
        return;
      }
      while curtok == LogOr
        invariant Ready() && stack == old(stack) && r.Normal?
        invariant Remaining(St()) <= old(Remaining(St()))
        invariant Machine.ExpLor(old(St())) == LorLoop(r.v, St())
        decreases Remaining(St())
      {
        ghost var m := St();
        LorTurn(r.v, m);
        var val1 := r.v;
        var setNoeval := false;
        if val1 != 0 {
          noeval := noeval + 1;
          setNoeval := true;
        }
        assert St() == Suppress(m, val1 != 0);
        r := ReadTok();
        if r.Jump? {
          return;
        }
        r := ExpLand();
        if r.Jump? {
          return;
        }
        ghost var m2 := St();
        if setNoeval {
          noeval := noeval - 1;
        }
        r := Normal(Truth(val1 != 0 || r.v != 0));
        lasttok := LogOr;
        assert St() == Resume(m2, val1 != 0).(last := LogOr);
      }
      LorTurn(r.v, St());
    }

    method ExpLand() returns (r: Return)
      requires Ready()
      modifies this
      ensures Did(r, Machine.ExpLand(old(St())), old(stack))
      decreases MAX_DEPTH - |stack|, Remaining(St()), 46
    {
      hide Machine.ReadTok, Machine.ExpBinary, Machine.ExpLand, LandLoop;
      LandStart(St());
      r := ExpBinary(0);
      if r.Jump? {
        return;
      }
      while curtok == LogAnd
        invariant Ready() && stack == old(stack) && r.Normal?
        invariant Remaining(St()) <= old(Remaining(St()))
        invariant Machine.ExpLand(old(St())) == LandLoop(r.v, St())
        decreases Remaining(St())
      {
        ghost var m := St();
        LandTurn(r.v, m);
        var val1 := r.v;
        var setNoeval := false;
        if val1 == 0 {
          setNoeval := true;
          noeval := noeval + 1;
        }
        assert St() == Suppress(m, val1 == 0);
        r := ReadTok();
        if r.Jump? {
          return;
        }
        r := ExpBinary(0);
        if r.Jump? {
          return;
        }
        ghost var m2 := St();
        if setNoeval {
          noeval := noeval - 1;
        }
        r := Normal(Truth(val1 != 0 && r.v != 0));
        lasttok := LogAnd;
        assert St() == Resume(m2, val1 == 0).(last := LogAnd);
      }
      LandTurn(r.v, St());
    }

    /** The eight levels from expbor to expmuldiv. */
    method ExpBinary(k: nat) returns (r: Return)
      requires Ready() && k < 8
      modifies this
      ensures Did(r, Machine.ExpBinary(k, old(St())), old(stack))
      decreases MAX_DEPTH - |stack|, Remaining(St()), 40 - 2 * k
    {
      hide Machine.ReadTok, Machine.Operand, Compute;
      r := Operand(k);
      if r.Jump? {
        return;
      }
      while curtok.Bin? && OpLevel(curtok.op) == k
        invariant Ready() && stack == old(stack) && r.Normal?
        invariant Remaining(St()) <= old(Remaining(St()))
        invariant Machine.ExpBinary(k, old(St())) == BinaryLoop(k, r.v, St())
        decreases Remaining(St())
      {
        var op, val1 := curtok.op, r.v;
        r := ReadTok();
        if r.Jump? {
          return;
        }
        r := Operand(k);
        if r.Jump? {
          return;
        }
        var value := BinStep(op, val1, r.v, noeval);
        if value.None? {
          return Jump(DivisionByZero);
        }
        lasttok := LastAfter(op, val1, r.v, lasttok);
        r := Normal(value.value);
      }
    }

    method Operand(k: nat) returns (r: Return)
      requires Ready() && k < 8
      modifies this
      ensures Did(r, Machine.Operand(k, old(St())), old(stack))
      decreases MAX_DEPTH - |stack|, Remaining(St()), 39 - 2 * k
    {
      hide Machine.ExpPower, Machine.ExpBinary;
      if k == 7 {
        r := ExpPower();
      } else {
        r := ExpBinary(k + 1);
      }
    }

    method ExpPower() returns (r: Return)
      requires Ready()
      modifies this
      ensures Did(r, Machine.ExpPower(old(St())), old(stack))
      decreases MAX_DEPTH - |stack|, Remaining(St()), 20
    {
      hide Machine.ReadTok, Machine.ExpUnary, Power, Wrap;
      r := ExpUnary();
      if r.Jump? {
        return;
      }
      while curtok == PowerOp
        invariant Ready() && stack == old(stack) && r.Normal?
        invariant Remaining(St()) <= old(Remaining(St()))
        invariant Machine.ExpPower(old(St())) == PowerLoop(r.v, St())
        decreases Remaining(St())
      {
        var val1 := r.v;
        r := ReadTok();
        if r.Jump? {
          return;
        }
        r := ExpPower();
        if r.Jump? {
          return;
        }
        lasttok := Num;
        if noeval == 0 {
          if r.v == 0 {
            return Normal(1);
          }
          if r.v < 0 {
            return Jump(NegativeExponent);
          }
          var power, _ := IPow(val1, r.v);
          r := Normal(power);
        } else {
          r := Normal(1);
        }
      }
    }

    method ExpUnary() returns (r: Return)
      requires Ready()
      modifies this
      ensures Did(r, Machine.ExpUnary(old(St())), old(stack))
      decreases MAX_DEPTH - |stack|, Remaining(St()), 19
    {
      hide Machine.ReadTok, Machine.Exp0, ComputeUnary;
      var op := UnaryOf(curtok);
      if op.None? {
        r := Exp0();
        return;
      }
      r := ReadTok();
      if r.Jump? {
        return;
      }
      r := ExpUnary();
      if r.Jump? {
        return;
      }
      lasttok := Num;
      r := Normal(ComputeUnary(op.value, r.v));
    }

    method Exp0() returns (r: Return)
      requires Ready()
      modifies this
      ensures Did(r, Machine.Exp0(old(St())), old(stack))
      decreases MAX_DEPTH - |stack|, Remaining(St()), 18
    {
      hide Machine.ReadTok, Machine.ExpComma, Machine.StepName, Machine.NameOperand;
      if curtok == PreInc || curtok == PreDec {
        r := StepName();
      } else if curtok == LParen {
        r := ReadTok();
        if r.Jump? {
          return;
        }
        r := ExpComma();
        if r.Jump? {
          return;
        }
        if curtok != RParen {
          return Jump(Syntax);
        }
        var val := r.v;
        r := ReadTok();
        if r.Normal? {
          r := Normal(val);
        }
      } else if curtok == Num {
        var val := tokval;
        r := ReadTok();
        if r.Normal? {
          r := Normal(val);
        }
      } else if curtok == Str {
        r := NameOperand();
      } else {
        r := Jump(Syntax);
      }
    }

    method StepName() returns (r: Return)
      requires Ready() && IsPre(curtok)
      modifies this
      ensures Did(r, Machine.StepName(old(St())), old(stack))
      decreases MAX_DEPTH - |stack|, Remaining(St()), 4
    {
      hide Machine.ReadTok, BindStep, Wrap;
      var stok := curtok;
      lasttok := stok;
      r := ReadTok();
      if r.Jump? {
        return;
      }
      if curtok != Str {
        return Jump(Syntax);
      }
      r := BindVariable(tokstr, Wrap(if stok == PreInc then tokval + 1 else tokval - 1));
      if r.Jump? {
        return;
      }
      var val := r.v;
      curtok := Num;
      r := ReadTok();
      if r.Normal? {
        r := Normal(val);
      }
    }

    method NameOperand() returns (r: Return)
      requires Ready() && curtok == Str
      modifies this
      ensures Did(r, Machine.NameOperand(old(St())), old(stack))
      decreases MAX_DEPTH - |stack|, Remaining(St()), 4
    {
      hide Machine.ReadTok, Machine.AfterPeek;
      ghost var m := St();
      var ec := Context(expression, tp, curtok, lasttok, tokval, tokstr, noeval);
      tokstr, noeval := None, 1;
      r := ReadTok();
      if r.Jump? {
        return;
      }
      r := AfterPeek(ec, m);
      if r.Jump? {
        return;
      }
      r := ReadTok();
      if r.Normal? {
        r := Normal(ec.tokval);
      }
    }

    /** Steps and binds the variable, or restores what was saved before the peek. */
    method AfterPeek(ec: Context, ghost m: State) returns (r: Return)
      requires Ready() && Machine.Valid(m)
      requires ec == Context(m.text, m.tp, m.cur, m.last, m.tokval, m.tokstr, m.noeval)
      requires expression == m.text && |stack| == m.depth && store == m.store
      modifies this
      ensures Did(r, Machine.AfterPeek(m, old(St())), old(stack))
    {
      hide BindStep, Wrap;
      var stok := curtok;
      if stok == PostInc || stok == PostDec {
        tokstr, noeval, lasttok := ec.tokstr, ec.noeval, Str;
        r := BindVariable(tokstr, Wrap(if stok == PostInc then ec.tokval + 1 else ec.tokval - 1));
        if r.Jump? {
          return;
        }
        curtok := Num;
      } else {
        tp, curtok, lasttok, tokval, tokstr, noeval := ec.tp, ec.curtok, ec.lasttok, ec.tokval, ec.tokstr, ec.noeval;
      }
      return Normal(0);
    }

    /** evalexp: the value of an expression and whether it is valid. An error has unwound the stack. For every
        precedence tree of the text, value and assignments are those of the tree. */
    method EvalExp(expr: string) returns (val: intmax, valid: bool)
      requires stack == [] && tp <= |expression|
      modifies this
      ensures stack == [] && tp <= |expression| && noeval == 0
      ensures match Machine.SubExpr(expr, old(St()).(noeval := 0))
              case Ok(v, m) => valid && val == v && store == m.store
              case Err(_, st) => !valid && val == 0 && store == st
      ensures forall e :: IsTreeOf(e, expr) ==>
                match Eval(e, old(store), 1)
                case Value(v, st) => valid && val == v && store == st
                case Failure(_, st) => !valid && val == 0 && store == st
                case Malformed => !valid && val == 0
    {
      hide Machine.SubExpr, Eval, IsTreeOf;
      noeval := 0;
      ghost var m := St();
      forall e | IsTreeOf(e, expr)
        ensures Arithmetic.Matches(Machine.SubExpr(expr, m), Eval(e, m.store, 1))
      {
        Arithmetic.OnePassIsTreeEvaluation(e, expr, m);
      }
      var r := SubExpr(expr);
      if r.Jump? {
        tokstr, expression, tp := None, "", 0;
        stack := [];
        noeval := 0;
        return 0, false;
      }
      return r.v, true;
    }
  }
}
