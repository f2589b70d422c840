/** The tokens of arithmetic expressions and the scanner that finds one token in the text. */
module Tokens {
  import opened Integers
  import opened Text
  import opened Numbers
  import opened Options

  datatype BinOp =
    | BitOr | BitXor | BitAnd
    | EqEq | NotEq
    | LessEq | GreaterEq | Less | Greater
    | ShiftLeft | ShiftRight
    | Add | Sub
    | Mul | Div | Mod

  /** The token codes kept in curtok and lasttok. */
  datatype Kind =
    | End | Str | Num | Bin(op: BinOp) | Eq | OpAssign
    | LogAnd | LogOr | PowerOp | Quest | Colon | Comma | LParen | RParen | Not | Compl
    | PreInc | PreDec | PostInc | PostDec | CondMark

  predicate IsPre(k: Kind) {
    k == PreInc || k == PreDec
  }

  predicate IsPost(k: Kind) {
    k == PostInc || k == PostDec
  }

  datatype Error = Syntax | Subscripted | DivisionByZero | NegativeExponent | TooDeep | ReadOnly

  /** A token with what it carries: a name, a number, the operator of `op=`. */
  datatype Token = Name(x: string) | Number(v: intmax) | OpAsg(op: BinOp) | Sym(kind: Kind) | BadToken(error: Error)

  /** What the scanner remembers of the tokens before: it decides what `++` and `--` are. */
  datatype Prev = AfterOther | AfterPre | AfterName | AfterPreName

  datatype Scanned = Scanned(token: Token, next: nat)

  predicate IsBlank(c: char) {
    c == ' ' || c == '\t' || c == '\n'
  }

  predicate NameStart(c: char) {
    IsAlpha(c) || c == '_'
  }

  predicate NameChar(c: char) {
    IsAlnum(c) || c == '_'
  }

  predicate IsName(x: string) {
    |x| > 0 && NameStart(x[0]) && forall k :: 0 <= k < |x| ==> NameChar(x[k])
  }

  /** Names are made of letters, digits and underscores, and do not begin with a digit. */
  lemma NameCharacters(x: string)
    ensures IsName(x) <==>
              && x != "" && !('0' <= x[0] <= '9')
              && forall k :: 0 <= k < |x| ==>
                   x[k] == '_' || 'a' <= x[k] <= 'z' || 'A' <= x[k] <= 'Z' || '0' <= x[k] <= '9'
  {
  }

  function SkipBlank(s: string, i: nat): (j: nat)
    requires i <= |s|
    ensures i <= j <= |s|
    ensures !IsBlank(At(s, j))
    decreases |s| - i
  {
    if IsBlank(At(s, i)) then SkipBlank(s, i + 1) else i
  }

  function NameEnd(s: string, i: nat): (j: nat)
    requires i <= |s|
    ensures i <= j <= |s|
    ensures forall k :: i <= k < j ==> NameChar(s[k])
    ensures !NameChar(At(s, j))
    decreases |s| - i
  {
    if NameChar(At(s, i)) then NameEnd(s, i + 1) else i
  }

  predicate AssignableOp(op: BinOp) {
    op in {Mul, Div, Mod, Add, Sub, ShiftLeft, ShiftRight, BitAnd, BitXor, BitOr}
  }

  /** The operator of a one-character `op=`. */
  function OperatorOf(c: char): Option<BinOp> {
    match c
    case '*' => Some(Mul)
    case '/' => Some(Div)
    case '%' => Some(Mod)
    case '+' => Some(Add)
    case '-' => Some(Sub)
    case '&' => Some(BitAnd)
    case '^' => Some(BitXor)
    case '|' => Some(BitOr)
    case _ => None
  }

  /** A one-character token (is_arithop). */
  function SingleKind(c: char): Option<Kind> {
    match c
    case '=' => Some(Eq)
    case '>' => Some(Bin(Greater))
    case '<' => Some(Bin(Less))
    case '!' => Some(Not)
    case '~' => Some(Compl)
    case '(' => Some(LParen)
    case ')' => Some(RParen)
    case '?' => Some(Quest)
    case ':' => Some(Colon)
    case ',' => Some(Comma)
    case _ => if OperatorOf(c).Some? then Some(Bin(OperatorOf(c).value)) else None
  }

  /** The operator token that starts at `b`, longest first. */
  function ScanOperator(s: string, b: nat, prev: Prev): (r: Scanned)
    requires b < |s|
    ensures r.next <= |s|
    ensures r.token.BadToken? || r.next > b
    ensures r.token.Sym? || r.token.OpAsg? || r.token.BadToken?
    ensures r.token != Sym(End) && r.token != Sym(Str) && r.token != Sym(Num) && r.token != Sym(OpAssign)
  {
    var c, c1, c2 := s[b], At(s, b + 1), At(s, b + 2);
    if c == '=' && c1 == '=' then Scanned(Sym(Bin(EqEq)), b + 2)
    else if c == '!' && c1 == '=' then Scanned(Sym(Bin(NotEq)), b + 2)
    else if c == '>' && c1 == '=' then Scanned(Sym(Bin(GreaterEq)), b + 2)
    else if c == '<' && c1 == '=' then Scanned(Sym(Bin(LessEq)), b + 2)
    else if c == '<' && c1 == '<' then
      if c2 == '=' then Scanned(OpAsg(ShiftLeft), b + 3) else Scanned(Sym(Bin(ShiftLeft)), b + 2)
    else if c == '>' && c1 == '>' then
      if c2 == '=' then Scanned(OpAsg(ShiftRight), b + 3) else Scanned(Sym(Bin(ShiftRight)), b + 2)
    else if c == '&' && c1 == '&' then Scanned(Sym(LogAnd), b + 2)
    else if c == '|' && c1 == '|' then Scanned(Sym(LogOr), b + 2)
    else if c == '*' && c1 == '*' then Scanned(Sym(PowerOp), b + 2)
    else if (c == '-' || c == '+') && c1 == c && prev == AfterName then
      Scanned(Sym(if c == '-' then PostDec else PostInc), b + 2)
    else if (c == '-' || c == '+') && c1 == c && prev == AfterPreName then
      Scanned(BadToken(Syntax), b)
    else if (c == '-' || c == '+') && c1 == c then
      if NameStart(At(s, SkipBlank(s, b + 2))) then Scanned(Sym(if c == '-' then PreDec else PreInc), b + 2)
      else Scanned(Sym(SingleKind(c).value), b + 1)
    else if c1 == '=' && OperatorOf(c).Some? then Scanned(OpAsg(OperatorOf(c).value), b + 2)
    else
      match SingleKind(c)
      case None => Scanned(BadToken(Syntax), b)
      case Some(k) => Scanned(Sym(k), b + 1)
  }

  /** The token that starts at or after `i`. */
  function Scan(s: string, i: nat, prev: Prev): (r: Scanned)
    requires i <= |s|
    ensures r.next <= |s|
    ensures i <= r.next
    ensures r.token.BadToken? || r.token == Sym(End) || r.next > i
    ensures r.token.Sym? ==> r.token.kind !in {Str, Num, OpAssign}
  {
    var b := SkipBlank(s, i);
    var c := At(s, b);
    if c == NUL then Scanned(Sym(End), b)
    else if NameStart(c) then
      var e := NameEnd(s, b);
      if At(s, e) == '[' then Scanned(BadToken(Subscripted), b) else Scanned(Name(s[b..e]), e)
    else if IsDigit(c) then
      var e := NumberSpan(s, b);
      match NumberValue(s[b..e])
      case None => Scanned(BadToken(Syntax), b)
      case Some(v) => Scanned(Number(v), e)
    else ScanOperator(s, b, prev)
  }

  function NextPrev(prev: Prev, t: Token): Prev {
    if t.Name? then (if prev == AfterPre then AfterPreName else AfterName)
    else if t == Sym(PreInc) || t == Sym(PreDec) then AfterPre
    else AfterOther
  }

  predicate LastToken(t: Token) {
    t == Sym(End) || t.BadToken?
  }

  /** The tokens of the text from `i` on, up to and including the end or the first error. */
  function LexFrom(s: string, i: nat, prev: Prev): (ts: seq<Token>)
    requires i <= |s|
    ensures |ts| > 0
    decreases |s| - i
  {
    var sc := Scan(s, i, prev);
    if LastToken(sc.token) then [sc.token]
    else [sc.token] + LexFrom(s, sc.next, NextPrev(prev, sc.token))
  }

  function Lex(s: string): seq<Token> {
    LexFrom(s, 0, AfterOther)
  }
}
