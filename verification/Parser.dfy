/** The expression parser and the printer, over tokens.

    The parser's only state is its input, which every function takes and returns what is left of.
    A choice that fails gives the input back, so an alternative simply starts over. */
module Parsers {
  import opened Lang

  datatype Token =
    | TInt(i: int) | TFloat(r: real) | TBool(b: bool) | TId(x: Name)
    | TFn1(f: Fn1) | TFn2(g: Fn2) | TDynamic | TMonitoredAt | TDist
    | TIf | TThen | TElse | TBang
    | TLPar | TRPar | TLBrack | TRBrack | TLBrace | TRBrace | TComma
    | TOp(op: BinOp)
    | TOther(v: Value) /* a value printed in a form of its own */

  /** What is left of the input. */
  datatype Tokens = End | Tok(head: Token, tail: Tokens)

  type Parsed = Option<(SExpr, Tokens)>

  ghost predicate Shorter(r: Parsed, ts: Tokens) { r.Some? ==> r.value.1 < ts }

  // ---------------------------------------------------------------------------------------------
  // Precedences
  // ---------------------------------------------------------------------------------------------

  const LEVELS := 13

  /** The level of an operator, lowest first, as the levels follow one another. */
  function LevelOf(op: BinOp): (k: nat)
    ensures k < LEVELS
  {
    match op
    case SOp => 0
    case BOp(Or) => 1
    case BOp(And) => 2
    case COp(Le) => 3
    case COp(Ge) => 4
    case COp(Lt) => 5
    case COp(Gt) => 6
    case COp(Eq) => 7
    case NOp(Sub) => 8
    case NOp(Add) => 9
    case NOp(Mul) => 10
    case NOp(Div) => 11
    case NOp(Mod) => 12
  }

  predicate AtOp(ts: Tokens, k: nat) { ts.Tok? && ts.head.TOp? && LevelOf(ts.head.op) == k }

  // ---------------------------------------------------------------------------------------------
  // The parser
  // ---------------------------------------------------------------------------------------------

  function Skip(t: Token, ts: Tokens): (r: Option<Tokens>)
    ensures r.Some? ==> r.value < ts
  {
    if ts.Tok? && ts.head == t then Some(ts.tail) else None
  }

  /** Exactly one operator is the literal of a level, so the level decides which node is built. */
  function Level(ts: Tokens, k: nat): (r: Parsed)
    requires k <= LEVELS
    ensures Shorter(r, ts)
    decreases ts, 10 + LEVELS - k
  {
    if k == LEVELS then Atom(ts)
    else
      match Level(ts, k + 1)
      case None => None
      case Some((left, rest)) => Some(FoldLevel(left, rest, k))
  }

  /** Takes further operands of a level and folds them to the left; an operator without an operand
      behind it is given back. */
  function FoldLevel(left: SExpr, ts: Tokens, k: nat): (r: (SExpr, Tokens))
    requires k < LEVELS
    ensures r.1 == ts || r.1 < ts
    decreases ts, 30
  {
    if AtOp(ts, k) then
      match Level(ts.tail, k + 1)
      case None => (left, ts)
      case Some((right, rest)) => FoldLevel(BinOp(left, right, ts.head.op), rest, k)
    else
      (left, ts)
  }

  function Expr(ts: Tokens): (r: Parsed)
    ensures Shorter(r, ts)
    decreases ts, 10 + LEVELS + 1
  {
    Level(ts, 0)
  }

  function Atom(ts: Tokens): (r: Parsed)
    ensures Shorter(r, ts)
    decreases ts, 9
  {
    match IndexP(ts)
    case Some(p) => Some(p)
    case None => AtomRest(ts)
  }

  /** A literal, a variable, or an expression in parentheses. */
  function Primary(ts: Tokens): (r: Parsed)
    ensures Shorter(r, ts)
    decreases ts, 1
  {
    if ts.End? then None
    else match ts.head
      case TInt(i) => Some((Val(Int(i)), ts.tail))
      case TFloat(r) => Some((Val(Float(r)), ts.tail))
      case TBool(b) => Some((Val(Bool(b)), ts.tail))
      case TId(x) => Some((Var(x), ts.tail))
      case TLPar =>
        (match Expr(ts.tail)
         case None => None
         case Some((e, rest)) => match Skip(TRPar, rest) case None => None case Some(rest') => Some((e, rest')))
      case _ => None
  }

  function IndexP(ts: Tokens): (r: Parsed)
    ensures Shorter(r, ts)
    decreases ts, 2
  {
    match Primary(ts)
    case None => None
    case Some((e, rest)) =>
      match rest
      case Tok(TLBrack, Tok(TInt(i), Tok(TRBrack, rest'))) => Some((SIndex(e, i), rest'))
      case _ => None
  }

  /** One expression in parentheses. */
  function Arg(ts: Tokens): (r: Parsed)
    ensures Shorter(r, ts)
    decreases ts, 1
  {
    match Skip(TLPar, ts)
    case None => None
    case Some(t1) =>
      match Expr(t1)
      case None => None
      case Some((e, t2)) => match Skip(TRPar, t2) case None => None case Some(t3) => Some((e, t3))
  }

  /** Two expressions in parentheses, as the operands of a node. */
  function Args(ts: Tokens, g: Fn2): (r: Parsed)
    ensures Shorter(r, ts)
    decreases ts, 1
  {
    match Skip(TLPar, ts)
    case None => None
    case Some(t1) => match Expr(t1) case None => None case Some((a, t2)) => SecondArg(t2, g, a)
  }

  function SecondArg(ts: Tokens, g: Fn2, a: SExpr): (r: Parsed)
    ensures Shorter(r, ts)
    decreases ts, 1
  {
    match Skip(TComma, ts)
    case None => None
    case Some(t1) =>
      match Expr(t1)
      case None => None
      case Some((b, t2)) => match Skip(TRPar, t2) case None => None case Some(t3) => Some((Call2(g, a, b), t3))
  }

  function IfP(ts: Tokens): (r: Parsed)
    ensures Shorter(r, ts)
    decreases ts, 30
  {
    match Expr(ts) case None => None case Some((c, t1)) => ThenP(t1, c)
  }

  function ThenP(ts: Tokens, c: SExpr): (r: Parsed)
    ensures Shorter(r, ts)
    decreases ts, 1
  {
    match Skip(TThen, ts)
    case None => None
    case Some(t1) => match Expr(t1) case None => None case Some((a, t2)) => ElseP(t2, c, a)
  }

  function ElseP(ts: Tokens, c: SExpr, a: SExpr): (r: Parsed)
    ensures Shorter(r, ts)
    decreases ts, 1
  {
    match Skip(TElse, ts)
    case None => None
    case Some(t1) => match Expr(t1) case None => None case Some((b, t2)) => Some((If(c, a, b), t2))
  }

  /** Names separated by commas. */
  function NamesP(ts: Tokens): (r: (seq<Name>, Tokens))
    ensures r.1 == ts || r.1 < ts
  {
    match ts
    case Tok(TId(x), Tok(TComma, Tok(TId(y), rest))) =>
      var (xs, rest') := NamesP(ts.tail.tail);
      ([x] + xs, rest')
    case Tok(TId(x), rest) => ([x], rest)
    case _ => ([], ts)
  }

  function RestrictedP(ts: Tokens): (r: Parsed)
    ensures Shorter(r, ts)
    decreases ts, 1
  {
    match Skip(TLPar, ts)
    case None => None
    case Some(t1) =>
      match Expr(t1)
      case None => None
      case Some((e, t2)) => RestrictionP(e, t2)
  }

  /** The set of names of a restricted dynamic expression `e`, and the closing parenthesis. */
  function RestrictionP(e: SExpr, ts: Tokens): (r: Parsed)
    ensures Shorter(r, ts)
  {
    match Skip(TComma, ts)
    case None => None
    case Some(t1) =>
      match Skip(TLBrace, t1)
      case None => None
      case Some(t2) =>
        var (xs, t3) := NamesP(t2);
        match Skip(TRBrace, t3)
        case None => None
        case Some(t4) => match Skip(TRPar, t4) case None => None case Some(t5) => Some((RestrictedDynamic(e, xs), t5))
  }

  /** Two names in parentheses. */
  function NamePair(ts: Tokens): (r: Option<((Name, Name), Tokens)>)
    ensures r.Some? ==> r.value.1 < ts
  {
    match ts
    case Tok(TLPar, Tok(TId(u), Tok(TComma, Tok(TId(v), Tok(TRPar, rest))))) => Some(((u, v), rest))
    case _ => None
  }

  function DynamicP(ts: Tokens): (r: Parsed)
    ensures Shorter(r, ts)
    decreases ts, 2
  {
    match RestrictedP(ts)
    case Some(p) => Some(p)
    case None => match Arg(ts) case None => None case Some((e, rest)) => Some((Dynamic(e), rest))
  }

  function Negate(r: Parsed): Parsed { if r.None? then None else Some((Not(r.value.0), r.value.1)) }

  /** The alternatives after the stream index. */
  function AtomRest(ts: Tokens): (r: Parsed)
    ensures Shorter(r, ts)
    decreases ts, 8
  {
    if ts.End? then None
    else match ts.head
      case TBang => Negate(Atom(ts.tail))
      case TDynamic => DynamicP(ts.tail)
      case TFn1(f) => (match Arg(ts.tail) case None => None case Some((e, rest)) => Some((Call1(f, e), rest)))
      case TFn2(g) => Args(ts.tail, g)
      case TIf => IfP(ts.tail)
      case TMonitoredAt => (match NamePair(ts.tail) case None => None case Some(((u, v), rest)) => Some((MonitoredAt(u, v), rest)))
      case TDist => (match NamePair(ts.tail) case None => None case Some(((u, v), rest)) => Some((Dist(u, v), rest)))
      case _ => Primary(ts)
  }

  // ---------------------------------------------------------------------------------------------
  // The printer
  // ---------------------------------------------------------------------------------------------

  /** Every comparison other than `==` is printed as `<=`. */
  function Printed(op: BinOp): BinOp { if op.COp? && op != COp(Eq) then COp(Le) else op }

  function PrintNames(xs: seq<Name>, rest: Tokens): Tokens {
    if xs == [] then rest
    else if |xs| == 1 then Tok(TId(xs[0]), rest)
    else Tok(TId(xs[0]), Tok(TComma, PrintNames(xs[1..], rest)))
  }

  /** The integers of 64 bits. */
  predicate Fits64(i: int) { -0x8000_0000_0000_0000 <= i < 0x8000_0000_0000_0000 }

  /** The float is printed without a decimal point and read as an integer. */
  predicate ReadAsInt(r: real) { r == r.Floor as real && Fits64(r.Floor) }

  /** What is printed for a number is an integer to the parser if it looks like one and fits into 64 bits;
      otherwise it is a float, whose shortest decimal form gives its value back. */
  function PrintVal(v: Value): Token {
    match v
    case Int(i) => if Fits64(i) then TInt(i) else TFloat(i as real)
    case Float(r) => if ReadAsInt(r) then TInt(r.Floor) else TFloat(r)
    case Bool(b) => TBool(b)
    case _ => TOther(v)
  }

  function IndexTo(i: int, rest: Tokens): Tokens { Tok(TLBrack, Tok(TInt(i), Tok(TRBrack, rest))) }

  /** What is printed for an expression, in front of `rest`. */
  function PrintTo(e: SExpr, rest: Tokens): Tokens
    decreases e, 0
  {
    match e
    case If(c, a, b) => Tok(TIf, PrintTo(c, Tok(TThen, PrintTo(a, Tok(TElse, PrintTo(b, rest))))))
    case SIndex(a, i) => PrintTo(a, IndexTo(i, rest))
    case Val(v) => Tok(PrintVal(v), rest)
    case BinOp(l, r, op) => Tok(TLPar, PrintTo(l, Tok(TOp(Printed(op)), PrintTo(r, Tok(TRPar, rest)))))
    case Var(x) => Tok(TId(x), rest)
    case Dynamic(a) => Tok(TDynamic, Tok(TLPar, PrintTo(a, Tok(TRPar, rest))))
    case RestrictedDynamic(a, xs) => Tok(TDynamic, Tok(TLPar, PrintTo(a, RestrictionTo(xs, rest))))
    case Not(a) => Tok(TBang, PrintTo(a, rest))
    case Call1(f, a) => Tok(TFn1(f), Tok(TLPar, PrintTo(a, Tok(TRPar, rest))))
    case Call2(g, l, r) => Tok(TFn2(g), Tok(TLPar, PrintTo(l, Tok(TComma, PrintTo(r, Tok(TRPar, rest))))))
    case List(_) => Tok(TLBrack, PrintFrom(e, 0, Tok(TRBrack, rest)))
    case MonitoredAt(u, v) => Tok(TMonitoredAt, PairTo(u, v, rest))
    case Dist(u, v) => Tok(TDist, PairTo(u, v, rest))
  }

  function RestrictionTo(xs: seq<Name>, rest: Tokens): Tokens {
    Tok(TComma, Tok(TLBrace, PrintNames(xs, Tok(TRBrace, Tok(TRPar, rest)))))
  }

  function PairTo(u: Name, v: Name, rest: Tokens): Tokens { Tok(TLPar, Tok(TId(u), Tok(TComma, Tok(TId(v), Tok(TRPar, rest))))) }

  /** The elements of a list from the `k`-th on, with commas between them. */
  function PrintFrom(e: SExpr, k: nat, rest: Tokens): Tokens
    requires e.List? && k <= |e.es|
    decreases e, 0, |e.es| - k
  {
    if k == |e.es| then rest
    else
      var here := PrintTo(e.es[k], PrintFrom(e, k + 1, rest));
      if k == 0 then here else Tok(TComma, here)
  }

  function Print(e: SExpr): Tokens { PrintTo(e, End) }

  // ---------------------------------------------------------------------------------------------
  // What can be printed and parsed again
  // ---------------------------------------------------------------------------------------------

  /** The expressions that an index may be applied to without parentheses of its own. */
  predicate Indexable(e: SExpr) { e.Val? || e.Var? || e.BinOp? }

  /** The printed form ends in an `else` branch that nothing closes. */
  predicate OpenIf(e: SExpr) { e.If? || (e.Not? && OpenIf(e.e)) }

  /** Literals that the parser reads as they are printed. */
  predicate Literal(v: Value) { v.Bool? || (v.Int? && Fits64(v.i)) || (v.Float? && !ReadAsInt(v.r)) }

  /** Literals are such, there are no lists, indices are applied to indexable expressions only, and no left
      operand is an open `if`. */
  predicate Printable(e: SExpr) {
    match e
    case If(c, a, b) => Printable(c) && Printable(a) && Printable(b)
    case SIndex(a, _) => Printable(a) && Indexable(a)
    case Val(v) => Literal(v)
    case BinOp(l, r, _) => Printable(l) && Printable(r) && !OpenIf(l)
    case Var(_) => true
    case Dynamic(a) => Printable(a)
    case RestrictedDynamic(a, _) => Printable(a)
    case Not(a) => Printable(a)
    case Call1(_, a) => Printable(a)
    case Call2(_, l, r) => Printable(l) && Printable(r)
    case List(_) => false
    case MonitoredAt(_, _) => true
    case Dist(_, _) => true
  }

  /** The expression with every comparison as it is printed. */
  function Norm(e: SExpr): SExpr
    requires Printable(e)
  {
    match e
    case If(c, a, b) => If(Norm(c), Norm(a), Norm(b))
    case SIndex(a, i) => SIndex(Norm(a), i)
    case BinOp(l, r, op) => BinOp(Norm(l), Norm(r), Printed(op))
    case Dynamic(a) => Dynamic(Norm(a))
    case RestrictedDynamic(a, xs) => RestrictedDynamic(Norm(a), xs)
    case Not(a) => Not(Norm(a))
    case Call1(f, a) => Call1(f, Norm(a))
    case Call2(g, l, r) => Call2(g, Norm(l), Norm(r))
    case _ => e
  }

  /** No comparison is one that is printed as another. */
  predicate Faithful(e: SExpr)
    requires Printable(e)
  {
    match e
    case If(c, a, b) => Faithful(c) && Faithful(a) && Faithful(b)
    case SIndex(a, _) => Faithful(a)
    case BinOp(l, r, op) => Faithful(l) && Faithful(r) && op != COp(Lt) && op != COp(Ge) && op != COp(Gt)
    case Dynamic(a) => Faithful(a)
    case RestrictedDynamic(a, _) => Faithful(a)
    case Not(a) => Faithful(a)
    case Call1(_, a) => Faithful(a)
    case Call2(_, l, r) => Faithful(l) && Faithful(r)
    case _ => true
  }

  lemma {:induction false} NormIsIdentity(e: SExpr)
    requires Printable(e)
    ensures Norm(e) == e <==> Faithful(e)
  {
    match e
    case If(c, a, b) => NormIsIdentity(c); NormIsIdentity(a); NormIsIdentity(b);
    case SIndex(a, _) => NormIsIdentity(a);
    case BinOp(l, r, op) =>
      NormIsIdentity(l);
      NormIsIdentity(r);
      assert op.COp? ==> op.c.Eq? || op.c.Le? || op.c.Ge? || op.c.Lt? || op.c.Gt?;
    case Dynamic(a) => NormIsIdentity(a);
    case RestrictedDynamic(a, _) => NormIsIdentity(a);
    case Not(a) => NormIsIdentity(a);
    case Call1(_, a) => NormIsIdentity(a);
    case Call2(_, l, r) => NormIsIdentity(l); NormIsIdentity(r);
    case _ =>
  }

  // ---------------------------------------------------------------------------------------------
  // Levels over atoms
  // ---------------------------------------------------------------------------------------------

  predicate NoOp(ts: Tokens) { ts.Tok? ==> !ts.head.TOp? }

  predicate NoBracket(ts: Tokens) { ts.Tok? ==> ts.head != TLBrack }

  /** An atom that no operator of level `k` or above follows is an expression of that level. */
  lemma {:induction false} LevelAtom(ts: Tokens, e: SExpr, rest: Tokens, k: nat)
    requires k <= LEVELS && Atom(ts) == Some((e, rest))
    requires NoOp(rest) || LevelOf(rest.head.op) < k
    ensures Level(ts, k) == Some((e, rest))
    decreases LEVELS - k
  {
    if k < LEVELS { LevelAtom(ts, e, rest, k + 1); }
  }

  /** Two atoms with an operator between them. */
  lemma {:induction false} LevelPair(ts: Tokens, l: SExpr, mid: Tokens, r: SExpr, rest: Tokens, k: nat)
    requires Atom(ts) == Some((l, mid)) && mid.Tok? && mid.head.TOp? && k <= LevelOf(mid.head.op)
    requires Atom(mid.tail) == Some((r, rest)) && NoOp(rest)
    ensures Level(ts, k) == Some((BinOp(l, r, mid.head.op), rest))
    decreases LEVELS - k
  {
    if k < LevelOf(mid.head.op) {
      LevelPair(ts, l, mid, r, rest, k + 1);
    } else {
      LevelAtom(ts, l, mid, k + 1);
      LevelAtom(mid.tail, r, rest, k + 1);
      assert FoldLevel(BinOp(l, r, mid.head.op), rest, k) == (BinOp(l, r, mid.head.op), rest);
    }
  }

  // ---------------------------------------------------------------------------------------------
  // Parsing undoes printing
  // ---------------------------------------------------------------------------------------------

  /** The printed form ends in something that an index behind it would apply to. */
  predicate Grabs(e: SExpr) { Indexable(e) || (e.Not? && Grabs(e.e)) }

  /** What may follow a whole expression. */
  predicate Closed(rest: Tokens) { NoOp(rest) && NoBracket(rest) }

  /** What may follow an atom without becoming a part of it. */
  predicate Follows(e: SExpr, rest: Tokens) { (Grabs(e) ==> NoBracket(rest)) && (OpenIf(e) ==> Closed(rest)) }

  lemma {:induction false} NamesPrint(xs: seq<Name>, rest: Tokens)
    requires rest.Tok? && rest.head == TRBrace
    ensures NamesP(PrintNames(xs, rest)) == (xs, rest)
  {
    if |xs| == 1 {
      assert [xs[0]] == xs;
    } else if xs != [] {
      NamesPrint(xs[1..], rest);
      assert [xs[0]] + xs[1..] == xs;
    }
  }

  /** An expression in front of something that closes it. */
  lemma {:induction false} ExprPrint(e: SExpr, rest: Tokens)
    requires Printable(e) && Closed(rest)
    ensures Expr(PrintTo(e, rest)) == Some((Norm(e), rest))
    decreases e, 2
  {
    AtomPrint(e, rest);
    LevelAtom(PrintTo(e, rest), Norm(e), rest, 0);
  }

  lemma {:induction false} ArgPrint(e: SExpr, rest: Tokens)
    requires Printable(e)
    ensures Arg(Tok(TLPar, PrintTo(e, Tok(TRPar, rest)))) == Some((Norm(e), rest))
    decreases e, 3
  {
    ExprPrint(e, Tok(TRPar, rest));
  }

  lemma {:induction false} ArgsPrint(g: Fn2, l: SExpr, r: SExpr, rest: Tokens)
    requires Printable(l) && Printable(r)
    ensures Args(Tok(TLPar, PrintTo(l, Tok(TComma, PrintTo(r, Tok(TRPar, rest))))), g) == Some((Call2(g, Norm(l), Norm(r)), rest))
    decreases Call2(g, l, r), 0, 0
  {
    var mid := Tok(TComma, PrintTo(r, Tok(TRPar, rest)));
    ExprPrint(l, mid);
    ExprPrint(r, Tok(TRPar, rest));
    ArgsStep(PrintTo(l, mid), g, Norm(l), mid);
    SecondStep(PrintTo(r, Tok(TRPar, rest)), g, Norm(l), Norm(r), rest);
  }

  lemma {:induction false} ArgsStep(ts: Tokens, g: Fn2, a: SExpr, rest: Tokens)
    requires Expr(ts) == Some((a, rest))
    ensures Args(Tok(TLPar, ts), g) == SecondArg(rest, g, a)
  {
  }

  lemma {:induction false} SecondStep(ts: Tokens, g: Fn2, a: SExpr, b: SExpr, rest: Tokens)
    requires Expr(ts) == Some((b, Tok(TRPar, rest)))
    ensures SecondArg(Tok(TComma, ts), g, a) == Some((Call2(g, a, b), rest))
  {
  }

  /** A conditional whose `else` branch is read as `otherwise`. */
  lemma {:induction false} IfPrint(e: SExpr, c: SExpr, a: SExpr, tail: Tokens, otherwise: SExpr, rest: Tokens)
    requires c < e && a < e && Printable(c) && Printable(a) && Expr(tail) == Some((otherwise, rest))
    ensures IfP(PrintTo(c, Tok(TThen, PrintTo(a, Tok(TElse, tail))))) == Some((If(Norm(c), Norm(a), otherwise), rest))
    decreases e, 0, 0
  {
    var (t2, x, y) := (Tok(TElse, tail), Norm(c), Norm(a));
    var t1 := Tok(TThen, PrintTo(a, t2));
    ElseStep(tail, x, y, otherwise, rest);
    ExprPrint(a, t2);
    ThenStep(PrintTo(a, t2), x, y, t2);
    ExprPrint(c, t1);
    IfStep(PrintTo(c, t1), x, t1);
  }

  lemma {:induction false} ElseStep(ts: Tokens, c: SExpr, a: SExpr, b: SExpr, rest: Tokens)
    requires Expr(ts) == Some((b, rest))
    ensures ElseP(Tok(TElse, ts), c, a) == Some((If(c, a, b), rest))
  {
  }

  lemma {:induction false} ThenStep(ts: Tokens, c: SExpr, a: SExpr, rest: Tokens)
    requires Expr(ts) == Some((a, rest))
    ensures ThenP(Tok(TThen, ts), c) == ElseP(rest, c, a)
  {
  }

  lemma {:induction false} IfStep(ts: Tokens, c: SExpr, rest: Tokens)
    requires Expr(ts) == Some((c, rest))
    ensures IfP(ts) == ThenP(rest, c)
  {
  }

  lemma {:induction false} RestrictedPrint(e: SExpr, xs: seq<Name>, rest: Tokens)
    requires Printable(e)
    ensures RestrictedP(Tok(TLPar, PrintTo(e, RestrictionTo(xs, rest)))) == Some((RestrictedDynamic(Norm(e), xs), rest))
    decreases e, 3
  {
    ExprPrint(e, RestrictionTo(xs, rest));
    NamesPrint(xs, Tok(TRBrace, Tok(TRPar, rest)));
  }

  /** A plain dynamic expression is not a restricted one. */
  lemma {:induction false} DynamicPrint(e: SExpr, rest: Tokens)
    requires Printable(e)
    ensures DynamicP(Tok(TLPar, PrintTo(e, Tok(TRPar, rest)))) == Some((Dynamic(Norm(e)), rest))
    decreases e, 4
  {
    ArgPrint(e, rest);
    ExprPrint(e, Tok(TRPar, rest));
  }

  lemma {:induction false} PrimaryPrint(e: SExpr, rest: Tokens)
    requires Printable(e) && Indexable(e)
    ensures Primary(PrintTo(e, rest)) == Some((Norm(e), rest))
    decreases e, 0, 0
  {
    match e
    case BinOp(l, r, op) =>
      var t2 := Tok(TRPar, rest);
      var t1 := Tok(TOp(Printed(op)), PrintTo(r, t2));
      AtomPrint(l, t1);
      AtomPrint(r, t2);
      LevelPair(PrintTo(l, t1), Norm(l), t1, Norm(r), t2, 0);
    case Val(v) =>
    case Var(x) =>
  }

  /** A token that starts neither a literal, a variable nor a parenthesis. */
  predicate Keyword(t: Token) { !t.TInt? && !t.TFloat? && !t.TBool? && !t.TId? && !t.TLPar? }

  lemma {:induction false} KeywordAtom(ts: Tokens)
    requires ts.Tok? && Keyword(ts.head)
    ensures Atom(ts) == AtomRest(ts)
  {
    assert Primary(ts) == None;
  }

  /** Parsing a printed atom gives the expression back and leaves what follows. */
  lemma {:induction false} AtomPrint(e: SExpr, rest: Tokens)
    requires Printable(e) && Follows(e, rest)
    ensures Atom(PrintTo(e, rest)) == Some((Norm(e), rest))
    decreases e, 1
  {
    match e
    case SIndex(a, i) => PrimaryPrint(a, IndexTo(i, rest));
    case Val(_) => PrimaryPrint(e, rest);
    case Var(_) => PrimaryPrint(e, rest);
    case BinOp(_, _, _) => PrimaryPrint(e, rest);
    case _ => KeywordPrint(e, rest);
  }

  lemma {:induction false} KeywordPrint(e: SExpr, rest: Tokens)
    requires Printable(e) && Follows(e, rest) && !Indexable(e) && !e.SIndex?
    ensures Atom(PrintTo(e, rest)) == Some((Norm(e), rest))
    decreases e, 0, 1
  {
    if e.If? {
      AtomIf(PrintTo(e.cond, Tok(TThen, PrintTo(e.thn, Tok(TElse, PrintTo(e.els, rest))))));
      ExprPrint(e.els, rest);
      IfPrint(e, e.cond, e.thn, PrintTo(e.els, rest), Norm(e.els), rest);
    } else if e.Not? {
      AtomPrint(e.e, rest);
      AtomNot(PrintTo(e.e, rest));
    } else if e.Call2? {
      AtomFn2(e.g, Tok(TLPar, PrintTo(e.lhs, Tok(TComma, PrintTo(e.rhs, Tok(TRPar, rest))))));
      ArgsPrint(e.g, e.lhs, e.rhs, rest);
    } else {
      CallPrint(e, rest);
    }
  }

  lemma {:induction false} CallPrint(e: SExpr, rest: Tokens)
    requires Printable(e) && (e.Dynamic? || e.RestrictedDynamic? || e.Call1? || e.MonitoredAt? || e.Dist?)
    ensures Atom(PrintTo(e, rest)) == Some((Norm(e), rest))
    decreases e, 0, 0
  {
    match e
    case Dynamic(a) =>
      AtomDynamic(Tok(TLPar, PrintTo(a, Tok(TRPar, rest))));
      DynamicPrint(a, rest);
    case RestrictedDynamic(a, xs) =>
      AtomDynamic(Tok(TLPar, PrintTo(a, RestrictionTo(xs, rest))));
      RestrictedPrint(a, xs, rest);
    case Call1(f, a) =>
      ArgPrint(a, rest);
      AtomFn1(f, Tok(TLPar, PrintTo(a, Tok(TRPar, rest))), Norm(a), rest);
    case MonitoredAt(_, _) => KeywordAtom(PrintTo(e, rest));
    case Dist(_, _) => KeywordAtom(PrintTo(e, rest));
  }

  // The alternatives of an atom that a keyword selects.

  lemma {:induction false} AtomNot(ts: Tokens)
    ensures Atom(Tok(TBang, ts)) == Negate(Atom(ts))
  {
    KeywordAtom(Tok(TBang, ts));
  }

  lemma {:induction false} AtomIf(ts: Tokens)
    ensures Atom(Tok(TIf, ts)) == IfP(ts)
  {
    KeywordAtom(Tok(TIf, ts));
  }

  lemma {:induction false} AtomFn1(f: Fn1, ts: Tokens, e: SExpr, rest: Tokens)
    requires Arg(ts) == Some((e, rest))
    ensures Atom(Tok(TFn1(f), ts)) == Some((Call1(f, e), rest))
  {
    KeywordAtom(Tok(TFn1(f), ts));
  }

  lemma {:induction false} AtomFn2(g: Fn2, ts: Tokens)
    ensures Atom(Tok(TFn2(g), ts)) == Args(ts, g)
  {
    KeywordAtom(Tok(TFn2(g), ts));
  }

  lemma {:induction false} AtomDynamic(ts: Tokens)
    ensures Atom(Tok(TDynamic, ts)) == DynamicP(ts)
  {
    KeywordAtom(Tok(TDynamic, ts));
  }

  /** Parsing undoes printing, up to the comparisons that are printed as others. */
  lemma {:induction false} ParsePrint(e: SExpr)
    requires Printable(e)
    ensures Expr(Print(e)) == Some((Norm(e), End))
  {
    ExprPrint(e, End);
  }
}
