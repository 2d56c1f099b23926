/** What the parser has read when it succeeds, and how much.

    Parsing neither loses nor invents a token but parentheses, and never reads over a closing parenthesis
    that it has not opened; printing gives just the tokens of an expression. */
module TokenWeights {
  import opened Lang
  import opened Parsers

  // ---------------------------------------------------------------------------------------------
  // What has been read
  // ---------------------------------------------------------------------------------------------

  lemma {:induction false} ArgsRead(ts: Tokens, g: Fn2) returns (a: SExpr, t: Tokens, b: SExpr, rest: Tokens)
    requires Args(ts, g).Some?
    ensures ts.Tok? && ts.head == TLPar && Expr(ts.tail) == Some((a, Tok(TComma, t))) && Expr(t) == Some((b, Tok(TRPar, rest)))
    ensures Args(ts, g) == Some((Call2(g, a, b), rest))
  {
    a, t := Expr(ts.tail).value.0, Expr(ts.tail).value.1;
    SecondRead(t, g, a);
    t := t.tail;
    b, rest := Expr(t).value.0, Expr(t).value.1.tail;
  }

  lemma {:induction false} SecondRead(ts: Tokens, g: Fn2, a: SExpr)
    requires SecondArg(ts, g, a).Some?
    ensures ts.Tok? && ts.head == TComma && Expr(ts.tail).Some?
    ensures var (b, t) := Expr(ts.tail).value; t.Tok? && t.head == TRPar && SecondArg(ts, g, a) == Some((Call2(g, a, b), t.tail))
  {
  }

  lemma {:induction false} IfRead(ts: Tokens) returns (c: SExpr, t: Tokens, a: SExpr, u: Tokens)
    requires IfP(ts).Some?
    ensures Expr(ts) == Some((c, Tok(TThen, t))) && Expr(t) == Some((a, Tok(TElse, u))) && Expr(u).Some?
    ensures IfP(ts) == Some((If(c, a, Expr(u).value.0), Expr(u).value.1))
  {
    c, t := Expr(ts).value.0, Expr(ts).value.1;
    ThenRead(t, c);
    t := t.tail;
    a, u := Expr(t).value.0, Expr(t).value.1;
    ElseRead(u, c, a);
    u := u.tail;
  }

  lemma {:induction false} ThenRead(ts: Tokens, c: SExpr)
    requires ThenP(ts, c).Some?
    ensures ts.Tok? && ts.head == TThen && Expr(ts.tail).Some?
    ensures ThenP(ts, c) == ElseP(Expr(ts.tail).value.1, c, Expr(ts.tail).value.0)
  {
  }

  lemma {:induction false} ElseRead(ts: Tokens, c: SExpr, a: SExpr)
    requires ElseP(ts, c, a).Some?
    ensures ts.Tok? && ts.head == TElse && Expr(ts.tail).Some?
    ensures ElseP(ts, c, a) == Some((If(c, a, Expr(ts.tail).value.0), Expr(ts.tail).value.1))
  {
  }

  lemma {:induction false} RestrictionRead(e: SExpr, ts: Tokens) returns (t: Tokens, xs: seq<Name>, rest: Tokens)
    requires RestrictionP(e, ts).Some?
    ensures ts == Tok(TComma, Tok(TLBrace, t)) && NamesP(t) == (xs, Tok(TRBrace, Tok(TRPar, rest)))
    ensures RestrictionP(e, ts) == Some((RestrictedDynamic(e, xs), rest))
  {
    t := ts.tail.tail;
    xs, rest := NamesP(t).0, NamesP(t).1.tail.tail;
  }

  lemma {:induction false} RestrictedRead(ts: Tokens) returns (e: SExpr, t: Tokens, xs: seq<Name>, rest: Tokens)
    requires RestrictedP(ts).Some?
    ensures ts.Tok? && ts.head == TLPar && Expr(ts.tail) == Some((e, Tok(TComma, Tok(TLBrace, t))))
    ensures NamesP(t) == (xs, Tok(TRBrace, Tok(TRPar, rest))) && RestrictedP(ts) == Some((RestrictedDynamic(e, xs), rest))
  {
    e := Expr(ts.tail).value.0;
    t, xs, rest := RestrictionRead(e, Expr(ts.tail).value.1);
  }

  lemma {:induction false} Fn1Read(f: Fn1, ts: Tokens)
    requires Atom(Tok(TFn1(f), ts)).Some?
    ensures ts.Tok? && ts.head == TLPar && Expr(ts.tail).Some?
    ensures Atom(Tok(TFn1(f), ts)).value.0 == Call1(f, Expr(ts.tail).value.0)
  {
    KeywordAtom(Tok(TFn1(f), ts));
    assert Arg(ts).Some?;
  }

  lemma {:induction false} DynamicRead(ts: Tokens)
    requires DynamicP(ts).Some?
    ensures ts.Tok? && ts.head == TLPar && Expr(ts.tail).Some?
    ensures var (e, a) := (DynamicP(ts).value.0, Expr(ts.tail).value.0); e == Dynamic(a) || (e.RestrictedDynamic? && e.e == a)
  {
  }

  // ---------------------------------------------------------------------------------------------
  // Conservation of tokens
  // ---------------------------------------------------------------------------------------------

  /** The tokens other than parentheses in front of the closing parenthesis that ends `d` open ones and
      the one around them. */
  function Weight(ts: Tokens, d: nat): nat {
    if ts.End? then 0
    else match ts.head
      case TLPar => Weight(ts.tail, d + 1)
      case TRPar => if d == 0 then 0 else Weight(ts.tail, d - 1)
      case _ => 1 + Weight(ts.tail, d)
  }

  function NamesMass(xs: seq<Name>): nat { if xs == [] then 0 else 2 * |xs| - 1 }

  /** The tokens other than parentheses of an expression. */
  function Mass(e: SExpr): nat
    decreases e, 0
  {
    match e
    case If(c, a, b) => 3 + Mass(c) + Mass(a) + Mass(b)
    case SIndex(a, _) => 3 + Mass(a)
    case Val(_) => 1
    case BinOp(l, r, _) => 1 + Mass(l) + Mass(r)
    case Var(_) => 1
    case Dynamic(a) => 1 + Mass(a)
    case RestrictedDynamic(a, xs) => 4 + Mass(a) + NamesMass(xs)
    case Not(a) => 1 + Mass(a)
    case Call1(_, a) => 1 + Mass(a)
    case Call2(_, l, r) => 2 + Mass(l) + Mass(r)
    case List(_) => 2 + MassFrom(e, 0)
    case MonitoredAt(_, _) => 4
    case Dist(_, _) => 4
  }

  function MassFrom(e: SExpr, k: nat): nat
    requires e.List? && k <= |e.es|
    decreases e, 0, |e.es| - k
  {
    if k == |e.es| then 0 else (if k == 0 then 0 else 1) + Mass(e.es[k]) + MassFrom(e, k + 1)
  }

  lemma {:induction false} NamesWeigh(xs: seq<Name>, rest: Tokens, d: nat)
    ensures Weight(PrintNames(xs, rest), d) == NamesMass(xs) + Weight(rest, d)
  {
    if 1 < |xs| { NamesWeigh(xs[1..], rest, d); }
  }

  lemma {:induction false} IndexToWeighs(i: int, rest: Tokens, d: nat)
    ensures Weight(IndexTo(i, rest), d) == 3 + Weight(rest, d)
  {
    assert Weight(Tok(TInt(i), Tok(TRBrack, rest)), d) == 2 + Weight(rest, d);
  }

  lemma {:induction false} PairWeighs(u: Name, v: Name, rest: Tokens, d: nat)
    ensures Weight(PairTo(u, v, rest), d) == 3 + Weight(rest, d)
  {
    var t := Tok(TId(v), Tok(TRPar, rest));
    assert Weight(t, d + 1) == 1 + Weight(rest, d);
    assert Weight(Tok(TId(u), Tok(TComma, t)), d + 1) == 2 + Weight(t, d + 1);
  }

  /** Printing adds the tokens of the expression. */
  lemma {:induction false} PrintWeighs(e: SExpr, rest: Tokens, d: nat)
    ensures Weight(PrintTo(e, rest), d) == Mass(e) + Weight(rest, d)
    decreases e, 1
  {
    match e
    case If(_, _, _) => PrintIfWeighs(e, rest, d);
    case SIndex(a, i) => PrintWeighs(a, IndexTo(i, rest), d); IndexToWeighs(i, rest, d);
    case BinOp(_, _, _) => PrintBinOpWeighs(e, rest, d);
    case Dynamic(a) => PrintArgWeighs(e, a, rest, d);
    case RestrictedDynamic(_, _) => PrintRestrictedWeighs(e, rest, d);
    case Not(a) => PrintWeighs(a, rest, d);
    case Call1(_, a) => PrintArgWeighs(e, a, rest, d);
    case Call2(_, _, _) => PrintCall2Weighs(e, rest, d);
    case List(_) => PrintFromWeighs(e, 0, Tok(TRBrack, rest), d);
    case MonitoredAt(u, v) => PairWeighs(u, v, rest, d);
    case Dist(u, v) => PairWeighs(u, v, rest, d);
    case _ =>
  }

  lemma {:induction false} PrintArgWeighs(e: SExpr, a: SExpr, rest: Tokens, d: nat)
    requires a < e
    ensures Weight(Tok(TLPar, PrintTo(a, Tok(TRPar, rest))), d) == Mass(a) + Weight(rest, d)
    decreases e, 0
  {
    PrintWeighs(a, Tok(TRPar, rest), d + 1);
  }

  lemma {:induction false} PrintIfWeighs(e: SExpr, rest: Tokens, d: nat)
    requires e.If?
    ensures Weight(PrintTo(e, rest), d) == Mass(e) + Weight(rest, d)
    decreases e, 0
  {
    var els := Tok(TElse, PrintTo(e.els, rest));
    var thn := Tok(TThen, PrintTo(e.thn, els));
    PrintWeighs(e.cond, thn, d);
    PrintWeighs(e.thn, els, d);
    PrintWeighs(e.els, rest, d);
    assert PrintTo(e, rest) == Tok(TIf, PrintTo(e.cond, thn));
  }

  lemma {:induction false} PrintBinOpWeighs(e: SExpr, rest: Tokens, d: nat)
    requires e.BinOp?
    ensures Weight(PrintTo(e, rest), d) == Mass(e) + Weight(rest, d)
    decreases e, 0
  {
    var end := Tok(TRPar, rest);
    var mid := Tok(TOp(Printed(e.op)), PrintTo(e.rhs, end));
    PrintWeighs(e.lhs, mid, d + 1);
    PrintWeighs(e.rhs, end, d + 1);
    assert PrintTo(e, rest) == Tok(TLPar, PrintTo(e.lhs, mid));
  }

  lemma {:induction false} PrintCall2Weighs(e: SExpr, rest: Tokens, d: nat)
    requires e.Call2?
    ensures Weight(PrintTo(e, rest), d) == Mass(e) + Weight(rest, d)
    decreases e, 0
  {
    var end := Tok(TRPar, rest);
    var mid := Tok(TComma, PrintTo(e.rhs, end));
    PrintWeighs(e.lhs, mid, d + 1);
    PrintWeighs(e.rhs, end, d + 1);
    assert PrintTo(e, rest) == Tok(TFn2(e.g), Tok(TLPar, PrintTo(e.lhs, mid)));
  }

  lemma {:induction false} PrintRestrictedWeighs(e: SExpr, rest: Tokens, d: nat)
    requires e.RestrictedDynamic?
    ensures Weight(PrintTo(e, rest), d) == Mass(e) + Weight(rest, d)
    decreases e, 0
  {
    var end := Tok(TRBrace, Tok(TRPar, rest));
    PrintWeighs(e.e, RestrictionTo(e.names, rest), d + 1);
    NamesWeigh(e.names, end, d + 1);
    assert Weight(end, d + 1) == 1 + Weight(rest, d);
    assert Weight(RestrictionTo(e.names, rest), d + 1) == 2 + Weight(PrintNames(e.names, end), d + 1);
  }

  lemma {:induction false} PrintFromWeighs(e: SExpr, k: nat, rest: Tokens, d: nat)
    requires e.List? && k <= |e.es|
    ensures Weight(PrintFrom(e, k, rest), d) == MassFrom(e, k) + Weight(rest, d)
    decreases e, 0, |e.es| - k
  {
    if k < |e.es| {
      PrintFromWeighs(e, k + 1, rest, d);
      PrintWeighs(e.es[k], PrintFrom(e, k + 1, rest), d);
    }
  }

  /** What is read and what is left weigh what there was, at every depth. */
  ghost predicate Weighs(ts: Tokens, r: Parsed, d: nat) {
    r.Some? ==> Weight(ts, d) == Mass(r.value.0) + Weight(r.value.1, d)
  }

  lemma {:induction false} LevelWeighs(ts: Tokens, k: nat, d: nat)
    requires k <= LEVELS
    ensures Weighs(ts, Level(ts, k), d)
    decreases ts, 10 + LEVELS - k
  {
    if k == LEVELS {
      AtomWeighs(ts, d);
    } else {
      LevelWeighs(ts, k + 1, d);
      if Level(ts, k + 1).Some? {
        var (left, rest) := Level(ts, k + 1).value;
        FoldWeighs(left, rest, k, d);
      }
    }
  }

  lemma {:induction false} FoldWeighs(left: SExpr, ts: Tokens, k: nat, d: nat)
    requires k < LEVELS
    ensures var (e, rest) := FoldLevel(left, ts, k); Mass(left) + Weight(ts, d) == Mass(e) + Weight(rest, d)
    decreases ts, 30
  {
    if AtOp(ts, k) && Level(ts.tail, k + 1).Some? {
      var (right, rest) := Level(ts.tail, k + 1).value;
      LevelWeighs(ts.tail, k + 1, d);
      FoldWeighs(BinOp(left, right, ts.head.op), rest, k, d);
    }
  }

  lemma {:induction false} ExprWeighs(ts: Tokens, d: nat)
    ensures Weighs(ts, Expr(ts), d)
    decreases ts, 10 + LEVELS + 1
  {
    LevelWeighs(ts, 0, d);
  }

  lemma {:induction false} AtomWeighs(ts: Tokens, d: nat)
    ensures Weighs(ts, Atom(ts), d)
    decreases ts, 9
  {
    IndexWeighs(ts, d);
    AtomRestWeighs(ts, d);
  }

  lemma {:induction false} PrimaryWeighs(ts: Tokens, d: nat)
    ensures Weighs(ts, Primary(ts), d)
    decreases ts, 1
  {
    if ts.Tok? && ts.head == TLPar { ExprWeighs(ts.tail, d + 1); }
  }

  lemma {:induction false} IndexWeighs(ts: Tokens, d: nat)
    ensures Weighs(ts, IndexP(ts), d)
    decreases ts, 2
  {
    PrimaryWeighs(ts, d);
    if IndexP(ts).Some? {
      var rest := Primary(ts).value.1;
      IndexToWeighs(rest.tail.head.i, rest.tail.tail.tail, d);
    }
  }

  lemma {:induction false} ArgWeighs(ts: Tokens, d: nat)
    ensures Weighs(ts, Arg(ts), d)
    decreases ts, 1
  {
    if ts.Tok? && ts.head == TLPar { ExprWeighs(ts.tail, d + 1); }
  }

  lemma {:induction false} ArgsWeigh(ts: Tokens, a: SExpr, t: Tokens, b: SExpr, rest: Tokens, d: nat)
    requires Expr(ts) == Some((a, Tok(TComma, t))) && Expr(t) == Some((b, Tok(TRPar, rest)))
    ensures Weight(Tok(TLPar, ts), d) == 1 + Mass(a) + Mass(b) + Weight(rest, d)
    decreases ts, 40
  {
    ExprWeighs(ts, d + 1);
    ExprWeighs(t, d + 1);
    TwoWeigh(ts, a, t, b, rest, d);
  }

  lemma {:induction false} Fn2Weighs(ts: Tokens, g: Fn2, d: nat)
    ensures Args(ts, g).Some? ==> Weight(ts, d) + 1 == Mass(Args(ts, g).value.0) + Weight(Args(ts, g).value.1, d)
    decreases ts, 1
  {
    if Args(ts, g).Some? {
      var a, t, b, rest := ArgsRead(ts, g);
      ArgsWeigh(ts.tail, a, t, b, rest, d);
    }
  }

  lemma {:induction false} TwoWeigh(ts: Tokens, a: SExpr, t: Tokens, b: SExpr, rest: Tokens, d: nat)
    requires Weight(ts, d + 1) == Mass(a) + Weight(Tok(TComma, t), d + 1)
    requires Weight(t, d + 1) == Mass(b) + Weight(Tok(TRPar, rest), d + 1)
    ensures Weight(Tok(TLPar, ts), d) == 1 + Mass(a) + Mass(b) + Weight(rest, d)
  {
  }

  lemma {:induction false} IfWeighs(ts: Tokens, d: nat)
    ensures IfP(ts).Some? ==> Weight(ts, d) + 1 == Mass(IfP(ts).value.0) + Weight(IfP(ts).value.1, d)
    decreases ts, 30
  {
    if IfP(ts).Some? {
      var c, t1, a, t2 := IfRead(ts);
      ExprWeighs(ts, d);
      ExprWeighs(t1, d);
      ExprWeighs(t2, d);
    }
  }

  lemma {:induction false} NamesReadWeigh(ts: Tokens, d: nat)
    ensures var (xs, rest) := NamesP(ts); Weight(ts, d) == NamesMass(xs) + Weight(rest, d)
  {
    match ts
    case Tok(TId(x), Tok(TComma, Tok(TId(y), rest))) =>
      NamesReadWeigh(ts.tail.tail, d);
      assert NamesP(ts.tail.tail).0 != [];
    case _ =>
  }

  lemma {:induction false} RestrictionWeighs(t: Tokens, xs: seq<Name>, rest: Tokens, d: nat)
    requires NamesP(t) == (xs, Tok(TRBrace, Tok(TRPar, rest)))
    ensures Weight(Tok(TComma, Tok(TLBrace, t)), d + 1) == 3 + NamesMass(xs) + Weight(rest, d)
  {
    NamesReadWeigh(t, d + 1);
    assert Weight(Tok(TRBrace, Tok(TRPar, rest)), d + 1) == 1 + Weight(rest, d);
  }

  lemma {:induction false} RestrictedWeighs(ts: Tokens, e: SExpr, t: Tokens, xs: seq<Name>, rest: Tokens, d: nat)
    requires Expr(ts) == Some((e, Tok(TComma, Tok(TLBrace, t)))) && NamesP(t) == (xs, Tok(TRBrace, Tok(TRPar, rest)))
    ensures Weight(Tok(TLPar, ts), d) == Mass(e) + 3 + NamesMass(xs) + Weight(rest, d)
    decreases ts, 40
  {
    ExprWeighs(ts, d + 1);
    RestrictionWeighs(t, xs, rest, d);
  }

  lemma {:induction false} DynamicWeighs(ts: Tokens, d: nat)
    ensures DynamicP(ts).Some? ==> Weight(ts, d) + 1 == Mass(DynamicP(ts).value.0) + Weight(DynamicP(ts).value.1, d)
    decreases ts, 2
  {
    if RestrictedP(ts).Some? {
      var e, t, xs, rest := RestrictedRead(ts);
      assert DynamicP(ts) == Some((RestrictedDynamic(e, xs), rest)) && ts == Tok(TLPar, ts.tail);
      RestrictedWeighs(ts.tail, e, t, xs, rest, d);
      assert Mass(RestrictedDynamic(e, xs)) == 4 + Mass(e) + NamesMass(xs);
    } else {
      ArgWeighs(ts, d);
    }
  }

  lemma {:induction false} NamePairWeighs(ts: Tokens, d: nat)
    ensures NamePair(ts).Some? ==> Weight(ts, d) == 3 + Weight(NamePair(ts).value.1, d)
  {
    match ts
    case Tok(TLPar, Tok(TId(u), Tok(TComma, Tok(TId(v), Tok(TRPar, rest))))) => PairWeighs(u, v, rest, d);
    case _ =>
  }

  lemma {:induction false} AtomRestWeighs(ts: Tokens, d: nat)
    ensures Weighs(ts, AtomRest(ts), d)
    decreases ts, 8
  {
    if ts.Tok? {
      match ts.head
      case TBang => AtomWeighs(ts.tail, d);
      case TDynamic => DynamicWeighs(ts.tail, d);
      case TFn1(f) => ArgWeighs(ts.tail, d);
      case TFn2(g) => Fn2Weighs(ts.tail, g, d);
      case TIf => IfWeighs(ts.tail, d);
      case TMonitoredAt => NamePairWeighs(ts.tail, d);
      case TDist => NamePairWeighs(ts.tail, d);
      case _ => PrimaryWeighs(ts, d);
    }
  }
}
