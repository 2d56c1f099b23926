/** Exactly which expressions come back when they are printed and parsed: those that are read part by part. */
module RoundTrips {
  import opened Lang
  import opened Parsers
  import opened OperatorChains
  import opened TokenWeights

  // ---------------------------------------------------------------------------------------------
  // Operators around what was read first
  // ---------------------------------------------------------------------------------------------

  /** Folding leaves the left operand as it is or makes it part of something bigger. */
  lemma {:induction false} FoldGrows(left: SExpr, ts: Tokens, k: nat)
    requires k < LEVELS
    ensures var (e, rest) := FoldLevel(left, ts, k); (e == left && rest == ts) || (e.BinOp? && Mass(left) < Mass(e))
    decreases ts
  {
    if AtOp(ts, k) && Level(ts.tail, k + 1).Some? {
      var (right, rest) := Level(ts.tail, k + 1).value;
      FoldGrows(BinOp(left, right, ts.head.op), rest, k);
    }
  }

  lemma {:induction false} LevelGrows(ts: Tokens, k: nat)
    requires k <= LEVELS && Level(ts, k).Some?
    ensures Atom(ts).Some?
    ensures Level(ts, k) == Atom(ts) || (Level(ts, k).value.0.BinOp? && Mass(Atom(ts).value.0) < Mass(Level(ts, k).value.0))
    decreases LEVELS - k
  {
    if k < LEVELS {
      var (left, rest) := Level(ts, k + 1).value;
      LevelGrows(ts, k + 1);
      FoldGrows(left, rest, k);
    }
  }

  /** The left operand of what folding gives is what there was, with the operator and the right operand
      next in the input, or it has grown. */
  lemma {:induction false} FoldSplit(left: SExpr, ts: Tokens, k: nat, l: SExpr, r: SExpr, op: BinOp)
    requires k < LEVELS && FoldLevel(left, ts, k).0 == BinOp(l, r, op)
    ensures || (left == BinOp(l, r, op) && FoldLevel(left, ts, k).1 == ts)
            || (l == left && AtOp(ts, k) && ts.head.op == op && Level(ts.tail, k + 1).Some? && Level(ts.tail, k + 1).value.0 == r)
            || (l.BinOp? && Mass(left) < Mass(l))
    decreases ts
  {
    if AtOp(ts, k) && Level(ts.tail, k + 1).Some? {
      var (right, rest) := Level(ts.tail, k + 1).value;
      FoldSplit(BinOp(left, right, ts.head.op), rest, k, l, r, op);
    }
  }

  /** The same from the first atom on. */
  lemma {:induction false} LevelSplit(ts: Tokens, k: nat, l: SExpr, r: SExpr, op: BinOp)
    requires k <= LEVELS && Level(ts, k).Some? && Level(ts, k).value.0 == BinOp(l, r, op)
    ensures Atom(ts).Some?
    ensures var (x, t) := Atom(ts).value;
            || x == BinOp(l, r, op)
            || (l == x && t.Tok? && t.head == TOp(op) && Level(t.tail, LevelOf(op) + 1).Some? && Level(t.tail, LevelOf(op) + 1).value.0 == r)
            || (l.BinOp? && Mass(x) < Mass(l))
    decreases LEVELS - k
  {
    if k < LEVELS {
      var (left, rest) := Level(ts, k + 1).value;
      LevelGrows(ts, k + 1);
      FoldSplit(left, rest, k, l, r, op);
      if left == BinOp(l, r, op) { LevelSplit(ts, k + 1, l, r, op); }
    }
  }

  /** An atom with an operator and an operand behind it is not all that is read. */
  lemma {:induction false} LevelGoesOn(ts: Tokens, k: nat)
    requires k < LEVELS && Atom(ts).Some? && AtOp(Atom(ts).value.1, k) && Level(Atom(ts).value.1.tail, k + 1).Some?
    ensures Expr(ts).Some? && Mass(Atom(ts).value.0) < Mass(Expr(ts).value.0)
  {
    var (x, t) := Atom(ts).value;
    LevelAtom(ts, x, t, k + 1);
    var (right, rest) := Level(t.tail, k + 1).value;
    FoldGrows(BinOp(x, right, t.head.op), rest, k);
    LowerGrows(ts, k);
  }

  lemma {:induction false} LowerGrows(ts: Tokens, k: nat)
    requires k < LEVELS && Level(ts, k).Some?
    ensures Expr(ts).Some? && Mass(Level(ts, k).value.0) <= Mass(Expr(ts).value.0)
    decreases k
  {
    if 0 < k {
      var (left, rest) := Level(ts, k).value;
      FoldGrows(left, rest, k - 1);
      LowerGrows(ts, k - 1);
    }
  }

  // ---------------------------------------------------------------------------------------------
  // What is read of a print
  // ---------------------------------------------------------------------------------------------

  /** What is between the parentheses of a printed operator. */
  function Inner(e: SExpr, rest: Tokens): Tokens
    requires e.BinOp?
  {
    PrintTo(e.lhs, Tok(TOp(Printed(e.op)), PrintTo(e.rhs, Tok(TRPar, rest))))
  }

  /** The parentheses of a printed operator hold no more and no less than the operator. */
  lemma {:induction false} PrimaryOfBinOp(e: SExpr, rest: Tokens)
    requires e.BinOp? && Primary(PrintTo(e, rest)).Some?
    ensures Expr(Inner(e, rest)).Some? && Expr(Inner(e, rest)).value.0 == Primary(PrintTo(e, rest)).value.0
    ensures Mass(Primary(PrintTo(e, rest)).value.0) == Mass(e)
  {
    var end := Tok(TRPar, rest);
    ExprWeighs(Inner(e, rest), 0);
    PrintWeighs(e.lhs, Tok(TOp(Printed(e.op)), PrintTo(e.rhs, end)), 0);
    PrintWeighs(e.rhs, end, 0);
  }

  /** What an index can apply to in a print is no more than what was printed, and if it is all of it, that
      is indexable. */
  lemma {:induction false} PrimaryOfPrint(e: SExpr, rest: Tokens)
    requires Primary(PrintTo(e, rest)).Some?
    ensures Mass(Primary(PrintTo(e, rest)).value.0) <= Mass(e)
    ensures Mass(Primary(PrintTo(e, rest)).value.0) == Mass(e) ==> Indexable(e)
    decreases e
  {
    match e
    case SIndex(a, i) => PrimaryOfPrint(a, IndexTo(i, rest));
    case BinOp(_, _, _) => PrimaryOfBinOp(e, rest);
    case _ =>
  }

  /** An operator read at the start of a print was in parentheses there. */
  lemma {:induction false} OperatorOfPrint(e: SExpr, rest: Tokens)
    requires Atom(PrintTo(e, rest)).Some? && Atom(PrintTo(e, rest)).value.0.BinOp?
    ensures Mass(Atom(PrintTo(e, rest)).value.0) <= Mass(e)
  {
    var ts := PrintTo(e, rest);
    if Keyword(ts.head) {
      KeywordAtom(ts);
      KeywordIsNoOperator(ts);
    } else {
      assert Atom(ts) == Primary(ts);
      PrimaryOfPrint(e, rest);
    }
  }

  lemma {:induction false} KeywordIsNoOperator(ts: Tokens)
    requires ts.Tok? && Keyword(ts.head) && AtomRest(ts).Some?
    ensures !AtomRest(ts).value.0.BinOp?
  {
    match ts.head
    case TDynamic => DynamicRead(ts.tail);
    case TIf => IfShape(ts.tail);
    case TFn2(g) => ArgsShape(ts.tail, g);
    case _ =>
  }

  /** A printed operator that is read as an atom is read whole. */
  lemma {:induction false} BinOpWhole(e: SExpr, rest: Tokens)
    requires e.BinOp? && Atom(PrintTo(e, rest)).Some?
    ensures Mass(e) <= Mass(Atom(PrintTo(e, rest)).value.0)
  {
    PrimaryOfBinOp(e, rest);
  }

  /** What comes back as it was has not been read as an operand of anything. */
  lemma {:induction false} LevelWhole(e: SExpr, rest: Tokens, k: nat)
    requires k <= LEVELS && Level(PrintTo(e, rest), k).Some? && Level(PrintTo(e, rest), k).value.0 == e
    ensures Atom(PrintTo(e, rest)) == Level(PrintTo(e, rest), k)
  {
    LevelGrows(PrintTo(e, rest), k);
    if e.BinOp? { BinOpWhole(e, rest); }
  }

  // ---------------------------------------------------------------------------------------------
  // What comes back was printable
  // ---------------------------------------------------------------------------------------------

  predicate Good(e: SExpr) { Printable(e) && Faithful(e) }

  /** A good expression in front of what closes it is read as it was, and nothing else is. */
  lemma {:induction false} GoodExpr(e: SExpr, rest: Tokens)
    requires Good(e) && Closed(rest)
    ensures Expr(PrintTo(e, rest)) == Some((e, rest))
  {
    ExprPrint(e, rest);
    NormIsIdentity(e);
  }

  lemma {:induction false} LevelBack(e: SExpr, rest: Tokens, k: nat)
    requires k <= LEVELS && Level(PrintTo(e, rest), k).Some? && Level(PrintTo(e, rest), k).value.0 == e
    ensures Good(e)
    decreases e, 3
  {
    LevelWhole(e, rest, k);
    AtomBack(e, rest);
  }

  lemma {:induction false} AtomBack(e: SExpr, rest: Tokens)
    requires Atom(PrintTo(e, rest)).Some? && Atom(PrintTo(e, rest)).value.0 == e
    ensures Good(e)
    decreases e, 2
  {
    var ts := PrintTo(e, rest);
    match e
    case If(_, _, _) => IfBack(e, rest);
    case SIndex(_, _) => IndexBack(e, rest);
    case BinOp(_, _, _) => PrimaryBack(e, rest);
    case Not(a) => AtomNot(PrintTo(a, rest)); AtomBack(a, rest);
    case Call1(f, a) =>
      Fn1Read(f, ts.tail);
      LevelBack(a, Tok(TRPar, rest), 0);
    case Call2(_, _, _) => Call2Back(e, rest);
    case Dynamic(a) =>
      AtomDynamic(ts.tail);
      DynamicRead(ts.tail);
      LevelBack(a, Tok(TRPar, rest), 0);
    case RestrictedDynamic(a, xs) =>
      AtomDynamic(ts.tail);
      DynamicRead(ts.tail);
      LevelBack(a, RestrictionTo(xs, rest), 0);
    case List(_) => KeywordAtom(ts);
    case Val(v) => ValBack(v, rest);
    case _ =>
  }

  lemma {:induction false} ValBack(v: Value, rest: Tokens)
    requires Atom(Tok(PrintVal(v), rest)).Some? && Atom(Tok(PrintVal(v), rest)).value.0 == Val(v)
    ensures Literal(v)
  {
    var ts := Tok(PrintVal(v), rest);
    if Keyword(ts.head) {
      KeywordAtom(ts);
    } else {
      assert Primary(ts).Some? && Primary(ts).value.0 == Atom(ts).value.0;
    }
  }

  lemma {:induction false} IfBack(e: SExpr, rest: Tokens)
    requires e.If? && Atom(PrintTo(e, rest)).Some? && Atom(PrintTo(e, rest)).value.0 == e
    ensures Good(e)
    decreases e, 1
  {
    var els := Tok(TElse, PrintTo(e.els, rest));
    var thn := Tok(TThen, PrintTo(e.thn, els));
    AtomIf(PrintTo(e.cond, thn));
    var c, t, a, u := IfRead(PrintTo(e.cond, thn));
    LevelBack(e.cond, thn, 0);
    GoodExpr(e.cond, thn);
    LevelBack(e.thn, els, 0);
    GoodExpr(e.thn, els);
    LevelBack(e.els, rest, 0);
  }

  lemma {:induction false} Call2Back(e: SExpr, rest: Tokens)
    requires e.Call2? && Atom(PrintTo(e, rest)).Some? && Atom(PrintTo(e, rest)).value.0 == e
    ensures Good(e)
    decreases e, 1
  {
    var mid := Tok(TComma, PrintTo(e.rhs, Tok(TRPar, rest)));
    AtomFn2(e.g, Tok(TLPar, PrintTo(e.lhs, mid)));
    var a, t, b, u := ArgsRead(Tok(TLPar, PrintTo(e.lhs, mid)), e.g);
    LevelBack(e.lhs, mid, 0);
    GoodExpr(e.lhs, mid);
    LevelBack(e.rhs, Tok(TRPar, rest), 0);
  }

  lemma {:induction false} IndexBack(e: SExpr, rest: Tokens)
    requires e.SIndex? && Atom(PrintTo(e, rest)).Some? && Atom(PrintTo(e, rest)).value.0 == e
    ensures Good(e)
    decreases e, 1
  {
    var ts, index := PrintTo(e, rest), IndexTo(e.offset, rest);
    if IndexP(ts).Some? {
      PrimaryOfPrint(e.e, index);
      PrimaryBack(e.e, index);
    } else if Keyword(ts.head) {
      KeywordIsNoIndex(ts);
    } else {
      PrimaryOfPrint(e.e, index);
    }
  }

  lemma {:induction false} PrimaryBack(e: SExpr, rest: Tokens)
    requires Indexable(e) && Primary(PrintTo(e, rest)).Some? && Primary(PrintTo(e, rest)).value.0 == e
    ensures Good(e)
    decreases e, 1
  {
    if e.BinOp? {
      PrimaryOfBinOp(e, rest);
      OperatorBack(e, rest);
    }
  }

  /** The left operand of an operator that comes back is an atom with the operator behind it. */
  lemma {:induction false} OperatorBack(e: SExpr, rest: Tokens)
    requires e.BinOp? && Expr(Inner(e, rest)).Some? && Expr(Inner(e, rest)).value.0 == e
    ensures Good(e)
    decreases e, 0
  {
    var (l, r, op, end) := (e.lhs, e.rhs, e.op, Tok(TRPar, rest));
    var mid := Tok(TOp(Printed(op)), PrintTo(r, end));
    LevelSplit(Inner(e, rest), 0, l, r, op);
    var (x, t) := Atom(PrintTo(l, mid)).value;
    if x == e {
      OperatorOfPrint(l, mid);
      assert false;
    } else if l != x {
      BinOpWhole(l, mid);
      assert false;
    } else {
      AtomBack(l, mid);
      if OpenIf(l) {
        OpenGoesOn(l, mid);
        assert false;
      } else {
        AtomPrint(l, mid);
        NormIsIdentity(l);
        LevelBack(r, end, LevelOf(op) + 1);
      }
    }
  }

  /** An open conditional does not stop in front of an operator and an operand. */
  lemma {:induction false} OpenGoesOn(e: SExpr, rest: Tokens)
    requires Good(e) && OpenIf(e) && Atom(PrintTo(e, rest)).Some? && Atom(PrintTo(e, rest)).value.0 == e
    requires var t := Atom(PrintTo(e, rest)).value.1; t.Tok? && t.head.TOp? && Level(t.tail, LevelOf(t.head.op) + 1).Some?
    ensures false
    decreases e
  {
    if e.If? {
      var els := Tok(TElse, PrintTo(e.els, rest));
      var thn := Tok(TThen, PrintTo(e.thn, els));
      AtomIf(PrintTo(e.cond, thn));
      var c, t, a, u := IfRead(PrintTo(e.cond, thn));
      GoodExpr(e.cond, thn);
      GoodExpr(e.thn, els);
      LevelWhole(e.els, rest, 0);
      LevelGoesOn(PrintTo(e.els, rest), LevelOf(Atom(PrintTo(e.els, rest)).value.1.head.op));
    } else {
      AtomNot(PrintTo(e.e, rest));
      OpenGoesOn(e.e, rest);
    }
  }

  /** An expression comes back from print and parser as it was if and only if its literals are booleans,
      integers of 64 bits and floats that are not equal to one, it has no lists, its indices are applied to
      literals, variables and operators, no left operand ends in an open `else` branch, and there is no `<`,
      `>` or `>=`. */
  lemma {:induction false} RoundTrip(e: SExpr)
    ensures Expr(Print(e)) == Some((e, End)) <==> Printable(e) && Faithful(e)
  {
    if Expr(Print(e)) == Some((e, End)) { LevelBack(e, End, 0); }
    if Good(e) { GoodExpr(e, End); }
  }

  function Power2(n: nat): int { if n == 0 then 1 else 2 * Power2(n - 1) }

  lemma {:induction false} Power2Adds(m: nat, n: nat)
    ensures Power2(m + n) == Power2(m) * Power2(n)
  {
    if m != 0 {
      Power2Adds(m - 1, n);
      assert Power2(m) * Power2(n) == 2 * (Power2(m - 1) * Power2(n));
    }
  }

  lemma SixtyThree()
    ensures Power2(63) == 0x8000_0000_0000_0000
  {
    assert Power2(7) == 128;
    Power2Adds(7, 7);
    Power2Adds(14, 7);
    Power2Adds(21, 21);
    Power2Adds(42, 21);
  }

  /** The integers of 64 bits are those that are printed as themselves and read back as such. */
  lemma IntegerRoundTrip(i: int)
    ensures Expr(Print(Val(Int(i)))) == Some((Val(Int(i)), End)) <==> -Power2(63) <= i < Power2(63)
  {
    SixtyThree();
    RoundTrip(Val(Int(i)));
  }

  /** So a float comes back unless it equals an integer of 64 bits, which is what is read then: `2.0` is
      printed as `2`. */
  lemma FloatRoundTrip(r: real)
    ensures Expr(Print(Val(Float(r)))) == Some((Val(if ReadAsInt(r) then Int(r.Floor) else Float(r)), End))
  {
    var v := if ReadAsInt(r) then Int(r.Floor) else Float(r);
    assert Print(Val(v)) == Print(Val(Float(r)));
    RoundTrip(Val(v));
  }
}
