/** Where printing and parsing part, exactly, and how a chain of operators without parentheses is
    read. */
module OperatorChains {
  import opened Lang
  import opened Parsers

  // ---------------------------------------------------------------------------------------------
  // Indices and open conditionals
  // ---------------------------------------------------------------------------------------------

  lemma {:induction false} FoldShape(left: SExpr, ts: Tokens, k: nat)
    requires k < LEVELS
    ensures var r := FoldLevel(left, ts, k); r.0 == left || r.0.BinOp?
    decreases ts
  {
    if AtOp(ts, k) && Level(ts.tail, k + 1).Some? {
      var (right, rest) := Level(ts.tail, k + 1).value;
      FoldShape(BinOp(left, right, ts.head.op), rest, k);
    }
  }

  /** An expression that is no operator node is an atom. */
  lemma {:induction false} LevelShape(ts: Tokens, k: nat)
    requires k <= LEVELS && Level(ts, k).Some? && !Level(ts, k).value.0.BinOp?
    ensures Atom(ts).Some? && Atom(ts).value.0 == Level(ts, k).value.0
    decreases LEVELS - k
  {
    if k < LEVELS {
      var (left, rest) := Level(ts, k + 1).value;
      FoldShape(left, rest, k);
      LevelShape(ts, k + 1);
    }
  }

  lemma {:induction false} KeywordIsNoIndex(ts: Tokens)
    requires ts.Tok? && Keyword(ts.head) && Atom(ts).Some?
    ensures !Atom(ts).value.0.SIndex?
  {
    assert Primary(ts) == None && Atom(ts) == AtomRest(ts);
    match ts.head
    case TDynamic => DynamicShape(ts.tail);
    case TIf => IfShape(ts.tail);
    case TFn2(g) => ArgsShape(ts.tail, g);
    case _ =>
  }

  lemma {:induction false} DynamicShape(ts: Tokens)
    ensures DynamicP(ts).Some? ==> !DynamicP(ts).value.0.SIndex?
  {
  }

  lemma {:induction false} IfShape(ts: Tokens)
    ensures IfP(ts).Some? ==> IfP(ts).value.0.If?
  {
    if IfP(ts).Some? {
      var (c, t1) := Expr(ts).value;
      assert ThenP(t1, c).Some? && Skip(TThen, t1).Some?;
      var (a, t2) := Expr(Skip(TThen, t1).value).value;
      assert ThenP(t1, c) == ElseP(t2, c, a);
    }
  }

  lemma {:induction false} ArgsShape(ts: Tokens, g: Fn2)
    ensures Args(ts, g).Some? ==> Args(ts, g).value.0.Call2?
  {
    if Args(ts, g).Some? {
      var (a, t1) := Expr(Skip(TLPar, ts).value).value;
      assert SecondArg(t1, g, a).Some?;
    }
  }

  /** An index on a printable expression comes back if and only if the expression may stand in front of
      an index without parentheses: `a[-1][-1]` and `!a[-1]` do not. */
  lemma {:induction false} IndexRoundTrip(a: SExpr, i: int)
    requires Printable(a)
    ensures Expr(Print(SIndex(a, i))) == Some((SIndex(Norm(a), i), End)) <==> Indexable(a)
  {
    var e := SIndex(a, i);
    var index := IndexTo(i, End);
    var ts := PrintTo(a, index);
    if Indexable(a) {
      ParsePrint(e);
    } else if a.SIndex? {
      AtomPrint(a, index);
      LevelAtom(ts, Norm(a), index, 0);
    } else if Expr(ts).Some? && Expr(ts).value.0.SIndex? {
      LevelShape(ts, 0);
      KeywordIsNoIndex(ts);
    }
  }

  /** What becomes of an open conditional in front of an operator: its innermost `else` branch takes
      the operator and the right operand. */
  ghost function Swallow(l: SExpr, op: BinOp, r: SExpr): SExpr
    requires Printable(l) && Printable(r)
  {
    match l
    case If(c, a, b) => If(Norm(c), Norm(a), Swallow(b, op, r))
    case Not(a) => if OpenIf(a) then Not(Swallow(a, op, r)) else BinOp(Norm(l), Norm(r), op)
    case _ => BinOp(Norm(l), Norm(r), op)
  }

  lemma {:induction false} SwallowExpr(l: SExpr, op: BinOp, r: SExpr, rest: Tokens)
    requires Printable(l) && Printable(r) && Closed(rest)
    ensures Expr(PrintTo(l, Tok(TOp(op), PrintTo(r, rest)))) == Some((Swallow(l, op, r), rest))
    decreases l, 1
  {
    var mid := Tok(TOp(op), PrintTo(r, rest));
    if OpenIf(l) {
      SwallowAtom(l, op, r, rest);
      LevelAtom(PrintTo(l, mid), Swallow(l, op, r), rest, 0);
    } else {
      AtomPrint(l, mid);
      AtomPrint(r, rest);
      LevelPair(PrintTo(l, mid), Norm(l), mid, Norm(r), rest, 0);
    }
  }

  lemma {:induction false} SwallowAtom(l: SExpr, op: BinOp, r: SExpr, rest: Tokens)
    requires Printable(l) && Printable(r) && Closed(rest) && OpenIf(l)
    ensures Atom(PrintTo(l, Tok(TOp(op), PrintTo(r, rest)))) == Some((Swallow(l, op, r), rest))
    decreases l, 0
  {
    var mid := Tok(TOp(op), PrintTo(r, rest));
    match l
    case If(c, a, b) =>
      SwallowExpr(b, op, r, rest);
      AtomIf(PrintTo(c, Tok(TThen, PrintTo(a, Tok(TElse, PrintTo(b, mid))))));
      IfPrint(l, c, a, PrintTo(b, mid), Swallow(b, op, r), rest);
    case Not(a) =>
      SwallowAtom(a, op, r, rest);
      AtomNot(PrintTo(a, mid));
  }

  /** An operator node on printable operands comes back if and only if its left operand is no open
      conditional. */
  lemma {:induction false} OperandRoundTrip(l: SExpr, r: SExpr, op: BinOp)
    requires Printable(l) && Printable(r)
    ensures Expr(Print(BinOp(l, r, op))) == Some((BinOp(Norm(l), Norm(r), Printed(op)), End)) <==> !OpenIf(l)
  {
    var e := BinOp(l, r, op);
    if !OpenIf(l) {
      ParsePrint(e);
    } else {
      SwallowExpr(l, Printed(op), r, Tok(TRPar, End));
      var s := Swallow(l, Printed(op), r);
      assert Primary(Print(e)) == Some((s, End)) && Atom(Print(e)) == Some((s, End));
      LevelAtom(Print(e), s, End, 0);
    }
  }

  // ---------------------------------------------------------------------------------------------
  // Chains of operators
  // ---------------------------------------------------------------------------------------------

  /** The operands of a chain: printable, and none but the last an open conditional. */
  predicate Operands(es: seq<SExpr>) {
    && (forall i :: 0 <= i < |es| ==> Printable(es[i]))
    && (forall i :: 0 <= i < |es| - 1 ==> !OpenIf(es[i]))
  }

  function Norms(es: seq<SExpr>): (vs: seq<SExpr>)
    requires Operands(es)
    ensures |vs| == |es|
  {
    seq(|es|, i requires 0 <= i < |es| => Norm(es[i]))
  }

  /** A chain in front of `rest`. */
  ghost function ChainTo(es: seq<SExpr>, ops: seq<BinOp>, rest: Tokens): Tokens
    requires |es| == |ops| + 1
    decreases |ops|
  {
    if ops == [] then PrintTo(es[0], rest) else PrintTo(es[0], Tok(TOp(ops[0]), ChainTo(es[1..], ops[1..], rest)))
  }

  /** The lowest level of the operators. */
  ghost function Lowest(ops: seq<BinOp>): (k: nat)
    ensures k <= LEVELS && (k == LEVELS <==> ops == [])
    ensures forall i :: 0 <= i < |ops| ==> k <= LevelOf(ops[i])
    ensures ops != [] ==> exists i :: 0 <= i < |ops| && LevelOf(ops[i]) == k
  {
    if ops == [] then LEVELS
    else
      var k := Lowest(ops[1..]);
      if LevelOf(ops[0]) <= k then LevelOf(ops[0])
      else
        var i :| 0 <= i < |ops[1..]| && LevelOf(ops[1..][i]) == k;
        assert LevelOf(ops[i + 1]) == k;
        k
  }

  ghost predicate AllFrom(ops: seq<BinOp>, k: nat) { k <= Lowest(ops) }

  /** The position of the last operator of level `k`, or -1. */
  function LastAt(ops: seq<BinOp>, k: nat): (j: int)
    ensures -1 <= j < |ops|
    ensures 0 <= j ==> LevelOf(ops[j]) == k
    ensures forall i :: j < i < |ops| ==> LevelOf(ops[i]) != k
  {
    if ops == [] then -1
    else if LevelOf(ops[|ops| - 1]) == k then |ops| - 1
    else LastAt(ops[..|ops| - 1], k)
  }

  /** How a chain of operators of level `k` and above is meant to be read: it is split at the last
      operator of the lowest level. */
  ghost function Tree(vs: seq<SExpr>, ops: seq<BinOp>, k: nat): SExpr
    requires |vs| == |ops| + 1 && k <= LEVELS
    decreases |ops|, LEVELS - k
  {
    if k == LEVELS then vs[0]
    else
      var j := LastAt(ops, k);
      if j < 0 then Tree(vs, ops, k + 1)
      else BinOp(Tree(vs[..j + 1], ops[..j], k), Tree(vs[j + 1..], ops[j + 1..], k + 1), ops[j])
  }

  /** The position of the first operator of level `k`, or the end. */
  function FirstAt(ops: seq<BinOp>, k: nat): (j: nat)
    ensures j <= |ops| && (j < |ops| ==> LevelOf(ops[j]) == k)
    ensures forall i :: 0 <= i < j ==> LevelOf(ops[i]) != k
  {
    if ops == [] then 0 else if LevelOf(ops[0]) == k then 0 else 1 + FirstAt(ops[1..], k)
  }

  /** What the parser's fold builds from `left` on, with `op` next. */
  ghost function FoldTree(left: SExpr, op: BinOp, vs: seq<SExpr>, ops: seq<BinOp>, k: nat): SExpr
    requires |vs| == |ops| + 1 && k < LEVELS
    decreases |ops|
  {
    var j := FirstAt(ops, k);
    var l := BinOp(left, Tree(vs[..j + 1], ops[..j], k + 1), op);
    if j == |ops| then l else FoldTree(l, ops[j], vs[j + 1..], ops[j + 1..], k)
  }

  lemma {:induction false} LastAppended(ops0: seq<BinOp>, op: BinOp, ops1: seq<BinOp>, k: nat)
    requires LevelOf(op) == k && forall i :: 0 <= i < |ops1| ==> LevelOf(ops1[i]) != k
    ensures LastAt(ops0 + [op] + ops1, k) == |ops0|
  {
    var ops := ops0 + [op] + ops1;
    assert ops[|ops0|] == op;
    forall i | |ops0| < i < |ops| ensures LevelOf(ops[i]) != k { assert ops[i] == ops1[i - |ops0| - 1]; }
  }

  /** Appending an operator of level `k` and a part of higher levels splits there. */
  lemma {:induction false} TreeAppended(vs0: seq<SExpr>, ops0: seq<BinOp>, op: BinOp, vs1: seq<SExpr>, ops1: seq<BinOp>, k: nat)
    requires |vs0| == |ops0| + 1 && |vs1| == |ops1| + 1 && k < LEVELS
    requires LevelOf(op) == k && forall i :: 0 <= i < |ops1| ==> LevelOf(ops1[i]) != k
    ensures Tree(vs0 + vs1, ops0 + [op] + ops1, k) == BinOp(Tree(vs0, ops0, k), Tree(vs1, ops1, k + 1), op)
  {
    var vs, ops := vs0 + vs1, ops0 + [op] + ops1;
    LastAppended(ops0, op, ops1, k);
    var j := |ops0|;
    assert vs[..j + 1] == vs0 && vs[j + 1..] == vs1 && ops[..j] == ops0 && ops[j + 1..] == ops1 && ops[j] == op;
  }

  lemma {:induction false} Rejoin<T>(a: seq<T>, b: seq<T>, j: nat)
    requires j <= |b|
    ensures a + b[..j] + b[j..] == a + b && b[..j] + b[j..] == b
  {
  }

  lemma {:induction false} RejoinAround<T>(a: seq<T>, b: seq<T>, j: nat)
    requires j < |b|
    ensures a + b[..j] + [b[j]] + b[j + 1..] == a + b && b[..j] + [b[j]] + b[j + 1..] == b
  {
  }

  /** Folding to the left is splitting at the last operator. */
  lemma {:induction false} FoldIsTree(vs0: seq<SExpr>, ops0: seq<BinOp>, op: BinOp, vs1: seq<SExpr>, ops1: seq<BinOp>, k: nat)
    requires |vs0| == |ops0| + 1 && |vs1| == |ops1| + 1 && k < LEVELS && LevelOf(op) == k
    ensures FoldTree(Tree(vs0, ops0, k), op, vs1, ops1, k) == Tree(vs0 + vs1, ops0 + [op] + ops1, k)
    decreases |ops1|
  {
    var j := FirstAt(ops1, k);
    var (va, oa) := (vs1[..j + 1], ops1[..j]);
    TreeAppended(vs0, ops0, op, va, oa, k);
    if j == |ops1| {
      assert va == vs1 && oa == ops1;
    } else {
      FoldIsTree(vs0 + va, ops0 + [op] + oa, ops1[j], vs1[j + 1..], ops1[j + 1..], k);
      Rejoin(vs0, vs1, j + 1);
      RejoinAround(ops0 + [op], ops1, j);
    }
  }

  lemma {:induction false} ChainSplit(es: seq<SExpr>, ops: seq<BinOp>, rest: Tokens, j: nat)
    requires |es| == |ops| + 1 && j < |ops|
    ensures ChainTo(es, ops, rest) == ChainTo(es[..j + 1], ops[..j], Tok(TOp(ops[j]), ChainTo(es[j + 1..], ops[j + 1..], rest)))
    decreases j
  {
    if j != 0 {
      ChainSplit(es[1..], ops[1..], rest, j - 1);
      assert es[1..][..j] == es[..j + 1][1..] && ops[1..][..j - 1] == ops[..j][1..];
      assert es[1..][j..] == es[j + 1..] && ops[1..][j..] == ops[j + 1..];
    }
  }

  /** What may follow a chain that is read at level `k`. */
  predicate Ends(last: SExpr, rest: Tokens, k: nat) {
    && (rest.Tok? ==> rest.head != TLBrack && (rest.head.TOp? ==> LevelOf(rest.head.op) < k))
    && (OpenIf(last) ==> Closed(rest))
  }

  /** The parts of a chain before and after the first operator of level `k`. */
  lemma {:induction false} Parts(es: seq<SExpr>, ops: seq<BinOp>, k: nat, j: nat)
    requires |es| == |ops| + 1 && k < LEVELS && Operands(es) && AllFrom(ops, k) && j == FirstAt(ops, k) && j < |ops|
    ensures Operands(es[..j + 1]) && Operands(es[j + 1..]) && AllFrom(ops[..j], k + 1) && AllFrom(ops[j + 1..], k)
    ensures Norms(es)[..j + 1] == Norms(es[..j + 1]) && Norms(es)[j + 1..] == Norms(es[j + 1..])
    ensures !OpenIf(es[j])
  {
    var eb := es[j + 1..];
    forall i | 0 <= i < |eb| ensures Printable(eb[i]) && (i < |eb| - 1 ==> !OpenIf(eb[i])) { assert eb[i] == es[i + j + 1]; }
  }

  /** At level `k`, the parser reads a chain of operators of level `k` and above as it is meant. */
  lemma {:induction false} LevelChain(es: seq<SExpr>, ops: seq<BinOp>, rest: Tokens, k: nat)
    requires |es| == |ops| + 1 && k <= LEVELS && Operands(es) && AllFrom(ops, k) && Ends(es[|ops|], rest, k)
    ensures Level(ChainTo(es, ops, rest), k) == Some((Tree(Norms(es), ops, k), rest))
    decreases |ops|, LEVELS - k, 1
  {
    if k == LEVELS {
      AtomPrint(es[0], rest);
    } else if FirstAt(ops, k) == |ops| {
      SkipLevel(es, ops, rest, k);
    } else {
      CutChain(es, ops, rest, k, FirstAt(ops, k));
    }
  }

  /** No operator is of level `k`. */
  lemma {:induction false} SkipLevel(es: seq<SExpr>, ops: seq<BinOp>, rest: Tokens, k: nat)
    requires |es| == |ops| + 1 && k < LEVELS && Operands(es) && AllFrom(ops, k) && Ends(es[|ops|], rest, k) && FirstAt(ops, k) == |ops|
    ensures Level(ChainTo(es, ops, rest), k) == Some((Tree(Norms(es), ops, k), rest))
    decreases |ops|, LEVELS - k, 0
  {
    HigherFrom(ops, k);
    NoneAt(Norms(es), ops, k);
    NothingFolds(Tree(Norms(es), ops, k), es[|ops|], rest, k);
    LevelChain(es, ops, rest, k + 1);
    LevelUnfolded(ChainTo(es, ops, rest), Tree(Norms(es), ops, k), rest, k);
  }

  lemma {:induction false} LevelUnfolded(ts: Tokens, e: SExpr, rest: Tokens, k: nat)
    requires k < LEVELS && Level(ts, k + 1) == Some((e, rest)) && FoldLevel(e, rest, k) == (e, rest)
    ensures Level(ts, k) == Some((e, rest))
  {
  }

  lemma {:induction false} HigherFrom(ops: seq<BinOp>, k: nat)
    requires k < LEVELS && AllFrom(ops, k) && FirstAt(ops, k) == |ops|
    ensures AllFrom(ops, k + 1) && forall i :: 0 <= i < |ops| ==> LevelOf(ops[i]) != k
  {
  }

  /** What ends a chain at level `k` ends it at the next one, and nothing of level `k` follows. */
  lemma {:induction false} NothingFolds(left: SExpr, last: SExpr, rest: Tokens, k: nat)
    requires k < LEVELS && Ends(last, rest, k)
    ensures Ends(last, rest, k + 1) && FoldLevel(left, rest, k) == (left, rest)
  {
  }

  /** The first operator of level `k` is the `j`-th. */
  lemma {:induction false} CutChain(es: seq<SExpr>, ops: seq<BinOp>, rest: Tokens, k: nat, j: nat)
    requires |es| == |ops| + 1 && k < LEVELS && Operands(es) && AllFrom(ops, k) && Ends(es[|ops|], rest, k)
    requires j == FirstAt(ops, k) && j < |ops|
    ensures Level(ChainTo(es, ops, rest), k) == Some((Tree(Norms(es), ops, k), rest))
    decreases |ops|, LEVELS - k, 0, 1
  {
    var (ea, oa, eb, ob) := (es[..j + 1], ops[..j], es[j + 1..], ops[j + 1..]);
    var tail := Tok(TOp(ops[j]), ChainTo(eb, ob, rest));
    Parts(es, ops, k, j);
    ChainSplit(es, ops, rest, j);
    SplitChain(ea, oa, ops[j], eb, ob, tail, rest, k);
    PartsMeet(es, ops, j);
  }

  lemma {:induction false} PartsMeet(es: seq<SExpr>, ops: seq<BinOp>, j: nat)
    requires |es| == |ops| + 1 && j < |ops| && Operands(es) && Operands(es[..j + 1]) && Operands(es[j + 1..])
    ensures Norms(es[..j + 1]) + Norms(es[j + 1..]) == Norms(es) && ops[..j] + [ops[j]] + ops[j + 1..] == ops
  {
    RejoinAround([], ops, j);
  }

  lemma {:induction false} LevelFold(ts: Tokens, k: nat, left: SExpr, tail: Tokens, e: SExpr, rest: Tokens)
    requires k < LEVELS && Level(ts, k + 1) == Some((left, tail)) && FoldLevel(left, tail, k) == (e, rest)
    ensures Level(ts, k) == Some((e, rest))
  {
  }

  lemma {:induction false} NoneAbove(vs: seq<SExpr>, ops: seq<BinOp>, k: nat)
    requires |vs| == |ops| + 1 && k < LEVELS && AllFrom(ops, k + 1)
    ensures Tree(vs, ops, k) == Tree(vs, ops, k + 1)
  {
    NoneAt(vs, ops, k);
  }

  lemma {:induction false} SplitChain(ea: seq<SExpr>, oa: seq<BinOp>, op: BinOp, eb: seq<SExpr>, ob: seq<BinOp>, tail: Tokens, rest: Tokens, k: nat)
    requires |ea| == |oa| + 1 && |eb| == |ob| + 1 && k < LEVELS && LevelOf(op) == k
    requires Operands(ea) && Operands(eb) && AllFrom(oa, k + 1) && AllFrom(ob, k) && !OpenIf(ea[|oa|]) && Ends(eb[|ob|], rest, k)
    requires tail == Tok(TOp(op), ChainTo(eb, ob, rest))
    ensures Level(ChainTo(ea, oa, tail), k) == Some((Tree(Norms(ea) + Norms(eb), oa + [op] + ob, k), rest))
    decreases |oa| + |ob| + 1, LEVELS - k, 0, 0
  {
    var (va, vb) := (Norms(ea), Norms(eb));
    var left := Tree(va, oa, k);
    LevelChain(ea, oa, tail, k + 1);
    NoneAbove(va, oa, k);
    FoldChain(left, op, eb, ob, rest, k);
    LevelFold(ChainTo(ea, oa, tail), k, left, tail, FoldTree(left, op, vb, ob, k), rest);
    FoldIsTree(va, oa, op, vb, ob, k);
  }

  lemma {:induction false} NoneAt(vs: seq<SExpr>, ops: seq<BinOp>, k: nat)
    requires |vs| == |ops| + 1 && k < LEVELS && forall i :: 0 <= i < |ops| ==> LevelOf(ops[i]) != k
    ensures Tree(vs, ops, k) == Tree(vs, ops, k + 1)
  {
  }

  lemma {:induction false} FoldChain(left: SExpr, op: BinOp, es: seq<SExpr>, ops: seq<BinOp>, rest: Tokens, k: nat)
    requires |es| == |ops| + 1 && k < LEVELS && Operands(es) && AllFrom(ops, k) && LevelOf(op) == k && Ends(es[|ops|], rest, k)
    ensures FoldLevel(left, Tok(TOp(op), ChainTo(es, ops, rest)), k) == (FoldTree(left, op, Norms(es), ops, k), rest)
    decreases |ops|, LEVELS - k, 1
  {
    var j := FirstAt(ops, k);
    if j == |ops| {
      FoldLast(left, op, es, ops, rest, k);
    } else {
      var tail := Tok(TOp(ops[j]), ChainTo(es[j + 1..], ops[j + 1..], rest));
      Parts(es, ops, k, j);
      ChainSplit(es, ops, rest, j);
      FoldStep(left, op, es[..j + 1], ops[..j], ops[j], es[j + 1..], ops[j + 1..], tail, rest, k);
    }
  }

  lemma {:induction false} FoldLast(left: SExpr, op: BinOp, es: seq<SExpr>, ops: seq<BinOp>, rest: Tokens, k: nat)
    requires |es| == |ops| + 1 && k < LEVELS && Operands(es) && AllFrom(ops, k) && LevelOf(op) == k && Ends(es[|ops|], rest, k)
    requires FirstAt(ops, k) == |ops|
    ensures FoldLevel(left, Tok(TOp(op), ChainTo(es, ops, rest)), k) == (FoldTree(left, op, Norms(es), ops, k), rest)
    decreases |ops|, LEVELS - k, 0
  {
    var vs := Norms(es);
    var l := BinOp(left, Tree(vs, ops, k + 1), op);
    HigherFrom(ops, k);
    NothingFolds(l, es[|ops|], rest, k);
    LevelChain(es, ops, rest, k + 1);
    FoldOnce(left, op, ChainTo(es, ops, rest), Tree(vs, ops, k + 1), rest, k);
    assert vs[..|ops| + 1] == vs && ops[..|ops|] == ops;
  }

  lemma {:induction false} FoldOnce(left: SExpr, op: BinOp, ts: Tokens, right: SExpr, rest: Tokens, k: nat)
    requires k < LEVELS && LevelOf(op) == k && Level(ts, k + 1) == Some((right, rest))
    ensures FoldLevel(left, Tok(TOp(op), ts), k) == FoldLevel(BinOp(left, right, op), rest, k)
  {
  }

  lemma {:induction false} FoldStep(left: SExpr, op: BinOp, ea: seq<SExpr>, oa: seq<BinOp>, next: BinOp, eb: seq<SExpr>, ob: seq<BinOp>,
                 tail: Tokens, rest: Tokens, k: nat)
    requires |ea| == |oa| + 1 && |eb| == |ob| + 1 && k < LEVELS && LevelOf(op) == k && LevelOf(next) == k
    requires Operands(ea) && Operands(eb) && AllFrom(oa, k + 1) && AllFrom(ob, k) && !OpenIf(ea[|oa|]) && Ends(eb[|ob|], rest, k)
    requires tail == Tok(TOp(next), ChainTo(eb, ob, rest))
    ensures FoldLevel(left, Tok(TOp(op), ChainTo(ea, oa, tail)), k) ==
            (FoldTree(BinOp(left, Tree(Norms(ea), oa, k + 1), op), next, Norms(eb), ob, k), rest)
    decreases |oa| + |ob| + 1, LEVELS - k, 0
  {
    LevelChain(ea, oa, tail, k + 1);
    FoldChain(BinOp(left, Tree(Norms(ea), oa, k + 1), op), next, eb, ob, rest, k);
  }

  /** A whole chain is read by splitting it at the last operator of the lowest level that occurs. */
  lemma {:induction false} ChainParses(es: seq<SExpr>, ops: seq<BinOp>)
    requires |es| == |ops| + 1 && Operands(es)
    ensures Expr(ChainTo(es, ops, End)) == Some((Tree(Norms(es), ops, 0), End))
  {
    LevelChain(es, ops, End, 0);
  }

  /** Addition binds tighter than subtraction: `a - b + c` is `a - (b + c)`. */
  lemma {:induction false} SubtractionIsLooser(a: Name, b: Name, c: Name)
    ensures Expr(Tok(TId(a), Tok(TOp(NOp(Sub)), Tok(TId(b), Tok(TOp(NOp(Add)), Tok(TId(c), End)))))) ==
            Some((BinOp(Var(a), BinOp(Var(b), Var(c), NOp(Add)), NOp(Sub)), End))
  {
    var t2 := Tok(TOp(NOp(Add)), PrintTo(Var(c), End));
    var t1 := Tok(TOp(NOp(Sub)), PrintTo(Var(b), t2));
    var ts := PrintTo(Var(a), t1);
    AtomPrint(Var(a), t1);
    AtomPrint(Var(b), t2);
    AtomPrint(Var(c), End);
    LevelAtom(ts, Var(a), t1, 9);
    LevelPair(t1.tail, Var(b), t2, Var(c), End, 9);
    var sum := BinOp(Var(b), Var(c), NOp(Add));
    assert FoldLevel(BinOp(Var(a), sum, NOp(Sub)), End, 8) == (BinOp(Var(a), sum, NOp(Sub)), End);
    LowerLevels(ts, BinOp(Var(a), sum, NOp(Sub)), 8, 0);
  }

  lemma {:induction false} LowerLevels(ts: Tokens, e: SExpr, k: nat, n: nat)
    requires n <= k <= LEVELS && Level(ts, k) == Some((e, End))
    ensures Level(ts, n) == Some((e, End))
    decreases k - n
  {
    if n < k { LowerLevels(ts, e, k, n + 1); }
  }
}
