/** The precedence of the thirteen operators, read off triples of operands. */
module Precedences {
  import opened Lang
  import opened Parsers
  import opened OperatorChains

  /** The operators, the one that binds least first. */
  function Ops(): (ops: seq<BinOp>)
    ensures |ops| == LEVELS
  {
    [SOp, BOp(Or), BOp(And), COp(Le), COp(Ge), COp(Lt), COp(Gt), COp(Eq), NOp(Sub), NOp(Add), NOp(Mul), NOp(Div), NOp(Mod)]
  }

  lemma AllOps(op: BinOp) returns (i: nat)
    ensures i < LEVELS && Ops()[i] == op
  {
    match op
    case SOp => i := 0;
    case BOp(Or) => i := 1;
    case BOp(And) => i := 2;
    case COp(Le) => i := 3;
    case COp(Ge) => i := 4;
    case COp(Lt) => i := 5;
    case COp(Gt) => i := 6;
    case COp(Eq) => i := 7;
    case NOp(Sub) => i := 8;
    case NOp(Add) => i := 9;
    case NOp(Mul) => i := 10;
    case NOp(Div) => i := 11;
    case NOp(Mod) => i := 12;
  }

  lemma LevelIsPlace(i: nat)
    requires i < LEVELS
    ensures LevelOf(Ops()[i]) == i
  {
  }

  /** Levels below all operators do not split a chain. */
  lemma {:induction false} TreeFrom(vs: seq<SExpr>, ops: seq<BinOp>, k: nat, m: nat)
    requires |vs| == |ops| + 1 && k <= m <= LEVELS && forall i :: 0 <= i < |ops| ==> m <= LevelOf(ops[i])
    ensures Tree(vs, ops, k) == Tree(vs, ops, m)
    decreases m - k
  {
    if k < m {
      NoneAt(vs, ops, k);
      TreeFrom(vs, ops, k + 1, m);
    }
  }

  lemma TreeOne(v: SExpr, k: nat)
    requires k <= LEVELS
    ensures Tree([v], [], k) == v
  {
    TreeFrom([v], [], k, LEVELS);
  }

  lemma TreeTwo(v: SExpr, w: SExpr, op: BinOp, k: nat)
    requires k <= LevelOf(op)
    ensures Tree([v, w], [op], k) == BinOp(v, w, op)
  {
    var m := LevelOf(op);
    TreeFrom([v, w], [op], k, m);
    TreeOne(v, m);
    TreeOne(w, m + 1);
    TreeAppended([v], [], op, [w], [], m);
    assert [v] + [w] == [v, w] && [] + [op] + [] == [op];
  }

  /** The second of two operators splits the chain if it binds no tighter than the first, */
  lemma TreeLeft(u: SExpr, v: SExpr, w: SExpr, op: BinOp, op': BinOp)
    requires LevelOf(op') <= LevelOf(op)
    ensures Tree([u, v, w], [op, op'], 0) == BinOp(BinOp(u, v, op), w, op')
  {
    var k := LevelOf(op');
    assert [u, v] + [w] == [u, v, w] && [op] + [op'] + [] == [op, op'];
    TreeAppended([u, v], [op], op', [w], [], k);
    TreeTwo(u, v, op, k);
    TreeOne(w, k + 1);
    FromLowest([u, v, w], op, op', k);
  }

  /** and the first one if it does. */
  lemma TreeRight(u: SExpr, v: SExpr, w: SExpr, op: BinOp, op': BinOp)
    requires LevelOf(op) < LevelOf(op')
    ensures Tree([u, v, w], [op, op'], 0) == BinOp(u, BinOp(v, w, op'), op)
  {
    var k := LevelOf(op);
    assert [u] + [v, w] == [u, v, w] && [] + [op] + [op'] == [op, op'];
    TreeAppended([u], [], op, [v, w], [op'], k);
    TreeOne(u, k);
    TreeTwo(v, w, op', k + 1);
    FromLowest([u, v, w], op, op', k);
  }

  lemma FromLowest(vs: seq<SExpr>, op: BinOp, op': BinOp, k: nat)
    requires |vs| == 3 && k <= LevelOf(op) && k <= LevelOf(op')
    ensures Tree(vs, [op, op'], 0) == Tree(vs, [op, op'], k)
  {
    TreeFrom(vs, [op, op'], 0, k);
  }

  /** `a op b op' c`, without parentheses around the operators. */
  ghost function Triple(a: SExpr, op: BinOp, b: SExpr, op': BinOp, c: SExpr): Tokens {
    PrintTo(a, Tok(TOp(op), PrintTo(b, Tok(TOp(op'), PrintTo(c, End)))))
  }

  lemma TripleParses(a: SExpr, op: BinOp, b: SExpr, op': BinOp, c: SExpr)
    requires Printable(a) && Printable(b) && Printable(c) && !OpenIf(a) && !OpenIf(b)
    ensures Expr(Triple(a, op, b, op', c)) ==
            Some((if LevelOf(op') <= LevelOf(op) then BinOp(BinOp(Norm(a), Norm(b), op), Norm(c), op')
                  else BinOp(Norm(a), BinOp(Norm(b), Norm(c), op'), op), End))
  {
    var (es, ops) := ([a, b, c], [op, op']);
    assert es[1..] == [b, c] && es[1..][1..] == [c] && ops[1..] == [op'] && ops[1..][1..] == [];
    assert ChainTo([c], [], End) == PrintTo(c, End);
    assert ChainTo([b, c], [op'], End) == PrintTo(b, Tok(TOp(op'), PrintTo(c, End)));
    assert ChainTo(es, ops, End) == Triple(a, op, b, op', c);
    ChainParses(es, ops);
    assert Norms(es) == [Norm(a), Norm(b), Norm(c)];
    if LevelOf(op') <= LevelOf(op) {
      TreeLeft(Norm(a), Norm(b), Norm(c), op, op');
    } else {
      TreeRight(Norm(a), Norm(b), Norm(c), op, op');
    }
  }

  /** An operator takes both operands from every operator in front of it in the list, on either side. */
  lemma BindsTighter(a: SExpr, b: SExpr, c: SExpr, i: nat, j: nat)
    requires Printable(a) && Printable(b) && Printable(c) && !OpenIf(a) && !OpenIf(b) && i < j < LEVELS
    ensures var (op, op') := (Ops()[i], Ops()[j]);
            && Expr(Triple(a, op, b, op', c)) == Some((BinOp(Norm(a), BinOp(Norm(b), Norm(c), op'), op), End))
            && Expr(Triple(a, op', b, op, c)) == Some((BinOp(BinOp(Norm(a), Norm(b), op'), Norm(c), op), End))
  {
    LevelIsPlace(i);
    LevelIsPlace(j);
    TripleParses(a, Ops()[i], b, Ops()[j], c);
    TripleParses(a, Ops()[j], b, Ops()[i], c);
  }

  /** And every operator groups to the left. */
  lemma GroupsLeft(a: SExpr, b: SExpr, c: SExpr, op: BinOp)
    requires Printable(a) && Printable(b) && Printable(c) && !OpenIf(a) && !OpenIf(b)
    ensures Expr(Triple(a, op, b, op, c)) == Some((BinOp(BinOp(Norm(a), Norm(b), op), Norm(c), op), End))
  {
    TripleParses(a, op, b, op, c);
  }
}
