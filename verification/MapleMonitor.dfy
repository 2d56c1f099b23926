/** The maple specification run by the constraint-based monitor, from the dependency graph to what is
    sent. */
module MapleMonitor {
  import opened Lang
  import opened Solver
  import opened SolverMeaning
  import opened ConstraintRuntimes
  import opened ConstraintDenotations
  import opened ConstraintMonitors
  import opened Maple

  function NameOf(k: nat): Name
    requires k < 6
  {
    if k == 5 then WORD else Letter(k)
  }

  function ExprAt(k: nat): SExpr
    requires k < 6
  {
    if k == 5 then AnyOf(5) else Equation(k)
  }

  function Spec(): (spec: Equations)
    ensures |spec| == 6
  {
    seq(6, k requires 0 <= k < 6 => (NameOf(k), ExprAt(k)))
  }

  /** The phases depend on each other's past only, the output on all of them at present. */
  function Rank(): map<Name, nat> { map x | x in Order(Spec()) :: if x == WORD then 1 else 0 }

  lemma NamesDiffer(i: nat, j: nat)
    requires i < j < 6
    ensures NameOf(i) != NameOf(j) && NameOf(i) != "stage" && NameOf(j) != "stage"
  {
    assert |NameOf(i)| == 1 && (j < 5 ==> NameOf(i)[0] != NameOf(j)[0]) && (j == 5 ==> |NameOf(j)| == 5 && NameOf(j)[0] == 'm');
    assert |"stage"| == 5 && "stage"[0] == 's';
  }

  lemma RankOf(k: nat)
    requires k < 6
    ensures NameOf(k) in Rank() && Rank()[NameOf(k)] == (if k == 5 then 1 else 0)
    ensures "stage" !in Rank()
  {
    assert Order(Spec())[k] == NameOf(k);
    if k < 5 { NamesDiffer(k, 5); }
    forall i | 0 <= i < 6 ensures Order(Spec())[i] != "stage" {
      if i < 5 { NamesDiffer(i, 5); } else { NamesDiffer(4, 5); }
    }
  }

  /** What the monitor requires of an equation that reads outputs of rank below `r` at present. */
  ghost predicate Fine(e: SExpr, rank: map<Name, nat>, r: nat) {
    Static(e) && PastOnly(e) && Unnested(e) && Below(e, rank, r) && Ordered(e, rank.Keys, {}) && FoldSafe(e) && Fold(e).Unresolved?
  }

  lemma FineVar(x: Name, rank: map<Name, nat>, r: nat)
    requires x in rank ==> rank[x] < r
    ensures Fine(Var(x), rank, r)
  {
  }

  lemma FinePast(x: Name, rank: map<Name, nat>, r: nat)
    ensures Fine(SIndex(Var(x), -1), rank, r)
  {
    assert Static(Var(x)) && NoIndex(Var(x)) && Fold(Var(x)) == Unresolved(Var(x));
  }

  lemma FineOp(a: SExpr, b: SExpr, op: BinOp, rank: map<Name, nat>, r: nat)
    requires Commutative(op) && Fine(a, rank, r) && Fine(b, rank, r)
    ensures Fine(BinOp(a, b, op), rank, r)
  {
  }

  lemma FineWith(a: SExpr, v: Value, op: BinOp, rank: map<Name, nat>, r: nat)
    requires Commutative(op) && Fine(a, rank, r)
    ensures Fine(BinOp(a, Val(v), op), rank, r)
  {
    assert Static(Val(v)) && Fold(Val(v)) == Resolved(v);
  }

  lemma FineDefault(a: SExpr, v: Value, rank: map<Name, nat>, r: nat)
    requires Fine(a, rank, r)
    ensures Fine(Call2(Default, a, Val(v)), rank, r)
  {
    assert Static(Val(v));
  }

  lemma {:induction false} FineAnyOf(k: nat)
    requires 1 <= k <= 5
    ensures Fine(AnyOf(k), Rank(), 1)
  {
    RankOf(k - 1);
    FineVar(Letter(k - 1), Rank(), 1);
    if k != 1 {
      FineAnyOf(k - 1);
      FineOp(AnyOf(k - 1), Var(Letter(k - 1)), BOp(Or), Rank(), 1);
    }
  }

  lemma FineExpr(k: nat)
    requires k < 6
    ensures NameOf(k) in Rank() && Fine(ExprAt(k), Rank(), Rank()[NameOf(k)])
  {
    RankOf(k);
    if k == 5 {
      FineAnyOf(5);
    } else {
      var rank := Rank();
      FineVar("stage", rank, 0);
      FineWith(Var("stage"), Str(Letter(k)), COp(Eq), rank, 0);
      FinePast(Letter(Before(k)), rank, 0);
      FineDefault(SIndex(Var(Letter(Before(k))), -1), Bool(k == 0), rank, 0);
      FineOp(BinOp(Var("stage"), Val(Str(Letter(k))), COp(Eq)), Call2(Default, SIndex(Var(Letter(Before(k))), -1), Val(Bool(k == 0))),
             BOp(And), rank, 0);
    }
  }

  lemma EquationAt(k: nat)
    requires k < 6
    ensures var (spec, rank) := (Spec(), Rank());
            spec[k].0 in rank && Fine(spec[k].1, rank, rank[spec[k].0]) && Order(spec)[k] == spec[k].0
  {
    FineExpr(k);
    assert Spec()[k] == (NameOf(k), ExprAt(k));
  }

  lemma SpecNames()
    ensures DistinctNames(Spec())
  {
    forall i, j | 0 <= i < j < 6 ensures Spec()[i].0 != Spec()[j].0 { NamesDiffer(i, j); }
  }

  lemma SpecExprs(y: Name)
    requires y in Exprs(Spec())
    ensures y in Rank() && Fine(Exprs(Spec())[y], Rank(), Rank()[y])
  {
    var k :| 0 <= k < 6 && Order(Spec())[k] == y;
    SpecNames();
    EquationAt(k);
    ExprOfAt(Spec(), k);
  }

  lemma SpecOrdered()
    ensures Foldable(Exprs(Spec())) && AllOrdered(Exprs(Spec()), Order(Spec()))
  {
    var exprs := Exprs(Spec());
    assert exprs.Keys == Rank().Keys;
    forall y | y in exprs
      ensures Static(exprs[y]) && FoldOne(exprs[y]).Some? && FoldSafe(exprs[y]) && Ordered(exprs[y], exprs.Keys, {})
    {
      SpecExprs(y);
    }
    AnyTurn(Order(Spec()), exprs, {});
  }

  lemma SpecRunnable()
    ensures Runnable(Spec(), Rank()) && Foldable(Exprs(Spec())) && AllOrdered(Exprs(Spec()), Order(Spec()))
  {
    SpecNames();
    forall k | 0 <= k < 6 ensures Spec()[k].0 in Rank() && Fine(Spec()[k].1, Rank(), Rank()[Spec()[k].0]) { EquationAt(k); }
    SpecOrdered();
  }

  /** An input that gives a stage at every time. */
  function Inputs(stages: seq<string>): (ins: seq<seq<(Name, Value)>>)
    ensures |ins| == |stages|
  {
    seq(|stages|, t requires 0 <= t < |stages| => [("stage", Str(stages[t]))])
  }

  /** The stages up to and including time `t` go round the sequence. */
  ghost predicate InSequence(stages: seq<string>, t: nat)
    requires t < |stages|
  {
    forall i: nat :: i <= t ==> stages[i] == Letter(i % 5)
  }

  lemma InputsOnly(stages: seq<string>)
    ensures forall t :: 0 <= t < |stages| ==> OnlyInputs(Inputs(stages)[t], Exprs(Spec()))
    ensures forall t :: 0 <= t < |stages| ==> Provided(Inputs(stages)[t], "stage") == Some(Str(stages[t]))
  {
    RankOf(0);
    forall t | 0 <= t < |stages|
      ensures OnlyInputs(Inputs(stages)[t], Exprs(Spec())) && Provided(Inputs(stages)[t], "stage") == Some(Str(stages[t]))
    {
      assert Inputs(stages)[t] == [("stage", Str(stages[t]))] && Inputs(stages)[t][1..] == [];
    }
  }

  ghost predicate MapleMeaning(stages: seq<string>, env: Env) {
    Solution(env, |stages|) && forall t: nat :: t < |stages| ==> env("stage", t) == Some(Str(stages[t]))
  }

  lemma OutputSolves(env: Env, stages: seq<string>, t: nat, k: nat)
    requires t < |stages| && k < 6 && SolvesAt(env, Exprs(Spec()), Inputs(stages)[t], t)
    ensures Static(ExprAt(k)) && env(NameOf(k), t) == Eval(ExprAt(k), t, env)
  {
    SpecRunnable();
    ExprOfAt(Spec(), k);
    assert Spec()[k] == (NameOf(k), ExprAt(k)) && Order(Spec())[k] == NameOf(k);
    assert NameOf(k) in Exprs(Spec()) && Exprs(Spec())[NameOf(k)] == ExprAt(k);
  }

  lemma StageSolves(env: Env, stages: seq<string>, t: nat)
    requires t < |stages| && SolvesAt(env, Exprs(Spec()), Inputs(stages)[t], t)
    ensures env("stage", t) == Some(Str(stages[t]))
  {
    InputsOnly(stages);
    RankOf(0);
    assert "stage" !in Exprs(Spec());
  }

  /** Streams that solve the specification on such an input are a solution of the maple equations. */
  lemma SolvesIsSolution(env: Env, stages: seq<string>)
    requires Solves(env, Exprs(Spec()), Inputs(stages), 0)
    ensures MapleMeaning(stages, env)
  {
    forall t: nat | t < |stages| ensures SolutionAt(env, t) && env("stage", t) == Some(Str(stages[t])) {
      assert SolvesAt(env, Exprs(Spec()), Inputs(stages)[t], 0 + t);
      StageSolves(env, stages, t);
      forall k: nat | k < 5 ensures env(Letter(k), t) == Eval(Equation(k), t, env) { OutputSolves(env, stages, t, k); }
      OutputSolves(env, stages, t, 5);
    }
  }

  lemma AllDefined(stages: seq<string>, env: Env)
    requires MapleMeaning(stages, env)
    ensures !UndefinedWithin(Exprs(Spec()), env, 0, |stages|)
  {
    forall t: nat | t < |stages| ensures !UndefinedAt(Exprs(Spec()), env, t) {
      forall y | y in Exprs(Spec()) ensures env(y, t) != None {
        var k :| 0 <= k < 6 && Order(Spec())[k] == y;
        if k == 5 { MapleKept(env, |stages|, t); } else { PhaseOn(env, |stages|, t, k); }
      }
    }
  }

  lemma KeptIsInSequence(env: Env, stages: seq<string>, t: nat)
    requires t < |stages| && MapleMeaning(stages, env)
    ensures Kept(env, t) <==> InSequence(stages, t)
  {
    if Kept(env, t) {
      forall i: nat | i <= t ensures stages[i] == Letter(i % 5) { assert Stage(env, i, i % 5); }
    }
  }

  /** The monitor never panics on a sequence of stages, and what it sends for the output at every time
      tells whether the stages up to then are the letters of the word, over and over. */
  method MonitorMaple(stages: seq<string>) returns (sent: seq<seq<Option<Value>>>)
    ensures |sent| == |stages|
    ensures forall t: nat :: t < |stages| ==> |sent[t]| == 6 && sent[t][5] == Some(Bool(InSequence(stages, t)))
  {
    SpecRunnable();
    InputsOnly(stages);
    ghost var env := Meaning(Exprs(Spec()), Rank(), Inputs(stages), 2);
    var ok;
    ok, sent := MonitorDenotation(Spec(), Inputs(stages), Rank(), 2);
    SolvesIsSolution(env, stages);
    AllDefined(stages, env);
    forall t: nat | t < |stages| ensures |sent[t]| == 6 && sent[t][5] == Some(Bool(InSequence(stages, t))) {
      assert RightRow(sent[t], Order(Spec()), env, 0 + t);
      assert Order(Spec())[5] == WORD;
      MapleKept(env, |stages|, t);
      KeptIsInSequence(env, stages, t);
    }
  }
}
