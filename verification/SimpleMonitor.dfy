/** Specifications of one equation `z = x op y`, from the inputs to what is sent. */
module SimpleMonitors {
  import opened Lang
  import opened Solver
  import opened SolverMeaning
  import opened ConstraintRuntimes
  import opened GarbageCollection
  import opened ConstraintDenotations
  import opened ConstraintMonitors

  /** `z = x op y`. */
  function One(op: BinOp): Equations { [("z", BinOp(Var("x"), Var("y"), op))] }

  function Rank(): map<Name, nat> { map["z" := 0] }

  function Pairs(vs: seq<(Value, Value)>): (ins: seq<seq<(Name, Value)>>)
    ensures |ins| == |vs|
  {
    seq(|vs|, t requires 0 <= t < |vs| => [("x", vs[t].0), ("y", vs[t].1)])
  }

  lemma NamesDiffer()
    ensures "x" != "y" && "x" != "z" && "y" != "z"
  {
    assert "x"[0] == 'x' && "y"[0] == 'y' && "z"[0] == 'z';
  }

  lemma OneExprs(op: BinOp)
    ensures Order(One(op)) == ["z"] && Exprs(One(op)) == map["z" := BinOp(Var("x"), Var("y"), op)]
  {
    assert Order(One(op))[0] == "z" && ExprOf(One(op), "z") == BinOp(Var("x"), Var("y"), op);
  }

  lemma OneRunnable(op: BinOp)
    ensures Runnable(One(op), Rank()) && Foldable(Exprs(One(op))) && AllOrdered(Exprs(One(op)), Order(One(op)))
  {
    NamesDiffer();
    OneExprs(op);
    var (x, y, e) := (Var("x"), Var("y"), BinOp(Var("x"), Var("y"), op));
    assert Static(x) && Static(y) && Static(e) && PastOnly(x) && PastOnly(y) && Unnested(x) && Unnested(y);
    assert Below(x, Rank(), 0) && Below(y, Rank(), 0) && Fold(x) == Unresolved(x) && Fold(y) == Unresolved(y) && Fold(e) == Unresolved(e);
    assert FoldSafe(x) && FoldSafe(y) && FoldSafe(e);
    var outs := Exprs(One(op)).Keys;
    assert Within(x, outs, {}) && Within(y, outs, {}) && Ordered(x, outs, {}) && Ordered(y, outs, {}) && Ordered(e, outs, {});
    AnyTurn(["z"], Exprs(One(op)), {});
  }

  lemma PairsProvided(vs: seq<(Value, Value)>, t: nat, x: Name)
    requires t < |vs|
    ensures Provided(Pairs(vs)[t], x) == if x == "x" then Some(vs[t].0) else if x == "y" then Some(vs[t].1) else None
  {
    NamesDiffer();
    var ins := Pairs(vs)[t];
    assert ins[1..] == [("y", vs[t].1)] && ins[1..][1..] == [];
    assert Provided(ins[1..], x) == if x == "y" then Some(vs[t].1) else None;
  }

  lemma OneSolved(op: BinOp, vs: seq<(Value, Value)>, env: Env, t: nat)
    requires t < |vs| && Solves(env, Exprs(One(op)), Pairs(vs), 0)
    ensures env("z", t) == Table(vs[t].0, vs[t].1, op)
  {
    NamesDiffer();
    OneExprs(op);
    PairsProvided(vs, t, "x");
    PairsProvided(vs, t, "y");
    assert SolvesAt(env, Exprs(One(op)), Pairs(vs)[t], 0 + t);
    assert env("x", t) == Some(vs[t].0) && env("y", t) == Some(vs[t].1);
    assert Static(Exprs(One(op))["z"]) && env("z", t) == Eval(Exprs(One(op))["z"], t, env);
    assert Eval(Var("x"), t, env) == env("x", t) && Eval(Var("y"), t, env) == env("y", t);
  }

  lemma OneDefined(op: BinOp, vs: seq<(Value, Value)>, env: Env)
    requires Solves(env, Exprs(One(op)), Pairs(vs), 0)
    ensures UndefinedWithin(Exprs(One(op)), env, 0, |vs|) <==> exists t :: 0 <= t < |vs| && Table(vs[t].0, vs[t].1, op) == None
  {
    OneExprs(op);
    forall t: nat | t < |vs| ensures UndefinedAt(Exprs(One(op)), env, t) <==> Table(vs[t].0, vs[t].1, op) == None {
      OneSolved(op, vs, env, t);
      assert "z" in Exprs(One(op));
    }
    if t :| 0 <= t < |vs| && Table(vs[t].0, vs[t].1, op) == None {
      assert UndefinedAt(Exprs(One(op)), env, t);
    }
  }

  lemma OneRight(op: BinOp, vs: seq<(Value, Value)>, env: Env, sent: seq<seq<Option<Value>>>)
    requires Solves(env, Exprs(One(op)), Pairs(vs), 0) && |sent| == |vs| && RightRows(sent, Order(One(op)), env, 0)
    ensures forall t :: 0 <= t < |vs| ==> sent[t] == [Table(vs[t].0, vs[t].1, op)] && Table(vs[t].0, vs[t].1, op).Some?
  {
    OneExprs(op);
    forall t: nat | t < |vs| ensures sent[t] == [Table(vs[t].0, vs[t].1, op)] && Table(vs[t].0, vs[t].1, op).Some? {
      assert RightRow(sent[t], Order(One(op)), env, 0 + t);
      assert sent[t][0].Some? && sent[t][0] == env("z", t);
      OneSolved(op, vs, env, t);
    }
  }

  /** The monitor sends the results of the operator, and panics if and only if one is missing. */
  method MonitorOne(op: BinOp, vs: seq<(Value, Value)>) returns (ok: bool, sent: seq<seq<Option<Value>>>)
    ensures ok <==> forall t :: 0 <= t < |vs| ==> Table(vs[t].0, vs[t].1, op).Some?
    ensures ok ==> |sent| == |vs| && forall t :: 0 <= t < |vs| ==> sent[t] == [Table(vs[t].0, vs[t].1, op)]
  {
    OneRunnable(op);
    OneExprs(op);
    forall t: nat, x: Name | t < |vs| && Provided(Pairs(vs)[t], x).Some? ensures x !in Exprs(One(op)) {
      NamesDiffer();
      PairsProvided(vs, t, x);
    }
    ghost var env := Meaning(Exprs(One(op)), Rank(), Pairs(vs), 1);
    ok, sent := MonitorDenotation(One(op), Pairs(vs), Rank(), 1);
    OneDefined(op, vs, env);
    if ok { OneRight(op, vs, env, sent); }
  }

  function Ints(xs: seq<(int, int)>): (vs: seq<(Value, Value)>)
    ensures |vs| == |xs|
  {
    seq(|xs|, t requires 0 <= t < |xs| => (Int(xs[t].0), Int(xs[t].1)))
  }

  /** The sum of two integer streams. */
  method MonitorSum(xs: seq<(int, int)>) returns (sent: seq<seq<Option<Value>>>)
    ensures |sent| == |xs| && forall t :: 0 <= t < |xs| ==> sent[t] == [Some(Int(xs[t].0 + xs[t].1))]
  {
    var ok;
    ok, sent := MonitorOne(NOp(Add), Ints(xs));
  }

  /** Their product. */
  method MonitorProduct(xs: seq<(int, int)>) returns (sent: seq<seq<Option<Value>>>)
    ensures |sent| == |xs| && forall t :: 0 <= t < |xs| ==> sent[t] == [Some(Int(xs[t].0 * xs[t].1))]
  {
    var ok;
    ok, sent := MonitorOne(NOp(Mul), Ints(xs));
  }

  /** Two string streams put together. */
  method MonitorConcatenation(xs: seq<(string, string)>) returns (sent: seq<seq<Option<Value>>>)
    ensures |sent| == |xs| && forall t :: 0 <= t < |xs| ==> sent[t] == [Some(Str(xs[t].0 + xs[t].1))]
  {
    var vs := seq(|xs|, t requires 0 <= t < |xs| => (Str(xs[t].0), Str(xs[t].1)));
    var ok;
    ok, sent := MonitorOne(SOp, vs);
  }
}
