/** The specification of the maple sequence: five mutually dependent streams that follow the stages
    `m`, `a`, `p`, `l`, `e` around, and one that tells whether the sequence has been kept to. */
module Maple {
  import opened Lang
  import opened Solver
  import opened SolverMeaning

  const WORD := "maple"

  /** The name of a phase is the stage it waits for. */
  function Letter(k: nat): Name
    requires k < 5
  {
    [WORD[k]]
  }

  /** `(stage == letter) && default(before[-1], first)` */
  function Phase(letter: Name, before: Name, first: bool): SExpr {
    BinOp(BinOp(Var("stage"), Val(Str(letter)), COp(Eq)), Call2(Default, SIndex(Var(before), -1), Val(Bool(first))), BOp(And))
  }

  function Before(k: nat): (b: nat)
    ensures k < 5 ==> b < 5
  {
    if k == 0 then 4 else k - 1
  }

  /** The equation of the `k`-th phase. */
  function Equation(k: nat): (e: SExpr)
    requires k < 5
    ensures Static(e)
  {
    assert Static(Var("stage")) && Static(SIndex(Var(Letter(Before(k))), -1));
    Phase(Letter(k), Letter(Before(k)), k == 0)
  }

  /** The disjunction of the first `k` phases, from the left. */
  function AnyOf(k: nat): (e: SExpr)
    requires 1 <= k <= 5
    ensures Static(e)
  {
    if k == 1 then Var(Letter(0)) else BinOp(AnyOf(k - 1), Var(Letter(k - 1)), BOp(Or))
  }

  /** At time `t`, the streams solve the equations, with some string for the stage. */
  ghost predicate SolutionAt(env: Env, t: nat) {
    && env("stage", t).Some? && env("stage", t).value.Str?
    && (forall k: nat :: k < 5 ==> env(Letter(k), t) == Eval(Equation(k), t, env))
    && env(WORD, t) == Eval(AnyOf(5), t, env)
  }

  ghost predicate Solution(env: Env, n: nat) { forall t: nat :: t < n ==> SolutionAt(env, t) }

  ghost predicate Stage(env: Env, t: nat, k: nat)
    requires k < 5
  {
    env("stage", t) == Some(Str(Letter(k)))
  }

  ghost predicate On(env: Env, x: Name, t: nat) { env(x, t) == Some(Bool(true)) }

  /** The stages up to and including time `t` go round the sequence from its start. */
  ghost predicate Kept(env: Env, t: nat) { forall i: nat :: i <= t ==> Stage(env, i, i % 5) }

  /** What the equation of a phase means, once the phase before it is a boolean. */
  lemma PhaseMeaning(k: nat, t: nat, env: Env)
    requires k < 5 && env("stage", t).Some? && env("stage", t).value.Str?
    requires 0 < t ==> env(Letter(Before(k)), t - 1).Some? && env(Letter(Before(k)), t - 1).value.Bool?
    ensures Eval(Equation(k), t, env) ==
            Some(Bool(Stage(env, t, k) && (if t == 0 then k == 0 else On(env, Letter(Before(k)), t - 1))))
  {
    var (letter, before) := (Letter(k), Letter(Before(k)));
    var (l, i, first) := (BinOp(Var("stage"), Val(Str(letter)), COp(Eq)), SIndex(Var(before), -1), Val(Bool(k == 0)));
    var r := Call2(Default, i, first);
    assert Static(Var(before)) && Static(i) && Static(first) && Static(Var("stage")) && Static(l) && Static(r);
    assert Eval(Var("stage"), t, env) == env("stage", t) && Eval(Val(Str(letter)), t, env) == Some(Str(letter));
    assert Eval(l, t, env) == Some(Bool(Stage(env, t, k)));
    assert Eval(i, t, env) == if t == 0 then Some(Unknown) else env(before, t - 1);
    assert Eval(r, t, env) == Some(Bool(if t == 0 then k == 0 else On(env, before, t - 1)));
    assert Equation(k) == BinOp(l, r, BOp(And));
  }

  lemma PhaseStart(env: Env, n: nat, k: nat)
    requires k < 5 && Solution(env, n) && 0 < n
    ensures env(Letter(k), 0) == Some(Bool(0 == k && Kept(env, 0)))
  {
    assert SolutionAt(env, 0);
    PhaseMeaning(k, 0, env);
    KeptStep(env, 0);
  }

  lemma PhaseStep(env: Env, n: nat, t: nat, k: nat)
    requires 0 < t < n && k < 5 && Solution(env, n)
    requires env(Letter(Before(k)), t - 1) == Some(Bool((t - 1) % 5 == Before(k) && Kept(env, t - 1)))
    ensures env(Letter(k), t) == Some(Bool(t % 5 == k && Kept(env, t)))
  {
    assert SolutionAt(env, t);
    PhaseMeaning(k, t, env);
    KeptStep(env, t);
    NextPhase(t, k);
  }

  /** The `k`-th phase is on at time `t` exactly if the sequence has been kept to and has come to it. */
  lemma {:induction false} PhaseOn(env: Env, n: nat, t: nat, k: nat)
    requires Solution(env, n) && t < n && k < 5
    ensures env(Letter(k), t) == Some(Bool(t % 5 == k && Kept(env, t)))
  {
    if t == 0 {
      PhaseStart(env, n, k);
    } else {
      PhaseOn(env, n, t - 1, Before(k));
      PhaseStep(env, n, t, k);
    }
  }

  lemma NextPhase(t: nat, k: nat)
    requires 0 < t && k < 5
    ensures (t - 1) % 5 == Before(k) <==> t % 5 == k
  {
  }

  lemma KeptStep(env: Env, t: nat)
    ensures Kept(env, t) <==> (0 < t ==> Kept(env, t - 1)) && Stage(env, t, t % 5)
  {
  }

  lemma {:induction false} AnyOfMeaning(env: Env, n: nat, t: nat, k: nat)
    requires Solution(env, n) && t < n && 1 <= k <= 5
    ensures Eval(AnyOf(k), t, env) == Some(Bool(t % 5 < k && Kept(env, t)))
  {
    PhaseOn(env, n, t, k - 1);
    assert Eval(Var(Letter(k - 1)), t, env) == env(Letter(k - 1), t);
    if k != 1 { AnyOfMeaning(env, n, t, k - 1); }
  }

  /** The output is true at time `t` exactly if the stages up to then are a prefix of the sequence
      repeated for ever, and false otherwise. */
  lemma MapleKept(env: Env, n: nat, t: nat)
    requires Solution(env, n) && t < n
    ensures env(WORD, t) == Some(Bool(Kept(env, t)))
  {
    assert SolutionAt(env, t);
    AnyOfMeaning(env, n, t, 5);
  }

  /** At most one phase is on at any time. */
  lemma OnePhase(env: Env, n: nat, t: nat, j: nat, k: nat)
    requires Solution(env, n) && t < n && j < 5 && k < 5 && On(env, Letter(j), t) && On(env, Letter(k), t)
    ensures j == k
  {
    PhaseOn(env, n, t, j);
    PhaseOn(env, n, t, k);
  }

  /** Once the output is false, it stays false. */
  lemma OnceFalse(env: Env, n: nat, t: nat, u: nat)
    requires Solution(env, n) && t <= u < n && !On(env, WORD, t)
    ensures env(WORD, u) == Some(Bool(false))
  {
    MapleKept(env, n, t);
    MapleKept(env, n, u);
  }
}
