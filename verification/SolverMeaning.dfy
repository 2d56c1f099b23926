/** What the solver's expressions denote, and that folding, pinning and simplifying keep it - or where,
    exactly, they do not. */
module SolverMeaning {
  import opened Lang
  import opened Solver

  function Strict(v: Option<Value>, w: Option<Value>, op: BinOp): Option<Value> {
    if v.Some? && w.Some? then Table(v.value, w.value, op) else None
  }

  /** What an expression denotes at time `t`: an index shifts the stream below it. */
  function Eval(e: SExpr, t: nat, env: Env): Option<Value>
    requires Static(e)
  {
    match e
    case Val(v) => Some(v)
    case Var(x) => env(x, t)
    case SIndex(a, i) => if t + i < 0 then Some(Unknown) else Eval(a, t + i, env)
    case BinOp(l, r, op) => Strict(Eval(l, t, env), Eval(r, t, env), op)
    case If(b, p, q) =>
      (match Eval(b, t, env)
       case Some(Bool(c)) => if c then Eval(p, t, env) else Eval(q, t, env)
       case _ => None)
    case Call2(_, l, r) =>
      (match Eval(l, t, env)
       case Some(Unknown) => Eval(r, t, env)
       case v => v)
  }

  function EvalA(e: AbsExpr, base: nat, env: Env): Option<Value> {
    match e
    case AVal(v) => Some(v)
    case AVar(_, x) => env(x, base)
    case AIndex(a, t) => EvalA(a, t, env)
    case ABinOp(l, r, op) => Strict(EvalA(l, base, env), EvalA(r, base, env), op)
    case AIf(b, p, q) =>
      (match EvalA(b, base, env)
       case Some(Bool(c)) => if c then EvalA(p, base, env) else EvalA(q, base, env)
       case _ => None)
    case ADefault(l, r) =>
      (match EvalA(l, base, env)
       case Some(Unknown) => EvalA(r, base, env)
       case v => v)
  }

  lemma StrictCommutes(v: Option<Value>, w: Option<Value>, op: BinOp)
    requires Commutative(op)
    ensures Strict(v, w, op) == Strict(w, v, op)
  {
    if v.Some? && w.Some? { TableCommutes(v.value, w.value, op); }
  }

  lemma SafeSwap(v: Value, w: Value, op: BinOp)
    requires SwapSafe(v, op)
    ensures Table(v, w, op) == Table(w, v, op)
  {
    if Commutative(op) { TableCommutes(v, w, op); }
    if v == Str("") && w.Str? { assert "" + w.s == w.s + ""; }
  }

  /** Folding keeps the meaning at every time in every environment, as long as what changes sides may. */
  lemma {:induction false} FoldCorrect(e: SExpr, t: nat, env: Env)
    requires Static(e) && FoldSafe(e) && !Fold(e).Panic?
    ensures Fold(e).Unresolved? ==> Static(Fold(e).e) && Eval(Fold(e).e, t, env) == Eval(e, t, env)
    ensures Fold(e).Resolved? ==> Eval(e, t, env) == Some(Fold(e).v)
  {
    match e
    case BinOp(l, r, op) =>
      FoldCorrect(l, t, env);
      FoldCorrect(r, t, env);
      if Fold(l).Resolved? && Fold(r).Unresolved? && Eval(r, t, env).Some? { SafeSwap(Fold(l).v, Eval(r, t, env).value, op); }
    case SIndex(a, i) => FoldCorrect(a, if t + i < 0 then t else t + i, env);
    case If(b, p, q) =>
      FoldCorrect(b, t, env);
      if Fold(b) == Resolved(Bool(true)) { FoldCorrect(p, t, env); }
      if Fold(b) == Resolved(Bool(false)) { FoldCorrect(q, t, env); }
    case Call2(_, l, r) =>
      FoldCorrect(l, t, env);
      if Fold(l) == Resolved(Unknown) { FoldCorrect(r, t, env); }
    case _ =>
  }

  lemma {:induction false} UnindexedCorrect(e: SExpr, at: nat, t: nat, env: Env)
    requires Static(e) && NoIndex(e)
    ensures EvalA(ToAbsolute(e, at), t, env) == Eval(e, t, env)
  {
    match e
    case BinOp(l, r, _) => UnindexedCorrect(l, at, t, env); UnindexedCorrect(r, at, t, env);
    case If(b, p, q) => UnindexedCorrect(b, at, t, env); UnindexedCorrect(p, at, t, env); UnindexedCorrect(q, at, t, env);
    case Call2(_, l, r) => UnindexedCorrect(l, at, t, env); UnindexedCorrect(r, at, t, env);
    case _ =>
  }

  /** An index stands around another one only if its own offset is 0. */
  predicate Readable(e: SExpr)
    requires Static(e)
  {
    match e
    case SIndex(a, i) => NoIndex(a) || (i == 0 && Readable(a))
    case BinOp(l, r, _) => Readable(l) && Readable(r)
    case If(b, p, q) => Readable(b) && Readable(p) && Readable(q)
    case Call2(_, l, r) => Readable(l) && Readable(r)
    case _ => true
  }

  /** Then pinning an expression to a time keeps its meaning at that time. */
  lemma {:induction false} AbsoluteCorrect(e: SExpr, t: nat, env: Env)
    requires Static(e) && Readable(e)
    ensures EvalA(ToAbsolute(e, t), t, env) == Eval(e, t, env)
  {
    match e
    case BinOp(l, r, _) => AbsoluteCorrect(l, t, env); AbsoluteCorrect(r, t, env);
    case SIndex(a, i) => if !NoIndex(a) { AbsoluteCorrect(a, t, env); } else if 0 <= t + i { UnindexedCorrect(a, t, t + i, env); }
    case If(b, p, q) => AbsoluteCorrect(b, t, env); AbsoluteCorrect(p, t, env); AbsoluteCorrect(q, t, env);
    case Call2(_, l, r) => AbsoluteCorrect(l, t, env); AbsoluteCorrect(r, t, env);
    case _ =>
  }

  lemma UnnestedIsReadable(e: SExpr)
    requires Static(e) && Unnested(e)
    ensures Readable(e)
  {
  }

  /** With nested indices it does not: only the innermost offset is applied.  At time 2,
      `(a[-1])[-1]` denotes the value of `a` at time 0 but is pinned to the one at time 1. */
  lemma NestedIndexMisread(env: Env)
    ensures var e := SIndex(SIndex(Var("a"), -1), -1);
            Eval(e, 2, env) == env("a", 0) && EvalA(ToAbsolute(e, 2), 2, env) == env("a", 1)
  {
    var e := SIndex(Var("a"), -1);
    assert Eval(e, 1, env) == env("a", 0);
    assert ToAbsolute(e, 2) == AIndex(AVar(2, "a"), 1);
    assert ToAbsolute(SIndex(e, -1), 2) == AIndex(AIndex(AVar(2, "a"), 1), 1);
    assert EvalA(AIndex(AVar(2, "a"), 1), 1, env) == env("a", 1);
  }

  /** The items mean what `env` says of their streams at `now`. */
  ghost predicate Meant(items: seq<Item>, now: nat, env: Env) {
    forall it :: it in items ==> EvalA(it.expr, now, env) == env(it.name, now)
  }

  /** What the store knows at and before `now` is what `env` says; what it does not know at all, and
      does not expect to find out, is `Unknown`. */
  ghost predicate Sound(st: Store, now: nat, env: Env) {
    forall x: Name, t: nat :: t <= now ==>
      match st.Read(x, t)
      case Some(v) => env(x, t) == Some(v)
      case None => st.Pending(x, t).None? ==> env(x, t) == Some(Unknown)
  }

  ghost predicate ItemsOrdered(items: seq<Item>, now: nat, outs: set<Name>, done: set<Name>) {
    forall it :: it in items ==> OrderedA(it.expr, now, outs, done)
  }

  /** Items of the present, of the outputs `outs`. */
  ghost predicate ItemsOf(items: seq<Item>, now: nat, outs: set<Name>) {
    forall it :: it in items ==> it.time == now && it.name in outs
  }

  ghost predicate DoneAt(st: Store, now: nat, done: set<Name>) {
    forall x :: x in done ==> Lookup(st.resolved, x, now).Some?
  }

  /** Below an index into the past, simplification computes the denoted value. */
  lemma {:induction false} PastCorrect(e: AbsExpr, t: nat, st: Store, now: nat, env: Env)
    requires NoIndexA(e) && t < now && ItemsAt(st.unresolved, now) && Sound(st, now, env)
    ensures match Simplify(e, t, st)
            case Resolved(v) => EvalA(e, t, env) == Some(v)
            case Unresolved(_) => false
            case Panic => EvalA(e, t, env) == None
  {
    match e
    case AVar(_, x) => FindItemIn(st.unresolved, x, t);
    case ABinOp(l, r, _) => PastCorrect(l, t, st, now, env); PastCorrect(r, t, st, now, env);
    case AIf(b, p, q) => PastCorrect(b, t, st, now, env); PastCorrect(p, t, st, now, env); PastCorrect(q, t, st, now, env);
    case ADefault(l, r) => PastCorrect(l, t, st, now, env); PastCorrect(r, t, st, now, env);
    case AVal(_) =>
  }

  /** What reads no output at the present but those that are done never has to wait. */
  lemma {:induction false} WithinResolves(e: AbsExpr, now: nat, st: Store, keep: map<Name, nat>, outs: set<Name>, done: set<Name>)
    requires ItemsOf(st.unresolved, now, outs) && DoneAt(st, now, done)
    requires Fits(e, now, keep) && WithinA(e, now, outs, done)
    ensures !Simplify(e, now, st).Unresolved?
  {
    match e
    case ABinOp(p, q, _) =>
      WithinResolves(p, now, st, keep, outs, done);
      WithinResolves(q, now, st, keep, outs, done);
    case AIf(b, p, q) =>
      WithinResolves(b, now, st, keep, outs, done);
      WithinResolves(p, now, st, keep, outs, done);
      WithinResolves(q, now, st, keep, outs, done);
    case ADefault(p, q) =>
      WithinResolves(p, now, st, keep, outs, done);
      WithinResolves(q, now, st, keep, outs, done);
    case AIndex(a, t) =>
      if t < now {
        PastResolves(a, t, st, now);
      } else {
        NoIndexFits(a, now, keep);
        WithinResolves(a, now, st, keep, outs, done);
      }
    case AVar(_, x) => FindItemIn(st.unresolved, x, now);
    case AVal(_) =>
  }

  lemma {:induction false} OrderedMore(e: AbsExpr, now: nat, outs: set<Name>, done: set<Name>, more: set<Name>)
    requires done <= more
    ensures WithinA(e, now, outs, done) ==> WithinA(e, now, outs, more)
    ensures OrderedA(e, now, outs, done) ==> OrderedA(e, now, outs, more)
  {
    match e
    case ABinOp(p, q, _) => OrderedMore(p, now, outs, done, more); OrderedMore(q, now, outs, done, more);
    case AIf(b, p, q) =>
      OrderedMore(b, now, outs, done, more);
      OrderedMore(p, now, outs, done, more);
      OrderedMore(q, now, outs, done, more);
    case ADefault(p, q) => OrderedMore(p, now, outs, done, more); OrderedMore(q, now, outs, done, more);
    case AIndex(a, _) => OrderedMore(a, now, outs, done, more);
    case _ =>
  }

  /** What simplification needs to know of the store: it is sound, and its items belong to the present,
      fit the retention, mean their outputs, and are in order once `all` are done. */
  ghost predicate Sane(st: Store, now: nat, keep: map<Name, nat>, outs: set<Name>, all: set<Name>, env: Env) {
    && ItemsOf(st.unresolved, now, outs) && ItemsFit(st.unresolved, now, keep) && ItemsOrdered(st.unresolved, now, outs, all)
    && Sound(st, now, env) && Meant(st.unresolved, now, env)
  }

  /** Simplification at the present keeps the meaning, whether it resolves, rewrites or panics, if the
      outputs on which the order of operands depends are done. */
  lemma {:induction false} SimplifyCorrect(e: AbsExpr, now: nat, st: Store, keep: map<Name, nat>, outs: set<Name>,
                                           done: set<Name>, all: set<Name>, env: Env)
    requires Sane(st, now, keep, outs, all, env) && DoneAt(st, now, done) && done <= all
    requires Fits(e, now, keep) && OrderedA(e, now, outs, done)
    ensures match Simplify(e, now, st)
            case Resolved(v) => EvalA(e, now, env) == Some(v)
            case Unresolved(a) => EvalA(a, now, env) == EvalA(e, now, env) && OrderedA(a, now, outs, all)
            case Panic => EvalA(e, now, env) == None
  {
    match e
    case ABinOp(p, q, op) =>
      SimplifyCorrect(p, now, st, keep, outs, done, all, env);
      SimplifyCorrect(q, now, st, keep, outs, done, all, env);
      if Commutative(op) {
        StrictCommutes(EvalA(p, now, env), EvalA(q, now, env), op);
      } else {
        WithinResolves(q, now, st, keep, outs, done);
      }
    case AIf(b, p, q) =>
      SimplifyCorrect(b, now, st, keep, outs, done, all, env);
      OrderedMore(p, now, outs, done, all);
      OrderedMore(q, now, outs, done, all);
      if Simplify(b, now, st) == Resolved(Bool(true)) { SimplifyCorrect(p, now, st, keep, outs, done, all, env); }
      if Simplify(b, now, st) == Resolved(Bool(false)) { SimplifyCorrect(q, now, st, keep, outs, done, all, env); }
    case ADefault(p, q) =>
      SimplifyCorrect(p, now, st, keep, outs, done, all, env);
      OrderedMore(q, now, outs, done, all);
      if Simplify(p, now, st) == Resolved(Unknown) { SimplifyCorrect(q, now, st, keep, outs, done, all, env); }
    case AIndex(a, t) =>
      if t < now {
        PastCorrect(a, t, st, now, env);
      } else {
        NoIndexFits(a, now, keep);
        SimplifyCorrect(a, now, st, keep, outs, done, all, env);
      }
    case AVar(_, x) =>
      FindItemIn(st.unresolved, x, now);
      if st.Pending(x, now).Some? { assert Item(x, now, st.Pending(x, now).value) in st.unresolved; }
      assert match st.Read(x, now)
             case Some(v) => env(x, now) == Some(v)
             case None => st.Pending(x, now).None? ==> env(x, now) == Some(Unknown);
    case AVal(_) =>
  }

  /** Where operand order matters and the left operand is resolved first, the solver computes
      something else: `1 - a` is turned into `a - 1` before it is ever evaluated. */
  lemma SwappedOperands(env: Env)
    requires env("a", 0) == Some(Int(5))
    ensures var e := BinOp(Val(Int(1)), Var("a"), NOp(Sub));
            Fold(e) == Unresolved(BinOp(Var("a"), Val(Int(1)), NOp(Sub)))
            && Eval(e, 0, env) == Some(Int(-4)) && Eval(Fold(e).e, 0, env) == Some(Int(4))
  {
    assert Fold(Val(Int(1))) == Resolved(Int(1));
    assert Fold(Var("a")) == Unresolved(Var("a"));
  }

  /** For an operator that does not allow it, a right operand for which it makes a difference. */
  function Telling(v: Value, op: BinOp): Value {
    match (v, op)
    case (Int(i), NOp(Sub)) => Int(i + 1)
    case (Int(i), NOp(_)) => Int(if i == 0 then 1 else 0)
    case (Int(i), _) => Int(i + 1)
    case (Float(r), NOp(Sub)) => Float(r + 1.0)
    case (Float(r), NOp(_)) => Float(if r == 0.0 then 1.0 else 0.0)
    case (Float(r), _) => Float(r + 1.0)
    case (Str(s), SOp) => Str(if s != "" && s[0] == 'a' then "b" else "a")
    case (Str(s), _) => Str(if s == "" then "a" else "")
    case _ => v
  }

  lemma TellingDiffers(v: Value, op: BinOp)
    requires !SwapSafe(v, op)
    ensures Table(v, Telling(v, op), op) != Table(Telling(v, op), v, op)
  {
    var w := Telling(v, op);
    if v.Str? && op.SOp? { assert (v.s + w.s)[0] == v.s[0] && (w.s + v.s)[0] == w.s[0]; }
  }

  ghost predicate SameMeaning(a: SExpr, b: SExpr)
    requires Static(a) && Static(b)
  {
    forall env: Env, t: nat :: Eval(a, t, env) == Eval(b, t, env)
  }

  lemma DifferentMeaning(a: SExpr, b: SExpr, t: nat, env: Env)
    requires Static(a) && Static(b) && Eval(a, t, env) != Eval(b, t, env)
    ensures !SameMeaning(a, b)
  {
  }

  /** Folding a constant left operand to the right keeps the meaning of the expression, whatever the
      variable's values are, if and only if the constant and the operator allow it. */
  lemma ConstantLeftOperand(v: Value, x: Name, op: BinOp)
    ensures var (l, r) := (Val(v), Var(x));
            var (e, swapped) := (BinOp(l, r, op), BinOp(r, l, op));
            && Static(l) && Static(r) && Fold(e) == Unresolved(swapped)
            && (SameMeaning(swapped, e) <==> SwapSafe(v, op))
  {
    var (l, r) := (Val(v), Var(x));
    var (e, swapped) := (BinOp(l, r, op), BinOp(r, l, op));
    assert Fold(l) == Resolved(v) && Fold(r) == Unresolved(r);
    if SwapSafe(v, op) {
      forall env: Env, t: nat ensures Eval(swapped, t, env) == Eval(e, t, env) {
        if env(x, t).Some? { SafeSwap(v, env(x, t).value, op); }
      }
    } else {
      TellingDiffers(v, op);
      var w := Telling(v, op);
      var env: Env := (y: Name, t: nat) => Some(w);
      assert Eval(l, 0, env) == Some(v) && Eval(r, 0, env) == Some(w);
      assert Eval(e, 0, env) == Table(v, w, op) && Eval(swapped, 0, env) == Table(w, v, op);
      DifferentMeaning(swapped, e, 0, env);
    }
  }
}
