/** The constraint solver: expressions pinned to absolute times, and how the solver simplifies them
    against a store of recorded values.

    Modelled for the constructors that need no run-time expression text and that the solver
    implements: literals, variables, binary operators, stream indexing, `if` and `default`.
 */
module Solver {
  import opened Lang

  datatype AbsExpr =
    | AIf(cond: AbsExpr, thn: AbsExpr, els: AbsExpr)
    | AIndex(e: AbsExpr, time: nat)
    | AVal(v: Value)
    | ABinOp(lhs: AbsExpr, rhs: AbsExpr, op: BinOp)
    | AVar(at: nat, name: Name)
    | ADefault(lhs: AbsExpr, rhs: AbsExpr)

  datatype Outcome<+T> = Resolved(v: Value) | Unresolved(e: T) | Panic

  predicate Static(e: SExpr) {
    match e
    case Val(_) => true
    case Var(_) => true
    case SIndex(a, _) => Static(a)
    case BinOp(l, r, _) => Static(l) && Static(r)
    case If(b, t, f) => Static(b) && Static(t) && Static(f)
    case Call2(g, l, r) => g.Default? && Static(l) && Static(r)
    case _ => false
  }

  /** Every offset looks at the present or the past. */
  predicate PastOnly(e: SExpr)
    requires Static(e)
  {
    match e
    case SIndex(a, i) => i <= 0 && PastOnly(a)
    case BinOp(l, r, _) => PastOnly(l) && PastOnly(r)
    case If(b, t, f) => PastOnly(b) && PastOnly(t) && PastOnly(f)
    case Call2(_, l, r) => PastOnly(l) && PastOnly(r)
    case _ => true
  }

  predicate NoIndex(e: SExpr)
    requires Static(e)
  {
    match e
    case SIndex(_, _) => false
    case BinOp(l, r, _) => NoIndex(l) && NoIndex(r)
    case If(b, t, f) => NoIndex(b) && NoIndex(t) && NoIndex(f)
    case Call2(_, l, r) => NoIndex(l) && NoIndex(r)
    case _ => true
  }

  /** No stream index inside another one. */
  predicate Unnested(e: SExpr)
    requires Static(e)
  {
    match e
    case SIndex(a, _) => NoIndex(a)
    case BinOp(l, r, _) => Unnested(l) && Unnested(r)
    case If(b, t, f) => Unnested(b) && Unnested(t) && Unnested(f)
    case Call2(_, l, r) => Unnested(l) && Unnested(r)
    case _ => true
  }

  // ---------------------------------------------------------------------------------------------
  // The solver's functions
  // ---------------------------------------------------------------------------------------------

  /** Pins an expression to the time `base`.  The inside of an index keeps `base` as its own time. */
  function ToAbsolute(e: SExpr, base: nat): AbsExpr
    requires Static(e)
  {
    match e
    case Val(v) => AVal(v)
    case Var(x) => AVar(base, x)
    case SIndex(a, i) => if base + i < 0 then AVal(Unknown) else AIndex(ToAbsolute(a, base), base + i)
    case BinOp(l, r, op) => ABinOp(ToAbsolute(l, base), ToAbsolute(r, base), op)
    case If(b, t, f) => AIf(ToAbsolute(b, base), ToAbsolute(t, base), ToAbsolute(f, base))
    case Call2(_, l, r) => ADefault(ToAbsolute(l, base), ToAbsolute(r, base))
  }

  /** What a binary operator node becomes once its operands have been simplified.  Note the second
      mixed case: a resolved left operand changes sides with an unresolved right one. */
  function Combine<T>(l: Outcome<T>, r: Outcome<T>, op: BinOp, node: (T, T) -> T, leaf: Value -> T): Outcome<T> {
    match (l, r)
    case (Panic, _) => Panic
    case (_, Panic) => Panic
    case (Resolved(v), Resolved(w)) => (match Table(v, w, op) case Some(u) => Resolved(u) case None => Panic)
    case (Unresolved(a), Resolved(w)) => Unresolved(node(a, leaf(w)))
    case (Resolved(v), Unresolved(b)) => Unresolved(node(b, leaf(v)))
    case (Unresolved(a), Unresolved(b)) => Unresolved(node(a, b))
  }

  /** Constant folding of a relative expression, before it is pinned to a time. */
  function Fold(e: SExpr): Outcome<SExpr>
    requires Static(e)
  {
    match e
    case Val(v) => Resolved(v)
    case Var(x) => Unresolved(e)
    case BinOp(l, r, op) => Combine(Fold(l), Fold(r), op, (a, b) => BinOp(a, b, op), v => Val(v))
    case SIndex(a, i) =>
      if i == 0 then Fold(a)
      else (match Fold(a)
            case Unresolved(b) => Unresolved(SIndex(b, i))
            case Resolved(v) => Unresolved(SIndex(Val(v), i))
            case Panic => Panic)
    case If(b, t, f) =>
      (match Fold(b)
       case Resolved(Bool(c)) => if c then Fold(t) else Fold(f)
       case Resolved(_) => Panic
       case Unresolved(c) => Unresolved(If(c, t, f))
       case Panic => Panic)
    case Call2(g, l, r) =>
      (match Fold(l)
       case Resolved(Unknown) => Fold(r)
       case Resolved(v) => Resolved(v)
       case Unresolved(a) => Unresolved(Call2(g, a, r))
       case Panic => Panic)
  }

  /** A recorded stream: values with the times they belong to, in the order they were recorded. */
  type Stream = seq<(nat, Value)>

  function Find(s: Stream, t: nat): Option<Value> {
    if s == [] then None else if s[0].0 == t then Some(s[0].1) else Find(s[1..], t)
  }

  function Lookup(m: map<Name, Stream>, x: Name, t: nat): Option<Value> {
    if x in m then Find(m[x], t) else None
  }

  /** An output still to be resolved for one time. */
  datatype Item = Item(name: Name, time: nat, expr: AbsExpr)

  function FindItem(items: seq<Item>, x: Name, t: nat): Option<AbsExpr> {
    if items == [] then None
    else if items[0].name == x && items[0].time == t then Some(items[0].expr)
    else FindItem(items[1..], x, t)
  }

  datatype Store = Store(inputs: map<Name, Stream>, resolved: map<Name, Stream>, unresolved: seq<Item>)
  {
    function Read(x: Name, t: nat): Option<Value> {
      match Lookup(resolved, x, t)
      case Some(v) => Some(v)
      case None => Lookup(inputs, x, t)
    }

    function Pending(x: Name, t: nat): Option<AbsExpr> { FindItem(unresolved, x, t) }
  }

  /** Simplification at time `base`. A variable is looked up at `base`, whatever time it was pinned
      to; an index overrides the time for everything below it. */
  function Simplify(e: AbsExpr, base: nat, st: Store): Outcome<AbsExpr> {
    match e
    case AVal(v) => Resolved(v)
    case ABinOp(l, r, op) =>
      Combine(Simplify(l, base, st), Simplify(r, base, st), op, (a, b) => ABinOp(a, b, op), v => AVal(v))
    case AVar(_, x) =>
      (match st.Read(x, base)
       case Some(v) => Resolved(v)
       case None => (match st.Pending(x, base) case Some(a) => Unresolved(a) case None => Resolved(Unknown)))
    case AIndex(a, t) => if t <= base then Simplify(a, t, st) else Unresolved(e)
    case AIf(b, t, f) =>
      (match Simplify(b, base, st)
       case Resolved(Bool(c)) => if c then Simplify(t, base, st) else Simplify(f, base, st)
       case Resolved(_) => Panic
       case Unresolved(c) => Unresolved(AIf(c, t, f))
       case Panic => Panic)
    case ADefault(l, r) =>
      (match Simplify(l, base, st)
       case Resolved(Unknown) => Simplify(r, base, st)
       case Resolved(v) => Resolved(v)
       case Unresolved(a) => Unresolved(ADefault(a, r))
       case Panic => Panic)
  }

  // ---------------------------------------------------------------------------------------------
  // What an expression reads
  // ---------------------------------------------------------------------------------------------

  function Vars(e: SExpr): set<Name>
    requires Static(e)
  {
    match e
    case Var(x) => {x}
    case SIndex(a, _) => Vars(a)
    case BinOp(l, r, _) => Vars(l) + Vars(r)
    case If(b, t, f) => Vars(b) + Vars(t) + Vars(f)
    case Call2(_, l, r) => Vars(l) + Vars(r)
    case _ => {}
  }

  function Keep(keep: map<Name, nat>, x: Name): nat { if x in keep then keep[x] else 0 }

  /** `keep` retains every variable for as long as some index of `e` looks back at it. */
  predicate Retained(e: SExpr, keep: map<Name, nat>)
    requires Static(e)
  {
    match e
    case SIndex(a, i) => (forall x :: x in Vars(a) ==> Magnitude(i) <= Keep(keep, x)) && Retained(a, keep)
    case BinOp(l, r, _) => Retained(l, keep) && Retained(r, keep)
    case If(b, t, f) => Retained(b, keep) && Retained(t, keep) && Retained(f, keep)
    case Call2(_, l, r) => Retained(l, keep) && Retained(r, keep)
    case _ => true
  }

  /** Every ranked variable that `e` reads at the present has a rank below `r`. */
  predicate Below(e: SExpr, rank: map<Name, nat>, r: nat)
    requires Static(e)
  {
    match e
    case Var(x) => x in rank ==> rank[x] < r
    case SIndex(a, i) => i == 0 ==> Below(a, rank, r)
    case BinOp(p, q, _) => Below(p, rank, r) && Below(q, rank, r)
    case If(b, t, f) => Below(b, rank, r) && Below(t, rank, r) && Below(f, rank, r)
    case Call2(_, p, q) => Below(p, rank, r) && Below(q, rank, r)
    case _ => true
  }

  /** Every output that `e` reads at the present is among `done`. */
  predicate Within(e: SExpr, outs: set<Name>, done: set<Name>)
    requires Static(e)
  {
    match e
    case Var(x) => x in outs ==> x in done
    case SIndex(a, i) => i == 0 ==> Within(a, outs, done)
    case BinOp(p, q, _) => Within(p, outs, done) && Within(q, outs, done)
    case If(b, t, f) => Within(b, outs, done) && Within(t, outs, done) && Within(f, outs, done)
    case Call2(_, p, q) => Within(p, outs, done) && Within(q, outs, done)
    case _ => true
  }

  /** Where operand order matters at the present, the right operand reads no output at the present but
      those in `done`: once these are resolved, it never has to wait longer than the left one. */
  predicate Ordered(e: SExpr, outs: set<Name>, done: set<Name>)
    requires Static(e)
  {
    match e
    case SIndex(a, i) => i == 0 ==> Ordered(a, outs, done)
    case BinOp(p, q, op) => Ordered(p, outs, done) && Ordered(q, outs, done) && (Commutative(op) || Within(q, outs, done))
    case If(b, t, f) => Ordered(b, outs, done) && Ordered(t, outs, done) && Ordered(f, outs, done)
    case Call2(_, p, q) => Ordered(p, outs, done) && Ordered(q, outs, done)
    case _ => true
  }

  /** Whether a constant left operand may change sides with whatever the right one turns out to be. */
  predicate SwapSafe(v: Value, op: BinOp) {
    || Commutative(op)
    || v.Bool? || v.Unknown? || v.Unit?
    || (v.Str? && (op.NOp? || (op.SOp? && v.s == "")))
    || (!v.Str? && op.SOp?)
  }

  /** Folding makes no left operand change sides for which it could make a difference. */
  predicate FoldSafe(e: SExpr)
    requires Static(e)
  {
    match e
    case SIndex(a, _) => FoldSafe(a)
    case BinOp(p, q, op) =>
      FoldSafe(p) && FoldSafe(q) && (Fold(p).Resolved? && Fold(q).Unresolved? ==> SwapSafe(Fold(p).v, op))
    case If(b, t, f) => FoldSafe(b) && FoldSafe(t) && FoldSafe(f)
    case Call2(_, p, q) => FoldSafe(p) && FoldSafe(q)
    case _ => true
  }

  // The same notions for expressions pinned to absolute times, at the present time `now`.

  function VarsA(e: AbsExpr): set<Name> {
    match e
    case AVar(_, x) => {x}
    case AIndex(a, _) => VarsA(a)
    case ABinOp(l, r, _) => VarsA(l) + VarsA(r)
    case AIf(b, t, f) => VarsA(b) + VarsA(t) + VarsA(f)
    case ADefault(l, r) => VarsA(l) + VarsA(r)
    case AVal(_) => {}
  }

  predicate NoIndexA(e: AbsExpr) {
    match e
    case AIndex(_, _) => false
    case ABinOp(l, r, _) => NoIndexA(l) && NoIndexA(r)
    case AIf(b, t, f) => NoIndexA(b) && NoIndexA(t) && NoIndexA(f)
    case ADefault(l, r) => NoIndexA(l) && NoIndexA(r)
    case _ => true
  }

  /** Indices are not nested, look at no later time than `now`, and read only what is retained. */
  predicate Fits(e: AbsExpr, now: nat, keep: map<Name, nat>) {
    match e
    case AIndex(a, t) => t <= now && NoIndexA(a) && forall x :: x in VarsA(a) ==> now <= t + Keep(keep, x)
    case ABinOp(l, r, _) => Fits(l, now, keep) && Fits(r, now, keep)
    case AIf(b, t, f) => Fits(b, now, keep) && Fits(t, now, keep) && Fits(f, now, keep)
    case ADefault(l, r) => Fits(l, now, keep) && Fits(r, now, keep)
    case _ => true
  }

  predicate BelowA(e: AbsExpr, now: nat, rank: map<Name, nat>, r: nat) {
    match e
    case AVar(_, x) => x in rank ==> rank[x] < r
    case AIndex(a, t) => t == now ==> BelowA(a, now, rank, r)
    case ABinOp(p, q, _) => BelowA(p, now, rank, r) && BelowA(q, now, rank, r)
    case AIf(b, t, f) => BelowA(b, now, rank, r) && BelowA(t, now, rank, r) && BelowA(f, now, rank, r)
    case ADefault(p, q) => BelowA(p, now, rank, r) && BelowA(q, now, rank, r)
    case AVal(_) => true
  }

  predicate WithinA(e: AbsExpr, now: nat, outs: set<Name>, done: set<Name>) {
    match e
    case AVar(_, x) => x in outs ==> x in done
    case AIndex(a, t) => t == now ==> WithinA(a, now, outs, done)
    case ABinOp(p, q, _) => WithinA(p, now, outs, done) && WithinA(q, now, outs, done)
    case AIf(b, t, f) => WithinA(b, now, outs, done) && WithinA(t, now, outs, done) && WithinA(f, now, outs, done)
    case ADefault(p, q) => WithinA(p, now, outs, done) && WithinA(q, now, outs, done)
    case AVal(_) => true
  }

  predicate OrderedA(e: AbsExpr, now: nat, outs: set<Name>, done: set<Name>) {
    match e
    case AIndex(a, t) => t == now ==> OrderedA(a, now, outs, done)
    case ABinOp(p, q, op) =>
      && OrderedA(p, now, outs, done) && OrderedA(q, now, outs, done)
      && (Commutative(op) || WithinA(q, now, outs, done))
    case AIf(b, t, f) => OrderedA(b, now, outs, done) && OrderedA(t, now, outs, done) && OrderedA(f, now, outs, done)
    case ADefault(p, q) => OrderedA(p, now, outs, done) && OrderedA(q, now, outs, done)
    case _ => true
  }

  // ---------------------------------------------------------------------------------------------
  // Constant folding
  // ---------------------------------------------------------------------------------------------

  /** Folding keeps an expression within the fragment and is idempotent: what it leaves unresolved
      folds to itself, so the runtime's fixed-point loop over the specification ends. */
  lemma FoldIdempotent(e: SExpr)
    requires Static(e) && Fold(e).Unresolved?
    ensures Static(Fold(e).e) && Fold(Fold(e).e) == Fold(e)
  {
  }

  lemma NoIndexIsUnnested(e: SExpr)
    requires Static(e) && NoIndex(e)
    ensures Unnested(e)
  {
  }

  // Folding introduces no new reads.

  lemma {:induction false} FoldKeepsShape(e: SExpr)
    requires Static(e) && Fold(e).Unresolved?
    ensures Static(Fold(e).e) && Vars(Fold(e).e) <= Vars(e)
    ensures PastOnly(e) ==> PastOnly(Fold(e).e)
    ensures NoIndex(e) ==> NoIndex(Fold(e).e)
    ensures Unnested(e) ==> Unnested(Fold(e).e)
  {
    match e
    case BinOp(l, r, _) =>
      if Fold(l).Unresolved? { FoldKeepsShape(l); }
      if Fold(r).Unresolved? { FoldKeepsShape(r); }
    case SIndex(a, i) =>
      if Fold(a).Unresolved? { FoldKeepsShape(a); }
      if NoIndex(a) && Fold(a).Unresolved? { NoIndexIsUnnested(Fold(a).e); }
    case If(b, t, f) =>
      if Fold(b).Unresolved? { FoldKeepsShape(b); }
      if Fold(b) == Resolved(Bool(true)) { FoldKeepsShape(t); }
      if Fold(b) == Resolved(Bool(false)) { FoldKeepsShape(f); }
    case Call2(_, l, r) =>
      if Fold(l).Unresolved? { FoldKeepsShape(l); }
      if Fold(l) == Resolved(Unknown) { FoldKeepsShape(r); }
    case _ =>
  }

  lemma {:induction false} FoldKeepsRetained(e: SExpr, keep: map<Name, nat>)
    requires Static(e) && Fold(e).Unresolved?
    requires Retained(e, keep)
    ensures Static(Fold(e).e) && Vars(Fold(e).e) <= Vars(e) && Retained(Fold(e).e, keep)
  {
    match e
    case BinOp(l, r, _) =>
      if Fold(l).Unresolved? { FoldKeepsRetained(l, keep); }
      if Fold(r).Unresolved? { FoldKeepsRetained(r, keep); }
    case SIndex(a, i) =>
      if Fold(a).Unresolved? { FoldKeepsRetained(a, keep); }
    case If(b, t, f) =>
      if Fold(b).Unresolved? { FoldKeepsRetained(b, keep); }
      if Fold(b) == Resolved(Bool(true)) { FoldKeepsRetained(t, keep); }
      if Fold(b) == Resolved(Bool(false)) { FoldKeepsRetained(f, keep); }
    case Call2(_, l, r) =>
      if Fold(l).Unresolved? { FoldKeepsRetained(l, keep); }
      if Fold(l) == Resolved(Unknown) { FoldKeepsRetained(r, keep); }
    case _ =>
  }

  lemma {:induction false} FoldKeepsBelow(e: SExpr, rank: map<Name, nat>, r: nat)
    requires Static(e) && Fold(e).Unresolved?
    requires Below(e, rank, r)
    ensures Static(Fold(e).e) && Below(Fold(e).e, rank, r)
  {
    match e
    case BinOp(p, q, _) =>
      if Fold(p).Unresolved? { FoldKeepsBelow(p, rank, r); }
      if Fold(q).Unresolved? { FoldKeepsBelow(q, rank, r); }
    case SIndex(a, i) =>
      if i == 0 && Fold(a).Unresolved? { FoldKeepsBelow(a, rank, r); }
      if Fold(a).Unresolved? { FoldKeepsShape(a); }
    case If(b, t, f) =>
      if Fold(b).Unresolved? { FoldKeepsBelow(b, rank, r); }
      if Fold(b) == Resolved(Bool(true)) { FoldKeepsBelow(t, rank, r); }
      if Fold(b) == Resolved(Bool(false)) { FoldKeepsBelow(f, rank, r); }
    case Call2(_, p, q) =>
      if Fold(p).Unresolved? { FoldKeepsBelow(p, rank, r); }
      if Fold(p) == Resolved(Unknown) { FoldKeepsBelow(q, rank, r); }
    case _ =>
  }

  lemma {:induction false} FoldKeepsWithin(e: SExpr, outs: set<Name>, done: set<Name>)
    requires Static(e) && Fold(e).Unresolved?
    requires Within(e, outs, done)
    ensures Static(Fold(e).e) && Within(Fold(e).e, outs, done)
  {
    match e
    case BinOp(p, q, _) =>
      if Fold(p).Unresolved? { FoldKeepsWithin(p, outs, done); }
      if Fold(q).Unresolved? { FoldKeepsWithin(q, outs, done); }
    case SIndex(a, i) =>
      if i == 0 && Fold(a).Unresolved? { FoldKeepsWithin(a, outs, done); }
      if Fold(a).Unresolved? { FoldKeepsShape(a); }
    case If(b, t, f) =>
      if Fold(b).Unresolved? { FoldKeepsWithin(b, outs, done); }
      if Fold(b) == Resolved(Bool(true)) { FoldKeepsWithin(t, outs, done); }
      if Fold(b) == Resolved(Bool(false)) { FoldKeepsWithin(f, outs, done); }
    case Call2(_, p, q) =>
      if Fold(p).Unresolved? { FoldKeepsWithin(p, outs, done); }
      if Fold(p) == Resolved(Unknown) { FoldKeepsWithin(q, outs, done); }
    case _ =>
  }

  lemma {:induction false} FoldKeepsOrdered(e: SExpr, outs: set<Name>, done: set<Name>)
    requires Static(e) && Fold(e).Unresolved?
    requires Ordered(e, outs, done)
    ensures Static(Fold(e).e) && Ordered(Fold(e).e, outs, done)
  {
    match e
    case BinOp(p, q, _) =>
      if Fold(p).Unresolved? { FoldKeepsOrdered(p, outs, done); }
      if Fold(q).Unresolved? { FoldKeepsOrdered(q, outs, done); }
      if Fold(q).Unresolved? && Within(q, outs, done) { FoldKeepsWithin(q, outs, done); }
    case SIndex(a, i) =>
      if i == 0 && Fold(a).Unresolved? { FoldKeepsOrdered(a, outs, done); }
      if Fold(a).Unresolved? { FoldKeepsShape(a); }
    case If(b, t, f) =>
      if Fold(b).Unresolved? { FoldKeepsOrdered(b, outs, done); }
      if Fold(b) == Resolved(Bool(true)) { FoldKeepsOrdered(t, outs, done); }
      if Fold(b) == Resolved(Bool(false)) { FoldKeepsOrdered(f, outs, done); }
    case Call2(_, p, q) =>
      if Fold(p).Unresolved? { FoldKeepsOrdered(p, outs, done); }
      if Fold(p) == Resolved(Unknown) { FoldKeepsOrdered(q, outs, done); }
    case _ =>
  }

  lemma {:induction false} FoldKeepsSafe(e: SExpr)
    requires Static(e) && Fold(e).Unresolved?
    requires FoldSafe(e)
    ensures Static(Fold(e).e) && FoldSafe(Fold(e).e)
  {
    match e
    case BinOp(p, q, _) =>
      if Fold(p).Unresolved? { FoldKeepsSafe(p); FoldIdempotent(p); }
      if Fold(q).Unresolved? { FoldKeepsSafe(q); FoldIdempotent(q); }
    case SIndex(a, i) =>
      if Fold(a).Unresolved? { FoldKeepsSafe(a); FoldIdempotent(a); }
    case If(b, t, f) =>
      if Fold(b).Unresolved? { FoldKeepsSafe(b); FoldIdempotent(b); }
      if Fold(b) == Resolved(Bool(true)) { FoldKeepsSafe(t); FoldIdempotent(t); }
      if Fold(b) == Resolved(Bool(false)) { FoldKeepsSafe(f); FoldIdempotent(f); }
    case Call2(_, p, q) =>
      if Fold(p).Unresolved? { FoldKeepsSafe(p); FoldIdempotent(p); }
      if Fold(p) == Resolved(Unknown) { FoldKeepsSafe(q); FoldIdempotent(q); }
    case _ =>
  }

  lemma {:induction false} WithinMore(e: SExpr, outs: set<Name>, done: set<Name>, more: set<Name>)
    requires Static(e) && done <= more
    ensures Within(e, outs, done) ==> Within(e, outs, more)
    ensures Ordered(e, outs, done) ==> Ordered(e, outs, more)
  {
    match e
    case SIndex(a, _) => WithinMore(a, outs, done, more);
    case BinOp(p, q, _) => WithinMore(p, outs, done, more); WithinMore(q, outs, done, more);
    case If(b, t, f) => WithinMore(b, outs, done, more); WithinMore(t, outs, done, more); WithinMore(f, outs, done, more);
    case Call2(_, p, q) => WithinMore(p, outs, done, more); WithinMore(q, outs, done, more);
    case _ =>
  }

  /** An expression that reads nothing else at the present is in order, whatever its operators. */
  lemma {:induction false} WithinIsOrdered(e: SExpr, outs: set<Name>, done: set<Name>)
    requires Static(e) && Within(e, outs, done)
    ensures Ordered(e, outs, done)
  {
    match e
    case SIndex(a, i) => if i == 0 { WithinIsOrdered(a, outs, done); }
    case BinOp(p, q, _) => WithinIsOrdered(p, outs, done); WithinIsOrdered(q, outs, done);
    case If(b, t, f) => WithinIsOrdered(b, outs, done); WithinIsOrdered(t, outs, done); WithinIsOrdered(f, outs, done);
    case Call2(_, p, q) => WithinIsOrdered(p, outs, done); WithinIsOrdered(q, outs, done);
    case _ =>
  }

  // ---------------------------------------------------------------------------------------------
  // Pinning to a time
  // ---------------------------------------------------------------------------------------------

  lemma {:induction false} AbsoluteShape(e: SExpr, now: nat, keep: map<Name, nat>, rank: map<Name, nat>)
    requires Static(e) && PastOnly(e) && Unnested(e) && Retained(e, keep)
    ensures VarsA(ToAbsolute(e, now)) <= Vars(e)
    ensures NoIndex(e) ==> NoIndexA(ToAbsolute(e, now))
    ensures Fits(ToAbsolute(e, now), now, keep)
    ensures forall r :: Below(e, rank, r) ==> BelowA(ToAbsolute(e, now), now, rank, r)
  {
    match e
    case BinOp(l, r, _) => AbsoluteShape(l, now, keep, rank); AbsoluteShape(r, now, keep, rank);
    case SIndex(a, i) => NoIndexIsUnnested(a); AbsoluteShape(a, now, keep, rank);
    case If(b, t, f) =>
      AbsoluteShape(b, now, keep, rank); AbsoluteShape(t, now, keep, rank); AbsoluteShape(f, now, keep, rank);
    case Call2(_, l, r) => AbsoluteShape(l, now, keep, rank); AbsoluteShape(r, now, keep, rank);
    case _ =>
  }

  lemma {:induction false} AbsoluteReads(e: SExpr, now: nat, outs: set<Name>, done: set<Name>)
    requires Static(e) && PastOnly(e)
    ensures Within(e, outs, done) ==> WithinA(ToAbsolute(e, now), now, outs, done)
    ensures Ordered(e, outs, done) ==> OrderedA(ToAbsolute(e, now), now, outs, done)
  {
    match e
    case BinOp(p, q, _) => AbsoluteReads(p, now, outs, done); AbsoluteReads(q, now, outs, done);
    case SIndex(a, _) => AbsoluteReads(a, now, outs, done);
    case If(b, t, f) => AbsoluteReads(b, now, outs, done); AbsoluteReads(t, now, outs, done); AbsoluteReads(f, now, outs, done);
    case Call2(_, p, q) => AbsoluteReads(p, now, outs, done); AbsoluteReads(q, now, outs, done);
    case _ =>
  }

  // ---------------------------------------------------------------------------------------------
  // Simplification against a store
  // ---------------------------------------------------------------------------------------------

  predicate ItemsAt(items: seq<Item>, now: nat) { forall it :: it in items ==> it.time == now }

  lemma {:induction false} FindItemIn(items: seq<Item>, x: Name, t: nat)
    ensures FindItem(items, x, t).Some? ==> Item(x, t, FindItem(items, x, t).value) in items
    ensures FindItem(items, x, t).None? ==> forall it :: it in items ==> it.name != x || it.time != t
  {
    if items != [] { FindItemIn(items[1..], x, t); }
  }

  /** Below an index into the past, everything resolves at once. */
  lemma {:induction false} PastResolves(e: AbsExpr, t: nat, st: Store, now: nat)
    requires NoIndexA(e) && t < now && ItemsAt(st.unresolved, now)
    ensures !Simplify(e, t, st).Unresolved?
  {
    match e
    case AVar(_, x) => FindItemIn(st.unresolved, x, t);
    case ABinOp(l, r, _) => PastResolves(l, t, st, now); PastResolves(r, t, st, now);
    case AIf(b, p, q) => PastResolves(b, t, st, now); PastResolves(p, t, st, now); PastResolves(q, t, st, now);
    case ADefault(l, r) => PastResolves(l, t, st, now); PastResolves(r, t, st, now);
    case AVal(_) =>
  }

  ghost predicate SameWindow(a: map<Name, Stream>, b: map<Name, Stream>, now: nat, keep: map<Name, nat>) {
    forall x: Name, t: nat :: now <= t + Keep(keep, x) ==> Lookup(a, x, t) == Lookup(b, x, t)
  }

  /** Two stores that a simplification at `now` cannot tell apart. */
  ghost predicate Agree(a: Store, b: Store, now: nat, keep: map<Name, nat>) {
    && a.unresolved == b.unresolved
    && SameWindow(a.inputs, b.inputs, now, keep) && SameWindow(a.resolved, b.resolved, now, keep)
  }

  lemma {:induction false} SameBelowIndex(e: AbsExpr, t: nat, a: Store, b: Store)
    requires NoIndexA(e) && a.unresolved == b.unresolved && forall x :: x in VarsA(e) ==> a.Read(x, t) == b.Read(x, t)
    ensures Simplify(e, t, a) == Simplify(e, t, b)
  {
    match e
    case ABinOp(l, r, _) => SameBelowIndex(l, t, a, b); SameBelowIndex(r, t, a, b);
    case AIf(c, p, q) => SameBelowIndex(c, t, a, b); SameBelowIndex(p, t, a, b); SameBelowIndex(q, t, a, b);
    case ADefault(l, r) => SameBelowIndex(l, t, a, b); SameBelowIndex(r, t, a, b);
    case _ =>
  }

  lemma {:induction false} SameSimplify(e: AbsExpr, now: nat, a: Store, b: Store, keep: map<Name, nat>)
    requires Fits(e, now, keep) && Agree(a, b, now, keep)
    ensures Simplify(e, now, a) == Simplify(e, now, b)
  {
    match e
    case ABinOp(l, r, _) => SameSimplify(l, now, a, b, keep); SameSimplify(r, now, a, b, keep);
    case AIf(c, p, q) => SameSimplify(c, now, a, b, keep); SameSimplify(p, now, a, b, keep); SameSimplify(q, now, a, b, keep);
    case ADefault(l, r) => SameSimplify(l, now, a, b, keep); SameSimplify(r, now, a, b, keep);
    case AIndex(i, t) => SameBelowIndex(i, t, a, b);
    case AVar(_, x) => assert Lookup(a.resolved, x, now) == Lookup(b.resolved, x, now);
    case AVal(_) =>
  }

  /** No item reads what is not retained any more at `now`. */
  ghost predicate ItemsFit(items: seq<Item>, now: nat, keep: map<Name, nat>) {
    forall it :: it in items ==> Fits(it.expr, now, keep)
  }

  /** Neither does what a simplification leaves unresolved, at whatever time it looks. */
  lemma {:induction false} SimplifyKeepsFit(e: AbsExpr, t: nat, st: Store, now: nat, keep: map<Name, nat>)
    requires ItemsFit(st.unresolved, now, keep) && Fits(e, now, keep) && Simplify(e, t, st).Unresolved?
    ensures Fits(Simplify(e, t, st).e, now, keep)
  {
    match e
    case ABinOp(p, q, _) =>
      if Simplify(p, t, st).Unresolved? { SimplifyKeepsFit(p, t, st, now, keep); }
      if Simplify(q, t, st).Unresolved? { SimplifyKeepsFit(q, t, st, now, keep); }
    case AIf(b, p, q) =>
      if Simplify(b, t, st).Unresolved? { SimplifyKeepsFit(b, t, st, now, keep); }
      if Simplify(b, t, st) == Resolved(Bool(true)) { SimplifyKeepsFit(p, t, st, now, keep); }
      if Simplify(b, t, st) == Resolved(Bool(false)) { SimplifyKeepsFit(q, t, st, now, keep); }
    case ADefault(p, q) =>
      if Simplify(p, t, st).Unresolved? { SimplifyKeepsFit(p, t, st, now, keep); }
      if Simplify(p, t, st) == Resolved(Unknown) { SimplifyKeepsFit(q, t, st, now, keep); }
    case AIndex(a, u) =>
      if u <= t {
        NoIndexFits(a, now, keep);
        SimplifyKeepsFit(a, u, st, now, keep);
      }
    case AVar(_, x) =>
      FindItemIn(st.unresolved, x, t);
      assert Item(x, t, st.Pending(x, t).value) in st.unresolved;
    case AVal(_) =>
  }

  /** The invariant of the items of a ranked specification: each belongs to the present, fits the
      retention, and reads at the present only items of lower rank. */
  ghost predicate ItemsInv(items: seq<Item>, now: nat, keep: map<Name, nat>, rank: map<Name, nat>) {
    forall it :: it in items ==>
      it.time == now && it.name in rank && Fits(it.expr, now, keep) && BelowA(it.expr, now, rank, rank[it.name])
  }

  lemma BelowAMonotone(e: AbsExpr, now: nat, rank: map<Name, nat>, r: nat, r': nat)
    requires BelowA(e, now, rank, r) && r <= r'
    ensures BelowA(e, now, rank, r')
  {
  }

  lemma NoIndexFits(e: AbsExpr, now: nat, keep: map<Name, nat>)
    requires NoIndexA(e)
    ensures Fits(e, now, keep)
  {
  }

  /** What a simplification leaves unresolved satisfies the invariant again. */
  lemma {:induction false} SimplifyKeepsShape(e: AbsExpr, now: nat, st: Store, keep: map<Name, nat>, rank: map<Name, nat>, r: nat)
    requires ItemsInv(st.unresolved, now, keep, rank)
    requires Fits(e, now, keep) && BelowA(e, now, rank, r) && Simplify(e, now, st).Unresolved?
    ensures Fits(Simplify(e, now, st).e, now, keep) && BelowA(Simplify(e, now, st).e, now, rank, r)
    ensures exists it :: it in st.unresolved && rank[it.name] < r
  {
    match e
    case ABinOp(p, q, _) =>
      if Simplify(p, now, st).Unresolved? { SimplifyKeepsShape(p, now, st, keep, rank, r); }
      if Simplify(q, now, st).Unresolved? { SimplifyKeepsShape(q, now, st, keep, rank, r); }
    case AIf(b, p, q) =>
      if Simplify(b, now, st).Unresolved? { SimplifyKeepsShape(b, now, st, keep, rank, r); }
      if Simplify(b, now, st) == Resolved(Bool(true)) { SimplifyKeepsShape(p, now, st, keep, rank, r); }
      if Simplify(b, now, st) == Resolved(Bool(false)) { SimplifyKeepsShape(q, now, st, keep, rank, r); }
    case ADefault(p, q) =>
      if Simplify(p, now, st).Unresolved? { SimplifyKeepsShape(p, now, st, keep, rank, r); }
      if Simplify(p, now, st) == Resolved(Unknown) { SimplifyKeepsShape(q, now, st, keep, rank, r); }
    case AIndex(a, t) =>
      if t < now {
        PastResolves(a, t, st, now);
      } else {
        NoIndexFits(a, now, keep);
        SimplifyKeepsShape(a, now, st, keep, rank, r);
      }
    case AVar(_, x) =>
      FindItemIn(st.unresolved, x, now);
      var it := Item(x, now, st.Pending(x, now).value);
      assert it in st.unresolved;
      BelowAMonotone(it.expr, now, rank, rank[x], r);
    case AVal(_) =>
  }
}
