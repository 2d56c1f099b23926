/** The type checker, which turns expressions into typed ones and logs what is wrong with them, and the
    two meanings of streams that it leads from and to. */
module TypeChecker {
  import opened Lang

  datatype Type = TyInt | TyFloat | TyStr | TyBool | TyUnit

  type Context = map<Name, Type>

  datatype Error = TypeError | UnknownError | UndeclaredVariable(x: Name)

  function TypeOfValue(v: Value): Option<Type> {
    match v
    case Int(_) => Some(TyInt)
    case Float(_) => Some(TyFloat)
    case Str(_) => Some(TyStr)
    case Bool(_) => Some(TyBool)
    case Unit => Some(TyUnit)
    case Unknown => None
  }

  /** A typed expression.  Which parts may go together, the source says with one type of expressions for
      each stream type; here it is the predicate `WellTyped`. */
  datatype Typed =
    | TVal(v: Value)
    | TVar(ty: Type, x: Name)
    | TIf(ty: Type, cond: Typed, thn: Typed, els: Typed)
    | TIndex(ty: Type, e: Typed, i: int)
    | TDefault(ty: Type, lhs: Typed, rhs: Typed)
    | TOp(on: Type, lhs: Typed, rhs: Typed, op: BinOp) /* an operator on operands of one type */
    | TNot(e: Typed)
    | TDynamic(e: Typed)
    | TRestricted(e: Typed, names: seq<Name>)

  function TypeOf(t: Typed): Type {
    match t
    case TVal(v) => (match TypeOfValue(v) case Some(ty) => ty case None => TyUnit)
    case TVar(ty, _) => ty
    case TIf(ty, _, _, _) => ty
    case TIndex(ty, _, _) => ty
    case TDefault(ty, _, _) => ty
    case TOp(on, _, _, op) => if op.NOp? then on else if op.SOp? then TyStr else TyBool
    case TNot(_) => TyBool
    case TDynamic(_) => TyStr
    case TRestricted(_, _) => TyStr
  }

  /** The operators that there are on operands of a type: no order but `<=` on integers, and no equality
      of floats. */
  predicate Allowed(on: Type, op: BinOp) {
    match op
    case NOp(_) => on == TyInt || on == TyFloat
    case BOp(_) => on == TyBool
    case SOp => on == TyStr
    case COp(c) => (c == Eq && (on == TyBool || on == TyStr || on == TyInt)) || (c == Le && on == TyInt)
  }

  /** The types that conditionals, defaults and indices may have: floats are refused. */
  predicate Chosen(ty: Type) { ty != TyFloat }

  predicate WellTyped(t: Typed, ctx: Context) {
    match t
    case TVal(v) => TypeOfValue(v).Some?
    case TVar(ty, x) => x in ctx && ctx[x] == ty
    case TIf(ty, b, p, q) =>
      && Chosen(ty) && WellTyped(b, ctx) && WellTyped(p, ctx) && WellTyped(q, ctx)
      && TypeOf(b) == TyBool && TypeOf(p) == ty && TypeOf(q) == ty
    case TIndex(ty, e, _) => Chosen(ty) && WellTyped(e, ctx) && TypeOf(e) == ty
    case TDefault(ty, l, r) => Chosen(ty) && WellTyped(l, ctx) && WellTyped(r, ctx) && TypeOf(l) == ty && TypeOf(r) == ty
    case TOp(on, l, r, op) => Allowed(on, op) && WellTyped(l, ctx) && WellTyped(r, ctx) && TypeOf(l) == on && TypeOf(r) == on
    case TNot(e) => WellTyped(e, ctx) && TypeOf(e) == TyBool
    case TDynamic(e) => WellTyped(e, ctx) && TypeOf(e) == TyStr
    case TRestricted(e, _) => WellTyped(e, ctx) && TypeOf(e) == TyStr
  }

  /** Accepted are the operators that the solver has results for on operands of the type, but for all
      comparisons of floats, the orders of strings, and the orders of integers other than `<=`; equality
      of truth values, which the solver does not have, is accepted too. */
  lemma AcceptedOperators(on: Type, op: BinOp)
    ensures Allowed(on, op) <==>
            || (op == COp(Eq) && on == TyBool)
            || (HasResult(on, op) && (op.COp? ==> on != TyFloat && (op.c == Eq || (op.c == Le && on == TyInt))))
  {
    match on
    case TyInt => assert TypeOfValue(Int(1)) == Some(on) && (op.NOp? || op.COp? ==> Table(Int(1), Int(1), op).Some?);
    case TyFloat => assert TypeOfValue(Float(1.0)) == Some(on) && (op.NOp? ==> Table(Float(1.0), Float(1.0), op).Some?);
    case TyStr => assert TypeOfValue(Str("")) == Some(on) && (op.SOp? || op.COp? ==> Table(Str(""), Str(""), op).Some?);
    case TyBool => assert TypeOfValue(Bool(true)) == Some(on) && (op.BOp? ==> Table(Bool(true), Bool(true), op).Some?);
    case TyUnit =>
  }

  ghost predicate HasResult(on: Type, op: BinOp) {
    exists v, w :: TypeOfValue(v) == Some(on) && TypeOfValue(w) == Some(on) && Table(v, w, op).Some?
  }

  /** The expression without its types. */
  function Erase(t: Typed): SExpr {
    match t
    case TVal(v) => Val(v)
    case TVar(_, x) => Var(x)
    case TIf(_, b, p, q) => If(Erase(b), Erase(p), Erase(q))
    case TIndex(_, e, i) => SIndex(Erase(e), i)
    case TDefault(_, l, r) => Call2(Default, Erase(l), Erase(r))
    case TOp(_, l, r, op) => BinOp(Erase(l), Erase(r), op)
    case TNot(e) => SExpr.Not(Erase(e))
    case TDynamic(e) => Dynamic(Erase(e))
    case TRestricted(e, names) => RestrictedDynamic(Erase(e), names)
  }

  /** The constructors that the checker deals with; for the others it panics. */
  predicate Supported(e: SExpr) {
    match e
    case Val(_) => true
    case Var(_) => true
    case BinOp(l, r, _) => Supported(l) && Supported(r)
    case If(b, p, q) => Supported(b) && Supported(p) && Supported(q)
    case SIndex(a, _) => Supported(a)
    case Call2(g, l, r) => g.Default? && Supported(l) && Supported(r)
    case Not(a) => Supported(a)
    case Dynamic(a) => Supported(a)
    case RestrictedDynamic(a, _) => Supported(a)
    case _ => false
  }

  // ---------------------------------------------------------------------------------------------
  // What an expression checks as
  // ---------------------------------------------------------------------------------------------

  function Binary(a: Typed, b: Typed, op: BinOp): Option<Typed> {
    if TypeOf(a) == TypeOf(b) && Allowed(TypeOf(a), op) then Some(TOp(TypeOf(a), a, b, op)) else None
  }

  function Checked(e: SExpr, ctx: Context): Option<Typed>
    requires Supported(e)
  {
    match e
    case Val(v) => if v.Unknown? then None else Some(TVal(v))
    case Var(x) => if x in ctx then Some(TVar(ctx[x], x)) else None
    case BinOp(l, r, op) =>
      var (a, b) := (Checked(l, ctx), Checked(r, ctx));
      if a.Some? && b.Some? then Binary(a.value, b.value, op) else None
    case If(c, p, q) =>
      var (b, t, f) := (Checked(c, ctx), Checked(p, ctx), Checked(q, ctx));
      if b.Some? && t.Some? && f.Some? && TypeOf(b.value) == TyBool && TypeOf(t.value) == TypeOf(f.value) && Chosen(TypeOf(t.value))
      then Some(TIf(TypeOf(t.value), b.value, t.value, f.value))
      else None
    case SIndex(a, i) =>
      var t := Checked(a, ctx);
      if t.Some? && Chosen(TypeOf(t.value)) then Some(TIndex(TypeOf(t.value), t.value, i)) else None
    case Call2(_, l, r) =>
      var (a, b) := (Checked(l, ctx), Checked(r, ctx));
      if a.Some? && b.Some? && TypeOf(a.value) == TypeOf(b.value) && Chosen(TypeOf(a.value))
      then Some(TDefault(TypeOf(a.value), a.value, b.value))
      else None
    case Not(a) =>
      var t := Checked(a, ctx);
      if t.Some? && TypeOf(t.value) == TyBool then Some(TNot(t.value)) else None
    case Dynamic(a) =>
      var t := Checked(a, ctx);
      if t.Some? && TypeOf(t.value) == TyStr then Some(TDynamic(t.value)) else None
    case RestrictedDynamic(a, names) =>
      var t := Checked(a, ctx);
      if t.Some? && TypeOf(t.value) == TyStr then Some(TRestricted(t.value, names)) else None
  }

  /** A checked expression is well typed, and it is the expression it came from. */
  lemma {:induction false} CheckedIsTyped(e: SExpr, ctx: Context)
    requires Supported(e) && Checked(e, ctx).Some?
    ensures WellTyped(Checked(e, ctx).value, ctx) && Erase(Checked(e, ctx).value) == e
  {
    match e
    case BinOp(l, r, _) => CheckedIsTyped(l, ctx); CheckedIsTyped(r, ctx);
    case If(c, p, q) => CheckedIsTyped(c, ctx); CheckedIsTyped(p, ctx); CheckedIsTyped(q, ctx);
    case SIndex(a, _) => CheckedIsTyped(a, ctx);
    case Call2(_, l, r) => CheckedIsTyped(l, ctx); CheckedIsTyped(r, ctx);
    case Not(a) => CheckedIsTyped(a, ctx);
    case Dynamic(a) => CheckedIsTyped(a, ctx);
    case RestrictedDynamic(a, _) => CheckedIsTyped(a, ctx);
    case _ =>
  }

  /** Indices, defaults and conditionals check on parts of any type but floats. */
  lemma FloatsRefused(c: SExpr, p: SExpr, q: SExpr, i: int, ctx: Context)
    requires Supported(c) && Supported(p) && Supported(q)
    requires Checked(c, ctx).Some? && TypeOf(Checked(c, ctx).value) == TyBool
    requires Checked(p, ctx).Some? && Checked(q, ctx).Some? && TypeOf(Checked(p, ctx).value) == TypeOf(Checked(q, ctx).value)
    ensures Checked(If(c, p, q), ctx).Some? <==> TypeOf(Checked(p, ctx).value) != TyFloat
    ensures Checked(Call2(Default, p, q), ctx).Some? <==> TypeOf(Checked(p, ctx).value) != TyFloat
    ensures Checked(SIndex(p, i), ctx).Some? <==> TypeOf(Checked(p, ctx).value) != TyFloat
  {
  }

  /** Conversely, every well-typed expression is what its erasure checks as: types are unique, and no
      expression that can be typed is refused. */
  lemma {:induction false} TypedIsChecked(t: Typed, ctx: Context)
    requires WellTyped(t, ctx)
    ensures Supported(Erase(t)) && Checked(Erase(t), ctx) == Some(t)
  {
    match t
    case TIf(_, b, p, q) => TypedIsChecked(b, ctx); TypedIsChecked(p, ctx); TypedIsChecked(q, ctx);
    case TIndex(_, e, _) => TypedIsChecked(e, ctx);
    case TDefault(_, l, r) => TypedIsChecked(l, ctx); TypedIsChecked(r, ctx);
    case TOp(_, l, r, _) => TypedIsChecked(l, ctx); TypedIsChecked(r, ctx);
    case TNot(e) => TypedIsChecked(e, ctx);
    case TDynamic(e) => TypedIsChecked(e, ctx);
    case TRestricted(e, _) => TypedIsChecked(e, ctx);
    case _ =>
  }

  // ---------------------------------------------------------------------------------------------
  // The checker
  // ---------------------------------------------------------------------------------------------

  /** The log that every check appends to. */
  class Errors {
    var log: seq<Error>

    constructor ()
      ensures log == []
    {
      log := [];
    }

    method Push(e: Error)
      modifies this
      ensures log == old(log) + [e]
    {
      log := log + [e];
    }
  }

  /** The error of an expression that fails although its operands check. */
  function OwnError(e: SExpr): Error {
    match e
    case Var(x) => UndeclaredVariable(x)
    case Val(_) => UnknownError
    case _ => TypeError
  }

  /** `e` itself is at fault: all its operands check, but it does not. */
  predicate AtFault(e: SExpr, ctx: Context)
    requires Supported(e)
  {
    Checked(e, ctx).None? && forall k :: 0 <= k < |Children(e)| ==> Checked(Children(e)[k], ctx).Some?
  }

  /** What checking an expression logs: what its operands log, in order, and its own error if it is
      itself at fault. */
  function ErrorsOf(e: SExpr, ctx: Context): seq<Error>
    requires Supported(e)
    decreases e, 1
  {
    OperandErrors(e, |Children(e)|, ctx) + OwnErrors(e, ctx)
  }

  function OwnErrors(e: SExpr, ctx: Context): seq<Error>
    requires Supported(e)
  {
    if AtFault(e, ctx) then [OwnError(e)] else []
  }

  function OperandErrors(e: SExpr, k: nat, ctx: Context): seq<Error>
    requires Supported(e) && k <= |Children(e)|
    decreases e, 0, k
  {
    if k == 0 then [] else OperandErrors(e, k - 1, ctx) + ErrorsOf(Children(e)[k - 1], ctx)
  }

  lemma NextOperand(e: SExpr, k: nat, ctx: Context, log: seq<Error>)
    requires Supported(e) && k < |Children(e)|
    ensures log + OperandErrors(e, k + 1, ctx) == log + OperandErrors(e, k, ctx) + ErrorsOf(Children(e)[k], ctx)
  {
  }

  lemma OwnLast(e: SExpr, ctx: Context, log: seq<Error>)
    requires Supported(e)
    ensures log + ErrorsOf(e, ctx) == log + OperandErrors(e, |Children(e)|, ctx) + OwnErrors(e, ctx)
    ensures log + OperandErrors(e, 0, ctx) == log
  {
  }

  lemma ErrorsOfOne(e: SExpr, ctx: Context, log: seq<Error>)
    requires Supported(e) && |Children(e)| == 1
    ensures log + ErrorsOf(e, ctx) == log + ErrorsOf(Children(e)[0], ctx) + OwnErrors(e, ctx)
  {
    OwnLast(e, ctx, log);
    NextOperand(e, 0, ctx, log);
  }

  lemma ErrorsOfTwo(e: SExpr, ctx: Context, log: seq<Error>)
    requires Supported(e) && |Children(e)| == 2
    ensures log + ErrorsOf(e, ctx) == log + ErrorsOf(Children(e)[0], ctx) + ErrorsOf(Children(e)[1], ctx) + OwnErrors(e, ctx)
  {
    OwnLast(e, ctx, log);
    NextOperand(e, 0, ctx, log);
    NextOperand(e, 1, ctx, log);
  }

  lemma ErrorsOfThree(e: SExpr, ctx: Context, log: seq<Error>)
    requires Supported(e) && e.If?
    ensures log + ErrorsOf(e, ctx) == log + ErrorsOf(e.cond, ctx) + ErrorsOf(e.thn, ctx) + ErrorsOf(e.els, ctx) + OwnErrors(e, ctx)
    ensures Checked(e.cond, ctx).None? || Checked(e.thn, ctx).None? || Checked(e.els, ctx).None? ==> OwnErrors(e, ctx) == []
  {
    assert Children(e)[0] == e.cond && Children(e)[1] == e.thn && Children(e)[2] == e.els;
    OwnLast(e, ctx, log);
    NextOperand(e, 0, ctx, log);
    NextOperand(e, 1, ctx, log);
    NextOperand(e, 2, ctx, log);
  }

  /** None is logged if and only if the expression checks. */
  lemma {:induction false} NoErrors(e: SExpr, ctx: Context)
    requires Supported(e)
    ensures ErrorsOf(e, ctx) == [] <==> Checked(e, ctx).Some?
    decreases e, 1
  {
    NoOperandErrors(e, |Children(e)|, ctx);
  }

  lemma {:induction false} NoOperandErrors(e: SExpr, k: nat, ctx: Context)
    requires Supported(e) && k <= |Children(e)|
    ensures OperandErrors(e, k, ctx) == [] <==> forall j :: 0 <= j < k ==> Checked(Children(e)[j], ctx).Some?
    decreases e, 0, k
  {
    if k > 0 {
      var j := k - 1;
      NoOperandErrors(e, j, ctx);
      NoErrors(Children(e)[j], ctx);
      assert |OperandErrors(e, k, ctx)| == |OperandErrors(e, j, ctx)| + |ErrorsOf(Children(e)[j], ctx)|;
    }
  }

  /** The part at a place is itself at fault, and `error` is its error. */
  ghost predicate FaultAt(e: SExpr, ctx: Context, place: seq<nat>, error: Error) {
    var p := PartAt(e, place);
    p.Some? && Supported(p.value) && AtFault(p.value, ctx) && error == OwnError(p.value)
  }

  /** An error is logged if and only if it is that of a part that is itself at fault. */
  lemma {:induction false} ErrorsAreFaults(e: SExpr, ctx: Context, error: Error)
    requires Supported(e)
    ensures error in ErrorsOf(e, ctx) <==> exists place :: FaultAt(e, ctx, place, error)
    decreases e, 1
  {
    OperandFaults(e, |Children(e)|, ctx, error);
    assert error in OwnErrors(e, ctx) <==> FaultAt(e, ctx, [], error);
    if place :| FaultAt(e, ctx, place, error) && place != [] { assert FaultBelow(e, |Children(e)|, ctx, place, error); }
  }

  ghost predicate FaultBelow(e: SExpr, k: nat, ctx: Context, place: seq<nat>, error: Error) {
    place != [] && place[0] < k && FaultAt(e, ctx, place, error)
  }

  lemma {:induction false} OperandFaults(e: SExpr, k: nat, ctx: Context, error: Error)
    requires Supported(e) && k <= |Children(e)|
    ensures error in OperandErrors(e, k, ctx) <==> exists place :: FaultBelow(e, k, ctx, place, error)
    decreases e, 0, k
  {
    if k > 0 {
      var j: nat := k - 1;
      OperandFaults(e, j, ctx, error);
      ErrorsAreFaults(Children(e)[j], ctx, error);
      NextOperandFaults(e, j, k, ctx, error);
    }
  }

  lemma NextOperandFaults(e: SExpr, j: nat, k: nat, ctx: Context, error: Error)
    requires Supported(e) && k == j + 1 <= |Children(e)|
    ensures (exists place :: FaultBelow(e, k, ctx, place, error)) <==>
            (exists place :: FaultBelow(e, j, ctx, place, error)) || (exists place :: FaultAt(Children(e)[j], ctx, place, error))
  {
    if place :| FaultAt(Children(e)[j], ctx, place, error) { FaultOfOperand(e, j, k, ctx, place, error); }
    if place :| FaultBelow(e, j, ctx, place, error) { assert FaultBelow(e, k, ctx, place, error); }
    if place :| FaultBelow(e, k, ctx, place, error) { FaultInOperand(e, j, k, ctx, place, error); }
  }

  lemma FaultOfOperand(e: SExpr, j: nat, k: nat, ctx: Context, place: seq<nat>, error: Error)
    requires Supported(e) && k == j + 1 <= |Children(e)| && FaultAt(Children(e)[j], ctx, place, error)
    ensures FaultBelow(e, k, ctx, [j] + place, error)
  {
    assert ([j] + place)[1..] == place;
  }

  lemma FaultInOperand(e: SExpr, j: nat, k: nat, ctx: Context, place: seq<nat>, error: Error)
    requires Supported(e) && k == j + 1 <= |Children(e)| && FaultBelow(e, k, ctx, place, error)
    ensures FaultBelow(e, j, ctx, place, error) || FaultAt(Children(e)[j], ctx, place[1..], error)
  {
  }

  /** So a variable is reported as undeclared if and only if it occurs and has no annotation. */
  lemma UndeclaredReported(e: SExpr, ctx: Context, x: Name)
    requires Supported(e)
    ensures UndeclaredVariable(x) in ErrorsOf(e, ctx) <==> Occurs(e, x) && x !in ctx
  {
    ErrorsAreFaults(e, ctx, UndeclaredVariable(x));
    if place :| FaultAt(e, ctx, place, UndeclaredVariable(x)) { PartOccurs(e, place, x); }
    if Occurs(e, x) && x !in ctx {
      var place := OccursPlace(e, x);
      assert FaultAt(e, ctx, place, UndeclaredVariable(x));
    }
  }

  lemma {:induction false} PartOccurs(e: SExpr, place: seq<nat>, x: Name)
    requires PartAt(e, place) == Some(Var(x))
    ensures Occurs(e, x)
    decreases |place|
  {
    if place != [] { PartOccurs(Children(e)[place[0]], place[1..], x); }
  }

  lemma OccursBelow(e: SExpr, x: Name)
    requires Supported(e) && !e.Var?
    ensures Occurs(e, x) <==> exists k: nat :: k < |Children(e)| && Occurs(Children(e)[k], x)
  {
    if |Children(e)| > 0 { var c := Children(e)[0]; assert Occurs(c, x) ==> Occurs(e, x); }
    if |Children(e)| > 1 { var c := Children(e)[1]; assert Occurs(c, x) ==> Occurs(e, x); }
    if |Children(e)| > 2 { var c := Children(e)[2]; assert Occurs(c, x) ==> Occurs(e, x); }
  }

  lemma {:induction false} OccursPlace(e: SExpr, x: Name) returns (place: seq<nat>)
    requires Supported(e) && Occurs(e, x)
    ensures PartAt(e, place) == Some(Var(x))
  {
    if e.Var? { return []; }
    OccursBelow(e, x);
    var k: nat :| k < |Children(e)| && Occurs(Children(e)[k], x);
    place := OccursPlace(Children(e)[k], x);
    assert ([k] + place)[1..] == place;
    place := [k] + place;
  }

  method CheckRaw(e: SExpr, ctx: Context, errs: Errors) returns (r: Option<Typed>)
    requires Supported(e)
    modifies errs
    ensures r == Checked(e, ctx) && errs.log == old(errs.log) + ErrorsOf(e, ctx)
    decreases e, 1
  {
    match e
    case Val(v) =>
      if v.Unknown? { errs.Push(UnknownError); return None; }
      r := Some(TVal(v));
    case Var(x) =>
      if x !in ctx { errs.Push(UndeclaredVariable(x)); return None; }
      r := Some(TVar(ctx[x], x));
    case BinOp(_, _, _) => r := CheckBinOp(e, ctx, errs);
    case If(_, _, _) => r := CheckIf(e, ctx, errs);
    case SIndex(a, i) =>
      ErrorsOfOne(e, ctx, errs.log);
      var t := CheckRaw(a, ctx, errs);
      if t.None? { return None; }
      if !Chosen(TypeOf(t.value)) { errs.Push(TypeError); return None; }
      r := Some(TIndex(TypeOf(t.value), t.value, i));
    case Call2(_, _, _) => r := CheckDefault(e, ctx, errs);
    case Not(a) =>
      ErrorsOfOne(e, ctx, errs.log);
      var t := CheckRaw(a, ctx, errs);
      if t.None? { return None; }
      if TypeOf(t.value) != TyBool { errs.Push(TypeError); return None; }
      r := Some(TNot(t.value));
    case Dynamic(a) =>
      ErrorsOfOne(e, ctx, errs.log);
      var t := CheckRaw(a, ctx, errs);
      if t.None? { return None; }
      if TypeOf(t.value) != TyStr { errs.Push(TypeError); return None; }
      r := Some(TDynamic(t.value));
    case RestrictedDynamic(a, names) =>
      ErrorsOfOne(e, ctx, errs.log);
      var t := CheckRaw(a, ctx, errs);
      if t.None? { return None; }
      if TypeOf(t.value) != TyStr { errs.Push(TypeError); return None; }
      r := Some(TRestricted(t.value, names));
  }

  /** Both operands are checked before one of them is looked at. */
  method CheckBinOp(e: SExpr, ctx: Context, errs: Errors) returns (r: Option<Typed>)
    requires Supported(e) && e.BinOp?
    modifies errs
    ensures r == Checked(e, ctx) && errs.log == old(errs.log) + ErrorsOf(e, ctx)
    decreases e, 0
  {
    ErrorsOfTwo(e, ctx, errs.log);
    var a := CheckRaw(e.lhs, ctx, errs);
    var b := CheckRaw(e.rhs, ctx, errs);
    if a.None? || b.None? { return None; }
    r := Binary(a.value, b.value, e.op);
    if r.None? { errs.Push(TypeError); }
  }

  method CheckDefault(e: SExpr, ctx: Context, errs: Errors) returns (r: Option<Typed>)
    requires Supported(e) && e.Call2?
    modifies errs
    ensures r == Checked(e, ctx) && errs.log == old(errs.log) + ErrorsOf(e, ctx)
    decreases e, 0
  {
    ErrorsOfTwo(e, ctx, errs.log);
    var a := CheckRaw(e.lhs, ctx, errs);
    var b := CheckRaw(e.rhs, ctx, errs);
    if a.None? || b.None? { return None; }
    if TypeOf(a.value) != TypeOf(b.value) || !Chosen(TypeOf(a.value)) { errs.Push(TypeError); return None; }
    r := Some(TDefault(TypeOf(a.value), a.value, b.value));
  }

  /** All three parts are checked before any of them is looked at. */
  method CheckIf(e: SExpr, ctx: Context, errs: Errors) returns (r: Option<Typed>)
    requires Supported(e) && e.If?
    modifies errs
    ensures r == Checked(e, ctx) && errs.log == old(errs.log) + ErrorsOf(e, ctx)
    decreases e, 0
  {
    ErrorsOfThree(e, ctx, errs.log);
    var b := CheckRaw(e.cond, ctx, errs);
    var t := CheckRaw(e.thn, ctx, errs);
    var f := CheckRaw(e.els, ctx, errs);
    if b.None? || t.None? || f.None? { return None; }
    if TypeOf(b.value) != TyBool || TypeOf(t.value) != TypeOf(f.value) || !Chosen(TypeOf(t.value)) {
      errs.Push(TypeError);
      return None;
    }
    r := Some(TIf(TypeOf(t.value), b.value, t.value, f.value));
  }

  /** What checking the equations logs, in order. */
  function AllErrors(exprs: map<Name, SExpr>, order: seq<Name>, ctx: Context): seq<Error>
    requires forall y :: y in order ==> y in exprs && Supported(exprs[y])
  {
    if order == [] then []
    else var n := |order| - 1; AllErrors(exprs, order[..n], ctx) + ErrorsOf(exprs[order[n]], ctx)
  }

  lemma NextErrors(exprs: map<Name, SExpr>, order: seq<Name>, i: nat, ctx: Context)
    requires i < |order| && forall y :: y in order ==> y in exprs && Supported(exprs[y])
    ensures AllErrors(exprs, order[..i + 1], ctx) == AllErrors(exprs, order[..i], ctx) + ErrorsOf(exprs[order[i]], ctx)
    ensures order[..i + 1] == order[..i] + [order[i]]
  {
    assert order[..i + 1][..i] == order[..i];
  }

  lemma {:induction false} NoErrorsAtAll(exprs: map<Name, SExpr>, order: seq<Name>, ctx: Context)
    requires forall y :: y in order ==> y in exprs && Supported(exprs[y])
    ensures AllErrors(exprs, order, ctx) == [] <==> forall y :: y in order ==> Checked(exprs[y], ctx).Some?
  {
    if order != [] {
      var (n, last) := (|order| - 1, order[|order| - 1]);
      NoErrorsAtAll(exprs, order[..n], ctx);
      NoErrors(exprs[last], ctx);
      assert order == order[..n] + [last];
      assert |AllErrors(exprs, order, ctx)| == |AllErrors(exprs, order[..n], ctx)| + |ErrorsOf(exprs[last], ctx)|;
    }
  }

  /** Checks a specification, equation by equation: either all of them check, and each typed equation
      erases to the original one, or there are errors.  The `unwrap` of every result cannot fail. */
  method TypeCheck(exprs: map<Name, SExpr>, order: seq<Name>, annotations: Context) returns (typed: Option<map<Name, Typed>>, errors: seq<Error>)
    requires (forall y :: y in order <==> y in exprs) && forall y :: y in exprs ==> Supported(exprs[y])
    ensures errors == AllErrors(exprs, order, annotations) && (typed.Some? <==> errors == [])
    ensures typed.Some? <==> forall y :: y in exprs ==> Checked(exprs[y], annotations).Some?
    ensures typed.Some? ==> TypedFrom(typed.value, exprs, annotations)
  {
    var errs := new Errors();
    var results: map<Name, Option<Typed>> := map[];
    for i := 0 to |order|
      invariant fresh(errs) && forall y :: y in results <==> y in order[..i]
      invariant forall y :: y in results ==> y in exprs && results[y] == Checked(exprs[y], annotations)
      invariant errs.log == AllErrors(exprs, order[..i], annotations)
    {
      var y := order[i];
      NextErrors(exprs, order, i, annotations);
      var r := CheckRaw(exprs[y], annotations, errs);
      results := results[y := r];
    }
    assert order[..|order|] == order;
    NoErrorsAtAll(exprs, order, annotations);
    errors := errs.log;
    if errors != [] { return None, errors; }
    UnwrappedTyped(results, exprs, annotations);
    typed := Some(Unwrapped(results));
  }

  /** The same equations, well typed. */
  ghost predicate TypedFrom(typed: map<Name, Typed>, exprs: map<Name, SExpr>, ctx: Context) {
    typed.Keys == exprs.Keys && forall y :: y in typed ==> WellTyped(typed[y], ctx) && Erase(typed[y]) == exprs[y]
  }

  function Unwrapped(results: map<Name, Option<Typed>>): map<Name, Typed>
    requires forall y :: y in results ==> results[y].Some?
  {
    map y | y in results :: results[y].value
  }

  lemma UnwrappedTyped(results: map<Name, Option<Typed>>, exprs: map<Name, SExpr>, ctx: Context)
    requires forall y :: y in results <==> y in exprs
    requires forall y :: y in results ==> Supported(exprs[y]) && results[y] == Checked(exprs[y], ctx) && results[y].Some?
    ensures TypedFrom(Unwrapped(results), exprs, ctx)
  {
    forall y | y in results ensures WellTyped(results[y].value, ctx) && Erase(results[y].value) == exprs[y] {
      CheckedIsTyped(exprs[y], ctx);
    }
  }

  // ---------------------------------------------------------------------------------------------
  // Two meanings
  // ---------------------------------------------------------------------------------------------

  /** Untyped operators: logic and equality take any values, the others panic on what they do not know. */
  function UntypedOp(v: Value, w: Value, op: BinOp): Option<Value> {
    match op
    case BOp(And) => Some(Bool(v == Bool(true) && w == Bool(true)))
    case BOp(Or) => Some(Bool(v == Bool(true) || w == Bool(true)))
    case COp(Eq) => Some(Bool(v == w))
    case COp(c) => UntypedCompare(v, w, c)
    case _ => Table(v, w, op)
  }

  /** Note that a float is compared to an integer by `>` for `>=`. */
  function UntypedCompare(v: Value, w: Value, c: CompOp): Option<Value> {
    if v.Bool? && w.Bool? then Some(Compare(!v.b && w.b, v.b == w.b, c))
    else if v.Float? && w.Int? && c == Ge then Some(Bool(v.r > w.i as real))
    else Table(v, w, COp(c))
  }

  /** Typed operators are unknown if an operand is. */
  function TypedOp(v: Value, w: Value, op: BinOp): Option<Value> {
    if v.Unknown? || w.Unknown? then Some(Unknown)
    else if op == COp(Eq) then Some(Bool(v == w))
    else Table(v, w, op)
  }

  /** What an expression without dynamic parts means to the untyped runtime.  Conditionals and defaults wait for all their
      streams, so a panic in any of them is one of the whole. */
  function Untyped(e: SExpr, t: nat, env: Env): Option<Value>
    requires Supported(e)
  {
    match e
    case Val(v) => Some(v)
    case Var(x) => env(x, t)
    case BinOp(l, r, op) =>
      var (v, w) := (Untyped(l, t, env), Untyped(r, t, env));
      if v.Some? && w.Some? then UntypedOp(v.value, w.value, op) else None
    case If(b, p, q) =>
      var (c, v, w) := (Untyped(b, t, env), Untyped(p, t, env), Untyped(q, t, env));
      if c.Some? && c.value.Bool? && v.Some? && w.Some? then (if c.value.b then v else w) else None
    case SIndex(a, i) => if t + i < 0 then Some(Unknown) else Untyped(a, t + i, env)
    case Call2(_, l, r) =>
      var (v, w) := (Untyped(l, t, env), Untyped(r, t, env));
      if v.Some? && w.Some? then (if v.value.Unknown? then w else v) else None
    case Not(a) => var v := Untyped(a, t, env); if v.Some? then Some(Bool(v.value == Bool(false))) else None
    case Dynamic(_) => None
    case RestrictedDynamic(_, _) => None
  }

  /** What a typed expression means to the typed runtime. */
  function Meaning(e: Typed, t: nat, env: Env): Option<Value> {
    match e
    case TVal(v) => Some(v)
    case TVar(ty, x) => var v := env(x, t); if v.Some? && TypeOfValue(v.value) == Some(ty) then v else None
    case TIf(_, b, p, q) =>
      var (c, v, w) := (Meaning(b, t, env), Meaning(p, t, env), Meaning(q, t, env));
      if c.Some? && v.Some? && w.Some? then
        (if c.value.Unknown? then Some(Unknown) else if c.value == Bool(true) then v else w)
      else None
    case TIndex(_, a, i) => if t + i < 0 then Some(Unknown) else Meaning(a, t + i, env)
    case TDefault(_, l, r) =>
      var (v, w) := (Meaning(l, t, env), Meaning(r, t, env));
      if v.Some? && w.Some? then (if v.value.Unknown? then w else v) else None
    case TNot(a) =>
      var v := Meaning(a, t, env);
      if v.Some? then Some(if v.value.Unknown? then Unknown else Bool(v.value == Bool(false))) else None
    case TDynamic(_) => None
    case TRestricted(_, _) => None
    case TOp(_, l, r, op) =>
      var (v, w) := (Meaning(l, t, env), Meaning(r, t, env));
      if v.Some? && w.Some? then TypedOp(v.value, w.value, op) else None
  }

  predicate IsUnknown(e: Typed, t: nat, env: Env) { Meaning(e, t, env) == Some(Unknown) }

  /** Where unknown values come from in the typed runtime: an operator or a negation has one if an operand
      is unknown, a conditional if its condition or the branch taken is, a default if both parts are, and
      an index before its first value or where its operand has one. */
  lemma UnknownExactly(e: Typed, t: nat, env: Env)
    requires Meaning(e, t, env).Some?
    ensures e.TNot? ==> (IsUnknown(e, t, env) <==> IsUnknown(e.e, t, env))
    ensures e.TOp? ==> (IsUnknown(e, t, env) <==> IsUnknown(e.lhs, t, env) || IsUnknown(e.rhs, t, env))
    ensures e.TIf? ==> (IsUnknown(e, t, env) <==>
                          || IsUnknown(e.cond, t, env)
                          || IsUnknown(if Meaning(e.cond, t, env) == Some(Bool(true)) then e.thn else e.els, t, env))
    ensures e.TDefault? ==> (IsUnknown(e, t, env) <==> IsUnknown(e.lhs, t, env) && IsUnknown(e.rhs, t, env))
    ensures e.TIndex? ==> (IsUnknown(e, t, env) <==> t + e.i < 0 || IsUnknown(e.e, t + e.i, env))
  {
  }

  ghost predicate Matches(env: Env, ctx: Context) {
    forall x: Name, t: nat :: x in ctx ==> env(x, t).Some? && TypeOfValue(env(x, t).value) == Some(ctx[x])
  }

  predicate Known(v: Option<Value>) { v.Some? ==> !v.value.Unknown? }

  /** No operator, condition or negation of `e` meets an unknown value at time `t`, and no text is evaluated
      at run time, for which the typed runtime has no meaning. */
  predicate KnownOperands(e: Typed, t: nat, env: Env) {
    match e
    case TVal(_) => true
    case TVar(_, _) => true
    case TIf(_, b, p, q) =>
      Known(Meaning(b, t, env)) && KnownOperands(b, t, env) && KnownOperands(p, t, env) && KnownOperands(q, t, env)
    case TIndex(_, a, i) => 0 <= t + i ==> KnownOperands(a, t + i, env)
    case TDefault(_, l, r) => KnownOperands(l, t, env) && KnownOperands(r, t, env)
    case TNot(a) => Known(Meaning(a, t, env)) && KnownOperands(a, t, env)
    case TDynamic(_) => false
    case TRestricted(_, _) => false
    case TOp(_, l, r, _) =>
      Known(Meaning(l, t, env)) && Known(Meaning(r, t, env)) && KnownOperands(l, t, env) && KnownOperands(r, t, env)
  }

  /** Well-typed expressions have values of their type, or unknown ones. */
  lemma {:induction false} MeaningTyped(e: Typed, ctx: Context, t: nat, env: Env)
    requires WellTyped(e, ctx) && Meaning(e, t, env).Some?
    ensures OfType(Meaning(e, t, env).value, TypeOf(e))
  {
    match e
    case TIf(_, b, p, q) => MeaningTyped(p, ctx, t, env); MeaningTyped(q, ctx, t, env);
    case TIndex(_, a, i) => if 0 <= t + i { MeaningTyped(a, ctx, t + i, env); }
    case TDefault(_, l, r) => MeaningTyped(l, ctx, t, env); MeaningTyped(r, ctx, t, env);
    case TVal(_) =>
    case TVar(_, _) =>
    case TNot(_) =>
    case TDynamic(_) =>
    case TRestricted(_, _) =>
    case TOp(on, l, r, op) =>
      MeaningTyped(l, ctx, t, env);
      MeaningTyped(r, ctx, t, env);
      OperatorTyped(on, Meaning(l, t, env).value, Meaning(r, t, env).value, op);
  }

  ghost predicate OfType(v: Value, ty: Type) { v.Unknown? || TypeOfValue(v) == Some(ty) }

  lemma OperatorTyped(on: Type, v: Value, w: Value, op: BinOp)
    requires Allowed(on, op) && OfType(v, on) && OfType(w, on) && TypedOp(v, w, op).Some?
    ensures OfType(TypedOp(v, w, op).value, if op.NOp? then on else if op.SOp? then TyStr else TyBool)
  {
  }

  /** Both runtimes agree on an operator between operands of its type exactly if neither is unknown. */
  lemma OperatorsAgree(on: Type, v: Value, w: Value, op: BinOp)
    requires Allowed(on, op) && OfType(v, on) && OfType(w, on)
    ensures UntypedOp(v, w, op) == TypedOp(v, w, op) <==> !v.Unknown? && !w.Unknown?
  {
  }

  /** The typed and the untyped meaning of a checked expression agree at every time at which no operator
      meets an unknown value, in every environment that matches the annotations. */
  lemma {:induction false} MeaningsAgree(e: Typed, ctx: Context, t: nat, env: Env)
    requires WellTyped(e, ctx) && Supported(Erase(e)) && Matches(env, ctx) && KnownOperands(e, t, env)
    ensures Meaning(e, t, env) == Untyped(Erase(e), t, env)
  {
    match e
    case TVal(_) =>
    case TVar(_, _) =>
    case TIf(_, b, p, q) =>
      MeaningsAgree(b, ctx, t, env);
      MeaningsAgree(p, ctx, t, env);
      MeaningsAgree(q, ctx, t, env);
      if Meaning(b, t, env).Some? { MeaningTyped(b, ctx, t, env); }
    case TIndex(_, a, i) => if 0 <= t + i { MeaningsAgree(a, ctx, t + i, env); }
    case TDefault(_, l, r) => MeaningsAgree(l, ctx, t, env); MeaningsAgree(r, ctx, t, env);
    case TNot(a) => MeaningsAgree(a, ctx, t, env);
    case TDynamic(_) =>
    case TRestricted(_, _) =>
    case TOp(on, l, r, op) =>
      MeaningsAgree(l, ctx, t, env);
      MeaningsAgree(r, ctx, t, env);
      if Meaning(l, t, env).Some? && Meaning(r, t, env).Some? {
        MeaningTyped(l, ctx, t, env);
        MeaningTyped(r, ctx, t, env);
        OperatorsAgree(on, Meaning(l, t, env).value, Meaning(r, t, env).value, op);
      }
  }

  /** Without this condition they need not: before its first value, `a[-1] && a` is false to the untyped
      runtime and unknown to the typed one. */
  lemma MeaningsDiffer(env: Env, b: bool)
    requires env("a", 0) == Some(Bool(b))
    ensures var e := TOp(TyBool, TIndex(TyBool, TVar(TyBool, "a"), -1), TVar(TyBool, "a"), BOp(And));
            && WellTyped(e, map["a" := TyBool]) && Supported(Erase(e))
            && Meaning(e, 0, env) == Some(Unknown) && Untyped(Erase(e), 0, env) == Some(Bool(false))
  {
    var (i, a) := (TIndex(TyBool, TVar(TyBool, "a"), -1), TVar(TyBool, "a"));
    assert Erase(a) == Var("a") && Erase(i) == SIndex(Var("a"), -1);
    assert Meaning(i, 0, env) == Some(Unknown) && Untyped(Erase(i), 0, env) == Some(Unknown);
    assert Meaning(a, 0, env) == Some(Bool(b)) && Untyped(Erase(a), 0, env) == Some(Bool(b));
  }

  /** A value that may be unknown: what looks back in time, unless there is a default. */
  predicate Definite(e: Typed) {
    match e
    case TIf(_, _, p, q) => Definite(p) && Definite(q)
    case TIndex(_, a, i) => 0 <= i && Definite(a)
    case TDefault(_, l, r) => Definite(l) || Definite(r)
    case _ => true
  }

  /** Operators, conditions and negations are applied to definite expressions only, and no text is evaluated
      at run time. */
  predicate Guarded(e: Typed) {
    match e
    case TVal(v) => true
    case TVar(_, _) => true
    case TIf(_, b, p, q) => Definite(b) && Guarded(b) && Guarded(p) && Guarded(q)
    case TIndex(_, a, _) => Guarded(a)
    case TDefault(_, l, r) => Guarded(l) && Guarded(r)
    case TNot(a) => Definite(a) && Guarded(a)
    case TDynamic(_) => false
    case TRestricted(_, _) => false
    case TOp(_, l, r, _) => Definite(l) && Definite(r) && Guarded(l) && Guarded(r)
  }

  lemma {:induction false} GuardedIsKnown(e: Typed, ctx: Context, t: nat, env: Env)
    requires WellTyped(e, ctx) && Guarded(e)
    ensures KnownOperands(e, t, env) && (Definite(e) ==> Known(Meaning(e, t, env)))
  {
    match e
    case TVal(_) =>
    case TVar(_, _) =>
    case TIf(_, b, p, q) =>
      GuardedIsKnown(b, ctx, t, env);
      GuardedIsKnown(p, ctx, t, env);
      GuardedIsKnown(q, ctx, t, env);
    case TIndex(_, a, i) => if 0 <= t + i { GuardedIsKnown(a, ctx, t + i, env); }
    case TDefault(_, l, r) => GuardedIsKnown(l, ctx, t, env); GuardedIsKnown(r, ctx, t, env);
    case TNot(a) => GuardedIsKnown(a, ctx, t, env);
    case TDynamic(_) =>
    case TRestricted(_, _) =>
    case TOp(_, l, r, op) =>
      GuardedIsKnown(l, ctx, t, env);
      GuardedIsKnown(r, ctx, t, env);
      if Meaning(l, t, env).Some? && Meaning(r, t, env).Some? { OperatorKnown(Meaning(l, t, env).value, Meaning(r, t, env).value, op); }
  }

  lemma OperatorKnown(v: Value, w: Value, op: BinOp)
    requires !v.Unknown? && !w.Unknown?
    ensures Known(TypedOp(v, w, op))
  {
  }

  /** For an expression that is checked and guards every look into the past by a default before it uses
      it, the two runtimes agree at all times in all environments that match the annotations. */
  lemma GuardedAgrees(e: SExpr, ctx: Context, t: nat, env: Env)
    requires Supported(e) && Checked(e, ctx).Some? && Guarded(Checked(e, ctx).value) && Matches(env, ctx)
    ensures Meaning(Checked(e, ctx).value, t, env) == Untyped(e, t, env)
  {
    var typed := Checked(e, ctx).value;
    CheckedIsTyped(e, ctx);
    GuardedIsKnown(typed, ctx, t, env);
    MeaningsAgree(typed, ctx, t, env);
  }

  // ---------------------------------------------------------------------------------------------
  // Annotations
  // ---------------------------------------------------------------------------------------------

  /** The type of an equation is not compared to the annotation of its variable: `y = "s"` is accepted
      with `y` annotated as an integer, and no streams that solve it match the annotation. */
  lemma AnnotationUnchecked(y: Name)
    ensures var (e, typed, ctx) := (Val(Str("s")), TVal(Str("s")), map[y := TyInt]);
            && Checked(e, ctx) == Some(typed) && TypedFrom(map[y := typed], map[y := e], ctx)
            && forall env: Env :: SolvesTyped(env, map[y := typed]) ==> !Matches(env, ctx)
  {
    var typed := TVal(Str("s"));
    assert Erase(typed) == Val(Str("s"));
    forall env: Env | SolvesTyped(env, map[y := typed]) ensures !Matches(env, map[y := TyInt]) {
      assert y in map[y := typed] && map[y := typed][y] == typed && Meaning(typed, 0, env) == Some(Str("s"));
      assert env(y, 0) == Meaning(map[y := typed][y], 0, env);
      assert TypeOfValue(env(y, 0).value) == Some(TyStr);
    }
  }

  /** `env` solves the typed equations: all of them have values at all times. */
  ghost predicate SolvesTyped(env: Env, typed: map<Name, Typed>) {
    forall y: Name, t: nat :: y in typed ==> env(y, t).Some? && env(y, t) == Meaning(typed[y], t, env)
  }

  ghost predicate SolvesUntyped(env: Env, exprs: map<Name, SExpr>)
    requires forall y :: y in exprs ==> Supported(exprs[y])
  {
    forall y: Name, t: nat :: y in exprs ==> env(y, t).Some? && env(y, t) == Untyped(exprs[y], t, env)
  }

  ghost predicate InputsMatch(env: Env, ctx: Context, typed: map<Name, Typed>) {
    forall x: Name, t: nat :: x in ctx && x !in typed ==> env(x, t).Some? && TypeOfValue(env(x, t).value) == Some(ctx[x])
  }

  /** The equation of every annotated output has the annotated type. */
  ghost predicate Honest(typed: map<Name, Typed>, ctx: Context) {
    forall y :: y in typed && y in ctx ==> TypeOf(typed[y]) == ctx[y]
  }

  /** Streams that solve a typed specification on inputs that match match all annotations if and only if
      the equations have the annotated types and the annotated outputs are never unknown. */
  lemma SolutionsMatch(typed: map<Name, Typed>, ctx: Context, env: Env)
    requires (forall y :: y in typed ==> WellTyped(typed[y], ctx)) && SolvesTyped(env, typed) && InputsMatch(env, ctx, typed)
    ensures Matches(env, ctx) <==>
            Honest(typed, ctx) && forall y: Name, t: nat :: y in typed && y in ctx ==> !env(y, t).value.Unknown?
  {
    forall y: Name, t: nat | y in typed && y in ctx
      ensures TypeOfValue(env(y, t).value) == Some(ctx[y]) <==> TypeOf(typed[y]) == ctx[y] && !env(y, t).value.Unknown?
    {
      MeaningTyped(typed[y], ctx, t, env);
    }
    if Matches(env, ctx) {
      forall y | y in typed && y in ctx ensures TypeOf(typed[y]) == ctx[y] { assert env(y, 0).Some?; }
    }
  }

  /** Guarded and definite equations are never unknown, so for them the types decide; the streams that
      solve them then solve the untyped equations too, and the other way round. */
  lemma HonestSolutions(typed: map<Name, Typed>, exprs: map<Name, SExpr>, ctx: Context, env: Env)
    requires TypedFrom(typed, exprs, ctx) && (forall y :: y in exprs ==> Supported(exprs[y])) && InputsMatch(env, ctx, typed)
    requires forall y :: y in typed ==> Guarded(typed[y]) && Definite(typed[y])
    ensures SolvesTyped(env, typed) ==> (Matches(env, ctx) <==> Honest(typed, ctx))
    ensures Matches(env, ctx) ==> (SolvesTyped(env, typed) <==> SolvesUntyped(env, exprs))
  {
    if SolvesTyped(env, typed) {
      forall y: Name, t: nat | y in typed && y in ctx ensures !env(y, t).value.Unknown? { GuardedIsKnown(typed[y], ctx, t, env); }
      SolutionsMatch(typed, ctx, env);
    }
    if Matches(env, ctx) {
      forall y: Name, t: nat | y in typed ensures Meaning(typed[y], t, env) == Untyped(exprs[y], t, env) {
        GuardedIsKnown(typed[y], ctx, t, env);
        MeaningsAgree(typed[y], ctx, t, env);
      }
    }
  }

  // ---------------------------------------------------------------------------------------------
  // Exactly when both runtimes agree
  // ---------------------------------------------------------------------------------------------

  /** Literals, variables, negations, operators that always have a value, and looks into the past. */
  predicate Straight(e: Typed) {
    match e
    case TVal(_) => true
    case TVar(_, _) => true
    case TIndex(_, a, i) => i <= 0 && Straight(a)
    case TNot(a) => Straight(a)
    case TOp(_, l, r, op) => Straight(l) && Straight(r) && op != NOp(Div) && op != NOp(Mod)
    case _ => false
  }

  /** How far back a straight expression looks. */
  function Depth(e: Typed): nat
    requires Straight(e)
  {
    match e
    case TVal(_) => 0
    case TVar(_, _) => 0
    case TIndex(_, a, i) => Depth(a) - i
    case TNot(a) => Depth(a)
    case TOp(_, l, r, _) => if Depth(l) < Depth(r) then Depth(r) else Depth(l)
  }

  /** To the typed runtime it is unknown just as long as it looks back behind the start. */
  lemma {:induction false} UnknownAtFirst(e: Typed, ctx: Context, t: nat, env: Env)
    requires Straight(e) && WellTyped(e, ctx) && Matches(env, ctx)
    ensures Meaning(e, t, env).Some? && (Meaning(e, t, env) == Some(Unknown) <==> t < Depth(e))
  {
    match e
    case TIndex(_, a, i) => if 0 <= t + i { UnknownAtFirst(a, ctx, t + i, env); }
    case TNot(a) => UnknownAtFirst(a, ctx, t, env);
    case TOp(on, l, r, op) =>
      UnknownAtFirst(l, ctx, t, env);
      UnknownAtFirst(r, ctx, t, env);
      MeaningTyped(l, ctx, t, env);
      MeaningTyped(r, ctx, t, env);
      OperatorDefined(on, Meaning(l, t, env).value, Meaning(r, t, env).value, op);
    case _ =>
  }

  lemma OperatorDefined(on: Type, v: Value, w: Value, op: BinOp)
    requires Allowed(on, op) && OfType(v, on) && OfType(w, on) && op != NOp(Div) && op != NOp(Mod)
    ensures TypedOp(v, w, op).Some? && (TypedOp(v, w, op) == Some(Unknown) <==> v.Unknown? || w.Unknown?)
  {
  }

  lemma {:induction false} UnguardedLooksBack(e: Typed)
    requires Straight(e) && (!Guarded(e) || !Definite(e))
    ensures 0 < Depth(e)
  {
    match e
    case TIndex(_, a, i) => if i == 0 { UnguardedLooksBack(a); }
    case TNot(a) => UnguardedLooksBack(a);
    case TOp(_, l, r, _) => if !Guarded(l) || !Definite(l) { UnguardedLooksBack(l); } else { UnguardedLooksBack(r); }
    case _ =>
  }

  /** To the untyped runtime no operator is ever unknown. */
  lemma OperatorNeverUnknown(v: Value, w: Value, op: BinOp)
    ensures UntypedOp(v, w, op) != Some(Unknown)
  {
  }

  /** A straight expression that is not guarded has different meanings at some time. */
  lemma {:induction false} UnguardedDiffers(e: Typed, ctx: Context, env: Env) returns (t: nat)
    requires Straight(e) && WellTyped(e, ctx) && Matches(env, ctx) && !Guarded(e)
    ensures Supported(Erase(e)) && Meaning(e, t, env) != Untyped(Erase(e), t, env)
  {
    TypedIsChecked(e, ctx);
    match e
    case TIndex(_, a, i) =>
      var u := UnguardedDiffers(a, ctx, env);
      t := u - i;
    case TNot(_) =>
      t := 0;
      UnguardedLooksBack(e);
      UnknownAtFirst(e, ctx, t, env);
    case TOp(_, l, r, op) =>
      t := 0;
      UnguardedLooksBack(e);
      UnknownAtFirst(e, ctx, t, env);
      var (v, w) := (Untyped(Erase(l), t, env), Untyped(Erase(r), t, env));
      if v.Some? && w.Some? { OperatorNeverUnknown(v.value, w.value, op); }
  }

  /** For such expressions, in every environment that matches the annotations, the two runtimes agree at
      all times if and only if every look into the past is the last thing done. */
  lemma StraightAgrees(e: Typed, ctx: Context, env: Env)
    requires Straight(e) && WellTyped(e, ctx) && Matches(env, ctx)
    ensures Supported(Erase(e)) && ((forall t: nat :: Meaning(e, t, env) == Untyped(Erase(e), t, env)) <==> Guarded(e))
  {
    TypedIsChecked(e, ctx);
    if Guarded(e) {
      forall t: nat ensures Meaning(e, t, env) == Untyped(Erase(e), t, env) {
        GuardedIsKnown(e, ctx, t, env);
        MeaningsAgree(e, ctx, t, env);
      }
    } else {
      var t := UnguardedDiffers(e, ctx, env);
    }
  }

  // ---------------------------------------------------------------------------------------------
  // Typed or not, against the solver
  // ---------------------------------------------------------------------------------------------

  /** The stream runtime and the constraint solver agree on every pair of values that the solver has a
      result for, except on a float and an integer that are equal: these are `==`, and the float is `>=`
      the integer, to the solver only. */
  lemma RuntimesAgree(v: Value, w: Value, op: BinOp)
    requires Table(v, w, op).Some?
    ensures UntypedOp(v, w, op) == Table(v, w, op) <==>
            !(op == COp(Ge) && v.Float? && w.Int? && v.r == w.i as real)
            && !(op == COp(Eq) && v.Float? && w.Int? && v.r == w.i as real)
            && !(op == COp(Eq) && v.Int? && w.Float? && v.i as real == w.r)
  {
  }
}
