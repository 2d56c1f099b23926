/** Values, operators and expressions of the stream language DynSRV. */
module Lang {

  type Name = string

  predicate Distinct(xs: seq<Name>) { forall i, j :: 0 <= i < j < |xs| ==> xs[i] != xs[j] }

  datatype Option<+T> = None | Some(value: T)

  datatype Value =
    | Int(i: int)
    | Float(r: real)
    | Str(s: string)
    | Bool(b: bool)
    | Unknown
    | Unit

  /** The value of every stream at every time; `None` where it has none. */
  type Env = (Name, nat) -> Option<Value>

  datatype NumOp = Add | Sub | Mul | Div | Mod
  datatype BoolOp = Or | And
  datatype CompOp = Eq | Le | Ge | Lt | Gt

  datatype BinOp = NOp(n: NumOp) | BOp(o: BoolOp) | SOp /* string concatenation */ | COp(c: CompOp)

  /** Functions of one and of two expressions that every traversal treats alike. */
  datatype Fn1 = Defer | IsDefined | When | LHead | LTail | Sin | Cos | Tan
  datatype Fn2 = Default | Update | LIndex | LAppend | LConcat

  datatype SExpr =
    | If(cond: SExpr, thn: SExpr, els: SExpr)
    | SIndex(e: SExpr, offset: int)
    | Val(v: Value)
    | BinOp(lhs: SExpr, rhs: SExpr, op: BinOp)
    | Var(name: Name)
    | Dynamic(e: SExpr)
    | RestrictedDynamic(e: SExpr, names: seq<Name>)
    | Not(e: SExpr)
    | Call1(f: Fn1, e: SExpr)
    | Call2(g: Fn2, lhs: SExpr, rhs: SExpr)
    | List(es: seq<SExpr>)
    | MonitoredAt(monitored: Name, node: Name)
    | Dist(from: Name, to: Name)

  // ---------------------------------------------------------------------------------------------
  // Parts of an expression
  // ---------------------------------------------------------------------------------------------

  /** The operands of an expression, in order. */
  function Children(e: SExpr): (es: seq<SExpr>)
    ensures forall k :: 0 <= k < |es| ==> es[k] < e
  {
    match e
    case If(c, p, q) => [c, p, q]
    case BinOp(l, r, _) => [l, r]
    case Call2(_, l, r) => [l, r]
    case List(es) => es
    case Dynamic(a) => [a]
    case RestrictedDynamic(a, _) => [a]
    case Not(a) => [a]
    case Call1(_, a) => [a]
    case SIndex(a, _) => [a]
    case Val(_) => []
    case Var(_) => []
    case MonitoredAt(_, _) => []
    case Dist(_, _) => []
  }

  /** The part of `e` at a place, if there is one: a place says which operand to go to, from the top. */
  function PartAt(e: SExpr, place: seq<nat>): Option<SExpr>
    decreases |place|
  {
    if place == [] then Some(e)
    else if place[0] < |Children(e)| then PartAt(Children(e)[place[0]], place[1..])
    else None
  }

  /** `x` occurs somewhere in the expression. */
  predicate Occurs(e: SExpr, x: Name) {
    match e
    case Var(y) => x == y
    case SIndex(a, _) => Occurs(a, x)
    case Not(a) => Occurs(a, x)
    case Dynamic(a) => Occurs(a, x)
    case RestrictedDynamic(a, _) => Occurs(a, x)
    case Call1(_, a) => Occurs(a, x)
    case BinOp(l, r, _) => Occurs(l, x) || Occurs(r, x)
    case Call2(_, l, r) => Occurs(l, x) || Occurs(r, x)
    case If(c, p, q) => Occurs(c, x) || Occurs(p, x) || Occurs(q, x)
    case List(es) => exists i :: 0 <= i < |es| && Occurs(es[i], x)
    case _ => false
  }

  // ---------------------------------------------------------------------------------------------
  // Operators on values
  // ---------------------------------------------------------------------------------------------

  function Magnitude(x: int): nat { if x < 0 then -x else x }

  /** Integer division and remainder that truncate towards zero. */
  function TruncDiv(x: int, y: int): int
    requires y != 0
  {
    var q := Magnitude(x) / Magnitude(y);
    if (x < 0) == (y < 0) then q else -q
  }

  function TruncMod(x: int, y: int): int
    requires y != 0
  {
    x - TruncDiv(x, y) * y
  }

  /** The quotient and the remainder of truncating division: the remainder has the dividend's sign. */
  lemma TruncatesTowardsZero(x: int, y: int)
    requires y != 0
    ensures var (q, r) := (TruncDiv(x, y), TruncMod(x, y));
            x == q * y + r && Magnitude(r) < Magnitude(y) && (r == 0 || (r < 0 <==> x < 0))
  {
    var (a, b) := (Magnitude(x), Magnitude(y));
    assert a == b * (a / b) + a % b;
    var q := a / b;
    assert TruncDiv(x, y) * y == if x < 0 then -(b * q) else b * q by {
      assert (-q) * y == -(q * y) && q * (-b) == -(q * b) && q * b == b * q;
    }
  }

  predicate StrLess(a: string, b: string) {
    b != "" && (a == "" || a[0] < b[0] || (a[0] == b[0] && StrLess(a[1..], b[1..])))
  }

  function IntOp(x: int, y: int, op: NumOp): Option<Value> {
    match op
    case Add => Some(Int(x + y))
    case Sub => Some(Int(x - y))
    case Mul => Some(Int(x * y))
    case Div => if y == 0 then None else Some(Int(TruncDiv(x, y)))
    case Mod => if y == 0 then None else Some(Int(TruncMod(x, y)))
  }

  function RealMod(x: real, y: real): real
    requires y != 0.0
  {
    var q := if x / y < 0.0 then -((-(x / y)).Floor as real) else (x / y).Floor as real;
    x - q * y
  }

  function RealOp(x: real, y: real, op: NumOp): Option<Value> {
    match op
    case Add => Some(Float(x + y))
    case Sub => Some(Float(x - y))
    case Mul => Some(Float(x * y))
    case Div => if y == 0.0 then None else Some(Float(x / y))
    case Mod => if y == 0.0 then None else Some(Float(RealMod(x, y)))
  }

  /** A comparison given whether the left operand is less than, and equal to, the right one. */
  function Compare(less: bool, equal: bool, op: CompOp): Value {
    Bool(match op
         case Eq => equal
         case Le => less || equal
         case Lt => less
         case Ge => !less
         case Gt => !less && !equal)
  }

  /** The operator table of the constraint solver; `None` where it panics. */
  function Table(v: Value, w: Value, op: BinOp): Option<Value> {
    match (v, w, op)
    case (Int(x), Int(y), NOp(o)) => IntOp(x, y, o)
    case (Float(x), Int(y), NOp(o)) => RealOp(x, y as real, o)
    case (Int(x), Float(y), NOp(o)) => RealOp(x as real, y, o)
    case (Float(x), Float(y), NOp(o)) => RealOp(x, y, o)
    case (Bool(x), Bool(y), BOp(Or)) => Some(Bool(x || y))
    case (Bool(x), Bool(y), BOp(And)) => Some(Bool(x && y))
    case (Str(x), Str(y), SOp) => Some(Str(x + y))
    case (Int(x), Int(y), COp(o)) => Some(Compare(x < y, x == y, o))
    case (Float(x), Int(y), COp(o)) => Some(Compare(x < y as real, x == y as real, o))
    case (Int(x), Float(y), COp(o)) => Some(Compare(x as real < y, x as real == y, o))
    case (Float(x), Float(y), COp(o)) => Some(Compare(x < y, x == y, o))
    case (Str(x), Str(y), COp(o)) => Some(Compare(StrLess(x, y), x == y, o))
    case _ => None
  }

  predicate Commutative(op: BinOp) {
    op == NOp(Add) || op == NOp(Mul) || op.BOp? || op == COp(Eq)
  }

  lemma TableCommutes(v: Value, w: Value, op: BinOp)
    requires Commutative(op)
    ensures Table(v, w, op) == Table(w, v, op)
  {
  }
}
