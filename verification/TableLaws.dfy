/** What the operator table of the solver computes, by laws that do not mention the table's own cases. */
module TableLaws {
  import opened Lang

  // ---------------------------------------------------------------------------------------------
  // Integers
  // ---------------------------------------------------------------------------------------------

  function Counted(x: int, n: nat): int { if n == 0 then x else Counted(x, n - 1) + 1 }

  function Repeated(x: int, n: nat): int { if n == 0 then 0 else Repeated(x, n - 1) + x }

  /** Addition counts on from its left operand, or back to it. */
  lemma {:induction false} SumCounts(x: int, n: nat)
    ensures Table(Int(x), Int(n), NOp(Add)) == Some(Int(Counted(x, n)))
    ensures Table(Int(Counted(x, n)), Int(0 - n), NOp(Add)) == Some(Int(x))
  {
    if n != 0 { SumCounts(x, n - 1); }
  }

  /** Subtraction undoes addition. */
  lemma DifferenceUndoes(x: int, y: int)
    ensures var sum := Table(Int(x), Int(y), NOp(Add));
            sum.Some? && sum.value.Int? && Table(sum.value, Int(y), NOp(Sub)) == Some(Int(x))
  {
  }

  /** Multiplication is repeated addition; by a negative number it is the negative product. */
  lemma {:induction false} ProductRepeats(x: int, n: nat)
    ensures Table(Int(x), Int(n), NOp(Mul)) == Some(Int(Repeated(x, n)))
    ensures Table(Int(x), Int(0 - n), NOp(Mul)) == Some(Int(0 - Repeated(x, n)))
  {
    if n != 0 {
      ProductRepeats(x, n - 1);
      assert x * n == x * (n - 1) + x && x * (0 - n) == -(x * n);
    }
  }

  /** `q` and `r` are the quotient and the remainder of truncating division. */
  predicate Truncated(x: int, y: int, q: int, r: int) {
    x == q * y + r && Magnitude(r) < Magnitude(y) && (r == 0 || (r < 0 <==> x < 0))
  }

  lemma TruncatedOnce(x: int, y: int, q: int, r: int, q': int, r': int)
    requires Truncated(x, y, q, r) && Truncated(x, y, q', r')
    ensures q == q' && r == r'
  {
    var d := q - q';
    assert d * y == q * y - q' * y == r' - r;
    if d != 0 { assert Magnitude(d * y) >= Magnitude(y) by { AtLeastOnce(d, y); } }
  }

  lemma AtLeastOnce(d: int, y: int)
    requires d != 0
    ensures Magnitude(d * y) >= Magnitude(y)
  {
    var m: int := Magnitude(d);
    var n: int := Magnitude(y);
    Grows(m, n);
    Negates(m, n);
    assert (0 - m) * (0 - n) == m * n;
    assert d == m || d == 0 - m;
    assert y == n || y == 0 - n;
  }

  lemma Grows(m: nat, n: nat)
    requires 1 <= m
    ensures n <= m * n
  {
  }

  lemma Negates(m: int, n: int)
    ensures (0 - m) * n == -(m * n) && m * (0 - n) == -(m * n)
  {
  }

  /** Division and remainder are those of truncating division, and there are none by zero. */
  lemma QuotientTruncates(x: int, y: int, q: int, r: int)
    ensures Table(Int(x), Int(y), NOp(Div)).None? && Table(Int(x), Int(y), NOp(Mod)).None? <==> y == 0
    ensures y != 0 ==>
              (Table(Int(x), Int(y), NOp(Div)) == Some(Int(q)) && Table(Int(x), Int(y), NOp(Mod)) == Some(Int(r)) <==> Truncated(x, y, q, r))
  {
    if y != 0 {
      TruncatesTowardsZero(x, y);
      if Truncated(x, y, q, r) { TruncatedOnce(x, y, q, r, TruncDiv(x, y), TruncMod(x, y)); }
    }
  }

  // ---------------------------------------------------------------------------------------------
  // Floats
  // ---------------------------------------------------------------------------------------------

  predicate Number(v: Value) { v.Int? || v.Float? }

  function ToReal(v: Value): real
    requires Number(v)
  {
    if v.Int? then v.i as real else v.r
  }

  /** A float among the operands makes the other one a float. */
  lemma MixedAsFloats(v: Value, w: Value, op: BinOp)
    requires Number(v) && Number(w) && (v.Float? || w.Float?) && (op.NOp? || op.COp?)
    ensures Table(v, w, op) == Table(Float(ToReal(v)), Float(ToReal(w)), op)
  {
  }

  /** Sums, differences and products of floats extend those of integers. */
  lemma FloatsExtend(x: int, y: int, op: NumOp)
    requires op != Div && op != Mod
    ensures var z := Table(Int(x), Int(y), NOp(op));
            z.Some? && z.value.Int? && Table(Float(x as real), Float(y as real), NOp(op)) == Some(Float(z.value.i as real))
  {
    var (a, b) := (x as real, y as real);
    match op
    case Add => assert (x + y) as real == a + b;
    case Sub => assert (x - y) as real == a - b;
    case Mul =>
      CastProduct(x, y);
      OfProduct(a, b);
      FloatsGiveFloats(a, b, Mul);
  }

  lemma CastProduct(x: int, y: int)
    ensures (x * y) as real == x as real * y as real
  {
    if 0 <= y {
      CastTimes(x, y);
    } else {
      CastTimes(x, -y);
      CastNegates(y);
      CastNegates(x * y);
      assert x * -y == -(x * y) && x as real * -(y as real) == -(x as real * y as real);
    }
  }

  lemma CastNegates(x: int)
    ensures (-x) as real == -(x as real)
  {
  }

  lemma {:induction false} CastTimes(x: int, n: nat)
    ensures (x * n) as real == x as real * n as real
  {
    if n != 0 {
      CastTimes(x, n - 1);
      assert x * n == x * (n - 1) + x && x as real * n as real == x as real * (n - 1) as real + x as real;
    }
  }

  function Of(x: real, y: real, op: NumOp): real
    requires y != 0.0 || (op != Div && op != Mod)
  {
    Table(Float(x), Float(y), NOp(op)).value.r
  }

  lemma FloatsGiveFloats(x: real, y: real, op: NumOp)
    ensures Table(Float(x), Float(y), NOp(op)).None? <==> y == 0.0 && (op == Div || op == Mod)
    ensures Table(Float(x), Float(y), NOp(op)).Some? ==> Table(Float(x), Float(y), NOp(op)).value.Float?
  {
  }

  /** Floats are a field: addition is a commutative group, with subtraction, */
  lemma FloatSums(x: real, y: real, z: real)
    ensures Of(x, y, Add) == Of(y, x, Add) && Of(Of(x, y, Add), z, Add) == Of(x, Of(y, z, Add), Add) && Of(x, 0.0, Add) == x
    ensures Of(Of(x, y, Add), y, Sub) == x && Of(Of(x, y, Sub), y, Add) == x
  {
  }

  /** so is multiplication but for zero, */
  lemma FloatProducts(x: real, y: real, z: real)
    ensures Of(x, y, Mul) == Of(y, x, Mul) && Of(x, 1.0, Mul) == x
    ensures Of(Of(x, y, Mul), z, Mul) == Of(x, Of(y, z, Mul), Mul)
  {
    OfProduct(x, 1.0);
    FloatsCommute(x, y);
    FloatsAssociate(x, y, z);
  }

  lemma FloatsCommute(x: real, y: real)
    ensures Of(x, y, Mul) == Of(y, x, Mul)
  {
    OfProduct(x, y);
    OfProduct(y, x);
  }

  lemma FloatsAssociate(x: real, y: real, z: real)
    ensures Of(Of(x, y, Mul), z, Mul) == Of(x, Of(y, z, Mul), Mul)
  {
    Associates(x, y, z);
    OfProduct(x, y);
    OfProduct(y, z);
    SameProduct(x * y, z, x, y * z);
  }

  lemma SameProduct(u: real, z: real, x: real, v: real)
    requires u * z == x * v
    ensures Of(u, z, Mul) == Of(x, v, Mul)
  {
    OfProduct(u, z);
    OfProduct(x, v);
  }

  lemma OfProduct(x: real, y: real)
    ensures Of(x, y, Mul) == x * y
  {
  }

  lemma Associates(x: real, y: real, z: real)
    ensures (x * y) * z == x * (y * z)
  {
  }

  /** with division, */
  lemma FloatQuotients(x: real, y: real)
    requires y != 0.0
    ensures Of(Of(x, y, Mul), y, Div) == x && Of(Of(x, y, Div), y, Mul) == x
  {
    var (u, v) := (x * y, x / y);
    assert Of(x, y, Mul) == u && Of(x, y, Div) == v && Of(u, y, Div) == u / y && Of(v, y, Mul) == v * y;
    Divides(x, y);
  }

  lemma Divides(x: real, y: real)
    requires y != 0.0
    ensures (x * y) / y == x && (x / y) * y == x
  {
  }

  /** and multiplication distributes over addition. */
  lemma FloatsDistribute(x: real, y: real, z: real)
    ensures Of(x, Of(y, z, Add), Mul) == Of(Of(x, y, Mul), Of(x, z, Mul), Add)
  {
    ProductOfSum(x, y, z);
    SumOfProducts(x, y, z);
    Distributes(x, y, z);
  }

  lemma ProductOfSum(x: real, y: real, z: real)
    ensures Of(x, Of(y, z, Add), Mul) == x * (y + z)
  {
    OfSum(y, z);
    OfProduct(x, y + z);
  }

  lemma SumOfProducts(x: real, y: real, z: real)
    ensures Of(Of(x, y, Mul), Of(x, z, Mul), Add) == x * y + x * z
  {
    OfProduct(x, y);
    OfProduct(x, z);
    OfSum(x * y, x * z);
  }

  lemma OfSum(x: real, y: real)
    ensures Of(x, y, Add) == x + y
  {
  }

  lemma Distributes(x: real, y: real, z: real)
    ensures x * (y + z) == x * y + x * z
  {
  }

  function Absolute(x: real): real { if x < 0.0 then -x else x }

  /** What remains of a float is less than the divisor, has the dividend's sign, and is what whole multiples
      of the divisor leave. */
  lemma FloatRemainder(x: real, y: real) returns (q: int)
    requires y != 0.0
    ensures var r := Of(x, y, Mod);
            x == q as real * y + r && Absolute(r) < Absolute(y) && (r == 0.0 || (r < 0.0 <==> x < 0.0))
  {
    var z := x / y;
    q := Toward(z);
    OfRemainder(x, y);
    Rest(x, y, z, q as real);
    Scaled(z, z - q as real, y);
    RestSign(x, y, z);
  }

  /** The integer next to `z` towards zero. */
  function Toward(z: real): (q: int)
    ensures -1.0 < z - q as real < 1.0 && (z >= 0.0 ==> z >= q as real) && (z <= 0.0 ==> z <= q as real)
  {
    if z < 0.0 then -((-z).Floor) else z.Floor
  }

  lemma OfRemainder(x: real, y: real)
    requires y != 0.0
    ensures Of(x, y, Mod) == x - Toward(x / y) as real * y
  {
    assert x / y < 0.0 ==> -(-(x / y)).Floor as real == (-(-(x / y)).Floor) as real;
  }

  lemma RestSign(x: real, y: real, z: real)
    requires y != 0.0 && z == x / y
    ensures x < 0.0 <==> z * y < 0.0
  {
  }

  lemma Rest(x: real, y: real, z: real, q: real)
    requires y != 0.0 && z == x / y
    ensures x == z * y && x - q * y == (z - q) * y
  {
  }

  lemma Scaled(z: real, d: real, y: real)
    requires y != 0.0 && -1.0 < d < 1.0 && (z >= 0.0 ==> d >= 0.0) && (z <= 0.0 ==> d <= 0.0)
    ensures Absolute(d * y) < Absolute(y) && (d * y == 0.0 || (d * y < 0.0 <==> z * y < 0.0))
  {
    Between(d, y);
    if d > 0.0 {
      SignOf(z, y);
      SignOf(d, y);
    } else if d < 0.0 {
      SignOf(-z, y);
      SignOf(-d, y);
      assert -z * y == -(z * y) && -d * y == -(d * y);
    } else {
      assert d * y == 0.0;
    }
  }

  lemma Between(d: real, y: real)
    requires y != 0.0 && -1.0 < d < 1.0
    ensures Absolute(d * y) < Absolute(y)
  {
    var (u, v) := (1.0 - d, 1.0 + d);
    SignOf(u, y);
    SignOf(v, y);
    assert u * y == y - d * y && v * y == y + d * y;
  }

  lemma SignOf(z: real, y: real)
    requires z > 0.0 && y != 0.0
    ensures z * y != 0.0 && (z * y < 0.0 <==> y < 0.0)
  {
    if y > 0.0 { assert z * y > 0.0; } else { assert z * y < 0.0; }
  }

  // ---------------------------------------------------------------------------------------------
  // Comparisons
  // ---------------------------------------------------------------------------------------------

  /** A number is less than another one if and only if something positive is missing to it. */
  lemma LessIsGap(v: Value, w: Value)
    requires Number(v) && Number(w)
    ensures Table(v, w, COp(Lt)) == Some(Bool(exists d: real :: d > 0.0 && Table(Float(ToReal(v)), Float(d), NOp(Add)) == Some(Float(ToReal(w)))))
    ensures Table(v, w, COp(Eq)) == Some(Bool(Table(Float(ToReal(v)), Float(0.0), NOp(Add)) == Some(Float(ToReal(w)))))
  {
    var d := ToReal(w) - ToReal(v);
    assert Table(Float(ToReal(v)), Float(d), NOp(Add)) == Some(Float(ToReal(v) + d));
  }

  predicate Ordered(v: Value, w: Value) { (Number(v) && Number(w)) || (v.Str? && w.Str?) }

  function Holds(v: Value, w: Value, c: CompOp): bool { Table(v, w, COp(c)) == Some(Bool(true)) }

  /** The other comparisons follow from `<` and `==`, and just one of `<`, `==` and `>` holds. */
  lemma ComparisonsFollow(v: Value, w: Value)
    requires Ordered(v, w)
    ensures forall c :: Table(v, w, COp(c)) == Some(Bool(Holds(v, w, c)))
    ensures Holds(v, w, Le) <==> Holds(v, w, Lt) || Holds(v, w, Eq)
    ensures Holds(v, w, Ge) <==> !Holds(v, w, Lt)
    ensures Holds(v, w, Gt) <==> Holds(w, v, Lt)
    ensures Holds(v, w, Eq) <==> !Holds(v, w, Lt) && !Holds(w, v, Lt)
    ensures !(Holds(v, w, Lt) && Holds(w, v, Lt))
  {
    if v.Str? { StringsTotal(v.s, w.s); }
  }

  /** `b` goes on where `a` ends, or has a greater character at the first place where they differ. */
  ghost predicate Precedes(a: string, b: string) {
    exists k: nat :: k <= |a| && k < |b| && a[..k] == b[..k] && (k == |a| || a[k] < b[k])
  }

  lemma {:induction false} LessPrecedes(a: string, b: string)
    ensures StrLess(a, b) <==> Precedes(a, b)
  {
    if Precedes(a, b) {
      var k: nat :| k <= |a| && k < |b| && a[..k] == b[..k] && (k == |a| || a[k] < b[k]);
      if 0 < k {
        assert a[0] == a[..k][0] == b[..k][0] == b[0];
        assert a[1..][..k - 1] == a[..k][1..] && b[1..][..k - 1] == b[..k][1..];
        assert Precedes(a[1..], b[1..]);
        LessPrecedes(a[1..], b[1..]);
      }
    }
    if StrLess(a, b) {
      if a == "" || a[0] < b[0] {
        assert a[..0] == b[..0];
      } else {
        LessPrecedes(a[1..], b[1..]);
        var k: nat :| k <= |a[1..]| && k < |b[1..]| && a[1..][..k] == b[1..][..k] && (k == |a[1..]| || a[1..][k] < b[1..][k]);
        assert a[..k + 1] == [a[0]] + a[1..][..k] && b[..k + 1] == [b[0]] + b[1..][..k];
        assert k + 1 <= |a| && k + 1 < |b| && (k + 1 == |a| || a[k + 1] < b[k + 1]);
      }
    }
  }

  lemma {:induction false} StringsTotal(a: string, b: string)
    ensures !(StrLess(a, b) && StrLess(b, a)) && (a == b <==> !StrLess(a, b) && !StrLess(b, a))
  {
    if a != "" && b != "" {
      StringsTotal(a[1..], b[1..]);
      assert a == [a[0]] + a[1..] && b == [b[0]] + b[1..];
    }
  }

  /** Strings are compared as they would be in a dictionary. */
  lemma StringOrder(a: string, b: string)
    ensures Table(Str(a), Str(b), COp(Lt)) == Some(Bool(Precedes(a, b))) && Table(Str(a), Str(b), COp(Eq)) == Some(Bool(a == b))
  {
    LessPrecedes(a, b);
  }

  // ---------------------------------------------------------------------------------------------
  // Booleans, strings, and what there is no result for
  // ---------------------------------------------------------------------------------------------

  /** `true` is neutral for one logical operator and absorbing for the other, and `false` the other way round. */
  lemma Logic(b: bool)
    ensures Table(Bool(true), Bool(b), BOp(And)) == Some(Bool(b)) && Table(Bool(false), Bool(b), BOp(And)) == Some(Bool(false))
    ensures Table(Bool(false), Bool(b), BOp(Or)) == Some(Bool(b)) && Table(Bool(true), Bool(b), BOp(Or)) == Some(Bool(true))
  {
  }

  /** A string is split again where it was put together. */
  lemma Concatenation(a: string, b: string)
    ensures var r := Table(Str(a), Str(b), SOp);
            r.Some? && r.value.Str? && |r.value.s| == |a| + |b| && r.value.s[..|a|] == a && r.value.s[|a|..] == b
  {
  }

  /** There is a result exactly for operands that the operator is for, unless a number is divided by zero. */
  lemma Defined(v: Value, w: Value, op: BinOp)
    ensures Table(v, w, op).Some? <==>
            || (op.NOp? && Number(v) && Number(w) && !((op == NOp(Div) || op == NOp(Mod)) && ToReal(w) == 0.0))
            || (op.BOp? && v.Bool? && w.Bool?)
            || (op.SOp? && v.Str? && w.Str?)
            || (op.COp? && Ordered(v, w))
  {
  }
}
