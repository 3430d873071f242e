/** The laws the values and the primitive operations obey: what a program computes, not only that both
    executors compute it alike. */
module ValueLaws {
  import opened Values
  import opened Ast
  import opened TreeVm
  import opened TreeFacts
  import opened StackShape

  // ---------- numbers ----------

  /** The number an operation on two numbers gives. */
  function Num(t: NumberText, op: BinOp, x: real, y: real): Option<real> {
    match Apply(t, op, Number(x), Number(y))
    case Ok(Number(z)) => Some(z)
    case _ => None
  }

  /** Addition is commutative and associative with the unit zero, and subtraction undoes it. */
  lemma AdditionLaws(t: NumberText, x: real, y: real, z: real)
    ensures Num(t, Add, x, y) == Num(t, Add, y, x) && Num(t, Add, x, 0.0) == Some(x)
    ensures var s := Num(t, Add, x, y);
            s.Some? && Num(t, Sub, s.value, y) == Some(x) && Num(t, Add, s.value, z).Some?
    ensures var s, u := Num(t, Add, x, y), Num(t, Add, y, z);
            s.Some? && u.Some? && Num(t, Add, s.value, z) == Num(t, Add, x, u.value)
  {
  }

  /** Multiplication is commutative with the unit one, distributes over addition, and division by
      anything but zero undoes it. */
  lemma MultiplicationLaws(t: NumberText, x: real, y: real, z: real)
    ensures Num(t, Mul, x, y) == Num(t, Mul, y, x) && Num(t, Mul, x, 1.0) == Some(x)
    ensures var p := Num(t, Mul, x, y); p.Some? && (y != 0.0 ==> Num(t, Div, p.value, y) == Some(x))
    ensures var s, p, q := Num(t, Add, x, y), Num(t, Mul, x, z), Num(t, Mul, y, z);
            s.Some? && p.Some? && q.Some? && Num(t, Mul, s.value, z) == Num(t, Add, p.value, q.value)
    ensures y == 0.0 ==>
              Apply(t, Div, Number(x), Number(y)) == Err(DivisionByZero) == Apply(t, Mod, Number(x), Number(y))
  {
    NumIs(t, x, y);
    NumIs(t, y, x);
    NumIs(t, x, 1.0);
    NumIs(t, Product(x, y), y);
    NumIs(t, x, z);
    NumIs(t, y, z);
    NumIs(t, x + y, z);
    NumIs(t, Product(x, z), Product(y, z));
    hide Num, Product, Quotient, Apply;
    Products(x, y, z);
  }

  lemma NumIs(t: NumberText, x: real, y: real)
    ensures Num(t, Add, x, y) == Some(x + y) && Num(t, Mul, x, y) == Some(Product(x, y))
    ensures if y == 0.0 then Apply(t, Div, Number(x), Number(y)) == Err(DivisionByZero)
            == Apply(t, Mod, Number(x), Number(y))
            else Num(t, Div, x, y) == Some(Quotient(x, y)) && Num(t, Mod, x, y) == Some(Remainder(x, y))
  {
    hide Product, Quotient, Remainder, LessValues, Equals;
  }

  lemma Products(x: real, y: real, z: real)
    ensures Product(x, y) == Product(y, x) && Product(x, 1.0) == x
    ensures Product(x + y, z) == Product(x, z) + Product(y, z)
    ensures y != 0.0 ==> Quotient(Product(x, y), y) == x
  {
  }

  /** The remainder: x is a whole number of times y and the remainder, which is smaller than y and does
      not have the opposite sign of x. */
  lemma RemainderLaw(t: NumberText, x: real, y: real) returns (q: int)
    requires y != 0.0
    ensures var m := Num(t, Mod, x, y);
            && m.Some? && x == y * (q as real) + m.value
            && (if y > 0.0 then -y < m.value < y else y < m.value < -y)
            && (x >= 0.0 ==> m.value >= 0.0) && (x <= 0.0 ==> m.value <= 0.0)
  {
    hide Num, Truncate, Apply, Product, Quotient;
    NumIs(t, x, y);
    var d := Quotient(x, y);
    q := Truncate(d);
    var f := d - q as real;
    Scaled(x, y, q as real);
    TruncateLaw(d);
    Signs(y, d, f);
    assert y * (q as real) == Product(y, q as real) by { Unfolded(y, q as real); }
  }

  lemma Unfolded(x: real, y: real)
    ensures x * y == Product(x, y)
  {
  }

  lemma Scaled(x: real, y: real, q: real)
    requires y != 0.0
    ensures x == Product(y, Quotient(x, y))
    ensures x - Product(y, q) == Product(y, Quotient(x, y) - q)
  {
  }

  lemma TruncateLaw(d: real)
    ensures var f := d - Truncate(d) as real;
            -1.0 < f < 1.0 && (d >= 0.0 ==> f >= 0.0) && (d <= 0.0 ==> f <= 0.0)
  {
  }

  lemma Signs(y: real, d: real, f: real)
    requires y != 0.0 && -1.0 < f < 1.0 && (d >= 0.0 ==> f >= 0.0) && (d <= 0.0 ==> f <= 0.0)
    ensures if y > 0.0 then -y < Product(y, f) < y else y < Product(y, f) < -y
    ensures (Product(y, d) >= 0.0 ==> Product(y, f) >= 0.0) && (Product(y, d) <= 0.0 ==> Product(y, f) <= 0.0)
  {
    SignRule(y, d);
    SignRule(y, f);
    SignRule(y, 1.0 - f);
    SignRule(y, 1.0 + f);
    Products(1.0, -f, y);
    Products(1.0, f, y);
    assert Product(y, 1.0 - f) == y - Product(y, f) && Product(y, 1.0 + f) == y + Product(y, f);
  }

  /** A product is positive exactly when its factors have the same sign. */
  lemma SignRule(y: real, f: real)
    requires y != 0.0
    ensures Product(y, f) > 0.0 <==> (y > 0.0 && f > 0.0) || (y < 0.0 && f < 0.0)
    ensures Product(y, f) < 0.0 <==> (y > 0.0 && f < 0.0) || (y < 0.0 && f > 0.0)
  {
    if f == 0.0 { assert y * 0.0 == 0.0; }
  }

  // ---------- comparisons ----------

  /** The truth value a comparison gives. */
  function Holds(t: NumberText, op: BinOp, a: TypedValue, b: TypedValue): Option<bool> {
    match Apply(t, op, a, b)
    case Ok(Boolean(x)) => Some(x)
    case _ => None
  }

  /** Two numbers, or two texts. */
  predicate Comparable(a: TypedValue, b: TypedValue) {
    (a.Number? && b.Number?) || (a.Text? && b.Text?)
  }

  /** On numbers and on texts exactly one of less, same and greater holds; greater is less the other way
      round; less is transitive. */
  lemma OrderLaws(t: NumberText, a: TypedValue, b: TypedValue, c: TypedValue)
    requires Comparable(a, b) && Comparable(b, c)
    ensures var lt, gt := Holds(t, Lt, a, b), Holds(t, Gt, a, b);
            && lt.Some? && gt.Some? && gt == Holds(t, Lt, b, a)
            && (a == b <==> !lt.value && !gt.value) && !(lt.value && gt.value)
    ensures Holds(t, Lt, a, b) == Some(true) && Holds(t, Lt, b, c) == Some(true) ==> Holds(t, Lt, a, c) == Some(true)
    ensures a.Number? ==> (Holds(t, Lt, a, b) == Some(true) <==> a.n < b.n)
  {
    if a.Text? {
      TextTotal(a.s, b.s);
      if TextLess(a.s, b.s) && TextLess(b.s, c.s) { TextTransitive(a.s, b.s, c.s); }
    }
  }

  lemma {:induction false} TextTotal(a: string, b: string)
    ensures !(TextLess(a, b) && TextLess(b, a)) && (a == b <==> !TextLess(a, b) && !TextLess(b, a))
  {
    if a != "" && b != "" && a[0] == b[0] {
      TextTotal(a[1..], b[1..]);
      assert a == [a[0]] + a[1..] && b == [b[0]] + b[1..];
    }
  }

  lemma {:induction false} TextTransitive(a: string, b: string, c: string)
    requires TextLess(a, b) && TextLess(b, c)
    ensures TextLess(a, c)
  {
    if a != "" && a[0] == b[0] && b[0] == c[0] { TextTransitive(a[1..], b[1..], c[1..]); }
  }

  /** A proper beginning of a text is less than the text. */
  lemma {:induction false} PrefixLess(a: string, b: string)
    requires b != ""
    ensures TextLess(a, a + b)
  {
    if a != "" {
      PrefixLess(a[1..], b);
      assert (a + b)[1..] == a[1..] + b;
    }
  }

  /** Equality never fails, is reflexive and symmetric, tells texts and truth values apart exactly, takes
      numbers closer than the tolerance for equal, and sets null apart from everything else. */
  lemma EqualityLaws(t: NumberText, a: TypedValue, b: TypedValue)
    ensures Holds(t, Eq, a, b).Some? && Holds(t, Eq, a, a) == Some(true) && Holds(t, Eq, a, b) == Holds(t, Eq, b, a)
    ensures (a.Text? && b.Text?) || (a.Boolean? && b.Boolean?) || a.Null? || b.Null? ==>
              Holds(t, Eq, a, b) == Some(a == b)
    ensures a.Number? && b.Number? && Holds(t, Eq, a, b) == Some(false) ==>
              a.n - b.n >= EPSILON || b.n - a.n >= EPSILON
    ensures a.Number? && b.Number? && Holds(t, Eq, a, b) == Some(true) ==> a.n - b.n < EPSILON && b.n - a.n < EPSILON
    ensures EPSILON * 4503599627370496.0 == 1.0
    ensures a.Text? && b.Boolean? ==> Holds(t, Eq, a, b) == Some(a.s == if b.b then "true" else "false")
    ensures a.Text? && b.Number? ==> Holds(t, Eq, a, b) == Some(a.s == t.show(b.n))
  {
  }

  // ---------- truth ----------

  /** What counts as false is what addition does not notice: zero, false and null among numbers, and the
      empty text among texts. */
  lemma FalseyIsNeutral(t: NumberText, v: TypedValue, y: real, u: string)
    ensures !v.Text? ==> (IsFalsey(v) <==> Apply(t, Add, v, Number(y)) == Ok(Number(y)))
    ensures v.Text? ==> (IsFalsey(v) <==> Apply(t, Add, v, Text(u)) == Ok(Text(u)))
  {
    if v.Text? {
      assert |v.s + u| == |v.s| + |u|;
      assert v.s == "" ==> v.s + u == u;
    }
  }

  /** The value `not` leaves. */
  function Negated(t: NumberText, v: TypedValue): Option<TypedValue> {
    var r := Exec(t, Not, Vm([v], map[], [], []));
    if r.Done? && |r.vm.stack| == 1 then Some(r.vm.stack[0]) else None
  }

  /** Conjunction, disjunction and negation on what counts as true, with the laws of De Morgan. */
  lemma LogicLaws(t: NumberText, a: TypedValue, b: TypedValue)
    ensures var both, either, na, nb := Holds(t, And, a, b), Holds(t, Or, a, b), Negated(t, a), Negated(t, b);
            && both.Some? && either.Some? && na.Some? && nb.Some?
            && (both.value <==> !IsFalsey(a) && !IsFalsey(b)) && (either.value <==> !IsFalsey(a) || !IsFalsey(b))
            && (IsFalsey(na.value) <==> !IsFalsey(a))
            && Negated(t, Boolean(both.value)) == Some(Boolean(Holds(t, Or, na.value, nb.value) == Some(true)))
            && Negated(t, Boolean(either.value)) == Some(Boolean(Holds(t, And, na.value, nb.value) == Some(true)))
  {
    NegatedIs(t, a);
    NegatedIs(t, b);
    NegatedIs(t, Boolean(!IsFalsey(a) && !IsFalsey(b)));
    NegatedIs(t, Boolean(!IsFalsey(a) || !IsFalsey(b)));
    hide Negated;
  }

  lemma NegatedIs(t: NumberText, v: TypedValue)
    ensures Negated(t, v) == Some(Boolean(IsFalsey(v)))
  {
  }

  /** A test on a conjunction takes the branch that the tests on both values agree to take; a test on a
      negation takes the other branch. */
  lemma BranchLaws(t: NumberText, a: TypedValue, b: TypedValue, thn: seq<Op>, els: seq<Op>, s: Vm, fuel: nat)
    ensures Eval(t, [Op.Do(Push(a)), If([], thn, Block(els))], s, fuel) ==
            Eval(t, if IsFalsey(a) then els else thn, s, fuel)
    ensures Eval(t, [Op.Do(Push(a)), Op.Do(Push(b)), Op.Do(Binary(And)), If([], thn, Block(els))], s, fuel) ==
            Eval(t, if IsFalsey(a) then els else if IsFalsey(b) then els else thn, s, fuel)
    ensures Eval(t, [Op.Do(Push(a)), Op.Do(Not), If([], thn, Block(els))], s, fuel) ==
            Eval(t, if IsFalsey(a) then thn else els, s, fuel)
  {
    hide Exec, EvalOp;
    var branch := If([], thn, Block(els));
    PushThen(t, a, [branch], s, fuel);
    TakesBranch(t, a, thn, els, s, fuel);
    PushThen(t, a, [Op.Do(Push(b)), Op.Do(Binary(And)), branch], s, fuel);
    PushThen(t, b, [Op.Do(Binary(And)), branch], PushValue(s, a), fuel);
    var both := Boolean(!IsFalsey(a) && !IsFalsey(b));
    BinaryGives(t, And, a, b, both, s);
    DoThen(t, Binary(And), [branch], PushValue(PushValue(s, a), b), PushValue(s, both), fuel);
    TakesBranch(t, both, thn, els, s, fuel);
    PushThen(t, a, [Op.Do(Not), branch], s, fuel);
    NotGives(t, a, s);
    DoThen(t, Not, [branch], PushValue(s, a), PushValue(s, Boolean(IsFalsey(a))), fuel);
    TakesBranch(t, Boolean(IsFalsey(a)), thn, els, s, fuel);
  }

  lemma TakesBranch(t: NumberText, v: TypedValue, thn: seq<Op>, els: seq<Op>, s: Vm, fuel: nat)
    ensures Eval(t, [If([], thn, Block(els))], PushValue(s, v), fuel) ==
            Eval(t, if IsFalsey(v) then els else thn, s, fuel)
  {
    var op, s1 := If([], thn, Block(els)), PushValue(s, v);
    assert Drop(s1, 1) == s && Top(s1) == v;
    assert Eval(t, [], s1, fuel) == Done(s1);
    assert EvalOp(t, op, s1, fuel) == Eval(t, if IsFalsey(v) then els else thn, s, fuel);
    assert [op][1..] == [];
  }

  /** A primitive in front of the rest of a block. */
  lemma DoThen(t: NumberText, p: Prim, rest: seq<Op>, s: Vm, s': Vm, fuel: nat)
    requires Exec(t, p, s) == Done(s')
    ensures Eval(t, [Op.Do(p)] + rest, s, fuel) == Eval(t, rest, s', fuel)
  {
    hide Exec;
    assert ([Op.Do(p)] + rest)[1..] == rest;
  }

  lemma PushThen(t: NumberText, v: TypedValue, rest: seq<Op>, s: Vm, fuel: nat)
    ensures Eval(t, [Op.Do(Push(v))] + rest, s, fuel) == Eval(t, rest, PushValue(s, v), fuel)
  {
    DoThen(t, Push(v), rest, s, PushValue(s, v), fuel);
  }

  lemma BinaryGives(t: NumberText, op: BinOp, a: TypedValue, b: TypedValue, c: TypedValue, s: Vm)
    requires Apply(t, op, a, b) == Ok(c)
    ensures Exec(t, Binary(op), PushValue(PushValue(s, a), b)) == Done(PushValue(s, c))
  {
    hide Apply;
    var u := PushValue(PushValue(s, a), b);
    assert u.stack[|u.stack| - 2] == a && u.stack[|u.stack| - 1] == b && Drop(u, 2) == s;
  }

  lemma NotGives(t: NumberText, a: TypedValue, s: Vm)
    ensures Exec(t, Not, PushValue(s, a)) == Done(PushValue(s, Boolean(IsFalsey(a))))
  {
    assert Drop(PushValue(s, a), 1) == s;
  }

  // ---------- texts ----------

  /** Adding to a text puts one text behind the other, whatever the other value is written as. */
  lemma TextLaws(t: NumberText, a: string, b: string, v: TypedValue)
    ensures var c := Apply(t, Add, Text(a), Text(b));
            c.Ok? && c.value.Text? && |c.value.s| == |a| + |b| && a <= c.value.s && c.value.s[|a|..] == b
    ensures Apply(t, Add, Text(a), v) == Apply(t, Add, Text(a), Text(AsString(t, v)))
    ensures Apply(t, Add, v, Text(b)) == Apply(t, Add, Text(AsString(t, v)), Text(b))
    ensures AsString(t, Text(a)) == a && AsString(t, Boolean(true)) == "true" && AsString(t, Boolean(false)) == "false"
    ensures AsString(t, Null) == "null"
  {
  }

  /** Multiplying a text repeats it: once gives the text, and the repetitions add up; up to a thousand
      times, in either order of the operands, and fractions do not count. */
  lemma RepeatLaws(t: NumberText, s: string, m: nat, n: nat, f: real)
    requires m + n <= 1000 && 0.0 <= f < 1.0
    ensures Apply(t, Mul, Text(s), Number(0.0)) == Ok(Text("")) && Apply(t, Mul, Text(s), Number(1.0)) == Ok(Text(s))
    ensures var a, b := Apply(t, Mul, Text(s), Number(m as real)), Apply(t, Mul, Text(s), Number(n as real));
            a.Ok? && b.Ok? && Apply(t, Mul, Text(s), Number((m + n) as real)) == Apply(t, Add, a.value, b.value)
    ensures Apply(t, Mul, Text(s), Number(m as real + f)) == Apply(t, Mul, Text(s), Number(m as real))
    ensures Apply(t, Mul, Number(f + m as real), Text(s)) == Apply(t, Mul, Text(s), Number(f + m as real))
  {
    hide RepeatText;
    assert (m as real + f).Floor == m && (f + m as real).Floor == m && ((m + n) as real).Floor == m + n;
    Repeated(s, m, n);
    RepeatedOnce(s);
  }

  lemma RepeatedOnce(s: string)
    ensures RepeatText(s, 0) == "" && RepeatText(s, 1) == s
  {
    assert RepeatText(s, 1) == s + RepeatText(s, 0);
  }

  lemma RepeatLimit(t: NumberText, s: string, n: real)
    ensures n < 0.0 ==> Apply(t, Mul, Text(s), Number(n)) == Ok(Text(""))
    ensures n >= 1001.0 ==> Apply(t, Mul, Text(s), Number(n)) == Err(InvalidAmount)
  {
  }

  lemma {:induction false} Repeated(s: string, m: nat, n: nat)
    ensures RepeatText(s, m + n) == RepeatText(s, m) + RepeatText(s, n)
  {
    RepeatedOnce(s);
    if m == 0 {
      assert "" + RepeatText(s, n) == RepeatText(s, n);
    } else {
      Repeated(s, m - 1, n);
      RepeatedMore(s, m - 1);
      RepeatedMore(s, m - 1 + n);
      hide RepeatText;
      assert s + (RepeatText(s, m - 1) + RepeatText(s, n)) == s + RepeatText(s, m - 1) + RepeatText(s, n);
    }
  }

  lemma RepeatedMore(s: string, k: nat)
    ensures RepeatText(s, k + 1) == s + RepeatText(s, k)
  {
  }

  /** How other values count as numbers, and that texts that are no numbers do not. */
  lemma CoercionLaws(t: NumberText, op: BinOp, x: real, s: string)
    requires op in {Sub, Div, Mod, Lt, Gt}
    ensures Apply(t, op, Boolean(true), Number(x)) == Apply(t, op, Number(1.0), Number(x))
    ensures Apply(t, op, Boolean(false), Number(x)) == Apply(t, op, Number(0.0), Number(x))
            == Apply(t, op, Null, Number(x))
    ensures t.parse(s).Some? ==> Apply(t, op, Text(s), Number(x)) == Apply(t, op, Number(t.parse(s).value), Number(x))
    ensures t.parse(s).None? ==>
              Apply(t, op, Text(s), Number(x)).Err? && Apply(t, op, Text(s), Number(x)).error.TypeMismatch?
  {
    ReadsNumber(t, op, Boolean(true), 1.0, x);
    ReadsNumber(t, op, Boolean(false), 0.0, x);
    ReadsNumber(t, op, Null, 0.0, x);
    if t.parse(s).Some? {
      ReadsNumber(t, op, Text(s), t.parse(s).value, x);
    } else {
      hide Remainder, Quotient;
      match op
      case Sub =>
      case Div =>
      case Mod =>
      case Lt =>
      case Gt =>
    }
  }

  lemma ReadsNumber(t: NumberText, op: BinOp, v: TypedValue, n: real, x: real)
    requires op in {Sub, Div, Mod, Lt, Gt} && AsNumber(t, v) == Some(n)
    ensures Apply(t, op, v, Number(x)) == Apply(t, op, Number(n), Number(x))
  {
    hide AsNumber, Remainder, Quotient, Equals;
    SameNumber(t, n);
    SameNumber(t, x);
    match op
    case Sub => assert Numbers(t, v, Number(x), "sub") == Numbers(t, Number(n), Number(x), "sub");
    case Div => assert Numbers(t, v, Number(x), "div") == Numbers(t, Number(n), Number(x), "div");
    case Mod => assert Numbers(t, v, Number(x), "mod") == Numbers(t, Number(n), Number(x), "mod");
    case Lt => assert Numbers(t, v, Number(x), "less_than") == Numbers(t, Number(n), Number(x), "less_than");
    case Gt => assert Numbers(t, Number(x), v, "greater_than") == Numbers(t, Number(x), Number(n), "greater_than");
  }

  lemma SameNumber(t: NumberText, n: real)
    ensures AsNumber(t, Number(n)) == Some(n)
  {
  }

  // ---------- primitives ----------

  /** The operand below the top is the left one: `a b sub` is a minus b. */
  lemma OperandOrder(t: NumberText, x: real, y: real, s: Vm)
    ensures Exec(t, Binary(Sub), PushValue(PushValue(s, Number(x)), Number(y))) == Done(PushValue(s, Number(x - y)))
  {
    BinaryGives(t, Sub, Number(x), Number(y), Number(x - y), s);
  }

  lemma SwapLaws(t: NumberText, a: TypedValue, b: TypedValue, s: Vm, fuel: nat)
    ensures Eval(t, [Op.Do(Push(a)), Op.Do(Push(b)), Op.Do(Swap), Op.Do(Pop)], s, fuel) == Done(PushValue(s, b))
    ensures Eval(t, [Op.Do(Push(a)), Op.Do(Push(b)), Op.Do(Swap)], s, fuel) ==
            Eval(t, [Op.Do(Push(b)), Op.Do(Push(a))], s, fuel)
  {
    hide Exec, EvalOp;
    var sa, sb := PushValue(s, a), PushValue(s, b);
    var sab, sba := PushValue(sa, b), PushValue(sb, a);
    Swaps(t, a, b, s);
    Pops(t, a, sb);
    PushThen(t, a, [Op.Do(Push(b)), Op.Do(Swap), Op.Do(Pop)], s, fuel);
    PushThen(t, b, [Op.Do(Swap), Op.Do(Pop)], sa, fuel);
    DoThen(t, Swap, [Op.Do(Pop)], sab, sba, fuel);
    DoLast(t, Pop, sba, sb, fuel);
    PushThen(t, a, [Op.Do(Push(b)), Op.Do(Swap)], s, fuel);
    PushThen(t, b, [Op.Do(Swap)], sa, fuel);
    DoLast(t, Swap, sab, sba, fuel);
    PushThen(t, b, [Op.Do(Push(a))], s, fuel);
    PushLast(t, a, sb, fuel);
  }

  lemma DupPopLaws(t: NumberText, a: TypedValue, s: Vm, fuel: nat)
    ensures Eval(t, [Op.Do(Push(a)), Op.Do(Pop)], s, fuel) == Done(s)
    ensures Eval(t, [Op.Do(Push(a)), Op.Do(Dup)], s, fuel) == Eval(t, [Op.Do(Push(a)), Op.Do(Push(a))], s, fuel)
  {
    hide Exec, EvalOp;
    var sa := PushValue(s, a);
    Pops(t, a, s);
    PushThen(t, a, [Op.Do(Pop)], s, fuel);
    DoLast(t, Pop, sa, s, fuel);
    PushThen(t, a, [Op.Do(Dup)], s, fuel);
    DoLast(t, Dup, sa, PushValue(sa, a), fuel);
    PushThen(t, a, [Op.Do(Push(a))], s, fuel);
    PushLast(t, a, sa, fuel);
  }

  lemma Swaps(t: NumberText, a: TypedValue, b: TypedValue, s: Vm)
    ensures Exec(t, Swap, PushValue(PushValue(s, a), b)) == Done(PushValue(PushValue(s, b), a))
  {
    var u := PushValue(PushValue(s, a), b);
    assert u.stack[..|u.stack| - 2] == s.stack;
  }

  lemma Pops(t: NumberText, a: TypedValue, s: Vm)
    ensures Exec(t, Pop, PushValue(s, a)) == Done(s)
            && Exec(t, Dup, PushValue(s, a)) == Done(PushValue(PushValue(s, a), a))
  {
    assert Drop(PushValue(s, a), 1) == s;
  }

  lemma DoLast(t: NumberText, p: Prim, s: Vm, s': Vm, fuel: nat)
    requires Exec(t, p, s) == Done(s')
    ensures Eval(t, [Op.Do(p)], s, fuel) == Done(s')
  {
    DoThen(t, p, [], s, s', fuel);
    assert [Op.Do(p)] + [] == [Op.Do(p)];
  }

  lemma PushLast(t: NumberText, v: TypedValue, s: Vm, fuel: nat)
    ensures Eval(t, [Op.Do(Push(v))], s, fuel) == Done(PushValue(s, v))
  {
    DoLast(t, Push(v), s, PushValue(s, v), fuel);
  }

  /** A stored value is loaded again, from its own cell and no other; an unknown cell is an error that
      changes nothing. */
  lemma MemoryLaws(t: NumberText, v: TypedValue, x: string, y: string, s: Vm, fuel: nat)
    ensures var r := Eval(t, [Op.Do(Push(v)), Op.Do(Store(x)), Op.Do(Load(x))], s, fuel);
            && r.Done? && r.vm.stack == s.stack + [v] && x in r.vm.memory && r.vm.memory[x] == v
            && (y != x ==> (y in r.vm.memory <==> y in s.memory) && (y in s.memory ==> r.vm.memory[y] == s.memory[y]))
            && r.vm.output == s.output && r.vm.events == s.events
    ensures x !in s.memory ==> Eval(t, [Op.Do(Load(x))], s, fuel) == Fail(s, UndefinedVariable(x))
  {
    var sv := PushValue(s, v);
    var s1 := s.(memory := s.memory[x := v]);
    assert Exec(t, Store(x), sv) == Done(s1) by { assert Drop(sv, 1) == s; }
    assert Exec(t, Load(x), s1) == Done(PushValue(s1, v));
    PushThen(t, v, [Op.Do(Store(x)), Op.Do(Load(x))], s, fuel);
    DoThen(t, Store(x), [Op.Do(Load(x))], sv, s1, fuel);
    DoThen(t, Load(x), [], s1, PushValue(s1, v), fuel);
  }

  /** Messages and events are appended in the order they are sent, and change nothing else. */
  lemma MessageLaws(t: NumberText, m: string, n: string, c: string, s: Vm, fuel: nat)
    ensures Eval(t, [Op.Do(Emit(m)), Op.Do(Emit(n))], s, fuel) == Done(s.(output := s.output + [m, n]))
    ensures Eval(t, [Op.Do(EmitEvent(c, m)), Op.Do(EmitEvent(c, n))], s, fuel) ==
            Done(s.(events := s.events + [(c, m), (c, n)]))
    ensures Eval(t, [Op.Do(Nop)], s, fuel) == Done(s)
  {
    var s1, s2 := s.(output := s.output + [m]), s.(events := s.events + [(c, m)]);
    DoThen(t, Emit(m), [Op.Do(Emit(n))], s, s1, fuel);
    DoThen(t, Emit(n), [], s1, s1.(output := s1.output + [n]), fuel);
    DoThen(t, EmitEvent(c, m), [Op.Do(EmitEvent(c, n))], s, s2, fuel);
    DoThen(t, EmitEvent(c, n), [], s2, s2.(events := s2.events + [(c, n)]), fuel);
    DoThen(t, Nop, [], s, s, fuel);
    assert s.output + [m] + [n] == s.output + [m, n];
    assert s.events + [(c, m)] + [(c, n)] == s.events + [(c, m), (c, n)];
  }

  /** A primitive runs out of operands exactly when the depth check says so, and only then complains of
      it; memory, messages and events are left alone by every failing primitive. */
  lemma UnderflowExact(t: NumberText, p: Prim, s: Vm)
    ensures Underflows(Exec(t, p, s)) <==> PrimShape(p, |s.stack|).None?
    ensures Exec(t, p, s).Fail? ==>
              var u := Exec(t, p, s).vm; u.memory == s.memory && u.output == s.output && u.events == s.events
  {
    hide Apply;
    if PrimShape(p, |s.stack|).Some? { PrimShapeSound(t, p, s); }
  }
}
