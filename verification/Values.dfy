/** Typed values of the virtual machine and the operations both executors share
    (crates/icn-covm/src/typed.rs, crates/icn-covm/src/vm/execution.rs). */
module Values {

  datatype Option<+T> = None | Some(value: T)

  datatype TypedValue = Number(n: real) | Boolean(b: bool) | Text(s: string) | Null

  datatype VmError =
    | StackUnderflow
    | UndefinedVariable(name: string)
    | TypeMismatch(operation: string)
    | DivisionByZero
    | InvalidAmount
    | NotImplemented

  datatype Result<+T> = Ok(value: T) | Err(error: VmError)

  /** How numbers are written to and read from text. The layout of floating-point
      text is a parameter: nothing below depends on it. */
  datatype NumberText = NumberText(show: real -> string, parse: string -> Option<real>)

  /** The tolerance of numeric equality, 2^-52. */
  const EPSILON: real := 1.0 / 4503599627370496.0

  const MAX_REPEAT := 1000

  datatype BinOp = Add | Sub | Mul | Div | Mod | Eq | Gt | Lt | And | Or

  predicate IsFalsey(v: TypedValue) {
    match v
    case Number(n) => n == 0.0
    case Boolean(b) => !b
    case Text(s) => s == ""
    case Null => true
  }

  function AsNumber(t: NumberText, v: TypedValue): Option<real> {
    match v
    case Number(n) => Some(n)
    case Boolean(b) => Some(if b then 1.0 else 0.0)
    case Text(s) => t.parse(s)
    case Null => Some(0.0)
  }

  function AsString(t: NumberText, v: TypedValue): string {
    match v
    case Number(n) => t.show(n)
    case Boolean(b) => if b then "true" else "false"
    case Text(s) => s
    case Null => "null"
  }

  /** Both operands read as numbers, or the coercion error of the named operation. */
  function Numbers(t: NumberText, a: TypedValue, b: TypedValue, operation: string): Result<(real, real)> {
    match (AsNumber(t, a), AsNumber(t, b))
    case (Some(x), Some(y)) => Ok((x, y))
    case _ => Err(TypeMismatch(operation))
  }

  function AddValues(t: NumberText, a: TypedValue, b: TypedValue): Result<TypedValue> {
    if a.Text? || b.Text? then Ok(Text(AsString(t, a) + AsString(t, b)))
    else match Numbers(t, a, b, "add")
      case Ok(p) => Ok(Number(p.0 + p.1))
      case Err(e) => Err(e)
  }

  function SubValues(t: NumberText, a: TypedValue, b: TypedValue): Result<TypedValue> {
    match Numbers(t, a, b, "sub")
    case Ok(p) => Ok(Number(p.0 - p.1))
    case Err(e) => Err(e)
  }

  /** Truncation of a number to a repeat count: negative numbers give zero. */
  function RepeatCount(n: real): nat {
    if n < 0.0 then 0 else n.Floor
  }

  function RepeatText(s: string, k: nat): string {
    if k == 0 then "" else s + RepeatText(s, k - 1)
  }

  function Product(x: real, y: real): real { x * y }

  function Quotient(x: real, y: real): real
    requires y != 0.0
  { x / y }

  function MulValues(t: NumberText, a: TypedValue, b: TypedValue): Result<TypedValue> {
    match (a, b)
    case (Text(s), Number(n)) =>
      if RepeatCount(n) > MAX_REPEAT then Err(InvalidAmount) else Ok(Text(RepeatText(s, RepeatCount(n))))
    case (Number(n), Text(s)) =>
      if RepeatCount(n) > MAX_REPEAT then Err(InvalidAmount) else Ok(Text(RepeatText(s, RepeatCount(n))))
    case _ =>
      match Numbers(t, a, b, "mul")
      case Ok(p) => Ok(Number(Product(p.0, p.1)))
      case Err(e) => Err(e)
  }

  function DivValues(t: NumberText, a: TypedValue, b: TypedValue): Result<TypedValue> {
    match Numbers(t, a, b, "div")
    case Ok(p) => if p.1 == 0.0 then Err(DivisionByZero) else Ok(Number(Quotient(p.0, p.1)))
    case Err(e) => Err(e)
  }

  /** Rounding toward zero. */
  function Truncate(q: real): int {
    if q < 0.0 then -((-q).Floor) else q.Floor
  }

  function Remainder(x: real, y: real): real
    requires y != 0.0
  { x - Product(y, Truncate(Quotient(x, y)) as real) }

  function ModValues(t: NumberText, a: TypedValue, b: TypedValue): Result<TypedValue> {
    match Numbers(t, a, b, "mod")
    case Ok(p) =>
      if p.1 == 0.0 then Err(DivisionByZero) else Ok(Number(Remainder(p.0, p.1)))
    case Err(e) => Err(e)
  }

  /** Equality never fails: mixed types are compared as text. */
  predicate Equals(t: NumberText, a: TypedValue, b: TypedValue) {
    match (a, b)
    case (Number(x), Number(y)) => -EPSILON < x - y < EPSILON
    case (Boolean(x), Boolean(y)) => x == y
    case (Text(x), Text(y)) => x == y
    case (Null, Null) => true
    case (Null, _) => false
    case (_, Null) => false
    case _ => AsString(t, a) == AsString(t, b)
  }

  /** Lexicographic order of text. */
  predicate TextLess(a: string, b: string) {
    if b == "" then false
    else if a == "" then true
    else if a[0] != b[0] then a[0] < b[0]
    else TextLess(a[1..], b[1..])
  }

  function LessValues(t: NumberText, a: TypedValue, b: TypedValue, operation: string): Result<bool> {
    if a.Text? && b.Text? then Ok(TextLess(a.s, b.s))
    else match Numbers(t, a, b, operation)
      case Ok(p) => Ok(p.0 < p.1)
      case Err(e) => Err(e)
  }

  function BoolResult(r: Result<bool>): Result<TypedValue> {
    match r case Ok(b) => Ok(Boolean(b)) case Err(e) => Err(e)
  }

  /** The value of `a op b`; `a` is the deeper operand. */
  function Apply(t: NumberText, op: BinOp, a: TypedValue, b: TypedValue): Result<TypedValue> {
    match op
    case Add => AddValues(t, a, b)
    case Sub => SubValues(t, a, b)
    case Mul => MulValues(t, a, b)
    case Div => DivValues(t, a, b)
    case Mod => ModValues(t, a, b)
    case Eq => Ok(Boolean(Equals(t, a, b)))
    case Lt => BoolResult(LessValues(t, a, b, "less_than"))
    case Gt => BoolResult(LessValues(t, b, a, "greater_than"))
    case And => Ok(Boolean(!IsFalsey(a) && !IsFalsey(b)))
    case Or => Ok(Boolean(!IsFalsey(a) || !IsFalsey(b)))
  }
}
