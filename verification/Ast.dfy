/** Operation trees (crates/icn-covm/src/vm/types.rs) and the names the compiler reserves. */
module Ast {
  import opened Values

  /** Operations without nested blocks that both executors carry. */
  datatype Prim =
    | Push(value: TypedValue)
    | Store(name: string)
    | Load(name: string)
    | Binary(op: BinOp)
    | Not
    | Pop
    | Dup
    | Swap
    | Nop
    | Emit(message: string)
    | EmitEvent(category: string, message: string)

  datatype Op =
    | Do(prim: Prim)
    | If(cond: seq<Op>, thn: seq<Op>, els: MaybeBlock)
    | While(cond: seq<Op>, body: seq<Op>)
    | Loop(count: nat, body: seq<Op>)
    | Match(value: seq<Op>, cases: seq<Case>, default: MaybeBlock)
    | Def(name: string, params: seq<string>, body: seq<Op>)
    | IfPassed(block: seq<Op>)
    | ElseBlock(block: seq<Op>)

  datatype Case = Case(value: TypedValue, body: seq<Op>)

  /** An optional block: the `else` of an `if`, the `default` of a match. */
  datatype MaybeBlock = Absent | Block(ops: seq<Op>)

  /** The decimal digits of n. */
  function Digits(n: nat): string {
    if n < 10 then [('0' as int + n) as char]
    else Digits(n / 10) + [('0' as int + n % 10) as char]
  }

  const LOOP_PREFIX := "__loop_counter_"
  const MATCH_PREFIX := "__match_value_"

  /** The memory cell of the counted loop whose counter is first stored at `pos`. */
  function LoopCounter(pos: nat): string { LOOP_PREFIX + Digits(pos) }

  /** The memory cell of the match whose value is stored at `pos`. */
  function MatchValue(pos: nat): string { MATCH_PREFIX + Digits(pos) }

  predicate Reserved(name: string) {
    LOOP_PREFIX <= name || MATCH_PREFIX <= name
  }

  /** The operation names no reserved cell. */
  predicate UserName(p: Prim) {
    (p.Store? ==> !Reserved(p.name)) && (p.Load? ==> !Reserved(p.name))
  }

  lemma DigitsInjective(m: nat, n: nat)
    requires Digits(m) == Digits(n)
    ensures m == n
  {
    if m >= 10 && n >= 10 {
      var dm, dn := Digits(m / 10), Digits(n / 10);
      assert Digits(m)[..|dm|] == dm && Digits(n)[..|dn|] == dn;
      assert Digits(m)[|dm|] == Digits(n)[|dn|];
      DigitsInjective(m / 10, n / 10);
    }
  }

  /** Reserved names of different positions, or of different kinds, never collide. */
  lemma TempsDistinct(p: nat, q: nat)
    ensures Reserved(LoopCounter(p)) && Reserved(MatchValue(p))
    ensures LoopCounter(p) != MatchValue(q)
    ensures p != q ==> LoopCounter(p) != LoopCounter(q) && MatchValue(p) != MatchValue(q)
  {
    assert LoopCounter(p)[2] == 'l' && MatchValue(q)[2] == 'm';
    if LoopCounter(p) == LoopCounter(q) {
      assert LoopCounter(p)[|LOOP_PREFIX|..] == Digits(p) && LoopCounter(q)[|LOOP_PREFIX|..] == Digits(q);
      DigitsInjective(p, q);
    }
    if MatchValue(p) == MatchValue(q) {
      assert MatchValue(p)[|MATCH_PREFIX|..] == Digits(p) && MatchValue(q)[|MATCH_PREFIX|..] == Digits(q);
      DigitsInjective(p, q);
    }
  }
}
