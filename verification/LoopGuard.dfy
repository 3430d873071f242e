/** The counted loops whose counter is kept on the operand stack: which of them agree with the
    tree interpreter. */
module LoopGuard {
  import opened Values
  import opened Ast
  import opened TreeVm
  import opened Bytecode
  import opened CodeGen
  import opened Simulation
  import opened ErrorStack
  import opened StackShape
  import opened CompilerCorrectness

  /** From every state the compiled loop ends the way the tree interpreter ends. */
  ghost predicate LoopAgrees(t: NumberText, count: nat, body: seq<Op>) {
    forall a: Vm, b: Vm, fuel: nat {:trigger Same(a, b), Eval(t, [Loop(count, body)], a, fuel)} ::
      Same(a, b) && !Eval(t, [Loop(count, body)], a, fuel).OutOfFuel? ==>
        LoopEndsLike(t, count, body, a, b, fuel, Live(t, [Loop(count, body)], a, fuel))
  }

  /** The same, and every error finds the operand stack of the tree interpreter. */
  ghost predicate LoopAgreesExactly(t: NumberText, count: nat, body: seq<Op>) {
    forall a: Vm, b: Vm, fuel: nat {:trigger Same(a, b), Eval(t, [Loop(count, body)], a, fuel)} ::
      Same(a, b) && !Eval(t, [Loop(count, body)], a, fuel).OutOfFuel? ==> LoopEndsLike(t, count, body, a, b, fuel, 0)
  }

  ghost predicate LoopEndsLike(t: NumberText, count: nat, body: seq<Op>, a: Vm, b: Vm, fuel: nat, live: nat) {
    var code := Program([Loop(count, body)]);
    exists n :: EndsLike(Eval(t, [Loop(count, body)], a, fuel), code, Run(t, code, Running(0, b), n), live)
  }

  /** The guard of the stack-counter lowering, for bodies that are not empty. */
  predicate GuardedOut(count: nat, len: nat) { count == FAST_COUNT && 1 <= len <= FAST_BODY }

  /** Every supported body of a given length agrees, exactly when the guard does not hold. */
  lemma LoopGuardExact(t: NumberText, count: nat, len: nat)
    ensures (forall body: seq<Op> :: |body| == len && Supported(t, body) ==> LoopAgrees(t, count, body))
       <==> !GuardedOut(count, len)
  {
    if GuardedOut(count, len) {
      PusherDisagrees(t, len);
    } else {
      forall body: seq<Op> | |body| == len && Supported(t, body)
        ensures LoopAgrees(t, count, body)
      {
        UnguardedAgrees(t, count, body);
      }
    }
  }

  lemma UnguardedAgrees(t: NumberText, count: nat, body: seq<Op>)
    requires Supported(t, body) && !GuardedOut(count, |body|)
    ensures LoopAgrees(t, count, body)
    ensures NoFast(body) ==> LoopAgreesExactly(t, count, body)
  {
    var ops := [Loop(count, body)];
    assert IsFast(count, body) ==> body == [];
    assert Supported(t, ops) by {
      assert SupportedOp(t, ops[0]) && Supported(t, ops[1..]);
    }
    assert NoFast(body) ==> NoFast(ops) by {
      if NoFast(body) { assert NoFastOp(ops[0]) && NoFast(ops[1..]); }
    }
    hide Eval, Supported, NoFast, Live, EndsLike;
    forall a: Vm, b: Vm, fuel: nat | Same(a, b) && !Eval(t, ops, a, fuel).OutOfFuel?
      ensures LoopEndsLike(t, count, body, a, b, fuel, Live(t, ops, a, fuel))
      ensures NoFast(body) ==> LoopEndsLike(t, count, body, a, b, fuel, 0)
    {
      Forward(t, ops, a, b, fuel);
      if NoFast(body) { NoneLive(t, ops, a, fuel); }
    }
  }

  /** Which lowering a counted loop gets: none for up to five iterations, the counter on the stack for a
      thousand iterations of at most five operations, the counter in memory otherwise. */
  lemma LoweringExact(count: nat, body: seq<Op>, p: nat, defs: set<string>)
    ensures var c, w := CodeOp(Loop(count, body), p, defs), Len(body, defs);
            && (count <= 5 ==> |c| == count * w)
            && (count > 5 && count == 1000 && |body| <= 5 ==>
                  |c| == w + 9 && c[1] == Instr.Do(Dup) && c[|c| - 1] == Instr.Do(Pop))
            && (count > 5 && !(count == 1000 && |body| <= 5) ==>
                  |c| == w + 11 && c[1] == Instr.Do(Store(LoopCounter(p + 1))) && c[|c| - 1] == Jump(p + 2))
  {
    hide Code, Len, LoopCounter;
  }

  // ---------- a body of every guarded length on which the two executors part ----------

  function Nops(k: nat): seq<Op> { if k == 0 then [] else [Op.Do(Nop)] + Nops(k - 1) }

  /** Pushes the number two and then does nothing, len operations in all. */
  function Pusher(len: nat): seq<Op>
    requires len > 0
  { [Op.Do(Push(Number(2.0)))] + Nops(len - 1) }

  const EMPTY := Vm([], map[], [], [])

  lemma {:induction false} NopsFacts(t: NumberText, k: nat, s: Vm, fuel: nat)
    ensures |Nops(k)| == k && Supported(t, Nops(k)) && Eval(t, Nops(k), s, fuel) == Done(s)
  {
    if k > 0 {
      NopsFacts(t, k - 1, s, fuel);
      assert Nops(k)[1..] == Nops(k - 1);
    }
  }

  lemma PusherFacts(t: NumberText, len: nat, s: Vm, fuel: nat)
    requires len > 0
    ensures |Pusher(len)| == len && Supported(t, Pusher(len))
    ensures Eval(t, Pusher(len), s, fuel) == Done(PushValue(s, Number(2.0)))
  {
    NopsFacts(t, len - 1, PushValue(s, Number(2.0)), fuel);
    assert Pusher(len)[1..] == Nops(len - 1);
  }

  lemma {:induction false} PusherTreeEnds(t: NumberText, len: nat, k: nat, s: Vm, fuel: nat)
    requires len > 0
    ensures EvalTimes(t, Pusher(len), k, s, fuel).Done?
    decreases k
  {
    if k > 0 {
      PusherFacts(t, len, s, fuel);
      PusherTreeEnds(t, len, k - 1, PushValue(s, Number(2.0)), fuel);
    }
  }

  lemma PusherLayout(t: NumberText, len: nat, code: seq<Instr>)
    requires 1 <= len <= FAST_BODY
    requires code == Program([Loop(FAST_COUNT, Pusher(len))])
    ensures FastAt(Loop(FAST_COUNT, Pusher(len)), code, 0, {})
  {
    PusherFacts(t, len, EMPTY, 0);
    var op := Loop(FAST_COUNT, Pusher(len));
    assert code == CodeOp(op, 0, {}) + [];
    assert At(code, 0, CodeOp(op, 0, {}));
    FastLayout(op, code, 0, {});
  }

  lemma FastParts(op: Op, code: seq<Instr>, p: nat, defs: set<string>)
    requires op.Loop? && FastAt(op, code, p, defs)
    ensures At(code, p, FastHead(p, op.count, Len(op.body, defs)))
    ensures At(code, p + 5, Code(op.body, p + 5, defs)) && At(code, p + 5 + Len(op.body, defs), FastTail(p))
  {
  }

  lemma PushedTwo(b: Vm, c: Vm)
    requires Same(PushValue(b, Number(2.0)), c)
    ensures c.stack == b.stack + [Number(2 as real)]
  {
  }

  /** One turn: the two on top loses one and is taken for the counter. */
  lemma PusherTurn(t: NumberText, len: nat, code: seq<Instr>, b: Vm, base: seq<TypedValue>, k: nat)
    returns (n: nat, b': Vm)
    requires 1 <= len <= FAST_BODY && k > 0 && b.stack == base + [Number(k as real)]
    requires FastAt(Loop(FAST_COUNT, Pusher(len)), code, 0, {})
    ensures n > 0 && Run(t, code, Running(1, b), n) == Running(1, b')
    ensures b'.stack == base + [Number(k as real)] + [Number(1 as real)]
  {
    hide *;
    var body := Pusher(len);
    var w := Len(body, {});
    PusherFacts(t, len, b, 0);
    FastParts(Loop(FAST_COUNT, body), code, 0, {});
    SameRefl(b);
    FastTest(t, code, 0, FAST_COUNT, w, b, base, k);
    var m, d := SimOps(t, body, code, 5, {}, b, b, 0);
    Finished(Eval(t, body, b, 0), d, b, 5, 5 + w, 5 + w, 0, m, FailStack(t, body, b, 0));
    assert d.vm.stack == b.stack + [Number(2 as real)] by { PushedTwo(b, d.vm); }
    Chain(t, code, Running(1, b), 4, Running(5, b), m, d);
    FastNext(t, code, 0, 5 + w, d.vm, b.stack, 2);
    b' := d.vm.(stack := b.stack + [Number(1 as real)]);
    Chain(t, code, Running(1, b), 4 + m, d, 3, Running(1, b'));
    n := 4 + m + 3;
  }

  /** However many steps are taken, the compiled loop comes back to its test. */
  lemma {:induction false} PusherReturns(t: NumberText, len: nat, code: seq<Instr>, j: nat)
    returns (m: nat, b: Vm, base: seq<TypedValue>, k: nat)
    requires 1 <= len <= FAST_BODY
    requires FastAt(Loop(FAST_COUNT, Pusher(len)), code, 0, {})
    ensures m >= j && k > 0 && b.stack == base + [Number(k as real)]
    ensures Run(t, code, Running(0, EMPTY), m) == Running(1, b)
  {
    hide Run, Pusher, FastAt, EMPTY;
    if j == 0 {
      b := PusherStart(t, len, code);
      m, base, k := 1, [], FAST_COUNT;
    } else {
      m, b, base, k := PusherReturns(t, len, code, j - 1);
      var n, b' := PusherTurn(t, len, code, b, base, k);
      Chain(t, code, Running(0, EMPTY), m, Running(1, b), n, Running(1, b'));
      m, b, base, k := m + n, b', base + [Number(k as real)], 1;
    }
  }

  lemma PusherStart(t: NumberText, len: nat, code: seq<Instr>) returns (b: Vm)
    requires len > 0 && FastAt(Loop(FAST_COUNT, Pusher(len)), code, 0, {})
    ensures b.stack == [] + [Number(FAST_COUNT as real)]
    ensures Run(t, code, Running(0, EMPTY), 1) == Running(1, b)
  {
    hide Step, Run, Code, Len, Pusher;
    var v := Number(FAST_COUNT as real);
    AtIndex(code, 0, FastHead(0, FAST_COUNT, Len(Pusher(len), {})), 0);
    StepPush(t, code, 0, v, EMPTY);
    OneStep(t, code, Running(0, EMPTY));
    b := EMPTY.(stack := [] + [v]);
  }

  lemma PusherDisagrees(t: NumberText, len: nat)
    requires 1 <= len <= FAST_BODY
    ensures |Pusher(len)| == len && Supported(t, Pusher(len)) && !LoopAgrees(t, FAST_COUNT, Pusher(len))
  {
    var body := Pusher(len);
    var ops := [Loop(FAST_COUNT, body)];
    var code := Program(ops);
    PusherFacts(t, len, EMPTY, 0);
    PusherTreeEnds(t, len, FAST_COUNT, EMPTY, 0);
    assert EvalOp(t, ops[0], EMPTY, 0).Done? && ops[1..] == [];
    assert Eval(t, ops, EMPTY, 0).Done?;
    PusherLayout(t, len, code);
    var w := Len(body, {});
    AtIndex(code, 0, FastHead(0, FAST_COUNT, w), 1);
    hide Eval, Run, Code, At, Supported;
    forall n: nat ensures !EndsLike(Eval(t, ops, EMPTY, 0), code, Run(t, code, Running(0, EMPTY), n),
                                    Live(t, ops, EMPTY, 0)) {
      var m, b, base, k := PusherReturns(t, len, code, n);
      if Ended(code, Run(t, code, Running(0, EMPTY), n)) {
        EndUnique(t, code, Running(0, EMPTY), n, m);
      }
    }
    assert Same(EMPTY, EMPTY);
    assert !LoopEndsLike(t, FAST_COUNT, body, EMPTY, EMPTY, 0, Live(t, ops, EMPTY, 0));
  }

  // ---------- a body of every guarded length whose error finds the counter on the stack ----------

  /** Tests a variable and then does nothing, len operations in all. */
  function Prober(len: nat): seq<Op>
    requires len > 0
  { [If([Op.Do(Load("x"))], [], Absent)] + Nops(len - 1) }

  lemma {:induction false} NopsChecked(k: nat)
    ensures |Nops(k)| == k && Checked(Nops(k)) && NoFast(Nops(k)) && Shape(Nops(k), 0) == Some(0)
  {
    if k > 0 {
      NopsChecked(k - 1);
      assert Nops(k)[1..] == Nops(k - 1);
    }
  }

  lemma ProberChecked(len: nat)
    requires 1 <= len <= FAST_BODY
    ensures |Prober(len)| == len && NoFast(Prober(len)) && Checked([Loop(FAST_COUNT, Prober(len))])
  {
    var body := Prober(len);
    NopsChecked(len - 1);
    assert body[1..] == Nops(len - 1);
    var probe := [Op.Do(Load("x"))];
    assert probe[1..] == [];
    assert Shape(probe, 0) == Some(1) && Checked(probe) && NoFast(probe);
    assert OpShape(body[0], 0) == Some(0) && CheckedOp(body[0]);
    assert Shape(body, 0) == Some(0);
    assert Checked(body);
    var ops := [Loop(FAST_COUNT, body)];
    assert CheckedOp(ops[0]) && Checked(ops[1..]);
  }

  /** On a machine without the variable the body fails, and leaves the stack alone. */
  lemma ProberFails(t: NumberText, len: nat, s: Vm)
    requires len > 0 && "x" !in s.memory
    ensures Eval(t, Prober(len), s, 0) == Fail(s, UndefinedVariable("x"))
    ensures FailStack(t, Prober(len), s, 0) == s.stack
  {
    var probe := [Op.Do(Load("x"))];
    assert EvalOp(t, probe[0], s, 0) == Fail(s, UndefinedVariable("x"));
    assert Eval(t, probe, s, 0) == Fail(s, UndefinedVariable("x"));
    assert FailStack(t, probe, s, 0) == s.stack;
  }

  /** The same error, but an empty stack in the tree interpreter and the counter in the compiled
      program. */
  lemma ProberError(t: NumberText, len: nat) returns (n: nat)
    requires 1 <= len <= FAST_BODY
    ensures var ops := [Loop(FAST_COUNT, Prober(len))];
            && Checked(ops) && NoFast(Prober(len)) && |Prober(len)| == len
            && Eval(t, ops, EMPTY, 0) == Fail(EMPTY, UndefinedVariable("x"))
            && Run(t, Program(ops), Running(0, EMPTY), n).Stopped?
            && Run(t, Program(ops), Running(0, EMPTY), n).error == UndefinedVariable("x")
            && Run(t, Program(ops), Running(0, EMPTY), n).vm.stack == [Number(1000.0)]
  {
    var body := Prober(len);
    var ops := [Loop(FAST_COUNT, body)];
    ProberChecked(len);
    CheckedSupported(t, ops);
    ProberFails(t, len, EMPTY);
    ProberFails(t, len, Counting(EMPTY, FAST_COUNT));
    hide Prober, Supported, Checked, Program, Run;
    assert EvalOp(t, ops[0], EMPTY, 0) == Fail(EMPTY, UndefinedVariable("x"));
    assert FailStackOp(t, ops[0], EMPTY, 0) == [Number(1000.0)];
    n := Simulate(t, ops, EMPTY, EMPTY, 0);
  }

  /** Among the loops the simulation covers, with no other stack-counter loop inside, those of a given
      length have the stack of the tree interpreter at every error exactly when the guard does not
      hold. */
  lemma ErrorStackExact(t: NumberText, count: nat, len: nat)
    ensures (forall body: seq<Op> :: |body| == len && Supported(t, [Loop(count, body)]) && NoFast(body) ==>
               LoopAgreesExactly(t, count, body))
       <==> !GuardedOut(count, len)
  {
    if GuardedOut(count, len) {
      ProberDiffers(t, len);
    } else {
      forall body: seq<Op> | |body| == len && Supported(t, [Loop(count, body)]) && NoFast(body)
        ensures LoopAgreesExactly(t, count, body)
      {
        assert SupportedOp(t, [Loop(count, body)][0]);
        UnguardedAgrees(t, count, body);
      }
    }
  }

  lemma ProberDiffers(t: NumberText, len: nat)
    requires 1 <= len <= FAST_BODY
    ensures var body := Prober(len);
            |body| == len && Supported(t, [Loop(FAST_COUNT, body)]) && NoFast(body)
            && !LoopAgreesExactly(t, FAST_COUNT, body)
  {
    var body := Prober(len);
    var ops := [Loop(FAST_COUNT, body)];
    var code := Program(ops);
    var n := ProberError(t, len);
    CheckedSupported(t, ops);
    hide Prober, Supported, Checked, NoFast, Program, Run, Eval;
    var r := Eval(t, ops, EMPTY, 0);
    forall m: nat ensures !EndsLike(r, code, Run(t, code, Running(0, EMPTY), m), 0) {
      var c := Running(0, EMPTY);
      if EndsLike(r, code, Run(t, code, c, m), 0) {
        if m <= n { EndUnique(t, code, c, m, n); } else { EndUnique(t, code, c, n, m); }
      }
    }
    assert Same(EMPTY, EMPTY);
    assert !LoopEndsLike(t, FAST_COUNT, body, EMPTY, EMPTY, 0, 0);
  }
}
