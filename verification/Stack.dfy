/** The abstract last-in-first-out stack, over runs of pushes and pops. */
module Stacks {
  import opened Bytes

  datatype Op<T> = Push(value: T) | Pop

  /** One operation; a pop of the empty stack answers nothing. */
  function Apply<T>(stack: seq<T>, op: Op<T>): (seq<T>, Option<T>) {
    match op
    case Push(v) => (stack + [v], None)
    case Pop => if stack == [] then (stack, None) else (stack[..|stack| - 1], Some(stack[|stack| - 1]))
  }

  /** The stack after ops, and what each of them answered. */
  function RunStack<T>(stack: seq<T>, ops: seq<Op<T>>): (r: (seq<T>, seq<Option<T>>))
    ensures |r.1| == |ops|
  {
    if ops == [] then (stack, [])
    else
      var (s, out) := RunStack(stack, ops[..|ops| - 1]);
      var (t, answer) := Apply(s, ops[|ops| - 1]);
      (t, out + [answer])
  }

  lemma RunSnoc<T>(stack: seq<T>, ops: seq<Op<T>>, op: Op<T>)
    ensures RunStack(stack, ops + [op]).0 == Apply(RunStack(stack, ops).0, op).0
    ensures RunStack(stack, ops + [op]).1 == RunStack(stack, ops).1 + [Apply(RunStack(stack, ops).0, op).1]
  {
    assert (ops + [op])[..|ops|] == ops;
  }

  /** The greatest depth reached while running ops. */
  function Peak<T>(stack: seq<T>, ops: seq<Op<T>>): nat {
    if ops == [] then |stack|
    else Max(Peak(stack, ops[..|ops| - 1]), |RunStack(stack, ops).0|)
  }

  lemma PeakSnoc<T>(stack: seq<T>, ops: seq<Op<T>>, op: Op<T>)
    ensures Peak(stack, ops + [op]) == Max(Peak(stack, ops), |RunStack(stack, ops + [op]).0|)
  {
    assert (ops + [op])[..|ops|] == ops;
  }

  function Height<T>(ops: seq<Op<T>>): int {
    if ops == [] then 0 else Height(ops[..|ops| - 1]) + if ops[|ops| - 1].Push? then 1 else -1
  }

  /** No prefix of ops pops more than it pushed. */
  predicate StaysAbove<T>(ops: seq<Op<T>>) {
    ops == [] || (StaysAbove(ops[..|ops| - 1]) && (ops[|ops| - 1].Pop? ==> Height(ops[..|ops| - 1]) > 0))
  }

  lemma {:induction false} RunOnBase<T>(stack: seq<T>, ops: seq<Op<T>>)
    requires StaysAbove(ops)
    ensures |RunStack([], ops).0| == Height(ops)
    ensures RunStack(stack, ops) == (stack + RunStack([], ops).0, RunStack([], ops).1)
  {
    if ops != [] {
      var front, last := ops[..|ops| - 1], ops[|ops| - 1];
      RunOnBase(stack, front);
      var s, t := RunStack(stack, front).0, RunStack([], front).0;
      if last.Push? {
        assert s + [last.value] == stack + (t + [last.value]);
      } else {
        assert s[|s| - 1] == t[|t| - 1];
        assert s[..|s| - 1] == stack + t[..|t| - 1];
      }
    } else {
      assert stack + [] == stack;
    }
  }

  lemma {:induction false} RunConcat<T>(stack: seq<T>, a: seq<Op<T>>, b: seq<Op<T>>)
    ensures RunStack(stack, a + b).0 == RunStack(RunStack(stack, a).0, b).0
    ensures RunStack(stack, a + b).1 == RunStack(stack, a).1 + RunStack(RunStack(stack, a).0, b).1
  {
    if b == [] {
      assert a + b == a;
    } else {
      var n := |b| - 1;
      assert (a + b)[..|a + b| - 1] == a + b[..n];
      RunConcat(stack, a, b[..n]);
    }
  }

  /** Last in, first out: whatever balanced traffic runs in between, a pop answers the value of the
      matching push and leaves the stack as it was before that push. */
  lemma LastInFirstOut<T>(stack: seq<T>, v: T, ops: seq<Op<T>>)
    requires StaysAbove(ops) && Height(ops) == 0
    ensures var run := RunStack(stack, [Push(v)] + ops + [Pop]);
            run.0 == stack && run.1[|ops| + 1] == Some(v)
  {
    assert RunStack(stack, [Push(v)]).0 == stack + [v] by {
      assert [Push(v)][..0] == [];
    }
    RunConcat(stack, [Push(v)], ops);
    RunOnBase(stack + [v], ops);
    RunSnoc(stack, [Push(v)] + ops, Pop);
  }

  /** The values that were pushed, and the values that were answered. */
  function Pushes<T>(ops: seq<Op<T>>): seq<T> {
    if ops == [] then []
    else Pushes(ops[..|ops| - 1]) + if ops[|ops| - 1].Push? then [ops[|ops| - 1].value] else []
  }

  function Answers<T>(out: seq<Option<T>>): seq<T> {
    if out == [] then []
    else Answers(out[..|out| - 1]) + if out[|out| - 1].Some? then [out[|out| - 1].value] else []
  }

  lemma PushesSnoc<T>(ops: seq<Op<T>>, op: Op<T>)
    ensures Pushes(ops + [op]) == Pushes(ops) + if op.Push? then [op.value] else []
  {
    assert (ops + [op])[..|ops|] == ops;
  }

  lemma AnswersSnoc<T>(out: seq<Option<T>>, answer: Option<T>)
    ensures Answers(out + [answer]) == Answers(out) + if answer.Some? then [answer.value] else []
  {
    assert (out + [answer])[..|out|] == out;
  }
}
