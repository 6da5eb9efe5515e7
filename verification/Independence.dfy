/** No device behaviour can influence the driver's bookkeeping or its result codes. */
module Independence {
  import opened Hardware
  import opened Mmio
  import opened Driver

  /** Equal except for what the device was asked and answered. */
  predicate Alike(a: State, b: State) {
    a.(trace := []) == b.(trace := [])
  }

  /** Same code, same number of scalars, and the same cookie when one is issued. */
  predicate SameOutcome(op: Op, a: Option<Reply>, b: Option<Reply>) {
    && a.Some? == b.Some?
    && (a.Some? ==> a.value.code == b.value.code && |a.value.outputs| == |b.value.outputs|)
    && (a.Some? && op.CallOp? && op.selector == 0 ==> a == b)
  }

  lemma QueryAlike(d: Device, d': Device, s: State, s': State, offs: seq<Register>, k: nat)
    requires Alike(s, s') && k <= |offs|
    ensures var q, q' := Query(d, s, offs, k), Query(d', s', offs, k);
      Alike(q.state, q'.state) && q.code == q'.code && |q.values| == |q'.values|
  {
  }

  lemma SubmitAlike(d: Device, d': Device, s: State, s': State, env: Env)
    requires Alike(s, s')
    ensures Alike(Submit(d, s, env).state, Submit(d', s', env).state)
    ensures Submit(d, s, env).code == Submit(d', s', env).code
  {
  }

  lemma CallAlike(d: Device, d': Device, s: State, s': State, m: Selector, args: Args, env: Env)
    requires Alike(s, s') && |args.input| == InputCount(m) && args.outputs == OutputCount(m)
    ensures var c, c' := Dispatch(d, s, m, args, env), Dispatch(d', s', m, args, env);
      && Alike(c.state, c'.state)
      && c.reply.code == c'.reply.code && |c.reply.outputs| == |c'.reply.outputs|
      && (m == CreateSelector ==> c.reply == c'.reply)
  {
    match m
    case CreateSelector =>
    case SubmitSelector => SubmitAlike(d, d', s, s', env);
    case WaitSelector =>
    case RegsSelector => QueryAlike(d, d', s, s', SAFE_REGISTERS, SafeCount(8));
    case GtSelector => QueryAlike(d, d', s, s', GT_CONFIG, 8);
    case DisplaySelector => QueryAlike(d, d', s, s', DISPLAY_INFO, 8);
  }

  lemma StepAlike(d: Device, d': Device, s: State, s': State, op: Op)
    requires Alike(s, s')
    ensures Alike(Step(d, s, op), Step(d', s', op))
    ensures SameOutcome(op, Replied(d, s, op), Replied(d', s', op))
  {
    if op.CallOp? && op.selector < |METHODS| && op.args.Some? {
      var m, args := METHODS[op.selector], op.args.value;
      if |args.input| == InputCount(m) && args.outputs == OutputCount(m) {
        CallAlike(d, d', s, s', m, args, op.env);
      }
    }
  }

  /** At step i of two runs the calls have the same outcome. */
  ghost predicate SameOutcomeAt(d: Device, d': Device, s: State, s': State, ops: seq<Op>, i: nat)
    requires i < |ops|
  {
    SameOutcome(ops[i], Replied(d, Run(d, s, ops[..i]), ops[i]), Replied(d', Run(d', s', ops[..i]), ops[i]))
  }

  /** Two runs of the same requests on any two devices keep the same flags, mapping, list and buffers,
      byte for byte, and every call returns the same code. */
  lemma {:induction false} RunAlike(d: Device, d': Device, s: State, s': State, ops: seq<Op>)
    requires Alike(s, s')
    ensures Alike(Run(d, s, ops), Run(d', s', ops))
    ensures forall i :: 0 <= i < |ops| ==> SameOutcomeAt(d, d', s, s', ops, i)
  {
    if ops != [] {
      var n := |ops| - 1;
      var front := ops[..n];
      RunAlike(d, d', s, s', front);
      StepAlike(d, d', Run(d, s, front), Run(d', s', front), ops[n]);
      forall i | 0 <= i < n
        ensures SameOutcomeAt(d, d', s, s', ops, i)
      {
        assert SameOutcomeAt(d, d', s, s', front, i);
        assert front[..i] == ops[..i];
      }
    }
  }
}
