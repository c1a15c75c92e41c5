/** The user-supplied functions a wrapped handler runs, described by what
    they do to the response and how they end. */
module Steps {
  import opened Values
  import opened Errors

  /** How a call ends: it returns, throws synchronously, or returns a promise
      that rejects. `await` treats the last two alike; the older wrapper,
      which does not await, sees only the synchronous throw. */
  datatype Outcome = Returned | Threw(error: Thrown) | Rejected(error: Thrown)

  /** A user function: an optional `res.status(code)`, then an optional
      `res.json(body)`, then its outcome. `id` tells functions apart. */
  datatype Action = Action(id: string, status: Option<int>, send: Option<Value>, outcome: Outcome)
  {
    /** The error `await` observes. */
    function Awaited(): Option<Thrown>
    {
      if outcome.Returned? then None else Some(outcome.error)
    }
  }

  /** An element of a validate, setup or teardown array. */
  datatype Entry = Fn(action: Action) | NotFunction

  /** A value of the `locals` option: a function whose awaited result is
      stored, or any other value, stored as it is. */
  datatype Local = Producer(action: Action, result: Value) | Literal(value: Value)

  /** The wrapped function and its `name` property. */
  datatype Handler = Handler(name: string, action: Action)

  /** Where in the run a user function is called. */
  datatype Phase = Validate | Setup | Locals | Handle | Teardown

  /** One call of a user function, with the arguments after (req, res). */
  datatype Call = Call(phase: Phase, action: Action, extra: seq<Value>)

  /** The bodies a sequence of calls passes to `res.json`, in order. */
  function Sends(calls: seq<Call>): (bodies: seq<Value>)
    ensures |bodies| <= |calls|
  {
    if calls == [] then []
    else
      var last := calls[|calls| - 1].action;
      Sends(calls[..|calls| - 1]) + (if last.send.Some? then [last.send.value] else [])
  }

  /** The status code after a sequence of calls, starting from `code`. */
  function LastStatus(code: int, calls: seq<Call>): int
  {
    if calls == [] then code
    else
      var last := calls[|calls| - 1].action;
      if last.status.Some? then last.status.value else LastStatus(code, calls[..|calls| - 1])
  }

  lemma {:induction false} SendsAppend(xs: seq<Call>, ys: seq<Call>)
    ensures Sends(xs + ys) == Sends(xs) + Sends(ys)
    decreases |ys|
  {
    if ys == [] {
      assert xs + ys == xs;
    } else {
      var n := |ys| - 1;
      assert (xs + ys)[..|xs + ys| - 1] == xs + ys[..n];
      assert (xs + ys)[|xs + ys| - 1] == ys[n];
      SendsAppend(xs, ys[..n]);
    }
  }

  lemma {:induction false} LastStatusAppend(code: int, xs: seq<Call>, ys: seq<Call>)
    ensures LastStatus(code, xs + ys) == LastStatus(LastStatus(code, xs), ys)
    decreases |ys|
  {
    if ys == [] {
      assert xs + ys == xs;
    } else {
      var n := |ys| - 1;
      assert (xs + ys)[..|xs + ys| - 1] == xs + ys[..n];
      assert (xs + ys)[|xs + ys| - 1] == ys[n];
      LastStatusAppend(code, xs, ys[..n]);
    }
  }

  /** One more call: its send, if any, comes last, and its status, if any,
      is the new code. */
  lemma Snoc(code: int, calls: seq<Call>, c: Call)
    ensures Sends(calls + [c]) == Sends(calls) + (if c.action.send.Some? then [c.action.send.value] else [])
    ensures LastStatus(code, calls + [c]) == c.action.status.GetOr(LastStatus(code, calls))
  {
    assert (calls + [c])[..|calls|] == calls;
  }

  lemma AppendAssoc<T>(a: seq<T>, b: seq<T>, c: seq<T>)
    ensures a + (b + c) == (a + b) + c
  {
  }

  /** The response effects of the calls so far, extended by one more call. */
  lemma Extend(code0: int, sent0: seq<Value>, calls: seq<Call>, c: Call,
               codeBefore: int, sentBefore: seq<Value>, codeAfter: int, sentAfter: seq<Value>)
    requires codeBefore == LastStatus(code0, calls) && sentBefore == sent0 + Sends(calls)
    requires codeAfter == c.action.status.GetOr(codeBefore)
    requires sentAfter == sentBefore + (if c.action.send.Some? then [c.action.send.value] else [])
    ensures codeAfter == LastStatus(code0, calls + [c]) && sentAfter == sent0 + Sends(calls + [c])
  {
    Snoc(code0, calls, c);
  }

  /** The response effects of two runs of calls, one after the other. */
  lemma Compose(code0: int, sent0: seq<Value>, xs: seq<Call>, ys: seq<Call>,
                code1: int, sent1: seq<Value>, code2: int, sent2: seq<Value>)
    requires code1 == LastStatus(code0, xs) && sent1 == sent0 + Sends(xs)
    requires code2 == LastStatus(code1, ys) && sent2 == sent1 + Sends(ys)
    ensures code2 == LastStatus(code0, xs + ys) && sent2 == sent0 + Sends(xs + ys)
  {
    SendsAppend(xs, ys);
    LastStatusAppend(code0, xs, ys);
  }

  /** A call without a status leaves the code alone; one with a status fixes it. */
  lemma LastStatusOne(code: int, c: Call)
    ensures LastStatus(code, [c]) == c.action.status.GetOr(code)
  {
    assert [c][..0] == [];
  }

  lemma SendsOne(c: Call)
    ensures Sends([c]) == (if c.action.send.Some? then [c.action.send.value] else [])
  {
    assert [c][..0] == [];
  }
}
