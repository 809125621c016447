/** `RetryChain` of the custom-chains demo: a chain that wraps another chain and calls it up
    to `max_retries` times, sleeping `delay * (attempt + 1)` after each failed attempt but
    the last, and re-raising the last failure.

    The wrapped chain is not visible, so its behaviour is a parameter: `call(i)` is what its
    i-th invocation (counting from 0) does. Sleeping is recorded, not performed: a run lists
    the delays it would have slept, in time units. */
module CustomChains {

  /** What one invocation of the wrapped chain does: return its output or raise. */
  datatype ChainCall<O, E> = Returned(output: O) | Raised(error: E)

  /** How `_call` ends. The function falls off the end of its loop, and so returns None, only
      when `range(max_retries)` is empty. */
  datatype RetryOutcome<O, E> = Output(output: O) | Reraised(error: E) | NoneReturned

  /** One run of `_call`: how it ended, how often the wrapped chain was invoked and the
      delays slept, in order. */
  datatype RetryRun<O, E> = RetryRun(outcome: RetryOutcome<O, E>, calls: nat, sleeps: seq<nat>)

  /** The keys of the wrapped chain. */
  datatype Chain = Chain(inputKeys: seq<string>, outputKeys: seq<string>)

  /** The fields of a `RetryChain`. */
  datatype RetryChain = RetryChain(chain: Chain, maxRetries: int, delay: nat)

  /** `RetryChain(chain=c)`: the class defaults `max_retries = 3` and `delay = 1.0`. */
  function NewRetryChain(chain: Chain): (rc: RetryChain)
    ensures rc.chain == chain && rc.maxRetries == 3 && rc.delay == 1
  {
    RetryChain(chain, 3, 1)
  }

  /** The `input_keys` property forwards to the wrapped chain. */
  function InputKeys(rc: RetryChain): (keys: seq<string>)
    ensures keys == rc.chain.inputKeys
  {
    rc.chain.inputKeys
  }

  /** The `output_keys` property forwards to the wrapped chain. */
  function OutputKeys(rc: RetryChain): (keys: seq<string>)
    ensures keys == rc.chain.outputKeys
  {
    rc.chain.outputKeys
  }

  /** The loop of `_call` from iteration `attempt` on: the reference definition the method
      below is proved against. */
  function RunFrom<O, E>(call: nat -> ChainCall<O, E>, maxRetries: int, delay: nat, attempt: nat): RetryRun<O, E>
    decreases if attempt < maxRetries then maxRetries - attempt else 0
  {
    if attempt >= maxRetries then RetryRun(NoneReturned, 0, [])
    else match call(attempt)
      case Returned(o) => RetryRun(Output(o), 1, [])
      case Raised(e) =>
        if attempt == maxRetries - 1 then RetryRun(Reraised(e), 1, [])
        else
          var rest := RunFrom(call, maxRetries, delay, attempt + 1);
          RetryRun(rest.outcome, rest.calls + 1, [delay * (attempt + 1)] + rest.sleeps)
  }

  /** The run of `_call` as a whole. */
  function Run<O, E>(rc: RetryChain, call: nat -> ChainCall<O, E>): RetryRun<O, E> {
    RunFrom(call, rc.maxRetries, rc.delay, 0)
  }

  /** The linear backoff schedule: the delays slept after failed attempts `from` .. `upTo - 1`. */
  function Backoff(delay: nat, from: nat, upTo: nat): (sleeps: seq<nat>)
    ensures |sleeps| == if from <= upTo then upTo - from else 0
    ensures forall j :: 0 <= j < |sleeps| ==> sleeps[j] == delay * (from + j + 1)
  {
    if from < upTo then seq(upTo - from, j requires 0 <= j < upTo - from => delay * (from + j + 1)) else []
  }

  /** `_call`: a `for attempt in range(max_retries)` loop with an early return on success,
      a re-raise on the last attempt and a sleep otherwise. */
  method Call<O, E>(rc: RetryChain, call: nat -> ChainCall<O, E>) returns (run: RetryRun<O, E>)
    ensures run == Run(rc, call)
  {
    var sleeps: seq<nat> := [];
    var attempt: nat := 0;
    while attempt < rc.maxRetries
      invariant attempt == 0 || attempt < rc.maxRetries
      invariant |sleeps| == attempt
      invariant var rest := RunFrom(call, rc.maxRetries, rc.delay, attempt);
        Run(rc, call) == RetryRun(rest.outcome, attempt + rest.calls, sleeps + rest.sleeps)
      decreases rc.maxRetries - attempt
    {
      match call(attempt)
      case Returned(o) =>
        return RetryRun(Output(o), attempt + 1, sleeps);
      case Raised(e) =>
        if attempt == rc.maxRetries - 1 {
          return RetryRun(Reraised(e), attempt + 1, sleeps);
        }
        RunFromStep(call, rc.maxRetries, rc.delay, attempt);
        var rest := RunFrom(call, rc.maxRetries, rc.delay, attempt + 1);
        assert sleeps + ([rc.delay * (attempt + 1)] + rest.sleeps)
          == (sleeps + [rc.delay * (attempt + 1)]) + rest.sleeps;
        sleeps := sleeps + [rc.delay * (attempt + 1)];
        attempt := attempt + 1;
    }
    run := RetryRun(NoneReturned, attempt, sleeps);
  }

  /** A failed attempt other than the last sleeps once and goes on with the next attempt. */
  lemma RunFromStep<O, E>(call: nat -> ChainCall<O, E>, maxRetries: int, delay: nat, attempt: nat)
    requires attempt < maxRetries - 1 && call(attempt).Raised?
    ensures var rest := RunFrom(call, maxRetries, delay, attempt + 1);
      RunFrom(call, maxRetries, delay, attempt)
        == RetryRun(rest.outcome, rest.calls + 1, [delay * (attempt + 1)] + rest.sleeps)
  {
  }

  /** If the wrapped chain fails on attempts `from` .. `k - 1` and succeeds on attempt `k`,
      the run from `from` ends with attempt `k`'s output. */
  lemma {:induction false} SucceedsAtFrom<O, E>(call: nat -> ChainCall<O, E>, maxRetries: int, delay: nat, from: nat, k: nat)
    requires from <= k < maxRetries
    requires forall i :: from <= i < k ==> call(i).Raised?
    requires call(k).Returned?
    ensures RunFrom(call, maxRetries, delay, from)
      == RetryRun(Output(call(k).output), k - from + 1, Backoff(delay, from, k))
    decreases k - from
  {
    if from < k {
      SucceedsAtFrom(call, maxRetries, delay, from + 1, k);
      assert [delay * (from + 1)] + Backoff(delay, from + 1, k) == Backoff(delay, from, k);
    }
  }

  /** If attempts `0 .. k - 1` fail and attempt `k < max_retries` succeeds, the wrapped chain
      is invoked exactly `k + 1` times, attempt `k`'s output is returned, and the sleeps were
      `delay, 2 * delay, ..., k * delay`. */
  lemma SucceedsAt<O, E>(rc: RetryChain, call: nat -> ChainCall<O, E>, k: nat)
    requires k < rc.maxRetries
    requires forall i :: 0 <= i < k ==> call(i).Raised?
    requires call(k).Returned?
    ensures Run(rc, call).outcome == Output(call(k).output)
    ensures Run(rc, call).calls == k + 1
    ensures Run(rc, call).sleeps == Backoff(rc.delay, 0, k)
  {
    SucceedsAtFrom(call, rc.maxRetries, rc.delay, 0, k);
  }

  /** Success on the first attempt: one invocation, its output returned, no sleep. */
  lemma FirstAttemptSucceeds<O, E>(rc: RetryChain, call: nat -> ChainCall<O, E>)
    requires rc.maxRetries >= 1 && call(0).Returned?
    ensures Run(rc, call) == RetryRun(Output(call(0).output), 1, [])
  {
    SucceedsAt(rc, call, 0);
  }

  /** If attempts `from` .. `max_retries - 1` all fail, the run from `from` re-raises the
      last failure after sleeping once per failed attempt but the last. */
  lemma {:induction false} AllFailFrom<O, E>(call: nat -> ChainCall<O, E>, maxRetries: int, delay: nat, from: nat)
    requires from < maxRetries
    requires forall i :: from <= i < maxRetries ==> call(i).Raised?
    ensures RunFrom(call, maxRetries, delay, from)
      == RetryRun(Reraised(call(maxRetries - 1).error), maxRetries - from, Backoff(delay, from, maxRetries - 1))
    decreases maxRetries - from
  {
    if from < maxRetries - 1 {
      AllFailFrom(call, maxRetries, delay, from + 1);
      assert [delay * (from + 1)] + Backoff(delay, from + 1, maxRetries - 1) == Backoff(delay, from, maxRetries - 1);
    }
  }

  /** Every attempt fails: the wrapped chain is invoked exactly `max_retries` times, the last
      exception is re-raised, and there are `max_retries - 1` sleeps, the last one after the
      second-to-last attempt, so none follows the final failure. */
  lemma AllAttemptsFail<O, E>(rc: RetryChain, call: nat -> ChainCall<O, E>)
    requires rc.maxRetries >= 1
    requires forall i :: 0 <= i < rc.maxRetries ==> call(i).Raised?
    ensures Run(rc, call).outcome == Reraised(call(rc.maxRetries - 1).error)
    ensures Run(rc, call).calls == rc.maxRetries
    ensures Run(rc, call).sleeps == Backoff(rc.delay, 0, rc.maxRetries - 1)
  {
    AllFailFrom(call, rc.maxRetries, rc.delay, 0);
  }

  /** With `max_retries <= 0` the loop body never runs: the wrapped chain is never invoked
      and `_call` returns None. */
  lemma NoRetriesReturnsNone<O, E>(rc: RetryChain, call: nat -> ChainCall<O, E>)
    requires rc.maxRetries <= 0
    ensures Run(rc, call) == RetryRun(NoneReturned, 0, [])
  {
  }

  /** For every behaviour of the wrapped chain: at most `max_retries` invocations; one sleep
      fewer than invocations (none after the last one); the a-th sleep is `delay * (a + 1)`;
      a returned output is that of the last invocation, which succeeded; a re-raised
      exception is that of the last invocation, which was attempt `max_retries - 1`. */
  lemma {:induction false} RunShapeFrom<O, E>(call: nat -> ChainCall<O, E>, maxRetries: int, delay: nat, from: nat)
    ensures var run := RunFrom(call, maxRetries, delay, from);
      && (run.calls == 0 <==> from >= maxRetries)
      && (from < maxRetries ==> run.calls <= maxRetries - from)
      && |run.sleeps| == (if run.calls == 0 then 0 else run.calls - 1)
      && (forall j :: 0 <= j < |run.sleeps| ==> run.sleeps[j] == delay * (from + j + 1))
      && (run.outcome.Output? ==> call(from + run.calls - 1) == Returned(run.outcome.output))
      && (run.outcome.Reraised? ==> from + run.calls == maxRetries && call(maxRetries - 1) == Raised(run.outcome.error))
      && (forall i :: from <= i < from + run.calls - 1 ==> call(i).Raised?)
    decreases if from < maxRetries then maxRetries - from else 0
  {
    if from < maxRetries && call(from).Raised? && from != maxRetries - 1 {
      RunShapeFrom(call, maxRetries, delay, from + 1);
    }
  }

  /** The defaults in action: a wrapped chain that always fails is invoked three times,
      with sleeps of 1 and 2 time units, and its third failure is re-raised. */
  lemma DefaultsAlwaysFailing<O, E>(chain: Chain, call: nat -> ChainCall<O, E>)
    requires forall i :: call(i).Raised?
    ensures Run(NewRetryChain(chain), call) == RetryRun(Reraised(call(2).error), 3, [1, 2])
  {
    AllAttemptsFail(NewRetryChain(chain), call);
  }
}
