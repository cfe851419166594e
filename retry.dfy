/** `@retry(stop_max_attempt_number=3, wait_exponential_multiplier=1000)` around
    a model call that re-raises every exception. */
module Retry {

  /** What one call to an external service did: returned text, or raised. */
  datatype Outcome = Ok(text: string) | Raised(cause: string)

  /** The model endpoint as seen by the pipeline: its answer to a prompt on the
      attempt with the given index (0 for the first call). Replies may differ
      from one attempt to the next. */
  type Model = (string, nat) -> Outcome

  /** `stop_max_attempt_number`. */
  const MaxAttempts: nat := 3

  /** How a decorated call ended: the outcome it surfaced and the number of
      calls it made. */
  datatype Run = Run(result: Outcome, calls: nat)

  /** The decorator from attempt index t on: stop on the first success or when
      the budget is spent; otherwise wait and call again. */
  function RunFrom(model: Model, prompt: string, t: nat): Run
    requires t < MaxAttempts
    decreases MaxAttempts - t
  {
    if model(prompt, t).Ok? || t + 1 == MaxAttempts then Run(model(prompt, t), t + 1)
    else RunFrom(model, prompt, t + 1)
  }

  /** The decorated call `generate_output(prompt)`. */
  function Retried(model: Model, prompt: string): Run {
    RunFrom(model, prompt, 0)
  }

  /** The waits between n + 1 calls, one appended after each call that raised
      while calls remain; `delay` stands for the library's schedule. The
      contract gives the closed form: n waits, the wait after the call with
      number a (1-based) being `delay(a)`. */
  function Waits(delay: nat -> nat, n: nat): (w: seq<nat>)
    ensures |w| == n
    ensures forall t :: 0 <= t < n ==> w[t] == delay(t + 1)
  {
    if n == 0 then [] else Waits(delay, n - 1) + [delay(n)]
  }

  lemma {:induction false} RunFromFacts(model: Model, prompt: string, t: nat)
    requires t < MaxAttempts
    ensures var r := RunFrom(model, prompt, t);
      && t + 1 <= r.calls <= MaxAttempts
      && r.result == model(prompt, r.calls - 1)
      && (forall u :: t <= u < r.calls - 1 ==> model(prompt, u).Raised?)
      && (r.result.Ok? || r.calls == MaxAttempts)
    decreases MaxAttempts - t
  {
    if !(model(prompt, t).Ok? || t + 1 == MaxAttempts) {
      RunFromFacts(model, prompt, t + 1);
    }
  }

  /** What the decorator promises: at most three calls; every call but the last
      raised; the last call's outcome is surfaced (its text, or its exception);
      it stops early only on a success; so it fails exactly when all three
      calls raise. */
  lemma RetriedFacts(model: Model, prompt: string)
    ensures var r := Retried(model, prompt);
      && 1 <= r.calls <= MaxAttempts
      && r.result == model(prompt, r.calls - 1)
      && (forall u :: 0 <= u < r.calls - 1 ==> model(prompt, u).Raised?)
      && (r.result.Ok? || r.calls == MaxAttempts)
      && (r.result.Raised? <==> forall u :: 0 <= u < MaxAttempts ==> model(prompt, u).Raised?)
  {
    RunFromFacts(model, prompt, 0);
    var r := Retried(model, prompt);
    if r.result.Ok? {
      assert model(prompt, r.calls - 1).Ok?;
    }
  }

  /** When the call with index u is the first that succeeds, the decorator
      surfaces exactly that reply after u + 1 calls. */
  lemma FirstSuccess(model: Model, prompt: string, u: nat)
    requires u < MaxAttempts && model(prompt, u).Ok?
    requires forall v :: 0 <= v < u ==> model(prompt, v).Raised?
    ensures Retried(model, prompt) == Run(model(prompt, u), u + 1)
  {
    RetriedFacts(model, prompt);
  }

  /** When every call raises, the decorator makes all three calls and
      re-raises the exception of the last one. */
  lemma AllRaised(model: Model, prompt: string)
    requires forall u :: 0 <= u < MaxAttempts ==> model(prompt, u).Raised?
    ensures Retried(model, prompt) == Run(model(prompt, MaxAttempts - 1), MaxAttempts)
  {
    RetriedFacts(model, prompt);
  }

  /** `generate_output` under the decorator: the attempt loop, counting calls
      and recording each wait. */
  method GenerateOutput(model: Model, prompt: string, delay: nat -> nat)
    returns (result: Outcome, calls: nat, waits: seq<nat>)
    ensures Run(result, calls) == Retried(model, prompt)
    ensures 1 <= calls && waits == Waits(delay, calls - 1)
  {
    result := model(prompt, 0);
    calls := 1;
    waits := [];
    while result.Raised? && calls < MaxAttempts
      invariant 1 <= calls <= MaxAttempts
      invariant result == model(prompt, calls - 1)
      invariant RunFrom(model, prompt, calls - 1) == Retried(model, prompt)
      invariant waits == Waits(delay, calls - 1)
      decreases MaxAttempts - calls
    {
      waits := waits + [delay(calls)];
      result := model(prompt, calls);
      calls := calls + 1;
    }
  }
}
