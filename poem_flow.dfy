/** The server-side flow that turns keywords into a poem: one remote prompt
    call wrapped in a bounded retry loop with exponential backoff. The remote
    prompt is an oracle, a sequence of pre-decided outcomes, one for each call
    the loop may make; every backoff wait is recorded as a duration in a log. */
module PoemFlow {
  import opened JsStrings

  /** The flow's input record: the comma-joined keywords and an optional style. */
  datatype PoemInput = PoemInput(keywords: string, style: Option<string>)

  /** The flow's output record. */
  datatype PoemOutput = PoemOutput(poem: string)

  /** What one call of the remote prompt does: resolve with an output, or
      reject with an error whose message is given. */
  datatype PromptOutcome = Resolved(output: PoemOutput) | Rejected(message: string)

  /** How one run of the flow ends: it returns an output, rethrows the error
      of an attempt, or throws its own error after the loop. */
  datatype FlowResult =
    | Returned(output: PoemOutput)
    | Rethrown(message: string)
    | GaveUp(message: string)

  const MaxRetries: nat := 3
  /** The first backoff wait, in milliseconds. */
  const InitialDelay: nat := 1000
  /** The text whose presence in an error message marks a 503 failure. */
  const UnavailableMarker: string := "[503"
  const ExhaustedMessage: string := "Poem generation failed after multiple retries."

  /** The error says the service is temporarily unavailable. A missing
      message behaves as the empty one: neither contains the marker. */
  predicate IsUnavailable(message: string)
    ensures IsUnavailable(message) ==> |message| >= |UnavailableMarker|
    ensures UnavailableMarker <= message ==> IsUnavailable(message)
  {
    Includes(message, UnavailableMarker)
  }

  /** An outcome that the loop retries when attempts are left. */
  predicate Retryable(o: PromptOutcome)
    ensures o.Resolved? ==> !Retryable(o)
    ensures o.Rejected? ==> (Retryable(o) <==> IsUnavailable(o.message))
  {
    o.Rejected? && IsUnavailable(o.message)
  }

  function Pow2(n: nat): (r: nat)
    ensures r >= 1
  {
    if n == 0 then 1 else 2 * Pow2(n - 1)
  }

  function Sum(s: seq<nat>): nat {
    if |s| == 0 then 0 else Sum(s[..|s| - 1]) + s[|s| - 1]
  }

  // ---------------------------------------------------------------------
  // Specification of one run

  /** The attempt at which a run stops, searching from `from` on. */
  function StopFrom(outcomes: seq<PromptOutcome>, from: nat): (k: nat)
    requires from < MaxRetries <= |outcomes|
    requires forall j :: 0 <= j < from ==> Retryable(outcomes[j])
    ensures from <= k < MaxRetries
    ensures forall j :: 0 <= j < k ==> Retryable(outcomes[j])
    ensures k < MaxRetries - 1 ==> !Retryable(outcomes[k])
    decreases MaxRetries - from
  {
    if from == MaxRetries - 1 || !Retryable(outcomes[from]) then from
    else StopFrom(outcomes, from + 1)
  }

  /** The index of the last attempt of a run: the first attempt that is not
      a 503 rejection, or the final attempt allowed when all before it were. */
  function StopAttempt(outcomes: seq<PromptOutcome>): (k: nat)
    requires MaxRetries <= |outcomes|
    ensures k < MaxRetries
    ensures forall j :: 0 <= j < k ==> Retryable(outcomes[j])
    ensures k < MaxRetries - 1 ==> !Retryable(outcomes[k])
  {
    StopFrom(outcomes, 0)
  }

  /** The waits made before attempt `k`: the delay starts at
      `InitialDelay` and doubles after every wait. */
  function Backoff(k: nat): (w: seq<nat>)
    ensures |w| == k
    ensures forall j :: 0 <= j < k ==> w[j] == InitialDelay * Pow2(j)
  {
    if k == 0 then [] else Backoff(k - 1) + [InitialDelay * Pow2(k - 1)]
  }

  /** What the stopping attempt makes of the run: its output is returned,
      its error is rethrown unchanged. */
  function Verdict(o: PromptOutcome): (r: FlowResult)
    ensures !r.GaveUp?
    ensures o.Resolved? <==> r.Returned?
    ensures r.Returned? ==> r.output == o.output
    ensures r.Rethrown? ==> r.message == o.message
  {
    match o
    case Resolved(output) => Returned(output)
    case Rejected(message) => Rethrown(message)
  }

  // ---------------------------------------------------------------------
  // The loop

  /** One run of the flow on `input`: the remote prompt's i-th call gives
      `outcomes[i]`. Returns how the run ends, the requests sent to the prompt
      and the waits made, in order. */
  method GeneratePoemFromKeywords(input: PoemInput, outcomes: seq<PromptOutcome>)
    returns (result: FlowResult, sent: seq<PoemInput>, waits: seq<nat>)
    requires MaxRetries <= |outcomes|
    ensures !result.GaveUp?
    ensures |sent| == StopAttempt(outcomes) + 1 <= MaxRetries
    ensures forall j :: 0 <= j < |sent| ==> sent[j] == input
    ensures result == Verdict(outcomes[StopAttempt(outcomes)])
    ensures waits == Backoff(StopAttempt(outcomes))
  {
    var baseDelay := InitialDelay;
    sent, waits := [], [];
    var i := 0;
    while i < MaxRetries
      invariant i < MaxRetries
      invariant |sent| == i && forall j :: 0 <= j < i ==> sent[j] == input
      invariant forall j :: 0 <= j < i ==> Retryable(outcomes[j])
      invariant baseDelay == InitialDelay * Pow2(i)
      invariant waits == Backoff(i)
    {
      sent := sent + [input];
      match outcomes[i] {
        case Resolved(output) =>
          StopsAt(outcomes, i);
          result := Returned(output);
          return;
        case Rejected(message) =>
          if IsUnavailable(message) && i < MaxRetries - 1 {
            waits := waits + [baseDelay];
            baseDelay := baseDelay * 2;
          } else {
            StopsAt(outcomes, i);
            result := Rethrown(message);
            return;
          }
      }
      i := i + 1;
    }
    result := GaveUp(ExhaustedMessage);
  }

  /** The characterisation of `StopAttempt` pins down its value. */
  lemma StopsAt(outcomes: seq<PromptOutcome>, i: nat)
    requires MaxRetries <= |outcomes| && i < MaxRetries
    requires forall j :: 0 <= j < i ==> Retryable(outcomes[j])
    requires i < MaxRetries - 1 ==> !Retryable(outcomes[i])
    ensures StopAttempt(outcomes) == i
  {
  }

  // ---------------------------------------------------------------------
  // Properties of a run

  /** The total time spent waiting before attempt `k` is
      `InitialDelay * (2^k - 1)`. */
  lemma {:induction false} BackoffTotal(k: nat)
    ensures Sum(Backoff(k)) == InitialDelay * (Pow2(k) - 1)
  {
    if k > 0 {
      BackoffTotal(k - 1);
      var w := Backoff(k);
      assert w[..k - 1] == Backoff(k - 1);
    }
  }

  /** The first wait is `InitialDelay` and each later wait doubles the one
      before it. */
  lemma BackoffDoubles(k: nat, j: nat)
    requires 0 < k && j + 1 < k
    ensures Backoff(k)[0] == InitialDelay
    ensures Backoff(k)[j + 1] == 2 * Backoff(k)[j]
  {
  }

  /** After `k` 503 rejections, a resolved attempt `k` ends the run: its
      output is returned, `k + 1` calls were made, and the waits total
      `InitialDelay * (2^k - 1)`. */
  lemma ResolvedAfterRetries(outcomes: seq<PromptOutcome>, k: nat)
    requires MaxRetries <= |outcomes| && k < MaxRetries
    requires forall j :: 0 <= j < k ==> Retryable(outcomes[j])
    requires outcomes[k].Resolved?
    ensures StopAttempt(outcomes) == k
    ensures Verdict(outcomes[StopAttempt(outcomes)]) == Returned(outcomes[k].output)
    ensures Sum(Backoff(StopAttempt(outcomes))) == InitialDelay * (Pow2(k) - 1)
  {
    StopsAt(outcomes, k);
    BackoffTotal(k);
  }

  /** A rejection whose message lacks the 503 marker stops the run at once:
      that very error is rethrown and no wait follows it. */
  lemma PermanentFailureStops(outcomes: seq<PromptOutcome>, k: nat)
    requires MaxRetries <= |outcomes| && k < MaxRetries
    requires forall j :: 0 <= j < k ==> Retryable(outcomes[j])
    requires outcomes[k].Rejected? && !IsUnavailable(outcomes[k].message)
    ensures StopAttempt(outcomes) == k
    ensures Verdict(outcomes[StopAttempt(outcomes)]) == Rethrown(outcomes[k].message)
    ensures |Backoff(StopAttempt(outcomes))| == k
  {
    StopsAt(outcomes, k);
  }

  /** A first attempt rejected without the 503 marker: one call, no wait. */
  lemma PermanentFirstFailure(outcomes: seq<PromptOutcome>)
    requires MaxRetries <= |outcomes|
    requires outcomes[0].Rejected? && !IsUnavailable(outcomes[0].message)
    ensures StopAttempt(outcomes) == 0
    ensures Backoff(StopAttempt(outcomes)) == []
    ensures Verdict(outcomes[StopAttempt(outcomes)]) == Rethrown(outcomes[0].message)
  {
    PermanentFailureStops(outcomes, 0);
  }

  /** When every attempt is a 503 rejection, all three calls are made, the
      waits are 1000 ms then 2000 ms, and the third error is rethrown even
      though it is a 503. */
  lemma AllUnavailable(outcomes: seq<PromptOutcome>)
    requires MaxRetries <= |outcomes|
    requires forall j :: 0 <= j < MaxRetries ==> Retryable(outcomes[j])
    ensures StopAttempt(outcomes) == MaxRetries - 1 && outcomes[2].Rejected?
    ensures Backoff(StopAttempt(outcomes)) == [1000, 2000]
    ensures Verdict(outcomes[StopAttempt(outcomes)]) == Rethrown(outcomes[2].message)
  {
    StopsAt(outcomes, MaxRetries - 1);
    assert Backoff(2) == [1000, 2000];
  }

  /** An error message holds the 503 marker exactly when "[503" occurs in it. */
  lemma UnavailableIffMarker(message: string)
    ensures IsUnavailable(message) <==> exists i :: OccursAt(message, UnavailableMarker, i)
  {
    IncludesIffOccurs(message, UnavailableMarker);
  }
}
