/** Which errors the manager retries, and which error an activity ends up with. */
module WorkflowErrors {
  import opened Workflow

  /** How often a handler that always raises this error is called. */
  function TriesOf(e: Error, maxRetries: nat): nat {
    match e
    case UserNotFound => 1
    case InvalidPaymentMethod => 1
    case OutOfStock => 1
    case InsufficientFunds => maxRetries + 1
    case InvalidAmount => maxRetries + 1
    case ProductNotFound => maxRetries + 1
    case WrongStatus => maxRetries + 1
    case TransactionNotFound => maxRetries + 1
    case NoReservation => maxRetries + 1
    case DuplicateKey => maxRetries + 1
    case BadArguments => maxRetries + 1
    case Transient => maxRetries + 1
  }

  function Always(e: Error, n: nat): seq<Error> { seq(n, _ => e) }

  lemma AlwaysRetriedIff(e: Error, n: nat, maxRetries: nat)
    ensures AllRetried(Always(e, n), 0, maxRetries) <==> n < TriesOf(e, maxRetries)
  {
    assert n > 0 ==> Always(e, n)[0] == e;
  }

  lemma AlwaysEnds(e: Error, n: nat, maxRetries: nat, k: nat)
    requires EndsTrying(Always(e, n), 0, maxRetries, k)
    ensures k + 1 == TriesOf(e, maxRetries)
  {
    assert Always(e, n)[..k] == Always(e, k);
    AlwaysRetriedIff(e, k, maxRetries);
  }

  /** An activity whose handler raises the same error again and again is given up after exactly this
      many calls: one for an unknown user, an invalid payment method and a product out of stock, and
      one more than its retries for everything else, missing funds included. */
  lemma GivenUpAfter(init: seq<Activity>, x: Execution, e: Error, n: nat)
    requires Fresh(init) && Reachable(init, x) && x.phase == Trying(0)
    ensures x.index < |x.activities|
    ensures var tries := TriesOf(e, x.activities[x.index].maxRetries); var y := Failing(x, Always(e, n));
      && y.index == x.index
      && if n < tries then y.phase == Trying(n)
         else !y.phase.Trying? && FailedAt(y) && y.activities[y.index].retryCount == tries
  {
    var errors := Always(e, n);
    RetriedUnlessCompletable(init, x, errors);
    var m := x.activities[x.index].maxRetries;
    AlwaysRetriedIff(e, n, m);
    if n >= TriesOf(e, m) {
      var k: nat :| EndsTrying(errors, 0, m, k) && GivenUp(x, Failing(x, errors), 0, k);
      AlwaysEnds(e, n, m, k);
    }
  }

  // --- The error an activity keeps --------------------------------------------------------------

  /** What the handler of activity `j` raised last, if it ever did. */
  function LastRaised(trace: seq<Made>, j: nat): Outcome {
    if trace == [] then Returned
    else
      var m := trace[|trace| - 1];
      if m.call == Handler(j) && m.outcome.Raised? then m.outcome else LastRaised(trace[..|trace| - 1], j)
  }

  lemma ErrorStep(x: Execution, o: Outcome, j: nat)
    requires Placed(x) && j < |x.activities|
    ensures var y := Advance(x, o);
            y.activities[j].error == if x.phase.Trying? && j == x.index && o.Raised? then o else x.activities[j].error
  {
  }

  lemma LastRaisedStep(trace: seq<Made>, m: Made, j: nat)
    ensures LastRaised(trace + [m], j)
         == if m.call == Handler(j) && m.outcome.Raised? then m.outcome else LastRaised(trace, j)
  {
    assert (trace + [m])[..|trace|] == trace;
  }

  /** In every run, every activity keeps the error its handler raised last, even if a later call of it
      returned; failing compensations leave it alone. */
  lemma {:induction false} RunErrors(init: seq<Activity>, env: nat -> Outcome, n: nat, j: nat)
    requires Fresh(init) && j < |init|
    ensures |Replay(init, env, n).activities| == |init|
    ensures Replay(init, env, n).activities[j].error == LastRaised(Trace(init, env, n), j)
  {
    if n > 0 {
      RunErrors(init, env, n - 1, j);
      var x := Replay(init, env, n - 1);
      ErrorStep(x, env(n - 1), j);
      if x.phase.Finished? {
        assert Trace(init, env, n) == Trace(init, env, n - 1);
      } else {
        LastRaisedStep(Trace(init, env, n - 1), Made(NextCall(x), env(n - 1)), j);
      }
    }
  }
}
