/** The commands the orchestrator sends, in order, over a whole run. */
module OrderCommands {
  import opened OrderWorkflow

  /** The commands sent with the first `n` replies. */
  function Commands(p: Payload, env: nat -> bool, n: nat): seq<Pc> {
    if n == 0 then []
    else
      var c := Replay(p, env, n - 1);
      Commands(p, env, n - 1) + if c.pc.Ended? then [] else [c.pc]
  }

  function Reservations(k: nat): seq<Pc> { seq(k, i requires 0 <= i < k => Reserving(i)) }

  function Rollback(refused: nat, j: nat): seq<Pc> { seq(j, i requires 0 <= i < j => RollingBack(refused, i)) }

  function Releases(j: nat): seq<Pc> { seq(j, i requires 0 <= i < j => Releasing(i)) }

  /** Everything before the compensation of the inventory step, if `steps` steps were begun. */
  function BeforeReleases(p: Payload, steps: nat): seq<Pc> {
    Reservations(|ToReserve(p)|) + [Paying] + if steps == 3 then [Shipping, CancellingPayment] else []
  }

  function UpToReleases(p: Payload, steps: nat, j: nat): seq<Pc> { BeforeReleases(p, steps) + Releases(j) }

  /** Which commands lead to this point. A step that fails leaves the later ones unsent; those
      completed before it are compensated last first, the payment before the reservations, and
      within a step that fails the items reserved before the refused one are sent back. */
  predicate Leads(p: Payload, c: Control, sent: seq<Pc>) {
    var all := Reservations(|ToReserve(p)|);
    match c.pc
    case Reserving(k) => |c.log| == 1 && sent == Reservations(k)
    case RollingBack(r, j) => |c.log| == 1 && sent == Reservations(r + 1) + Rollback(r, j)
    case Paying => |c.log| == 2 && sent == all
    case Shipping => |c.log| == 3 && sent == all + [Paying]
    case CancellingPayment => |c.log| == 3 && sent == all + [Paying, Shipping]
    case Releasing(j) => 2 <= |c.log| <= 3 && sent == UpToReleases(p, |c.log|, j)
    case Ended =>
      if c.status == SagaCompleted then sent == all + [Paying, Shipping]
      else if |c.log| == 1 then exists k: nat :: k < |ToReserve(p)| && sent == Reservations(k + 1) + Rollback(k, k)
      else 2 <= |c.log| <= 3 && sent == UpToReleases(p, |c.log|, |ToRelease(p)|)
  }

  lemma OneMore(j: nat, r: nat)
    ensures Reservations(j + 1) == Reservations(j) + [Reserving(j)]
    ensures Rollback(r, j + 1) == Rollback(r, j) + [RollingBack(r, j)]
    ensures Releases(j + 1) == Releases(j) + [Releasing(j)]
  {
  }

  lemma RollbackStep(p: Payload, c: Control, sent: seq<Pc>, ok: bool)
    requires Placed(p, c) && Leads(p, c, sent) && (c.pc.Reserving? || c.pc.RollingBack?)
    ensures Leads(p, Advance(p, c, ok), sent + [c.pc])
  {
    if c.pc.Reserving? {
      var k := c.pc.k;
      OneMore(k, k);
      assert Reservations(k + 1) + Rollback(k, 0) == Reservations(k + 1);
    } else {
      var r, j := c.pc.refused, c.pc.j;
      OneMore(j, r);
      assert sent + [c.pc] == Reservations(r + 1) + Rollback(r, j + 1);
    }
  }

  lemma ReleaseStep(p: Payload, c: Control, sent: seq<Pc>, ok: bool)
    requires Placed(p, c) && Leads(p, c, sent) && c.pc.Releasing?
    ensures Leads(p, Advance(p, c, ok), sent + [c.pc])
  {
    OneMore(c.pc.j, 0);
    assert sent + [c.pc] == UpToReleases(p, |c.log|, c.pc.j + 1);
  }

  lemma StepAfterReserving(p: Payload, c: Control, sent: seq<Pc>, ok: bool)
    requires Placed(p, c) && Leads(p, c, sent) && (c.pc.Paying? || c.pc.Shipping? || c.pc.CancellingPayment?)
    ensures Leads(p, Advance(p, c, ok), sent + [c.pc])
  {
    var all := Reservations(|ToReserve(p)|);
    assert Releases(0) == [];
    match c.pc
    case Paying => assert BeforeReleases(p, 2) == all + [Paying];
    case Shipping => assert all + [Paying] + [Shipping] == all + [Paying, Shipping];
    case CancellingPayment => assert BeforeReleases(p, 3) == sent + [CancellingPayment];
  }

  /** In every run the commands sent so far are exactly those that lead to where it stands. */
  lemma {:induction false} RunLeads(p: Payload, env: nat -> bool, n: nat)
    ensures Leads(p, Replay(p, env, n), Commands(p, env, n))
  {
    if n > 0 {
      RunLeads(p, env, n - 1);
      var c, sent := Replay(p, env, n - 1), Commands(p, env, n - 1);
      if c.pc.Reserving? || c.pc.RollingBack? {
        RollbackStep(p, c, sent, env(n - 1));
      } else if c.pc.Releasing? {
        ReleaseStep(p, c, sent, env(n - 1));
      } else if !c.pc.Ended? {
        StepAfterReserving(p, c, sent, env(n - 1));
      }
    }
  }

  lemma CancelsIn(p: Payload, steps: nat, j: nat)
    ensures multiset(UpToReleases(p, steps, j))[CancellingPayment] == if steps == 3 then 1 else 0
  {
    var all, releases := Reservations(|ToReserve(p)|), Releases(j);
    var middle := if steps == 3 then [Shipping, CancellingPayment] else [];
    assert CancellingPayment !in all && CancellingPayment !in releases;
    assert multiset(all + [Paying] + middle + releases)
        == multiset(all) + multiset([Paying]) + multiset(middle) + multiset(releases);
  }

  predicate CompensatesAll(p: Payload, steps: nat, sent: seq<Pc>) {
    && multiset(sent)[CancellingPayment] == (if steps == 3 then 1 else 0)
    && sent == BeforeReleases(p, steps) + Releases(|ToRelease(p)|)
  }

  lemma FailedCompensatesAll(p: Payload, c: Control, sent: seq<Pc>)
    requires Leads(p, c, sent) && c.pc.Ended? && c.status != SagaCompleted && |c.log| != 1
    ensures CompensatesAll(p, |c.log|, sent)
  {
    CancelsIn(p, |c.log|, |ToRelease(p)|);
  }

  /** A saga that failed after its first step has cancelled the payment exactly once if shipping
      failed and never otherwise, and then sent every release, whatever the replies. */
  lemma FailureCompensatesAll(p: Payload, env: nat -> bool, n: nat)
    requires Replay(p, env, n).pc.Ended? && Replay(p, env, n).status != SagaCompleted && |Replay(p, env, n).log| != 1
    ensures CompensatesAll(p, |Replay(p, env, n).log|, Commands(p, env, n))
  {
    RunLeads(p, env, n);
    FailedCompensatesAll(p, Replay(p, env, n), Commands(p, env, n));
  }

  lemma {:induction false} SentUntilEnd(p: Payload, env: nat -> bool, n: nat)
    requires !Replay(p, env, n).pc.Ended?
    ensures |Commands(p, env, n)| == n
  {
    if n > 0 { SentUntilEnd(p, env, n - 1); }
  }

  /** Every saga ends. */
  lemma RunEnds(p: Payload, env: nat -> bool, n: nat)
    requires n >= 2 * |ToReserve(p)| + |ToRelease(p)| + 3
    ensures Replay(p, env, n).pc.Ended?
  {
    RunLeads(p, env, n);
    if !Replay(p, env, n).pc.Ended? { SentUntilEnd(p, env, n); }
  }
}
