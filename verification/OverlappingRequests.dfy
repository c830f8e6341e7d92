/**
 * The fixed-window limiter when requests of one user overlap: between reading the counter and
 * writing it, a request may see any number of others come and go.
 */
module OverlappingRequests {
  import opened Basics
  import F = FixedWindow

  datatype Event = Ask(id: nat, now: real) | Do(id: nat, now: real)

  /** The counter, and the requests that have read it and are about to set it or to increment it. */
  datatype State = State(counter: Option<F.Counter>, opening: set<nat>, counting: set<nat>)

  function Step(cfg: F.Config, s: State, e: Event): State {
    match e
    case Ask(id, now) =>
      if id in s.opening || id in s.counting then s
      else
        (match F.Decide(cfg, s.counter, now)
         case Open => s.(opening := s.opening + {id})
         case Count => s.(counting := s.counting + {id})
         case Limit => s)
    case Do(id, now) =>
      if id in s.opening then State(Some(F.Opened(cfg, now)), s.opening - {id}, s.counting)
      else if id in s.counting then State(Some(F.Incremented(s.counter, now)), s.opening, s.counting - {id})
      else s
  }

  function After(cfg: F.Config, es: seq<Event>, k: nat): State
    requires k <= |es|
  {
    if k == 0 then State(None, {}, {}) else Step(cfg, After(cfg, es, k - 1), es[k - 1])
  }

  /** The event lets a request in: it reads a counter below the limit, or none, and now writes it. */
  predicate Admits(s: State, e: Event) { e.Do? && (e.id in s.opening || e.id in s.counting) }

  function Admissions(cfg: F.Config, es: seq<Event>, i: nat, j: nat): nat
    requires i <= j <= |es|
  {
    if i == j then 0
    else Admissions(cfg, es, i, j - 1) + if Admits(After(cfg, es, j - 1), es[j - 1]) then 1 else 0
  }

  predicate Timed(es: seq<Event>) { forall i, j :: 0 <= i < j < |es| ==> es[i].now <= es[j].now }

  function InFlight(s: State): nat { |s.opening| + |s.counting| }

  /** At no time are more than `c` requests between reading and writing. */
  predicate AtMost(cfg: F.Config, es: seq<Event>, c: nat) { forall k :: 0 <= k <= |es| ==> FewAt(cfg, es, k, c) }

  predicate FewAt(cfg: F.Config, es: seq<Event>, k: nat, c: nat)
    requires k <= |es|
  {
    InFlight(After(cfg, es, k)) <= c
  }

  function CountOf(s: State): int { if s.counter.Some? then s.counter.value.count else 0 }

  /** The most a counter can count if `n` requests share it: each that increments it read it below
      the limit `m`, which is at least one. */
  function Capacity(m: nat, n: nat): int { if m <= 1 then 1 else m - 1 + n }

  predicate Ok(s: State, m: nat, c: nat) {
    && s.opening !! s.counting && (s.counter.Some? ==> s.counter.value.count >= 1)
    && (m <= 1 ==> s.counting == {}) && CountOf(s) + |s.counting| <= Capacity(m, c)
  }

  lemma StepOk(cfg: F.Config, s: State, e: Event, m: nat, c: nat)
    requires m == Max(1, cfg.limit) && c >= 1 && Ok(s, m, c) && InFlight(s) <= c && InFlight(Step(cfg, s, e)) <= c
    ensures Ok(Step(cfg, s, e), m, c)
  {
  }

  lemma {:induction false} RunOk(cfg: F.Config, es: seq<Event>, k: nat, m: nat, c: nat)
    requires m == Max(1, cfg.limit) && c >= 1 && AtMost(cfg, es, c) && k <= |es|
    ensures Ok(After(cfg, es, k), m, c)
  {
    if k > 0 {
      RunOk(cfg, es, k - 1, m, c);
      assert FewAt(cfg, es, k - 1, c) && FewAt(cfg, es, k, c);
      StepOk(cfg, After(cfg, es, k - 1), es[k - 1], m, c);
    }
  }

  // --- A stretch of events ----------------------------------------------------------------------

  /** The most that `n` counters can count one after the other, if the first is shared by one request
      in flight, the second by two, and so on. */
  function Shared(m: nat, n: nat): nat {
    if n == 0 then 0 else Shared(m, n - 1) + Capacity(m, n)
  }

  lemma {:induction false} SharedGrows(m: nat, n: nat, n': nat)
    requires n <= n'
    ensures Shared(m, n) <= Shared(m, n')
  {
    if n < n' { SharedGrows(m, n, n' - 1); }
  }

  /** No counter was started in the stretch so far: all it let in was added to the one there was. */
  predicate NotStarted(s: State, admitted: nat) { admitted == 0 || admitted <= CountOf(s) - 1 }

  /** One was: it stays live until `end`, so nobody else comes to start one, and those who were about
      to are `opening`. */
  predicate Started(s: State, admitted: nat, m: nat, c: nat, end: real) {
    && s.counter.Some? && (s.counter.value.expires.Some? ==> s.counter.value.expires.value >= end)
    && |s.opening| <= c - 1 && CountOf(s) + |s.counting| <= Capacity(m, c - |s.opening|)
    && admitted <= Capacity(m, c) - 1 + Shared(m, c - 1 - |s.opening|) + CountOf(s)
  }

  predicate InStretch(s: State, admitted: nat, m: nat, c: nat, end: real) {
    Ok(s, m, c) && (NotStarted(s, admitted) || Started(s, admitted, m, c, end))
  }

  lemma NextInStretch(cfg: F.Config, s: State, e: Event, admitted: nat, m: nat, c: nat, end: real)
    requires m == Max(1, cfg.limit) && c >= 1 && InFlight(s) <= c && InFlight(Step(cfg, s, e)) <= c
    requires e.now + cfg.window >= end > e.now && InStretch(s, admitted, m, c, end)
    ensures InStretch(Step(cfg, s, e), admitted + if Admits(s, e) then 1 else 0, m, c, end)
  {
    StepOk(cfg, s, e, m, c);
    if NotStarted(s, admitted) {
      FirstStart(cfg, s, e, admitted, m, c, end);
    } else {
      NextStart(cfg, s, e, admitted, m, c, end);
    }
  }

  lemma FirstStart(cfg: F.Config, s: State, e: Event, admitted: nat, m: nat, c: nat, end: real)
    requires m == Max(1, cfg.limit) && c >= 1 && Ok(s, m, c) && InFlight(s) <= c && e.now + cfg.window >= end > e.now
    requires NotStarted(s, admitted)
    ensures var s', admitted' := Step(cfg, s, e), admitted + if Admits(s, e) then 1 else 0;
            NotStarted(s', admitted') || Started(s', admitted', m, c, end)
  {
  }

  lemma NextStart(cfg: F.Config, s: State, e: Event, admitted: nat, m: nat, c: nat, end: real)
    requires m == Max(1, cfg.limit) && c >= 1 && Ok(s, m, c) && InFlight(s) <= c && InFlight(Step(cfg, s, e)) <= c
    requires e.now + cfg.window >= end > e.now && Started(s, admitted, m, c, end)
    ensures Started(Step(cfg, s, e), admitted + if Admits(s, e) then 1 else 0, m, c, end)
  {
    if e.Do? && e.id in s.opening {
      assert |s.opening - {e.id}| == |s.opening| - 1;
      assert Shared(m, c - |s.opening|) == Shared(m, c - 1 - |s.opening|) + Capacity(m, c - |s.opening|);
    }
  }

  /** The events from `i` up to but not including `j` lie within the window that ends with `end`. */
  predicate Within(es: seq<Event>, i: nat, j: nat, window: real, end: real)
    requires i <= j <= |es|
  {
    forall k :: i <= k < j ==> es[k].now < end <= es[k].now + window
  }

  lemma {:induction false} Stretch(cfg: F.Config, es: seq<Event>, i: nat, j: nat, m: nat, c: nat, end: real)
    requires m == Max(1, cfg.limit) && c >= 1 && AtMost(cfg, es, c) && i <= j <= |es|
        && Within(es, i, j, cfg.window, end)
    ensures InStretch(After(cfg, es, j), Admissions(cfg, es, i, j), m, c, end)
  {
    if i < j {
      Stretch(cfg, es, i, j - 1, m, c, end);
      assert FewAt(cfg, es, j - 1, c) && FewAt(cfg, es, j, c);
      NextInStretch(cfg, After(cfg, es, j - 1), es[j - 1], Admissions(cfg, es, i, j - 1), m, c, end);
    } else {
      RunOk(cfg, es, i, m, c);
    }
  }

  /** The most that a stretch shorter than a window lets in if at most `c` requests overlap. */
  function Bound(m: nat, c: nat): int { Capacity(m, c) - 1 + Shared(m, c) }

  lemma WithinBound(s: State, admitted: nat, m: nat, c: nat, end: real)
    requires m >= 1 && c >= 1 && InStretch(s, admitted, m, c, end)
    ensures admitted <= Bound(m, c)
  {
    SharedGrows(m, 1, c);
    assert Shared(m, 0) == 0;
    if !NotStarted(s, admitted) {
      assert Shared(m, c - |s.opening|) == Shared(m, c - |s.opening| - 1) + Capacity(m, c - |s.opening|);
      SharedGrows(m, c - |s.opening|, c);
    }
  }

  lemma StretchBounded(cfg: F.Config, es: seq<Event>, i: nat, j: nat, c: nat, end: real)
    requires c >= 1 && AtMost(cfg, es, c) && i <= j <= |es| && Within(es, i, j, cfg.window, end)
    ensures Admissions(cfg, es, i, j) <= Bound(Max(1, cfg.limit), c)
  {
    Stretch(cfg, es, i, j, Max(1, cfg.limit), c, end);
    WithinBound(After(cfg, es, j), Admissions(cfg, es, i, j), Max(1, cfg.limit), c, end);
  }

  /** If at most `c` requests overlap, the events `i` to `j`, less than a window's length apart, let
      in at most `Bound`. */
  lemma AnyStretch(cfg: F.Config, es: seq<Event>, i: nat, j: nat, c: nat)
    requires Timed(es) && AtMost(cfg, es, c) && c >= 1 && i <= j < |es| && es[j].now < es[i].now + cfg.window
    ensures Admissions(cfg, es, i, j + 1) <= Bound(Max(1, cfg.limit), c)
  {
    TimesWithin(es, i, j, es[i].now + cfg.window, cfg.window);
    StretchBounded(cfg, es, i, j + 1, c, es[i].now + cfg.window);
  }

  lemma TimesWithin(es: seq<Event>, i: nat, j: nat, end: real, window: real)
    requires Timed(es) && i <= j < |es| && end == es[i].now + window && es[j].now < end
    ensures Within(es, i, j + 1, window, end)
  {
  }

  /** One at a time, that is `2 * limit - 1`. */
  lemma BoundOfOne(m: nat)
    requires m >= 1
    ensures Bound(m, 1) == 2 * m - 1
  {
    assert Shared(m, 0) == 0;
  }

  // --- What the bound depends on ----------------------------------------------------------------

  /** `n` requests that all read the counter before the first writes it, all at one instant. */
  function AllAtOnce(n: nat): (es: seq<Event>)
    ensures |es| == 2 * n
  {
    seq(2 * n, k requires 0 <= k < 2 * n => if k < n then Ask(k, 0.0) else Do(2 * n - 1 - k, 0.0))
  }

  function Ids(n: nat): (ids: set<nat>)
    ensures forall id :: id in ids ==> id < n
  {
    if n == 0 then {} else Ids(n - 1) + {n - 1}
  }

  lemma {:induction false} AllAsk(cfg: F.Config, n: nat, k: nat)
    requires k <= n
    ensures After(cfg, AllAtOnce(n), k) == State(None, Ids(k), {})
  {
    if k > 0 { AllAsk(cfg, n, k - 1); }
  }

  lemma {:induction false} AllDo(cfg: F.Config, n: nat, k: nat)
    requires k <= n
    ensures var s := After(cfg, AllAtOnce(n), n + k); s.opening == Ids(n - k) && s.counting == {}
    ensures Admissions(cfg, AllAtOnce(n), n, n + k) == k
  {
    AllAsk(cfg, n, n);
    if k > 0 { AllDo(cfg, n, k - 1); }
  }

  /** Without a bound on how many requests overlap there is none on how many are let in, whatever the
      limit and the window. */
  lemma Unbounded(cfg: F.Config, n: nat)
    ensures Timed(AllAtOnce(n)) && Admissions(cfg, AllAtOnce(n), n, 2 * n) == n
  {
    AllDo(cfg, n, n);
  }

  /** Requests that do not overlap, as events. */
  function OneByOne(rs: seq<F.Request>): (es: seq<Event>)
    ensures |es| == 2 * |rs|
  {
    seq(2 * |rs|, k requires 0 <= k < 2 * |rs| =>
      if k % 2 == 0 then Ask(k / 2, rs[k / 2].asked) else Do(k / 2, rs[k / 2].done))
  }

  lemma OneRequest(cfg: F.Config, c: Option<F.Counter>, id: nat, r: F.Request)
    ensures var s := Step(cfg, State(c, {}, {}), Ask(id, r.asked));
      && Step(cfg, s, Do(id, r.done)) == State(F.Step(cfg, c, r).0, {}, {})
      && (Admits(s, Do(id, r.done)) <==> !F.Step(cfg, c, r).1)
  {
  }

  lemma OneByOneAt(rs: seq<F.Request>, k: nat)
    requires k < |rs|
    ensures OneByOne(rs)[2 * k] == Ask(k, rs[k].asked) && OneByOne(rs)[2 * k + 1] == Do(k, rs[k].done)
  {
  }

  lemma TwoEvents(cfg: F.Config, es: seq<Event>, k: nat)
    requires k + 2 <= |es|
    ensures After(cfg, es, k + 2) == Step(cfg, Step(cfg, After(cfg, es, k), es[k]), es[k + 1])
    ensures Admissions(cfg, es, 0, k + 2) == Admissions(cfg, es, 0, k)
      + (if Admits(After(cfg, es, k), es[k]) then 1 else 0)
      + if Admits(Step(cfg, After(cfg, es, k), es[k]), es[k + 1]) then 1 else 0
  {
    assert After(cfg, es, k + 1) == Step(cfg, After(cfg, es, k), es[k]);
    assert Admissions(cfg, es, 0, k + 1)
        == Admissions(cfg, es, 0, k) + if Admits(After(cfg, es, k), es[k]) then 1 else 0;
  }

  /** They are then the histories of `FixedWindow`. */
  lemma {:induction false} OneByOneIsHistory(cfg: F.Config, rs: seq<F.Request>, k: nat)
    requires k <= |rs|
    ensures After(cfg, OneByOne(rs), 2 * k) == State(F.Before(cfg, rs, k), {}, {})
    ensures Admissions(cfg, OneByOne(rs), 0, 2 * k) == F.Admissions(cfg, rs, 0, k)
  {
    if k > 0 {
      OneByOneIsHistory(cfg, rs, k - 1);
      OneByOneAt(rs, k - 1);
      TwoEvents(cfg, OneByOne(rs), 2 * (k - 1));
      OneRequest(cfg, F.Before(cfg, rs, k - 1), k - 1, rs[k - 1]);
    }
  }
}
