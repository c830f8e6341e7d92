/**
 * The fixed-window limiter: a counter per user that Redis forgets when its window is over. A request
 * reads the counter at one instant and sets or increments it at a later one; the counter may expire
 * in between, and then the increment makes a new one, which never expires.
 */
module FixedWindow {
  import opened Basics

  datatype Config = Config(limit: int, window: real)

  datatype Counter = Counter(count: int, expires: Option<real>)

  datatype Request = Request(asked: real, done: real)

  predicate IsLive(c: Option<Counter>, now: real) {
    c.Some? && (c.value.expires.Some? ==> now < c.value.expires.value)
  }

  function Incremented(c: Option<Counter>, now: real): Counter {
    if IsLive(c, now) then c.value.(count := c.value.count + 1) else Counter(1, None)
  }

  datatype Decision = Open | Count | Limit

  /** What a request makes of the counter it reads. */
  function Decide(cfg: Config, c: Option<Counter>, now: real): Decision {
    if !IsLive(c, now) then Open else if c.value.count >= cfg.limit then Limit else Count
  }

  function Opened(cfg: Config, now: real): Counter { Counter(1, Some(now + cfg.window)) }

  /** The counter after a request, and whether the request was limited. */
  function Step(cfg: Config, c: Option<Counter>, r: Request): (Option<Counter>, bool) {
    match Decide(cfg, c, r.asked)
    case Open => (Some(Opened(cfg, r.done)), false)
    case Count => (Some(Incremented(c, r.done)), false)
    case Limit => (c, true)
  }

  class Limiter {
    const cfg: Config
    var counters: map<string, Counter>

    constructor (cfg: Config)
      ensures this.cfg == cfg && counters == map[]
    {
      this.cfg, counters := cfg, map[];
    }

    function CounterOf(user: string): Option<Counter>
      reads this
    {
      if user in counters then Some(counters[user]) else None
    }

    method IsRateLimited(user: string, r: Request) returns (limited: bool)
      modifies this
      ensures (CounterOf(user), limited) == Step(cfg, old(CounterOf(user)), r)
      ensures forall other :: other != user ==> CounterOf(other) == old(CounterOf(other))
    {
      var current := CounterOf(user);
      if !IsLive(current, r.asked) {
        counters := counters[user := Opened(cfg, r.done)];
        return false;
      }
      if current.value.count >= cfg.limit { return true; }
      counters := counters[user := Incremented(current, r.done)];
      return false;
    }
  }

  // --- Histories of one user --------------------------------------------------------------------

  /** The counter before request `k`. */
  function Before(cfg: Config, rs: seq<Request>, k: nat): Option<Counter>
    requires k <= |rs|
  {
    if k == 0 then None else Step(cfg, Before(cfg, rs, k - 1), rs[k - 1]).0
  }

  predicate Admitted(cfg: Config, rs: seq<Request>, k: nat)
    requires k < |rs|
  {
    !Step(cfg, Before(cfg, rs, k), rs[k]).1
  }

  /** How many of the requests from `i` up to but not including `j` were admitted. */
  function Admissions(cfg: Config, rs: seq<Request>, i: nat, j: nat): nat
    requires i <= j <= |rs|
  {
    if i == j then 0 else Admissions(cfg, rs, i, j - 1) + if Admitted(cfg, rs, j - 1) then 1 else 0
  }

  /** The request finds no counter and sets one. */
  predicate Opens(cfg: Config, rs: seq<Request>, k: nat)
    requires k < |rs|
  {
    !IsLive(Before(cfg, rs, k), rs[k].asked)
  }

  /** The request finds a counter that has expired when it is incremented. */
  predicate Slips(cfg: Config, rs: seq<Request>, k: nat)
    requires k < |rs|
  {
    var c := Before(cfg, rs, k);
    IsLive(c, rs[k].asked) && c.value.count < cfg.limit && !IsLive(c, rs[k].done)
  }

  predicate Starts(cfg: Config, rs: seq<Request>, k: nat)
    requires k < |rs|
  {
    Opens(cfg, rs, k) || Slips(cfg, rs, k)
  }

  /** The request that started the counter that request `k` leaves. */
  function Starter(cfg: Config, rs: seq<Request>, k: nat): (a: nat)
    requires k < |rs|
    ensures a <= k
  {
    if k == 0 || Starts(cfg, rs, k) then k else Starter(cfg, rs, k - 1)
  }

  /** One request after another, each asking before it is done. */
  predicate Ordered(rs: seq<Request>) {
    && (forall i :: 0 <= i < |rs| ==> rs[i].asked <= rs[i].done)
    && forall i, j :: 0 <= i < j < |rs| ==> rs[i].done <= rs[j].asked
  }

  lemma {:induction false} StarterStarts(cfg: Config, rs: seq<Request>, k: nat)
    requires k < |rs|
    ensures Starts(cfg, rs, Starter(cfg, rs, k))
  {
    if k > 0 && !Starts(cfg, rs, k) { StarterStarts(cfg, rs, k - 1); }
  }

  lemma {:induction false} AdmissionsSplit(cfg: Config, rs: seq<Request>, i: nat, m: nat, j: nat)
    requires i <= m <= j <= |rs|
    ensures Admissions(cfg, rs, i, j) == Admissions(cfg, rs, i, m) + Admissions(cfg, rs, m, j)
  {
    if m < j { AdmissionsSplit(cfg, rs, i, m, j - 1); }
  }

  lemma StarterAdmitted(cfg: Config, rs: seq<Request>, a: nat)
    requires a < |rs| && Starts(cfg, rs, a)
    ensures Admissions(cfg, rs, a, a + 1) == 1
  {
    assert Admissions(cfg, rs, a, a) == 0;
  }

  /** The counter counts what has been admitted since it was started: at most `limit` requests, or
      one if `limit` is not positive. It expires unless it was started by an increment. */
  lemma {:induction false} WindowCount(cfg: Config, rs: seq<Request>, k: nat)
    requires k < |rs| && cfg.window > 0.0
    ensures var a, c := Starter(cfg, rs, k), Before(cfg, rs, k + 1);
      && c.Some? && c.value.count == Admissions(cfg, rs, a, k + 1) && 1 <= c.value.count <= Max(1, cfg.limit)
      && c.value.expires == if Opens(cfg, rs, a) then Some(rs[a].done + cfg.window) else None
  {
    if Starts(cfg, rs, k) {
      StarterAdmitted(cfg, rs, k);
    } else {
      WindowCount(cfg, rs, k - 1);
    }
  }

  /** A request is limited exactly if `limit` requests have been let in since the counter it finds was
      started, and that counter has not expired; the first request never is. */
  lemma LimitedIff(cfg: Config, rs: seq<Request>, k: nat)
    requires cfg.window > 0.0 && k < |rs|
    ensures k == 0 ==> Admitted(cfg, rs, k)
    ensures k > 0 ==>
      var a := Starter(cfg, rs, k - 1);
      !Admitted(cfg, rs, k) <==> && Admissions(cfg, rs, a, k) >= cfg.limit
                                 && (Opens(cfg, rs, a) ==> rs[k].asked < rs[a].done + cfg.window)
  {
    if k > 0 { WindowCount(cfg, rs, k - 1); }
  }

  /** Counters start at least a window's length apart. */
  lemma StartersApart(cfg: Config, rs: seq<Request>, k: nat)
    requires Ordered(rs) && 0 < k < |rs| && cfg.window > 0.0 && Starts(cfg, rs, k)
    ensures rs[k].done >= rs[Starter(cfg, rs, k - 1)].done + cfg.window
  {
    WindowCount(cfg, rs, k - 1);
  }

  lemma StretchInWindow(cfg: Config, rs: seq<Request>, a: nat, i: nat, j: nat)
    requires a <= i <= j < |rs| && a == Starter(cfg, rs, j) && cfg.window > 0.0
    ensures Admissions(cfg, rs, i, j + 1) <= Max(1, cfg.limit) - if a < i then 1 else 0
  {
    WindowCount(cfg, rs, j);
    AdmissionsSplit(cfg, rs, a, i, j + 1);
    if a < i {
      StarterStarts(cfg, rs, j);
      StarterAdmitted(cfg, rs, a);
      AdmissionsSplit(cfg, rs, a, a + 1, i);
    }
  }

  /** If a stretch shorter than a window meets a second counter, the first started before the stretch. */
  lemma FirstStartsBefore(cfg: Config, rs: seq<Request>, i: nat, j: nat, b: nat)
    requires Ordered(rs) && cfg.window > 0.0 && i < b <= j < |rs| && rs[j].done < rs[i].done + cfg.window
        && Starts(cfg, rs, b)
    ensures Starter(cfg, rs, b - 1) < i
  {
    StartersApart(cfg, rs, b);
    assert rs[b].done <= rs[j].done;
  }

  lemma TwoWindows(cfg: Config, rs: seq<Request>, a: nat, i: nat, b: nat, j: nat)
    requires cfg.window > 0.0 && a < i < b <= j < |rs| && a == Starter(cfg, rs, b - 1) && b == Starter(cfg, rs, j)
    ensures Admissions(cfg, rs, i, j + 1) <= 2 * Max(1, cfg.limit) - 1
  {
    StretchInWindow(cfg, rs, a, i, b - 1);
    StretchInWindow(cfg, rs, b, b, j);
    AdmissionsSplit(cfg, rs, i, b, j + 1);
  }

  /** Requests `i` to `j`, done less than a window's length apart, include at most `2 * limit - 1`
      that were admitted: such a stretch meets at most two counters, and not the start of the first. */
  lemma AnyStretch(cfg: Config, rs: seq<Request>, i: nat, j: nat)
    requires Ordered(rs) && cfg.window > 0.0 && i <= j < |rs| && rs[j].done < rs[i].done + cfg.window
    ensures Admissions(cfg, rs, i, j + 1) <= 2 * Max(1, cfg.limit) - 1
  {
    var b := Starter(cfg, rs, j);
    if b <= i {
      StretchInWindow(cfg, rs, b, i, j);
    } else {
      StarterStarts(cfg, rs, j);
      FirstStartsBefore(cfg, rs, i, j, b);
      TwoWindows(cfg, rs, Starter(cfg, rs, b - 1), i, b, j);
    }
  }

  // --- The bound is reached ---------------------------------------------------------------------

  /** One request, `limit - 1` more in the middle of its window, then `limit` when it is over. */
  function Burst(cfg: Config): (rs: seq<Request>)
    requires cfg.limit >= 1
    ensures |rs| == 2 * cfg.limit
  {
    seq(2 * cfg.limit, k =>
      var t := if k == 0 then 0.0 else if k < cfg.limit then cfg.window / 2.0 else cfg.window;
      Request(t, t))
  }

  lemma {:induction false} BurstCounter(cfg: Config, k: nat)
    requires cfg.limit >= 1 && cfg.window > 0.0 && 1 <= k <= 2 * cfg.limit
    ensures Before(cfg, Burst(cfg), k)
         == Some(if k <= cfg.limit then Counter(k, Some(cfg.window))
                 else Counter(k - cfg.limit, Some(cfg.window + cfg.window)))
  {
    if k > 1 { BurstCounter(cfg, k - 1); }
  }

  lemma {:induction false} BurstAdmitted(cfg: Config, k: nat)
    requires cfg.limit >= 1 && cfg.window > 0.0 && 1 <= k <= 2 * cfg.limit
    ensures Admissions(cfg, Burst(cfg), 1, k) == k - 1
  {
    if k > 1 {
      BurstAdmitted(cfg, k - 1);
      BurstCounter(cfg, k - 1);
    }
  }

  /** No smaller bound holds, whatever the limit and the window. */
  lemma BoundIsReached(cfg: Config)
    requires cfg.limit >= 1 && cfg.window > 0.0
    ensures var rs := Burst(cfg);
      && Ordered(rs) && rs[|rs| - 1].done < rs[1].done + cfg.window
      && Admissions(cfg, rs, 1, |rs|) == 2 * cfg.limit - 1
  {
    BurstAdmitted(cfg, 2 * cfg.limit);
  }

  // --- A counter that never expires -------------------------------------------------------------

  /** A counter started by an increment is never replaced. */
  lemma {:induction false} SlippedStays(cfg: Config, rs: seq<Request>, a: nat, k: nat)
    requires cfg.window > 0.0 && a <= k < |rs| && Slips(cfg, rs, a)
    ensures Starter(cfg, rs, k) == a
  {
    if a < k {
      SlippedStays(cfg, rs, a, k - 1);
      WindowCount(cfg, rs, k - 1);
    }
  }

  /** The user is never let in more than `limit` times again, however long the history goes on. */
  lemma SlippedLocksOut(cfg: Config, rs: seq<Request>, a: nat, k: nat)
    requires cfg.window > 0.0 && a <= k < |rs| && Slips(cfg, rs, a)
    ensures Admissions(cfg, rs, a, k + 1) <= cfg.limit
  {
    SlippedStays(cfg, rs, a, k);
    WindowCount(cfg, rs, k);
    WindowCount(cfg, rs, a - 1);
  }

  /** A counter that does not expire is left exactly when some request has slipped. */
  lemma NeverExpiresIff(cfg: Config, rs: seq<Request>, k: nat)
    requires cfg.window > 0.0 && k < |rs|
    ensures Before(cfg, rs, k + 1).value.expires.None? <==> exists a: nat :: a <= k && Slips(cfg, rs, a)
  {
    WindowCount(cfg, rs, k);
    StarterStarts(cfg, rs, k);
    if a: nat :| a <= k && Slips(cfg, rs, a) {
      SlippedStays(cfg, rs, a, k);
    }
  }

  /** It does happen, with any limit above one. */
  lemma SlipHappens(cfg: Config)
    requires cfg.limit > 1 && cfg.window > 0.0
    ensures var rs := [Request(0.0, 0.0), Request(cfg.window / 2.0, cfg.window)]; Ordered(rs) && Slips(cfg, rs, 1)
  {
    var rs := [Request(0.0, 0.0), Request(cfg.window / 2.0, cfg.window)];
    assert Before(cfg, rs, 1) == Some(Counter(1, Some(cfg.window)));
  }
}
