/** What the sliding-window log admits when requests read the same time. */
module EqualTimes {
  import opened Basics
  import opened SlidingWindow

  /** How many of the requests from `i` up to but not including `j` read time `t`. */
  function CountAt(ts: seq<real>, i: nat, j: nat, t: real): nat
    requires i <= j <= |ts|
  {
    if i == j then 0 else CountAt(ts, i, j - 1, t) + if ts[j - 1] == t then 1 else 0
  }

  ghost predicate AtMostEach(ts: seq<real>, i: nat, j: nat, c: nat)
    requires i <= j <= |ts|
  {
    forall t :: CountAt(ts, i, j, t) <= c
  }

  // --- The bound --------------------------------------------------------------------------------

  /** How many of them were admitted at one of these times. */
  function AdmissionsIn(vs: seq<bool>, ts: seq<real>, i: nat, j: nat, times: set<real>): nat
    requires i <= j <= |ts| == |vs|
  {
    if i == j then 0
    else AdmissionsIn(vs, ts, i, j - 1, times) + if vs[j - 1] && ts[j - 1] in times then 1 else 0
  }

  lemma {:induction false} AdmissionsWithin(vs: seq<bool>, ts: seq<real>, i: nat, j: nat, times: set<real>)
    requires i <= j <= |ts| == |vs| && AdmittedInstants(vs, ts, i, j) <= times
    ensures AdmissionsIn(vs, ts, i, j, times) == Admissions(vs, i, j)
  {
    if i < j { AdmissionsWithin(vs, ts, i, j - 1, times); }
  }

  lemma {:induction false} SplitTime(vs: seq<bool>, ts: seq<real>, i: nat, j: nat, times: set<real>, t: real)
    requires i <= j <= |ts| == |vs| && t in times
    ensures AdmissionsIn(vs, ts, i, j, times) <= AdmissionsIn(vs, ts, i, j, times - {t}) + CountAt(ts, i, j, t)
  {
    if i < j { SplitTime(vs, ts, i, j - 1, times, t); }
  }

  lemma Pick<T>(s: set<T>) returns (x: T)
    requires s != {}
    ensures x in s
  {
    x :| x in s;
  }

  lemma {:induction false} AtMostPerTime(vs: seq<bool>, ts: seq<real>, i: nat, j: nat, times: set<real>, c: nat)
    requires i <= j <= |ts| == |vs| && AtMostEach(ts, i, j, c)
    ensures AdmissionsIn(vs, ts, i, j, times) <= c * |times|
    decreases |times|
  {
    if times == {} {
      NoTimes(vs, ts, i, j);
    } else {
      var t := Pick(times);
      AtMostPerTime(vs, ts, i, j, times - {t}, c);
      SplitTime(vs, ts, i, j, times, t);
      assert CountAt(ts, i, j, t) <= c && c * |times| == c * (|times| - 1) + c;
    }
  }

  lemma {:induction false} NoTimes(vs: seq<bool>, ts: seq<real>, i: nat, j: nat)
    requires i <= j <= |ts| == |vs|
    ensures AdmissionsIn(vs, ts, i, j, {}) == 0
  {
    if i < j { NoTimes(vs, ts, i, j - 1); }
  }

  /** If at most `c` requests of a stretch shorter than a window read the same time, it admits at most
      `c * limit`. */
  lemma AnyStretchAtMost(cfg: Config, ts: seq<real>, i: nat, j: nat, c: nat)
    requires Ordered(ts) && cfg.window > 0.0 && i <= j < |ts| && ts[j] < ts[i] + cfg.window
    requires AtMostEach(ts, i, j + 1, c)
    ensures Admissions(Verdicts(cfg, ts), i, j + 1) <= c * Max(0, cfg.limit)
  {
    var vs := Verdicts(cfg, ts);
    var times := AdmittedInstants(vs, ts, i, j + 1);
    AnyStretch(cfg, ts, i, j);
    AdmissionsWithin(vs, ts, i, j + 1, times);
    AtMostPerTime(vs, ts, i, j + 1, times, c);
    TimesMonotone(c, |times|, Max(0, cfg.limit));
  }

  lemma TimesMonotone(c: nat, a: nat, b: int)
    requires a <= b
    ensures c * a <= c * b
  {
  }

  // --- The bound is reached ---------------------------------------------------------------------

  /** Each instant is halfway from the one before to the end of the window. */
  function Instant(n: nat, window: real): (t: real)
    requires window > 0.0
    ensures 0.0 <= t < window
  {
    if n == 0 then 0.0 else (Instant(n - 1, window) + window) / 2.0
  }

  function InstantsUpTo(n: nat, window: real): (times: set<real>)
    requires window > 0.0
    ensures |times| <= n
  {
    if n == 0 then {} else InstantsUpTo(n - 1, window) + {Instant(n - 1, window)}
  }

  /** `c` requests at each of `n` instants. */
  function Repeated(n: nat, c: nat, window: real): seq<real>
    requires window > 0.0
  {
    if n == 0 then [] else Repeated(n - 1, c, window) + seq(c, _ => Instant(n - 1, window))
  }

  lemma {:induction false} RepeatedLength(n: nat, c: nat, window: real)
    requires window > 0.0
    ensures |Repeated(n, c, window)| == n * c
  {
    if n > 0 {
      RepeatedLength(n - 1, c, window);
      assert n * c == (n - 1) * c + c;
    }
  }

  /** In order, and before the next instant. */
  predicate OrderedBefore(ts: seq<real>, t: real) { Ordered(ts) && forall i :: 0 <= i < |ts| ==> ts[i] < t }

  lemma Followed(ts: seq<real>, t: real, c: nat, next: real)
    requires OrderedBefore(ts, t) && 0.0 <= t < next
    ensures OrderedBefore(ts + seq(c, _ => t), next)
  {
  }

  lemma {:induction false} RepeatedOrdered(n: nat, c: nat, window: real)
    requires window > 0.0
    ensures OrderedBefore(Repeated(n, c, window), Instant(n, window))
  {
    if n > 0 {
      RepeatedOrdered(n - 1, c, window);
      Followed(Repeated(n - 1, c, window), Instant(n - 1, window), c, Instant(n, window));
    }
  }

  predicate Among(ts: seq<real>, times: set<real>) { forall m :: 0 <= m < |ts| ==> ts[m] in times }

  lemma AmongMore(ts: seq<real>, times: set<real>, t: real, c: nat)
    requires Among(ts, times)
    ensures Among(ts + seq(c, _ => t), times + {t})
  {
    var next := ts + seq(c, _ => t);
    forall m | 0 <= m < |next| ensures next[m] in times + {t} {
      if m < |ts| { assert next[m] == ts[m]; } else { assert next[m] == t; }
    }
  }

  lemma {:induction false} RepeatedAmong(n: nat, c: nat, window: real)
    requires window > 0.0
    ensures Among(Repeated(n, c, window), InstantsUpTo(n, window))
  {
    if n > 0 {
      RepeatedAmong(n - 1, c, window);
      AmongMore(Repeated(n - 1, c, window), InstantsUpTo(n - 1, window), Instant(n - 1, window), c);
    }
  }

  lemma {:induction false} CountOfSum(a: seq<real>, b: seq<real>, k: nat, t: real)
    requires k <= |b|
    ensures CountAt(a + b, 0, |a| + k, t) == CountAt(a, 0, |a|, t) + CountAt(b, 0, k, t)
  {
    if k > 0 { CountOfSum(a, b, k - 1, t); } else { CountOfPrefix(a, b, |a|, t); }
  }

  lemma {:induction false} CountOfPrefix(a: seq<real>, b: seq<real>, k: nat, t: real)
    requires k <= |a|
    ensures CountAt(a + b, 0, k, t) == CountAt(a, 0, k, t)
  {
    if k > 0 { CountOfPrefix(a, b, k - 1, t); }
  }

  lemma {:induction false} CountNone(ts: seq<real>, k: nat, t: real)
    requires k <= |ts| && t !in ts
    ensures CountAt(ts, 0, k, t) == 0
  {
    if k > 0 { CountNone(ts, k - 1, t); }
  }

  lemma {:induction false} CountAtMostLength(ts: seq<real>, k: nat, t: real)
    requires k <= |ts|
    ensures CountAt(ts, 0, k, t) <= k
  {
    if k > 0 { CountAtMostLength(ts, k - 1, t); }
  }

  lemma {:induction false} RepeatedCount(n: nat, c: nat, window: real, t: real)
    requires window > 0.0
    ensures CountAt(Repeated(n, c, window), 0, |Repeated(n, c, window)|, t) <= c
  {
    if n > 0 {
      var before, block := Repeated(n - 1, c, window), seq(c, _ => Instant(n - 1, window));
      RepeatedCount(n - 1, c, window, t);
      RepeatedOrdered(n - 1, c, window);
      CountOfSum(before, block, c, t);
      if t == Instant(n - 1, window) {
        CountNone(before, |before|, t);
        CountAtMostLength(block, c, t);
      } else {
        CountNone(block, c, t);
      }
    }
  }

  lemma {:induction false} InstantsAmong(ts: seq<real>, k: nat, times: set<real>)
    requires k < |ts| && Among(ts, times)
    ensures Instants(ts, 0, k) <= times
  {
    if k > 0 { InstantsAmong(ts, k - 1, times); }
  }

  lemma RepeatedAdmitted(cfg: Config, c: nat, k: nat)
    requires cfg.window > 0.0 && cfg.limit >= 1 && k < |Repeated(cfg.limit, c, cfg.window)|
    ensures Admitted(cfg, Repeated(cfg.limit, c, cfg.window), k)
  {
    var ts, times := Repeated(cfg.limit, c, cfg.window), InstantsUpTo(cfg.limit, cfg.window);
    RepeatedOrdered(cfg.limit, c, cfg.window);
    RepeatedAmong(cfg.limit, c, cfg.window);
    InstantsAmong(ts, k, times);
    SubsetSize(InWindow(cfg, ts, k), times);
    AdmittedIff(cfg, ts, k);
  }

  lemma {:induction false} AllAdmitted(vs: seq<bool>, k: nat)
    requires k <= |vs| && forall i :: 0 <= i < |vs| ==> vs[i]
    ensures Admissions(vs, 0, k) == k
  {
    if k > 0 { AllAdmitted(vs, k - 1); }
  }

  /** For every limit, window and `c` some history within a window has at most `c` requests at each
      time and admits `c * limit`. */
  lemma BoundIsReached(cfg: Config, c: nat) returns (ts: seq<real>)
    requires cfg.window > 0.0 && cfg.limit >= 1 && c >= 1
    ensures Ordered(ts) && |ts| > 0 && ts[|ts| - 1] < ts[0] + cfg.window && AtMostEach(ts, 0, |ts|, c)
    ensures Admissions(Verdicts(cfg, ts), 0, |ts|) == c * cfg.limit
  {
    ts := Repeated(cfg.limit, c, cfg.window);
    RepeatedLength(cfg.limit, c, cfg.window);
    RepeatedOrdered(cfg.limit, c, cfg.window);
    TimesMonotone(c, 1, cfg.limit);
    forall t ensures CountAt(ts, 0, |ts|, t) <= c { RepeatedCount(cfg.limit, c, cfg.window, t); }
    var vs := Verdicts(cfg, ts);
    forall k | 0 <= k < |vs| ensures vs[k] { RepeatedAdmitted(cfg, c, k); }
    AllAdmitted(vs, |ts|);
  }
}
