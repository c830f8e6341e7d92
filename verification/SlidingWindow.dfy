/**
 * The sliding-window log: a sorted set per client holds the times of its requests, admitted or not.
 * Every check prunes what has left the window, adds the present time, counts, and lets the whole
 * log expire a window later.
 */
module SlidingWindow {
  import opened Basics

  datatype Config = Config(limit: int, window: real)

  /** Members are made from their scores, so equal times are one member. */
  datatype Log = Log(entries: set<real>, expires: real)

  function Entries(l: Option<Log>, now: real): set<real> {
    if l.Some? && now < l.value.expires then l.value.entries else {}
  }

  /** Redis removes the scores from 0 to the start of the window, both included. */
  function Pruned(entries: set<real>, start: real): set<real> {
    set s | s in entries && !(0.0 <= s <= start)
  }

  function Step(cfg: Config, l: Option<Log>, now: real): Log {
    Log(Pruned(Entries(l, now), now - cfg.window) + {now}, now + cfg.window)
  }

  class Limiter {
    const cfg: Config
    var logs: map<string, Log>

    constructor (cfg: Config)
      ensures this.cfg == cfg && logs == map[]
    {
      this.cfg, logs := cfg, map[];
    }

    function LogOf(client: string): Option<Log>
      reads this
    {
      if client in logs then Some(logs[client]) else None
    }

    method CheckRateLimit(client: string, now: real) returns (allowed: bool, remaining: nat, reset: int)
      modifies this
      ensures LogOf(client) == Some(Step(cfg, old(LogOf(client)), now))
      ensures forall other :: other != client ==> LogOf(other) == old(LogOf(other))
      ensures var count := |LogOf(client).value.entries|;
        (allowed <==> count <= cfg.limit) && remaining == Max(0, cfg.limit - count)
      ensures now < reset as real <= now + 1.0
    {
      var start := now - cfg.window;
      var entries := {};
      if client in logs && now < logs[client].expires { entries := logs[client].entries; }
      entries := set s | s in entries && !(0.0 <= s <= start);
      entries := entries + {now};
      logs := logs[client := Log(entries, now + cfg.window)];
      remaining := Max(0, cfg.limit - |entries|);
      reset := (now + 1.0).Floor;
      allowed := |entries| <= cfg.limit;
    }
  }

  // --- Histories of one client ------------------------------------------------------------------

  /** The log before request `k`. */
  function Before(cfg: Config, ts: seq<real>, k: nat): Option<Log>
    requires k <= |ts|
  {
    if k == 0 then None else Some(Step(cfg, Before(cfg, ts, k - 1), ts[k - 1]))
  }

  predicate Admitted(cfg: Config, ts: seq<real>, k: nat)
    requires k < |ts|
  {
    |Step(cfg, Before(cfg, ts, k), ts[k]).entries| <= cfg.limit
  }

  /** Which requests were admitted. */
  function Verdicts(cfg: Config, ts: seq<real>): (vs: seq<bool>)
    ensures |vs| == |ts|
  {
    seq(|ts|, k requires 0 <= k < |ts| => Admitted(cfg, ts, k))
  }

  /** How many of the requests from `i` up to but not including `j` were admitted. */
  function Admissions(vs: seq<bool>, i: nat, j: nat): nat
    requires i <= j <= |vs|
  {
    if i == j then 0 else Admissions(vs, i, j - 1) + if vs[j - 1] then 1 else 0
  }

  /** Their times. */
  function AdmittedInstants(vs: seq<bool>, ts: seq<real>, i: nat, j: nat): set<real>
    requires i <= j <= |ts| == |vs|
  {
    if i == j then {} else AdmittedInstants(vs, ts, i, j - 1) + if vs[j - 1] then {ts[j - 1]} else {}
  }

  /** Clock readings: not negative, and never going back. */
  predicate Ordered(ts: seq<real>) {
    (forall i :: 0 <= i < |ts| ==> ts[i] >= 0.0) && forall i, j :: 0 <= i < j < |ts| ==> ts[i] <= ts[j]
  }

  predicate StrictlyOrdered(ts: seq<real>) { Ordered(ts) && forall i, j :: 0 <= i < j < |ts| ==> ts[i] < ts[j] }

  /** The times of requests `i` to `k`. */
  function Instants(ts: seq<real>, i: nat, k: nat): set<real>
    requires i <= k < |ts|
  {
    (if i == k then {} else Instants(ts, i, k - 1)) + {ts[k]}
  }

  /** Of the whole history up to request `k`, what is within a window's length before it. */
  function InWindow(cfg: Config, ts: seq<real>, k: nat): set<real>
    requires k < |ts|
  {
    set t | t in Instants(ts, 0, k) && t > ts[k] - cfg.window
  }

  lemma {:induction false} InstantsRange(ts: seq<real>, i: nat, k: nat)
    requires Ordered(ts) && i <= k < |ts|
    ensures forall t :: t in Instants(ts, i, k) ==> ts[i] <= t <= ts[k] && t in Instants(ts, 0, k)
  {
    if i < k { InstantsRange(ts, i, k - 1); }
  }

  /** Pruning and expiry lose nothing that counts. */
  lemma {:induction false} LogIsWindow(cfg: Config, ts: seq<real>, k: nat)
    requires Ordered(ts) && cfg.window > 0.0 && k < |ts|
    ensures Step(cfg, Before(cfg, ts, k), ts[k]).entries == InWindow(cfg, ts, k)
  {
    if k > 0 {
      LogIsWindow(cfg, ts, k - 1);
      InstantsRange(ts, 0, k - 1);
      NextWindow(cfg, Before(cfg, ts, k), Instants(ts, 0, k - 1), ts[k - 1], ts[k]);
    }
  }

  lemma NextWindow(cfg: Config, l: Option<Log>, history: set<real>, last: real, now: real)
    requires cfg.window > 0.0 && last <= now && forall t :: t in history ==> 0.0 <= t <= last
    requires l == Some(Log((set t | t in history && t > last - cfg.window), last + cfg.window))
    ensures Step(cfg, l, now).entries == set t | t in history + {now} && t > now - cfg.window
  {
  }

  /** A request is admitted exactly when the full history has at most `limit` instants within the
      window that ends with it, whether or not they were admitted. */
  lemma AdmittedIff(cfg: Config, ts: seq<real>, k: nat)
    requires Ordered(ts) && cfg.window > 0.0 && k < |ts|
    ensures Admitted(cfg, ts, k) <==> |InWindow(cfg, ts, k)| <= cfg.limit
  {
    LogIsWindow(cfg, ts, k);
  }

  // --- Bounds -----------------------------------------------------------------------------------

  /** An admitted request and those shortly before it, limited or not, have at most `limit` instants. */
  lemma UpToAdmitted(cfg: Config, ts: seq<real>, i: nat, k: nat)
    requires Ordered(ts) && cfg.window > 0.0 && i <= k < |ts| && ts[k] < ts[i] + cfg.window
    requires Admitted(cfg, ts, k)
    ensures |Instants(ts, i, k)| <= cfg.limit
  {
    AdmittedIff(cfg, ts, k);
    InstantsRange(ts, i, k);
    forall t | t in Instants(ts, i, k) ensures t in InWindow(cfg, ts, k) {}
    SubsetSize(Instants(ts, i, k), InWindow(cfg, ts, k));
  }

  lemma {:induction false} AdmittedAmongAll(vs: seq<bool>, ts: seq<real>, i: nat, j: nat)
    requires i <= j < |ts| == |vs|
    ensures AdmittedInstants(vs, ts, i, j + 1) <= Instants(ts, i, j)
  {
    assert AdmittedInstants(vs, ts, i, i) == {};
    if i < j { AdmittedAmongAll(vs, ts, i, j - 1); }
  }

  /** If every admitted request has at most `limit` instants up to it, so do all admitted together. */
  lemma {:induction false} LastAdmittedBounds(vs: seq<bool>, ts: seq<real>, limit: int, i: nat, j: nat)
    requires i <= j < |ts| == |vs| && forall k :: i <= k <= j && vs[k] ==> |Instants(ts, i, k)| <= limit
    ensures |AdmittedInstants(vs, ts, i, j + 1)| <= Max(0, limit)
  {
    assert AdmittedInstants(vs, ts, i, i) == {};
    if vs[j] {
      AdmittedAmongAll(vs, ts, i, j);
      SubsetSize(AdmittedInstants(vs, ts, i, j + 1), Instants(ts, i, j));
    } else if i < j {
      LastAdmittedBounds(vs, ts, limit, i, j - 1);
    }
  }

  predicate VerdictOn(cfg: Config, ts: seq<real>, vs: seq<bool>, k: nat)
    requires k < |ts| == |vs|
  {
    vs[k] == Admitted(cfg, ts, k)
  }

  lemma VerdictsBounded(cfg: Config, ts: seq<real>, vs: seq<bool>, i: nat, j: nat)
    requires Ordered(ts) && cfg.window > 0.0 && i <= j < |ts| == |vs| && ts[j] < ts[i] + cfg.window
    requires forall k :: 0 <= k < |ts| ==> VerdictOn(cfg, ts, vs, k)
    ensures |AdmittedInstants(vs, ts, i, j + 1)| <= Max(0, cfg.limit)
  {
    forall k | i <= k <= j && vs[k] ensures |Instants(ts, i, k)| <= cfg.limit {
      assert VerdictOn(cfg, ts, vs, k);
      UpToAdmitted(cfg, ts, i, k);
    }
    LastAdmittedBounds(vs, ts, cfg.limit, i, j);
  }

  /** Requests `i` to `j`, less than a window's length apart, were admitted at no more than `limit`
      different times. */
  lemma AnyStretch(cfg: Config, ts: seq<real>, i: nat, j: nat)
    requires Ordered(ts) && cfg.window > 0.0 && i <= j < |ts| && ts[j] < ts[i] + cfg.window
    ensures |AdmittedInstants(Verdicts(cfg, ts), ts, i, j + 1)| <= Max(0, cfg.limit)
  {
    VerdictsBounded(cfg, ts, Verdicts(cfg, ts), i, j);
  }

  lemma {:induction false} AdmissionsAreInstants(vs: seq<bool>, ts: seq<real>, i: nat, j: nat)
    requires StrictlyOrdered(ts) && i <= j <= |ts| == |vs|
    ensures Admissions(vs, i, j) == |AdmittedInstants(vs, ts, i, j)|
    ensures forall t :: t in AdmittedInstants(vs, ts, i, j) ==> i < j && t <= ts[j - 1]
  {
    if i < j { AdmissionsAreInstants(vs, ts, i, j - 1); }
  }

  /** So if no two requests read the same time, no more than `limit` were admitted. */
  lemma StrictStretch(cfg: Config, ts: seq<real>, i: nat, j: nat)
    requires StrictlyOrdered(ts) && cfg.window > 0.0 && i <= j < |ts| && ts[j] < ts[i] + cfg.window
    ensures Admissions(Verdicts(cfg, ts), i, j + 1) <= Max(0, cfg.limit)
  {
    AnyStretch(cfg, ts, i, j);
    AdmissionsAreInstants(Verdicts(cfg, ts), ts, i, j + 1);
  }

  /** Requests that read the same time are counted as one: any number of them is admitted. */
  lemma SameInstant(cfg: Config, ts: seq<real>, k: nat)
    requires cfg.limit >= 1 && cfg.window > 0.0 && k < |ts|
    requires forall i :: 0 <= i < |ts| ==> ts[i] == ts[0] >= 0.0
    ensures Admitted(cfg, ts, k)
  {
    AdmittedIff(cfg, ts, k);
    InstantsRange(ts, 0, k);
    assert InWindow(cfg, ts, k) <= {ts[k]};
    SubsetSize(InWindow(cfg, ts, k), {ts[k]});
  }
}
