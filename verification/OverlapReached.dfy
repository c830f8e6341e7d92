/** Histories of overlapping requests in which as many are let in as the bound allows. */
module OverlapReached {
  import opened Basics
  import F = FixedWindow
  import opened OverlappingRequests
  import opened EventHistories

  // --- Blocks of events -------------------------------------------------------------------------

  function Range(lo: nat, n: nat): (ids: set<nat>)
    ensures |ids| == n && forall id :: id in ids ==> lo <= id < lo + n
  {
    if n == 0 then {} else Range(lo, n - 1) + {lo + n - 1}
  }

  function Counting(count: int, expires: real): Option<F.Counter> { Some(F.Counter(count, Some(expires))) }

  /** `n` requests one after the other. */
  function Fill(n: nat, id: nat, now: real): seq<Event> {
    if n == 0 then [] else Fill(n - 1, id, now) + ([Ask(id, now)] + [Do(id, now)])
  }

  lemma OneMoreLetIn(cfg: F.Config, count: int, expires: real, opening: set<nat>, id: nat, now: real, c: nat)
    requires count < cfg.limit && now < expires && id !in opening && |opening| < c
    ensures Leads(cfg, State(Counting(count, expires), opening, {}), [Ask(id, now)] + [Do(id, now)],
                  State(Counting(count + 1, expires), opening, {}), 1, c)
  {
    var s := State(Counting(count, expires), opening, {});
    var t, u := s.(counting := {id}), State(Counting(count + 1, expires), opening, {});
    assert Step(cfg, s, Ask(id, now)) == t && Step(cfg, t, Do(id, now)) == u;
    LeadsByOne(cfg, s, Ask(id, now), c);
    LeadsByOne(cfg, t, Do(id, now), c);
    LeadsOn(cfg, s, [Ask(id, now)], t, 0, [Do(id, now)], u, 1, c, [Ask(id, now)] + [Do(id, now)], 1);
  }

  lemma {:induction false} FillLeads(cfg: F.Config, count: int, expires: real, opening: set<nat>, n: nat, id: nat,
                                     now: real, c: nat, s: State, t: State)
    requires count + n <= cfg.limit && now < expires && id !in opening && |opening| < c
    requires s == State(Counting(count, expires), opening, {}) && t == State(Counting(count + n, expires), opening, {})
    ensures Leads(cfg, s, Fill(n, id, now), t, n, c)
  {
    if n == 0 {
      LeadsNowhere(cfg, s, c);
    } else {
      var u := State(Counting(count + n - 1, expires), opening, {});
      FillLeads(cfg, count, expires, opening, n - 1, id, now, c, s, u);
      OneMoreLetIn(cfg, count + n - 1, expires, opening, id, now, c);
      assert t == State(Counting(count + n - 1 + 1, expires), opening, {});
      LeadsOn(cfg, s, Fill(n - 1, id, now), u, n - 1, [Ask(id, now)] + [Do(id, now)], t, 1, c, Fill(n, id, now), n);
    }
  }

  function Asks(n: nat, lo: nat, now: real): seq<Event> {
    if n == 0 then [] else Asks(n - 1, lo, now) + [Ask(lo + n - 1, now)]
  }

  function Dos(n: nat, lo: nat, now: real): seq<Event> {
    if n == 0 then [] else [Do(lo + n - 1, now)] + Dos(n - 1, lo, now)
  }

  /** A counter below the limit, which `n` are about to increment. */
  function Waiting(count: int, expires: real, opening: set<nat>, n: nat, lo: nat): State {
    State(Counting(count, expires), opening, Range(lo, n))
  }

  lemma NobodyWaiting(count: int, expires: real, opening: set<nat>, lo: nat)
    ensures Waiting(count, expires, opening, 0, lo) == State(Counting(count, expires), opening, {})
  {
  }

  lemma AskStep(cfg: F.Config, count: int, expires: real, opening: set<nat>, n: nat, lo: nat, now: real)
    requires n > 0 && count < cfg.limit && now < expires && forall id :: id in opening ==> id < lo
    ensures Step(cfg, Waiting(count, expires, opening, n - 1, lo), Ask(lo + n - 1, now))
         == Waiting(count, expires, opening, n, lo)
  {
  }

  lemma DoStep(cfg: F.Config, count: int, expires: real, opening: set<nat>, n: nat, lo: nat, now: real)
    requires n > 0 && now < expires && forall id :: id in opening ==> id < lo
    ensures Step(cfg, Waiting(count, expires, opening, n, lo), Do(lo + n - 1, now))
         == Waiting(count + 1, expires, opening, n - 1, lo)
    ensures Admits(Waiting(count, expires, opening, n, lo), Do(lo + n - 1, now))
  {
    assert Range(lo, n) - {lo + n - 1} == Range(lo, n - 1);
  }

  /** All of these read the counter below the limit. */
  lemma {:induction false} AsksLead(cfg: F.Config, count: int, expires: real, opening: set<nat>, n: nat, lo: nat,
                                    now: real, c: nat, s: State, u: State)
    requires count < cfg.limit && now < expires && |opening| + n <= c && forall id :: id in opening ==> id < lo
    requires s == Waiting(count, expires, opening, 0, lo) && u == Waiting(count, expires, opening, n, lo)
    ensures Leads(cfg, s, Asks(n, lo, now), u, 0, c)
  {
    if n == 0 {
      LeadsNowhere(cfg, s, c);
    } else {
      var t := Waiting(count, expires, opening, n - 1, lo);
      AsksLead(cfg, count, expires, opening, n - 1, lo, now, c, s, t);
      AskStep(cfg, count, expires, opening, n, lo, now);
      LeadsByOne(cfg, t, Ask(lo + n - 1, now), c);
      LeadsOn(cfg, s, Asks(n - 1, lo, now), t, 0, [Ask(lo + n - 1, now)], u, 0, c, Asks(n, lo, now), 0);
    }
  }

  /** And all increment it. */
  lemma {:induction false} DosLead(cfg: F.Config, count: int, expires: real, opening: set<nat>, n: nat, lo: nat,
                                   now: real, c: nat, s: State, v: State)
    requires now < expires && |opening| + n <= c && forall id :: id in opening ==> id < lo
    requires s == Waiting(count, expires, opening, n, lo) && v == Waiting(count + n, expires, opening, 0, lo)
    ensures Leads(cfg, s, Dos(n, lo, now), v, n, c)
    decreases n
  {
    if n == 0 {
      LeadsNowhere(cfg, s, c);
    } else {
      var t := Waiting(count + 1, expires, opening, n - 1, lo);
      DoStep(cfg, count, expires, opening, n, lo, now);
      LeadsByOne(cfg, s, Do(lo + n - 1, now), c);
      DosLead(cfg, count + 1, expires, opening, n - 1, lo, now, c, t, v);
      LeadsOn(cfg, s, [Do(lo + n - 1, now)], t, 1, Dos(n - 1, lo, now), v, n - 1, c, Dos(n, lo, now), n);
    }
  }

  /** What a new counter can still let in while `n` may be in flight: one by one up to the last one
      below the limit, and then `n` at once. */
  function Serve(m: nat, n: nat, lo: nat, now: real): seq<Event> {
    if m <= 1 then [] else Fill(m - 2, lo, now) + (Asks(n, lo, now) + Dos(n, lo, now))
  }

  lemma ServeLeads(cfg: F.Config, m: nat, expires: real, opening: set<nat>, n: nat, lo: nat, now: real, c: nat,
                   s: State, v: State)
    requires m == Max(1, cfg.limit) && n >= 1 && now < expires && |opening| + n <= c
    requires forall id :: id in opening ==> id < lo
    requires s == State(Counting(1, expires), opening, {})
    requires v == State(Counting(Capacity(m, n), expires), opening, {})
    ensures Leads(cfg, s, Serve(m, n, lo, now), v, Capacity(m, n) - 1, c)
  {
    if m <= 1 {
      LeadsNowhere(cfg, s, c);
    } else {
      var t, u := Waiting(m - 1, expires, opening, 0, lo), Waiting(m - 1, expires, opening, n, lo);
      NobodyWaiting(m - 1, expires, opening, lo);
      NobodyWaiting(m - 1 + n, expires, opening, lo);
      FillLeads(cfg, 1, expires, opening, m - 2, lo, now, c, s, t);
      AsksLead(cfg, m - 1, expires, opening, n, lo, now, c, t, u);
      DosLead(cfg, m - 1, expires, opening, n, lo, now, c, u, v);
      ServeTogether(cfg, m, n, lo, now, c, s, t, u, v);
    }
  }

  lemma ServeTogether(cfg: F.Config, m: nat, n: nat, lo: nat, now: real, c: nat, s: State, t: State, u: State, v: State)
    requires m >= 2
    requires Leads(cfg, s, Fill(m - 2, lo, now), t, m - 2, c)
    requires Leads(cfg, t, Asks(n, lo, now), u, 0, c)
    requires Leads(cfg, u, Dos(n, lo, now), v, n, c)
    ensures Leads(cfg, s, Serve(m, n, lo, now), v, Capacity(m, n) - 1, c)
  {
    LeadsOnTwice(cfg, s, Fill(m - 2, lo, now), t, m - 2, Asks(n, lo, now), u, 0, Dos(n, lo, now), v, n, c);
  }

  /** A counter that `n` requests are about to set anew. */
  function Pending(counter: Option<F.Counter>, n: nat): State { State(counter, Range(0, n), {}) }

  /** All of these find the counter expired. */
  lemma {:induction false} OpensLead(cfg: F.Config, count: int, expires: real, n: nat, now: real, c: nat)
    requires now >= expires && n <= c
    ensures Leads(cfg, Pending(Counting(count, expires), 0), Asks(n, 0, now),
                  Pending(Counting(count, expires), n), 0, c)
  {
    var s, u := Pending(Counting(count, expires), 0), Pending(Counting(count, expires), n);
    if n == 0 {
      LeadsNowhere(cfg, s, c);
    } else {
      var t := Pending(Counting(count, expires), n - 1);
      OpensLead(cfg, count, expires, n - 1, now, c);
      assert Step(cfg, t, Ask(n - 1, now)) == u;
      LeadsByOne(cfg, t, Ask(n - 1, now), c);
      LeadsOn(cfg, s, Asks(n - 1, 0, now), t, 0, [Ask(n - 1, now)], u, 0, c, Asks(n, 0, now), 0);
    }
  }

  /** Each of `k` of them sets the counter anew, and what it can let in is let in before the next. */
  function Rounds(m: nat, k: nat, c: nat, now: real): seq<Event>
    requires k <= c
  {
    if k == 0 then [] else Round(m, k, c, now) + Rounds(m, k - 1, c, now)
  }

  function Round(m: nat, k: nat, c: nat, now: real): seq<Event>
    requires 0 < k <= c
  {
    [Do(k - 1, now)] + Serve(m, c - k + 1, c, now)
  }

  lemma OpenStep(cfg: F.Config, counter: Option<F.Counter>, k: nat, now: real)
    requires k > 0
    ensures Step(cfg, Pending(counter, k), Do(k - 1, now)) == State(Counting(1, now + cfg.window), Range(0, k - 1), {})
    ensures Admits(Pending(counter, k), Do(k - 1, now))
  {
    assert Range(0, k) - {k - 1} == Range(0, k - 1);
  }

  lemma RoundLeads(cfg: F.Config, m: nat, counter: Option<F.Counter>, k: nat, c: nat, now: real, t: State)
    requires m == Max(1, cfg.limit) && cfg.window > 0.0 && 0 < k <= c
    requires t == Pending(Counting(Capacity(m, c - k + 1), now + cfg.window), k - 1)
    ensures Leads(cfg, Pending(counter, k), Round(m, k, c, now), t, Capacity(m, c - k + 1), c)
  {
    var s := Pending(counter, k);
    var anew := State(Counting(1, now + cfg.window), Range(0, k - 1), {});
    OpenStep(cfg, counter, k, now);
    LeadsByOne(cfg, s, Do(k - 1, now), c);
    ServeLeads(cfg, m, now + cfg.window, Range(0, k - 1), c - k + 1, c, now, c, anew, t);
    LeadsOn(cfg, s, [Do(k - 1, now)], anew, 1, Serve(m, c - k + 1, c, now), t, Capacity(m, c - k + 1) - 1, c,
            Round(m, k, c, now), Capacity(m, c - k + 1));
  }

  /** What the last `k` of `c` counters can let in. */
  function SharedBelow(m: nat, c: nat, k: nat): nat
    requires k <= c
  {
    SharedGrows(m, c - k, c);
    Shared(m, c) - Shared(m, c - k)
  }

  lemma SharedStep(m: nat, c: nat, k: nat)
    requires 0 < k <= c
    ensures SharedBelow(m, c, k) == Capacity(m, c - k + 1) + SharedBelow(m, c, k - 1)
  {
    assert Shared(m, c - k + 1) == Shared(m, c - k) + Capacity(m, c - k + 1);
  }

  lemma {:induction false} RoundsLead(cfg: F.Config, m: nat, counter: Option<F.Counter>, k: nat, c: nat, now: real,
                                      s: State, gain: nat)
      returns (t: State)
    requires m == Max(1, cfg.limit) && cfg.window > 0.0 && k <= c && gain == SharedBelow(m, c, k)
    requires s == Pending(counter, k)
    ensures Leads(cfg, s, Rounds(m, k, c, now), t, gain, c)
    decreases k
  {
    if k == 0 {
      t := s;
      LeadsNowhere(cfg, s, c);
    } else {
      var n, rest := c - k + 1, SharedBelow(m, c, k - 1);
      var next := Pending(Counting(Capacity(m, n), now + cfg.window), k - 1);
      SharedStep(m, c, k);
      RoundLeads(cfg, m, counter, k, c, now, next);
      t := RoundsLead(cfg, m, next.counter, k - 1, c, now, next, rest);
      RoundsTogether(cfg, m, k, c, now, s, next, t, Capacity(m, n), rest);
    }
  }

  lemma RoundsTogether(cfg: F.Config, m: nat, k: nat, c: nat, now: real, s: State, next: State, t: State, g: nat,
      h: nat)
    requires 0 < k <= c && Leads(cfg, s, Round(m, k, c, now), next, g, c)
    requires Leads(cfg, next, Rounds(m, k - 1, c, now), t, h, c)
    ensures Leads(cfg, s, Rounds(m, k, c, now), t, g + h, c)
  {
    LeadsOn(cfg, s, Round(m, k, c, now), next, g, Rounds(m, k - 1, c, now), t, h, c, Rounds(m, k, c, now), g + h);
  }

  // --- The history ------------------------------------------------------------------------------

  predicate AllAt(es: seq<Event>, now: real) { forall i :: 0 <= i < |es| ==> es[i].now == now }

  lemma {:induction false} FillAt(n: nat, id: nat, now: real)
    ensures AllAt(Fill(n, id, now), now)
  {
    if n > 0 { FillAt(n - 1, id, now); }
  }

  lemma {:induction false} AsksDosAt(n: nat, lo: nat, now: real)
    ensures AllAt(Asks(n, lo, now), now) && AllAt(Dos(n, lo, now), now) && |Asks(n, lo, now)| == n
  {
    if n > 0 { AsksDosAt(n - 1, lo, now); }
  }

  lemma ServeAt(m: nat, n: nat, lo: nat, now: real)
    ensures AllAt(Serve(m, n, lo, now), now)
  {
    if m > 1 {
      FillAt(m - 2, lo, now);
      AsksDosAt(n, lo, now);
    }
  }

  lemma {:induction false} RoundsAt(m: nat, k: nat, c: nat, now: real)
    requires k <= c
    ensures AllAt(Rounds(m, k, c, now), now)
  {
    if k > 0 {
      ServeAt(m, c - k + 1, c, now);
      assert AllAt(Round(m, k, c, now), now);
      RoundsAt(m, k - 1, c, now);
    }
  }

  /** One request, at the beginning. */
  lemma FirstPiece(cfg: F.Config, c: nat) returns (es: seq<Event>, s: State)
    requires c >= 1
    ensures Leads(cfg, State(None, {}, {}), es, s, 1, c) && AllAt(es, 0.0) && |es| == 2
    ensures s == State(Counting(1, cfg.window), {}, {})
  {
    var none := State(None, {}, {});
    var t := none.(opening := {c});
    es, s := [Ask(c, 0.0)] + [Do(c, 0.0)], State(Counting(1, cfg.window), {}, {});
    assert Step(cfg, none, Ask(c, 0.0)) == t && Step(cfg, t, Do(c, 0.0)) == s;
    LeadsByOne(cfg, none, Ask(c, 0.0), c);
    LeadsByOne(cfg, t, Do(c, 0.0), c);
    LeadsOn(cfg, none, [Ask(c, 0.0)], t, 0, [Do(c, 0.0)], s, 1, c, es, 1);
  }

  /** In the middle of its window, as many as its counter can still let in. */
  lemma ServePiece(cfg: F.Config, m: nat, c: nat, s: State) returns (es: seq<Event>, t: State)
    requires m == Max(1, cfg.limit) && c >= 1 && cfg.window > 0.0 && s == State(Counting(1, cfg.window), {}, {})
    ensures Leads(cfg, s, es, t, Capacity(m, c) - 1, c) && AllAt(es, cfg.window / 2.0)
    ensures t == State(Counting(Capacity(m, c), cfg.window), {}, {})
  {
    es, t := Serve(m, c, c, cfg.window / 2.0), State(Counting(Capacity(m, c), cfg.window), {}, {});
    ServeAt(m, c, c, cfg.window / 2.0);
    ServeLeads(cfg, m, cfg.window, {}, c, c, cfg.window / 2.0, c, s, t);
  }

  /** When the window is over, `c` that find the counter expired. */
  lemma OpenPiece(cfg: F.Config, count: int, c: nat, s: State) returns (es: seq<Event>, t: State)
    requires c >= 1 && s == State(Counting(count, cfg.window), {}, {})
    ensures Leads(cfg, s, es, t, 0, c) && AllAt(es, cfg.window) && |es| > 0 && t == Pending(s.counter, c)
  {
    es, t := Asks(c, 0, cfg.window), Pending(s.counter, c);
    AsksDosAt(c, 0, cfg.window);
    assert Pending(s.counter, 0) == s;
    OpensLead(cfg, count, cfg.window, c, cfg.window, c);
  }

  /** And then a counter for each. */
  lemma RoundsPiece(cfg: F.Config, m: nat, c: nat, counter: Option<F.Counter>, s: State, gain: nat)
      returns (es: seq<Event>, t: State)
    requires m == Max(1, cfg.limit) && cfg.window > 0.0 && s == Pending(counter, c) && gain == SharedBelow(m, c, c)
    ensures Leads(cfg, s, es, t, gain, c) && AllAt(es, cfg.window)
  {
    es := Rounds(m, c, c, cfg.window);
    RoundsAt(m, c, c, cfg.window);
    t := RoundsLead(cfg, m, counter, c, c, cfg.window, s, gain);
  }

  lemma ThreeTimes(a: seq<Event>, b: seq<Event>, d: seq<Event>, t: real, u: real, v: real)
    requires AllAt(a, t) && AllAt(b, u) && AllAt(d, v) && t <= u <= v
    ensures Timed(a + (b + d)) && forall i :: |a| <= i < |a + (b + d)| ==> u <= (a + (b + d))[i].now <= v
  {
    var es := a + (b + d);
    forall i | 0 <= i < |es|
      ensures es[i].now == if i < |a| then t else if i < |a| + |b| then u else v
    {
    }
  }

  /** For every limit, window and number of requests that may overlap there is a history in which they
      do, and in a stretch of it shorter than a window as many are let in as the bound allows. */
  lemma BoundIsReached(cfg: F.Config, c: nat) returns (es: seq<Event>, i: nat)
    requires cfg.window > 0.0 && c >= 1
    ensures Timed(es) && AtMost(cfg, es, c) && i < |es| && es[|es| - 1].now < es[i].now + cfg.window
    ensures Admissions(cfg, es, i, |es|) == Bound(Max(1, cfg.limit), c)
  {
    var m := Max(1, cfg.limit);
    var first, s := FirstPiece(cfg, c);
    var serve, served := ServePiece(cfg, m, c, s);
    var asks, pending := OpenPiece(cfg, Capacity(m, c), c, served);
    var rounds, t := RoundsPiece(cfg, m, c, served.counter, pending, SharedBelow(m, c, c));
    es := Together(cfg, c, first, s, serve, served, Capacity(m, c) - 1, asks, pending, rounds, t, SharedBelow(m, c, c));
    i := |first|;
    BoundIsSum(m, c);
  }

  lemma BoundIsSum(m: nat, c: nat)
    ensures Bound(m, c) == Capacity(m, c) - 1 + SharedBelow(m, c, c)
  {
    assert Shared(m, 0) == 0;
  }

  lemma Together(cfg: F.Config, c: nat, first: seq<Event>, s: State, serve: seq<Event>, served: State, g: nat,
                 asks: seq<Event>, pending: State, rounds: seq<Event>, t: State, h: nat)
      returns (es: seq<Event>)
    requires cfg.window > 0.0 && Leads(cfg, State(None, {}, {}), first, s, 1, c)
    requires Leads(cfg, s, serve, served, g, c) && Leads(cfg, served, asks, pending, 0, c)
    requires Leads(cfg, pending, rounds, t, h, c)
    requires AllAt(first, 0.0) && AllAt(serve, cfg.window / 2.0)
    requires AllAt(asks, cfg.window) && AllAt(rounds, cfg.window) && |asks| > 0
    ensures Timed(es) && AtMost(cfg, es, c) && |es| > |first|
    ensures es[|es| - 1].now < es[|first|].now + cfg.window && Admissions(cfg, es, |first|, |es|) == g + h
  {
    var rest := serve + (asks + rounds);
    LeadsOnTwice(cfg, s, serve, served, g, asks, pending, 0, rounds, t, h, c);
    LeadsFromStart(cfg, first, s, 1, rest, t, g + h, c);
    ThreeTimes(first, serve, asks + rounds, 0.0, cfg.window / 2.0, cfg.window);
    es := first + rest;
  }

  // --- One request at a time --------------------------------------------------------------------

  /** Any stretch shorter than a window lets in at most `2 * limit - 1`. */
  predicate StretchHolds(cfg: F.Config, es: seq<Event>, i: nat, j: nat) {
    i < j <= |es| && es[j - 1].now < es[i].now + cfg.window ==> Admissions(cfg, es, i, j) <= 2 * Max(1, cfg.limit) - 1
  }

  ghost predicate PromiseHolds(cfg: F.Config, c: nat) {
    forall es: seq<Event>, i: nat, j: nat :: Timed(es) && AtMost(cfg, es, c) ==> StretchHolds(cfg, es, i, j)
  }

  lemma BoundExceeds(m: nat, c: nat)
    requires m >= 1 && c >= 2
    ensures Bound(m, c) > 2 * m - 1
  {
    SharedGrows(m, 2, c);
    assert Shared(m, 0) == 0 && Shared(m, 1) == Capacity(m, 1) && Shared(m, 2) == Capacity(m, 1) + Capacity(m, 2);
  }

  /** That is so in every history with at most `c` overlapping requests if and only if `c` is one. */
  lemma PromiseIffOneAtATime(cfg: F.Config, c: nat)
    requires cfg.window > 0.0 && c >= 1
    ensures PromiseHolds(cfg, c) <==> c == 1
  {
    if c == 1 {
      BoundOfOne(Max(1, cfg.limit));
      forall es: seq<Event>, i: nat, j: nat | Timed(es) && AtMost(cfg, es, c)
        ensures StretchHolds(cfg, es, i, j)
      {
        if i < j <= |es| && es[j - 1].now < es[i].now + cfg.window { AnyStretch(cfg, es, i, j - 1, c); }
      }
    } else {
      var es, i := BoundIsReached(cfg, c);
      BoundExceeds(Max(1, cfg.limit), c);
      assert !StretchHolds(cfg, es, i, |es|);
    }
  }
}
