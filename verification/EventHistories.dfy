/** Histories of overlapping requests put together from pieces. */
module EventHistories {
  import opened Basics
  import F = FixedWindow
  import opened OverlappingRequests

  function Apply(cfg: F.Config, s: State, es: seq<Event>): State {
    if es == [] then s else Step(cfg, Apply(cfg, s, es[..|es| - 1]), es[|es| - 1])
  }

  /** How many the events let in. */
  function Gain(cfg: F.Config, s: State, es: seq<Event>): nat {
    if es == [] then 0
    else Gain(cfg, s, es[..|es| - 1]) + if Admits(Apply(cfg, s, es[..|es| - 1]), es[|es| - 1]) then 1 else 0
  }

  /** How many are in flight at most. */
  function Peak(cfg: F.Config, s: State, es: seq<Event>): int {
    if es == [] then InFlight(s) else Max(Peak(cfg, s, es[..|es| - 1]), InFlight(Apply(cfg, s, es)))
  }

  predicate Same(a: seq<Event>, b: seq<Event>) { a == b }

  /** The events lead from one state to the other, let in `gain`, and at most `c` are ever in flight.
      (The quantifier only keeps the definition out of proofs that go by the lemmas below.) */
  ghost predicate Leads(cfg: F.Config, s: State, es: seq<Event>, t: State, gain: nat, c: nat) {
    forall whole {:trigger Same(whole, es)} :: Same(whole, es) ==>
      Apply(cfg, s, whole) == t && Gain(cfg, s, whole) == gain && Peak(cfg, s, whole) <= c
  }

  lemma LeadsMeans(cfg: F.Config, s: State, es: seq<Event>, t: State, gain: nat, c: nat)
    ensures Leads(cfg, s, es, t, gain, c) <==>
      Apply(cfg, s, es) == t && Gain(cfg, s, es) == gain && Peak(cfg, s, es) <= c
  {
    assert Same(es, es);
  }

  lemma {:induction false} Append(cfg: F.Config, s: State, a: seq<Event>, b: seq<Event>)
    ensures Apply(cfg, s, a + b) == Apply(cfg, Apply(cfg, s, a), b)
    ensures Gain(cfg, s, a + b) == Gain(cfg, s, a) + Gain(cfg, Apply(cfg, s, a), b)
    ensures Peak(cfg, s, a + b) == Max(Peak(cfg, s, a), Peak(cfg, Apply(cfg, s, a), b))
  {
    if b == [] {
      assert a + b == a;
      PeakCoversEnd(cfg, s, a);
    } else {
      assert (a + b)[..|a + b| - 1] == a + b[..|b| - 1];
      Append(cfg, s, a, b[..|b| - 1]);
    }
  }

  lemma PeakCoversEnd(cfg: F.Config, s: State, es: seq<Event>)
    ensures Peak(cfg, s, es) >= InFlight(Apply(cfg, s, es))
  {
  }

  lemma LeadsOn(cfg: F.Config, s: State, a: seq<Event>, t: State, g: nat, b: seq<Event>, u: State, h: nat, c: nat,
                es: seq<Event>, gain: nat)
    requires Leads(cfg, s, a, t, g, c) && Leads(cfg, t, b, u, h, c) && es == a + b && gain == g + h
    ensures Leads(cfg, s, es, u, gain, c)
  {
    LeadsMeans(cfg, s, a, t, g, c);
    LeadsMeans(cfg, t, b, u, h, c);
    LeadsMeans(cfg, s, es, u, gain, c);
    Append(cfg, s, a, b);
  }

  lemma LeadsOnTwice(cfg: F.Config, s: State, a: seq<Event>, t: State, g: nat, b: seq<Event>, u: State, h: nat,
                     d: seq<Event>, v: State, i: nat, c: nat)
    requires Leads(cfg, s, a, t, g, c) && Leads(cfg, t, b, u, h, c) && Leads(cfg, u, d, v, i, c)
    ensures Leads(cfg, s, a + (b + d), v, g + h + i, c)
  {
    LeadsOn(cfg, t, b, u, h, d, v, i, c, b + d, h + i);
    LeadsOn(cfg, s, a, t, g, b + d, v, h + i, c, a + (b + d), g + h + i);
  }

  lemma LeadsByOne(cfg: F.Config, s: State, e: Event, c: nat)
    requires InFlight(s) <= c && InFlight(Step(cfg, s, e)) <= c
    ensures Leads(cfg, s, [e], Step(cfg, s, e), if Admits(s, e) then 1 else 0, c)
  {
    assert [e][..0] == [] && Apply(cfg, s, []) == s && Gain(cfg, s, []) == 0 && Peak(cfg, s, []) == InFlight(s);
    assert Apply(cfg, s, [e]) == Step(cfg, s, e) && Gain(cfg, s, [e]) == if Admits(s, e) then 1 else 0;
    LeadsMeans(cfg, s, [e], Step(cfg, s, e), if Admits(s, e) then 1 else 0, c);
  }

  lemma LeadsNowhere(cfg: F.Config, s: State, c: nat)
    requires InFlight(s) <= c
    ensures Leads(cfg, s, [], s, 0, c)
  {
    LeadsMeans(cfg, s, [], s, 0, c);
  }

  lemma {:induction false} AfterIsApply(cfg: F.Config, es: seq<Event>, k: nat)
    requires k <= |es|
    ensures After(cfg, es, k) == Apply(cfg, State(None, {}, {}), es[..k])
  {
    if k > 0 {
      AfterIsApply(cfg, es, k - 1);
      assert es[..k][..k - 1] == es[..k - 1];
    }
  }

  lemma {:induction false} PeakIsAtMost(cfg: F.Config, s: State, es: seq<Event>, c: nat, k: nat)
    requires Peak(cfg, s, es) <= c && k <= |es|
    ensures InFlight(Apply(cfg, s, es[..k])) <= c
  {
    if k < |es| {
      assert es[..|es| - 1][..k] == es[..k];
      PeakIsAtMost(cfg, s, es[..|es| - 1], c, k);
    } else {
      assert es[..k] == es;
      PeakCoversEnd(cfg, s, es);
    }
  }

  lemma {:induction false} AdmissionsAreGain(cfg: F.Config, a: seq<Event>, b: seq<Event>, k: nat)
    requires k <= |b|
    ensures Admissions(cfg, a + b, |a|, |a| + k) == Gain(cfg, Apply(cfg, State(None, {}, {}), a), b[..k])
  {
    if k > 0 {
      AdmissionsAreGain(cfg, a, b, k - 1);
      StateWithin(cfg, a, b, k - 1);
      assert b[..k][..k - 1] == b[..k - 1];
    }
  }

  lemma StateWithin(cfg: F.Config, a: seq<Event>, b: seq<Event>, k: nat)
    requires k <= |b|
    ensures After(cfg, a + b, |a| + k) == Apply(cfg, Apply(cfg, State(None, {}, {}), a), b[..k])
  {
    AfterIsApply(cfg, a + b, |a| + k);
    assert (a + b)[..|a| + k] == a + b[..k];
    Append(cfg, State(None, {}, {}), a, b[..k]);
  }

  lemma AllAdmissions(cfg: F.Config, a: seq<Event>, b: seq<Event>)
    ensures Admissions(cfg, a + b, |a|, |a| + |b|) == Gain(cfg, Apply(cfg, State(None, {}, {}), a), b)
  {
    AdmissionsAreGain(cfg, a, b, |b|);
    assert b[..|b|] == b;
  }

  /** What pieces of history say of the whole one. */
  lemma LeadsFromStart(cfg: F.Config, a: seq<Event>, s: State, g: nat, b: seq<Event>, t: State, h: nat, c: nat)
    requires Leads(cfg, State(None, {}, {}), a, s, g, c) && Leads(cfg, s, b, t, h, c)
    ensures AtMost(cfg, a + b, c) && Admissions(cfg, a + b, |a|, |a| + |b|) == h
  {
    GainFromStart(cfg, a, s, g, b, t, h, c);
    LeadsOn(cfg, State(None, {}, {}), a, s, g, b, t, h, c, a + b, g + h);
    FewFromStart(cfg, a + b, t, g + h, c);
  }

  lemma GainFromStart(cfg: F.Config, a: seq<Event>, s: State, g: nat, b: seq<Event>, t: State, h: nat, c: nat)
    requires Leads(cfg, State(None, {}, {}), a, s, g, c) && Leads(cfg, s, b, t, h, c)
    ensures Admissions(cfg, a + b, |a|, |a| + |b|) == h
  {
    LeadsMeans(cfg, State(None, {}, {}), a, s, g, c);
    LeadsMeans(cfg, s, b, t, h, c);
    AllAdmissions(cfg, a, b);
  }

  lemma FewFromStart(cfg: F.Config, es: seq<Event>, t: State, g: nat, c: nat)
    requires Leads(cfg, State(None, {}, {}), es, t, g, c)
    ensures AtMost(cfg, es, c)
  {
    LeadsMeans(cfg, State(None, {}, {}), es, t, g, c);
    PeakFromStart(cfg, es, c);
  }

  lemma PeakFromStart(cfg: F.Config, es: seq<Event>, c: nat)
    requires Peak(cfg, State(None, {}, {}), es) <= c
    ensures AtMost(cfg, es, c)
  {
    forall k | 0 <= k <= |es| ensures FewAt(cfg, es, k, c) {
      AfterIsApply(cfg, es, k);
      PeakIsAtMost(cfg, State(None, {}, {}), es, c, k);
    }
  }
}
